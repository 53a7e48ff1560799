/**
 * The static-file handler's two pure helpers: `sanitizePath`, which turns a
 * request path into a path relative to the public directory, and
 * `contentType`, which picks the response type from the file name's
 * extension.
 */
module StaticFiles {
  import opened Text

  /** `s.contains("..")`. */
  predicate HasDotDot(s: string)
  {
    Contains(s, "..")
  }

  /** `s.replace('\\', '/')`: every backslash becomes a slash. */
  function ForwardSlashes(s: string): (r: string)
    ensures |r| == |s|
    ensures forall i :: 0 <= i < |s| ==> r[i] == (if s[i] == '\\' then '/' else s[i])
    ensures '\\' !in r
  {
    seq(|s|, i requires 0 <= i < |s| => if s[i] == '\\' then '/' else s[i])
  }

  /**
   * `s.replace("..", "")`: one left-to-right scan that drops each ".." it
   * meets, the two dots of a match never being reused.
   */
  function WithoutDotDot(s: string): (r: string)
    ensures |r| <= |s|
    ensures '\\' !in s ==> '\\' !in r
    ensures s != [] && s[0] != '.' ==> r != [] && r[0] == s[0]
    decreases |s|
  {
    if |s| >= 2 && s[0] == '.' && s[1] == '.' then WithoutDotDot(s[2..])
    else if s == [] then []
    else [s[0]] + WithoutDotDot(s[1..])
  }

  /** A string without ".." is its own replacement; one with ".." loses at least two characters. */
  lemma {:induction false} DotDotShrinks(s: string)
    ensures !HasDotDot(s) ==> WithoutDotDot(s) == s
    ensures HasDotDot(s) ==> |WithoutDotDot(s)| <= |s| - 2
    decreases |s|
  {
    if |s| >= 2 && s[0] == '.' && s[1] == '.' {
      assert StartsWith(s, "..");
    } else if s != [] {
      DotDotShrinks(s[1..]);
      assert !StartsWith(s, "..");
      assert s == [s[0]] + s[1..];
    }
  }

  /** A single scan already removes every "..": a kept dot is never followed by a removed pair. */
  lemma {:induction false} OnePassSuffices(s: string)
    ensures !HasDotDot(WithoutDotDot(s))
    decreases |s|
  {
    if |s| >= 2 && s[0] == '.' && s[1] == '.' {
      OnePassSuffices(s[2..]);
    } else if s != [] {
      var rest := WithoutDotDot(s[1..]);
      OnePassSuffices(s[1..]);
      var r := [s[0]] + rest;
      assert r[1..] == rest;
      if s[0] == '.' && |s| >= 2 {
        // a dot kept in front is followed by the next character, which is not a dot
        assert rest[0] == s[1];
      }
      assert !StartsWith(r, "..");
    }
  }

  /** The `while (p.contains(".."))` loop, as a function: scan until no ".." is left. */
  function Collapse(s: string): (r: string)
    ensures !HasDotDot(r)
    ensures '\\' !in s ==> '\\' !in r
    decreases |s|
  {
    if HasDotDot(s) then
      DotDotShrinks(s);
      Collapse(WithoutDotDot(s))
    else s
  }

  /** The loop body runs at most once. */
  lemma CollapseIsOnePass(s: string)
    ensures Collapse(s) == WithoutDotDot(s)
  {
    DotDotShrinks(s);
    if HasDotDot(s) {
      OnePassSuffices(s);
      DotDotShrinks(WithoutDotDot(s));
    }
  }

  /** What `sanitizePath` returns: slashes forward, every ".." gone, one leading slash dropped. */
  function Sanitized(path: string): string
  {
    var p := Collapse(ForwardSlashes(path));
    if StartsWith(p, "/") then p[1..] else p
  }

  /** `sanitizePath`. */
  method SanitizePath(path: string) returns (r: string)
    ensures r == Sanitized(path)
  {
    var p := ForwardSlashes(path);
    while HasDotDot(p)
      invariant Collapse(p) == Collapse(ForwardSlashes(path))
      decreases |p|
    {
      DotDotShrinks(p);
      p := WithoutDotDot(p);
    }
    if StartsWith(p, "/") {
      p := p[1..];
    }
    return p;
  }

  /** Dropping the first character cannot create a "..". */
  lemma TailKeepsClean(s: string)
    requires s != [] && !HasDotDot(s)
    ensures !HasDotDot(s[1..])
  {
  }

  /**
   * The sanitised path holds no ".." and no backslash, and it is the
   * collapsed path with at most one leading slash removed.
   */
  lemma SanitizedIsClean(path: string)
    ensures !HasDotDot(Sanitized(path))
    ensures '\\' !in Sanitized(path)
    ensures var p := Collapse(ForwardSlashes(path));
            Sanitized(path) == p || (p != [] && p[0] == '/' && Sanitized(path) == p[1..])
  {
    var p := Collapse(ForwardSlashes(path));
    if StartsWith(p, "/") {
      TailKeepsClean(p);
      assert p[0] == '/';
      assert forall i :: 0 <= i < |p[1..]| ==> p[1..][i] == p[i + 1];
    }
  }

  /** A path already free of backslashes, ".." and a leading slash is left as it is. */
  lemma CleanPathUnchanged(path: string)
    requires '\\' !in path && !HasDotDot(path) && (path == [] || path[0] != '/')
    ensures Sanitized(path) == path
  {
    assert ForwardSlashes(path) == path;
  }

  /** Only one leading slash goes: "//etc/passwd" becomes "/etc/passwd". */
  lemma DoubleSlashKeepsOne()
    ensures Sanitized("//etc/passwd") == "/etc/passwd"
  {
    var s := "//etc/passwd";
    assert ForwardSlashes(s) == s;
    PlainScan(s);
    CleanCollapse(s);
  }

  /** A path without ".." collapses to itself. */
  lemma CleanCollapse(s: string)
    requires !HasDotDot(s)
    ensures Collapse(s) == s
  {
  }

  /** A step up out of the root is dropped: "/.." followed by a dot-free, backslash-free rest sanitises to the rest. */
  lemma ParentStepRemoved(rest: string)
    requires '.' !in rest && '\\' !in rest
    ensures Sanitized("/.." + rest) == rest
  {
    var a := "/.." + rest;
    assert forall i :: 0 <= i < |a| ==> a[i] != '\\';
    assert ForwardSlashes(a) == a;
    CollapseIsOnePass(a);
    PlainScan(rest);
    assert a[1..] == ".." + rest && (".." + rest)[2..] == rest;
    assert WithoutDotDot(".." + rest) == rest;
    assert WithoutDotDot(a) == "/" + rest;
  }

  /** A backslash traversal does not survive either: "..\\x" becomes "x". */
  lemma BackslashStepRemoved()
    ensures Sanitized("..\\x") == "x"
  {
    var b := "..\\x";
    assert ForwardSlashes(b) == "../x";
    CollapseIsOnePass("../x");
    assert "../x"[2..] == "/x";
    PlainScan("/x");
  }

  /** A string without dots holds no ".." and is scanned unchanged. */
  lemma {:induction false} PlainScan(s: string)
    requires '.' !in s
    ensures !HasDotDot(s)
    ensures WithoutDotDot(s) == s
    decreases |s|
  {
    if s != [] {
      PlainScan(s[1..]);
      assert s[0] != '.';
      assert !StartsWith(s, "..");
      assert s == [s[0]] + s[1..];
    }
  }

  // ----- content types -----

  /** The extensions `contentType` recognises, in the order it tries them. */
  const Extensions: seq<string> := [".html", ".css", ".js", ".json", ".svg", ".png"]

  /** The type sent for each recognised extension, position by position. */
  const Types: seq<string> := [
    "text/html; charset=utf-8", "text/css; charset=utf-8",
    "application/javascript; charset=utf-8", "application/json; charset=utf-8",
    "image/svg+xml", "image/png"]

  const Fallback: string := "application/octet-stream"

  /** `contentType`: the type of the first extension the lower-cased name ends with, else the fallback. */
  function ContentType(filename: string): (r: string)
    ensures r == Fallback || r in Types
  {
    var f := Lower(filename);
    if EndsWith(f, ".html") then "text/html; charset=utf-8"
    else if EndsWith(f, ".css") then "text/css; charset=utf-8"
    else if EndsWith(f, ".js") then "application/javascript; charset=utf-8"
    else if EndsWith(f, ".json") then "application/json; charset=utf-8"
    else if EndsWith(f, ".svg") then "image/svg+xml"
    else if EndsWith(f, ".png") then "image/png"
    else "application/octet-stream"
  }

  /** Two suffixes of one string: the shorter is a suffix of the longer. */
  lemma SuffixesNest(f: string, a: string, b: string)
    requires EndsWith(f, a) && EndsWith(f, b) && |a| <= |b|
    ensures EndsWith(b, a)
  {
    assert forall i :: 0 <= i < |a| ==> a[i] == f[|f| - |a| + i] == b[|b| - |a| + i];
  }

  /** No recognised extension ends with another, so a name matches at most one of them. */
  lemma ExtensionsExclusive(f: string, j: nat, k: nat)
    requires j < |Extensions| && k < |Extensions| && j != k
    requires EndsWith(f, Extensions[j])
    ensures !EndsWith(f, Extensions[k])
  {
    var a, b := Extensions[j], Extensions[k];
    if EndsWith(f, b) {
      if |a| <= |b| {
        SuffixesNest(f, a, b);
      } else {
        SuffixesNest(f, b, a);
      }
      assert false;
    }
  }

  /** A name ending with the k-th extension gets the k-th type, whatever the extensions tried before it. */
  lemma TypeOfExtension(filename: string, k: nat)
    requires k < |Extensions| && EndsWith(Lower(filename), Extensions[k])
    ensures ContentType(filename) == Types[k]
    ensures ContentType(filename) != Fallback
  {
    var f := Lower(filename);
    forall j | 0 <= j < k
      ensures !EndsWith(f, Extensions[j])
    {
      ExtensionsExclusive(f, k, j);
    }
    assert Extensions[0] == ".html" && Extensions[1] == ".css" && Extensions[2] == ".js";
    assert Extensions[3] == ".json" && Extensions[4] == ".svg" && Extensions[5] == ".png";
    if k == 0 {
    } else if k == 1 {
    } else if k == 2 {
    } else if k == 3 {
    } else if k == 4 {
    }
  }

  /**
   * The type follows the table: a name whose lower-cased form ends with a
   * listed extension gets that extension's type, and only a name ending with
   * none of them gets the fallback.
   */
  lemma ContentTypeByTable(filename: string)
    ensures ContentType(filename) == Fallback <==>
              forall k :: 0 <= k < |Extensions| ==> !EndsWith(Lower(filename), Extensions[k])
    ensures forall k :: 0 <= k < |Extensions| && EndsWith(Lower(filename), Extensions[k]) ==>
              ContentType(filename) == Types[k]
  {
    var f := Lower(filename);
    forall k | 0 <= k < |Extensions| && EndsWith(f, Extensions[k])
      ensures ContentType(filename) == Types[k]
    {
      TypeOfExtension(filename, k);
    }
    if ContentType(filename) == Fallback {
      forall k | 0 <= k < |Extensions|
        ensures !EndsWith(f, Extensions[k])
      {
        if EndsWith(f, Extensions[k]) {
          TypeOfExtension(filename, k);
          assert false;
        }
      }
    }
    if forall k :: 0 <= k < |Extensions| ==> !EndsWith(f, Extensions[k]) {
      assert Extensions[0] == ".html" && Extensions[1] == ".css" && Extensions[2] == ".js";
      assert Extensions[3] == ".json" && Extensions[4] == ".svg" && Extensions[5] == ".png";
      assert !EndsWith(f, Extensions[0]) && !EndsWith(f, Extensions[1]) && !EndsWith(f, Extensions[2]);
      assert !EndsWith(f, Extensions[3]) && !EndsWith(f, Extensions[4]) && !EndsWith(f, Extensions[5]);
    }
  }

  lemma LowerIdempotent(s: string)
    ensures Lower(Lower(s)) == Lower(s)
  {
    assert forall i :: 0 <= i < |s| ==> LowerChar(LowerChar(s[i])) == LowerChar(s[i]);
  }

  /** Case does not matter: a name and its lower-cased form get the same type. */
  lemma ContentTypeIgnoresCase(filename: string)
    ensures ContentType(Lower(filename)) == ContentType(filename)
  {
    LowerIdempotent(filename);
  }

  /** "INDEX.HTML" is served as HTML, "notes.txt" as an octet stream. */
  lemma ContentTypeExamples()
    ensures ContentType("INDEX.HTML") == "text/html; charset=utf-8"
    ensures ContentType("notes.txt") == Fallback
  {
    var u := "INDEX.HTML";
    assert Lower(u)[5..] == ".html" by {
      assert forall i :: 5 <= i < 10 ==> Lower(u)[i] == LowerChar(u[i]);
    }
    var t := "notes.txt";
    assert Lower(t) == t by {
      assert forall i :: 0 <= i < |t| ==> LowerChar(t[i]) == t[i];
    }
    assert !EndsWith(t, ".html") && !EndsWith(t, ".css") && !EndsWith(t, ".js");
    assert !EndsWith(t, ".json") && !EndsWith(t, ".svg") && !EndsWith(t, ".png");
  }
}
