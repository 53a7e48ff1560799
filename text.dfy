/**
 * The parts of java.lang.String and java.lang.Integer that the payroll code
 * relies on: trimming, splitting on a one-character separator, searching,
 * ASCII case folding, and decimal rendering and parsing of `int`.
 */
module Text {
  import opened Wrappers

  /** Range of Java's 32-bit `int`. */
  const MinInt: int := -0x8000_0000
  const MaxInt: int := 0x7fff_ffff

  predicate IsDigit(c: char) { '0' <= c <= '9' }

  predicate AllDigits(s: string) { forall i :: 0 <= i < |s| ==> IsDigit(s[i]) }

  function DigitChar(d: nat): (c: char)
    requires d < 10
    ensures IsDigit(c)
  {
    ('0' as int + d) as char
  }

  function DigitValue(c: char): (d: nat)
    requires IsDigit(c)
    ensures d < 10 && DigitChar(d) == c
  {
    c as int - '0' as int
  }

  /** The decimal digits of `n`, most significant first, with no leading zero. */
  function DigitsOf(n: nat): (s: string)
    ensures 1 <= |s| && AllDigits(s)
    ensures |s| > 1 ==> s[0] != '0'
  {
    if n < 10 then [DigitChar(n)] else DigitsOf(n / 10) + [DigitChar(n % 10)]
  }

  /** The number a non-empty string of decimal digits denotes (reference reader). */
  function DigitsValue(s: string): nat
    requires AllDigits(s)
  {
    if s == [] then 0 else DigitsValue(s[..|s| - 1]) * 10 + DigitValue(s[|s| - 1])
  }

  /** Reading back the digits of `n` gives `n`. */
  lemma {:induction false} DigitsRoundTrip(n: nat)
    ensures DigitsValue(DigitsOf(n)) == n
  {
    if n >= 10 {
      var s := DigitsOf(n);
      assert s[..|s| - 1] == DigitsOf(n / 10);
      DigitsRoundTrip(n / 10);
    }
  }

  /** `Integer.toString(i)` / `StringBuilder.append(int)`. */
  function IntToString(i: int): (s: string)
    ensures 1 <= |s|
    ensures i >= 0 <==> IsDigit(s[0])
  {
    if i < 0 then "-" + DigitsOf(-i) else DigitsOf(i)
  }

  /** The rendering of an `int` holds only digits and a leading minus sign. */
  lemma IntToStringChars(i: int)
    ensures forall k :: 0 <= k < |IntToString(i)| ==> IsDigit(IntToString(i)[k]) || IntToString(i)[k] == '-'
  {
  }

  /**
   * `Integer.parseInt(s)`: an optional `-` or `+` followed by at least one
   * digit, denoting a value in the `int` range; None where Java throws
   * NumberFormatException.
   */
  function ParseInt(s: string): (r: Option<int>)
    ensures r.Some? ==> MinInt <= r.value <= MaxInt
    ensures r.Some? ==> s != [] && (IsDigit(s[0]) || s[0] == '-' || s[0] == '+')
  {
    if s == [] then None
    else
      var digits := if s[0] == '-' || s[0] == '+' then s[1..] else s;
      if digits == [] || !AllDigits(digits) then None
      else
        var magnitude: int := DigitsValue(digits);
        var v := if s[0] == '-' then -magnitude else magnitude;
        if MinInt <= v <= MaxInt then Some(v) else None
  }

  /** Every `int` survives rendering and re-parsing. */
  lemma IntRoundTrip(i: int)
    requires MinInt <= i <= MaxInt
    ensures ParseInt(IntToString(i)) == Some(i)
  {
    var s := IntToString(i);
    if i < 0 {
      assert s[1..] == DigitsOf(-i);
      DigitsRoundTrip(-i);
    } else {
      DigitsRoundTrip(i);
    }
  }

  /** `s.indexOf(c)`, None standing for -1. */
  function IndexOf(s: string, c: char): (r: Option<nat>)
    ensures r.None? <==> c !in s
    ensures r.Some? ==> r.value < |s| && s[r.value] == c && c !in s[..r.value]
  {
    if s == [] then None
    else if s[0] == c then Some(0)
    else
      match IndexOf(s[1..], c)
      case None => None
      case Some(i) =>
        assert s[..i + 1] == [s[0]] + s[1..][..i];
        Some(i + 1)
  }

  /** Glues pieces back together with `sep` between them. */
  function Join(parts: seq<string>, sep: char): string
  {
    if parts == [] then ""
    else if |parts| == 1 then parts[0]
    else parts[0] + [sep] + Join(parts[1..], sep)
  }

  /** Joining one more piece appends a separator and the piece, unless it is the first. */
  lemma {:induction false} JoinSnoc(parts: seq<string>, piece: string, sep: char)
    ensures Join(parts + [piece], sep) == if parts == [] then piece else Join(parts, sep) + [sep] + piece
  {
    if |parts| > 1 {
      assert (parts + [piece])[1..] == parts[1..] + [piece];
      JoinSnoc(parts[1..], piece, sep);
    } else if |parts| == 1 {
      assert (parts + [piece])[1..] == [piece];
    }
  }

  /** Every piece between separators, empty ones included. */
  function SplitAll(s: string, sep: char): (parts: seq<string>)
    ensures |parts| >= 1
    ensures forall i :: 0 <= i < |parts| ==> sep !in parts[i]
    ensures Join(parts, sep) == s
    decreases |s|
  {
    match IndexOf(s, sep)
    case None => [s]
    case Some(i) =>
      var rest := SplitAll(s[i + 1..], sep);
      assert s == s[..i] + [sep] + s[i + 1..];
      [s[..i]] + rest
  }

  /** The first `c` in `a + [c] + b` is the one after `a` when `a` holds none. */
  lemma IndexOfAfter(a: string, c: char, b: string)
    requires c !in a
    ensures IndexOf(a + [c] + b, c) == Some(|a|)
  {
    var s := a + [c] + b;
    assert s[|a|] == c;
    assert s[..|a|] == a;
  }

  /** Splitting undoes joining, for pieces free of the separator. */
  lemma {:induction false} SplitOfJoin(parts: seq<string>, sep: char)
    requires |parts| >= 1
    requires forall i :: 0 <= i < |parts| ==> sep !in parts[i]
    ensures SplitAll(Join(parts, sep), sep) == parts
  {
    if |parts| > 1 {
      var s := Join(parts, sep);
      IndexOfAfter(parts[0], sep, Join(parts[1..], sep));
      assert s[|parts[0]| + 1..] == Join(parts[1..], sep);
      SplitOfJoin(parts[1..], sep);
      assert s[..|parts[0]|] == parts[0];
      assert parts == [parts[0]] + parts[1..];
    }
  }

  /** Removes the empty strings at the end of a piece list. */
  function DropTrailingEmpty(parts: seq<string>): (r: seq<string>)
    ensures |r| <= |parts| && r == parts[..|r|]
    ensures r == [] || r[|r| - 1] != ""
    ensures forall i :: |r| <= i < |parts| ==> parts[i] == ""
  {
    if parts != [] && parts[|parts| - 1] == "" then DropTrailingEmpty(parts[..|parts| - 1]) else parts
  }

  /**
   * `s.split(sep)` for a separator that is not a regular-expression
   * metacharacter: the input itself when `sep` does not occur, otherwise the
   * pieces between separators with trailing empty pieces removed.
   */
  function JavaSplit(s: string, sep: char): (parts: seq<string>)
    ensures forall i :: 0 <= i < |parts| ==> sep !in parts[i]
    ensures sep !in s ==> parts == [s]
    ensures parts == [] || parts[|parts| - 1] != "" || s == ""
    ensures |Join(parts, sep)| <= |s| && s[..|Join(parts, sep)|] == Join(parts, sep)
    ensures forall k :: |Join(parts, sep)| <= k < |s| ==> s[k] == sep
  {
    if sep !in s then [s]
    else
      DropKeepsPrefix(SplitAll(s, sep), sep);
      DropTrailingEmpty(SplitAll(s, sep))
  }

  /** `p` is a prefix of `s` followed by nothing but separators. */
  predicate SepPadded(p: string, s: string, sep: char)
  {
    |p| <= |s| && s[..|p|] == p && forall k :: |p| <= k < |s| ==> s[k] == sep
  }

  /** Dropping trailing empty pieces drops only trailing separators from the joined text. */
  lemma {:induction false} DropKeepsPrefix(parts: seq<string>, sep: char)
    ensures SepPadded(Join(DropTrailingEmpty(parts), sep), Join(parts, sep), sep)
    decreases |parts|
  {
    if parts != [] && parts[|parts| - 1] == "" {
      var front := parts[..|parts| - 1];
      assert parts == front + [""];
      JoinSnoc(front, "", sep);
      DropKeepsPrefix(front, sep);
      var p, j := Join(DropTrailingEmpty(front), sep), Join(front, sep);
      if front != [] {
        assert Join(parts, sep) == j + [sep];
        assert (j + [sep])[..|p|] == j[..|p|];
      }
    } else {
      var j := Join(parts, sep);
      assert j[..|j|] == j;
    }
  }

  /** `s.trim()`, first half: drops the leading characters at or below U+0020. */
  function TrimStart(s: string): (r: string)
    ensures |r| <= |s| && r == s[|s| - |r|..]
    ensures r == [] || r[0] > ' '
    ensures forall i :: 0 <= i < |s| - |r| ==> s[i] <= ' '
  {
    if s != [] && s[0] <= ' ' then TrimStart(s[1..]) else s
  }

  /** `s.trim()`, second half: drops the trailing characters at or below U+0020. */
  function TrimEnd(s: string): (r: string)
    ensures |r| <= |s| && r == s[..|r|]
    ensures r == [] || r[|r| - 1] > ' '
    ensures forall i :: |r| <= i < |s| ==> s[i] <= ' '
  {
    if s != [] && s[|s| - 1] <= ' ' then TrimEnd(s[..|s| - 1]) else s
  }

  /** Every character is at or below U+0020, the ones `trim` removes. */
  predicate Blanks(t: string)
  {
    forall c :: c in t ==> c <= ' '
  }

  /** `s.trim()`: `s` with its leading and trailing blanks cut off. */
  function Trim(s: string): (r: string)
    ensures r == [] || (r[0] > ' ' && r[|r| - 1] > ' ')
    ensures |r| <= |s|
  {
    TrimEnd(TrimStart(s))
  }

  /** `trim` keeps a middle part of `s` and cuts nothing but blanks before and after it. */
  lemma TrimCutsBlanks(s: string)
    ensures var r := Trim(s);
            exists i :: 0 <= i <= |s| - |r| && s[..i] + r + s[i + |r|..] == s
              && Blanks(s[..i]) && Blanks(s[i + |r|..])
  {
    var t := TrimStart(s);
    MiddleCut(s, t, TrimEnd(t));
  }

  /**
   * The shape of `trim`: the blanks cut from the front of `s` leave `t`, the
   * blanks cut from the back of `t` leave `r`, so `r` is `s` less blanks on
   * both sides.
   */
  lemma MiddleCut(s: string, t: string, r: string)
    requires |t| <= |s| && t == s[|s| - |t|..] && forall k :: 0 <= k < |s| - |t| ==> s[k] <= ' '
    requires |r| <= |t| && r == t[..|r|] && forall k :: |r| <= k < |t| ==> t[k] <= ' '
    ensures exists i :: 0 <= i <= |s| - |r| && s[..i] + r + s[i + |r|..] == s
              && Blanks(s[..i]) && Blanks(s[i + |r|..])
  {
    var i := |s| - |t|;
    assert s[i + |r|..] == t[|r|..];
    BlanksAt(s[..i]);
    BlanksAt(t[|r|..]);
    Reassemble(s, i, r);
    assert 0 <= i <= |s| - |r| && s[..i] + r + s[i + |r|..] == s && Blanks(s[..i]) && Blanks(s[i + |r|..]);
  }

  lemma BlanksAt(t: string)
    requires forall k :: 0 <= k < |t| ==> t[k] <= ' '
    ensures Blanks(t)
  {
  }

  /** Cutting `r` out of the middle of `s` and gluing the three parts gives `s` back. */
  lemma Reassemble(s: string, i: nat, r: string)
    requires i + |r| <= |s| && s[i..i + |r|] == r
    ensures s[..i] + r + s[i + |r|..] == s
  {
  }

  predicate StartsWith(s: string, prefix: string)
  {
    |prefix| <= |s| && s[..|prefix|] == prefix
  }

  predicate EndsWith(s: string, suffix: string)
  {
    |suffix| <= |s| && s[|s| - |suffix|..] == suffix
  }

  /** `s.contains(t)`. */
  predicate Contains(s: string, t: string)
    decreases |s|
  {
    StartsWith(s, t) || (s != [] && Contains(s[1..], t))
  }

  /** Lower-casing of one character, as `toLowerCase(Locale.ROOT)` does for ASCII. */
  function LowerChar(c: char): char
  {
    if 'A' <= c <= 'Z' then (c as int + 32) as char else c
  }

  function Lower(s: string): (r: string)
    ensures |r| == |s|
    ensures forall i :: 0 <= i < |s| ==> r[i] == LowerChar(s[i])
  {
    seq(|s|, i requires 0 <= i < |s| => LowerChar(s[i]))
  }
}
