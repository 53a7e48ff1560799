/**
 * The front end's `escapeHtml`: each of the five characters that are
 * special in HTML text and attribute values is replaced by its entity,
 * every other character is copied.
 */
module Frontend {
  import opened Wrappers

  /** The five characters the replacement pattern matches. */
  predicate Special(c: char)
  {
    c == '&' || c == '<' || c == '>' || c == '"' || c == '\''
  }

  /** The lookup table of `escapeHtml`, applied to one character; any other character stands for itself. */
  function Entity(c: char): (r: string)
    ensures !Special(c) <==> r == [c]
    ensures Special(c) ==> |r| >= 4 && r[0] == '&' && r[|r| - 1] == ';'
  {
    if c == '&' then "&amp;"
    else if c == '<' then "&lt;"
    else if c == '>' then "&gt;"
    else if c == '"' then "&quot;"
    else if c == '\'' then "&#39;"
    else [c]
  }

  /** `escapeHtml(s)`: the entities of the characters of `s`, in order. */
  function EscapeHtml(s: string): (r: string)
    ensures |r| >= |s|
    decreases |s|
  {
    if s == [] then "" else Entity(s[0]) + EscapeHtml(s[1..])
  }

  /** A character that can open a tag, close one or end an attribute value. */
  predicate Markup(c: char)
  {
    c == '<' || c == '>' || c == '"' || c == '\''
  }

  /** The output holds no raw `<`, `>`, `"` or `'`: every one of them was turned into an entity. */
  lemma {:induction false} EscapedHasNoMarkup(s: string)
    ensures forall i :: 0 <= i < |EscapeHtml(s)| ==> !Markup(EscapeHtml(s)[i])
    decreases |s|
  {
    if s != [] {
      EscapedHasNoMarkup(s[1..]);
      var head, tail := Entity(s[0]), EscapeHtml(s[1..]);
      assert forall i :: 0 <= i < |head| ==> !Markup(head[i]) by {
        if Special(s[0]) {
          assert head in ["&amp;", "&lt;", "&gt;", "&quot;", "&#39;"];
        }
      }
      assert forall i :: |head| <= i < |head + tail| ==> (head + tail)[i] == tail[i - |head|];
    }
  }

  /** A text with none of the five characters is returned as it is. */
  lemma {:induction false} PlainTextUnchanged(s: string)
    requires forall i :: 0 <= i < |s| ==> !Special(s[i])
    ensures EscapeHtml(s) == s
    decreases |s|
  {
    if s != [] {
      PlainTextUnchanged(s[1..]);
      assert s == [s[0]] + s[1..];
    }
  }

  /** Escaping works character by character: it distributes over concatenation. */
  lemma {:induction false} EscapeConcat(a: string, b: string)
    ensures EscapeHtml(a + b) == EscapeHtml(a) + EscapeHtml(b)
    decreases |a|
  {
    if a == [] {
      assert a + b == b;
    } else {
      assert (a + b)[1..] == a[1..] + b;
      EscapeConcat(a[1..], b);
    }
  }

  /** The output is longer than the input exactly when the input holds a special character. */
  lemma {:induction false} GrowsOnlyOnSpecials(s: string)
    ensures |EscapeHtml(s)| == |s| <==> forall i :: 0 <= i < |s| ==> !Special(s[i])
    decreases |s|
  {
    if s != [] {
      GrowsOnlyOnSpecials(s[1..]);
      assert forall i :: 1 <= i < |s| ==> s[i] == s[1..][i - 1];
      if Special(s[0]) {
        assert |Entity(s[0])| >= 4;
      }
    }
  }

  /** The text starts with the given literal. */
  predicate Opens(t: string, lit: string)
  {
    |lit| <= |t| && t[..|lit|] == lit
  }

  /** Reference reader for escaped text: entities back to their characters, None for a stray `&`. */
  function UnescapeHtml(t: string): Option<string>
    decreases |t|
  {
    if t == [] then Some([])
    else if t[0] != '&' then
      match UnescapeHtml(t[1..]) case None => None case Some(rest) => Some([t[0]] + rest)
    else
      var (c, n) :=
        if Opens(t, "&amp;") then ('&', 5)
        else if Opens(t, "&lt;") then ('<', 4)
        else if Opens(t, "&gt;") then ('>', 4)
        else if Opens(t, "&quot;") then ('"', 6)
        else if Opens(t, "&#39;") then ('\'', 5)
        else ('&', 0);
      if n == 0 then None
      else match UnescapeHtml(t[n..]) case None => None case Some(rest) => Some([c] + rest)
  }

  /** Reading back one escaped character in front of any text. */
  lemma UnescapeEntity(c: char, rest: string)
    ensures UnescapeHtml(Entity(c) + rest) ==
            match UnescapeHtml(rest) case None => None case Some(r) => Some([c] + r)
  {
    var t := Entity(c) + rest;
    assert t[|Entity(c)|..] == rest;
    assert t[..|Entity(c)|] == Entity(c);
    if !Special(c) {
      assert t[1..] == rest;
    } else if c == '&' {
      assert Opens(t, "&amp;");
    } else if c == '<' {
      assert t[1] == 'l' && Opens(t, "&lt;");
    } else if c == '>' {
      assert t[1] == 'g' && Opens(t, "&gt;");
    } else if c == '"' {
      assert t[1] == 'q' && Opens(t, "&quot;");
    } else {
      assert t[1] == '#' && Opens(t, "&#39;");
    }
  }

  /** Unescaping undoes escaping for every text: no two texts escape alike. */
  lemma {:induction false} EscapeRoundTrip(s: string)
    ensures UnescapeHtml(EscapeHtml(s)) == Some(s)
    decreases |s|
  {
    if s != [] {
      EscapeRoundTrip(s[1..]);
      UnescapeEntity(s[0], EscapeHtml(s[1..]));
      assert s == [s[0]] + s[1..];
    }
  }

  /** `<b>` comes out as `&lt;b&gt;`. */
  lemma TagExample()
    ensures EscapeHtml("<b>") == "&lt;b&gt;"
  {
    assert EscapeHtml(">") == "&gt;" + EscapeHtml("");
    assert EscapeHtml("b>") == "b" + EscapeHtml(">");
  }
}
