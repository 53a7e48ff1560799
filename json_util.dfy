/**
 * `JsonUtil`: escaping a string for a JSON string literal, quoting it,
 * rendering an amount with two decimals, and the JSON object written for
 * one employee.
 */
module Json {
  import opened Wrappers
  import opened Text
  import opened Decimals
  import opened Model

  /** Lower-case hexadecimal digit, as `%x` writes it. */
  function HexDigit(d: nat): (c: char)
    requires d < 16
  {
    if d < 10 then DigitChar(d) else ('a' as int + (d - 10)) as char
  }

  /** The value of a lower-case hexadecimal digit, None for any other character. */
  function HexValue(c: char): (r: Option<nat>)
    ensures r.Some? ==> r.value < 16
  {
    if IsDigit(c) then Some(DigitValue(c))
    else if 'a' <= c <= 'f' then Some(c as int - 'a' as int + 10)
    else None
  }

  lemma HexRoundTrip(d: nat)
    requires d < 16
    ensures HexValue(HexDigit(d)) == Some(d)
  {
  }

  /** What the escaper writes for one character. */
  function EscapeChar(c: char): (r: string)
    ensures 1 <= |r| <= 6
    ensures forall i :: 0 <= i < |r| ==> r[i] >= ' '
    ensures c >= ' ' && c != '"' && c != '\\' <==> r == [c]
  {
    if c == '"' then "\\\""
    else if c == '\\' then "\\\\"
    else if c == '\n' then "\\n"
    else if c == '\r' then "\\r"
    else if c == '\t' then "\\t"
    else if c < ' ' then "\\u00" + [HexDigit(c as int / 16), HexDigit(c as int % 16)]
    else [c]
  }

  /** The escape of a whole string: the escapes of its characters, in order. */
  function JsonEscaped(s: string): string
  {
    if s == [] then "" else JsonEscaped(s[..|s| - 1]) + EscapeChar(s[|s| - 1])
  }

  /** `escape`, as a value: null escapes to the empty string. */
  function Escaped(s: Option<string>): string
  {
    if s.None? then "" else JsonEscaped(s.value)
  }

  /** `JsonUtil.escape`: appends the escape of each character in turn. */
  method Escape(s: Option<string>) returns (r: string)
    ensures r == Escaped(s)
  {
    if s.None? {
      return "";
    }
    var chars := s.value;
    r := "";
    var i := 0;
    while i < |chars|
      invariant 0 <= i <= |chars|
      invariant r == JsonEscaped(chars[..i])
    {
      assert chars[..i + 1][..i] == chars[..i];
      r := r + EscapeChar(chars[i]);
      i := i + 1;
    }
    assert chars[..|chars|] == chars;
  }

  /** Escaping distributes over concatenation. */
  lemma {:induction false} EscapedConcat(a: string, b: string)
    ensures JsonEscaped(a + b) == JsonEscaped(a) + JsonEscaped(b)
    decreases |b|
  {
    if b != [] {
      var b', c := b[..|b| - 1], b[|b| - 1];
      assert (a + b)[..|a + b| - 1] == a + b';
      assert JsonEscaped(a + b) == JsonEscaped(a + b') + EscapeChar(c);
      EscapedConcat(a, b');
      assert JsonEscaped(b) == JsonEscaped(b') + EscapeChar(c);
      SeqAssoc(JsonEscaped(a), JsonEscaped(b'), EscapeChar(c));
    } else {
      assert a + b == a;
    }
  }

  lemma SeqAssoc(x: string, y: string, z: string)
    ensures (x + y) + z == x + (y + z)
  {
  }

  /** The escape of a string is the escape of its first character followed by the escape of the rest. */
  lemma EscapedCons(s: string)
    requires s != []
    ensures JsonEscaped(s) == EscapeChar(s[0]) + JsonEscaped(s[1..])
  {
    var head, tail := [s[0]], s[1..];
    assert s == head + tail;
    EscapedConcat(head, tail);
    assert head[..0] == [];
    assert JsonEscaped(head) == EscapeChar(s[0]);
  }

  /** The output of the escaper holds no raw control character. */
  lemma {:induction false} EscapedPrintable(s: string)
    ensures forall i :: 0 <= i < |JsonEscaped(s)| ==> JsonEscaped(s)[i] >= ' '
  {
    if s != [] {
      EscapedPrintable(s[..|s| - 1]);
    }
  }

  /** A string with no quote, backslash or control character is its own escape. */
  lemma {:induction false} EscapedPlain(s: string)
    requires forall i :: 0 <= i < |s| ==> s[i] >= ' ' && s[i] != '"' && s[i] != '\\'
    ensures JsonEscaped(s) == s
  {
    if s != [] {
      var front, last := s[..|s| - 1], s[|s| - 1];
      assert forall i :: 0 <= i < |front| ==> front[i] == s[i];
      EscapedPlain(front);
      assert EscapeChar(last) == [last];
      assert JsonEscaped(s) == front + [last];
      assert s == front + [last];
    }
  }

  /** Reference reader for the body of a JSON string literal: None for a malformed escape. */
  function JsonUnescape(t: string): Option<string>
    decreases |t|
  {
    if t == [] then Some([])
    else if t[0] != '\\' then
      match JsonUnescape(t[1..])
      case None => None
      case Some(rest) => Some([t[0]] + rest)
    else if |t| < 2 then None
    else
      var e := t[1];
      if e == 'u' then
        if |t| < 6 || t[2] != '0' || t[3] != '0' then None
        else
          match (HexValue(t[4]), HexValue(t[5]), JsonUnescape(t[6..]))
          case (Some(h), Some(l), Some(rest)) => Some([(h * 16 + l) as char] + rest)
          case _ => None
      else
        var c := if e == '"' then '"' else if e == '\\' then '\\' else if e == 'n' then '\n'
                 else if e == 'r' then '\r' else if e == 't' then '\t' else 'x';
        if c == 'x' then None
        else
          match JsonUnescape(t[2..])
          case None => None
          case Some(rest) => Some([c] + rest)
  }

  /** Reading back one escaped character in front of any escaped text. */
  lemma UnescapeChar(c: char, rest: string)
    ensures JsonUnescape(EscapeChar(c) + rest) ==
            match JsonUnescape(rest) case None => None case Some(r) => Some([c] + r)
  {
    var t := EscapeChar(c) + rest;
    if c < ' ' && c != '\n' && c != '\r' && c != '\t' {
      var h, l := c as int / 16, c as int % 16;
      assert t[6..] == rest;
      HexRoundTrip(h);
      HexRoundTrip(l);
      assert t[4] == HexDigit(h) && t[5] == HexDigit(l);
    } else if c == '"' || c == '\\' || c == '\n' || c == '\r' || c == '\t' {
      assert t[2..] == rest;
    } else {
      assert t[1..] == rest;
    }
  }

  /** Unescaping undoes escaping, for every string. */
  lemma {:induction false} EscapeRoundTrip(s: string)
    ensures JsonUnescape(JsonEscaped(s)) == Some(s)
    decreases |s|
  {
    if s == [] {
    } else {
      EscapedCons(s);
      EscapeRoundTrip(s[1..]);
      UnescapeChar(s[0], JsonEscaped(s[1..]));
      assert s == [s[0]] + s[1..];
    }
  }

  /** `JsonUtil.quote`: the escape between double quotes. */
  function Quote(s: Option<string>): (r: string)
    ensures |r| >= 2 && r[0] == '"' && r[|r| - 1] == '"'
    ensures r[1..|r| - 1] == Escaped(s)
  {
    "\"" + Escaped(s) + "\""
  }

  /** Reference reader for a JSON string literal. */
  function ReadJsonString(r: string): Option<string>
  {
    if |r| >= 2 && r[0] == '"' && r[|r| - 1] == '"' then JsonUnescape(r[1..|r| - 1]) else None
  }

  /** A quoted string reads back as the string; null reads back as the empty string. */
  lemma QuoteRoundTrip(s: Option<string>)
    ensures ReadJsonString(Quote(s)) == Some(if s.None? then "" else s.value)
  {
    if s.Some? {
      EscapeRoundTrip(s.value);
    }
  }

  /** `JsonUtil.num`: "0" for null, else the amount rounded half-up to two decimals in plain notation. */
  function Num(n: Option<Decimal>): (r: string)
    ensures n.None? ==> r == "0"
    ensures n.Some? ==> ReadPlain2(r) == Some(SetScaleHalfUp(n.value, 2))
  {
    if n.None? then "0"
    else
      PlainRoundTrip(SetScaleHalfUp(n.value, 2));
      PlainString2(SetScaleHalfUp(n.value, 2))
  }

  /** An amount that already has two decimals is written exactly. */
  lemma NumExact(d: Decimal)
    requires d.scale == 2
    ensures ReadPlain2(Num(Some(d))) == Some(d)
  {
    SetScaleKeeps(d, 2);
  }

  /** One `"key":value` member of the object. */
  function Member(key: string, value: string): string
  {
    Quote(Some(key)) + ":" + value
  }

  /** The members of the employee object, in the order they are written. */
  function Members(e: Snapshot): seq<string>
  {
    [ Member("id", IntToString(e.id)),
      Member("name", Quote(e.name)),
      Member("designation", Quote(e.designation)),
      Member("basic_salary", Num(e.basicSalary)),
      Member("hra", Num(e.hra)),
      Member("da", Num(e.da)),
      Member("deductions", Num(e.deductions)),
      Member("gross_salary", Num(Some(e.Gross()))),
      Member("net_salary", Num(Some(e.NetRounded()))) ]
  }

  /** `employeeToJson`: the members, comma-separated, between braces. */
  function EmployeeToJson(e: Snapshot): string
  {
    "{" + Join(Members(e), ',') + "}"
  }

  /**
   * The written net pay is the exact net rounded once: rounding the
   * already-rounded value again changes nothing.
   */
  lemma NetWrittenOnce(e: Snapshot)
    ensures Num(Some(e.NetRounded())) == Num(Some(e.Net()))
    ensures ReadPlain2(Num(Some(e.Net()))) == Some(e.NetRounded())
  {
    SetScaleKeeps(e.NetRounded(), 2);
  }
}
