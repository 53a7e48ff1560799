/**
 * Reading request parameters: the form-urlencoded and flat-JSON body
 * parsers, `stripQuotes`, `require`, the two decimal readers and the
 * builder of a new employee from the parameters.
 *
 * Two library calls are parameters: `decode` stands for
 * `URLDecoder.decode(_, UTF_8)` (Err carries the message of the
 * IllegalArgumentException it throws) and `parse` for `new BigDecimal(_)`
 * (None where it throws NumberFormatException).
 */
module Params {
  import opened Wrappers
  import opened Text
  import opened Decimals
  import opened Model

  type Params = map<string, string>

  /** What one piece of a body contributes: a key and a value, nothing, or an exception message. */
  type Entry = Result<Option<(string, string)>, string>

  predicate Puts(e: Entry, key: string)
  {
    e.Ok? && e.value.Some? && e.value.value.0 == key
  }

  /**
   * The map a parser builds from its pieces, visited in order: a piece
   * either throws (the parse fails with that message), is skipped, or puts
   * its key and value, overwriting an earlier value for the same key.
   */
  function Gather(pieces: seq<string>, entry: string -> Entry): Result<Params, string>
  {
    if pieces == [] then Ok(map[])
    else
      match Gather(pieces[..|pieces| - 1], entry)
      case Err(msg) => Err(msg)
      case Ok(m) =>
        match entry(pieces[|pieces| - 1])
        case Err(msg) => Err(msg)
        case Ok(None) => Ok(m)
        case Ok(Some(kv)) => Ok(m[kv.0 := kv.1])
  }

  /** Once the pieces read so far have thrown, the whole parse fails with that message. */
  lemma {:induction false} GatherErrSticks(pieces: seq<string>, entry: string -> Entry, n: nat)
    requires n <= |pieces| && Gather(pieces[..n], entry).Err?
    ensures Gather(pieces, entry) == Gather(pieces[..n], entry)
    decreases |pieces| - n
  {
    if n < |pieces| {
      assert pieces[..n + 1][..n] == pieces[..n];
      GatherErrSticks(pieces, entry, n + 1);
    } else {
      assert pieces[..n] == pieces;
    }
  }

  /** One more piece: a throw ends the parse with its message, a skip keeps the map, a put extends it. */
  lemma GatherPut(pieces: seq<string>, entry: string -> Entry, i: nat, m: Params)
    requires i < |pieces| && Gather(pieces[..i], entry) == Ok(m)
    ensures entry(pieces[i]).Err? ==> Gather(pieces, entry) == Err(entry(pieces[i]).error)
    ensures entry(pieces[i]) == Ok(None) ==> Gather(pieces[..i + 1], entry) == Ok(m)
    ensures entry(pieces[i]).Ok? && entry(pieces[i]).value.Some? ==>
              var kv := entry(pieces[i]).value.value;
              Gather(pieces[..i + 1], entry) == Ok(m[kv.0 := kv.1])
  {
    assert pieces[..i + 1][..i] == pieces[..i];
    if entry(pieces[i]).Err? {
      GatherErrSticks(pieces, entry, i + 1);
    }
  }

  /** The parse fails with the message of the first piece that throws. */
  lemma {:induction false} GatherFirstError(pieces: seq<string>, entry: string -> Entry, i: nat)
    requires i < |pieces| && entry(pieces[i]).Err?
    requires forall j :: 0 <= j < i ==> entry(pieces[j]).Ok?
    ensures Gather(pieces, entry) == Err(entry(pieces[i]).error)
  {
    GatherOk(pieces[..i], entry);
    assert pieces[..i + 1][..i] == pieces[..i];
    GatherErrSticks(pieces, entry, i + 1);
  }

  /** No piece throws, so the parse succeeds. */
  lemma {:induction false} GatherOk(pieces: seq<string>, entry: string -> Entry)
    requires forall j :: 0 <= j < |pieces| ==> entry(pieces[j]).Ok?
    ensures Gather(pieces, entry).Ok?
  {
    if pieces != [] {
      GatherOk(pieces[..|pieces| - 1], entry);
    }
  }

  /** A successful parse maps a key to the value of the last piece that puts it. */
  lemma {:induction false} GatherLastWins(pieces: seq<string>, entry: string -> Entry, i: nat)
    requires Gather(pieces, entry).Ok?
    requires i < |pieces| && entry(pieces[i]).Ok? && entry(pieces[i]).value.Some?
    requires forall j :: i < j < |pieces| ==> !Puts(entry(pieces[j]), entry(pieces[i]).value.value.0)
    ensures entry(pieces[i]).value.value.0 in Gather(pieces, entry).value
    ensures Gather(pieces, entry).value[entry(pieces[i]).value.value.0] == entry(pieces[i]).value.value.1
  {
    var front := pieces[..|pieces| - 1];
    if i < |pieces| - 1 {
      assert front[i] == pieces[i];
      GatherLastWins(front, entry, i);
    }
  }

  /** A key that no piece puts is absent from a successful parse. */
  lemma {:induction false} GatherAbsent(pieces: seq<string>, entry: string -> Entry, key: string)
    requires Gather(pieces, entry).Ok?
    requires forall j :: 0 <= j < |pieces| ==> !Puts(entry(pieces[j]), key)
    ensures key !in Gather(pieces, entry).value
  {
    if pieces != [] {
      GatherAbsent(pieces[..|pieces| - 1], entry, key);
    }
  }

  // ----- application/x-www-form-urlencoded -----

  /** One `key=value` pair, split at its first `=`; a pair without `=` is skipped. */
  function UrlEntry(pair: string, decode: string -> Result<string, string>): Entry
  {
    match IndexOf(pair, '=')
    case None => Ok(None)
    case Some(i) =>
      match decode(pair[..i])
      case Err(msg) => Err(msg)
      case Ok(key) =>
        match decode(pair[i + 1..])
        case Err(msg) => Err(msg)
        case Ok(value) => Ok(Some((key, value)))
  }

  function UrlEntries(decode: string -> Result<string, string>): string -> Entry
  {
    pair => UrlEntry(pair, decode)
  }

  /** The parameters of a form-urlencoded body: none for the empty body, else the `&`-separated pairs. */
  function UrlEncodedParams(body: string, decode: string -> Result<string, string>): Result<Params, string>
  {
    if body == "" then Ok(map[]) else Gather(JavaSplit(body, '&'), UrlEntries(decode))
  }

  /** `parseUrlEncoded`. */
  method ParseUrlEncoded(body: string, decode: string -> Result<string, string>) returns (r: Result<Params, string>)
    ensures r == UrlEncodedParams(body, decode)
  {
    if body == "" {
      return Ok(map[]);
    }
    var pairs := JavaSplit(body, '&');
    var params: Params := map[];
    var i := 0;
    while i < |pairs|
      invariant 0 <= i <= |pairs|
      invariant Gather(pairs[..i], UrlEntries(decode)) == Ok(params)
    {
      var e := ReadUrlPair(pairs[i], decode);
      GatherPut(pairs, UrlEntries(decode), i, params);
      match e {
        case Err(msg) => return Err(msg);
        case Ok(None) =>
        case Ok(Some(kv)) => params := params[kv.0 := kv.1];
      }
      i := i + 1;
    }
    assert pairs[..|pairs|] == pairs;
    return Ok(params);
  }

  /** The body of that loop for one pair: split at the first `=`, decode both sides. */
  method ReadUrlPair(pair: string, decode: string -> Result<string, string>) returns (e: Entry)
    ensures e == UrlEntries(decode)(pair)
  {
    var idx := IndexOf(pair, '=');
    if idx.None? {
      return Ok(None);
    }
    var key := decode(pair[..idx.value]);
    if key.Err? {
      return Err(key.error);
    }
    var value := decode(pair[idx.value + 1..]);
    if value.Err? {
      return Err(value.error);
    }
    return Ok(Some((key.value, value.value)));
  }

  // ----- application/json (flat objects only) -----

  /** `stripQuotes`: drops one pair of surrounding double quotes; a lone `"` makes `substring` throw. */
  function StripQuotes(s: string): (r: Result<string, string>)
    ensures r.Err? <==> s == "\""
    ensures r.Ok? && |s| >= 2 && s[0] == '"' && s[|s| - 1] == '"' ==> r.value == s[1..|s| - 1]
    ensures r.Ok? && !(|s| >= 2 && s[0] == '"' && s[|s| - 1] == '"') ==> r.value == s
  {
    if StartsWith(s, "\"") && EndsWith(s, "\"") then
      if |s| < 2 then Err("begin 1, end 0, length 1") else Ok(s[1..|s| - 1])
    else Ok(s)
  }

  /** One `key:value` piece, split at its first `:`, each side trimmed and unquoted; no `:` skips it. */
  function JsonEntry(pair: string): Entry
  {
    match IndexOf(pair, ':')
    case None => Ok(None)
    case Some(i) =>
      match StripQuotes(Trim(pair[..i]))
      case Err(msg) => Err(msg)
      case Ok(key) =>
        match StripQuotes(Trim(pair[i + 1..]))
        case Err(msg) => Err(msg)
        case Ok(value) => Ok(Some((key, value)))
  }

  /** The text between the outer braces of a trimmed body, trimmed; None unless the body is braced. */
  function BracedContent(body: string): Option<string>
  {
    var t := Trim(body);
    if StartsWith(t, "{") && EndsWith(t, "}") && |t| >= 2 then Some(Trim(t[1..|t| - 1])) else None
  }

  /** The parameters of a flat JSON object body. */
  function SimpleJsonParams(body: string): Result<Params, string>
  {
    match BracedContent(body)
    case None => Ok(map[])
    case Some(inner) => if inner == "" then Ok(map[]) else Gather(JavaSplit(inner, ','), JsonEntry)
  }

  /** `parseSimpleJson`. */
  method ParseSimpleJson(body: string) returns (r: Result<Params, string>)
    ensures r == SimpleJsonParams(body)
  {
    var trimmed := Trim(body);
    if !StartsWith(trimmed, "{") || !EndsWith(trimmed, "}") || |trimmed| < 2 {
      return Ok(map[]);
    }
    trimmed := Trim(trimmed[1..|trimmed| - 1]);
    if trimmed == "" {
      return Ok(map[]);
    }
    r := PutJsonPairs(JavaSplit(trimmed, ','));
  }

  /** The loop of `parseSimpleJson` over the comma-separated pieces. */
  method PutJsonPairs(pairs: seq<string>) returns (r: Result<Params, string>)
    ensures r == Gather(pairs, JsonEntry)
  {
    var params: Params := map[];
    var i := 0;
    while i < |pairs|
      invariant 0 <= i <= |pairs|
      invariant Gather(pairs[..i], JsonEntry) == Ok(params)
    {
      var e := ReadJsonPair(pairs[i]);
      GatherPut(pairs, JsonEntry, i, params);
      match e {
        case Err(msg) => return Err(msg);
        case Ok(None) =>
        case Ok(Some(kv)) => params := params[kv.0 := kv.1];
      }
      i := i + 1;
    }
    assert pairs[..|pairs|] == pairs;
    return Ok(params);
  }

  /** The body of that loop for one piece: split at the first `:`, trim and unquote both sides. */
  method ReadJsonPair(pair: string) returns (e: Entry)
    ensures e == JsonEntry(pair)
  {
    var idx := IndexOf(pair, ':');
    if idx.None? {
      return Ok(None);
    }
    var i := idx.value;
    var key := StripQuotes(Trim(pair[..i]));
    if key.Err? {
      assert JsonEntry(pair) == Err(key.error);
      return Err(key.error);
    }
    var value := StripQuotes(Trim(pair[i + 1..]));
    if value.Err? {
      assert JsonEntry(pair) == Err(value.error);
      return Err(value.error);
    }
    assert JsonEntry(pair) == Ok(Some((key.value, value.value)));
    return Ok(Some((key.value, value.value)));
  }

  /**
   * The parameters of a request: the form parser for a form-urlencoded
   * Content-Type, the JSON parser for a JSON one, and the form parser as
   * the fallback, a missing header included.
   */
  function ParamsOf(contentType: Option<string>, body: string, decode: string -> Result<string, string>)
    : (r: Result<Params, string>)
    ensures contentType.Some? && Contains(contentType.value, "application/x-www-form-urlencoded")
            ==> r == UrlEncodedParams(body, decode)
    ensures (contentType.Some? && !Contains(contentType.value, "application/x-www-form-urlencoded") &&
             Contains(contentType.value, "application/json")) ==> r == SimpleJsonParams(body)
    ensures (contentType.None? || (!Contains(contentType.value, "application/x-www-form-urlencoded")
            && !Contains(contentType.value, "application/json"))) ==> r == UrlEncodedParams(body, decode)
  {
    if contentType.Some? && Contains(contentType.value, "application/x-www-form-urlencoded") then
      UrlEncodedParams(body, decode)
    else if contentType.Some? && Contains(contentType.value, "application/json") then
      SimpleJsonParams(body)
    else UrlEncodedParams(body, decode)
  }

  /** `readParams`, once the body has been read. */
  method ReadParams(contentType: Option<string>, body: string, decode: string -> Result<string, string>)
    returns (r: Result<Params, string>)
    ensures r == ParamsOf(contentType, body, decode)
  {
    if contentType.Some? && Contains(contentType.value, "application/x-www-form-urlencoded") {
      r := ParseUrlEncoded(body, decode);
    } else if contentType.Some? && Contains(contentType.value, "application/json") {
      r := ParseSimpleJson(body);
    } else {
      r := ParseUrlEncoded(body, decode);
    }
  }

  // ----- validation -----

  /** `require`: the value of a present, non-empty parameter, else "Missing parameter: key". */
  function Require(p: Params, key: string): (r: Result<string, string>)
    ensures r.Err? <==> key !in p || p[key] == ""
    ensures r.Err? ==> r.error == "Missing parameter: " + key
    ensures r.Ok? ==> r.value == p[key] && r.value != ""
  {
    if key !in p || p[key] == "" then Err("Missing parameter: " + key) else Ok(p[key])
  }

  /** `parseDecimal`: the number, else "Invalid number for value: s". */
  function ParseDecimal(s: string, parse: string -> Option<Decimal>): (r: Result<Decimal, string>)
    ensures r.Err? <==> parse(s).None?
    ensures r.Err? ==> r.error == "Invalid number for value: " + s
    ensures r.Ok? ==> r.value == parse(s).value
  {
    match parse(s)
    case None => Err("Invalid number for value: " + s)
    case Some(d) => Ok(d)
  }

  /** `parseDecimalOrDefault`: the default for a missing, empty or unreadable text, else the number. */
  function ParseDecimalOrDefault(s: Option<string>, def: Option<Decimal>, parse: string -> Option<Decimal>)
    : (r: Option<Decimal>)
    ensures s.None? || s.value == "" || parse(s.value).None? ==> r == def
    ensures s.Some? && s.value != "" && parse(s.value).Some? ==> r == parse(s.value)
  {
    if s.None? || s.value == "" then def
    else match parse(s.value)
      case None => def
      case Some(d) => Some(d)
  }

  /** `parseDecimal(require(p, key))`. */
  function RequireDecimal(p: Params, key: string, parse: string -> Option<Decimal>): (r: Result<Decimal, string>)
    ensures r.Ok? <==> key in p && p[key] != "" && parse(p[key]).Some?
    ensures r.Ok? ==> r.value == parse(p[key]).value
  {
    match Require(p, key)
    case Err(msg) => Err(msg)
    case Ok(s) => ParseDecimal(s, parse)
  }

  /** The checks of `readEmployeeFromParams`, in the order it makes them; None when all pass. */
  function CreateProblem(p: Params, parse: string -> Option<Decimal>): Option<string>
  {
    if Require(p, "name").Err? then Some(Require(p, "name").error)
    else if Require(p, "designation").Err? then Some(Require(p, "designation").error)
    else if RequireDecimal(p, "basic_salary", parse).Err? then Some(RequireDecimal(p, "basic_salary", parse).error)
    else if RequireDecimal(p, "hra", parse).Err? then Some(RequireDecimal(p, "hra", parse).error)
    else if RequireDecimal(p, "da", parse).Err? then Some(RequireDecimal(p, "da", parse).error)
    else if RequireDecimal(p, "deductions", parse).Err? then Some(RequireDecimal(p, "deductions", parse).error)
    else None
  }

  /** Every check passes exactly when the six parameters are present, non-empty and the four amounts parse. */
  lemma CreateAccepts(p: Params, parse: string -> Option<Decimal>)
    ensures CreateProblem(p, parse).None? <==>
      (forall key :: key in ["name", "designation", "basic_salary", "hra", "da", "deductions"] ==> key in p && p[key] != "")
      && parse(p["basic_salary"]).Some? && parse(p["hra"]).Some? && parse(p["da"]).Some? && parse(p["deductions"]).Some?
  {
  }

  /**
   * `readEmployeeFromParams`: fails with the first problem found, else a new
   * employee holding the parameters, with id `idIfAny` when positive and 0 otherwise.
   */
  method ReadEmployeeFromParams(p: Params, idIfAny: int, parse: string -> Option<Decimal>)
    returns (r: Result<Employee, string>)
    ensures r.Err? <==> CreateProblem(p, parse).Some?
    ensures r.Err? ==> r.error == CreateProblem(p, parse).value
    ensures r.Ok? ==> fresh(r.value)
    ensures r.Ok? ==> r.value.State() == Initial(if idIfAny > 0 then idIfAny else 0, Some(p["name"]),
                        Some(p["designation"]), parse(p["basic_salary"]), parse(p["hra"]), parse(p["da"]),
                        parse(p["deductions"]))
  {
    var name := Require(p, "name");
    if name.Err? { return Err(name.error); }
    var designation := Require(p, "designation");
    if designation.Err? { return Err(designation.error); }
    var basic := RequireDecimal(p, "basic_salary", parse);
    if basic.Err? { return Err(basic.error); }
    var hra := RequireDecimal(p, "hra", parse);
    if hra.Err? { return Err(hra.error); }
    var da := RequireDecimal(p, "da", parse);
    if da.Err? { return Err(da.error); }
    var deductions := RequireDecimal(p, "deductions", parse);
    if deductions.Err? { return Err(deductions.error); }
    var e;
    if idIfAny > 0 {
      e := new Employee(idIfAny, Some(name.value), Some(designation.value), Some(basic.value),
                        Some(hra.value), Some(da.value), Some(deductions.value));
    } else {
      e := new Employee.New(Some(name.value), Some(designation.value), Some(basic.value),
                            Some(hra.value), Some(da.value), Some(deductions.value));
    }
    return Ok(e);
  }
}
