/**
 * The console front end's update step and its two formatting helpers.
 * Prompting is left out: the update works on the answers the prompts
 * returned, each text already trimmed and each blank amount already null.
 */
module Console {
  import opened Wrappers
  import opened Text
  import opened Decimals
  import opened Model
  import opened Dao
  import opened Params
  import opened Api

  /**
   * One reading of `promptBigDecimalAllowBlank`: a blank line is null, a
   * number is that number, anything else is refused (and asked again).
   */
  function AmountAnswer(line: string, parse: string -> Option<Decimal>): (r: Result<Option<Decimal>, string>)
    ensures r == Ok(None) <==> Trim(line) == []
    ensures r.Ok? && r.value.Some? <==> Trim(line) != [] && parse(Trim(line)).Some?
    ensures r.Ok? && r.value.Some? ==> r.value == parse(Trim(line))
    ensures r.Err? ==> r.error == "Please enter a valid number or leave blank."
  {
    var input := Trim(line);
    if input == [] then Ok(None)
    else match parse(input)
      case None => Err("Please enter a valid number or leave blank.")
      case Some(d) => Ok(Some(d))
  }

  /** The six answers of the update dialogue: two trimmed texts and four amounts, null when left blank. */
  datatype Answers = Answers(
    name: string,
    designation: string,
    basicSalary: Option<Decimal>,
    hra: Option<Decimal>,
    da: Option<Decimal>,
    deductions: Option<Decimal>)

  /** Every question left blank. */
  const AllBlank: Answers := Answers("", "", None, None, None, None)

  /**
   * The employee after the conditional setter calls of `updateEmployee`:
   * a non-empty text and a non-null amount replace the current value,
   * a blank answer keeps it; the id is never touched.
   */
  function ConsoleMerged(s: Snapshot, a: Answers): (r: Snapshot)
    ensures r.id == s.id
    ensures r.name == (if a.name != "" then Some(a.name) else s.name)
    ensures r.designation == (if a.designation != "" then Some(a.designation) else s.designation)
    ensures r.basicSalary == (if a.basicSalary.Some? then a.basicSalary else s.basicSalary)
    ensures r.hra == (if a.hra.Some? then a.hra else s.hra)
    ensures r.da == (if a.da.Some? then a.da else s.da)
    ensures r.deductions == (if a.deductions.Some? then a.deductions else s.deductions)
  {
    var s1 := if a.name != "" then s.(name := Some(a.name)) else s;
    var s2 := if a.designation != "" then s1.(designation := Some(a.designation)) else s1;
    var s3 := if a.basicSalary.Some? then s2.(basicSalary := Some(Safe(a.basicSalary))) else s2;
    var s4 := if a.hra.Some? then s3.(hra := Some(Safe(a.hra))) else s3;
    var s5 := if a.da.Some? then s4.(da := Some(Safe(a.da))) else s4;
    if a.deductions.Some? then s5.(deductions := Some(Safe(a.deductions))) else s5
  }

  /** Leaving every question blank changes nothing. */
  lemma BlankAnswersKeepAll(s: Snapshot)
    ensures ConsoleMerged(s, AllBlank) == s
  {
  }

  /** Giving the same answers twice is giving them once. */
  lemma ConsoleMergeIdempotent(s: Snapshot, a: Answers)
    ensures ConsoleMerged(ConsoleMerged(s, a), a) == ConsoleMerged(s, a)
  {
  }

  /** The merge keeps a loaded employee's amounts non-null. */
  lemma ConsoleMergeKeepsAmounts(s: Snapshot, a: Answers)
    requires s.AmountsPresent()
    ensures ConsoleMerged(s, a).AmountsPresent()
  {
  }

  /** The setter calls of lines 94 to 99 of `updateEmployee`. */
  method ApplyConsoleMerge(existing: Employee, a: Answers)
    modifies existing
    ensures existing.State() == ConsoleMerged(old(existing.State()), a)
  {
    if a.name != "" { existing.SetName(Some(a.name)); }
    if a.designation != "" { existing.SetDesignation(Some(a.designation)); }
    if a.basicSalary.Some? { existing.SetBasicSalary(a.basicSalary); }
    if a.hra.Some? { existing.SetHra(a.hra); }
    if a.da.Some? { existing.SetDa(a.da); }
    if a.deductions.Some? { existing.SetDeductions(a.deductions); }
  }

  /**
   * `updateEmployee` after its prompts: look the id up, report a missing
   * employee and stop, else merge the answers and write the row back. The
   * result is the line printed, or the SQLException's message.
   */
  method UpdateEmployeeFlow(dao: EmployeeDAO, id: int, a: Answers) returns (r: Result<string, string>)
    requires dao.Valid()
    modifies dao`rows
    ensures dao.Valid()
    ensures dao.unavailable.Some? ==> r == Err(dao.unavailable.value) && dao.rows == old(dao.rows)
    ensures dao.unavailable.None? && id !in old(dao.rows) ==>
              r == Ok("Employee not found.") && dao.rows == old(dao.rows)
    ensures dao.unavailable.None? && id in old(dao.rows) ==>
              r == Ok("Employee updated.")
              && dao.rows == old(dao.rows)[id := RowOf(ConsoleMerged(Loaded(id, old(dao.rows)[id]), a))]
  {
    var found := dao.GetEmployeeById(id);
    if found.Err? {
      return Err(found.error);
    }
    if found.value.None? {
      return Ok("Employee not found.");
    }
    var existing := found.value.value;
    ApplyConsoleMerge(existing, a);
    var updated := dao.UpdateEmployee(existing);
    if updated.Err? {
      return Err(updated.error);
    }
    r := Ok(if updated.value then "Employee updated." else "No changes made.");
  }

  /**
   * What the console does to a stored row: with every answer blank the row
   * is written back as it was; the key is never moved.
   */
  lemma BlankUpdateRewritesSameRow(id: int, row: Row)
    ensures RowOf(ConsoleMerged(Loaded(id, row), AllBlank)) == row
    ensures ConsoleMerged(Loaded(id, row), AllBlank).id == id
  {
    BlankAnswersKeepAll(Loaded(id, row));
  }

  // ----- the console rule against the HTTP rule -----

  /** The amount the HTTP merge would take from `p` for `key`, as a console answer. */
  function AmountFrom(p: Params, key: string, parse: string -> Option<Decimal>): Option<Decimal>
  {
    if SuppliesAmount(p, key, parse) then parse(p[key]) else None
  }

  /** The console answers that carry the same information as the parameters `p`. */
  function AnswersOf(p: Params, parse: string -> Option<Decimal>): Answers
  {
    Answers(
      if "name" in p then p["name"] else "",
      if "designation" in p then p["designation"] else "",
      AmountFrom(p, "basic_salary", parse), AmountFrom(p, "hra", parse),
      AmountFrom(p, "da", parse), AmountFrom(p, "deductions", parse))
  }

  /**
   * On a loaded employee the two merges agree whenever the name and the
   * designation, if supplied at all, are non-empty: amounts follow the
   * same keep-or-replace rule in both.
   */
  lemma MergesAgree(s: Snapshot, p: Params, parse: string -> Option<Decimal>)
    requires s.AmountsPresent()
    requires "name" in p ==> p["name"] != ""
    requires "designation" in p ==> p["designation"] != ""
    ensures HttpMerged(s, p, parse) == ConsoleMerged(s, AnswersOf(p, parse))
  {
    var h, c := HttpMerged(s, p, parse), ConsoleMerged(s, AnswersOf(p, parse));
    assert h.basicSalary == c.basicSalary && h.hra == c.hra;
    assert h.da == c.da && h.deductions == c.deductions;
  }

  /**
   * Where they part: an empty name blanks the name over HTTP, while the
   * console keeps the current one.
   */
  lemma MergesDisagreeOnEmptyName(s: Snapshot, parse: string -> Option<Decimal>)
    requires s.name.Some? && s.name.value != ""
    ensures HttpMerged(s, map["name" := ""], parse).name == Some("")
    ensures ConsoleMerged(s, AnswersOf(map["name" := ""], parse)).name == s.name
    ensures HttpMerged(s, map["name" := ""], parse).name != ConsoleMerged(s, AnswersOf(map["name" := ""], parse)).name
  {
  }

  // ----- formatting helpers -----

  /** The single character `…` that ends a shortened cell. */
  const Ellipsis: char := '\U{2026}'

  /**
   * `truncate(s, max)`: "" for null, the text itself when it fits, else its
   * first max - 1 characters and an ellipsis. A width below 1 with a text
   * that does not fit makes `substring(0, max - 1)` throw, with the message
   * `String` gives its StringIndexOutOfBoundsException.
   */
  function Truncate(s: Option<string>, max: int): (r: Result<string, string>)
    ensures s.None? ==> r == Ok("")
    ensures s.Some? && |s.value| <= max ==> r == Ok(s.value)
    ensures s.Some? && |s.value| > max && max >= 1 ==>
              r.Ok? && |r.value| == max && r.value[..max - 1] == s.value[..max - 1] && r.value[max - 1] == Ellipsis
    ensures s.Some? && |s.value| > max && max < 1 ==>
              r == Err("begin 0, end " + IntToString(max - 1) + ", length " + IntToString(|s.value|))
  {
    if s.None? then Ok("")
    else if |s.value| <= max then Ok(s.value)
    else if max - 1 < 0 then Err("begin 0, end " + IntToString(max - 1) + ", length " + IntToString(|s.value|))
    else Ok(s.value[..max - 1] + [Ellipsis])
  }

  /** A cell never exceeds its width, and a text that fits is never altered. */
  lemma TruncateFits(s: Option<string>, max: int)
    requires max >= 1
    ensures Truncate(s, max).Ok?
    ensures |Truncate(s, max).value| <= max
    ensures s.Some? && Truncate(s, max).value == s.value ==> |s.value| <= max
  {
    if s.Some? && |s.value| > max {
      var r := Truncate(s, max).value;
      assert r[max - 1] == Ellipsis;
      assert |r| == max;
    }
  }

  /**
   * `repeat(c, n)`: n copies of c; a negative n makes `new StringBuilder(n)`
   * throw NegativeArraySizeException, whose message is n in decimal.
   */
  method Repeat(c: char, n: int) returns (r: Result<string, string>)
    ensures n < 0 <==> r.Err?
    ensures r.Err? ==> r.error == IntToString(n)
    ensures r.Ok? ==> |r.value| == n && forall i :: 0 <= i < n ==> r.value[i] == c
  {
    if n < 0 {
      return Err(IntToString(n));
    }
    var sb := "";
    for i := 0 to n
      invariant |sb| == i
      invariant forall j :: 0 <= j < i ==> sb[j] == c
    {
      sb := sb + [c];
    }
    return Ok(sb);
  }
}
