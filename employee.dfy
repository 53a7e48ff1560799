/**
 * The employee record: an id, a name, a designation and four monetary
 * amounts (basic salary, house-rent allowance, dearness allowance and
 * deductions), with gross, net and rounded net pay derived from them.
 * A Java `null` reference is `None`.
 */
module Model {
  import opened Wrappers
  import opened Decimals

  /** `safe` (and the DAO's `nullToZero`): a missing amount counts as zero. */
  function Safe(v: Option<Decimal>): (r: Decimal)
    ensures v.Some? ==> r == v.value
    ensures v.None? ==> r.unscaled == 0 && r.scale == 0
  {
    if v.None? then Zero else v.value
  }

  /** The field values of one employee object at one moment. */
  datatype Snapshot = Snapshot(
    id: int,
    name: Option<string>,
    designation: Option<string>,
    basicSalary: Option<Decimal>,
    hra: Option<Decimal>,
    da: Option<Decimal>,
    deductions: Option<Decimal>)
  {
    /**
     * No amount is null. The 7-argument constructor establishes this and
     * every amount setter keeps it; only the no-argument constructor does not.
     */
    predicate AmountsPresent()
    {
      basicSalary.Some? && hra.Some? && da.Some? && deductions.Some?
    }

    /** `getGrossSalary`: basic + hra + da, a null amount counting as zero (GrossIsSum). */
    function Gross(): (r: Decimal)
      ensures r.scale == Max(Max(Safe(basicSalary).scale, Safe(hra).scale), Safe(da).scale)
    {
      Add(Add(Safe(basicSalary), Safe(hra)), Safe(da))
    }

    /** `getNetSalary`: gross minus deductions; it may be negative (NetIsDifference). */
    function Net(): (r: Decimal)
      ensures r.scale == Max(Gross().scale, Safe(deductions).scale)
    {
      Subtract(Gross(), Safe(deductions))
    }

    /** `getNetSalaryRounded`: the net pay at two decimal places, rounded half-up (NetRoundedNearest). */
    function NetRounded(): (r: Decimal)
      ensures r.scale == 2
    {
      SetScaleHalfUp(Net(), 2)
    }
  }

  /** The gross pay is exactly the sum of the three earnings, a null counting as zero. */
  lemma GrossIsSum(s: Snapshot)
    ensures Value(s.Gross()) == Value(Safe(s.basicSalary)) + Value(Safe(s.hra)) + Value(Safe(s.da))
  {
    AddExact(Safe(s.basicSalary), Safe(s.hra));
    AddExact(Add(Safe(s.basicSalary), Safe(s.hra)), Safe(s.da));
  }

  /** The net pay is exactly the earnings less the deductions, a null counting as zero. */
  lemma NetIsDifference(s: Snapshot)
    ensures Value(s.Net()) == Value(Safe(s.basicSalary)) + Value(Safe(s.hra)) + Value(Safe(s.da)) - Value(Safe(s.deductions))
  {
    GrossIsSum(s);
    SubtractExact(s.Gross(), Safe(s.deductions));
  }

  /**
   * A net pay with at most two decimals is kept as it is; a finer one is
   * rounded to the nearest cent: written back at its own scale it is within
   * half a cent of the exact net, and a tie goes away from zero.
   */
  lemma NetRoundedNearest(s: Snapshot)
    ensures s.Net().scale <= 2 ==> Value(s.NetRounded()) == Value(s.Net())
    ensures s.Net().scale > 2 ==>
      var r, n, cent := s.NetRounded(), s.Net(), Pow10(s.Net().scale - 2);
      && 2 * Abs(r.unscaled * cent - n.unscaled) <= cent
      && (2 * Abs(r.unscaled * cent - n.unscaled) == cent ==> Abs(r.unscaled * cent) > Abs(n.unscaled))
  {
    HalfUpNearest(s.Net(), 2);
  }

  /** What the 7-argument constructor stores: id, name and designation verbatim, each amount through Safe. */
  function Initial(id: int, name: Option<string>, designation: Option<string>,
                   basicSalary: Option<Decimal>, hra: Option<Decimal>, da: Option<Decimal>,
                   deductions: Option<Decimal>): Snapshot
  {
    Snapshot(id, name, designation, Some(Safe(basicSalary)), Some(Safe(hra)), Some(Safe(da)), Some(Safe(deductions)))
  }

  /** The employee object. Getters are reads of these fields. */
  class Employee {
    var id: int
    var name: Option<string>
    var designation: Option<string>
    var basicSalary: Option<Decimal>
    var hra: Option<Decimal>
    var da: Option<Decimal>
    var deductions: Option<Decimal>

    function State(): Snapshot
      reads this
    {
      Snapshot(id, name, designation, basicSalary, hra, da, deductions)
    }

    /** `new Employee()`: id 0 and every reference field null. */
    constructor Blank()
      ensures State() == Snapshot(0, None, None, None, None, None, None)
    {
      id, name, designation := 0, None, None;
      basicSalary, hra, da, deductions := None, None, None, None;
    }

    /** The 7-argument constructor. */
    constructor (id: int, name: Option<string>, designation: Option<string>,
                 basicSalary: Option<Decimal>, hra: Option<Decimal>, da: Option<Decimal>,
                 deductions: Option<Decimal>)
      ensures State() == Initial(id, name, designation, basicSalary, hra, da, deductions)
      ensures State().AmountsPresent()
      ensures basicSalary.Some? ==> this.basicSalary == basicSalary
      ensures basicSalary.None? ==> this.basicSalary == Some(Zero)
    {
      this.id, this.name, this.designation := id, name, designation;
      this.basicSalary, this.hra := Some(Safe(basicSalary)), Some(Safe(hra));
      this.da, this.deductions := Some(Safe(da)), Some(Safe(deductions));
    }

    /** The 6-argument constructor: the 7-argument one with id 0. */
    constructor New(name: Option<string>, designation: Option<string>,
                    basicSalary: Option<Decimal>, hra: Option<Decimal>, da: Option<Decimal>,
                    deductions: Option<Decimal>)
      ensures State() == Initial(0, name, designation, basicSalary, hra, da, deductions)
      ensures State().AmountsPresent()
    {
      this.id, this.name, this.designation := 0, name, designation;
      this.basicSalary, this.hra := Some(Safe(basicSalary)), Some(Safe(hra));
      this.da, this.deductions := Some(Safe(da)), Some(Safe(deductions));
    }

    method SetId(id: int)
      modifies this
      ensures State() == old(State()).(id := id)
    {
      this.id := id;
    }

    method SetName(name: Option<string>)
      modifies this
      ensures State() == old(State()).(name := name)
    {
      this.name := name;
    }

    method SetDesignation(designation: Option<string>)
      modifies this
      ensures State() == old(State()).(designation := designation)
    {
      this.designation := designation;
    }

    method SetBasicSalary(v: Option<Decimal>)
      modifies this
      ensures State() == old(State()).(basicSalary := Some(Safe(v)))
      ensures old(State()).AmountsPresent() ==> State().AmountsPresent()
    {
      basicSalary := Some(Safe(v));
    }

    method SetHra(v: Option<Decimal>)
      modifies this
      ensures State() == old(State()).(hra := Some(Safe(v)))
      ensures old(State()).AmountsPresent() ==> State().AmountsPresent()
    {
      hra := Some(Safe(v));
    }

    method SetDa(v: Option<Decimal>)
      modifies this
      ensures State() == old(State()).(da := Some(Safe(v)))
      ensures old(State()).AmountsPresent() ==> State().AmountsPresent()
    {
      da := Some(Safe(v));
    }

    method SetDeductions(v: Option<Decimal>)
      modifies this
      ensures State() == old(State()).(deductions := Some(Safe(v)))
      ensures old(State()).AmountsPresent() ==> State().AmountsPresent()
    {
      deductions := Some(Safe(v));
    }
  }

  /** With a single non-null amount, a basic salary, the net pay is that amount. */
  lemma SoleEarning(id: int, x: Decimal)
    requires x.scale >= 0
    ensures Snapshot(id, None, None, Some(x), None, None, None).Net() == x
  {
    ZeroIsNeutral(x);
    ZeroIsNeutral(Zero);
  }

  /** With a single non-null amount, a deduction, the net pay is its negation. */
  lemma SoleDeduction(id: int, x: Decimal)
    requires x.scale >= 0
    ensures Snapshot(id, None, None, None, None, None, Some(x)).Net() == Decimal(-x.unscaled, x.scale)
  {
    ZeroIsNeutral(x);
    ZeroIsNeutral(Zero);
  }

  /** A record whose amounts are all null, as `new Employee()` leaves it, has zero gross and zero net pay. */
  lemma BlankPaysNothing(s: Snapshot)
    requires s.basicSalary.None? && s.hra.None? && s.da.None? && s.deductions.None?
    ensures s.Gross() == Zero
    ensures s.NetRounded() == Decimal(0, 2)
  {
    NoEarningsNoGross(s);
    NoDeductionsKeepGross(s);
    ZeroNetRoundsToZero(s);
  }

  /** With every earning null, the gross pay is zero. */
  lemma NoEarningsNoGross(s: Snapshot)
    requires s.basicSalary.None? && s.hra.None? && s.da.None?
    ensures s.Gross() == Zero
  {
    ZeroIsNeutral(Zero);
  }

  /** With deductions null, the net pay is the gross pay. */
  lemma NoDeductionsKeepGross(s: Snapshot)
    requires s.deductions.None? && s.Gross().scale >= 0
    ensures s.Net() == s.Gross()
  {
    ZeroIsNeutral(s.Gross());
  }

  /** A zero net pay rounds to zero cents. */
  lemma ZeroNetRoundsToZero(s: Snapshot)
    requires s.Net() == Zero
    ensures s.NetRounded() == Decimal(0, 2)
  {
    ZeroAtScale(2);
  }

  /** Nulls and zeros are the same to the pay computations. */
  lemma NullIsZero(s: Snapshot)
    ensures Initial(s.id, s.name, s.designation, s.basicSalary, s.hra, s.da, s.deductions).Gross() == s.Gross()
    ensures Initial(s.id, s.name, s.designation, s.basicSalary, s.hra, s.da, s.deductions).NetRounded() == s.NetRounded()
  {
  }

  /** Net pay 1000.005 (a basic salary and nothing else) rounds up to 1000.01. */
  lemma HalfCentRoundsUp()
    ensures Snapshot(1, None, None, Some(Decimal(1000005, 3)), None, None, None).NetRounded() == Decimal(100001, 2)
  {
    SoleEarning(1, Decimal(1000005, 3));
    HalfUpExamples();
  }

  /** Net pay 1000.004 rounds down to 1000.00. */
  lemma BelowHalfCentRoundsDown()
    ensures Snapshot(1, None, None, Some(Decimal(1000004, 3)), None, None, None).NetRounded() == Decimal(100000, 2)
  {
    SoleEarning(1, Decimal(1000004, 3));
    HalfUpExamples();
  }

  /** A negative net of -1000.005 (deductions only) rounds away from zero, to -1000.01. */
  lemma NegativeHalfCentRoundsAway()
    ensures Snapshot(1, None, None, None, None, None, Some(Decimal(1000005, 3))).NetRounded() == Decimal(-100001, 2)
  {
    SoleDeduction(1, Decimal(1000005, 3));
    HalfUpExamples();
  }
}
