/**
 * The persistence gateway: five operations over the `employee` table. The
 * table is a map from id to row and the auto-increment counter is `nextId`;
 * a database that cannot be reached is the constant `unavailable`, whose
 * message every operation then reports as its SQLException, changing nothing.
 */
module Dao {
  import opened Wrappers
  import opened Decimals
  import opened Model

  /** The six stored columns of one row; the amount columns are never null. */
  datatype Row = Row(
    name: Option<string>,
    designation: Option<string>,
    basicSalary: Decimal,
    hra: Decimal,
    da: Decimal,
    deductions: Decimal)

  /** The row that insert and update write: each amount through `nullToZero`. */
  function RowOf(s: Snapshot): Row
  {
    Row(s.name, s.designation, Safe(s.basicSalary), Safe(s.hra), Safe(s.da), Safe(s.deductions))
  }

  /** `mapRow`: the employee the 7-argument constructor builds from row `r` with key `id`. */
  function Loaded(id: int, r: Row): Snapshot
  {
    Initial(id, r.name, r.designation, Some(r.basicSalary), Some(r.hra), Some(r.da), Some(r.deductions))
  }

  /**
   * Storing an employee and loading it back gives the same name and
   * designation and the same amounts with null read back as zero; an
   * employee with no null amount comes back exactly, under its new id.
   */
  lemma StoreThenLoad(s: Snapshot, id: int)
    ensures Loaded(id, RowOf(s)).id == id
    ensures Loaded(id, RowOf(s)).name == s.name && Loaded(id, RowOf(s)).designation == s.designation
    ensures Loaded(id, RowOf(s)).basicSalary == Some(Safe(s.basicSalary))
    ensures Loaded(id, RowOf(s)).hra == Some(Safe(s.hra))
    ensures Loaded(id, RowOf(s)).da == Some(Safe(s.da))
    ensures Loaded(id, RowOf(s)).deductions == Some(Safe(s.deductions))
    ensures s.AmountsPresent() ==> Loaded(id, RowOf(s)) == s.(id := id)
  {
  }

  /** The keys of `m` in [lo, hi), ascending: what `ORDER BY id` visits. */
  function KeysFrom<R>(m: map<int, R>, lo: int, hi: int): (ks: seq<int>)
    ensures forall k :: k in ks <==> lo <= k < hi && k in m
    ensures forall a, b :: 0 <= a < b < |ks| ==> ks[a] < ks[b]
    decreases hi - lo
  {
    if hi <= lo then []
    else
      var front := KeysFrom(m, lo, hi - 1);
      assert forall a :: 0 <= a < |front| ==> front[a] in front && front[a] < hi - 1;
      front + (if hi - 1 in m then [hi - 1] else [])
  }

  class EmployeeDAO {
    var rows: map<int, Row>
    var nextId: int
    const unavailable: Option<string>

    /** Every key was handed out by the counter, which starts at 1. */
    ghost predicate Valid()
      reads this
    {
      1 <= nextId && forall id :: id in rows ==> 1 <= id < nextId
    }

    /** An empty table, reachable or not according to `unavailable`. */
    constructor (unavailable: Option<string>)
      ensures Valid() && rows == map[] && nextId == 1 && this.unavailable == unavailable
    {
      rows, nextId := map[], 1;
      this.unavailable := unavailable;
    }

    /**
     * `addEmployee`: inserts a row under a fresh key, writes each amount
     * through `nullToZero`, and sets the employee's id to the new key.
     */
    method AddEmployee(e: Employee) returns (r: Result<(), string>)
      requires Valid()
      modifies this, e
      ensures Valid()
      ensures unavailable.Some? ==> r == Err(unavailable.value) && rows == old(rows)
                                     && nextId == old(nextId) && e.State() == old(e.State())
      ensures unavailable.None? ==> r.Ok? && old(nextId) !in old(rows)
                                     && rows == old(rows)[old(nextId) := RowOf(old(e.State()))]
                                     && nextId == old(nextId) + 1
                                     && e.State() == old(e.State()).(id := old(nextId))
    {
      if unavailable.Some? {
        return Err(unavailable.value);
      }
      var id := nextId;
      rows := rows[id := RowOf(e.State())];
      nextId := nextId + 1;
      e.SetId(id);
      return Ok(());
    }

    /**
     * `updateEmployee`: true exactly when a row with the employee's id
     * exists, in which case its columns are overwritten; no other row changes.
     */
    method UpdateEmployee(e: Employee) returns (r: Result<bool, string>)
      requires Valid()
      modifies this`rows
      ensures Valid()
      ensures unavailable.Some? ==> r == Err(unavailable.value) && rows == old(rows)
      ensures unavailable.None? ==> r == Ok(e.id in old(rows))
      ensures unavailable.None? && e.id in old(rows) ==> rows == old(rows)[e.id := RowOf(e.State())]
      ensures unavailable.None? && e.id !in old(rows) ==> rows == old(rows)
    {
      if unavailable.Some? {
        return Err(unavailable.value);
      }
      var found := e.id in rows;
      if found {
        rows := rows[e.id := RowOf(e.State())];
      }
      return Ok(found);
    }

    /** `deleteEmployee`: true exactly when the row existed; afterwards it does not. */
    method DeleteEmployee(id: int) returns (r: Result<bool, string>)
      requires Valid()
      modifies this`rows
      ensures Valid()
      ensures unavailable.Some? ==> r == Err(unavailable.value) && rows == old(rows)
      ensures unavailable.None? ==> r == Ok(id in old(rows)) && rows == old(rows) - {id}
    {
      if unavailable.Some? {
        return Err(unavailable.value);
      }
      var found := id in rows;
      rows := rows - {id};
      return Ok(found);
    }

    /** `getEmployeeById`: null (None) for an absent id, else the row as a new employee. */
    method GetEmployeeById(id: int) returns (r: Result<Option<Employee>, string>)
      ensures unavailable.Some? ==> r == Err(unavailable.value)
      ensures unavailable.None? ==> r.Ok? && (r.value.Some? <==> id in rows)
      ensures unavailable.None? && id in rows ==>
                r.value.Some? && fresh(r.value.value) && r.value.value.State() == Loaded(id, rows[id])
    {
      if unavailable.Some? {
        return Err(unavailable.value);
      }
      if id !in rows {
        return Ok(None);
      }
      var row := rows[id];
      var e := new Employee(id, row.name, row.designation, Some(row.basicSalary), Some(row.hra),
                            Some(row.da), Some(row.deductions));
      return Ok(Some(e));
    }

    /**
     * `getAllEmployees`: one new employee per row, in ascending id order;
     * the keys below `nextId` are all the keys there are.
     */
    method GetAllEmployees() returns (r: Result<seq<Employee>, string>)
      requires Valid()
      ensures unavailable.Some? ==> r == Err(unavailable.value)
      ensures unavailable.None? ==> r.Ok? && |r.value| == |KeysFrom(rows, 1, nextId)|
      ensures unavailable.None? ==> forall j :: 0 <= j < |r.value| ==>
                fresh(r.value[j]) && r.value[j].State() == Loaded(KeysFrom(rows, 1, nextId)[j], rows[KeysFrom(rows, 1, nextId)[j]])
    {
      if unavailable.Some? {
        return Err(unavailable.value);
      }
      var out: seq<Employee> := [];
      var i := 1;
      while i < nextId
        invariant 1 <= i <= nextId
        invariant |out| == |KeysFrom(rows, 1, i)|
        invariant forall j :: 0 <= j < |out| ==>
                    fresh(out[j]) && out[j].State() == Loaded(KeysFrom(rows, 1, i)[j], rows[KeysFrom(rows, 1, i)[j]])
      {
        if i in rows {
          var row := rows[i];
          var e := new Employee(i, row.name, row.designation, Some(row.basicSalary), Some(row.hra),
                                Some(row.da), Some(row.deductions));
          out := out + [e];
        }
        i := i + 1;
      }
      return Ok(out);
    }
  }

  /** Listing up to the counter visits every row of a valid table exactly once, ascending. */
  lemma ListingIsComplete(rows: map<int, Row>, nextId: int)
    requires forall id :: id in rows ==> 1 <= id < nextId
    ensures forall id :: id in rows <==> id in KeysFrom(rows, 1, nextId)
    ensures |KeysFrom(rows, 1, nextId)| == |rows|
  {
    var ks := KeysFrom(rows, 1, nextId);
    DistinctCount(ks, rows.Keys);
  }

  /** A strictly ascending sequence has as many elements as the set of its elements. */
  lemma {:induction false} DistinctCount(ks: seq<int>, s: set<int>)
    requires forall a, b :: 0 <= a < b < |ks| ==> ks[a] < ks[b]
    requires forall k :: k in ks <==> k in s
    ensures |ks| == |s|
  {
    if ks != [] {
      var last := ks[|ks| - 1];
      var front := ks[..|ks| - 1];
      assert forall k :: k in front <==> k in s - {last} by {
        forall k ensures k in front <==> k in s - {last} {
          if k in front {
            var a :| 0 <= a < |front| && front[a] == k;
            assert ks[a] < ks[|ks| - 1];
          }
          if k in s - {last} {
            assert k in ks;
            var a :| 0 <= a < |ks| && ks[a] == k;
            assert a != |ks| - 1;
            assert front[a] == k;
          }
        }
      }
      DistinctCount(front, s - {last});
      assert last in s;
      assert |s - {last}| == |s| - 1;
    } else {
      assert forall k :: k !in s;
      assert s == {};
    }
  }
}
