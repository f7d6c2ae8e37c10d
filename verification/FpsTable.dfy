/**
 The table of supported frame-rate ranges, built once from the sensor's range,
 and the check of a requested range against it.  Rates are in thousandths of a
 frame per second.
 */
module FpsTables {

  datatype Range = Range(min: int, max: int)

  // ----- the order and the contents of the table ------------------------------------

  /** Ranges are ordered by their upper end, then by their lower end. */
  predicate Less(a: Range, b: Range) { a.max < b.max || (a.max == b.max && a.min < b.min) }

  ghost predicate Sorted(t: seq<Range>) { forall i, j | 0 <= i < j < |t| :: Less(t[i], t[j]) }

  predicate Inside(r: Range, sensor: Range) { sensor.min <= r.min && r.max <= sensor.max }

  /** The table for a sensor: its own range, and the ranges of `all` inside it, in order and without duplicates. */
  ghost predicate TableFor(t: seq<Range>, all: seq<Range>, sensor: Range) {
    Sorted(t) && forall r :: r in t <==> r == sensor || (r in all && Inside(r, sensor))
  }

  /** This fixes the table. */
  lemma {:induction false} TableUnique(t: seq<Range>, u: seq<Range>)
    requires Sorted(t) && Sorted(u) && forall r :: r in t <==> r in u
    ensures t == u
    decreases |t|
  {
    assert t == [] <==> u == [] by {
      if t != [] {
        assert t[0] in u;
      }
      if u != [] {
        assert u[0] in t;
      }
    }
    if t != [] {
      var x, y := t[|t| - 1], u[|u| - 1];
      assert x in u && y in t;
      assert x == y;
      var t', u' := t[..|t| - 1], u[..|u| - 1];
      assert t == t' + [x] && u == u' + [x];
      forall r ensures r in t' <==> r in u' {
        assert r in t <==> r in t' || r == x;
        assert r in u <==> r in u' || r == x;
        assert x !in t' && x !in u';
      }
      TableUnique(t', u');
    }
  }

  /** The ranges the code starts from. */
  const AllRanges: seq<Range> := [
    Range(7500, 7500), Range(10000, 10000), Range(7500, 15000), Range(15000, 15000), Range(7500, 20000),
    Range(20000, 20000), Range(7500, 30000), Range(10000, 30000), Range(15000, 30000), Range(30000, 30000)]

  lemma AllRangesSorted()
    ensures Sorted(AllRanges)
  {
  }

  // ----- building it -------------------------------------------------------------------

  /** The filter, the search for the place of the sensor's range, and the shift that makes room for it. */
  method BuildTable(all: seq<Range>, sensor: Range) returns (table: array<Range>, count: nat)
    requires Sorted(all)
    ensures fresh(table) && count <= table.Length == |all| + 1
    ensures TableFor(table[..count], all, sensor)
  {
    table := new Range[|all| + 1](_ => Range(0, 0));
    count := Filter(all, sensor, table);
    ghost var kept := table[..count];
    var at := InsertIndex(table, count, all, sensor);
    if at != -1 {
      var i := count;
      while i > at
        invariant at <= i <= count
        invariant forall j | 0 <= j < i :: table[j] == kept[j]
        invariant forall j | i < j <= count :: table[j] == kept[j - 1]
      {
        table[i] := table[i - 1];
        i := i - 1;
      }
      table[i] := sensor;
      count := count + 1;
      InsertedTable(kept, all, sensor, at);
      assert table[..count] == kept[..at] + [sensor] + kept[at..];
    }
  }

  /** The ranges of a table that are inside the sensor's range, and nothing else. */
  ghost predicate Kept(t: seq<Range>, all: seq<Range>, sensor: Range) {
    Sorted(t) && forall r :: r in t <==> r in all && Inside(r, sensor)
  }

  method Filter(all: seq<Range>, sensor: Range, table: array<Range>) returns (idx: nat)
    requires Sorted(all) && |all| < table.Length
    modifies table
    ensures idx <= |all| && Kept(table[..idx], all, sensor)
  {
    idx := 0;
    for i := 0 to |all|
      invariant idx <= i && Kept(table[..idx], all[..i], sensor)
    {
      KeptNext(table[..idx], all, sensor, i);
      if all[i].max <= sensor.max && all[i].min >= sensor.min {
        ghost var was := table[..idx];
        table[idx] := all[i];
        idx := idx + 1;
        assert table[..idx] == was + [all[i]];
      }
    }
    assert all[..|all|] == all;
  }

  lemma KeptNext(t: seq<Range>, all: seq<Range>, sensor: Range, i: nat)
    requires Sorted(all) && i < |all| && Kept(t, all[..i], sensor)
    ensures Kept(if Inside(all[i], sensor) then t + [all[i]] else t, all[..i + 1], sensor)
  {
    assert all[..i + 1] == all[..i] + [all[i]];
    forall k | 0 <= k < |t| ensures Less(t[k], all[i]) {
      assert t[k] in t;
      assert t[k] in all[..i];
    }
  }

  /** The place for the sensor's range, or -1 when it is in the table. */
  method InsertIndex(table: array<Range>, count: nat, all: seq<Range>, sensor: Range) returns (at: int)
    requires count <= table.Length && Kept(table[..count], all, sensor)
    ensures -1 <= at <= count && (at == -1 <==> sensor in table[..count])
    ensures forall i | 0 <= i < at :: Less(table[i], sensor)
    ensures at >= 0 ==> forall i | at <= i < count :: Less(sensor, table[i])
  {
    at := count;
    for i := 0 to count
      invariant at == count && forall j | 0 <= j < i :: table[j].max < sensor.max
    {
      assert table[i] in table[..count];
      if table[i].max < sensor.max {
        continue;
      } else if table[i].max == sensor.max {
        if table[i].min > sensor.min {
          assert forall j | i < j < count :: Less(table[..count][i], table[..count][j]);
          at := i;
          break;
        } else if table[i].min == sensor.min {
          at := -1;
          break;
        } else {
          assert false;
        }
      } else {
        assert false;
      }
    }
  }

  lemma InsertedTable(kept: seq<Range>, all: seq<Range>, sensor: Range, at: nat)
    requires Kept(kept, all, sensor) && at <= |kept|
    requires (forall i | 0 <= i < at :: Less(kept[i], sensor)) && forall i | at <= i < |kept| :: Less(sensor, kept[i])
    ensures TableFor(kept[..at] + [sensor] + kept[at..], all, sensor)
  {
    assert kept == kept[..at] + kept[at..];
  }

  // ----- a request ------------------------------------------------------------------------

  predicate Covers(entry: Range, r: Range) { Inside(r, entry) }

  predicate Valid(r: Range) { 0 <= r.min && 0 <= r.max && r.min <= r.max }

  /** In a table for a sensor some entry covers a request exactly when the sensor's range does. */
  lemma CoveredExactly(t: seq<Range>, all: seq<Range>, sensor: Range, r: Range)
    requires TableFor(t, all, sensor)
    ensures (exists i | 0 <= i < |t| :: Covers(t[i], r)) <==> Inside(r, sensor)
  {
    if Inside(r, sensor) {
      assert sensor in t;
      var i :| 0 <= i < |t| && t[i] == sensor;
      assert Covers(t[i], r);
    }
    if i :| 0 <= i < |t| && Covers(t[i], r) {
      assert t[i] in t;
    }
  }

  datatype Rc = Accepted | BadValue

  /** The range kept in the parameters, whether the parameters are initialized, and the table, if there is one. */
  datatype State = State(stored: Range, initialized: bool, table: seq<Range>, hasTable: bool)

  /** The last of the first n entries to cover a request, or n. */
  function LastCover(t: seq<Range>, r: Range, n: nat): (k: nat)
    requires n <= |t|
    ensures k <= n && (k < n ==> Covers(t[k], r))
    ensures forall i | 0 <= i < n && (k == n || k < i) :: !Covers(t[i], r)
    decreases n
  {
    if n == 0 then 0
    else if Covers(t[n - 1], r) then n - 1
    else
      var k := LastCover(t, r, n - 1);
      if k == n - 1 then n else k
  }

  /**
   setPreviewFpsRange.  Every covering entry stores the request and sends it
   down; natives[i] is the answer for entry i, and the last answer is returned.
   */
  function Request(s: State, r: Range, natives: seq<bool>): (t: (State, Rc))
    requires |natives| == |s.table|
    ensures t.0 == s.(stored := t.0.stored)
  {
    if (s.initialized && r == s.stored) || !s.hasTable then (s, Accepted)
    else
      var k := LastCover(s.table, r, |s.table|);
      if k == |s.table| then (s, BadValue)
      else (s.(stored := r), if Valid(r) && natives[k] then Accepted else BadValue)
  }

  /**
   A request inside the sensor's range is stored, whatever the camera answers and
   whether or not the range is valid; any other request leaves the state as it was.
   Without a table every request is accepted and none is stored.
   */
  lemma StoredExactly(s: State, all: seq<Range>, sensor: Range, r: Range, natives: seq<bool>)
    requires (s.hasTable ==> TableFor(s.table, all, sensor)) && |natives| == |s.table|
    ensures Request(s, r, natives).0 ==
              if s.hasTable && sensor.min <= r.min && r.max <= sensor.max then s.(stored := r) else s
    ensures !s.hasTable ==> Request(s, r, natives).1 == Accepted
  {
    if s.hasTable {
      CoveredExactly(s.table, all, sensor, r);
      var k := LastCover(s.table, r, |s.table|);
      if k < |s.table| {
        assert Covers(s.table[k], r);
      }
    }
  }

  /** The camera's answer for the last of the entries that cover a request decides. */
  ghost predicate LastAnswer(t: seq<Range>, r: Range, natives: seq<bool>)
    requires |natives| == |t|
  {
    exists k | 0 <= k < |t| :: Covers(t[k], r) && natives[k] && forall i | k < i < |t| :: !Covers(t[i], r)
  }

  /** A request is accepted when it repeats what is stored, or is valid and the camera takes it for the last entry. */
  lemma AnsweredExactly(s: State, r: Range, natives: seq<bool>)
    requires s.hasTable && |natives| == |s.table|
    ensures Request(s, r, natives).1 == Accepted <==>
              (s.initialized && r == s.stored) || (0 <= r.min <= r.max && LastAnswer(s.table, r, natives))
  {
    var k := LastCover(s.table, r, |s.table|);
    if k < |s.table| {
      assert Covers(s.table[k], r);
    }
  }

  /** A request, with the answers of the camera to it. */
  datatype Ask = Ask(r: Range, natives: seq<bool>)

  function Requests(s: State, asks: seq<Ask>): (t: State)
    requires forall i | 0 <= i < |asks| :: |asks[i].natives| == |s.table|
    decreases |asks|
  {
    if asks == [] then s else Requests(Request(s, asks[0].r, asks[0].natives).0, asks[1..])
  }

  /** After any requests the stored range is the last one inside the sensor's range, or the first one stored. */
  lemma {:induction false} LastInsideStored(s: State, all: seq<Range>, sensor: Range, asks: seq<Ask>)
    requires s.hasTable && TableFor(s.table, all, sensor)
    requires forall i | 0 <= i < |asks| :: |asks[i].natives| == |s.table|
    ensures var t := Requests(s, asks);
            && t == s.(stored := t.stored)
            && ((forall i | 0 <= i < |asks| :: !Inside(asks[i].r, sensor)) ==> t.stored == s.stored)
            && forall i | 0 <= i < |asks| && Inside(asks[i].r, sensor)
                          && (forall j | i < j < |asks| :: !Inside(asks[j].r, sensor)) :: t.stored == asks[i].r
    decreases |asks|
  {
    if asks != [] {
      var s', rest := Request(s, asks[0].r, asks[0].natives).0, asks[1..];
      StoredExactly(s, all, sensor, asks[0].r, asks[0].natives);
      hide Request, TableFor, Inside;
      LastInsideStored(s', all, sensor, rest);
      assert forall i | 0 <= i < |rest| :: rest[i] == asks[i + 1];
      assert forall i | 1 <= i < |asks| :: asks[i] == rest[i - 1];
    }
  }

  ghost predicate Ready(s: State, all: seq<Range>, sensor: Range) {
    s.initialized && s.hasTable && TableFor(s.table, all, sensor)
  }

  /** A changed request is accepted, when the camera takes it, exactly when it is a valid range inside the sensor's. */
  lemma AcceptedExactly(s: State, all: seq<Range>, sensor: Range, r: Range, natives: seq<bool>)
    requires Ready(s, all, sensor) && r != s.stored
    requires |natives| == |s.table| && forall i | 0 <= i < |natives| :: natives[i]
    ensures Request(s, r, natives).1 == Accepted <==> sensor.min <= r.min && r.max <= sensor.max && 0 <= r.min <= r.max
  {
    CoveredExactly(s.table, all, sensor, r);
    var k := LastCover(s.table, r, |s.table|);
    if k < |s.table| {
      assert Covers(s.table[k], r);
    }
  }

  /**
   A changed request that is rejected leaves the stored range alone exactly when
   it is not inside the sensor's range; otherwise it is stored all the same, and
   repeating it is answered with success.
   */
  lemma RejectedIsStored(s: State, all: seq<Range>, sensor: Range, r: Range, natives: seq<bool>)
    requires Ready(s, all, sensor) && r != s.stored && |natives| == |s.table|
    requires Request(s, r, natives).1 == BadValue
    ensures var t := Request(s, r, natives).0;
            && (t.stored == s.stored <==> !Inside(r, sensor))
            && (Inside(r, sensor) ==> t.stored == r && Request(t, r, natives).1 == Accepted)
  {
    CoveredExactly(s.table, all, sensor, r);
    var k := LastCover(s.table, r, |s.table|);
    if k < |s.table| {
      assert Covers(s.table[k], r);
    }
  }

  /** Such a request exists for every sensor with a range of rates above zero: its ends exchanged. */
  lemma ExchangedEndsAreStored(s: State, all: seq<Range>, sensor: Range, natives: seq<bool>)
    requires Ready(s, all, sensor) && sensor.min < sensor.max && |natives| == |s.table|
    requires s.stored != Range(sensor.max, sensor.min)
    ensures var (t, rc) := Request(s, Range(sensor.max, sensor.min), natives);
            rc == BadValue && t.stored == Range(sensor.max, sensor.min)
  {
    var r := Range(sensor.max, sensor.min);
    CoveredExactly(s.table, all, sensor, r);
    var k := LastCover(s.table, r, |s.table|);
    if k < |s.table| {
      assert Covers(s.table[k], r);
    }
  }

  class FpsControl {
    var stored: Range
    var initialized: bool
    var table: array<Range>
    var count: nat
    var hasTable: bool

    ghost predicate Wellformed()
      reads this
    {
      count <= table.Length
    }

    ghost function Current(): State
      requires Wellformed()
      reads this, table
    {
      State(stored, initialized, table[..count], hasTable)
    }

    /** The parameters of a sensor: its table, and its own range stored. */
    constructor (all: seq<Range>, sensor: Range)
      requires Sorted(all)
      ensures Wellformed() && fresh(table) && Ready(Current(), all, sensor) && stored == sensor
    {
      var t, n := BuildTable(all, sensor);
      table, count, hasTable, stored, initialized := t, n, true, sensor, true;
    }

    method SetPreviewFpsRange(r: Range, natives: seq<bool>) returns (rc: Rc)
      requires Wellformed() && |natives| == count
      modifies this`stored
      ensures Wellformed() && (Current(), rc) == Request(old(Current()), r, natives)
    {
      rc := Accepted;
      if initialized && r == stored {
        return;
      }
      if !hasTable {
        return;
      }
      var found := false;
      for i := 0 to count
        invariant var k := LastCover(table[..count], r, i);
                  && found == (k < i)
                  && stored == (if k < i then r else old(stored))
                  && rc == (if k < i && !(Valid(r) && natives[k]) then BadValue else Accepted)
      {
        if r.min >= table[i].min && r.max <= table[i].max {
          found := true;
          stored := r;
          var valid := true;
          if r.min < 0 || r.max < 0 {
            valid := false;
          }
          if r.min > r.max {
            valid := false;
          }
          if valid {
            stored := r;
            rc := if natives[i] then Accepted else BadValue;
          } else {
            rc := BadValue;
          }
        }
      }
      if !found {
        rc := BadValue;
      }
    }
  }
}
