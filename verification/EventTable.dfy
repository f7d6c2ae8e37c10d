/**
 Registration of event callbacks: four slots for each event type, the mask of
 types with a client, the kernel subscription and the polling thread.
 */
module EventTables {
  import opened Runs

  const Types: nat := 5
  const Entries: nat := 4

  type EventType = t: nat | t < Types

  /** A callback and its user data; 0 is the NULL pointer. */
  datatype Slot = Slot(cb: nat, user: nat)

  const Empty := Slot(0, 0)

  datatype Entry = Entry(slots: seq<Slot>, count: int)

  /** Kernel side: the two subscriptions, and how often the polling thread was launched and stopped. */
  datatype Kernel = Kernel(notify: bool, errors: bool, launched: nat, stopped: nat)

  /** The mask of types is kept as a set: the bits of distinct types are distinct. */
  datatype RawTable = RawTable(evt: seq<Entry>, mask: set<EventType>, kernel: Kernel)

  predicate Shaped(d: RawTable) { |d.evt| == Types && forall t | 0 <= t < Types :: |d.evt[t].slots| == Entries }

  type Table = d: RawTable | Shaped(d) witness New

  const New: RawTable := RawTable(seq(Types, _ => Entry(seq(Entries, _ => Empty), 0)), {}, Kernel(false, false, 0, 0))

  /** Whether each of the two subscription calls to the kernel succeeds. */
  datatype Io = Io(notify: bool, errors: bool)

  predicate Fine(io: Io) { io.notify && io.errors }

  datatype Call =
    | Register(t: EventType, cb: nat, user: nat, io: Io)
    | Unregister(t: EventType, user: nat, io: Io)

  datatype Rc = Ok | NoSlot | IoFailed

  // ----- steps -------------------------------------------------------------------

  /** The first slot with this user data, or the number of slots. */
  function Find(slots: seq<Slot>, user: nat): (k: nat)
    ensures k <= |slots| && (k < |slots| ==> slots[k].user == user)
    ensures forall i | 0 <= i < k :: slots[i].user != user
  {
    if slots == [] || slots[0].user == user then 0 else 1 + Find(slots[1..], user)
  }

  function Subscribe(mask: set<EventType>, k: Kernel, t: EventType, io: Io): (set<EventType>, Kernel, Rc) {
    if mask == {} && !io.notify then (mask, k, IoFailed)
    else if mask == {} && !io.errors then (mask, k.(notify := true), IoFailed)
    else
      var k' := if mask == {} then k.(notify := true, errors := true) else k;
      (mask + {t}, if mask + {t} == {t} then k'.(launched := k.launched + 1) else k', Ok)
  }

  function Unsubscribe(mask: set<EventType>, k: Kernel, t: EventType, io: Io): (set<EventType>, Kernel, Rc) {
    var k' := if mask == {t} then k.(notify := k.notify && !io.notify, errors := k.errors && !io.errors) else k;
    (mask - {t},
     if mask - {t} == {} then k'.(stopped := k.stopped + 1) else k',
     if mask == {t} && !io.errors then IoFailed else Ok)
  }

  /** One slot and the count change; a count of at most one then goes to the kernel. */
  function Change(d: Table, t: EventType, k: nat, slot: Slot, count: int, io: Io): (r: (Table, Rc))
    requires k < Entries
  {
    var e := d.evt[t := Entry(d.evt[t].slots[k := slot], count)];
    if count > 1 then (RawTable(e, d.mask, d.kernel), Ok)
    else
      var (mask, kernel, rc) :=
        if count == 0 then Unsubscribe(d.mask, d.kernel, t, io) else Subscribe(d.mask, d.kernel, t, io);
      (RawTable(e, mask, kernel), rc)
  }

  /** The slot a call takes or gives up: a registration looks for NULL user data. */
  function Target(d: Table, c: Call): nat {
    Find(d.evt[c.t].slots, if c.Register? then 0 else c.user)
  }

  function Do(d: Table, c: Call): (Table, Rc) {
    var k, n := Target(d, c), d.evt[c.t].count;
    if k == Entries then (d, NoSlot)
    else if c.Register? then Change(d, c.t, k, Slot(c.cb, c.user), n + 1, c.io)
    else Change(d, c.t, k, Empty, n - 1, c.io)
  }

  function Step(d: Table, c: Call): Table { Do(d, c).0 }

  // ----- the invariant -------------------------------------------------------------

  function Occupied(slots: seq<Slot>): nat {
    if slots == [] then 0 else (if slots[0].user == 0 then 0 else 1) + Occupied(slots[1..])
  }

  /** The count is the number of occupied slots, and the mask bit is set exactly when it is positive. */
  predicate EntryInv(d: Table, t: EventType) {
    d.evt[t].count == Occupied(d.evt[t].slots) && (t in d.mask <==> d.evt[t].count > 0)
  }

  /** The kernel is subscribed exactly when the mask is not zero. */
  predicate Inv(d: Table) {
    (forall t: EventType | 0 <= t < Types :: EntryInv(d, t)) && d.kernel.notify == d.kernel.errors == (d.mask != {})
  }

  lemma {:induction false} OccupiedAfter(slots: seq<Slot>, k: nat, slot: Slot)
    requires k < |slots|
    ensures Occupied(slots[k := slot]) ==
      Occupied(slots) + (if slot.user == 0 then 0 else 1) - (if slots[k].user == 0 then 0 else 1)
  {
    if k == 0 {
      assert slots[k := slot][1..] == slots[1..];
    } else {
      assert slots[k := slot][1..] == slots[1..][k - 1 := slot];
      OccupiedAfter(slots[1..], k - 1, slot);
    }
  }

  lemma {:induction false} FullExactly(slots: seq<Slot>)
    ensures Occupied(slots) <= |slots|
    ensures Find(slots, 0) == |slots| <==> Occupied(slots) == |slots|
  {
    if slots != [] {
      FullExactly(slots[1..]);
    }
  }

  lemma {:induction false} FoundIsOccupied(slots: seq<Slot>, user: nat)
    requires user != 0 && Find(slots, user) < |slots|
    ensures Occupied(slots) > 0
  {
    if slots[0].user != user {
      FoundIsOccupied(slots[1..], user);
    }
  }

  /**
   The calls that break the bookkeeping: NULL user data with a slot to match it,
   a first registration that the kernel refuses, a last one it does not let go.
   */
  predicate Breaks(d: Table, c: Call) {
    && Target(d, c) < Entries
    && (|| c.user == 0
        || (c.Register? && d.mask == {} && !Fine(c.io))
        || (c.Unregister? && d.evt[c.t].count == 1 && d.mask == {c.t} && !Fine(c.io)))
  }

  /** Only the entry of its type is touched by a call, and only its bit of the mask. */
  lemma OthersKept(d: Table, c: Call)
    ensures forall t | 0 <= t < Types && t != c.t ::
              Step(d, c).evt[t] == d.evt[t] && (t in Step(d, c).mask <==> t in d.mask)
  {
  }

  /** The entry of the call's type after a call that finds its slot. */
  lemma EntryAfter(d: Table, c: Call)
    requires Inv(d) && Target(d, c) < Entries
    ensures var e := Step(d, c).evt[c.t];
            && e.count == d.evt[c.t].count + (if c.Register? then 1 else -1)
            && (e.count == Occupied(e.slots) <==> c.user != 0)
  {
    var slots, k := d.evt[c.t].slots, Target(d, c);
    OccupiedAfter(slots, k, if c.Register? then Slot(c.cb, c.user) else Empty);
    assert EntryInv(d, c.t);
  }

  /** The mask and the kernel after a call that does not break the bookkeeping. */
  lemma KernelAfter(d: Table, c: Call)
    requires Inv(d) && Target(d, c) < Entries && c.user != 0
    ensures var t := Step(d, c);
            (&& (c.t in t.mask <==> t.evt[c.t].count > 0)
             && t.kernel.notify == t.kernel.errors == (t.mask != {})) == !Breaks(d, c)
  {
    assert EntryInv(d, c.t);
    if c.Unregister? {
      FoundIsOccupied(d.evt[c.t].slots, c.user);
    }
  }

  /** One call keeps the invariant exactly when it is not one of those that break it. */
  lemma StepExactly(d: Table, c: Call)
    requires Inv(d)
    ensures Inv(Step(d, c)) <==> !Breaks(d, c)
  {
    if Target(d, c) < Entries {
      OthersKept(d, c);
      EntryAfter(d, c);
      if c.user != 0 {
        KernelAfter(d, c);
      }
      hide Step, Occupied, Breaks;
      var t := Step(d, c);
      assert forall u: EventType | 0 <= u < Types && u != c.t :: EntryInv(d, u) ==> EntryInv(t, u);
      assert EntryInv(t, c.t) <==> c.user != 0 && (c.t in t.mask <==> t.evt[c.t].count > 0);
    }
  }

  // ----- every sequence of calls -----------------------------------------------------

  /** Throughout a run the counts, the mask and the subscription agree, unless one of those calls is made. */
  lemma AgreeExactly(cs: seq<Call>)
    ensures Throughout<Table, Call>(Inv, Step, New, cs) <==> !Somewhere<Table, Call>(Breaks, Step, New, cs)
  {
    NewAgrees();
    forall d: Table, c: Call | Inv(d) ensures Inv(Step(d, c)) <==> !Breaks(d, c) {
      StepExactly(d, c);
    }
    ThroughoutExactly<Table, Call>(Inv, Breaks, Step, New, cs);
  }

  lemma NewAgrees()
    ensures Inv(New)
  {
    forall t: EventType ensures EntryInv(New, t) {
      NoneOccupied(New.evt[t].slots);
    }
  }

  lemma {:induction false} NoneOccupied(slots: seq<Slot>)
    requires forall i | 0 <= i < |slots| :: slots[i].user == 0
    ensures Occupied(slots) == 0
  {
    if slots != [] {
      NoneOccupied(slots[1..]);
    }
  }

  /** A client with NULL user data is counted and takes no slot. */
  lemma NullClientCounted(t: EventType, cb: nat)
    ensures var d := Step(New, Register(t, cb, 0, Io(true, true)));
            d.evt[t].count == 1 && Occupied(d.evt[t].slots) == 0 && !Inv(d)
  {
    var d := Step(New, Register(t, cb, 0, Io(true, true)));
    NoneOccupied(d.evt[t].slots);
    assert !EntryInv(d, t);
  }

  /** Clients with real user data and a kernel that does as asked: every run keeps the table in order. */
  lemma OrderlyRun(cs: seq<Call>)
    requires forall i | 0 <= i < |cs| :: cs[i].user != 0 && Fine(cs[i].io)
    ensures Inv(Run<Table, Call>(Step, New, cs))
  {
    NothingBreaks(New, cs);
    AgreeExactly(cs);
    ThroughoutAtEnd<Table, Call>(Inv, Step, New, cs);
  }

  lemma {:induction false} NothingBreaks(d: Table, cs: seq<Call>)
    requires forall i | 0 <= i < |cs| :: cs[i].user != 0 && Fine(cs[i].io)
    ensures !Somewhere<Table, Call>(Breaks, Step, d, cs)
    decreases |cs|
  {
    if cs != [] {
      NothingBreaks(Step(d, cs[0]), cs[1..]);
    }
  }

  // ----- the polling thread ------------------------------------------------------------

  /** One polling thread while there is a client, none otherwise. */
  predicate OneThread(d: Table) {
    Inv(d) && d.kernel.launched == d.kernel.stopped + (if d.mask == {} then 0 else 1)
  }

  /** Going from two clients to one, with no client of another type, runs the code of a first registration. */
  predicate SecondThread(d: Table, c: Call) {
    c.Unregister? && Target(d, c) < Entries && d.evt[c.t].count == 2 && d.mask == {c.t}
  }

  predicate Disturbs(d: Table, c: Call) { Breaks(d, c) || SecondThread(d, c) }

  lemma ThreadsAfter(d: Table, c: Call)
    requires OneThread(d)
    ensures OneThread(Step(d, c)) <==> !Disturbs(d, c)
  {
    StepExactly(d, c);
    if Target(d, c) < Entries && !Breaks(d, c) {
      var e := d.evt[c.t];
      assert EntryInv(d, c.t);
      if c.Unregister? {
        FoundIsOccupied(e.slots, c.user);
        assert d.mask - {c.t} == {} <==> d.mask == {c.t};
      } else {
        assert d.mask + {c.t} == {c.t} <==> d.mask == {} || d.mask == {c.t};
      }
    }
  }

  /**
   There is one polling thread exactly while some client is registered,
   throughout a run, if and only if no call breaks the bookkeeping and none
   leaves one client of the only type in use where there were two: the busy test
   never holds the launch of a second thread back.
   */
  lemma ThreadsExactly(cs: seq<Call>)
    ensures Throughout<Table, Call>(OneThread, Step, New, cs) <==> !Somewhere<Table, Call>(Disturbs, Step, New, cs)
  {
    NewAgrees();
    forall d: Table, c: Call | OneThread(d) ensures OneThread(Step(d, c)) <==> !Disturbs(d, c) {
      ThreadsAfter(d, c);
    }
    ThroughoutExactly<Table, Call>(OneThread, Disturbs, Step, New, cs);
  }

  /** Two clients of one type, then one of them: the second polling thread is launched, and none has been stopped. */
  lemma SecondThreadLaunched(t: EventType, cb: nat, user: nat, other: nat)
    requires user != 0 && other != 0 && user != other
    ensures var yes := Io(true, true);
            var cs := [Register(t, cb, user, yes), Register(t, cb, other, yes), Unregister(t, user, yes)];
            var d := Run<Table, Call>(Step, New, cs);
            && d.evt[t].count == 1 && d.mask == {t} && d.kernel.launched == 2 && d.kernel.stopped == 0
  {
    var yes := Io(true, true);
    var a, b, c := Register(t, cb, user, yes), Register(t, cb, other, yes), Unregister(t, user, yes);
    RunThree<Table, Call>(Step, New, a, b, c);
    var d1 := Step(New, a);
    var d2 := Step(d1, b);
    assert d1.evt[t].slots == New.evt[t].slots[0 := Slot(cb, user)] && d1.evt[t].count == 1 && d1.mask == {t};
    FindAt(d1.evt[t].slots, 0, 1);
    assert d2.evt[t].slots == d1.evt[t].slots[1 := Slot(cb, other)] && d2.evt[t].count == 2;
    FindAt(d2.evt[t].slots, user, 0);
  }

  // ----- who is registered, and what the caller is told ---------------------------------

  /** How often a client is registered for a type. */
  function Times(d: Table, t: EventType, s: Slot): nat { multiset(d.evt[t].slots)[s] }

  /** A registration adds its client unless four are there; every other client is registered as often as before. */
  lemma RegisterAdds(d: Table, c: Call, t: EventType, s: Slot)
    requires Inv(d) && c.Register? && c.user != 0 && Fine(c.io) && s.user != 0
    ensures Do(d, c).1 == (if d.evt[c.t].count < Entries then Ok else NoSlot)
    ensures Times(Step(d, c), t, s)
         == Times(d, t, s) + (if t == c.t && s == Slot(c.cb, c.user) && d.evt[c.t].count < Entries then 1 else 0)
  {
    assert EntryInv(d, c.t);
    FullExactly(d.evt[c.t].slots);
  }

  /**
   A removal takes one registration with its user data away, the first, and
   fails exactly when there is none; every other client stays registered.
   */
  lemma UnregisterRemoves(d: Table, c: Call, t: EventType, s: Slot)
    requires Inv(d) && c.Unregister? && c.user != 0 && Fine(c.io) && s.user != 0
    ensures var k := Find(d.evt[c.t].slots, c.user);
            && (Do(d, c).1 == if k < Entries then Ok else NoSlot)
            && (k == Entries <==> forall x | x in d.evt[c.t].slots :: x.user != c.user)
            && Times(Step(d, c), t, s)
                 == Times(d, t, s) - (if t == c.t && k < Entries && s == d.evt[t].slots[k] then 1 else 0)
  {
    assert EntryInv(d, c.t);
    var slots, k := d.evt[c.t].slots, Find(d.evt[c.t].slots, c.user);
    if k < Entries {
      FoundIsOccupied(slots, c.user);
      assert slots[k] in slots;
    }
  }

  /**
   Only the first slot that is free, or that has the user data, changes, whatever
   the kernel answers: it takes the client, or is emptied.
   */
  lemma SlotChanged(d: Table, c: Call, k: nat)
    requires k < Entries
    requires var slots, wanted := d.evt[c.t].slots, if c.Register? then 0 else c.user;
             slots[k].user == wanted && forall i | 0 <= i < k :: slots[i].user != wanted
    ensures var client := if c.Register? then Slot(c.cb, c.user) else Slot(0, 0);
            Step(d, c).evt[c.t].slots == d.evt[c.t].slots[k := client]
  {
    FindAt(d.evt[c.t].slots, if c.Register? then 0 else c.user, k);
  }

  /** The registration of the first client of all, and the removal of the last. */
  predicate FirstOfAll(d: Table, c: Call) { c.Register? && d.mask == {} }

  predicate LastOfAll(d: Table, c: Call) {
    c.Unregister? && Target(d, c) < Entries && d.evt[c.t].count == 1 && d.mask == {c.t}
  }

  /**
   The kernel side after a call, whatever the kernel answers.  The first client of
   all subscribes, to the errors only after the notifications; a failure leaves
   what was reached and no bit in the mask.  The last client of all unsubscribes,
   both even when the first of the two fails; the answer is that of the errors.
   No other call changes a subscription or reports a failure of the kernel.
   */
  lemma KernelExactly(d: Table, c: Call)
    requires Inv(d) && c.user != 0
    ensures var (t, rc) := Do(d, c);
            && (FirstOfAll(d, c) ==>
                  && t.kernel.notify == c.io.notify && t.kernel.errors == Fine(c.io)
                  && t.mask == (if Fine(c.io) then {c.t} else {}) && rc == (if Fine(c.io) then Ok else IoFailed))
            && (LastOfAll(d, c) ==>
                  && t.kernel.notify == !c.io.notify && t.kernel.errors == !c.io.errors
                  && t.mask == {} && rc == (if c.io.errors then Ok else IoFailed))
            && (!FirstOfAll(d, c) && !LastOfAll(d, c) ==>
                  t.kernel.notify == d.kernel.notify && t.kernel.errors == d.kernel.errors && rc != IoFailed)
  {
    assert EntryInv(d, c.t);
    if c.Unregister? && Target(d, c) < Entries {
      FoundIsOccupied(d.evt[c.t].slots, c.user);
    } else {
      FullExactly(d.evt[c.t].slots);
    }
  }

  /** A thread is launched for the first client of all and again from two clients to one; one is stopped at the last. */
  lemma ThreadsCounted(d: Table, c: Call)
    requires Inv(d) && c.user != 0
    ensures var k, k' := d.kernel, Step(d, c).kernel;
            && k'.launched == k.launched
                 + (if (FirstOfAll(d, c) && Fine(c.io)) || SecondThread(d, c) then 1 else 0)
            && k'.stopped == k.stopped + (if LastOfAll(d, c) then 1 else 0)
  {
    assert EntryInv(d, c.t);
    if c.Unregister? && Target(d, c) < Entries {
      FoundIsOccupied(d.evt[c.t].slots, c.user);
    } else {
      FullExactly(d.evt[c.t].slots);
    }
  }

  // ----- the class -----------------------------------------------------------------------

  class CameraEvents {
    const evt: array<Entry>
    var mask: set<EventType>
    ghost var kernel: Kernel

    ghost predicate Valid()
      reads this, evt
    {
      Shaped(RawTable(evt[..], mask, kernel))
    }

    ghost function State(): Table
      requires Valid()
      reads this, evt
    {
      RawTable(evt[..], mask, kernel)
    }

    constructor ()
      ensures Valid() && State() == New && fresh(evt)
    {
      evt := new Entry[Types](_ => Entry(seq(Entries, _ => Empty), 0));
      mask, kernel := {}, Kernel(false, false, 0, 0);
    }

    method EvtSub(t: EventType, count: int, io: Io) returns (rc: Rc)
      modifies this`mask, this`kernel
      ensures (mask, kernel, rc) ==
        if count == 0 then Unsubscribe(old(mask), old(kernel), t, io) else Subscribe(old(mask), old(kernel), t, io)
    {
      rc := Ok;
      if count == 0 {
        if mask == {t} {
          kernel := kernel.(notify := kernel.notify && !io.notify, errors := kernel.errors && !io.errors);
          rc := if io.errors then Ok else IoFailed;
        }
        mask := mask - {t};
        if mask == {} {
          kernel := kernel.(stopped := kernel.stopped + 1);
        }
      } else {
        if mask == {} {
          if !io.notify {
            return IoFailed;
          }
          kernel := kernel.(notify := true);
          if !io.errors {
            return IoFailed;
          }
          kernel := kernel.(errors := true);
        }
        mask := mask + {t};
        if mask == {t} {
          kernel := kernel.(launched := kernel.launched + 1);
        }
      }
    }

    /** A callback of 0 asks for a removal. */
    method RegEvent(cb: nat, user: nat, t: EventType, io: Io) returns (rc: Rc)
      requires Valid()
      modifies this`mask, this`kernel, evt
      ensures Valid()
      ensures (State(), rc) == Do(old(State()), if cb != 0 then Register(t, cb, user, io) else Unregister(t, user, io))
    {
      rc := NoSlot;
      var slots := evt[t].slots;
      var wanted := if cb != 0 then 0 else user;
      var i := 0;
      while i < Entries && slots[i].user != wanted
        invariant i <= Entries && forall j | 0 <= j < i :: slots[j].user != wanted
      {
        i := i + 1;
      }
      FindAt(slots, wanted, i);
      if i < Entries {
        if cb != 0 {
          evt[t] := Entry(slots[i := Slot(cb, user)], evt[t].count + 1);
        } else {
          evt[t] := Entry(slots[i := Empty], evt[t].count - 1);
        }
        rc := Ok;
      }
      if rc == Ok && evt[t].count <= 1 {
        rc := EvtSub(t, evt[t].count, io);
      }
    }
  }

  lemma {:induction false} FindAt(slots: seq<Slot>, user: nat, k: nat)
    requires k <= |slots| && (k < |slots| ==> slots[k].user == user)
    requires forall i | 0 <= i < k :: slots[i].user != user
    ensures Find(slots, user) == k
  {
    if k > 0 {
      FindAt(slots[1..], user, k - 1);
    }
  }
}
