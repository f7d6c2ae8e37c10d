/** Burst requests: how many pairs a run hands out, and when it can finish. */
module ZslBursts {
  import opened ZslModel
  import opened ZslRuns

  ghost predicate NoRequest(es: seq<Event>) { forall e | e in es :: !e.BurstRequest? }

  ghost predicate ArrivalsOnly(es: seq<Event>) { forall e | e in es :: e.Arrival? }

  /** An arrival serves the burst once or not at all. */
  ghost predicate Served(s: Zsl, t: Zsl) {
    && t.burst.asked == s.burst.asked
    && (|| (t.pending == s.pending && t.burst == s.burst)
        || (s.pending > 0 && t.pending == s.pending - 1 && t.burst.got == s.burst.got + 1
            && t.burst.dones == s.burst.dones + (if t.pending == 0 then 1 else 0)))
  }

  lemma StepServes(s: Zsl, e: Event)
    requires !e.BurstRequest?
    ensures Served(s, Step(s, e))
  {
    if e.Arrival? {
      var (t, skipTrim) := Place(Note(s, e.side, e.id), e.side, e.id);
      assert t.pending == s.pending && t.burst == s.burst;
    }
  }

  // ----- the ledger of a burst -------------------------------------------------

  /** Still owed plus handed out is what was asked; done is announced once, when nothing is owed. */
  ghost predicate Balanced(s: Zsl) {
    && 0 <= s.pending == s.burst.asked - s.burst.got
    && s.burst.dones == if s.pending == 0 then 1 else 0
  }

  /** The eight-bit counter lost part of the request: it can never be filled. */
  ghost predicate Short(s: Zsl) { s.burst.got + Max(s.pending, 0) < s.burst.asked }

  lemma RequestBalance(s: Zsl, n: int)
    requires n >= 1
    ensures var t := Request(s, n);
            if n - AtOnce(s, n) <= 127 then Balanced(t) else Short(t)
  {
  }

  lemma {:induction false} RunBalance(s: Zsl, es: seq<Event>)
    requires NoRequest(es)
    ensures Balanced(s) ==> Balanced(Run(s, es))
    ensures Short(s) ==> Short(Run(s, es))
    ensures Run(s, es).burst.asked == s.burst.asked
    decreases |es|
  {
    if es != [] {
      assert es[0] in es;
      StepServes(s, es[0]);
      RunBalance(Step(s, es[0]), es[1..]);
    }
  }

  /**
   A request for n >= 1 pairs that leaves at most 127 owed: at every later point
   of every run, owed + handed out == n, and delivery-done has been sent exactly
   once if all n are out and not at all otherwise.  A request that leaves more
   than 127 owed never gets all its pairs, whatever arrives.
   */
  lemma BurstLedger(s: Zsl, n: int, es: seq<Event>)
    requires n >= 1 && NoRequest(es)
    ensures var t := Run(Request(s, n), es);
            if n - AtOnce(s, n) <= 127
            then t.pending == n - t.burst.got && t.burst.got <= n
                 && t.burst.dones == (if t.burst.got == n then 1 else 0)
            else t.burst.got < n
  {
    RequestBalance(s, n);
    RunBalance(Request(s, n), es);
  }

  // ----- matches made while a burst is owed go straight out ---------------------

  ghost predicate Drained(s: Zsl) { s.pending > 0 ==> s.pairs == [] }

  lemma PlaceOneMatch(s: Zsl, side: Side, id: nat)
    ensures var t := Place(Note(s, side, id), side, id).0;
            && t.pending == s.pending && t.burst == s.burst && t.cfg == s.cfg && t.delivered == s.delivered
            && (|| (t.matched == s.matched && t.pairs == s.pairs)
                || (t.matched == s.matched + [id] && t.pairs == s.pairs + [id]))
  {
  }

  /** From s to t every match made while something was owed went out. */
  ghost predicate WentOut(s: Zsl, t: Zsl) {
    var n := Min(Max(s.pending, 0), |t.matched| - |s.matched|);
    && |s.matched| <= |t.matched| && t.cfg == s.cfg && Drained(t)
    && t.pending == s.pending - n && t.burst.got == s.burst.got + n
  }

  lemma WentOutChain(s: Zsl, t: Zsl, u: Zsl)
    requires WentOut(s, t) && WentOut(t, u)
    ensures WentOut(s, u)
  {
  }

  /** With a positive watermark, a frame that completes a match while a burst is owed is delivered by the same call. */
  lemma ArriveDrained(s: Zsl, side: Side, id: nat)
    requires Drained(s) && s.cfg.waterMark >= 1
    ensures WentOut(s, Arrive(s, side, id))
  {
    PlaceOneMatch(s, side, id);
    var (t, skipTrim) := Place(Note(s, side, id), side, id);
    if s.pending > 0 {
      assert |t.pairs| <= 1 && Trim(t).pairs == t.pairs;
    }
  }

  /**
   After a request, every match goes out at once until the request is filled:
   the number handed out is the smaller of what was owed and what was matched.
   */
  lemma {:induction false} MatchesGoOut(s: Zsl, es: seq<Event>)
    requires Drained(s) && s.cfg.waterMark >= 1 && ArrivalsOnly(es)
    ensures WentOut(s, Run(s, es))
    decreases |es|
  {
    if es != [] {
      assert es[0] in es;
      var t := Arrive(s, es[0].side, es[0].id);
      ArriveDrained(s, es[0].side, es[0].id);
      MatchesGoOut(t, es[1..]);
      WentOutChain(s, t, Run(t, es[1..]));
    }
  }

  /** With watermark 0 every match is trimmed before it can be dispatched. */
  lemma {:induction false} NothingGoesOut(s: Zsl, es: seq<Event>)
    requires s.pairs == [] && s.cfg.waterMark == 0 && ArrivalsOnly(es)
    ensures Run(s, es).burst.got == s.burst.got
    decreases |es|
  {
    if es != [] {
      assert es[0] in es;
      PlaceOneMatch(s, es[0].side, es[0].id);
      NothingGoesOut(Step(s, es[0]), es[1..]);
    }
  }

  // ----- exactly which requests can be filled -----------------------------------

  ghost function Beyond(ids: seq<nat>): (r: nat)
    ensures forall x | x in ids :: x < r
  {
    if ids == [] then 0
    else
      var r := Beyond(ids[1..]);
      assert forall x | x in ids :: x == ids[0] || x in ids[1..];
      if ids[0] < r then r else ids[0] + 1
  }

  /** A frame id no stream has reached yet and that the interval allows. */
  ghost function Fresh(s: Zsl): (r: nat)
    ensures Newest(s, Main, r) && Newest(s, Preview, r) && s.expected <= r
  {
    Max(s.expected, Max(Beyond(s.main.arrived), Beyond(s.preview.arrived)))
  }

  function Both(id: nat): seq<Event> { [Arrival(Main, id), Arrival(Preview, id)] }

  lemma RunBoth(s: Zsl, id: nat)
    ensures Run(s, Both(id)) == Arrive(Arrive(s, Main, id), Preview, id)
  {
    assert Both(id)[1..] == [Arrival(Preview, id)];
    assert Run(s, Both(id)) == Run(Step(s, Both(id)[0]), Both(id)[1..]);
  }

  lemma LoneBelow(s: Zsl, side: Side, id: nat)
    requires Inv(s) && s.lone.Lone? && Newest(s, s.lone.side, id)
    ensures s.lone.id < id
  {
    LoneArrived(s);
  }

  lemma LoneBelowBoth(s: Zsl, id: nat)
    requires Inv(s) && Newest(s, Main, id) && Newest(s, Preview, id)
    ensures s.lone.Lone? ==> s.lone.id < id
  {
    if s.lone.Lone? {
      match s.lone.side {
        case Main => LoneBelow(s, Main, id);
        case Preview => LoneBelow(s, Preview, id);
      }
    }
  }

  lemma BothLegal(s: Zsl, id: nat)
    requires Inv(s) && Newest(s, Main, id) && Newest(s, Preview, id)
    ensures Legal(s, Both(id)) && Inv(Run(s, Both(id)))
  {
    var t := Arrive(s, Main, id);
    ArriveTouches(s, Main, id);
    ArriveKeeps(s, Main, id);
    assert Newest(t, Preview, id);
    ArriveKeeps(t, Preview, id);
    RunBoth(s, id);
    assert Both(id)[1..] == [Arrival(Preview, id)] && Both(id)[1..][1..] == [];
    assert Legal(t, Both(id)[1..]);
  }

  lemma MainWaits(s: Zsl, id: nat)
    requires s.lone.Lone? ==> s.lone.id < id
    requires s.expected <= id
    ensures var t := Arrive(s, Main, id);
            t.lone == Lone(Main, id) && t.matched == s.matched && t.expected == s.expected
  {
    var (t, skipTrim) := Place(Note(s, Main, id), Main, id);
    assert t.lone == Lone(Main, id) && t.matched == s.matched && t.expected == s.expected;
  }

  lemma PreviewMatches(s: Zsl, id: nat)
    requires s.lone == Lone(Main, id) && s.expected <= id
    ensures Arrive(s, Preview, id).matched == s.matched + [id]
  {
    var (t, skipTrim) := Place(Note(s, Preview, id), Preview, id);
    assert t.matched == s.matched + [id];
  }

  /** The same new id on both streams makes a match. */
  lemma BothMatch(s: Zsl, id: nat)
    requires s.lone.Lone? ==> s.lone.id < id
    requires s.expected <= id
    ensures Run(s, Both(id)).matched == s.matched + [id]
  {
    RunBoth(s, id);
    MainWaits(s, id);
    PreviewMatches(Arrive(s, Main, id), id);
  }

  /** From any reachable state, arrivals can fill what is owed. */
  lemma {:induction false} CanFill(s: Zsl, m: nat) returns (es: seq<Event>)
    requires Inv(s)
    ensures ArrivalsOnly(es) && Legal(s, es) && |Run(s, es).matched| == |s.matched| + m
    decreases m
  {
    if m == 0 {
      es := [];
    } else {
      var id := Fresh(s);
      LoneBelowBoth(s, id);
      hide Inv, Newest, Run, Legal;
      BothMatch(s, id);
      BothLegal(s, id);
      var rest := CanFill(Run(s, Both(id)), m - 1);
      es := Both(id) + rest;
      RunConcat(s, Both(id), rest);
    }
  }

  ghost predicate Fills(s: Zsl, n: int, es: seq<Event>) {
    ArrivalsOnly(es) && Legal(s, es) && Run(s, es).burst.got == n
  }

  lemma FillWhat(s: Zsl, t: Zsl, n: int) returns (es: seq<Event>)
    requires Inv(t) && Drained(t) && Balanced(t) && t.burst.asked == n && t.cfg.waterMark >= 1
    ensures Fills(t, n, es)
  {
    es := CanFill(t, t.pending);
    MatchesGoOut(t, es);
  }

  lemma NotFilled(t: Zsl, n: int, es: seq<Event>)
    requires t.burst.asked == n && t.burst.got < n
    requires Short(t) || (t.pairs == [] && t.cfg.waterMark == 0)
    ensures !Fills(t, n, es)
  {
    if Fills(t, n, es) {
      if Short(t) {
        RunBalance(t, es);
      } else {
        NothingGoesOut(t, es);
      }
    }
  }

  /**
   From any reachable state, arrivals can complete a request for n >= 1 pairs
   if and only if it is served at once, or the watermark is positive and at most
   127 pairs are still owed.
   */
  lemma FillableExactly(s: Zsl, n: int)
    requires Inv(s) && n >= 1
    ensures (exists es :: Fills(Request(s, n), n, es))
        <==> (n == AtOnce(s, n) || (s.cfg.waterMark >= 1 && n - AtOnce(s, n) <= 127))
  {
    var t := Request(s, n);
    RequestBalance(s, n);
    RequestLeaves(s, n);
    if n == AtOnce(s, n) {
      assert Fills(t, n, []);
    } else if s.cfg.waterMark >= 1 && n - AtOnce(s, n) <= 127 {
      RequestKeeps(s, n);
      var es := FillWhat(s, t, n);
    } else {
      forall es ensures !Fills(t, n, es) {
        NotFilled(t, n, es);
      }
    }
  }

  lemma RequestLeaves(s: Zsl, n: int)
    requires n >= 1
    ensures var t := Request(s, n);
            && t.burst.asked == n && t.burst.got == AtOnce(s, n) <= n && t.cfg == s.cfg && Drained(t)
            && (AtOnce(s, n) < n ==> t.pairs == [])
  {
  }

  /** A burst of 128 pairs asked of empty queues is never completed; one of 127 can be. */
  lemma BurstOf128(cfg: Config)
    requires cfg.waterMark >= 1
    ensures !exists es :: Fills(Request(Init(cfg), 128), 128, es)
    ensures exists es :: Fills(Request(Init(cfg), 127), 127, es)
  {
    InitInv(cfg);
    hide Inv, Request, Fills;
    assert AtOnce(Init(cfg), 128) == 0 && AtOnce(Init(cfg), 127) == 0;
    FillableExactly(Init(cfg), 128);
    FillableExactly(Init(cfg), 127);
  }

  /**
   After a channel event the next new id is matched, however close it is to the
   last one; without the event, an id that is too close is not.
   */
  lemma ResetMatchesNext(s: Zsl, id: nat)
    requires Inv(s) && Newest(s, Main, id) && Newest(s, Preview, id)
    ensures Run(Step(s, ChannelReset), Both(id)).matched == s.matched + [id]
    ensures id < s.expected ==> Run(s, Both(id)).matched == s.matched
  {
    var t := Step(s, ChannelReset);
    hide Inv, Run, Newest, Both;
    LoneBelowBoth(s, id);
    BothMatch(t, id);
    if id < s.expected {
      BothTooEarly(s, id);
    }
  }

  // ----- streams in lock step -----------------------------------------------------

  /** Each frame of the full-size stream is followed by the preview frame with the same id. */
  function LockStep(ids: seq<nat>): seq<Event> { if ids == [] then [] else Both(ids[0]) + LockStep(ids[1..]) }

  /** What an interval of `gap` selects from a stream: every id not closer than gap to the last selected. */
  function Selected(ids: seq<nat>, from: nat, gap: nat): seq<nat> {
    if ids == [] then []
    else if ids[0] >= from then [ids[0]] + Selected(ids[1..], ids[0] + gap, gap)
    else Selected(ids[1..], from, gap)
  }

  lemma BothTooEarly(s: Zsl, id: nat)
    requires id < s.expected
    ensures Run(s, Both(id)).matched == s.matched && Run(s, Both(id)).expected == s.expected
  {
    RunBoth(s, id);
    ArriveTouches(s, Main, id);
    ArriveTouches(Arrive(s, Main, id), Preview, id);
  }

  lemma BothTouches(s: Zsl, id: nat)
    ensures var t := Run(s, Both(id));
            && t.cfg == s.cfg
            && t.main.arrived == s.main.arrived + [id] && t.preview.arrived == s.preview.arrived + [id]
            && (t.matched != s.matched ==> t.expected == id + s.cfg.interval)
  {
    RunBoth(s, id);
    ArriveTouches(s, Main, id);
    ArriveTouches(Arrive(s, Main, id), Preview, id);
  }

  lemma AscendingTail(ids: seq<nat>)
    requires Ascending(ids) && ids != []
    ensures Ascending(ids[1..])
    ensures forall x | x in ids[1..] :: ids[0] < x
  {
    assert forall k | 0 <= k < |ids[1..]| :: ids[1..][k] == ids[k + 1];
  }

  /** One id on both streams: matched if the interval allows, and then the next one must be further on. */
  ghost predicate Stepped(s: Zsl, t: Zsl, id: nat) {
    && t.cfg == s.cfg
    && t.matched == s.matched + (if s.expected <= id then [id] else [])
    && t.expected == (if s.expected <= id then id + s.cfg.interval else s.expected)
    && t.main.arrived == s.main.arrived + [id] && t.preview.arrived == s.preview.arrived + [id]
  }

  lemma BothStep(s: Zsl, id: nat)
    requires s.lone.Lone? ==> s.lone.id < id
    ensures Stepped(s, Run(s, Both(id)), id)
  {
    BothTouches(s, id);
    if id >= s.expected {
      BothMatch(s, id);
    } else {
      BothTooEarly(s, id);
    }
  }

  /** Ids that increase and that neither stream has reached. */
  ghost predicate Ahead(s: Zsl, ids: seq<nat>) {
    Ascending(ids) && forall x | x in ids :: Newest(s, Main, x) && Newest(s, Preview, x)
  }

  lemma AheadTail(s: Zsl, t: Zsl, ids: seq<nat>)
    requires ids != [] && Ahead(s, ids) && Stepped(s, t, ids[0])
    ensures Newest(s, Main, ids[0]) && Newest(s, Preview, ids[0]) && Ahead(t, ids[1..])
  {
    AscendingTail(ids);
    forall x | x in ids[1..] ensures Newest(t, Main, x) && Newest(t, Preview, x) {
      assert x in ids;
    }
  }

  lemma AheadFirst(s: Zsl, ids: seq<nat>)
    requires Inv(s) && ids != [] && Ahead(s, ids)
    ensures var t := Run(s, Both(ids[0]));
            Stepped(s, t, ids[0]) && Ahead(t, ids[1..]) && Inv(t) && Legal(s, Both(ids[0]))
  {
    assert ids[0] in ids;
    LoneBelowBoth(s, ids[0]);
    BothStep(s, ids[0]);
    BothLegal(s, ids[0]);
    AheadTail(s, Run(s, Both(ids[0])), ids);
  }

  lemma LockStepJoins(s: Zsl, t: Zsl, first: seq<Event>, rest: seq<Event>, es: seq<Event>)
    requires es == first + rest && t == Run(s, first) && Legal(s, first) && Legal(t, rest)
    ensures Legal(s, es) && Run(s, es) == Run(t, rest)
  {
    RunConcat(s, first, rest);
  }

  lemma SelectedStep(s: Zsl, t: Zsl, ids: seq<nat>)
    requires ids != [] && Stepped(s, t, ids[0])
    ensures s.matched + Selected(ids, s.expected, s.cfg.interval)
         == t.matched + Selected(ids[1..], t.expected, t.cfg.interval)
  {
  }

  /**
   From any reachable state, streams in lock step are matched without loss: the
   ids matched are exactly those the interval selects.
   */
  lemma {:induction false} LockStepMatches(s: Zsl, ids: seq<nat>)
    requires Inv(s) && Ahead(s, ids)
    ensures Legal(s, LockStep(ids))
    ensures Run(s, LockStep(ids)).matched == s.matched + Selected(ids, s.expected, s.cfg.interval)
    decreases |ids|
  {
    if ids == [] {
      assert LockStep(ids) == [];
    } else {
      var first, rest := Both(ids[0]), LockStep(ids[1..]);
      var t := Run(s, first);
      AheadFirst(s, ids);
      LockStepMatches(t, ids[1..]);
      SelectedStep(s, t, ids);
      LockStepJoins(s, t, first, rest, LockStep(ids));
    }
  }
}
