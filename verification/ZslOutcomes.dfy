/** What an arrival and a burst request leave in the queues and hand out, and what a stream of frames leaves. */
module ZslOutcomes {
  import opened ZslModel
  import opened ZslRuns
  import opened ZslBursts
  import opened ZslSpacing

  /** The newest n ids, or all of them if there are fewer. */
  function Latest(ids: seq<nat>, n: nat): seq<nat> { if |ids| <= n then ids else ids[|ids| - n..] }

  // ----- one arrival ---------------------------------------------------------------

  /** The pairs of the queues once the frame is placed and the watermark applied. */
  function Kept(s: Zsl, side: Side, id: nat): seq<nat> {
    var all := if Meets(s, side, id) then s.pairs + [id] else s.pairs;
    if TooOldToTrim(s, side, id) then all else Latest(all, s.cfg.waterMark)
  }

  /** Which frame waits unmatched afterwards. */
  function Waiting(s: Zsl, side: Side, id: nat): Lone {
    var opposite := s.lone.Lone? && s.lone.side == Peer(side);
    if Meets(s, side, id) then NoLone
    else if TooOldToTrim(s, side, id) then s.lone
    else if s.expected <= id || (s.pairs == [] && !opposite) then Lone(side, id)
    else if opposite then NoLone
    else s.lone
  }

  lemma PlaceOutcome(s: Zsl, side: Side, id: nat)
    ensures var (t, skipTrim) := Place(Note(s, side, id), side, id);
            && t.pairs == (if Meets(s, side, id) then s.pairs + [id] else s.pairs)
            && t.lone == Waiting(s, side, id) && skipTrim == TooOldToTrim(s, side, id)
            && t.delivered == s.delivered && t.pending == s.pending && t.burst == s.burst && t.cfg == s.cfg
  {
  }

  lemma TrimOutcome(s: Zsl)
    ensures var t := Trim(s);
            && t.pairs == Latest(s.pairs, s.cfg.waterMark) && t.lone == s.lone
            && t.delivered == s.delivered && t.pending == s.pending && t.burst == s.burst && t.cfg == s.cfg
  {
  }

  /**
   An arrival that is not too old leaves the newest pairs up to the watermark,
   the new one included; a too old one leaves all.  When something is owed, the
   oldest pair that is left goes out, and nothing else does.
   */
  lemma ArrivalOutcome(s: Zsl, side: Side, id: nat)
    ensures var t, kept := Arrive(s, side, id), Kept(s, side, id);
            && t.lone == Waiting(s, side, id) && t.cfg == s.cfg
            && if s.pending > 0 && kept != []
               then t.pairs == kept[1..] && t.delivered == s.delivered + [kept[0]] && t.pending == s.pending - 1
               else t.pairs == kept && t.delivered == s.delivered && t.pending == s.pending
  {
    PlaceOutcome(s, side, id);
    var (u, skipTrim) := Place(Note(s, side, id), side, id);
    hide Place, Note, Waiting, TooOldToTrim, Meets;
    TrimOutcome(u);
    hide Trim;
  }

  /** A frame late enough for the next match, with no newer frame opposite, waits or is matched. */
  lemma LateFrameStays(s: Zsl, side: Side, id: nat)
    requires s.expected <= id && (s.lone.Lone? && s.lone.side == Peer(side) ==> s.lone.id <= id)
    ensures var t := Arrive(s, side, id);
            t.lone == Lone(side, id) || (Meets(s, side, id) && t.matched == s.matched + [id])
  {
    ArrivalOutcome(s, side, id);
    ArriveMoves(s, side, id);
    hide Arrive;
  }

  // ----- one burst request -----------------------------------------------------------

  /**
   A request drops the oldest positions of both queues beyond the look-back count,
   hands out the oldest pairs left, up to n, and owes the rest in eight bits; the
   done event is sent when that is the whole of n, and not when the rest of a
   larger n comes to nothing in eight bits.
   */
  lemma RequestOutcome(s: Zsl, n: int)
    ensures var positions := |s.pairs| + (if s.lone.Lone? then 1 else 0);
            var gone := if positions > s.cfg.lookBack then positions - s.cfg.lookBack else 0;
            var left := if gone <= |s.pairs| then s.pairs[gone..] else [];
            var k := if n <= 0 then 0 else if n <= |left| then n else |left|;
            var t := Request(s, n);
            && t.delivered == s.delivered + left[..k] && t.pairs == left[k..]
            && t.lone == (if gone <= |s.pairs| then s.lone else NoLone)
            && t.pending == (n - k + 128) % 256 - 128
            && t.burst == Burst(n, k, if n <= |left| && (n >= 0 || n % 256 == 0) then 1 else 0)
            && t.matched == s.matched && t.expected == s.expected && t.cfg == s.cfg
  {
    hide GiveBack, LogOf;
    SkipOutcome(s);
    hide Skip;
  }

  lemma SkipOutcome(s: Zsl)
    ensures var positions := |s.pairs| + (if s.lone.Lone? then 1 else 0);
            var gone := if positions > s.cfg.lookBack then positions - s.cfg.lookBack else 0;
            var t := Skip(s);
            && t.pairs == (if gone <= |s.pairs| then s.pairs[gone..] else [])
            && t.lone == (if gone <= |s.pairs| then s.lone else NoLone)
            && t.delivered == s.delivered
            && t.matched == s.matched && t.expected == s.expected && t.cfg == s.cfg
  {
  }

  // ----- what a stream of frames leaves ------------------------------------------------

  lemma LatestLatest(ids: seq<nat>, n: nat)
    ensures Latest(Latest(ids, n), n) == Latest(ids, n)
  {
  }

  lemma LatestAppend(ids: seq<nat>, more: seq<nat>, n: nat)
    ensures Latest(Latest(ids, n) + more, n) == Latest(ids + more, n)
  {
  }

  /** The same new id on both streams, with nothing owed. */
  ghost predicate PairsAfter(s: Zsl, t: Zsl, id: nat) {
    var all := if s.expected <= id then s.pairs + [id] else s.pairs;
    && t.pairs == Latest(all, s.cfg.waterMark) && t.pending == s.pending && t.delivered == s.delivered
    && t.cfg == s.cfg && (s.expected <= id ==> t.lone == NoLone)
  }

  lemma BothOutcome(s: Zsl, id: nat)
    requires s.pending <= 0 && (s.lone.Lone? ==> s.lone.id < id)
    ensures PairsAfter(s, Run(s, Both(id)), id)
  {
    RunBoth(s, id);
    var t := Arrive(s, Main, id);
    ArrivalOutcome(s, Main, id);
    ArriveMoves(s, Main, id);
    ArrivalOutcome(t, Preview, id);
    hide Arrive, Run;
    LatestLatest(s.pairs, s.cfg.waterMark);
    LatestAppend(s.pairs, [id], s.cfg.waterMark);
    hide Latest;
  }

  /** Does the interval select the last of the ids? */
  predicate SelectsLast(ids: seq<nat>, from: nat, gap: nat)
    requires ids != []
  {
    var chosen := Selected(ids, from, gap);
    chosen != [] && Last(chosen) == Last(ids)
  }

  lemma SelectedNext(s: Zsl, t: Zsl, ids: seq<nat>)
    requires ids != [] && Ascending(ids) && Stepped(s, t, ids[0])
    ensures var gap := s.cfg.interval;
            && Selected(ids, s.expected, gap) == FirstChosen(s, ids) + Selected(ids[1..], t.expected, gap)
            && (ids[1..] != [] ==>
                  (SelectsLast(ids, s.expected, gap) ==> SelectsLast(ids[1..], t.expected, gap)))
  {
    if ids[1..] != [] {
      assert ids[0] < ids[|ids| - 1] && Last(ids[1..]) == Last(ids);
    }
  }

  /** What the queues are left with, from the ids paired before and those selected. */
  ghost predicate Leaves(s: Zsl, t: Zsl, chosen: seq<nat>) {
    && t.pairs == Latest(s.pairs + chosen, s.cfg.waterMark)
    && t.delivered == s.delivered && t.pending == s.pending && t.cfg == s.cfg
  }

  lemma LeavesChain(s: Zsl, t: Zsl, u: Zsl, first: seq<nat>, rest: seq<nat>)
    requires Leaves(s, t, first) && Leaves(t, u, rest)
    ensures Leaves(s, u, first + rest)
  {
    LatestAppend(s.pairs + first, rest, s.cfg.waterMark);
    assert s.pairs + first + rest == s.pairs + (first + rest);
    hide Latest;
  }

  lemma BothLeaves(s: Zsl, id: nat)
    requires s.pending <= 0 && (s.lone.Lone? ==> s.lone.id < id)
    ensures Leaves(s, Run(s, Both(id)), if s.expected <= id then [id] else [])
    ensures s.expected <= id ==> Run(s, Both(id)).lone == NoLone
  {
    BothOutcome(s, id);
    hide Run, Both;
    assert s.pairs + [] == s.pairs;
  }

  function FirstChosen(s: Zsl, ids: seq<nat>): seq<nat>
    requires ids != []
  {
    if s.expected <= ids[0] then [ids[0]] else []
  }

  lemma FirstLeaves(s: Zsl, ids: seq<nat>)
    requires Inv(s) && Ahead(s, ids) && s.pending <= 0 && ids != []
    ensures var t := Run(s, Both(ids[0]));
            Leaves(s, t, FirstChosen(s, ids)) && (s.expected <= ids[0] ==> t.lone == NoLone)
  {
    assert ids[0] in ids;
    LoneBelowBoth(s, ids[0]);
    BothLeaves(s, ids[0]);
  }

  /** A run over several ids is one over the first and one over the others. */
  lemma LockStepSplits(s: Zsl, ids: seq<nat>)
    requires Inv(s) && Ahead(s, ids) && ids != []
    ensures var t := Run(s, Both(ids[0]));
            && Inv(t) && Ahead(t, ids[1..]) && Stepped(s, t, ids[0])
            && Run(s, LockStep(ids)) == Run(t, LockStep(ids[1..]))
  {
    var first, rest := Both(ids[0]), LockStep(ids[1..]);
    var t := Run(s, first);
    AheadFirst(s, ids);
    LockStepMatches(t, ids[1..]);
    hide Inv, Ahead, Stepped, Run, Legal, Both;
    LockStepJoins(s, t, first, rest, LockStep(ids));
  }

  lemma {:induction false} LockStepRun(s: Zsl, ids: seq<nat>)
    requires Inv(s) && Ahead(s, ids) && s.pending <= 0 && ids != []
    ensures var t := Run(s, LockStep(ids));
            && Leaves(s, t, Selected(ids, s.expected, s.cfg.interval))
            && (SelectsLast(ids, s.expected, s.cfg.interval) ==> t.lone == NoLone)
    decreases |ids|
  {
    var t := Run(s, Both(ids[0]));
    FirstLeaves(s, ids);
    LockStepSplits(s, ids);
    AscendingIds(s, ids);
    SelectedNext(s, t, ids);
    StillNothingOwed(s, t, FirstChosen(s, ids));
    if ids[1..] != [] {
      hide Inv, Ahead, Stepped, Run, Both, Leaves, LockStep, Selected, SelectsLast;
      LockStepRun(t, ids[1..]);
      LeavesChain(s, t, Run(t, LockStep(ids[1..])), FirstChosen(s, ids),
                  Selected(ids[1..], t.expected, s.cfg.interval));
    } else {
      OneSelected(s, ids);
      EmptyLockStep(t, ids[1..]);
      hide Inv, Ahead, Stepped, Run, Both, Leaves, LockStep, Selected, SelectsLast;
    }
  }

  lemma AscendingIds(s: Zsl, ids: seq<nat>)
    requires Ahead(s, ids)
    ensures Ascending(ids)
  {
  }

  lemma OneSelected(s: Zsl, ids: seq<nat>)
    requires ids != [] && ids[1..] == []
    ensures Selected(ids, s.expected, s.cfg.interval) == FirstChosen(s, ids)
    ensures SelectsLast(ids, s.expected, s.cfg.interval) ==> s.expected <= ids[0]
  {
  }

  lemma StillNothingOwed(s: Zsl, t: Zsl, chosen: seq<nat>)
    requires Leaves(s, t, chosen) && s.pending <= 0
    ensures t.pending <= 0 && t.cfg == s.cfg
  {
  }

  lemma EmptyLockStep(t: Zsl, ids: seq<nat>)
    requires ids == []
    ensures LockStep(ids) == [] && Run(t, LockStep(ids)) == t
  {
  }

  /**
   From any reachable state, streams in lock step with nothing owed and an
   unchanged watermark: both queues then begin with exactly the newest pairs, up
   to the watermark, of those that were there followed by those the interval
   selects, and hold nothing else if the last id is selected.
   */
  lemma LockStepLeaves(s: Zsl, ids: seq<nat>)
    requires Inv(s) && Ahead(s, ids) && s.pending <= 0 && ids != []
    ensures var t, all := Run(s, LockStep(ids)), s.pairs + Selected(ids, s.expected, s.cfg.interval);
            && t.pairs == Latest(all, s.cfg.waterMark) && t.delivered == s.delivered
            && t.pairs <= QueueIds(t, Main) && t.pairs <= QueueIds(t, Preview)
            && (SelectsLast(ids, s.expected, s.cfg.interval) ==>
                  QueueIds(t, Main) == t.pairs && QueueIds(t, Preview) == t.pairs)
  {
    LockStepRun(s, ids);
    hide Run, Inv, Ahead, Selected, Latest, SelectsLast;
  }
}
