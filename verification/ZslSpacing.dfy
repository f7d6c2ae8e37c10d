/** When the interval between matches is kept, and when a channel event loses it. */
module ZslSpacing {
  import opened ZslModel
  import opened ZslRuns
  import opened ZslBursts

  function Last(ids: seq<nat>): nat
    requires ids != []
  {
    ids[|ids| - 1]
  }

  /** The arriving frame meets its id opposite and is late enough. */
  predicate Meets(s: Zsl, side: Side, id: nat) { s.lone == Lone(Peer(side), id) && s.expected <= id }

  // ----- runs that keep the spacing ----------------------------------------------

  /** An arrival that makes a match less than gap above the last one. */
  predicate CloseMatch(s: Zsl, e: Event, gap: nat) {
    e.Arrival? && Meets(s, e.side, e.id) && s.matched != [] && e.id < Last(s.matched) + gap
  }

  ghost predicate SomeClose(s: Zsl, es: seq<Event>, gap: nat)
    decreases |es|
  {
    es != [] && (CloseMatch(s, es[0], gap) || SomeClose(Step(s, es[0]), es[1..], gap))
  }

  /** The history and the unmatched frame after an arrival. */
  ghost predicate Moves(s: Zsl, t: Zsl, side: Side, id: nat) {
    && t.matched == (if Meets(s, side, id) then s.matched + [id] else s.matched)
    && t.expected == (if Meets(s, side, id) then id + s.cfg.interval else s.expected)
    && (t.lone == NoLone || t.lone == s.lone || t.lone == Lone(side, id))
    && t.cfg == s.cfg
  }

  lemma ArriveMoves(s: Zsl, side: Side, id: nat)
    ensures Moves(s, Arrive(s, side, id), side, id)
  {
    var (t, skipTrim) := Place(Note(s, side, id), side, id);
    assert Moves(s, t, side, id);
    hide Place, Note;
    assert Moves(s, Trim(t), side, id);
    hide Trim;
    assert forall v :: Moves(s, v, side, id) ==> Moves(s, Dispatch(v), side, id);
  }

  lemma AppendApart(ids: seq<nat>, x: nat, gap: nat)
    requires Apart(ids, gap)
    ensures Apart(ids + [x], gap) <==> ids == [] || Last(ids) + gap <= x
  {
    if ids != [] {
      assert (ids + [x])[|ids| - 1] == Last(ids) && (ids + [x])[|ids|] == x;
      if Last(ids) + gap <= x {
        forall y | y in ids ensures y + gap <= x {
          var i := MemberIndex(ids, y);
        }
        NextApart(ids, x, gap);
      }
    }
  }

  lemma StepSpaced(s: Zsl, e: Event, gap: nat)
    requires Apart(s.matched, gap)
    ensures s.matched <= Step(s, e).matched
    ensures Apart(Step(s, e).matched, gap) <==> !CloseMatch(s, e, gap)
  {
    if e.Arrival? {
      ArriveMoves(s, e.side, e.id);
      AppendApart(s.matched, e.id, gap);
      hide Arrive, Apart;
    }
  }

  lemma {:induction false} MatchedGrows(s: Zsl, es: seq<Event>)
    ensures s.matched <= Run(s, es).matched
    decreases |es|
  {
    hide Arrive, Request;
    if es != [] {
      if es[0].Arrival? {
        ArriveMoves(s, es[0].side, es[0].id);
      } else if es[0].BurstRequest? {
        RequestMoves(s, es[0].n);
      }
      MatchedGrows(Step(s, es[0]), es[1..]);
    }
  }

  /** The spacing holds at the end of a run if and only if no arrival of the run made a close match. */
  lemma {:induction false} SpacedExactly(s: Zsl, es: seq<Event>, gap: nat)
    requires Apart(s.matched, gap)
    ensures Apart(Run(s, es).matched, gap) <==> !SomeClose(s, es, gap)
    decreases |es|
  {
    hide Step, CloseMatch;
    if es != [] {
      var t := Step(s, es[0]);
      StepSpaced(s, es[0], gap);
      MatchedGrows(t, es[1..]);
      if CloseMatch(s, es[0], gap) {
        if Apart(Run(t, es[1..]).matched, gap) {
          PrefixApart(t.matched, Run(t, es[1..]).matched, gap);
        }
      } else {
        SpacedExactly(t, es[1..], gap);
      }
    }
  }

  lemma PrefixApart(ids: seq<nat>, all: seq<nat>, gap: nat)
    requires ids <= all && Apart(all, gap)
    ensures Apart(ids, gap)
  {
    assert forall i | 0 <= i < |ids| :: ids[i] == all[i];
  }

  // ----- the soonest match still possible --------------------------------------------

  /** Can this id still be matched, if frames arrive for it? */
  ghost predicate CanMatch(s: Zsl, id: nat) {
    && s.expected <= id
    && (|| (s.lone.Lone? && s.lone.id == id && Newest(s, Peer(s.lone.side), id))
        || (Newest(s, Main, id) && Newest(s, Preview, id)))
  }

  /** The id that waits, if its partner can still come; else the first that is new to both streams and late enough. */
  ghost function Soonest(s: Zsl): nat {
    if s.lone.Lone? && CanMatch(s, s.lone.id) then s.lone.id else Fresh(s)
  }

  lemma {:induction false} BeyondLeast(ids: seq<nat>, id: nat)
    requires forall x | x in ids :: x < id
    ensures Beyond(ids) <= id
  {
    if ids != [] {
      assert ids[0] in ids && forall x | x in ids[1..] :: x in ids;
      BeyondLeast(ids[1..], id);
    }
  }

  lemma SoonestLeast(s: Zsl, id: nat)
    requires Inv(s) && CanMatch(s, id)
    ensures CanMatch(s, Soonest(s)) && Soonest(s) <= id
  {
    if Newest(s, Main, id) && Newest(s, Preview, id) {
      LoneBelowBoth(s, id);
      BeyondLeast(s.main.arrived, id);
      BeyondLeast(s.preview.arrived, id);
    }
  }

  lemma WaitingMatches(s: Zsl) returns (es: seq<Event>)
    requires s.lone.Lone? && CanMatch(s, s.lone.id) && Newest(s, Peer(s.lone.side), s.lone.id)
    ensures ArrivalsOnly(es) && Legal(s, es) && Run(s, es).matched == s.matched + [s.lone.id]
  {
    var side := Peer(s.lone.side);
    es := [Arrival(side, s.lone.id)];
    ArriveMoves(s, side, s.lone.id);
    hide Arrive, Newest, CanMatch;
    assert es[1..] == [];
  }

  lemma FreshMatches(s: Zsl) returns (es: seq<Event>)
    requires Inv(s)
    ensures ArrivalsOnly(es) && Legal(s, es) && Run(s, es).matched == s.matched + [Fresh(s)]
  {
    es := Both(Fresh(s));
    LoneBelowBoth(s, Fresh(s));
    hide Inv, Newest, Run, Legal, Fresh;
    BothMatch(s, Fresh(s));
    BothLegal(s, Fresh(s));
  }

  lemma PartnerNewest(s: Zsl)
    requires Inv(s) && s.lone.Lone? && CanMatch(s, s.lone.id)
    ensures Newest(s, Peer(s.lone.side), s.lone.id)
  {
  }

  lemma SoonestMatches(s: Zsl) returns (es: seq<Event>)
    requires Inv(s)
    ensures ArrivalsOnly(es) && Legal(s, es) && Run(s, es).matched == s.matched + [Soonest(s)]
  {
    if s.lone.Lone? && CanMatch(s, s.lone.id) {
      PartnerNewest(s);
      hide Inv, CanMatch, Newest, Run, Legal;
      es := WaitingMatches(s);
    } else {
      hide Inv, CanMatch, Newest, Run, Legal;
      es := FreshMatches(s);
    }
  }

  /** t is reached from s without a match: what waits then waited before, or is new. */
  ghost predicate Unmatched(s: Zsl, t: Zsl) {
    && t.matched == s.matched && t.expected == s.expected
    && (forall side, x | Newest(t, side, x) :: Newest(s, side, x))
    && (t.lone.Lone? ==> t.lone == s.lone || Newest(s, t.lone.side, t.lone.id))
  }

  /** What neither a request nor an attribute change touches. */
  lemma RequestMoves(s: Zsl, n: int)
    ensures var t := Request(s, n);
            && t.matched == s.matched && t.expected == s.expected && t.cfg == s.cfg
            && (t.lone == s.lone || t.lone == NoLone)
            && t.main.arrived == s.main.arrived && t.preview.arrived == s.preview.arrived
  {
  }

  lemma NewestLater(s: Zsl, t: Zsl, side: Side, x: nat)
    requires LogOf(s, side).arrived <= LogOf(t, side).arrived && Newest(t, side, x)
    ensures Newest(s, side, x)
  {
    assert forall y | y in LogOf(s, side).arrived :: y in LogOf(t, side).arrived;
  }

  lemma ArriveUnmatched(s: Zsl, t: Zsl, side: Side, id: nat)
    requires Unmatched(s, t) && Newest(t, side, id) && !Meets(t, side, id)
    ensures Unmatched(s, Arrive(t, side, id))
  {
    var u := Arrive(t, side, id);
    ArriveMoves(t, side, id);
    ArriveTouches(t, side, id);
    hide Arrive;
    forall d, x | Newest(u, d, x) ensures Newest(s, d, x) {
      assert d == side || d == Peer(side);
      hide Newest;
      NewestLater(t, u, d, x);
    }
  }

  lemma StepUnmatched(s: Zsl, t: Zsl, e: Event)
    requires Unmatched(s, t) && Enabled(t, e) && !e.ChannelReset? && (e.Arrival? ==> !Meets(t, e.side, e.id))
    ensures Unmatched(s, Step(t, e))
  {
    match e
    case Arrival(side, id) => ArriveUnmatched(s, t, side, id);
    case BurstRequest(n) =>
      RequestMoves(t, n);
      hide Request;
    case SetAttr(cfg) =>
  }

  /** The first match of a continuation is one that could be made from the start. */
  lemma FirstMatch(s: Zsl, t: Zsl, side: Side, id: nat)
    requires Unmatched(s, t) && Newest(t, side, id) && Meets(t, side, id)
    ensures CanMatch(s, id)
  {
  }

  /** No channel event, and intervals of at least gap. */
  ghost predicate Steady(es: seq<Event>, gap: nat) { NoReset(es) && IntervalsAtLeast(es, gap) }

  lemma SteadyTail(es: seq<Event>, gap: nat)
    requires es != [] && Steady(es, gap)
    ensures Steady(es[1..], gap) && !es[0].ChannelReset? && (es[0].SetAttr? ==> gap <= es[0].cfg.interval)
  {
    assert es[0] in es && forall e | e in es[1..] :: e in es;
  }

  lemma FirstMatchSpaced(s: Zsl, t: Zsl, side: Side, id: nat, gap: nat)
    requires Inv(s) && Unmatched(s, t) && Newest(t, side, id) && Meets(t, side, id)
    requires Apart(s.matched, gap) && gap <= t.cfg.interval
    requires s.matched != [] ==> Soonest(s) >= Last(s.matched) + gap
    ensures MatchesApart(Arrive(t, side, id), 0, gap)
  {
    FirstMatch(s, t, side, id);
    SoonestLeast(s, id);
    ArriveMoves(t, side, id);
    hide Arrive, Inv, Soonest, CanMatch, Newest;
    NextSpaced(s.matched, id, gap, t.cfg.interval);
    assert (s.matched + [id])[0..] == s.matched + [id];
    hide Apart;
  }

  lemma NextSpaced(ids: seq<nat>, id: nat, gap: nat, interval: nat)
    requires Apart(ids, gap) && gap <= interval && (ids != [] ==> id >= Last(ids) + gap)
    ensures Apart(ids + [id], gap) && forall x | x in ids + [id] :: x + gap <= id + interval
  {
    AppendApart(ids, id, gap);
    forall x | x in ids + [id] ensures x + gap <= id + interval {
      var i := MemberIndex(ids + [id], x);
      assert i < |ids| - 1 ==> ids[i] + gap <= ids[|ids| - 1];
    }
  }

  lemma {:induction false} ContinuationSpaced(s: Zsl, t: Zsl, es: seq<Event>, gap: nat)
    requires Inv(s) && Unmatched(s, t) && Legal(t, es) && Steady(es, gap)
    requires Apart(s.matched, gap) && gap <= t.cfg.interval
    requires s.matched != [] ==> Soonest(s) >= Last(s.matched) + gap
    ensures Apart(Run(t, es).matched, gap)
    decreases |es|
  {
    hide Inv, Soonest, Unmatched, Apart, Steady, Arrive, Request, Meets;
    if es == [] {
      UnmatchedSame(s, t);
    } else {
      var e := es[0];
      SteadyTail(es, gap);
      if e.Arrival? && Meets(t, e.side, e.id) {
        FirstMatchSpaced(s, t, e.side, e.id, gap);
        SteadyRun(Arrive(t, e.side, e.id), es[1..], gap);
      } else {
        StepUnmatched(s, t, e);
        ConfigAfter(t, e);
        ContinuationSpaced(s, Step(t, e), es[1..], gap);
      }
    }
  }

  lemma SteadyRun(t: Zsl, es: seq<Event>, gap: nat)
    requires MatchesApart(t, 0, gap) && Steady(es, gap)
    ensures Apart(Run(t, es).matched, gap)
  {
    RunKeepsApart(t, es, 0, gap);
    assert Run(t, es).matched[0..] == Run(t, es).matched;
  }

  lemma ConfigAfter(t: Zsl, e: Event)
    ensures Step(t, e).cfg == if e.SetAttr? then e.cfg else t.cfg
  {
    if e.Arrival? {
      ArriveMoves(t, e.side, e.id);
      hide Arrive;
    } else if e.BurstRequest? {
      RequestMoves(t, e.n);
      hide Request;
    }
  }

  lemma UnmatchedSame(s: Zsl, t: Zsl)
    requires Unmatched(s, t)
    ensures t.matched == s.matched
  {
  }

  /**
   From any reachable state whose matches are apart: they stay apart in every
   continuation without a channel event, if and only if no id can still be
   matched that is less than gap above the last one.
   */
  lemma SpacingSafeExactly(s: Zsl, gap: nat)
    requires Inv(s) && Apart(s.matched, gap) && gap <= s.cfg.interval
    ensures (forall es | Legal(s, es) && Steady(es, gap) :: Apart(Run(s, es).matched, gap))
       <==> s.matched == [] || Soonest(s) >= Last(s.matched) + gap
  {
    if s.matched == [] || Soonest(s) >= Last(s.matched) + gap {
      forall es | Legal(s, es) && Steady(es, gap) ensures Apart(Run(s, es).matched, gap) {
        ContinuationSpaced(s, s, es, gap);
      }
    } else {
      var es := SoonestMatches(s);
      AppendApart(s.matched, Soonest(s), gap);
      assert Legal(s, es) && Steady(es, gap) && !Apart(Run(s, es).matched, gap);
    }
  }

  lemma NewerStill(s: Zsl, t: Zsl, side: Side, x: nat, y: nat)
    requires LogOf(t, side).arrived == LogOf(s, side).arrived + [x] && Newest(s, side, x) && x < y
    ensures Newest(t, side, y)
  {
  }

  /** An id, a channel event, and any later id: both are matched. */
  lemma MatchedAcrossReset(s: Zsl, x: nat, y: nat)
    requires Inv(s) && Newest(s, Main, x) && Newest(s, Preview, x) && s.expected <= x < y
    ensures var es := Both(x) + ([ChannelReset] + Both(y));
            Legal(s, es) && Run(s, es).matched == s.matched + [x] + [y]
  {
    LoneBelowBoth(s, x);
    BothTouches(s, x);
    var t := Run(s, Both(x));
    NewerStill(s, t, Main, x, y);
    NewerStill(s, t, Preview, x, y);
    hide Inv, Run, Legal, Newest, Both;
    BothMatch(s, x);
    BothLegal(s, x);
    StepKeeps(t, ChannelReset);
    ResetMatchesNext(t, y);
    SameNewest(t, y);
    BothLegal(Step(t, ChannelReset), y);
    RunEvent(t, ChannelReset, Both(y));
    RunConcat(s, Both(x), [ChannelReset] + Both(y));
  }

  lemma SameNewest(t: Zsl, y: nat)
    requires Newest(t, Main, y) && Newest(t, Preview, y)
    ensures Newest(Step(t, ChannelReset), Main, y) && Newest(Step(t, ChannelReset), Preview, y)
  {
  }

  /** With a channel event between them, two neighbouring ids are both matched, however long the interval. */
  lemma ResetBreaksSpacing(cfg: Config)
    requires cfg.interval >= 2
    ensures var es := Both(0) + ([ChannelReset] + Both(1));
            && Legal(Init(cfg), es) && Run(Init(cfg), es).matched == [0, 1]
            && !Apart(Run(Init(cfg), es).matched, cfg.interval)
  {
    InitInv(cfg);
    assert Newest(Init(cfg), Main, 0) && Newest(Init(cfg), Preview, 0);
    hide Inv, Run, Legal, Newest, Both;
    MatchedAcrossReset(Init(cfg), 0, 1);
    NotApart(cfg.interval);
    hide Apart;
  }

  lemma NotApart(gap: nat)
    requires gap >= 2
    ensures !Apart([0, 1], gap)
  {
    assert [0, 1][0] == 0 && [0, 1][1] == 1;
  }

  lemma RunEvent(s: Zsl, e: Event, rest: seq<Event>)
    ensures Run(s, [e] + rest) == Run(Step(s, e), rest)
    ensures Legal(s, [e] + rest) <==> Enabled(s, e) && Legal(Step(s, e), rest)
  {
    assert ([e] + rest)[1..] == rest;
  }
}
