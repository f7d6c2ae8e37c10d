/** What every run of the zero-shutter-lag matcher keeps. */
module ZslRuns {
  import opened ZslModel

  // ----- single steps keep the invariant -------------------------------------

  /** An ascending sequence stays ascending when a stretch of it is cut out. */
  lemma AscendingCut(ids: seq<nat>, i: nat, j: nat)
    requires Ascending(ids) && i <= j <= |ids|
    ensures Ascending(ids[..i] + ids[j..])
  {
    var cut := ids[..i] + ids[j..];
    assert forall k | 0 <= k < |cut| :: cut[k] == ids[if k < i then k else k + j - i];
  }

  /** A queue's ids, split at the n-th pair. */
  lemma QueueSplit(s: Zsl, t: Zsl, n: nat, side: Side)
    requires n <= |s.pairs| && t.pairs == s.pairs[n..] && t.lone == s.lone
    ensures QueueIds(t, side) == QueueIds(s, side)[n..]
    ensures multiset(QueueIds(s, side)) == multiset(s.pairs[..n]) + multiset(QueueIds(t, side))
  {
    assert QueueIds(s, side) == s.pairs[..n] + QueueIds(t, side);
  }

  lemma AscendingLater(ids: seq<nat>, n: nat)
    requires Ascending(ids) && n <= |ids|
    ensures Ascending(ids[n..])
  {
    assert forall k | 0 <= k < |ids[n..]| :: ids[n..][k] == ids[k + n];
  }

  lemma ConservedDrops(s: Zsl, t: Zsl, n: nat, side: Side)
    requires Conserved(s, side) && n <= |s.pairs| && t.pairs == s.pairs[n..] && t.lone == s.lone
    requires LogOf(t, side).arrived == LogOf(s, side).arrived
    requires || (t.delivered == s.delivered && LogOf(t, side).back == LogOf(s, side).back + multiset(s.pairs[..n]))
             || (t.delivered == s.delivered + s.pairs[..n] && LogOf(t, side).back == LogOf(s, side).back)
    ensures Conserved(t, side)
  {
    QueueSplit(s, t, n, side);
    if t.delivered != s.delivered {
      assert multiset(t.delivered) == multiset(s.delivered) + multiset(s.pairs[..n]);
    }
  }

  /** One side loses the n oldest pairs; they are given back or delivered. */
  lemma SideDropsPairs(s: Zsl, t: Zsl, n: nat, side: Side)
    requires SideInv(s, side) && n <= |s.pairs|
    requires t.pairs == s.pairs[n..] && t.lone == s.lone && t.matched == s.matched
    requires LogOf(t, side).arrived == LogOf(s, side).arrived
    requires || (t.delivered == s.delivered && LogOf(t, side).back == LogOf(s, side).back + multiset(s.pairs[..n]))
             || (t.delivered == s.delivered + s.pairs[..n] && LogOf(t, side).back == LogOf(s, side).back)
    ensures SideInv(t, side)
  {
    ConservedDrops(s, t, n, side);
    hide Conserved;
    QueueSplit(s, t, n, side);
    AscendingLater(QueueIds(s, side), n);
  }

  /** Giving the n oldest pairs back keeps everything. */
  lemma DropPairsKeeps(s: Zsl, n: nat)
    requires Inv(s) && n <= |s.pairs|
    ensures var m := multiset(s.pairs[..n]);
            Inv(GiveBack(GiveBack(s.(pairs := s.pairs[n..]), Main, m), Preview, m))
  {
    var m := multiset(s.pairs[..n]);
    var t := GiveBack(GiveBack(s.(pairs := s.pairs[n..]), Main, m), Preview, m);
    SideDropsPairs(s, t, n, Main);
    SideDropsPairs(s, t, n, Preview);
    HistoryDrops(s, t, n);
  }

  lemma HistoryDrops(s: Zsl, t: Zsl, n: nat)
    requires HistoryInv(s) && n <= |s.pairs|
    requires t.delivered == s.delivered && t.pairs == s.pairs[n..] && t.matched == s.matched
    ensures HistoryInv(t)
  {
    var d, all := |s.delivered|, s.delivered + s.pairs;
    AscendingCut(all, d, d + n);
    assert all[..d] + all[d + n..] == t.delivered + t.pairs;
    forall x | x in t.delivered + t.pairs ensures x in t.matched {
      assert x in all;
    }
  }

  lemma DropLoneKeeps(s: Zsl)
    requires Inv(s) && s.lone.Lone?
    ensures Inv(GiveBack(s, s.lone.side, multiset{s.lone.id}).(lone := NoLone))
  {
    var t := GiveBack(s, s.lone.side, multiset{s.lone.id}).(lone := NoLone);
    SideDropsLone(s, t);
    var peer := Peer(s.lone.side);
    assert QueueIds(t, peer) == QueueIds(s, peer);
    assert SideInv(t, peer);
  }

  lemma SideDropsLone(s: Zsl, t: Zsl)
    requires s.lone.Lone? && SideInv(s, s.lone.side)
    requires t == GiveBack(s, s.lone.side, multiset{s.lone.id}).(lone := NoLone)
    ensures SideInv(t, s.lone.side)
  {
    var side := s.lone.side;
    var q := QueueIds(s, side);
    assert q == s.pairs + [s.lone.id];
    AscendingCut(q, |s.pairs|, |q|);
    assert q[..|s.pairs|] + q[|q|..] == QueueIds(t, side);
  }

  lemma HistoryDelivers(s: Zsl, t: Zsl, n: nat)
    requires HistoryInv(s) && n <= |s.pairs|
    requires t.delivered == s.delivered + s.pairs[..n] && t.pairs == s.pairs[n..] && t.matched == s.matched
    ensures HistoryInv(t)
  {
    assert t.delivered + t.pairs == s.delivered + s.pairs;
  }

  /** Delivering the n oldest pairs keeps everything. */
  lemma DeliverKeeps(s: Zsl, t: Zsl, n: nat)
    requires Inv(s) && n <= |s.pairs|
    requires t.delivered == s.delivered + s.pairs[..n] && t.pairs == s.pairs[n..]
    requires t.matched == s.matched && t.lone == s.lone && t.main == s.main && t.preview == s.preview
    ensures Inv(t)
  {
    SideDropsPairs(s, t, n, Main);
    SideDropsPairs(s, t, n, Preview);
    HistoryDelivers(s, t, n);
  }

  lemma DispatchKeeps(s: Zsl)
    requires Inv(s)
    ensures Inv(Dispatch(s))
  {
    if s.pending > 0 && s.pairs != [] {
      DeliverKeeps(s, Dispatch(s), 1);
    }
  }

  lemma AscendingAppend(ids: seq<nat>, x: nat)
    requires Ascending(ids) && forall y | y in ids :: y < x
    ensures Ascending(ids + [x])
  {
    assert forall i | 0 <= i < |ids| :: (ids + [x])[i] == ids[i] && ids[i] in ids;
  }

  /** The arriving frame's own side: the frame is given back, kept, or kept in place of an older one. */
  lemma MinePlaced(s: Zsl, t: Zsl, side: Side, id: nat)
    requires SideInv(s, side) && Newest(s, side, id)
    requires t.delivered == s.delivered && (t.matched == s.matched || t.matched == s.matched + [id])
    requires LogOf(t, side).arrived == LogOf(s, side).arrived + [id]
    requires || (QueueIds(t, side) == QueueIds(s, side) && LogOf(t, side).back == LogOf(s, side).back + multiset{id})
             || (QueueIds(t, side) == QueueIds(s, side) + [id] && LogOf(t, side).back == LogOf(s, side).back)
             || (QueueIds(t, side) == s.pairs + [id]
                 && LogOf(t, side).back == LogOf(s, side).back + multiset(LoneOf(s, side)))
    ensures SideInv(t, side)
  {
    var q := QueueIds(s, side);
    QueuedArrived(s, side);
    AscendingAppend(LogOf(s, side).arrived, id);
    AscendingAppend(q, id);
    AscendingCut(q, |s.pairs|, |q|);
    assert q[..|s.pairs|] + q[|q|..] == s.pairs;
    assert forall x | x in s.pairs :: x in q;
    AscendingAppend(s.pairs, id);
  }

  /** The other side: its unmatched frame stays, perhaps matched now. */
  lemma PeerPlaced(s: Zsl, t: Zsl, peer: Side, id: nat)
    requires SideInv(s, peer) && LogOf(t, peer) == LogOf(s, peer) && t.delivered == s.delivered
    requires QueueIds(t, peer) == QueueIds(s, peer)
    requires t.matched == s.matched || (t.matched == s.matched + [id] && id in LogOf(s, peer).arrived)
    ensures SideInv(t, peer)
  {
  }

  lemma HistoryPlaced(s: Zsl, t: Zsl, id: nat)
    requires HistoryInv(s) && t.delivered == s.delivered
    requires forall x | x in s.matched :: x < id
    requires || (t.matched == s.matched && t.pairs == s.pairs)
             || (t.matched == s.matched + [id] && t.pairs == s.pairs + [id])
    ensures HistoryInv(t)
  {
    if t.pairs != s.pairs {
      assert t.delivered + t.pairs == s.delivered + s.pairs + [id];
      AscendingAppend(s.matched, id);
      AscendingAppend(s.delivered + s.pairs, id);
    }
  }

  /** With no unmatched frame opposite, the frame is given back or becomes its queue's unmatched frame. */
  ghost predicate PlacedAlone(s: Zsl, t: Zsl, side: Side, id: nat) {
    && t.delivered == s.delivered && t.matched == s.matched && t.pairs == s.pairs
    && LogOf(t, side).arrived == LogOf(s, side).arrived + [id]
    && (|| (QueueIds(t, side) == QueueIds(s, side) && LogOf(t, side).back == LogOf(s, side).back + multiset{id})
        || (QueueIds(t, side) == s.pairs + [id]
            && LogOf(t, side).back == LogOf(s, side).back + multiset(LoneOf(s, side))))
    && LogOf(t, Peer(side)) == LogOf(s, Peer(side)) && QueueIds(t, Peer(side)) == QueueIds(s, Peer(side))
  }

  /** Giving frames back on one side, and what stays as it was. */
  lemma GiveBackSets(s: Zsl, side: Side, ids: multiset<nat>)
    ensures var t := GiveBack(s, side, ids);
            && t == s.(main := t.main, preview := t.preview)
            && LogOf(t, side) == LogOf(s, side).(back := LogOf(s, side).back + ids)
            && LogOf(t, Peer(side)) == LogOf(s, Peer(side))
  {
  }

  lemma NoteSets(s: Zsl, side: Side, id: nat)
    ensures var t := Note(s, side, id);
            && t == s.(main := t.main, preview := t.preview)
            && LogOf(t, side) == LogOf(s, side).(arrived := LogOf(s, side).arrived + [id])
            && LogOf(t, Peer(side)) == LogOf(s, Peer(side))
  {
  }

  lemma PlaceAloneIs(s: Zsl, side: Side, id: nat)
    requires s.lone.Lone? ==> s.lone.side == side
    ensures Place(s, side, id).0 ==
      if s.pairs == [] || id >= s.expected then
        GiveBack(s, side, multiset(LoneOf(s, side))).(lone := Lone(side, id))
      else GiveBack(s, side, multiset{id})
  {
  }

  lemma SameQueues(s: Zsl, t: Zsl, side: Side)
    requires t.pairs == s.pairs && t.lone == s.lone
    ensures QueueIds(t, side) == QueueIds(s, side) && LoneOf(t, side) == LoneOf(s, side)
  {
  }

  lemma LoneQueues(s: Zsl, side: Side)
    requires s.lone.Lone? ==> s.lone.side == side
    ensures QueueIds(s, side) == if s.lone.Lone? then s.pairs + [s.lone.id] else s.pairs
    ensures QueueIds(s, Peer(side)) == s.pairs
  {
    assert s.pairs + [] == s.pairs;
  }

  lemma PlaceAlone(s: Zsl, side: Side, id: nat)
    requires s.lone.Lone? ==> s.lone.side == side
    ensures PlacedAlone(s, Place(Note(s, side, id), side, id).0, side, id)
  {
    var n, t := Note(s, side, id), Place(Note(s, side, id), side, id).0;
    NoteSets(s, side, id);
    PlaceAloneIs(n, side, id);
    hide Note, Place;
    GiveBackSets(n, side, multiset(LoneOf(n, side)));
    GiveBackSets(n, side, multiset{id});
    hide GiveBack, LogOf, Peer;
    SameQueues(s, n, side);
    LoneQueues(s, side);
    LoneQueues(t, side);
    hide QueueIds, LoneOf;
  }

  lemma PlacedAloneKeeps(s: Zsl, t: Zsl, side: Side, id: nat)
    requires Inv(s) && Newest(s, side, id) && PlacedAlone(s, t, side, id)
    ensures Inv(t)
  {
    MinePlaced(s, t, side, id);
    PeerPlaced(s, t, Peer(side), id);
    HistoryPlaced(s, t, id);
  }

  /** With an unmatched frame opposite, the two are matched, or the older one is given back. */
  ghost predicate PlacedAgainst(s: Zsl, t: Zsl, side: Side, id: nat)
    requires s.lone.Lone?
  {
    && t.delivered == s.delivered
    && LogOf(t, side).arrived == LogOf(s, side).arrived + [id]
    && LogOf(t, Peer(side)) == LogOf(s, Peer(side))
    && (|| (id <= s.lone.id && t.matched == s.matched && t.pairs == s.pairs && t.lone == s.lone
            && LogOf(t, side).back == LogOf(s, side).back + multiset{id})
        || (id == s.lone.id && t.matched == s.matched + [id] && t.pairs == s.pairs + [id] && t.lone == NoLone
            && LogOf(t, side).back == LogOf(s, side).back))
  }

  lemma PlaceAgainst(s: Zsl, side: Side, id: nat)
    requires s.lone.Lone? && s.lone.side == Peer(side)
    ensures var t := Place(Note(s, side, id), side, id).0;
            if id <= s.lone.id then PlacedAgainst(s, t, side, id)
            else PlacedAlone(GiveBack(s, s.lone.side, multiset{s.lone.id}).(lone := NoLone), t, side, id)
  {
  }

  lemma PlacedAgainstKeeps(s: Zsl, t: Zsl, side: Side, id: nat)
    requires Inv(s) && Newest(s, side, id) && s.lone.Lone? && s.lone.side == Peer(side)
    requires PlacedAgainst(s, t, side, id)
    ensures Inv(t)
  {
    AgainstQueues(s, t, side, id);
    LoneArrived(s);
    hide Conserved;
    hide Ascending;
    MinePlaced(s, t, side, id);
    PeerPlaced(s, t, Peer(side), id);
    HistoryPlaced(s, t, id);
  }

  lemma AgainstQueues(s: Zsl, t: Zsl, side: Side, id: nat)
    requires s.lone.Lone? && s.lone.side == Peer(side) && PlacedAgainst(s, t, side, id)
    ensures QueueIds(t, Peer(side)) == QueueIds(s, Peer(side))
    ensures if t.matched == s.matched then QueueIds(t, side) == QueueIds(s, side)
            else QueueIds(t, side) == QueueIds(s, side) + [id]
  {
    assert QueueIds(s, Peer(side)) == s.pairs + [s.lone.id] && QueueIds(s, side) == s.pairs;
  }

  lemma LoneArrived(s: Zsl)
    requires s.lone.Lone? && SideInv(s, s.lone.side)
    ensures s.lone.id in LogOf(s, s.lone.side).arrived
  {
    QueuedArrived(s, s.lone.side);
    assert QueueIds(s, s.lone.side)[|s.pairs|] == s.lone.id;
  }

  lemma PlaceKeeps(s: Zsl, side: Side, id: nat)
    requires Inv(s) && Newest(s, side, id)
    ensures Inv(Place(Note(s, side, id), side, id).0)
  {
    var t := Place(Note(s, side, id), side, id).0;
    if s.lone.Lone? && s.lone.side == Peer(side) {
      PlaceAgainst(s, side, id);
      if id <= s.lone.id {
        PlacedAgainstKeeps(s, t, side, id);
      } else {
        DropLoneKeeps(s);
        PlacedAloneKeeps(GiveBack(s, s.lone.side, multiset{s.lone.id}).(lone := NoLone), t, side, id);
      }
    } else {
      PlaceAlone(s, side, id);
      PlacedAloneKeeps(s, t, side, id);
    }
  }

  lemma TrimKeeps(s: Zsl)
    requires Inv(s)
    ensures Inv(Trim(s))
  {
    DropPairsKeeps(s, Max(0, |s.pairs| - s.cfg.waterMark));
  }

  lemma ArriveKeeps(s: Zsl, side: Side, id: nat)
    requires Inv(s) && Newest(s, side, id)
    ensures Inv(Arrive(s, side, id))
  {
    var (t, skipTrim) := Place(Note(s, side, id), side, id);
    PlaceKeeps(s, side, id);
    TrimKeeps(t);
    DispatchKeeps(if skipTrim then t else Trim(t));
  }

  lemma SkipKeeps(s: Zsl)
    requires Inv(s)
    ensures Inv(Skip(s))
  {
    var j := Min(SkipCount(s), |s.pairs|);
    DropPairsKeeps(s, j);
    var m := multiset(s.pairs[..j]);
    var t := GiveBack(GiveBack(s.(pairs := s.pairs[j..]), Main, m), Preview, m);
    if s.lone.Lone? {
      DropLoneKeeps(t);
    }
  }

  lemma RequestKeeps(s: Zsl, n: int)
    requires Inv(s)
    ensures Inv(Request(s, n))
  {
    SkipKeeps(s);
    DeliverKeeps(Skip(s), Request(s, n), AtOnce(s, n));
  }

  lemma SameConserved(s: Zsl, t: Zsl, side: Side)
    requires Conserved(s, side) && QueueIds(t, side) == QueueIds(s, side)
    requires LogOf(t, side) == LogOf(s, side) && t.delivered == s.delivered
    ensures Conserved(t, side)
  {
    hide QueueIds, LogOf;
  }

  lemma SameSide(s: Zsl, t: Zsl, side: Side)
    requires SideInv(s, side) && t == s.(cfg := t.cfg, expected := t.expected)
    ensures SideInv(t, side)
  {
    SameQueues(s, t, side);
    SameConserved(s, t, side);
    hide QueueIds, Conserved, Ascending;
  }

  /** Attributes and the expected id are no part of the invariant. */
  lemma SettingsKeep(s: Zsl, t: Zsl)
    requires Inv(s) && t == s.(cfg := t.cfg, expected := t.expected)
    ensures Inv(t)
  {
    SameSide(s, t, Main);
    SameSide(s, t, Preview);
    hide SideInv;
  }

  lemma StepKeeps(s: Zsl, e: Event)
    requires Inv(s) && Enabled(s, e)
    ensures Inv(Step(s, e))
  {
    hide Inv, Arrive, Request;
    match e
    case Arrival(side, id) => ArriveKeeps(s, side, id);
    case BurstRequest(n) => RequestKeeps(s, n);
    case SetAttr(cfg) => SettingsKeep(s, s.(cfg := cfg));
    case ChannelReset => SettingsKeep(s, s.(expected := 0));
  }

  // ----- every run -----------------------------------------------------------

  lemma RunConcat(s: Zsl, a: seq<Event>, b: seq<Event>)
    ensures Run(s, a + b) == Run(Run(s, a), b)
    ensures Legal(s, a + b) <==> Legal(s, a) && Legal(Run(s, a), b)
    decreases |a|
  {
    if a == [] {
      assert a + b == b;
    } else {
      assert (a + b)[1..] == a[1..] + b;
      RunConcat(Step(s, a[0]), a[1..], b);
    }
  }

  lemma {:induction false} RunKeepsInv(s: Zsl, es: seq<Event>)
    requires Inv(s) && Legal(s, es)
    ensures Inv(Run(s, es))
    decreases |es|
  {
    if es != [] {
      StepKeeps(s, es[0]);
      RunKeepsInv(Step(s, es[0]), es[1..]);
    }
  }

  /** The shape of both ready queues in every reachable state. */
  lemma QueueShape(cfg: Config, es: seq<Event>)
    requires Legal(Init(cfg), es)
    ensures var s := Run(Init(cfg), es);
            && Ascending(QueueIds(s, Main)) && Ascending(QueueIds(s, Preview))
            && s.pairs <= QueueIds(s, Main) && s.pairs <= QueueIds(s, Preview)
            && |QueueIds(s, Main)| + |QueueIds(s, Preview)| <= 2 * |s.pairs| + 1
  {
    InitInv(cfg);
    RunKeepsInv(Init(cfg), es);
  }

  lemma InitInv(cfg: Config)
    ensures Inv(Init(cfg))
  {
  }

  lemma AscendingCountsOnce(ids: seq<nat>, x: nat)
    requires Ascending(ids)
    ensures multiset(ids)[x] == if x in ids then 1 else 0
  {
    if ids != [] {
      var n := |ids| - 1;
      var init := ids[..n];
      assert ids == init + [ids[n]];
      AscendingCountsOnce(init, x);
      if x == ids[n] {
        assert x !in init;
      }
    }
  }

  /**
   Over any run every frame of either stream that arrived is in exactly one
   place, once: waiting in its ready queue, given back, or delivered; a frame
   that did not arrive is in none of them.
   */
  lemma FrameConservation(cfg: Config, es: seq<Event>, side: Side, x: nat)
    requires Legal(Init(cfg), es)
    ensures var s := Run(Init(cfg), es);
            multiset(QueueIds(s, side))[x] + LogOf(s, side).back[x] + multiset(s.delivered)[x]
            == if x in LogOf(s, side).arrived then 1 else 0
  {
    InitInv(cfg);
    RunKeepsInv(Init(cfg), es);
    var s := Run(Init(cfg), es);
    assert SideInv(s, side);
    AscendingCountsOnce(LogOf(s, side).arrived, x);
  }

  /** The ids that arrived on a side, read off the events. */
  function Arrivals(es: seq<Event>, side: Side): seq<nat> {
    if es == [] then [] else ArrivalOf(es[0], side) + Arrivals(es[1..], side)
  }

  function ArrivalOf(e: Event, side: Side): seq<nat> { if e.Arrival? && e.side == side then [e.id] else [] }

  lemma {:induction false} ArrivalsLogged(s: Zsl, es: seq<Event>, side: Side)
    ensures LogOf(Run(s, es), side).arrived == LogOf(s, side).arrived + Arrivals(es, side)
    decreases |es|
  {
    hide Step, LogOf, ArrivalOf;
    if es != [] {
      var before, one, rest := LogOf(s, side).arrived, ArrivalOf(es[0], side), Arrivals(es[1..], side);
      StepLogs(s, es[0], side);
      ArrivalsLogged(Step(s, es[0]), es[1..], side);
      assert before + one + rest == before + (one + rest);
    }
  }

  lemma StepLogs(s: Zsl, e: Event, side: Side)
    ensures LogOf(Step(s, e), side).arrived == LogOf(s, side).arrived + ArrivalOf(e, side)
  {
    match e
    case Arrival(from, id) => ArriveTouches(s, from, id);
    case BurstRequest(n) =>
    case SetAttr(cfg) =>
    case ChannelReset =>
  }

  /** The history fields an arrival changes. */
  ghost predicate Touched(s: Zsl, t: Zsl, side: Side, id: nat) {
    && LogOf(t, side).arrived == LogOf(s, side).arrived + [id]
    && LogOf(t, Peer(side)).arrived == LogOf(s, Peer(side)).arrived
    && t.cfg == s.cfg
    && (|| (t.matched == s.matched && t.expected == s.expected)
        || (t.matched == s.matched + [id] && s.expected <= id && t.expected == id + s.cfg.interval))
  }

  lemma ArriveTouches(s: Zsl, side: Side, id: nat)
    ensures Touched(s, Arrive(s, side, id), side, id)
  {
    var (t, skipTrim) := Place(Note(s, side, id), side, id);
    assert Touched(s, t, side, id);
    assert Touched(s, Trim(t), side, id);
    assert forall v :: Touched(s, v, side, id) ==> Touched(s, Dispatch(v), side, id);
  }

  // ----- order and spacing of what is handed out -------------------------------

  /** Every attribute change of the run asks for at least `gap` ids between matches. */
  ghost predicate IntervalsAtLeast(es: seq<Event>, gap: nat) {
    forall e | e in es && e.SetAttr? :: gap <= e.cfg.interval
  }

  ghost predicate NoReset(es: seq<Event>) { forall e | e in es :: !e.ChannelReset? }

  /** The matches from the k-th on are apart, and so is the next one. */
  ghost predicate MatchesApart(s: Zsl, k: nat, gap: nat) {
    && gap <= s.cfg.interval && k <= |s.matched|
    && Apart(s.matched[k..], gap) && (forall x | x in s.matched[k..] :: x + gap <= s.expected)
  }

  lemma {:induction false} RunKeepsApart(s: Zsl, es: seq<Event>, k: nat, gap: nat)
    requires MatchesApart(s, k, gap) && IntervalsAtLeast(es, gap) && NoReset(es)
    ensures MatchesApart(Run(s, es), k, gap)
    decreases |es|
  {
    hide Step, MatchesApart;
    if es != [] {
      assert es[0] in es;
      StepKeepsApart(s, es[0], k, gap);
      RunKeepsApart(Step(s, es[0]), es[1..], k, gap);
    }
  }

  lemma StepKeepsApart(s: Zsl, e: Event, k: nat, gap: nat)
    requires MatchesApart(s, k, gap) && !e.ChannelReset? && (e.SetAttr? ==> gap <= e.cfg.interval)
    ensures MatchesApart(Step(s, e), k, gap)
  {
    if e.Arrival? {
      var t := Arrive(s, e.side, e.id);
      ArriveTouches(s, e.side, e.id);
      hide Arrive, Step;
      if t.matched != s.matched {
        NextApart(s.matched[k..], e.id, gap);
        assert t.matched[k..] == s.matched[k..] + [e.id];
      }
    }
  }

  lemma NextApart(ids: seq<nat>, x: nat, gap: nat)
    requires Apart(ids, gap) && forall y | y in ids :: y + gap <= x
    ensures Apart(ids + [x], gap)
  {
    assert forall i | 0 <= i < |ids| :: ids[i] in ids;
  }

  /** From any state, the matches made until the next channel event are at least `gap` apart. */
  lemma MatchedApartBetweenResets(s: Zsl, es: seq<Event>, gap: nat)
    requires gap <= s.cfg.interval && IntervalsAtLeast(es, gap) && NoReset(es)
    ensures |s.matched| <= |Run(s, es).matched| && Apart(Run(s, es).matched[|s.matched|..], gap)
  {
    RunKeepsApart(s, es, |s.matched|, gap);
  }

  lemma MemberIndex(ids: seq<nat>, x: nat) returns (i: nat)
    requires x in ids
    ensures i < |ids| && ids[i] == x
  {
    i :| 0 <= i < |ids| && ids[i] == x;
  }

  /** In every run the delivered ids strictly increase, and each was matched, so it arrived on both streams. */
  lemma DeliveredInOrder(cfg: Config, es: seq<Event>)
    requires Legal(Init(cfg), es)
    ensures var s := Run(Init(cfg), es);
            && Ascending(s.delivered) && Ascending(s.matched)
            && forall x | x in s.delivered :: x in s.matched && x in s.main.arrived && x in s.preview.arrived
  {
    InitInv(cfg);
    RunKeepsInv(Init(cfg), es);
    var s := Run(Init(cfg), es);
    var all := s.delivered + s.pairs;
    assert forall i | 0 <= i < |s.delivered| :: s.delivered[i] == all[i];
    assert forall x | x in s.delivered :: x in all;
  }

  /** Without a channel event, any two delivered ids are at least `gap` apart. */
  lemma DeliveredApart(cfg: Config, es: seq<Event>, gap: nat)
    requires Legal(Init(cfg), es) && gap <= cfg.interval && IntervalsAtLeast(es, gap) && NoReset(es)
    ensures var s := Run(Init(cfg), es);
            Apart(s.delivered, gap) && Apart(s.matched, gap)
  {
    DeliveredInOrder(cfg, es);
    MatchedApartBetweenResets(Init(cfg), es, gap);
    var s := Run(Init(cfg), es);
    assert s.matched[0..] == s.matched;
    SubsequenceApart(s.delivered, s.matched, gap);
  }

  /** A selection, in ascending order, from ids at least `gap` apart. */
  lemma SubsequenceApart(some: seq<nat>, all: seq<nat>, gap: nat)
    requires Ascending(some) && Ascending(all) && Apart(all, gap)
    requires forall x | x in some :: x in all
    ensures Apart(some, gap)
  {
    forall i, j | 0 <= i < j < |some| ensures some[i] + gap <= some[j] {
      var a := MemberIndex(all, some[i]);
      var b := MemberIndex(all, some[j]);
      assert a < b;
    }
  }

  // ----- how many frames are held ----------------------------------------------

  /** A frame that the opposite unmatched frame makes too old ends the call before the trim. */
  predicate TooOldToTrim(s: Zsl, side: Side, id: nat) {
    && s.lone.Lone? && s.lone.side == Peer(side)
    && (id < s.lone.id || (id == s.lone.id && id < s.expected))
  }

  /** Every other arrival leaves at most the watermark that is then set, however high it was before. */
  lemma ArrivalTrims(s: Zsl, side: Side, id: nat)
    ensures var t := Arrive(s, side, id);
            && |QueueIds(t, side)| <= |t.pairs| + 1
            && if TooOldToTrim(s, side, id) then |t.pairs| <= |s.pairs| else |t.pairs| <= s.cfg.waterMark
  {
    var n := Note(s, side, id);
    var (t, skipTrim) := Place(n, side, id);
    assert n.lone == s.lone && n.cfg == s.cfg && n.pairs == s.pairs && n.expected == s.expected;
    assert skipTrim == TooOldToTrim(s, side, id) && t.cfg == s.cfg && (skipTrim ==> t.pairs == s.pairs);
    hide Place, Note, LogOf;
    assert |Trim(t).pairs| <= s.cfg.waterMark;
  }

  ghost predicate MarksAtMost(es: seq<Event>, top: nat) {
    forall e | e in es && e.SetAttr? :: e.cfg.waterMark <= top
  }

  lemma StepHoldsAtMost(s: Zsl, e: Event, top: nat)
    requires |s.pairs| <= top && s.cfg.waterMark <= top && (e.SetAttr? ==> e.cfg.waterMark <= top)
    ensures |Step(s, e).pairs| <= top && Step(s, e).cfg.waterMark <= top
  {
    if e.Arrival? {
      var (t, skipTrim) := Place(Note(s, e.side, e.id), e.side, e.id);
      assert t.cfg == s.cfg && (skipTrim ==> t.pairs == s.pairs);
    }
  }

  lemma {:induction false} RunHoldsAtMost(s: Zsl, es: seq<Event>, top: nat)
    requires |s.pairs| <= top && s.cfg.waterMark <= top && MarksAtMost(es, top)
    ensures |Run(s, es).pairs| <= top
    decreases |es|
  {
    if es != [] {
      assert es[0] in es;
      StepHoldsAtMost(s, es[0], top);
      RunHoldsAtMost(Step(s, es[0]), es[1..], top);
    }
  }

  /**
   With the watermark at most `depth`, each queue holds at most depth matched
   frames and depth + 1 in all, so of the depth + 3 buffers allocated for a
   stream at least two are outside its queue.
   */
  lemma BuffersLeftOutside(cfg: Config, es: seq<Event>, depth: nat, side: Side)
    requires cfg.waterMark <= depth && MarksAtMost(es, depth)
    ensures var s := Run(Init(cfg), es);
            |s.pairs| <= depth && |QueueIds(s, side)| <= depth + 1 && (depth + 3) - |QueueIds(s, side)| >= 2
  {
    RunHoldsAtMost(Init(cfg), es, depth);
  }

  function Drop(ids: seq<nat>, n: nat): seq<nat> { if n <= |ids| then ids[n..] else [] }

  /**
   Skipping removes exactly the oldest max(0, longer - look_back) positions of
   both queues, whatever the sign of look_back.
   */
  lemma SkipDropsOldest(s: Zsl, side: Side)
    ensures QueueIds(Skip(s), side) == Drop(QueueIds(s, side), SkipCount(s))
    ensures Longer(Skip(s)) == Min(Longer(s), Max(0, s.cfg.lookBack))
  {
    var n := SkipCount(s);
    if n <= |s.pairs| {
      assert (s.pairs + LoneOf(s, side))[n..] == s.pairs[n..] + LoneOf(s, side);
    }
  }
}
