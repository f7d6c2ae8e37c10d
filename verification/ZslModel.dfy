/**
 The zero-shutter-lag frame matcher seen as a state machine over frame ids.

 The C code keeps two linked lists of frames, one for the full-size stream and
 one for the preview stream, and never says how they are related.  The state
 used here is that relation: both lists start with the same matched ids
 (`pairs`), and at most one of them has one more, unmatched, frame (`lone`).
 Module ZslMatcher proves that the list-editing code implements these steps.
 */
module ZslModel {

  datatype Side = Main | Preview

  function Peer(side: Side): Side { if side == Main then Preview else Main }

  datatype Lone = NoLone | Lone(side: Side, id: nat)

  /** The buffering attributes of the snapshot channel.  The look-back count can
      be negative: an integer parameter that is not set reads as -1. */
  datatype Config = Config(waterMark: nat, lookBack: int, interval: nat)

  /** What happened to one stream: ids in order of arrival, ids handed to buf_done. */
  datatype Log = Log(arrived: seq<nat>, back: multiset<nat>)

  /** The latest burst request: frames asked for, pairs handed out for it, done events sent for it. */
  datatype Burst = Burst(asked: int, got: nat, dones: nat)

  datatype Zsl = Zsl(
    pairs: seq<nat>, lone: Lone, expected: nat, pending: int, cfg: Config,
    main: Log, preview: Log, matched: seq<nat>, delivered: seq<nat>, burst: Burst)

  function Init(cfg: Config): Zsl {
    Zsl([], NoLone, 0, 0, cfg, Log([], multiset{}), Log([], multiset{}), [], [], Burst(0, 0, 0))
  }

  function LogOf(s: Zsl, side: Side): Log { if side == Main then s.main else s.preview }

  function WithLog(s: Zsl, side: Side, log: Log): Zsl {
    if side == Main then s.(main := log) else s.(preview := log)
  }

  function LoneOf(s: Zsl, side: Side): seq<nat> {
    if s.lone.Lone? && s.lone.side == side then [s.lone.id] else []
  }

  /** The ids in one ready queue, oldest first. */
  function QueueIds(s: Zsl, side: Side): seq<nat> { s.pairs + LoneOf(s, side) }

  function Note(s: Zsl, side: Side, id: nat): Zsl {
    var log := LogOf(s, side);
    WithLog(s, side, log.(arrived := log.arrived + [id]))
  }

  function GiveBack(s: Zsl, side: Side, ids: multiset<nat>): Zsl {
    var log := LogOf(s, side);
    WithLog(s, side, log.(back := log.back + ids))
  }

  function Min(a: int, b: int): int { if a < b then a else b }
  function Max(a: int, b: int): int { if a < b then b else a }

  /** The count of frames still owed to a burst is an int8_t. */
  function Int8(n: int): int { (n + 128) % 256 - 128 }

  // ----- one arriving frame --------------------------------------------------

  /** Beyond the watermark the oldest pairs go back to the driver. */
  function Trim(s: Zsl): Zsl {
    var n := Max(0, |s.pairs| - s.cfg.waterMark);
    GiveBack(GiveBack(s.(pairs := s.pairs[n..]), Main, multiset(s.pairs[..n])), Preview, multiset(s.pairs[..n]))
  }

  /** A pending burst takes the oldest pair. */
  function Dispatch(s: Zsl): Zsl {
    if s.pending > 0 && s.pairs != [] then
      s.(pairs := s.pairs[1..], delivered := s.delivered + [s.pairs[0]], pending := s.pending - 1,
         burst := s.burst.(got := s.burst.got + 1, dones := s.burst.dones + (if s.pending == 1 then 1 else 0)))
    else s
  }

  function Pair(s: Zsl, id: nat): Zsl {
    s.(pairs := s.pairs + [id], lone := NoLone, matched := s.matched + [id], expected := id + s.cfg.interval)
  }

  /** The frame becomes its queue's unmatched frame; an older one goes back. */
  function Keep(s: Zsl, side: Side, id: nat): Zsl {
    GiveBack(s, side, multiset(LoneOf(s, side))).(lone := Lone(side, id))
  }

  /** Where the frame goes, with `true` when the code then skips the watermark loop. */
  function Place(s: Zsl, side: Side, id: nat): (Zsl, bool) {
    if s.lone.Lone? && s.lone.side != side then
      if id < s.lone.id || (id == s.lone.id && id < s.expected) then (GiveBack(s, side, multiset{id}), true)
      else if id == s.lone.id then (Pair(s, id), false)
      else
        var t := GiveBack(s, Peer(side), multiset{s.lone.id}).(lone := NoLone);
        (if id >= s.expected then Keep(t, side, id) else GiveBack(t, side, multiset{id}), false)
    else if s.pairs == [] || id >= s.expected then (Keep(s, side, id), false)
    else (GiveBack(s, side, multiset{id}), false)
  }

  function Arrive(s: Zsl, side: Side, id: nat): Zsl {
    var (t, skipTrim) := Place(Note(s, side, id), side, id);
    Dispatch(if skipTrim then t else Trim(t))
  }

  // ----- one burst request ---------------------------------------------------

  function Longer(s: Zsl): nat { |s.pairs| + (if s.lone.Lone? then 1 else 0) }

  function SkipCount(s: Zsl): nat { Max(0, Longer(s) - s.cfg.lookBack) }

  /** Both queues lose their oldest positions until only look_back are left. */
  function Skip(s: Zsl): Zsl {
    var n := SkipCount(s);
    var j := Min(n, |s.pairs|);
    var gone := multiset(s.pairs[..j]);
    var t := GiveBack(GiveBack(s.(pairs := s.pairs[j..]), Main, gone), Preview, gone);
    if n > |s.pairs| && s.lone.Lone? then GiveBack(t, s.lone.side, multiset{s.lone.id}).(lone := NoLone) else t
  }

  /** The client gets the oldest pairs, up to n; the rest is owed. */
  function HandOver(s: Zsl, n: int): Zsl {
    var k := Min(Max(n, 0), |s.pairs|);
    var owed := Int8(n - k);
    s.(pairs := s.pairs[k..], delivered := s.delivered + s.pairs[..k], pending := owed,
       burst := Burst(n, k, if n <= |s.pairs| && owed == 0 then 1 else 0))
  }

  function Request(s: Zsl, n: int): Zsl { HandOver(Skip(s), n) }

  /** Pairs a request for n takes from the queues at once. */
  function AtOnce(s: Zsl, n: int): nat { Min(Max(n, 0), |Skip(s).pairs|) }

  // ----- runs ----------------------------------------------------------------

  /** Besides frames and requests: new attributes, and an event of the snapshot channel that forgets the expected id. */
  datatype Event = Arrival(side: Side, id: nat) | BurstRequest(n: int) | SetAttr(cfg: Config) | ChannelReset

  function Step(s: Zsl, e: Event): Zsl {
    match e
    case Arrival(side, id) => Arrive(s, side, id)
    case BurstRequest(n) => Request(s, n)
    case SetAttr(cfg) => s.(cfg := cfg)
    case ChannelReset => s.(expected := 0)
  }

  ghost predicate Newest(s: Zsl, side: Side, id: nat) {
    forall x | x in LogOf(s, side).arrived :: x < id
  }

  /** Frame ids increase within each stream (they do not wrap); nothing else is assumed. */
  ghost predicate Enabled(s: Zsl, e: Event) { e.Arrival? ==> Newest(s, e.side, e.id) }

  function Run(s: Zsl, es: seq<Event>): Zsl
    decreases |es|
  {
    if es == [] then s else Run(Step(s, es[0]), es[1..])
  }

  ghost predicate Legal(s: Zsl, es: seq<Event>)
    decreases |es|
  {
    es == [] || (Enabled(s, es[0]) && Legal(Step(s, es[0]), es[1..]))
  }

  // ----- the invariant -------------------------------------------------------

  ghost predicate Ascending(ids: seq<nat>) { forall i, j | 0 <= i < j < |ids| :: ids[i] < ids[j] }

  ghost predicate Apart(ids: seq<nat>, gap: nat) { forall i, j | 0 <= i < j < |ids| :: ids[i] + gap <= ids[j] }

  /** Frames that arrived on a side are those queued, given back or delivered, counted with multiplicity. */
  ghost predicate Conserved(s: Zsl, side: Side) {
    var log := LogOf(s, side);
    forall x: nat ::
      multiset(log.arrived)[x] == multiset(QueueIds(s, side))[x] + log.back[x] + multiset(s.delivered)[x]
  }

  ghost predicate SideInv(s: Zsl, side: Side) {
    && Ascending(LogOf(s, side).arrived)
    && Ascending(QueueIds(s, side))
    && Conserved(s, side)
    && (forall x | x in s.matched :: x in LogOf(s, side).arrived)
  }

  /** Pairs leave in the order in which they were matched. */
  ghost predicate HistoryInv(s: Zsl) {
    && Ascending(s.delivered + s.pairs)
    && Ascending(s.matched)
    && (forall x | x in s.delivered + s.pairs :: x in s.matched)
  }

  ghost predicate Inv(s: Zsl) { SideInv(s, Main) && SideInv(s, Preview) && HistoryInv(s) }

  lemma QueuedArrived(s: Zsl, side: Side)
    requires SideInv(s, side)
    ensures forall x | x in QueueIds(s, side) :: x in LogOf(s, side).arrived
    ensures forall x | x in s.delivered :: x in LogOf(s, side).arrived
  {
    forall x | x in QueueIds(s, side) || x in s.delivered ensures x in LogOf(s, side).arrived {
      assert x in multiset(QueueIds(s, side)) || x in multiset(s.delivered);
      assert x in multiset(LogOf(s, side).arrived);
    }
  }
}
