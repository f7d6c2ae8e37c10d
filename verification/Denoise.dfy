/**
 Wavelet denoising of zero-shutter-lag pictures: one frame at a time is with the
 daemon, the others wait.  Frames are numbered in the order they arrive.
 */
module Denoising {
  import opened StreamQueues

  type Frame = nat

  /** What a done-event brings: the frame, encoded or not, or a NULL cookie. */
  datatype Outcome = Encoded | EncodeFailed | NoCookie

  /**
   The flag and the queue of the code, with the history of every frame: `arrived`;
   `sent` to the daemon and `back` from it; then `encoded`, given back to the
   driver (`returned`), or freed without being given back (`lost`).
   */
  datatype Stage = Stage(
    doing: bool, queue: seq<Frame>, arrived: seq<Frame>, sent: seq<Frame>, back: seq<Frame>,
    encoded: seq<Frame>, returned: seq<Frame>, lost: seq<Frame>)

  const Idle := Stage(false, [], [], [], [], [], [], [])

  // ----- steps ---------------------------------------------------------------

  /** receiveRawPicture; `accepted` is the outcome of a request made now. */
  function Receive(s: Stage, f: Frame, accepted: bool): Stage {
    var t := s.(arrived := s.arrived + [f]);
    if s.doing then t.(queue := s.queue + [f])
    else if accepted then t.(doing := true, sent := s.sent + [f])
    else t.(doing := false, returned := s.returned + [f])
  }

  /** The launch loop; `takes` are the frames whose request the daemon accepts. */
  function Launch(s: Stage, takes: set<Frame>): Stage
    decreases |s.queue|
  {
    if s.queue == [] then s.(doing := false)
    else
      var f, t := s.queue[0], s.(queue := s.queue[1..]);
      if f in takes then t.(sent := s.sent + [f]) else Launch(t.(lost := s.lost + [f]), takes)
  }

  function Report(s: Stage, f: Frame, o: Outcome): Stage {
    var t := s.(back := s.back + [f]);
    match o
    case Encoded => t.(encoded := s.encoded + [f])
    case EncodeFailed => t.(returned := s.returned + [f])
    case NoCookie => t.(lost := s.lost + [f])
  }

  datatype Event = Arrival(f: Frame, accepted: bool) | Done(f: Frame, o: Outcome, takes: set<Frame>)

  function Step(s: Stage, e: Event): Stage {
    match e
    case Arrival(f, accepted) => Receive(s, f, accepted)
    case Done(f, o, takes) => Launch(Report(s, f, o), takes)
  }

  /** The daemon reports any frame it has; frames are numbered as they arrive. */
  ghost predicate Enabled(s: Stage, e: Event) {
    match e
    case Arrival(f, _) => forall x | x in s.arrived :: x < f
    case Done(f, _, _) => multiset(s.sent)[f] > multiset(s.back)[f]
  }

  function Run(s: Stage, es: seq<Event>): Stage
    decreases |es|
  {
    if es == [] then s else Run(Step(s, es[0]), es[1..])
  }

  ghost predicate Legal(s: Stage, es: seq<Event>)
    decreases |es|
  {
    es == [] || (Enabled(s, es[0]) && Legal(Step(s, es[0]), es[1..]))
  }

  // ----- the launch loop in closed form ----------------------------------------

  /** Position of the first queued frame that the daemon takes, or the length. */
  function FirstTaken(q: seq<Frame>, takes: set<Frame>): (k: nat)
    ensures k <= |q| && (k < |q| ==> q[k] in takes) && forall i | 0 <= i < k :: q[i] !in takes
  {
    if q == [] || q[0] in takes then 0 else 1 + FirstTaken(q[1..], takes)
  }

  /** The first k frames lost, the next one, if there is one, sent. */
  function Launched(s: Stage, k: nat): Stage
    requires k <= |s.queue|
  {
    var t := s.(lost := s.lost + s.queue[..k]);
    if k < |s.queue| then t.(queue := s.queue[k + 1..], sent := s.sent + [s.queue[k]])
    else t.(queue := [], doing := false)
  }

  /** The loop loses the frames before the first one taken and stops there. */
  lemma {:induction false} LaunchTakesFirst(s: Stage, takes: set<Frame>)
    ensures Launch(s, takes) == Launched(s, FirstTaken(s.queue, takes))
    decreases |s.queue|
  {
    if s.queue == [] || s.queue[0] in takes {
      assert s.lost + s.queue[..0] == s.lost;
    } else {
      var t := s.(queue := s.queue[1..], lost := s.lost + [s.queue[0]]);
      LaunchTakesFirst(t, takes);
      LaunchedNext(s, t, FirstTaken(t.queue, takes));
    }
  }

  lemma LaunchedNext(s: Stage, t: Stage, k: nat)
    requires s.queue != [] && t == s.(queue := s.queue[1..], lost := s.lost + [s.queue[0]]) && k <= |t.queue|
    ensures Launched(t, k) == Launched(s, k + 1)
  {
    assert t.lost + t.queue[..k] == s.lost + s.queue[..k + 1];
  }

  // ----- the invariant -----------------------------------------------------------

  ghost predicate Ascending(ids: seq<Frame>) { forall i, j | 0 <= i < j < |ids| :: ids[i] < ids[j] }

  /** The frame with the daemon, as far as the flag knows. */
  function Out(s: Stage): seq<Frame> { if s.doing && s.sent != [] then s.sent[|s.sent| - 1..] else [] }

  /** One frame is out when the flag is set, none otherwise; only then does anything wait. */
  ghost predicate OneOut(s: Stage) {
    s.sent == s.back + Out(s) && (if s.doing then s.sent != [] else s.queue == [])
  }

  /** Every frame that arrived is in one place, counted with multiplicity. */
  ghost predicate Conserved(s: Stage) {
    forall x: Frame ::
      multiset(s.arrived)[x] == multiset(s.queue)[x] + multiset(Out(s))[x]
        + multiset(s.encoded)[x] + multiset(s.returned)[x] + multiset(s.lost)[x]
  }

  /** Frames leave the queue in the order in which they came. */
  ghost predicate Ordered(arrived: seq<Frame>, line: seq<Frame>) {
    Ascending(arrived) && Ascending(line) && forall x | x in line :: x in arrived
  }

  ghost predicate Inv(s: Stage) { OneOut(s) && Ordered(s.arrived, s.sent + s.queue) && Conserved(s) }

  /** The newest frame joins the line at its end, or not at all. */
  lemma NewestKeepsOrder(arrived: seq<Frame>, line: seq<Frame>, f: Frame)
    requires Ordered(arrived, line) && forall x | x in arrived :: x < f
    ensures Ordered(arrived + [f], line) && Ordered(arrived + [f], line + [f])
  {
    assert forall i | 0 <= i < |arrived| :: arrived[i] in arrived;
    assert forall i | 0 <= i < |line| :: line[i] in line;
    forall x | x in line + [f] ensures x in arrived + [f] {
      assert x in line || x == f;
    }
    assert forall x | x in line :: x in line + [f];
  }

  lemma ReceiveOrdered(s: Stage, f: Frame, accepted: bool)
    requires OneOut(s) && Ordered(s.arrived, s.sent + s.queue) && Enabled(s, Arrival(f, accepted))
    ensures var t := Receive(s, f, accepted); Ordered(t.arrived, t.sent + t.queue)
  {
    NewestKeepsOrder(s.arrived, s.sent + s.queue, f);
    hide Ordered, Out;
    var t := Receive(s, f, accepted);
    if s.doing || accepted {
      assert t.sent + t.queue == (s.sent + s.queue) + [f];
    }
  }

  lemma ReceiveKeeps(s: Stage, f: Frame, accepted: bool)
    requires Inv(s) && Enabled(s, Arrival(f, accepted))
    ensures Inv(Receive(s, f, accepted))
  {
    ReceiveOrdered(s, f, accepted);
    ReceiveConserves(s, f, accepted);
    hide Enabled, Ordered, Conserved;
  }

  lemma ReceiveConserves(s: Stage, f: Frame, accepted: bool)
    requires OneOut(s) && Conserved(s)
    ensures Conserved(Receive(s, f, accepted))
  {
    var t := Receive(s, f, accepted);
    if !s.doing && accepted {
      assert Out(t) == [f];
    }
    forall x: Frame
      ensures multiset(t.arrived)[x] == multiset(t.queue)[x] + multiset(Out(t))[x]
                + multiset(t.encoded)[x] + multiset(t.returned)[x] + multiset(t.lost)[x]
    {
      assert multiset(t.arrived)[x] == multiset(s.arrived)[x] + (if x == f then 1 else 0);
    }
  }

  /** A report can only be about the one frame that is out. */
  lemma ReportedIsOut(s: Stage, f: Frame, o: Outcome, takes: set<Frame>)
    requires OneOut(s) && Enabled(s, Done(f, o, takes))
    ensures s.doing && Out(s) == [f]
  {
    assert multiset(s.sent) == multiset(s.back) + multiset(Out(s));
    assert multiset(Out(s))[f] > 0;
  }

  /** Between the report and the next request the flag is set with nothing out. */
  ghost predicate Between(s: Stage) {
    && s.sent == s.back && Ordered(s.arrived, s.sent + s.queue)
    && forall x: Frame ::
         multiset(s.arrived)[x] == multiset(s.queue)[x]
           + multiset(s.encoded)[x] + multiset(s.returned)[x] + multiset(s.lost)[x]
  }

  lemma ReportBetween(s: Stage, f: Frame, o: Outcome)
    requires Inv(s) && s.doing && Out(s) == [f]
    ensures Between(Report(s, f, o))
  {
  }

  lemma {:induction false} LaunchKeeps(s: Stage, takes: set<Frame>)
    requires Between(s) && s.doing
    ensures Inv(Launch(s, takes))
    decreases |s.queue|
  {
    if s.queue != [] {
      var f, q := s.queue[0], s.queue[1..];
      assert s.queue == [f] + q;
      if f in takes {
        var t := s.(queue := q, sent := s.sent + [f]);
        assert t.sent + t.queue == s.sent + s.queue;
        assert Out(t) == [f];
      } else {
        var t := s.(queue := q, lost := s.lost + [f]);
        SkipKeepsBetween(s, t);
        LaunchKeeps(t, takes);
      }
    }
  }

  lemma SkipKeepsBetween(s: Stage, t: Stage)
    requires Between(s) && s.queue != [] && t == s.(queue := s.queue[1..], lost := s.lost + [s.queue[0]])
    ensures Between(t)
  {
    var f, q := s.queue[0], s.queue[1..];
    assert s.queue == [f] + q;
    var all, rest := s.sent + s.queue, s.sent + q;
    var n := |s.sent|;
    assert forall i | 0 <= i < |rest| :: rest[i] == all[if i < n then i else i + 1];
  }

  lemma StepKeeps(s: Stage, e: Event)
    requires Inv(s) && Enabled(s, e)
    ensures Inv(Step(s, e))
  {
    match e
    case Arrival(f, accepted) =>
      ReceiveKeeps(s, f, accepted);
    case Done(f, o, takes) =>
      ReportedIsOut(s, f, o, takes);
      ReportBetween(s, f, o);
      LaunchKeeps(Report(s, f, o), takes);
  }

  lemma {:induction false} RunKeeps(s: Stage, es: seq<Event>)
    requires Inv(s) && Legal(s, es)
    ensures Inv(Run(s, es))
    decreases |es|
  {
    hide Inv, Enabled, Step;
    if es != [] {
      StepKeeps(s, es[0]);
      RunKeeps(Step(s, es[0]), es[1..]);
    }
  }

  // ----- what every run keeps ------------------------------------------------------

  /**
   The flag is set exactly when one frame is with the daemon, never more than
   one; something waits only then; and frames go to the daemon in arrival order.
   */
  lemma OneAtATime(es: seq<Event>)
    requires Legal(Idle, es)
    ensures var s := Run(Idle, es);
            && s.back <= s.sent && |s.sent| == |s.back| + (if s.doing then 1 else 0)
            && (s.queue != [] ==> s.doing)
            && Ascending(s.sent + s.queue)
  {
    RunKeeps(Idle, es);
  }

  /** Each frame is waiting, with the daemon, encoded, given back or lost: once, and in one place only. */
  lemma EachFrameOnce(es: seq<Event>, x: Frame)
    requires Legal(Idle, es)
    ensures var s := Run(Idle, es);
            && s.back <= s.sent
            && multiset(s.queue)[x] + multiset(s.sent[|s.back|..])[x] + multiset(s.encoded)[x]
                 + multiset(s.returned)[x] + multiset(s.lost)[x] == (if x in s.arrived then 1 else 0)
  {
    OneAtATime(es);
    RunKeeps(Idle, es);
    var s := Run(Idle, es);
    assert s.sent[|s.back|..] == Out(s);
    OccursOnce(s.arrived, x);
  }

  lemma OccursOnce(ids: seq<Frame>, x: Frame)
    requires Ascending(ids)
    ensures multiset(ids)[x] == if x in ids then 1 else 0
  {
    if ids != [] {
      var n := |ids| - 1;
      var before := ids[..n];
      assert ids == before + [ids[n]];
      OccursOnce(before, x);
      if x == ids[n] {
        assert x !in before;
      }
    }
  }

  // ----- what becomes of each frame ---------------------------------------------------

  /** The event reports its frame as encoded. */
  predicate ReportsEncoded(e: Event) { e.Done? && e.o == Encoded }

  /** The frame of the event is given back to the driver: its encoding failed, or nothing was out and it was refused. */
  predicate GivesBack(s: Stage, e: Event) { if e.Done? then e.o == EncodeFailed else !s.doing && !e.accepted }

  /**
   One event: its frame, if any, joins the encoded or the returned ones, and a
   done-event loses its frame if it does not name it, and after it the waiting
   frames before the first that the daemon takes.
   */
  lemma FatesExactly(s: Stage, e: Event)
    ensures var t := Step(s, e);
            && t.encoded == (if ReportsEncoded(e) then s.encoded + [e.f] else s.encoded)
            && t.returned == (if GivesBack(s, e) then s.returned + [e.f] else s.returned)
            && (e.Arrival? ==> t.lost == s.lost)
            && (e.Done? ==>
                  var k := FirstTaken(s.queue, e.takes);
                  && t.lost == (if e.o == NoCookie then s.lost + [e.f] else s.lost) + s.queue[..k]
                  && t.sent == (if k < |s.queue| then s.sent + [s.queue[k]] else s.sent)
                  && t.queue == (if k < |s.queue| then s.queue[k + 1..] else []))
  {
    if e.Done? {
      LaunchTakesFirst(Report(s, e.f, e.o), e.takes);
    }
  }

  /** The frames reported as encoded, in the order of the reports. */
  function EncodedReports(es: seq<Event>): seq<Frame> {
    if es == [] then []
    else if ReportsEncoded(es[0]) then [es[0].f] + EncodedReports(es[1..])
    else EncodedReports(es[1..])
  }

  /** The frames given back in a run, in order. */
  function GivenBack(s: Stage, es: seq<Event>): seq<Frame>
    decreases |es|
  {
    if es == [] then []
    else
      var rest := GivenBack(Step(s, es[0]), es[1..]);
      if GivesBack(s, es[0]) then [es[0].f] + rest else rest
  }

  /** In every run exactly the frames reported as encoded are encoded, and the others given back, each in that order. */
  lemma {:induction false} FatesInOrder(s: Stage, es: seq<Event>)
    ensures Run(s, es).encoded == s.encoded + EncodedReports(es)
    ensures Run(s, es).returned == s.returned + GivenBack(s, es)
    decreases |es|
  {
    hide Step, ReportsEncoded, GivesBack;
    if es != [] {
      FatesExactly(s, es[0]);
      FatesInOrder(Step(s, es[0]), es[1..]);
    }
  }

  // ----- frames nobody gives back ----------------------------------------------------

  /** Every report carries its frame, and the daemon takes the oldest frame that waits. */
  ghost predicate Smooth(s: Stage, es: seq<Event>)
    decreases |es|
  {
    es == [] || (SmoothStep(s, es[0]) && Smooth(Step(s, es[0]), es[1..]))
  }

  ghost predicate SmoothStep(s: Stage, e: Event) {
    e.Done? ==> e.o != NoCookie && (s.queue == [] || s.queue[0] in e.takes)
  }

  lemma LosesExactly(s: Stage, e: Event)
    ensures s.lost <= Step(s, e).lost
    ensures Step(s, e).lost == s.lost <==> SmoothStep(s, e)
  {
    if e.Done? {
      LaunchTakesFirst(Report(s, e.f, e.o), e.takes);
    }
  }

  lemma {:induction false} LostGrows(s: Stage, es: seq<Event>)
    ensures s.lost <= Run(s, es).lost
    decreases |es|
  {
    if es != [] {
      LosesExactly(s, es[0]);
      LostGrows(Step(s, es[0]), es[1..]);
    }
  }

  /**
   A refusal on arrival gives the frame back to the driver, a refusal in the
   launch loop only frees it: a run loses no frame exactly when every relaunch
   is accepted at the first try and every report names its frame.
   */
  lemma {:induction false} NothingLostExactly(s: Stage, es: seq<Event>)
    ensures Run(s, es).lost == s.lost <==> Smooth(s, es)
    decreases |es|
  {
    if es != [] {
      LosesExactly(s, es[0]);
      LostGrows(Step(s, es[0]), es[1..]);
      NothingLostExactly(Step(s, es[0]), es[1..]);
    }
  }

  /** Two frames, and a relaunch that is refused for the second: it is lost. */
  lemma RefusedRelaunchLoses(accepted: bool)
    ensures var es := [Arrival(0, true), Arrival(1, accepted), Done(0, Encoded, {})];
            && Legal(Idle, es)
            && var s := Run(Idle, es);
               !s.doing && s.encoded == [0] && s.returned == [] && s.lost == [1]
  {
    var a, b, c := Arrival(0, true), Arrival(1, accepted), Done(0, Encoded, {});
    var s1 := Step(Idle, a);
    var s2 := Step(s1, b);
    RunNext(Idle, a, [b, c]);
    RunNext(s1, b, [c]);
    RunNext(s2, c, []);
    var t := Report(s2, 0, Encoded);
    assert s2.sent == [0] && s2.back == [] && t.queue == [1];
    LaunchTakesFirst(t, {});
  }

  lemma RunNext(s: Stage, e: Event, rest: seq<Event>)
    ensures Run(s, [e] + rest) == Run(Step(s, e), rest)
    ensures Legal(s, [e] + rest) <==> Enabled(s, e) && Legal(Step(s, e), rest)
  {
    assert ([e] + rest)[1..] == rest;
  }

  // ----- the class -----------------------------------------------------------------

  class DenoiseStage {
    const queue: StreamQueue<Frame>
    var doing: bool
    ghost var log: Stage

    /** The code's fields with the history of the frames. */
    ghost function State(): Stage
      reads this, queue
    {
      log.(doing := doing, queue := queue.container)
    }

    constructor ()
      ensures queue.initialized && fresh(queue) && State() == Idle
    {
      queue := new StreamQueue();
      doing, log := false, Idle;
      new;
      queue.Init();
    }

    method ReceiveRaw(f: Frame, accepted: bool)
      requires queue.initialized
      modifies this, queue
      ensures queue.initialized && State() == Receive(old(State()), f, accepted)
    {
      log := log.(arrived := log.arrived + [f]);
      if doing {
        var ok := queue.Enqueue(f);
      } else {
        doing := true;
        if accepted {
          log := log.(sent := log.sent + [f]);
        } else {
          doing := false;
          log := log.(returned := log.returned + [f]);
        }
      }
    }

    method NotifyDone(f: Frame, o: Outcome, takes: set<Frame>)
      requires queue.initialized
      modifies this, queue
      ensures queue.initialized && State() == Step(old(State()), Done(f, o, takes))
    {
      log := Report(log, f, o);
      LaunchNext(takes);
    }

    method LaunchNext(takes: set<Frame>)
      requires queue.initialized
      modifies this, queue
      ensures queue.initialized && State() == Launch(old(State()), takes)
    {
      ghost var before := State();
      while true
        invariant queue.initialized && Launch(State(), takes) == Launch(before, takes)
        decreases |queue.container|
      {
        if queue.IsEmpty() {
          doing := false;
          break;
        }
        var f := queue.Dequeue();
        if f in takes {
          log := log.(sent := log.sent + [f]);
          break;
        }
        log := log.(lost := log.lost + [f]);
      }
    }
  }
}
