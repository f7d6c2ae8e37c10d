/**
 Encoding bursts of pictures: frames arrive from the camera, done-events arrive
 from the encoder, and a new request resets the counters, in any order the
 threads produce.
 */
module JpegBursts {
  import opened StreamQueues

  type Frame = nat

  datatype Phase = Capturing | Encoding | EncodeDone | Complete

  datatype Call = Start(frame: Frame) | EncodeNext(frame: Frame) | Finish

  datatype Job = NoJob | Job(frame: Frame)

  /** A burst of n pictures, with the calls made to the encoder and the frames given back so far. */
  datatype Burst = Burst(
    n: int, phase: Phase, received: nat, queue: seq<Frame>, current: Job, calls: seq<Call>, freed: seq<Frame>)

  function Begin(n: int): Burst { Burst(n, Capturing, 0, [], NoJob, [], []) }

  // ----- steps ---------------------------------------------------------------

  /** encodeData: queue the frame, or continue the encoder session, or open it. */
  function Encode(b: Burst, frame: Frame, enqueued: bool): Burst {
    if b.phase == Encoding || (b.queue != [] && !enqueued) then b.(queue := b.queue + [frame])
    else if enqueued || (b.received != b.n && b.received != 0) then
      b.(calls := b.calls + [EncodeNext(frame)], current := Job(frame), phase := Encoding)
    else
      b.(calls := b.calls + [Start(frame)], current := Job(frame), phase := Encoding)
  }

  /** receiveCompleteJpegPicture: free the frame, then take the next one, or finish, or wait. */
  function JpegDone(b: Burst): Burst {
    var t := b.(phase := EncodeDone, received := b.received + 1, current := NoJob,
                freed := if b.current.Job? then b.freed + [b.current.frame] else b.freed);
    if t.queue != [] then Encode(t.(queue := t.queue[1..]), t.queue[0], true)
    else if t.n == t.received then t.(phase := Complete, received := 0, calls := t.calls + [Finish])
    else t
  }

  datatype Event = Arrival(frame: Frame) | Done | Reset(n: int)

  /** A request for pictures announces how many and starts counting again, whatever is under way. */
  function Step(b: Burst, e: Event): Burst {
    match e
    case Arrival(frame) => Encode(b, frame, false)
    case Done => JpegDone(b)
    case Reset(n) => b.(n := n, received := 0)
  }

  function Run(b: Burst, es: seq<Event>): Burst
    decreases |es|
  {
    if es == [] then b else Run(Step(b, es[0]), es[1..])
  }

  function Arrivals(es: seq<Event>): seq<Frame> {
    if es == [] then []
    else if es[0].Arrival? then [es[0].frame] + Arrivals(es[1..])
    else Arrivals(es[1..])
  }

  function Dones(es: seq<Event>): nat {
    if es == [] then 0 else (if es[0].Done? then 1 else 0) + Dones(es[1..])
  }

  predicate NoReset(es: seq<Event>) { forall i | 0 <= i < |es| :: !es[i].Reset? }

  /** The encoder reports only frames it has. */
  ghost predicate Legal(b: Burst, es: seq<Event>)
    decreases |es|
  {
    es == [] || ((es[0].Done? ==> b.phase == Encoding) && Legal(Step(b, es[0]), es[1..]))
  }

  // ----- the order of the frames, in every run ---------------------------------

  /** The frames passed to the encoder. */
  function Sent(calls: seq<Call>): seq<Frame> {
    if calls == [] then []
    else
      var c, before := calls[|calls| - 1], Sent(calls[..|calls| - 1]);
      if c == Finish then before else before + [c.frame]
  }

  lemma SentNext(calls: seq<Call>, c: Call)
    ensures Sent(calls + [c]) == if c == Finish then Sent(calls) else Sent(calls) + [c.frame]
  {
    assert (calls + [c])[..|calls|] == calls;
  }

  function Busy(b: Burst): nat { if b.phase == Encoding then 1 else 0 }

  /**
   `a` are the frames that have arrived, `d` the done-events so far.  The first d
   frames are encoded and freed, the next one is in the encoder while it is
   busy, and the rest wait in order.
   */
  ghost predicate Inv(b: Burst, a: seq<Frame>, d: nat) {
    && d + Busy(b) <= |a|
    && b.queue == a[d + Busy(b)..]
    && b.current == (if b.phase == Encoding then Job(a[d]) else NoJob)
    && b.freed == a[..d]
    && Sent(b.calls) == a[..d + Busy(b)]
    && (b.phase != Encoding ==> b.queue == [])
  }

  /** The encoder is given the next frame: it is the d-th, and what is behind it waits. */
  lemma NextSent(b: Burst, t: Burst, c: Call, a: seq<Frame>, d: nat)
    requires d < |a| && c != Finish && c.frame == a[d] && Sent(b.calls) == a[..d]
    requires t.calls == b.calls + [c] && t.phase == Encoding && t.current == Job(a[d])
    requires t.queue == a[d + 1..] && t.freed == a[..d]
    ensures Inv(t, a, d)
  {
    SentNext(b.calls, c);
    assert a[..d + 1] == a[..d] + [a[d]];
    hide Sent;
  }

  lemma ArrivalKeeps(b: Burst, a: seq<Frame>, d: nat, f: Frame)
    requires Inv(b, a, d)
    ensures Inv(Encode(b, f, false), a + [f], d)
  {
    hide Sent;
    var t, all := Encode(b, f, false), a + [f];
    assert all[..d] == a[..d];
    if b.phase == Encoding {
      assert all[d + 1..] == a[d + 1..] + [f] && all[..d + 1] == a[..d + 1];
    } else {
      assert a == a[..d] && all[d + 1..] == [];
      NextSent(b, t, t.calls[|b.calls|], all, d);
    }
  }

  lemma DoneKeeps(b: Burst, a: seq<Frame>, d: nat)
    requires Inv(b, a, d) && b.phase == Encoding
    ensures Inv(JpegDone(b), a, d + 1)
  {
    hide Sent;
    var t := JpegDone(b);
    assert a[..d + 1] == a[..d] + [a[d]];
    if b.queue != [] {
      assert b.queue[1..] == a[d + 2..] && b.queue[0] == a[d + 1];
      NextSent(b, t, EncodeNext(a[d + 1]), a, d + 1);
    } else {
      SentNext(b.calls, Finish);
    }
  }

  /** The frames that have arrived and the done-events so far, after one more event. */
  function ArrivedAfter(a: seq<Frame>, e: Event): seq<Frame> { if e.Arrival? then a + [e.frame] else a }
  function DoneAfter(d: nat, e: Event): nat { if e.Done? then d + 1 else d }

  lemma StepKeeps(b: Burst, a: seq<Frame>, d: nat, e: Event)
    requires Inv(b, a, d) && (e.Done? ==> b.phase == Encoding)
    ensures Inv(Step(b, e), ArrivedAfter(a, e), DoneAfter(d, e))
  {
    match e
    case Arrival(f) =>
      ArrivalKeeps(b, a, d, f);
      hide Inv;
    case Done =>
      DoneKeeps(b, a, d);
      hide Inv;
    case Reset(n) =>
  }

  lemma ArrivalsNext(a: seq<Frame>, es: seq<Event>)
    requires es != []
    ensures a + Arrivals(es) == ArrivedAfter(a, es[0]) + Arrivals(es[1..])
  {
    var rest := Arrivals(es[1..]);
    if es[0].Arrival? {
      assert Arrivals(es) == [es[0].frame] + rest;
      assert a + ([es[0].frame] + rest) == (a + [es[0].frame]) + rest;
    }
  }

  lemma {:induction false} RunKeeps(b: Burst, a: seq<Frame>, d: nat, es: seq<Event>)
    requires Inv(b, a, d) && Legal(b, es)
    ensures Inv(Run(b, es), a + Arrivals(es), d + Dones(es))
    decreases |es|
  {
    hide Inv, Step;
    if es == [] {
      assert a + Arrivals(es) == a;
    } else {
      ArrivalsNext(a, es);
      StepKeeps(b, a, d, es[0]);
      RunKeeps(Step(b, es[0]), ArrivedAfter(a, es[0]), DoneAfter(d, es[0]), es[1..]);
    }
  }

  lemma AlwaysKept(n: int, es: seq<Event>)
    requires Legal(Begin(n), es)
    ensures Inv(Run(Begin(n), es), Arrivals(es), Dones(es))
  {
    assert [] + Arrivals(es) == Arrivals(es);
    RunKeeps(Begin(n), [], 0, es);
  }

  /**
   At every point of every interleaving of arrivals, done-events and resets: the
   encoder has been given the first frames in arrival order, each once, and has at
   most one; exactly the frames it is done with have been freed, so no current
   frame was ever overwritten; and a waiting frame implies a busy encoder.
   */
  lemma AlwaysInOrder(n: int, es: seq<Event>)
    requires Legal(Begin(n), es)
    ensures var b, a, d := Run(Begin(n), es), Arrivals(es), Dones(es);
            && d + Busy(b) <= |a|
            && Sent(b.calls) == a[..d + Busy(b)] && b.queue == a[d + Busy(b)..] && b.freed == a[..d]
            && (b.current == if b.phase == Encoding then Job(a[d]) else NoJob)
            && (b.queue != [] ==> b.phase == Encoding)
  {
    AlwaysKept(n, es);
    hide Run, Legal, Arrivals, Dones, Sent;
  }

  /** With the open frames in `open`, oldest first: the call that an event makes, if it makes one. */
  function NextCall(b: Burst, open: seq<Frame>, e: Event): seq<Call> {
    match e
    case Arrival(f) => if open != [] then [] else if b.received in {0, b.n} then [Start(f)] else [EncodeNext(f)]
    case Done => if |open| > 1 then [EncodeNext(open[1])] else if b.n == b.received + 1 then [Finish] else []
    case Reset(_) => []
  }

  /**
   In every run, overlapping requests included: a frame that finds another open
   waits; one that does not opens a session when no picture has been counted since
   the request, or as many as it asked for, and otherwise continues it; a done-event
   sends the next open frame, or finishes the session at the last picture counted.
   */
  lemma CallsExactly(n: int, es: seq<Event>, e: Event)
    requires Legal(Begin(n), es) && (e.Done? ==> Run(Begin(n), es).phase == Encoding)
    ensures var b, a, d := Run(Begin(n), es), Arrivals(es), Dones(es);
            var t := Step(b, e);
            && d <= |a| && t.calls == b.calls + NextCall(b, a[d..], e)
            && (var finish := e.Done? && |a| - d == 1 && b.n == b.received + 1;
                && t.received == (if finish || e.Reset? then 0 else DoneAfter(b.received, e))
                && (t.phase == Complete <==> finish || (e.Reset? && b.phase == Complete)))
  {
    AlwaysKept(n, es);
    hide Run, Legal, Arrivals, Dones;
    NextCallMade(Run(Begin(n), es), Arrivals(es), Dones(es), e);
  }

  lemma NextCallMade(b: Burst, a: seq<Frame>, d: nat, e: Event)
    requires Inv(b, a, d) && (e.Done? ==> b.phase == Encoding)
    ensures var t := Step(b, e);
            && t.calls == b.calls + NextCall(b, a[d..], e)
            && (var finish := e.Done? && |a| - d == 1 && b.n == b.received + 1;
                && t.received == (if finish || e.Reset? then 0 else DoneAfter(b.received, e))
                && (t.phase == Complete <==> finish || (e.Reset? && b.phase == Complete)))
  {
    hide Sent;
    assert b.calls + [] == b.calls;
    if b.queue != [] {
      assert b.queue[0] == a[d + 1] == a[d..][1];
    }
  }

  // ----- the calls of one burst ------------------------------------------------

  function Nexts(frames: seq<Frame>): seq<Call> {
    seq(|frames|, i requires 0 <= i < |frames| => EncodeNext(frames[i]))
  }

  /** One start, then one encode-next a frame, then one finish when the burst is complete. */
  function Plan(frames: seq<Frame>, finished: bool): seq<Call> {
    var session := if frames == [] then [] else [Start(frames[0])] + Nexts(frames[1..]);
    if finished then session + [Finish] else session
  }

  lemma PlanNext(frames: seq<Frame>, f: Frame)
    requires frames != []
    ensures Plan(frames + [f], false) == Plan(frames, false) + [EncodeNext(f)]
  {
    assert (frames + [f])[1..] == frames[1..] + [f];
    assert Nexts(frames[1..] + [f]) == Nexts(frames[1..]) + [EncodeNext(f)];
  }

  /** What a request finds: how many frames have arrived, all of them done; the calls made; and the phase. */
  datatype Found = Found(frames: nat, calls: seq<Call>, phase: Phase)

  /** The calls made since follow the plan, and the count and the phase tell how far it is carried out. */
  ghost predicate Progress(b: Burst, o: Found, a: seq<Frame>, d: nat) {
    && o.frames <= d && d + Busy(b) <= |a|
    && b.calls == o.calls + Plan(a[o.frames..d + Busy(b)], d - o.frames == b.n)
    && b.received == (if d - o.frames == b.n then 0 else d - o.frames)
    && (if d + Busy(b) == o.frames then b.phase == o.phase else b.phase == Complete <==> d - o.frames == b.n)
  }

  ghost predicate Planned(b: Burst, o: Found, a: seq<Frame>, d: nat) { Inv(b, a, d) && Progress(b, o, a, d) }

  /** The next frame after those of a request: it opens the session, or continues it. */
  lemma PlanGrows(base: seq<Call>, frames: seq<Frame>, f: Frame)
    ensures base + Plan(frames + [f], false)
         == (base + Plan(frames, false)) + [if frames == [] then Start(f) else EncodeNext(f)]
  {
    if frames == [] {
      assert [f][1..] == [];
      assert Plan([f], false) == [Start(f)];
    } else {
      PlanNext(frames, f);
    }
  }

  lemma ArrivalPlanned(b: Burst, o: Found, a: seq<Frame>, d: nat, f: Frame)
    requires Planned(b, o, a, d) && |a| - o.frames < b.n
    ensures Planned(Encode(b, f, false), o, a + [f], d)
  {
    hide Inv, Encode, Progress;
    ArrivalKeeps(b, a, d, f);
    Waiting(b, a, d);
    if b.phase == Encoding {
      Waits(b, o, a, d, f);
    } else {
      Opens(b, o, a, f);
    }
  }

  lemma Waiting(b: Burst, a: seq<Frame>, d: nat)
    requires Inv(b, a, d)
    ensures if b.phase == Encoding then d < |a| && b.queue == a[d + 1..] else d == |a| && b.queue == []
  {
    hide Sent;
  }

  lemma Waits(b: Burst, o: Found, a: seq<Frame>, d: nat, f: Frame)
    requires Progress(b, o, a, d) && b.phase == Encoding
    ensures Progress(Encode(b, f, false), o, a + [f], d)
  {
    assert (a + [f])[o.frames..d + 1] == a[o.frames..d + 1];
    hide Plan;
  }

  lemma Opens(b: Burst, o: Found, a: seq<Frame>, f: Frame)
    requires Progress(b, o, a, |a|) && b.phase != Encoding && b.queue == [] && |a| - o.frames < b.n
    ensures Progress(Encode(b, f, false), o, a + [f], |a|)
  {
    hide Encode, Plan;
    var k, d := o.frames, |a|;
    assert (a + [f])[k..d + 1] == a[k..d] + [f];
    PlanGrows(o.calls, a[k..d], f);
    Opened(b, f, d == k);
  }

  /** A frame that finds nothing open: the count tells whether it is the first one of the request. */
  lemma Opened(b: Burst, f: Frame, first: bool)
    requires b.phase != Encoding && b.queue == [] && (b.received == 0 <==> first) && b.received != b.n
    ensures var t := Encode(b, f, false);
            && t.calls == b.calls + [if first then Start(f) else EncodeNext(f)]
            && t.phase == Encoding && t.received == b.received && t.n == b.n
  {
  }

  lemma PlanFinished(base: seq<Call>, frames: seq<Frame>)
    ensures base + Plan(frames, true) == (base + Plan(frames, false)) + [Finish]
  {
  }

  lemma DonePlanned(b: Burst, o: Found, a: seq<Frame>, d: nat)
    requires Planned(b, o, a, d) && b.phase == Encoding && |a| - o.frames <= b.n
    ensures Planned(JpegDone(b), o, a, d + 1)
  {
    hide Inv, JpegDone, Progress;
    DoneKeeps(b, a, d);
    Waiting(b, a, d);
    if b.queue != [] {
      Continues(b, o, a, d);
    } else {
      Closes(b, o, a);
    }
  }

  lemma Continues(b: Burst, o: Found, a: seq<Frame>, d: nat)
    requires Progress(b, o, a, d) && b.phase == Encoding && |a| - o.frames <= b.n
    requires b.queue == a[d + 1..] && b.queue != []
    ensures Progress(JpegDone(b), o, a, d + 1)
  {
    hide Plan;
    assert b.queue[0] == a[d + 1] && a[o.frames..d + 2] == a[o.frames..d + 1] + [a[d + 1]];
    PlanGrows(o.calls, a[o.frames..d + 1], a[d + 1]);
  }

  lemma Closes(b: Burst, o: Found, a: seq<Frame>)
    requires |a| > 0 && Progress(b, o, a, |a| - 1) && b.phase == Encoding && |a| - o.frames <= b.n && b.queue == []
    ensures Progress(JpegDone(b), o, a, |a|)
  {
    hide Plan;
    assert a[o.frames..] == a[o.frames..|a|];
    PlanFinished(o.calls, a[o.frames..]);
  }

  lemma StepPlanned(b: Burst, o: Found, a: seq<Frame>, d: nat, e: Event)
    requires Planned(b, o, a, d) && !e.Reset? && (e.Done? ==> b.phase == Encoding)
    requires |ArrivedAfter(a, e)| - o.frames <= b.n
    ensures Planned(Step(b, e), o, ArrivedAfter(a, e), DoneAfter(d, e)) && Step(b, e).n == b.n
  {
    match e
    case Arrival(f) =>
      ArrivalPlanned(b, o, a, d, f);
      hide Planned;
    case Done =>
      DonePlanned(b, o, a, d);
      hide Planned;
  }

  lemma {:induction false} RunPlanned(b: Burst, o: Found, a: seq<Frame>, d: nat, es: seq<Event>)
    requires Planned(b, o, a, d) && Legal(b, es) && NoReset(es) && |a + Arrivals(es)| - o.frames <= b.n
    ensures Planned(Run(b, es), o, a + Arrivals(es), d + Dones(es)) && Run(b, es).n == b.n
    decreases |es|
  {
    hide Planned, Step;
    if es == [] {
      assert a + Arrivals(es) == a;
    } else {
      ArrivalsNext(a, es);
      StepPlanned(b, o, a, d, es[0]);
      RunPlanned(Step(b, es[0]), o, ArrivedAfter(a, es[0]), DoneAfter(d, es[0]), es[1..]);
    }
  }

  /** A request for m pictures that finds nothing open, and at most m arrivals. */
  lemma RequestFrom(b: Burst, a0: seq<Frame>, m: int, es: seq<Event>)
    requires Inv(b, a0, |a0|) && m >= 1
    requires Legal(Step(b, Reset(m)), es) && NoReset(es) && |Arrivals(es)| <= m
    ensures var t, a, d := Run(Step(b, Reset(m)), es), Arrivals(es), Dones(es);
            && Inv(t, a0 + a, |a0| + d) && d + Busy(t) <= |a|
            && t.calls == b.calls + Plan(a[..d + Busy(t)], d == m)
            && (t.phase == Complete <==> if a == [] then b.phase == Complete else d == m)
  {
    ResetCounts(b, m);
    hide Run, Legal, Arrivals, Dones, NoReset, Plan, Step, Planned, Inv;
    var o, s, a := Found(|a0|, b.calls, b.phase), Step(b, Reset(m)), Arrivals(es);
    JustRequested(b, a0, m);
    assert |a0 + a| - |a0| == |a|;
    RunPlanned(s, o, a0, |a0|, es);
    PlannedAfter(Run(s, es), o, a0, a, Dones(es));
  }

  lemma JustRequested(b: Burst, a0: seq<Frame>, m: int)
    requires Inv(b, a0, |a0|) && m >= 1
    ensures Planned(Step(b, Reset(m)), Found(|a0|, b.calls, b.phase), a0, |a0|)
  {
    StepKeeps(b, a0, |a0|, Reset(m));
    assert Plan(a0[|a0|..|a0|], false) == [];
    hide Plan, Sent;
  }

  lemma PlannedAfter(t: Burst, o: Found, a0: seq<Frame>, a: seq<Frame>, d: nat)
    requires Planned(t, o, a0 + a, |a0| + d) && o.frames == |a0| && t.n >= 1
    ensures Inv(t, a0 + a, |a0| + d)
    ensures d + Busy(t) <= |a| && t.calls == o.calls + Plan(a[..d + Busy(t)], d == t.n)
    ensures t.phase == Complete <==> if a == [] then o.phase == Complete else d == t.n
  {
    hide Plan, Sent;
    assert (a0 + a)[|a0|..|a0| + d + Busy(t)] == a[..d + Busy(t)];
  }

  /**
   After any run that leaves nothing open, a request for m pictures opens its own
   session: at every point of every interleaving of at most m arrivals with
   done-events one start, then encode-nexts, and the finish exactly at the m-th
   picture, have been added to the calls.
   */
  lemma RequestInOrder(n: int, es: seq<Event>, m: int, tail: seq<Event>)
    requires Legal(Begin(n), es) && |Arrivals(es)| == Dones(es) && m >= 1
    requires Legal(Step(Run(Begin(n), es), Reset(m)), tail) && NoReset(tail) && |Arrivals(tail)| <= m
    ensures var b, a, d := Run(Begin(n), es), Arrivals(tail), Dones(tail);
            var t := Run(Step(b, Reset(m)), tail);
            && d + Busy(t) <= |a| && t.calls == b.calls + Plan(a[..d + Busy(t)], d == m)
            && (t.phase == Complete <==> if a == [] then b.phase == Complete else d == m)
  {
    AlwaysKept(n, es);
    hide Run, Legal, Arrivals, Dones, Plan, Step, Inv;
    RequestFrom(Run(Begin(n), es), Arrivals(es), m, tail);
  }

  /** A request for m pictures, and what happens until the next one. */
  datatype Request = Request(m: int, es: seq<Event>)

  /** All m pictures come and are done. */
  ghost predicate Whole(r: Request) { r.m >= 1 && NoReset(r.es) && |Arrivals(r.es)| == Dones(r.es) == r.m }

  function Events(rs: seq<Request>): seq<Event> {
    if rs == [] then [] else [Reset(rs[0].m)] + (rs[0].es + Events(rs[1..]))
  }

  /** For each request one session: a start, encode-nexts, and the finish. */
  function Sessions(rs: seq<Request>): seq<Call> {
    if rs == [] then [] else Plan(Arrivals(rs[0].es), true) + Sessions(rs[1..])
  }

  lemma {:induction false} RunAppend(b: Burst, es: seq<Event>, tail: seq<Event>)
    ensures Run(b, es + tail) == Run(Run(b, es), tail)
    ensures Legal(b, es + tail) <==> Legal(b, es) && Legal(Run(b, es), tail)
    decreases |es|
  {
    if es == [] {
      assert es + tail == tail;
    } else {
      assert (es + tail)[1..] == es[1..] + tail;
      RunAppend(Step(b, es[0]), es[1..], tail);
    }
  }

  lemma {:induction false} SessionsFrom(b: Burst, a0: seq<Frame>, rs: seq<Request>)
    requires Inv(b, a0, |a0|) && Legal(b, Events(rs)) && forall i | 0 <= i < |rs| :: Whole(rs[i])
    ensures Run(b, Events(rs)).calls == b.calls + Sessions(rs)
    decreases |rs|
  {
    hide Inv, Step, Plan, NoReset;
    if rs != [] {
      var r, rest := rs[0], rs[1..];
      var s := Step(b, Reset(r.m));
      RunNext(b, Reset(r.m), r.es + Events(rest));
      RunAppend(s, r.es, Events(rest));
      RequestFrom(b, a0, r.m, r.es);
      var t, a := Run(s, r.es), Arrivals(r.es);
      assert Whole(r) && a[..|a|] == a;
      SessionsFrom(t, a0 + a, rest);
      Regroup(b.calls, Plan(a, true), Sessions(rest));
    }
  }

  lemma Regroup<T>(a: seq<T>, b: seq<T>, c: seq<T>)
    ensures a + b + c == a + (b + c)
  {
  }

  /** Requests that each find nothing open and see all their pictures through are one session each, in order. */
  lemma OneSessionEach(n: int, es: seq<Event>, rs: seq<Request>)
    requires Legal(Begin(n), es) && |Arrivals(es)| == Dones(es)
    requires Legal(Run(Begin(n), es), Events(rs)) && forall i | 0 <= i < |rs| :: Whole(rs[i])
    ensures Run(Run(Begin(n), es), Events(rs)).calls == Run(Begin(n), es).calls + Sessions(rs)
  {
    AlwaysKept(n, es);
    SessionsFrom(Run(Begin(n), es), Arrivals(es), rs);
  }

  lemma BeginPlanned(n: int)
    requires n >= 1
    ensures Planned(Begin(n), Found(0, [], Capturing), [], 0)
  {
  }

  /** The first burst: the same without a request before it. */
  lemma BurstInOrder(n: int, es: seq<Event>)
    requires n >= 1 && Legal(Begin(n), es) && NoReset(es) && |Arrivals(es)| <= n
    ensures var b, a, d := Run(Begin(n), es), Arrivals(es), Dones(es);
            && d + Busy(b) <= |a| && b.calls == Plan(a[..d + Busy(b)], d == n)
            && (b.phase == Complete <==> d == n)
  {
    hide Run, Legal, Arrivals, Dones, NoReset, Sent, Plan, Planned;
    assert [] + Arrivals(es) == Arrivals(es);
    var o := Found(0, [], Capturing);
    BeginPlanned(n);
    RunPlanned(Begin(n), o, [], 0, es);
    PlannedAfter(Run(Begin(n), es), o, [], Arrivals(es), Dones(es));
  }

  /** When all n pictures are done the encoder has seen one start, n - 1 encode-nexts and one finish. */
  lemma FullBurst(n: int, es: seq<Event>)
    requires n >= 1 && Legal(Begin(n), es) && NoReset(es) && |Arrivals(es)| == Dones(es) == n
    ensures var b, a := Run(Begin(n), es), Arrivals(es);
            && b.calls == [Start(a[0])] + Nexts(a[1..]) + [Finish] && |b.calls| == n + 1
            && b.freed == a && b.queue == []
  {
    BurstInOrder(n, es);
    AlwaysInOrder(n, es);
    var a := Arrivals(es);
    assert a[..n] == a;
  }

  // ----- exactly when a finish is issued ------------------------------------------

  function Finishes(calls: seq<Call>): nat {
    if calls == [] then 0
    else Finishes(calls[..|calls| - 1]) + (if calls[|calls| - 1] == Finish then 1 else 0)
  }

  lemma FinishesNext(calls: seq<Call>, c: Call)
    ensures Finishes(calls + [c]) == Finishes(calls) + (if c == Finish then 1 else 0)
  {
    assert (calls + [c])[..|calls|] == calls;
  }

  /**
   With `open` frames arrived and not done: is the m-th done-event of the run
   about the only frame that is then open?
   */
  predicate LastAlone(open: int, es: seq<Event>, m: int)
    decreases |es|
  {
    if es == [] then false
    else match es[0]
      case Arrival(_) => LastAlone(open + 1, es[1..], m)
      case Done => if m == 1 then open == 1 else LastAlone(open - 1, es[1..], m - 1)
      case Reset(_) => false
  }

  lemma {:induction false} NoSuchDone(open: int, es: seq<Event>, m: int)
    requires m <= 0
    ensures !LastAlone(open, es, m)
    decreases |es|
  {
    if es != [] {
      match es[0]
      case Arrival(_) => NoSuchDone(open + 1, es[1..], m);
      case Done => NoSuchDone(open - 1, es[1..], m - 1);
      case Reset(_) =>
    }
  }

  /** The done-event that reaches the count with nothing waiting. */
  predicate Finishing(b: Burst, e: Event) { e.Done? && b.queue == [] && b.n == b.received + 1 }

  /** Only that event issues a finish; any other moves the counter on. */
  lemma StepFinishes(b: Burst, e: Event)
    requires !e.Reset?
    ensures var t := Step(b, e);
            && t.n == b.n
            && Finishes(t.calls) == Finishes(b.calls) + (if Finishing(b, e) then 1 else 0)
            && (!Finishing(b, e) ==> t.received == DoneAfter(b.received, e))
  {
    var t := Step(b, e);
    if t.calls != b.calls {
      FinishesNext(b.calls, t.calls[|b.calls|]);
    }
  }

  lemma {:induction false} FinishesGrow(b: Burst, es: seq<Event>)
    requires NoReset(es)
    ensures Finishes(Run(b, es).calls) >= Finishes(b.calls)
    decreases |es|
  {
    hide Step, Finishes, Finishing;
    if es != [] {
      StepFinishes(b, es[0]);
      FinishesGrow(Step(b, es[0]), es[1..]);
    }
  }

  lemma FinishingExactly(b: Burst, a: seq<Frame>, d: nat, e: Event)
    requires Inv(b, a, d) && (e.Done? ==> b.phase == Encoding)
    ensures Finishing(b, e) <==> e.Done? && |a| - d == 1 && b.n - b.received == 1
  {
  }

  lemma {:induction false} FinishFrom(b: Burst, a: seq<Frame>, d: nat, es: seq<Event>)
    requires Inv(b, a, d) && Legal(b, es) && NoReset(es)
    ensures Finishes(Run(b, es).calls) > Finishes(b.calls) <==> LastAlone(|a| - d, es, b.n - b.received)
    decreases |es|
  {
    hide Inv, Step, Finishes, Finishing;
    if es != [] {
      var t := Step(b, es[0]);
      StepKeeps(b, a, d, es[0]);
      StepFinishes(b, es[0]);
      FinishingExactly(b, a, d, es[0]);
      FinishesGrow(t, es[1..]);
      FinishFrom(t, ArrivedAfter(a, es[0]), DoneAfter(d, es[0]), es[1..]);
      if es[0].Done? && b.n - b.received == 1 {
        NoSuchDone(|a| - d - 1, es[1..], 0);
      }
    }
  }

  /**
   After any run and a request for m pictures, and until the next request: a
   finish is issued if and only if, at the m-th done-event, the frame it reports
   is the only one that has arrived and is not done.  Frames still open when the
   request comes count.
   */
  lemma FinishExactly(n: int, es: seq<Event>, m: int, tail: seq<Event>)
    requires Legal(Begin(n), es) && Legal(Step(Run(Begin(n), es), Reset(m)), tail) && NoReset(tail)
    ensures var b := Step(Run(Begin(n), es), Reset(m));
            Finishes(Run(b, tail).calls) > Finishes(b.calls) <==> LastAlone(|Arrivals(es)| - Dones(es), tail, m)
  {
    AlwaysKept(n, es);
    hide Inv, Step;
    var b := Run(Begin(n), es);
    StepKeeps(b, Arrivals(es), Dones(es), Reset(m));
    ResetCounts(b, m);
    FinishFrom(Step(b, Reset(m)), Arrivals(es), Dones(es), tail);
  }

  lemma ResetCounts(b: Burst, m: int)
    ensures Step(b, Reset(m)).n == m && Step(b, Reset(m)).received == 0
  {
  }

  /** Two requests for one picture, the second while the first is encoded: both are done, and no finish is issued. */
  lemma SecondRequestUnfinished()
    ensures var es := [Arrival(0), Reset(1), Arrival(1), Done, Done];
            && Legal(Begin(1), es)
            && var b := Run(Begin(1), es);
               b.received == 2 && b.queue == [] && b.phase == EncodeDone && b.calls == [Start(0), EncodeNext(1)]
  {
    var b1 := Step(Begin(1), Arrival(0));
    var b2 := Step(b1, Reset(1));
    var b3 := Step(b2, Arrival(1));
    var b4 := Step(b3, Done);
    RunNext(Begin(1), Arrival(0), [Reset(1), Arrival(1), Done, Done]);
    RunNext(b1, Reset(1), [Arrival(1), Done, Done]);
    RunNext(b2, Arrival(1), [Done, Done]);
    RunNext(b3, Done, [Done]);
    RunNext(b4, Done, []);
    assert b3.queue == [1] && b4.calls == [Start(0), EncodeNext(1)] && b4.queue == [];
  }

  lemma RunNext(b: Burst, e: Event, rest: seq<Event>)
    ensures Run(b, [e] + rest) == Run(Step(b, e), rest)
    ensures Legal(b, [e] + rest) <==> (e.Done? ==> b.phase == Encoding) && Legal(Step(b, e), rest)
  {
    assert ([e] + rest)[1..] == rest;
  }

  // ----- the class -----------------------------------------------------------------

  class SnapshotStream {
    const queue: StreamQueue<Frame>
    var phase: Phase
    var numSnapshot: int
    var numReceived: nat
    var current: Job
    ghost var calls: seq<Call>
    ghost var freed: seq<Frame>

    ghost function State(): Burst
      reads this, queue
    {
      Burst(numSnapshot, phase, numReceived, queue.container, current, calls, freed)
    }

    constructor (n: int)
      ensures queue.initialized && State() == Begin(n) && fresh(queue)
    {
      queue := new StreamQueue();
      phase, numSnapshot, numReceived, current, calls, freed := Capturing, n, 0, NoJob, [], [];
      new;
      queue.Init();
    }

    /** The encoder calls are taken to succeed. */
    method EncodeData(frame: Frame, enqueued: bool)
      requires queue.initialized
      modifies this, queue
      ensures queue.initialized && State() == Encode(old(State()), frame, enqueued)
    {
      if phase == Encoding || (!queue.IsEmpty() && !enqueued) {
        var accepted := queue.Enqueue(frame);
      } else if enqueued || (numReceived != numSnapshot && numReceived != 0) {
        calls := calls + [EncodeNext(frame)];
        current := Job(frame);
        phase := Encoding;
      } else {
        calls := calls + [Start(frame)];
        current := Job(frame);
        phase := Encoding;
      }
    }

    method ReceiveCompleteJpeg()
      requires queue.initialized
      modifies this, queue
      ensures queue.initialized && State() == JpegDone(old(State()))
    {
      if current.Job? {
        freed := freed + [current.frame];
      }
      phase := EncodeDone;
      numReceived := numReceived + 1;
      current := NoJob;
      if !queue.IsEmpty() {
        var frame := queue.Dequeue();
        EncodeData(frame, true);
      } else if numSnapshot == numReceived {
        calls := calls + [Finish];
        phase := Complete;
        queue.Flush();
        numReceived := 0;
      }
    }

    /** resetSnapshotCounters: a number that is not positive counts as one. */
    method ResetCounters(n: int)
      requires queue.initialized
      modifies this`numSnapshot, this`numReceived
      ensures State() == Step(old(State()), Reset(if n <= 0 then 1 else n))
    {
      numSnapshot := n;
      if numSnapshot <= 0 {
        numSnapshot := 1;
      }
      numReceived := 0;
    }

    /** A request in ZSL mode: takePictureZSL reads the number again, as it is. */
    method RequestZsl(n: int)
      requires queue.initialized
      modifies this`numSnapshot, this`numReceived
      ensures State() == Step(old(State()), Reset(n))
    {
      ResetCounters(n);
      numSnapshot := n;
    }
  }
}
