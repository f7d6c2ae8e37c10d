/**
 Preview buffers between the window, the HAL and the driver: which side holds
 each buffer, what the flag of the buffer says, and which frames are displayed.
 */
module PreviewBuffers {
  import opened Runs
  import opened FrameRates

  datatype Flag = NotOwned | Unlocked | Locked

  datatype Owner = Window | Hal | Driver

  /** The descriptor of a delivered frame: its buffer, and which frame it was. */
  datatype Frame = Frame(idx: nat, id: nat)

  /** The high-frame-rate string in the parameters: off, 2x, 3x or 4x, anything else, or not there. */
  datatype Mode = Off | Times(k: Rate) | Other | NoString

  datatype Dequeued = Failed | UnknownHandle | Buffer(i: nat)

  /** What the calls made while one frame is processed answer; the surface is called once or twice. */
  datatype Delivery = Delivery(
    frame: Frame, mode: Mode, skip: bool, unlocks: bool, first: bool, second: bool,
    dequeued: Dequeued, locks: bool, taken: bool)

  /**
   The arrays of the stream and the frame counter; then the holder of each
   buffer, its flag when streaming began, and the history: frames delivered by
   and given back to the driver, frames whose buffer was reported as not locked,
   and for each frame whether it was enqueued for display.
   */
  datatype Preview = Preview(
    flag: seq<Flag>, notify: seq<Frame>, cnt: int, owner: seq<Owner>, start: seq<Flag>,
    delivered: seq<Frame>, back: seq<Frame>, reports: seq<Frame>, shown: seq<bool>)

  // ----- starting the stream --------------------------------------------------------

  /** What the window and the lock answer for one buffer that is acquired, or one that is put back. */
  datatype Got = Got(dequeued: bool, locked: bool, genlocked: bool)
  datatype Answer = Answer(unlocks: bool, cancelled: bool)

  /** A buffer whose lock fails is kept unlocked, and the start goes on. */
  function StartFlags(gs: seq<Got>): seq<Flag> {
    seq(|gs|, i requires 0 <= i < |gs| => if gs[i].genlocked then Locked else Unlocked)
  }

  /** Streaming begins with every buffer given to the driver, locked or not. */
  function Streaming(gs: seq<Got>, notify: seq<Frame>, cnt: int): Preview {
    Preview(StartFlags(gs), notify, cnt, seq(|gs|, _ => Driver), StartFlags(gs), [], [], [], [])
  }

  // ----- one frame ------------------------------------------------------------------

  datatype Surface = Surface(cnt: int, shown: bool, calls: nat)

  /** The frame counter after a frame, whether it goes to the display, and how many calls say so. */
  function Choose(cnt: int, mode: Mode, skip: bool): Surface {
    if !skip || mode == NoString then Surface(cnt, true, 1)
    else match mode
      case Off => Surface(cnt + 1, true, if cnt + 1 == 0 then 2 else 1)
      case Times(k) => Surface(CMod(cnt + 1, k), CMod(cnt + 1, k) == 0, 1)
      case _ => Surface(cnt + 1, cnt + 1 == 0, 1)
  }

  predicate Shaped(p: Preview) { |p.flag| == |p.notify| == |p.owner| == |p.start| }

  /** The driver delivers a buffer it has; the window hands out a buffer it has. */
  predicate Enabled(p: Preview, d: Delivery) {
    && Shaped(p)
    && d.frame.idx < |p.owner| && p.owner[d.frame.idx] == Driver
    && (d.dequeued.Buffer? ==> d.dequeued.i < |p.owner| && ToSurface(p, d).owner[d.dequeued.i] == Window)
  }

  /** The delivered buffer is unlocked, or reported as not locked, and the surface is called. */
  function ToSurface(p: Preview, d: Delivery): Preview
    requires Shaped(p) && d.frame.idx < |p.owner|
  {
    var i, s := d.frame.idx, Choose(p.cnt, d.mode, d.skip);
    var unlocked := if p.flag[i] == Locked && d.unlocks then Unlocked else p.flag[i];
    var ok := if s.calls == 2 then d.second else d.first;
    Preview(p.flag[i := if ok then NotOwned else unlocked], p.notify[i := d.frame], s.cnt,
            p.owner[i := if d.first || ok then Window else Hal], p.start, p.delivered + [d.frame], p.back,
            if p.flag[i] == Locked then p.reports else p.reports + [d.frame], p.shown + [s.shown])
  }

  /** The buffer dequeued for it, locked and given to the driver with the descriptor kept for it. */
  function FromSurface(p: Preview, d: Delivery): Preview
    requires Shaped(p) && (d.dequeued.Buffer? ==> d.dequeued.i < |p.owner|)
  {
    if !d.dequeued.Buffer? then p
    else
      var j := d.dequeued.i;
      if !d.locks then p.(flag := p.flag[j := Unlocked], owner := p.owner[j := Hal])
      else if !d.taken then p.(flag := p.flag[j := Locked], owner := p.owner[j := Hal])
      else p.(flag := p.flag[j := Locked], owner := p.owner[j := Driver], back := p.back + [p.notify[j]])
  }

  /** A delivery that the driver and the window cannot make changes nothing. */
  function Step(p: Preview, d: Delivery): Preview {
    if Enabled(p, d) then FromSurface(ToSurface(p, d), d) else p
  }

  // ----- the invariant --------------------------------------------------------------

  /** The frames of one buffer, in order. */
  function Of(fs: seq<Frame>, i: nat): seq<Frame> {
    if fs == [] then []
    else
      var f, before := fs[|fs| - 1], Of(fs[..|fs| - 1], i);
      if f.idx == i then before + [f] else before
  }

  lemma OfNext(fs: seq<Frame>, f: Frame, i: nat)
    ensures Of(fs + [f], i) == if f.idx == i then Of(fs, i) + [f] else Of(fs, i)
  {
    assert (fs + [f])[..|fs|] == fs;
  }

  function FirstOf(fs: seq<Frame>): seq<Frame> { if fs == [] then [] else fs[..1] }

  /**
   A buffer with the driver has the flag it started with until it is first given
   back, and is locked from then on; of a buffer elsewhere the last frame
   delivered is noted and not yet given back; and a buffer that started unlocked
   is reported for its first frame.
   */
  predicate Accounted(p: Preview, i: nat)
    requires Shaped(p) && i < |p.owner|
  {
    && p.start[i] != NotOwned
    && (p.owner[i] == Driver ==> p.flag[i] == if Of(p.back, i) == [] then p.start[i] else Locked)
    && (p.owner[i] != Driver ==> p.notify[i].idx == i)
    && Of(p.delivered, i) == (if p.owner[i] == Driver then Of(p.back, i) else Of(p.back, i) + [p.notify[i]])
    && Of(p.reports, i) == ReportsDue(p.start[i], Of(p.delivered, i))
  }

  /** What holds whatever the calls answer. */
  ghost predicate Inv(p: Preview) { Shaped(p) && forall i | 0 <= i < |p.owner| :: Accounted(p, i) }

  predicate FlagAgrees(p: Preview, i: nat)
    requires Shaped(p) && i < |p.owner|
  {
    p.flag[i] == NotOwned <==> p.owner[i] == Window
  }

  /** The flag of a buffer says NOT_OWNED exactly when the window holds it. */
  ghost predicate FlagsAgree(p: Preview) { Inv(p) && forall i | 0 <= i < |p.owner| :: FlagAgrees(p, i) }

  /** The counter wraps to zero with the mode off: the buffer is enqueued twice, and the second time fails. */
  predicate Breaks(p: Preview, d: Delivery) {
    && Enabled(p, d) && Choose(p.cnt, d.mode, d.skip).calls == 2 && d.first && !d.second
    && d.dequeued != Buffer(d.frame.idx)
  }

  /** The frames reported for a buffer that starts with flag `start` and of which the frames fs are delivered. */
  function ReportsDue(start: Flag, fs: seq<Frame>): seq<Frame> { if start == Locked then [] else FirstOf(fs) }

  /** A buffer given back has been delivered before, so its flag is the start flag exactly for the first frame. */
  lemma ReportDue(start: Flag, fs: seq<Frame>, f: Frame)
    ensures ReportsDue(start, fs + [f])
         == if start == Locked || fs != [] then ReportsDue(start, fs) else ReportsDue(start, fs) + [f]
  {
  }

  lemma SurfaceAccountsHere(p: Preview, d: Delivery)
    requires Shaped(p) && Enabled(p, d) && Accounted(p, d.frame.idx)
    ensures Accounted(ToSurface(p, d), d.frame.idx)
  {
    var i := d.frame.idx;
    assert p.owner[i] == Driver && Of(p.delivered, i) == Of(p.back, i);
    hide Choose, Enabled;
    OfNext(p.delivered, d.frame, i);
    OfNext(p.reports, d.frame, i);
    ReportDue(p.start[i], Of(p.delivered, i), d.frame);
    hide Of, ReportsDue;
  }

  lemma SurfaceAccountsElsewhere(p: Preview, d: Delivery, i: nat)
    requires Shaped(p) && Enabled(p, d) && i < |p.owner| && i != d.frame.idx && Accounted(p, i)
    ensures Accounted(ToSurface(p, d), i)
  {
    hide Choose;
    OfNext(p.delivered, d.frame, i);
    OfNext(p.reports, d.frame, i);
    hide Of;
  }

  lemma SurfaceAccounts(p: Preview, d: Delivery)
    requires Inv(p) && Enabled(p, d)
    ensures Inv(ToSurface(p, d))
  {
    hide Accounted, Choose;
    var q := ToSurface(p, d);
    assert Accounted(p, d.frame.idx);
    SurfaceAccountsHere(p, d);
    forall i | 0 <= i < |q.owner| && i != d.frame.idx ensures Accounted(q, i) {
      SurfaceAccountsElsewhere(p, d, i);
    }
  }

  lemma ReturnAccounts(p: Preview, d: Delivery)
    requires Inv(p) && (d.dequeued.Buffer? ==> d.dequeued.i < |p.owner| && p.owner[d.dequeued.i] == Window)
    ensures Inv(FromSurface(p, d))
  {
    var q := FromSurface(p, d);
    forall i | 0 <= i < |q.owner| ensures Accounted(q, i) {
      assert Accounted(p, i);
      if d.dequeued.Buffer? {
        assert Accounted(p, d.dequeued.i);
        OfNext(p.back, p.notify[d.dequeued.i], i);
      }
    }
  }

  lemma StepAccounts(p: Preview, d: Delivery)
    requires Inv(p)
    ensures Inv(Step(p, d))
  {
    if Enabled(p, d) {
      SurfaceAccounts(p, d);
      ReturnAccounts(ToSurface(p, d), d);
    }
  }

  lemma DeliveredIsOwned(p: Preview, d: Delivery)
    requires Inv(p) && Enabled(p, d)
    ensures p.flag[d.frame.idx] != NotOwned
  {
    assert Accounted(p, d.frame.idx);
  }

  lemma StepAgrees(p: Preview, d: Delivery)
    requires FlagsAgree(p)
    ensures FlagsAgree(Step(p, d)) <==> !Breaks(p, d)
  {
    StepAccounts(p, d);
    if Enabled(p, d) {
      DeliveredIsOwned(p, d);
      hide Inv, Accounted, Of;
      var t, f := Step(p, d), d.frame.idx;
      assert FlagAgrees(p, f);
      forall i | 0 <= i < |t.owner| && i != f ensures FlagAgrees(t, i) {
        assert FlagAgrees(p, i);
      }
      assert FlagAgrees(t, f) <==> !Breaks(p, d);
    }
  }

  // ----- every run ------------------------------------------------------------------

  lemma StreamingAgrees(gs: seq<Got>, notify: seq<Frame>, cnt: int)
    requires |notify| == |gs|
    ensures FlagsAgree(Streaming(gs, notify, cnt))
  {
    var p := Streaming(gs, notify, cnt);
    assert forall i | 0 <= i < |p.owner| :: Accounted(p, i) && FlagAgrees(p, i);
  }

  lemma {:induction false} RunAccounts(p: Preview, ds: seq<Delivery>)
    requires Inv(p)
    ensures Inv(Run(Step, p, ds)) && Run(Step, p, ds).start == p.start
    decreases |ds|
  {
    if ds != [] {
      StepAccounts(p, ds[0]);
      hide Inv;
      RunAccounts(Step(p, ds[0]), ds[1..]);
    }
  }

  /**
   Whatever the window, the locks and the driver answer: the driver gets the
   descriptors of each buffer back in the order in which it delivered them, each
   once, except the one still outside the driver; and a buffer with the driver is
   locked, unless its lock failed at the start and it has not been given back since.
   */
  lemma GivenBackInOrder(gs: seq<Got>, notify: seq<Frame>, cnt: int, ds: seq<Delivery>, i: nat)
    requires i < |gs| == |notify|
    ensures var p := Run(Step, Streaming(gs, notify, cnt), ds);
            && Shaped(p) && |p.owner| == |gs|
            && Of(p.delivered, i) == (if p.owner[i] == Driver then Of(p.back, i) else Of(p.back, i) + [p.notify[i]])
            && (p.owner[i] == Driver ==> (p.flag[i] == Locked <==> gs[i].genlocked || Of(p.back, i) != []))
  {
    StreamingAgrees(gs, notify, cnt);
    RunAccounts(Streaming(gs, notify, cnt), ds);
    assert Accounted(Run(Step, Streaming(gs, notify, cnt), ds), i);
  }

  /** A buffer is reported as not locked exactly when its lock failed at the start, for its first frame and no other. */
  lemma ReportedExactly(gs: seq<Got>, notify: seq<Frame>, cnt: int, ds: seq<Delivery>, i: nat)
    requires i < |gs| == |notify|
    ensures var p := Run(Step, Streaming(gs, notify, cnt), ds);
            Of(p.reports, i) == if gs[i].genlocked then [] else FirstOf(Of(p.delivered, i))
  {
    StreamingAgrees(gs, notify, cnt);
    RunAccounts(Streaming(gs, notify, cnt), ds);
    assert Accounted(Run(Step, Streaming(gs, notify, cnt), ds), i);
  }

  /** Such a report is made: one buffer, its lock refused, and any first frame. */
  lemma ReportMade(notify: Frame, id: nat, mode: Mode)
    ensures var d := Delivery(Frame(0, id), mode, false, true, true, true, Failed, true, true);
            Step(Streaming([Got(true, true, false)], [notify], 0), d).reports == [Frame(0, id)]
  {
  }

  /**
   The flags say NOT_OWNED exactly for the buffers that the window holds,
   throughout a run, unless a buffer enqueued twice is refused the second time.
   */
  lemma FlagsAgreeExactly(gs: seq<Got>, notify: seq<Frame>, cnt: int, ds: seq<Delivery>)
    requires |notify| == |gs|
    ensures Throughout(FlagsAgree, Step, Streaming(gs, notify, cnt), ds)
       <==> !Somewhere(Breaks, Step, Streaming(gs, notify, cnt), ds)
  {
    StreamingAgrees(gs, notify, cnt);
    forall p, d | FlagsAgree(p) ensures FlagsAgree(Step(p, d)) <==> !Breaks(p, d) {
      StepAgrees(p, d);
    }
    ThroughoutExactly(FlagsAgree, Breaks, Step, Streaming(gs, notify, cnt), ds);
  }

  // ----- which counters lead to a buffer enqueued twice ---------------------------------

  lemma {:induction false} NeverTwice(p: Preview, ds: seq<Delivery>)
    requires p.cnt >= 0
    ensures !Somewhere(Breaks, Step, p, ds)
    decreases |ds|
  {
    if ds != [] {
      NeverTwice(Step(p, ds[0]), ds[1..]);
    }
  }

  /** Frame rate off: the first buffer is displayed and comes straight back, until the counter is about to be zero. */
  function Circling(cnt: int): seq<Delivery>
    requires cnt < 0
    decreases -cnt
  {
    if cnt == -1 then [Delivery(Frame(0, 0), Off, true, true, true, false, Failed, true, true)]
    else [Delivery(Frame(0, 0), Off, true, true, true, true, Buffer(0), true, true)] + Circling(cnt + 1)
  }

  lemma {:induction false} CirclingBreaks(p: Preview)
    requires Shaped(p) && |p.owner| > 0 && p.owner[0] == Driver && p.cnt < 0
    ensures Somewhere(Breaks, Step, p, Circling(p.cnt))
    decreases -p.cnt
  {
    var ds := Circling(p.cnt);
    if p.cnt == -1 {
      assert Breaks(p, ds[0]);
    } else {
      assert ds[1..] == Circling(p.cnt + 1);
      CirclingBreaks(Step(p, ds[0]));
    }
  }

  /** The flags agree in every run exactly when the counter, which nothing initializes, starts at zero or above. */
  lemma AlwaysAgreeExactly(gs: seq<Got>, notify: seq<Frame>, cnt: int)
    requires |notify| == |gs| > 0
    ensures (forall ds :: Throughout(FlagsAgree, Step, Streaming(gs, notify, cnt), ds)) <==> cnt >= 0
  {
    var p := Streaming(gs, notify, cnt);
    if cnt >= 0 {
      forall ds ensures Throughout(FlagsAgree, Step, p, ds) {
        NeverTwice(p, ds);
        FlagsAgreeExactly(gs, notify, cnt, ds);
      }
    } else {
      CirclingBreaks(p);
      FlagsAgreeExactly(gs, notify, cnt, Circling(cnt));
    }
  }

  // ----- one frame in k -----------------------------------------------------------------

  lemma {:induction false} ShownPattern(p: Preview, ds: seq<Delivery>, k: Rate)
    requires forall i | 0 <= i < |ds| :: ds[i].mode == Times(k) && ds[i].skip
    ensures var q := Run(Step, p, ds);
            |p.shown| <= |q.shown| && q.shown == p.shown + Pattern(p.cnt, k, |q.shown| - |p.shown|)
    decreases |ds|
  {
    hide Rem, CMod;
    if ds != [] {
      var t, q := Step(p, ds[0]), Run(Step, p, ds);
      ShownPattern(t, ds[1..], k);
      ShownNext(p, ds[0], k);
      if Enabled(p, ds[0]) {
        hide Pattern, Step;
        PatternNext(p.cnt, k, |q.shown| - |t.shown|);
      }
    }
  }

  lemma ShownNext(p: Preview, d: Delivery, k: Rate)
    requires d.mode == Times(k) && d.skip
    ensures var t := Step(p, d);
            if Enabled(p, d) then t.cnt == CMod(p.cnt + 1, k) && t.shown == p.shown + [t.cnt == 0]
            else t == p
  {
    hide Rem, CMod;
  }

  /** Exactly one of any k consecutive frames is displayed, whatever the counter was at first, below zero included. */
  lemma OneInK(p: Preview, ds: seq<Delivery>, k: Rate, m: nat)
    requires forall i | 0 <= i < |ds| :: ds[i].mode == Times(k) && ds[i].skip
    requires |p.shown| <= m && m + k <= |Run(Step, p, ds).shown|
    ensures var shown := Run(Step, p, ds).shown;
            exists j | m <= j < m + k :: shown[j] && forall i | m <= i < m + k && i != j :: !shown[i]
  {
    hide Pattern;
    ShownPattern(p, ds, k);
    var shown, b := Run(Step, p, ds).shown, |p.shown|;
    var j := OneInPattern(p.cnt, k, |shown| - b, m - b);
    forall i | m <= i < m + k ensures shown[i] <==> i == b + j {
      assert shown[i] == Pattern(p.cnt, k, |shown| - b)[i - b];
    }
    assert shown[b + j];
  }

  /** From a counter at zero or above, every frame is displayed with the mode off, and none with an unknown mode. */
  lemma {:induction false} AllOrNone(p: Preview, ds: seq<Delivery>, mode: Mode)
    requires p.cnt >= 0 && (mode == Off || mode == Other)
    requires forall i | 0 <= i < |ds| :: ds[i].mode == mode && ds[i].skip
    ensures var q := Run(Step, p, ds);
            |p.shown| <= |q.shown| && q.shown == p.shown + seq(|q.shown| - |p.shown|, _ => mode == Off)
    decreases |ds|
  {
    if ds != [] {
      AllOrNone(Step(p, ds[0]), ds[1..], mode);
    }
  }

  /** With frame skipping off, or with no mode in the parameters, the frame is displayed and not counted. */
  lemma PlainFrameShown(p: Preview, d: Delivery)
    requires Enabled(p, d) && (!d.skip || d.mode == NoString)
    ensures Step(p, d).shown == p.shown + [true] && Step(p, d).cnt == p.cnt
  {
  }

  /** In every run of such frames all are displayed, and the counter stays. */
  lemma {:induction false} PlainRunShown(p: Preview, ds: seq<Delivery>)
    requires forall i | 0 <= i < |ds| :: !ds[i].skip || ds[i].mode == NoString
    ensures var q := Run(Step, p, ds);
            && |p.shown| <= |q.shown| && q.cnt == p.cnt
            && q.shown == p.shown + seq(|q.shown| - |p.shown|, _ => true)
    decreases |ds|
  {
    if ds != [] {
      var t := Step(p, ds[0]);
      if Enabled(p, ds[0]) {
        PlainFrameShown(p, ds[0]);
      }
      PlainRunShown(t, ds[1..]);
      hide Step;
      AllTrue(p.shown, t.shown, Run(Step, p, ds).shown);
    }
  }

  lemma AllTrue(a: seq<bool>, b: seq<bool>, c: seq<bool>)
    requires |a| <= |b| <= |c| && (b == a || b == a + [true]) && c == b + seq(|c| - |b|, _ => true)
    ensures c == a + seq(|c| - |a|, _ => true)
  {
  }

  /**
   Which frames of any run are displayed: with skipping on, every one with the
   mode off; one that brings the counter to a multiple of the rate; with an
   unknown mode only one that brings the counter to zero.
   */
  lemma ShownExactly(p: Preview, d: Delivery)
    requires Enabled(p, d)
    ensures var t := Step(p, d);
            && |t.shown| == |p.shown| + 1 && t.shown[..|p.shown|] == p.shown
            && t.delivered == p.delivered + [d.frame]
            && (t.shown[|p.shown|] <==>
                  || !d.skip || d.mode == NoString || d.mode == Off
                  || (d.mode.Times? && Rem(p.cnt + 1, d.mode.k) == 0)
                  || (d.mode == Other && p.cnt == -1))
            && (!d.skip || d.mode == NoString ==> t.cnt == p.cnt)
            && (d.skip && d.mode.Times? ==> t.cnt == CMod(p.cnt + 1, d.mode.k))
            && (d.skip && (d.mode == Off || d.mode == Other) ==> t.cnt == p.cnt + 1)
  {
    if d.mode.Times? {
      CModShifts(p.cnt + 1, 0, d.mode.k);
    }
    hide Rem, CMod;
  }

  /**
   Locks and holders after a frame.  The delivered buffer is with the window when
   one of the calls took it, and otherwise with the HAL, locked only if it was and
   does not unlock; a buffer that comes back is locked if the lock succeeds, and
   with the driver if it takes it as well.
   */
  lemma HeldAfter(p: Preview, d: Delivery)
    requires Enabled(p, d)
    ensures var t, i, j := Step(p, d), d.frame.idx, d.dequeued;
            var twice := d.skip && d.mode == Off && p.cnt == -1;
            && (j != Buffer(i) ==>
                  && t.owner[i] == (if d.first || (twice && d.second) then Window else Hal)
                  && (t.owner[i] == Hal ==>
                        (t.flag[i] == Locked <==> p.flag[i] == Locked && !d.unlocks)))
            && (j.Buffer? ==>
                  && (t.owner[j.i] == Driver <==> d.locks && d.taken)
                  && (t.owner[j.i] == Hal <==> !(d.locks && d.taken))
                  && t.flag[j.i] == (if d.locks then Locked else Unlocked))
            && (forall k | 0 <= k < |p.owner| && k != i && j != Buffer(k) ::
                  t.owner[k] == p.owner[k] && t.flag[k] == p.flag[k])
  {
    hide Rem, CMod;
  }

  // ----- acquiring the buffers and putting them back ---------------------------------------

  /** The first buffer that cannot be had, or the number of buffers. */
  function FirstBad(gs: seq<Got>): (c: nat)
    ensures c <= |gs| && (c < |gs| ==> !(gs[c].dequeued && gs[c].locked))
    ensures forall i | 0 <= i < c :: gs[i].dequeued && gs[i].locked
  {
    if gs == [] || !(gs[0].dequeued && gs[0].locked) then 0 else 1 + FirstBad(gs[1..])
  }

  /** Who holds buffer i after the buffers were to be acquired, all of them with the window before. */
  function Holder(gs: seq<Got>, answers: seq<Answer>, i: nat): Owner
    requires i < |gs| == |answers|
  {
    var c := FirstBad(gs);
    if c == |gs| || (i == c && gs[i].dequeued) || (i < c && !answers[i].cancelled) then Hal else Window
  }

  /** Who holds each buffer after the buffers were to be acquired, buffer by buffer. */
  lemma HeldAfterStart(gs: seq<Got>, answers: seq<Answer>, c: nat, i: nat)
    requires i < |gs| == |answers| && c <= |gs|
    requires (forall k | 0 <= k < c :: gs[k].dequeued && gs[k].locked)
    requires c < |gs| ==> !(gs[c].dequeued && gs[c].locked)
    ensures Holder(gs, answers, i) ==
      if c == |gs| then Hal
      else if i < c then (if answers[i].cancelled then Window else Hal)
      else if i == c && gs[c].dequeued then Hal
      else Window
  {
    BadIsFirst(gs, c);
  }

  /**
   A failed start leaves nothing with the HAL exactly when the window takes back
   every buffer before the failing one, and this one failed to come at all: one
   that came and could not be locked is not cancelled.
   */
  lemma FailedStartLeavesNothing(gs: seq<Got>, answers: seq<Answer>)
    requires |gs| == |answers| && FirstBad(gs) < |gs|
    ensures (forall i | 0 <= i < |gs| :: Holder(gs, answers, i) == Window)
              <==> !gs[FirstBad(gs)].dequeued && (forall i | 0 <= i < FirstBad(gs) :: answers[i].cancelled)
  {
    var c := FirstBad(gs);
    if forall i | 0 <= i < |gs| :: Holder(gs, answers, i) == Window {
      assert Holder(gs, answers, c) == Window;
      forall i | 0 <= i < c ensures answers[i].cancelled {
        assert Holder(gs, answers, i) == Window;
      }
    }
  }

  /** Such a start keeps a buffer: one buffer that comes and cannot be locked. */
  lemma FailedStartKeeps(answer: Answer, genlocked: bool)
    ensures var gs := [Got(true, false, genlocked)];
            FirstBad(gs) == 0 && Holder(gs, [answer], 0) == Hal
  {
  }

  /** A locked buffer that does not unlock is passed over when the buffers are put back. */
  predicate Stuck(f: Flag, a: Answer) { f == Locked && !a.unlocks }

  predicate Cancels(f: Flag, a: Answer) { f != NotOwned && !Stuck(f, a) }

  /** The buffers that are cancelled, in order. */
  function Cancelled(flags: seq<Flag>, answers: seq<Answer>, n: nat): seq<nat>
    requires n <= |flags| == |answers|
  {
    if n == 0 then []
    else
      var before := Cancelled(flags, answers, n - 1);
      if Cancels(flags[n - 1], answers[n - 1]) then before + [n - 1] else before
  }

  /** How often a buffer is among those cancelled. */
  function Count(xs: seq<nat>, i: nat): nat {
    if xs == [] then 0 else Count(xs[..|xs| - 1], i) + (if xs[|xs| - 1] == i then 1 else 0)
  }

  lemma {:induction false} CancelledOnce(flags: seq<Flag>, answers: seq<Answer>, n: nat, i: nat)
    requires n <= |flags| == |answers|
    ensures Count(Cancelled(flags, answers, n), i) == if i < n && Cancels(flags[i], answers[i]) then 1 else 0
  {
    hide Cancels;
    if n > 0 {
      CancelledOnce(flags, answers, n - 1, i);
      var before := Cancelled(flags, answers, n - 1);
      assert (before + [n - 1])[..|before|] == before;
    }
  }

  /** The stream after its buffers were put back: the record is cleared, so no flag says that a buffer is held. */
  function PutBack(p: Preview, answers: seq<Answer>): Preview
    requires Shaped(p) && |answers| == |p.flag|
  {
    p.(flag := seq(|p.flag|, _ => NotOwned),
       owner := seq(|p.flag|, i requires 0 <= i < |p.flag| =>
         if Cancels(p.flag[i], answers[i]) && answers[i].cancelled then Window else p.owner[i]))
  }

  /**
   Putting back a stream whose flags agree: each buffer the window does not hold
   is cancelled once unless it is stuck, and no other is; and the cleared flag of
   a buffer still agrees with its holder exactly when the window held it before,
   or it was not stuck and its cancel succeeded.
   */
  lemma PutBackReturns(p: Preview, answers: seq<Answer>, i: nat)
    requires FlagsAgree(p) && i < |p.flag| == |answers|
    ensures var q := PutBack(p, answers);
            && Count(Cancelled(p.flag, answers, |p.flag|), i) ==
                 (if p.owner[i] != Window && (p.flag[i] == Locked ==> answers[i].unlocks) then 1 else 0)
            && (q.owner[i] == Window <==> FlagAgrees(q, i))
            && (FlagAgrees(q, i) <==>
                  || p.owner[i] == Window
                  || ((p.flag[i] == Locked ==> answers[i].unlocks) && answers[i].cancelled))
  {
    assert FlagAgrees(p, i);
    CancelledOnce(p.flag, answers, |p.flag|, i);
  }

  /** Such a buffer cannot be unlocked when it is put back, and its cleared flag says that the window holds it. */
  lemma StuckBufferForgotten(notify: Frame, cnt: int, cancelled: bool)
    ensures var q := PutBack(Streaming([Got(true, true, true)], [notify], cnt), [Answer(false, cancelled)]);
            q.flag == [NotOwned] && q.owner == [Driver] && !FlagAgrees(q, 0)
  {
    var p := Streaming([Got(true, true, true)], [notify], cnt);
    assert p.flag[0] == Locked && p.owner[0] == Driver;
  }

  lemma {:induction false} BadIsFirst(gs: seq<Got>, c: nat)
    requires c <= |gs| && (c < |gs| ==> !(gs[c].dequeued && gs[c].locked))
    requires forall i | 0 <= i < c :: gs[i].dequeued && gs[i].locked
    ensures FirstBad(gs) == c
  {
    if c > 0 {
      BadIsFirst(gs[1..], c - 1);
    }
  }
}
