/**
 The preview, record and picture state of the HAL, and the three streams it
 starts and stops.  The camera state, which channel events change at any time,
 is read only by two calls; what they read is a parameter here.
 */
module HalStates {
  import opened Runs

  datatype PreviewState = Stopped | Start | Started | Recording | TakePicture

  /** A stream object; `doubled` counts starts of a stream that is already active. */
  datatype Stream = Stream(active: bool, doubled: nat)

  datatype Streams = Streams(display: Stream, record: Stream, snap: Stream)

  /** mPreviewWindow is set, mNoDisplayMode, mRestartPreview, mRecordingHint, mAppRecordingHint, ZSL mode. */
  datatype Flags = Flags(window: bool, noDisplay: bool, restart: bool, hint: bool, appHint: bool, zsl: bool)

  datatype Hal = Hal(state: PreviewState, s: Streams, f: Flags)

  function Boot(zsl: bool): Hal {
    var none := Stream(false, 0);
    Hal(Stopped, Streams(none, none, none), Flags(false, false, false, false, false, zsl))
  }

  /** What the operations inside one call answer: parameter queries, and the start of each stream. */
  datatype Answers = Answers(config: bool, display: bool, snap: bool, record: bool)

  datatype Call =
    | StartPreview(a: Answers)
    | StopPreview(appHint: bool)
    | StartRecording(a: Answers)
    | StopRecording
    | TakeAPicture(a: Answers)
    | CancelPicture(ready: bool)
    | SetPreviewWindow(window: bool, a: Answers)
    | SetHighFrameRate(running: bool, a: Answers)
    | NoteRestart
    | NoteRestartAndPause(a: Answers)
    | SetRecordingHint(hint: bool)
    | SetCameraMode(zsl: bool)
    | SetNoDisplay(noDisplay: bool)
    | Release(ready: bool)

  // ----- streams ---------------------------------------------------------------

  /** A start that fails leaves the flag as it was. */
  function AfterStart(s: Stream, ok: bool): Stream {
    Stream(s.active || ok, s.doubled + (if s.active then 1 else 0))
  }

  function AfterStop(s: Stream): Stream { s.(active := false) }

  /** Does startPreview2 report success? */
  predicate Starts(zsl: bool, a: Answers) { a.config && a.display && (zsl ==> a.snap) }

  /** startPreview2: a snapshot stream that fails takes the display stream down again. */
  function StartStreams(zsl: bool, s: Streams, a: Answers): (t: Streams)
    ensures t.record == s.record
    ensures !s.display.active ==> t.display == Stream(Starts(zsl, a), s.display.doubled)
    ensures !zsl ==> t.snap == s.snap
    ensures zsl && !s.snap.active ==> t.snap.active == Starts(zsl, a)
    ensures s.snap.active ==> t.snap.active
    ensures t.snap.doubled == s.snap.doubled + (if zsl && a.config && a.display && s.snap.active then 1 else 0)
  {
    if !a.config then s
    else
      var d := AfterStart(s.display, a.display);
      if !zsl || !a.display then s.(display := d)
      else s.(display := if a.snap then d else AfterStop(d), snap := AfterStart(s.snap, a.snap))
  }

  /** stopPreviewInternal. */
  function StopStreams(zsl: bool, s: Streams): Streams {
    s.(display := AfterStop(s.display), snap := if zsl then AfterStop(s.snap) else s.snap)
  }

  function RestartStreams(zsl: bool, s: Streams, a: Answers): Streams { StartStreams(zsl, StopStreams(zsl, s), a) }

  /** The state after a start: started, or waiting for another one. */
  function Reached(zsl: bool, a: Answers): PreviewState { if Starts(zsl, a) then Started else Start }

  // ----- calls -------------------------------------------------------------------

  predicate Idle(h: Hal) { h.state == Stopped || h.state == TakePicture }

  predicate Showing(h: Hal) { h.state == Started || h.state == Recording }

  function PreviewOn(h: Hal, a: Answers): Hal {
    if !Idle(h) then h
    else if h.f.window || h.f.noDisplay then Hal(Reached(h.f.zsl, a), StartStreams(h.f.zsl, h.s, a), h.f)
    else h.(state := Start)
  }

  function WindowSet(h: Hal, window: bool, a: Answers): Hal {
    if h.state == Start && window then
      Hal(Reached(h.f.zsl, a), StartStreams(h.f.zsl, h.s, a), h.f.(window := true))
    else if h.state == Start || Idle(h) then h.(f := h.f.(window := window))
    else h
  }

  /** The preview and a recording are stopped; a preview that waits for a window waits no more. */
  function StopAll(h: Hal): Hal {
    if Idle(h) then h
    else
      var s := if h.state == Recording then h.s.(record := AfterStop(h.s.record)) else h.s;
      Hal(Stopped, if h.state == Start then s else StopStreams(h.f.zsl, s), h.f)
  }

  predicate MustRestart(f: Flags) { !f.hint || f.restart }

  function RecordOn(h: Hal, a: Answers): Hal {
    if h.state != Started then h
    else
      var again := MustRestart(h.f);
      var s := if again then RestartStreams(h.f.zsl, h.s, a) else h.s;
      Hal(if a.record then Recording else if again then Reached(h.f.zsl, a) else Started,
          s.(record := AfterStart(s.record, a.record)),
          h.f.(appHint := h.f.hint, hint := true, restart := false))
  }

  function RecordOff(h: Hal): Hal {
    if h.state != Recording then h
    else Hal(Started, h.s.(record := AfterStop(h.s.record)), h.f.(hint := h.f.appHint))
  }

  /** pausePreviewForZSL does not look at the outcome of its restart. */
  function Paused(h: Hal, a: Answers): Hal {
    if h.f.restart then Hal(Started, RestartStreams(h.f.zsl, h.s, a), h.f.(restart := false)) else h
  }

  function PictureTaken(h: Hal, a: Answers): Hal {
    if h.state != Started then h
    else if h.f.zsl then Paused(h, a)
    else
      var s := StopStreams(false, h.s);
      Hal(if a.snap then TakePicture else Started, s.(snap := AfterStart(s.snap, a.snap)), h.f)
  }

  function Cancelled(h: Hal, ready: bool): Hal {
    if h.state == TakePicture && !ready then h.(s := h.s.(snap := AfterStop(h.s.snap))) else h
  }

  function Released(h: Hal, ready: bool): Hal { Cancelled(StopAll(h), ready).(state := Stopped) }

  function RateSet(h: Hal, running: bool, a: Answers): Hal {
    if running then Hal(Reached(h.f.zsl, a), RestartStreams(h.f.zsl, h.s, a), h.f) else h
  }

  function RestartNoted(h: Hal): Hal { if h.state == Started then h.(f := h.f.(restart := true)) else h }

  function RestartDone(h: Hal, a: Answers): Hal {
    if h.state == Started then Paused(h.(f := h.f.(restart := true)), a) else h
  }

  function Step(h: Hal, c: Call): Hal {
    match c
    case StartPreview(a) => PreviewOn(h, a)
    case StopPreview(appHint) => StopAll(h.(f := h.f.(hint := appHint)))
    case StartRecording(a) => RecordOn(h, a)
    case StopRecording => RecordOff(h)
    case TakeAPicture(a) => PictureTaken(h, a)
    case CancelPicture(ready) => Cancelled(h, ready)
    case SetPreviewWindow(window, a) => WindowSet(h, window, a)
    case SetHighFrameRate(running, a) => RateSet(h, running, a)
    case NoteRestart => RestartNoted(h)
    case NoteRestartAndPause(a) => RestartDone(h, a)
    case SetRecordingHint(hint) => h.(f := h.f.(hint := hint))
    case SetCameraMode(zsl) => h.(f := h.f.(zsl := zsl))
    case SetNoDisplay(noDisplay) => h.(f := h.f.(noDisplay := noDisplay))
    case Release(ready) => Released(h, ready)
  }

  // ----- every sequence of calls ----------------------------------------------------

  ghost predicate Inv(h: Hal) {
    && (h.s.display.active ==> Showing(h))
    && h.s.display.doubled == 0
    && (h.state == Recording ==> h.s.record.active)
  }

  predicate ShowingActive(h: Hal) { Showing(h) == h.s.display.active }

  /** The calls that leave or reach STARTED or RECORDING without the preview running. */
  predicate LosesPreview(h: Hal, c: Call) {
    match c
    case StartRecording(a) => RecordLoses(h, a)
    case TakeAPicture(a) => PictureLoses(h, a)
    case NoteRestartAndPause(a) => h.state == Started && !Starts(h.f.zsl, a)
    case _ => false
  }

  /** A recording begun although the restart of the preview failed. */
  predicate RecordLoses(h: Hal, a: Answers) {
    h.state == Started && MustRestart(h.f) && !Starts(h.f.zsl, a) && a.record
  }

  /** A picture whose start fails, or whose restart of the preview fails. */
  predicate PictureLoses(h: Hal, a: Answers) {
    h.state == Started && (if h.f.zsl then h.f.restart && !Starts(h.f.zsl, a) else !a.snap)
  }

  /** A frame-rate change that restarts the preview during recording. */
  predicate ForgetsRecording(h: Hal, c: Call) { c.SetHighFrameRate? && c.running && h.state == Recording }

  predicate RecordingActive(h: Hal) { h.s.record.active == (h.state == Recording) }

  /** In ZSL mode the two streams are active together. */
  ghost predicate SteadyZsl(h: Hal) {
    h.f.zsl && h.state != TakePicture && h.s.snap.active == h.s.display.active && h.s.snap.doubled == 0
  }

  /** What a call from h to t keeps; `loses` and `forgets` tell whether it breaks the rest. */
  ghost predicate Kept(h: Hal, t: Hal, loses: bool, forgets: bool) {
    && (Inv(h) ==> Inv(t))
    && (ShowingActive(h) ==> (ShowingActive(t) <==> !loses))
    && (RecordingActive(h) ==> (RecordingActive(t) <==> !forgets))
    && (Inv(h) && SteadyZsl(h) && t.f.zsl ==> SteadyZsl(t))
  }

  lemma PreviewAndWindowKeep(h: Hal, window: bool, a: Answers)
    ensures Kept(h, PreviewOn(h, a), false, false) && Kept(h, WindowSet(h, window, a), false, false)
  {
    hide StartStreams, Starts;
  }

  lemma StopsKeep(h: Hal, ready: bool)
    ensures Kept(h, StopAll(h), false, false) && Kept(h, RecordOff(h), false, false)
    ensures Kept(h, Cancelled(h, ready), false, false) && Kept(h, Released(h, ready), false, false)
  {
  }

  lemma StopPreviewKeeps(h: Hal, appHint: bool)
    ensures Kept(h, StopAll(h.(f := h.f.(hint := appHint))), false, false)
  {
    StopsKeep(h.(f := h.f.(hint := appHint)), true);
    hide StopAll;
  }

  lemma SettingsKeep(h: Hal, b: bool)
    ensures Kept(h, h, false, false) && Kept(h, h.(f := h.f.(hint := b)), false, false)
    ensures Kept(h, h.(f := h.f.(zsl := b)), false, false) && Kept(h, h.(f := h.f.(noDisplay := b)), false, false)
  {
  }

  lemma RecordKeeps(h: Hal, a: Answers)
    ensures Kept(h, RecordOn(h, a), RecordLoses(h, a), false)
  {
    hide StartStreams;
  }

  lemma RestartsKeep(h: Hal, running: bool, a: Answers)
    ensures Kept(h, RestartNoted(h), false, false)
    ensures Kept(h, RestartDone(h, a), h.state == Started && !Starts(h.f.zsl, a), false)
    ensures Kept(h, RateSet(h, running, a), false, running && h.state == Recording)
  {
    hide StartStreams;
  }

  lemma PictureKeeps(h: Hal, a: Answers)
    ensures Kept(h, PictureTaken(h, a), PictureLoses(h, a), false)
  {
    hide StartStreams;
  }

  lemma ModeAfter(h: Hal, c: Call)
    ensures Step(h, c).f.zsl == if c.SetCameraMode? then c.zsl else h.f.zsl
  {
  }

  lemma EveryStep(h: Hal, c: Call)
    ensures Kept(h, Step(h, c), LosesPreview(h, c), ForgetsRecording(h, c))
  {
    hide Kept, PreviewOn, WindowSet, StopAll, RecordOff, Cancelled, Released;
    hide RecordOn, RestartNoted, RestartDone, RateSet, PictureTaken;
    match c
    case StartPreview(a) => PreviewAndWindowKeep(h, true, a);
    case StopPreview(appHint) => StopPreviewKeeps(h, appHint);
    case StartRecording(a) => RecordKeeps(h, a);
    case StopRecording => StopsKeep(h, true);
    case TakeAPicture(a) => PictureKeeps(h, a);
    case CancelPicture(ready) => StopsKeep(h, ready);
    case SetPreviewWindow(window, a) => PreviewAndWindowKeep(h, window, a);
    case SetHighFrameRate(running, a) => RestartsKeep(h, running, a);
    case NoteRestart => RestartsKeep(h, true, Answers(true, true, true, true));
    case NoteRestartAndPause(a) => RestartsKeep(h, true, a);
    case SetRecordingHint(hint) => SettingsKeep(h, hint);
    case SetCameraMode(zsl) => SettingsKeep(h, zsl);
    case SetNoDisplay(noDisplay) => SettingsKeep(h, noDisplay);
    case Release(ready) => StopsKeep(h, ready);
  }

  lemma {:induction false} RunKeeps(h: Hal, cs: seq<Call>)
    requires Inv(h)
    ensures Inv(Run(Step, h, cs))
    decreases |cs|
  {
    hide Step;
    if cs != [] {
      EveryStep(h, cs[0]);
      RunKeeps(Step(h, cs[0]), cs[1..]);
    }
  }

  /**
   Whatever is called, and whatever fails: an active preview stream implies the
   state STARTED or RECORDING, the preview stream is never started while it is
   active, and in the state RECORDING the record stream is active.
   */
  lemma NeverStartedTwice(zsl: bool, cs: seq<Call>)
    ensures var h := Run(Step, Boot(zsl), cs);
            && (h.s.display.active ==> h.state == Started || h.state == Recording)
            && h.s.display.doubled == 0
            && (h.state == Recording ==> h.s.record.active)
  {
    RunKeeps(Boot(zsl), cs);
  }

  /** After stopPreview and after release nothing is displayed, in every reachable state. */
  lemma StopsTheDisplay(zsl: bool, cs: seq<Call>, appHint: bool, ready: bool)
    ensures !Step(Run(Step, Boot(zsl), cs), StopPreview(appHint)).s.display.active
    ensures !Step(Run(Step, Boot(zsl), cs), Release(ready)).s.display.active
  {
    NeverStartedTwice(zsl, cs);
  }

  /** A start without a window waits for one, and a window that comes starts it. */
  lemma WindowStartsWaiting(h: Hal, a: Answers, b: Answers)
    requires Inv(h) && Idle(h) && !h.f.window && !h.f.noDisplay
    ensures var t := Step(h, StartPreview(a));
            && t == h.(state := Start)
            && var u := Step(t, SetPreviewWindow(true, b));
               && u.f == h.f.(window := true)
               && u.s.display.active == Starts(h.f.zsl, b) && u.state == (if u.s.display.active then Started else Start)
  {
    hide StartStreams, Starts;
  }

  /**
   A recording that begins and ends: the record stream is off again, the hint of
   the application is back, and no restart is due; the preview has been restarted
   if one was due or the hint was off, and otherwise left alone.
   */
  lemma RecordingAndBack(h: Hal, a: Answers)
    requires Inv(h) && h.state == Started && a.record
    ensures var t := Step(Step(h, StartRecording(a)), StopRecording);
            && t.state == Started && !t.s.record.active
            && t.f == h.f.(restart := false, appHint := h.f.hint)
            && t.s.display.active == (if MustRestart(h.f) then Starts(h.f.zsl, a) else h.s.display.active)
            && (!MustRestart(h.f) ==> t.s.display == h.s.display && t.s.snap == h.s.snap)
  {
    hide StartStreams, Starts;
  }

  // ----- when the display stream is active exactly in STARTED and RECORDING ------------

  /**
   The preview stream is active exactly in STARTED and RECORDING throughout a
   run if and only if the run has no recording begun on a failed restart, no
   picture whose start fails, and no restart for ZSL that fails.
   */
  lemma ShowingExactly(zsl: bool, cs: seq<Call>)
    ensures Throughout(ShowingActive, Step, Boot(zsl), cs) <==> !Somewhere(LosesPreview, Step, Boot(zsl), cs)
  {
    forall s, c | ShowingActive(s)
      ensures ShowingActive(Step(s, c)) <==> !LosesPreview(s, c)
    {
      EveryStep(s, c);
    }
    ThroughoutExactly(ShowingActive, LosesPreview, Step, Boot(zsl), cs);
  }

  /** A picture whose start fails, after a preview that starts, leaves the state STARTED with nothing displayed. */
  lemma PictureLosesPreview()
    ensures var good := Answers(true, true, true, true);
            var cs := [SetPreviewWindow(true, good), StartPreview(good), TakeAPicture(good.(snap := false))];
            var h := Run(Step, Boot(false), cs);
            h.state == Started && !h.s.display.active
  {
    var good := Answers(true, true, true, true);
    RunThree(Step, Boot(false), SetPreviewWindow(true, good), StartPreview(good), TakeAPicture(good.(snap := false)));
  }

  // ----- recording ---------------------------------------------------------------------

  /**
   The record stream is active exactly in RECORDING throughout a run if and only
   if no frame-rate change restarts the preview during recording.
   */
  lemma RecordingExactly(zsl: bool, cs: seq<Call>)
    ensures Throughout(RecordingActive, Step, Boot(zsl), cs) <==> !Somewhere(ForgetsRecording, Step, Boot(zsl), cs)
  {
    forall s, c | RecordingActive(s) ensures RecordingActive(Step(s, c)) <==> !ForgetsRecording(s, c) {
      EveryStep(s, c);
    }
    ThroughoutExactly(RecordingActive, ForgetsRecording, Step, Boot(zsl), cs);
  }

  /** After such a change, neither stopRecording nor stopPreview nor release stops the record stream. */
  lemma ForgottenRecording(h: Hal, c: Call, appHint: bool, ready: bool)
    requires Inv(h) && ForgetsRecording(h, c)
    ensures var t := Step(h, c);
            && t.s.record.active && Step(t, StopRecording) == t
            && Step(t, StopPreview(appHint)).s.record.active && Step(t, Release(ready)).s.record.active
  {
  }

  /**
   Preview, recording, and a frame-rate change, all of which succeed: the record
   stream runs in the state STARTED, and the next recording starts it again.
   */
  lemma RateChangeForgetsRecording(appHint: bool, ready: bool)
    ensures var good := Answers(true, true, true, true);
            var cs := [SetPreviewWindow(true, good), StartPreview(good), StartRecording(good),
                       SetHighFrameRate(true, good)];
            var h := Run(Step, Boot(false), cs);
            && h.state == Started && h.s.record.active
            && Step(h, StopRecording) == h
            && Step(h, StopPreview(appHint)).s.record.active && Step(h, Release(ready)).s.record.active
            && Step(h, StartRecording(good)).s.record.doubled == 1
  {
    var good := Answers(true, true, true, true);
    var w, p := SetPreviewWindow(true, good), StartPreview(good);
    var r, f := StartRecording(good), SetHighFrameRate(true, good);
    RunFour(Step, Boot(false), w, p, r, f);
    var h := Step(Step(Step(Boot(false), w), p), r);
    assert h.state == Recording && h.s.record.active;
    NeverStartedTwice(false, []);
    EveryStep(Step(Step(Boot(false), w), p), r);
    ForgottenRecording(h, f, appHint, ready);
  }

  // ----- the snapshot stream: who stops it, and which calls leave it to nobody ----------

  /** The snapshot stream is active only for a picture, or with a ZSL preview that is active too. */
  predicate SnapOwned(h: Hal) {
    h.s.snap.active ==> h.state == TakePicture || (h.f.zsl && h.s.display.active)
  }

  /** Does startPreview, with what it finds, start a ZSL preview? */
  predicate ZslPreviewStarts(h: Hal, a: Answers) {
    h.f.zsl && (h.f.window || h.f.noDisplay) && Starts(h.f.zsl, a)
  }

  /**
   The calls after which an active snapshot stream belongs to nobody: a preview
   started out of TAKE_PICTURE that is no ZSL preview or does not start, leaving
   ZSL mode outside TAKE_PICTURE, a frame-rate change in TAKE_PICTURE outside ZSL
   mode, and a release in TAKE_PICTURE while the camera reads as ready.
   */
  predicate LeavesSnapshot(h: Hal, c: Call) {
    && h.s.snap.active
    && match c
       case StartPreview(a) => h.state == TakePicture && !ZslPreviewStarts(h, a)
       case SetCameraMode(zsl) => h.state != TakePicture && !zsl
       case SetHighFrameRate(running, _) => h.state == TakePicture && running && !h.f.zsl
       case Release(ready) => h.state == TakePicture && ready
       case _ => false
  }

  /** What a call from h to t does to the ownership of the snapshot stream. */
  ghost predicate SnapKept(h: Hal, t: Hal, leaves: bool) {
    Inv(h) && SnapOwned(h) ==> (SnapOwned(t) <==> !leaves)
  }

  lemma PreviewSnap(h: Hal, a: Answers)
    ensures SnapKept(h, PreviewOn(h, a), LeavesSnapshot(h, StartPreview(a)))
  {
    hide StartStreams;
  }

  lemma WindowSnap(h: Hal, window: bool, a: Answers)
    ensures SnapKept(h, WindowSet(h, window, a), false)
  {
    hide StartStreams;
  }

  lemma StopsSnap(h: Hal, ready: bool)
    ensures SnapKept(h, StopAll(h), false) && SnapKept(h, RecordOff(h), false)
    ensures SnapKept(h, Cancelled(h, ready), false)
    ensures SnapKept(h, Released(h, ready), LeavesSnapshot(h, Release(ready)))
  {
  }

  lemma StopPreviewSnap(h: Hal, appHint: bool)
    ensures SnapKept(h, StopAll(h.(f := h.f.(hint := appHint))), false)
  {
    StopsSnap(h.(f := h.f.(hint := appHint)), true);
    hide StopAll;
  }

  lemma RecordSnap(h: Hal, a: Answers)
    ensures SnapKept(h, RecordOn(h, a), false)
  {
    hide StartStreams;
  }

  lemma RestartsSnap(h: Hal, running: bool, a: Answers)
    ensures SnapKept(h, RestartNoted(h), false) && SnapKept(h, RestartDone(h, a), false)
    ensures SnapKept(h, RateSet(h, running, a), LeavesSnapshot(h, SetHighFrameRate(running, a)))
  {
    hide StartStreams;
  }

  lemma PictureSnap(h: Hal, a: Answers)
    ensures SnapKept(h, PictureTaken(h, a), false)
  {
    hide StartStreams;
  }

  lemma SettingsSnap(h: Hal, b: bool)
    ensures SnapKept(h, h.(f := h.f.(hint := b)), false) && SnapKept(h, h.(f := h.f.(noDisplay := b)), false)
    ensures SnapKept(h, h.(f := h.f.(zsl := b)), LeavesSnapshot(h, SetCameraMode(b)))
  {
  }

  /** Exactly four calls leave the snapshot stream to nobody. */
  lemma EveryStepSnap(h: Hal, c: Call)
    ensures SnapKept(h, Step(h, c), LeavesSnapshot(h, c))
  {
    hide SnapKept, PreviewOn, WindowSet, StopAll, RecordOff, Cancelled, Released;
    hide RecordOn, RestartNoted, RestartDone, RateSet, PictureTaken;
    match c
    case StartPreview(a) => PreviewSnap(h, a);
    case StopPreview(appHint) => StopPreviewSnap(h, appHint);
    case StartRecording(a) => RecordSnap(h, a);
    case StopRecording => StopsSnap(h, true);
    case TakeAPicture(a) => PictureSnap(h, a);
    case CancelPicture(ready) => StopsSnap(h, ready);
    case SetPreviewWindow(window, a) => WindowSnap(h, window, a);
    case SetHighFrameRate(running, a) => RestartsSnap(h, running, a);
    case NoteRestart => RestartsSnap(h, true, Answers(true, true, true, true));
    case NoteRestartAndPause(a) => RestartsSnap(h, true, a);
    case SetRecordingHint(hint) => SettingsSnap(h, hint);
    case SetCameraMode(zsl) => SettingsSnap(h, zsl);
    case SetNoDisplay(noDisplay) => SettingsSnap(h, noDisplay);
    case Release(ready) => StopsSnap(h, ready);
  }

  /**
   In every run the snapshot stream is active only for a picture or with an active
   ZSL preview, if and only if none of those four calls finds it active.
   */
  lemma SnapOwnedExactly(zsl: bool, cs: seq<Call>)
    ensures Throughout(SnapOwned, Step, Boot(zsl), cs) <==> !Somewhere(LeavesSnapshot, Step, Boot(zsl), cs)
  {
    forall h, c | Inv(h)
      ensures Inv(Step(h, c)) && (SnapOwned(h) ==> (SnapOwned(Step(h, c)) <==> !LeavesSnapshot(h, c)))
    {
      EveryStep(h, c);
      EveryStepSnap(h, c);
    }
    ThroughoutExactlyUnder(Inv, SnapOwned, LeavesSnapshot, Step, Boot(zsl), cs);
  }

  /** While owned, it is stopped by a release that does not read ready, and by stopPreview unless a picture is taken. */
  lemma OwnedIsStopped(h: Hal, appHint: bool)
    requires Inv(h) && SnapOwned(h)
    ensures !Step(h, Release(false)).s.snap.active
    ensures Step(h, StopPreview(appHint)).s.snap.active ==> h.state == TakePicture
  {
    hide StartStreams;
  }

  /** Once it is active outside ZSL mode and no picture is being taken, neither stopPreview nor release stops it. */
  lemma LeftIsNotStopped(h: Hal, appHint: bool, ready: bool)
    requires h.s.snap.active && h.state != TakePicture && !h.f.zsl
    ensures Step(h, StopPreview(appHint)).s.snap.active && Step(h, Release(ready)).s.snap.active
  {
    hide StartStreams;
  }

  /**
   A picture and then a preview, outside ZSL mode and all succeeding: the snapshot
   stream runs on, and the next picture starts it again.
   */
  lemma PreviewAfterPicture(appHint: bool, ready: bool)
    ensures var good := Answers(true, true, true, true);
            var cs := [SetPreviewWindow(true, good), StartPreview(good), TakeAPicture(good), StartPreview(good)];
            var h := Run(Step, Boot(false), cs);
            && h.state == Started && h.s.snap.active && !SnapOwned(h)
            && Step(h, StopPreview(appHint)).s.snap.active && Step(h, Release(ready)).s.snap.active
            && Step(h, TakeAPicture(good)).s.snap.doubled == 1
  {
    var good := Answers(true, true, true, true);
    var w, p, t := SetPreviewWindow(true, good), StartPreview(good), TakeAPicture(good);
    RunFour(Step, Boot(false), w, p, t, p);
    LeftIsNotStopped(Step(Step(Step(Step(Boot(false), w), p), t), p), appHint, ready);
  }

  /** A ZSL preview and then another mode: the snapshot stream runs on. */
  lemma ModeChangeForgetsSnapshot(appHint: bool, ready: bool)
    ensures var good := Answers(true, true, true, true);
            var cs := [SetPreviewWindow(true, good), StartPreview(good), SetCameraMode(false)];
            var h := Run(Step, Boot(true), cs);
            && h.state == Started && h.s.snap.active && !SnapOwned(h)
            && Step(h, StopPreview(appHint)).s.snap.active && Step(h, Release(ready)).s.snap.active
  {
    var good := Answers(true, true, true, true);
    var w, p, m := SetPreviewWindow(true, good), StartPreview(good), SetCameraMode(false);
    RunThree(Step, Boot(true), w, p, m);
    LeftIsNotStopped(Step(Step(Step(Boot(true), w), p), m), appHint, ready);
  }

  // ----- zero shutter lag ----------------------------------------------------------------

  predicate LeavesZsl(h: Hal, c: Call) { c == SetCameraMode(false) }

  /**
   From ZSL mode on, the snapshot and preview streams are active together, and
   started once each, throughout a run if and only if it does not leave that mode.
   */
  lemma ZslTogetherExactly(s: Hal, cs: seq<Call>)
    requires s == Boot(true) || (Inv(s) && SteadyZsl(s))
    ensures Throughout(SteadyZsl, Step, s, cs) <==> !Somewhere(LeavesZsl, Step, s, cs)
  {
    forall h, c | Inv(h)
      ensures Inv(Step(h, c)) && (SteadyZsl(h) ==> (SteadyZsl(Step(h, c)) <==> !LeavesZsl(h, c)))
    {
      ModeAfter(h, c);
      EveryStep(h, c);
    }
    ThroughoutExactlyUnder(Inv, SteadyZsl, LeavesZsl, Step, s, cs);
  }

  // ----- streams started while active ------------------------------------------------------

  predicate RecordOnce(h: Hal) { h.s.record.doubled == 0 }

  predicate SnapOnce(h: Hal) { h.s.snap.doubled == 0 }

  predicate DoublesRecord(h: Hal, c: Call) { c.StartRecording? && h.state == Started && h.s.record.active }

  /** A picture outside ZSL mode, or a ZSL preview that gets as far as its second stream. */
  predicate DoublesSnap(h: Hal, c: Call) {
    && h.s.snap.active
    && match c
       case TakeAPicture(_) => h.state == Started && !h.f.zsl
       case StartPreview(a) => Idle(h) && (h.f.window || h.f.noDisplay) && SecondStarts(h.f.zsl, a)
       case SetPreviewWindow(window, a) => h.state == Start && window && SecondStarts(h.f.zsl, a)
       case _ => false
  }

  predicate SecondStarts(zsl: bool, a: Answers) { zsl && a.config && a.display }

  lemma DoubledAfter(h: Hal, c: Call)
    ensures Step(h, c).s.record.doubled == h.s.record.doubled + (if DoublesRecord(h, c) then 1 else 0)
    ensures Step(h, c).s.snap.doubled == h.s.snap.doubled + (if DoublesSnap(h, c) then 1 else 0)
  {
    hide StartStreams;
  }

  /**
   The record stream is never started while active if and only if no recording is
   begun in STARTED with it still active, and the snapshot stream if and only if
   no picture and no ZSL preview is started with that one still active.
   */
  lemma StartedOnceExactly(zsl: bool, cs: seq<Call>)
    ensures Throughout(RecordOnce, Step, Boot(zsl), cs) <==> !Somewhere(DoublesRecord, Step, Boot(zsl), cs)
    ensures Throughout(SnapOnce, Step, Boot(zsl), cs) <==> !Somewhere(DoublesSnap, Step, Boot(zsl), cs)
  {
    forall h, c
      ensures RecordOnce(h) ==> (RecordOnce(Step(h, c)) <==> !DoublesRecord(h, c))
      ensures SnapOnce(h) ==> (SnapOnce(Step(h, c)) <==> !DoublesSnap(h, c))
    {
      DoubledAfter(h, c);
    }
    ThroughoutExactly(RecordOnce, DoublesRecord, Step, Boot(zsl), cs);
    ThroughoutExactly(SnapOnce, DoublesSnap, Step, Boot(zsl), cs);
  }

  // ----- where each call ends ----------------------------------------------------------------

  /** Calls that take the preview down and start it again. */
  predicate Restarting(h: Hal, c: Call) {
    match c
    case StartRecording(_) => h.state == Started && (!h.f.hint || h.f.restart)
    case TakeAPicture(_) => h.state == Started && h.f.zsl && h.f.restart
    case SetHighFrameRate(running, _) => running
    case NoteRestartAndPause(_) => h.state == Started
    case _ => false
  }

  /** Calls that start a preview that is not running. */
  predicate Launching(h: Hal, c: Call) {
    match c
    case StartPreview(_) => Idle(h) && (h.f.window || h.f.noDisplay)
    case SetPreviewWindow(window, _) => h.state == Start && window
    case _ => false
  }

  predicate HasAnswers(c: Call) {
    c.StartPreview? || c.StartRecording? || c.TakeAPicture? || c.SetPreviewWindow? || c.SetHighFrameRate?
    || c.NoteRestartAndPause?
  }

  /** Does the start of the preview that a call makes succeed? */
  predicate PreviewStarted(h: Hal, c: Call) { HasAnswers(c) && Starts(h.f.zsl, c.a) }

  predicate ChangesRate(c: Call) { c.SetHighFrameRate? && c.running }

  /** Which calls lead into each state, and which lead out of it. */
  lemma EndStates(h: Hal, c: Call)
    ensures var t := Step(h, c);
            && (t.state == Recording <==>
                  || (c.StartRecording? && h.state == Started && c.a.record)
                  || (h.state == Recording
                      && !c.StopRecording? && !c.StopPreview? && !c.Release? && !ChangesRate(c)))
            && (t.state == TakePicture <==>
                  || (c.TakeAPicture? && h.state == Started && !h.f.zsl && c.a.snap)
                  || (h.state == TakePicture && !c.StartPreview? && !c.Release? && !ChangesRate(c)))
            && (t.state == Stopped <==>
                  || c.Release? || (c.StopPreview? && h.state != TakePicture)
                  || (h.state == Stopped && !c.StartPreview? && !ChangesRate(c)))
            && (t.state == Start <==>
                  || (c.StartPreview? && Idle(h) && !(Launching(h, c) && PreviewStarted(h, c)))
                  || (ChangesRate(c) && !PreviewStarted(h, c))
                  || (c.StartRecording? && Restarting(h, c) && !PreviewStarted(h, c) && !c.a.record)
                  || (h.state == Start && !c.StopPreview? && !c.Release? && !ChangesRate(c)
                      && !(Launching(h, c) && PreviewStarted(h, c))))
  {
    hide StartStreams, Starts;
  }

  /** Which calls change the window, the due restart, the mode and the wish for no display. */
  lemma EndFlags(h: Hal, c: Call)
    ensures var f, t := h.f, Step(h, c).f;
            && t.window == (if c.SetPreviewWindow? && !Showing(h) then c.window else f.window)
            && (t.restart <==>
                  || (c.NoteRestart? && h.state == Started)
                  || (f.restart && !(h.state == Started && (c.StartRecording? || c.NoteRestartAndPause?))
                      && !(c.TakeAPicture? && h.state == Started && f.zsl)))
            && t.zsl == (if c.SetCameraMode? then c.zsl else f.zsl)
            && t.noDisplay == (if c.SetNoDisplay? then c.noDisplay else f.noDisplay)
  {
    hide StartStreams, Starts, StopStreams, AfterStart;
  }

  /** Which calls change the recording hint and the application's own. */
  lemma EndHints(h: Hal, c: Call)
    ensures var f, t := h.f, Step(h, c).f;
            && t.hint == (if c.StopPreview? then c.appHint
                          else if c.SetRecordingHint? then c.hint
                          else if c.StartRecording? && h.state == Started then true
                          else if c.StopRecording? && h.state == Recording then f.appHint
                          else f.hint)
            && t.appHint == (if c.StartRecording? && h.state == Started then f.hint else f.appHint)
  {
    hide StartStreams, Starts, StopStreams, AfterStart;
  }

  /** In every reachable state: which calls start each of the streams, and which stop it. */
  lemma EndStreams(h: Hal, c: Call)
    requires Inv(h)
    ensures var s, t := h.s, Step(h, c).s;
            var started := (Launching(h, c) || Restarting(h, c)) && PreviewStarted(h, c);
            && (t.display.active <==>
                  || started
                  || (s.display.active && !Restarting(h, c) && !c.StopPreview? && !c.Release?
                      && !(c.TakeAPicture? && h.state == Started && !h.f.zsl)))
            && (t.record.active <==>
                  || (c.StartRecording? && h.state == Started && c.a.record)
                  || (s.record.active
                      && !(h.state == Recording && (c.StopRecording? || c.StopPreview? || c.Release?))))
            && (t.snap.active <==>
                  || (h.f.zsl && started)
                  || (c.TakeAPicture? && h.state == Started && !h.f.zsl && c.a.snap)
                  || (s.snap.active && !(h.f.zsl && Restarting(h, c))
                      && !(h.f.zsl && Showing(h) && (c.StopPreview? || c.Release?))
                      && !(h.state == TakePicture && (c.CancelPicture? || c.Release?) && !c.ready)))
  {
    hide StartStreams;
  }

  /** stopPreview ends in STOPPED, or in TAKE_PICTURE if it finds that state; no window then starts a stream. */
  lemma NoWindowStartsAfterStop(h: Hal, appHint: bool, window: bool, a: Answers)
    ensures var t := Step(h, StopPreview(appHint));
            && t.state == (if h.state == TakePicture then TakePicture else Stopped)
            && Step(t, SetPreviewWindow(window, a)) == t.(f := t.f.(window := window))
  {
    EndStates(h, StopPreview(appHint));
    hide StopAll;
  }

  /** cancelPicture stops the snapshot stream unless the camera reads as ready, and leaves the state alone. */
  lemma CancelledPicture(h: Hal, ready: bool)
    requires h.state == TakePicture
    ensures var t := Step(h, CancelPicture(ready));
            t.state == TakePicture && (t.s.snap.active <==> ready && h.s.snap.active)
            && t.s.display == h.s.display && t.s.record == h.s.record && t.f == h.f
  {
  }

  /** A call that can start something from STOPPED. */
  predicate StartsAnew(c: Call) { c.StartPreview? || ChangesRate(c) }

  /** From STOPPED the state and the streams stay until startPreview or a frame-rate change, whatever else is called. */
  lemma {:induction false} StaysStopped(h: Hal, cs: seq<Call>)
    requires h.state == Stopped && forall i | 0 <= i < |cs| :: !StartsAnew(cs[i])
    ensures Run(Step, h, cs).state == Stopped && Run(Step, h, cs).s == h.s
    decreases |cs|
  {
    if cs != [] {
      StoppedStep(h, cs[0]);
      hide Step;
      StaysStopped(Step(h, cs[0]), cs[1..]);
    }
  }

  lemma StoppedStep(h: Hal, c: Call)
    requires h.state == Stopped && !StartsAnew(c)
    ensures Step(h, c).state == Stopped && Step(h, c).s == h.s
  {
    hide StartStreams;
  }

  // ----- the class -----------------------------------------------------------------------

  class StreamObject {
    var active: bool
    ghost var doubled: nat

    ghost function State(): Stream
      reads this
    {
      Stream(active, doubled)
    }

    constructor ()
      ensures State() == Stream(false, 0)
    {
      active, doubled := false, 0;
    }

    method Begin(ok: bool)
      modifies this
      ensures State() == AfterStart(old(State()), ok)
    {
      doubled := doubled + (if active then 1 else 0);
      if ok {
        active := true;
      }
    }

    method End()
      modifies this
      ensures State() == AfterStop(old(State()))
    {
      if !active {
        return;
      }
      active := false;
    }
  }

  class HardwareInterface {
    const display: StreamObject
    const record: StreamObject
    const snap: StreamObject
    var state: PreviewState
    var window: bool
    var noDisplay: bool
    var restart: bool
    var hint: bool
    var appHint: bool
    var zsl: bool

    ghost predicate Valid() { display != record && record != snap && display != snap }

    ghost function State(): Hal
      reads this, display, record, snap
    {
      Hal(state, Streams(display.State(), record.State(), snap.State()),
          Flags(window, noDisplay, restart, hint, appHint, zsl))
    }

    constructor (zslMode: bool)
      ensures Valid() && State() == Boot(zslMode)
    {
      display := new StreamObject();
      record := new StreamObject();
      snap := new StreamObject();
      state, window, noDisplay, restart, hint, appHint, zsl := Stopped, false, false, false, false, false, zslMode;
    }

    /** startPreview2; none of the calls below takes its early exit. */
    method StartPreview2(a: Answers) returns (ok: bool)
      requires Valid()
      modifies display, snap
      ensures state == Started ==> State() == old(State()) && ok
      ensures state != Started ==>
                State() == old(State()).(s := StartStreams(zsl, old(State().s), a)) && ok == Starts(zsl, a)
    {
      if state == Started {
        return true;
      }
      if !a.config {
        return false;
      }
      display.Begin(a.display);
      if zsl {
        if !a.display {
          return false;
        }
        snap.Begin(a.snap);
        if !a.snap {
          display.End();
          return false;
        }
      }
      return a.display;
    }

    method StopPreviewInternal()
      requires Valid()
      modifies display, snap
      ensures State() == old(State()).(s := StopStreams(zsl, old(State().s)))
    {
      if zsl {
        snap.End();
      }
      display.End();
    }

    method StopRecordingInternal()
      requires Valid()
      modifies record, this`state
      ensures State() == old(State()).(s := old(State().s).(record := AfterStop(old(record.State()))), state := Started)
    {
      record.End();
      state := Started;
    }

    method CancelPictureInternal(ready: bool)
      requires Valid()
      modifies snap
      ensures State() == old(State()).(s := old(State().s).(snap :=
                           if ready then old(snap.State()) else AfterStop(old(snap.State()))))
    {
      if !ready {
        snap.End();
      }
    }

    method PausePreviewForZSL(a: Answers)
      requires Valid()
      modifies this`state, this`restart, display, snap
      ensures State() == Paused(old(State()), a)
    {
      if restart {
        StopPreviewInternal();
        state := Stopped;
        var ok := StartPreview2(a);
        state := Started;
        restart := false;
      }
    }

    /** Stop, and start again from the state that waits for a start. */
    method Relaunch(a: Answers)
      requires Valid()
      modifies this`state, display, snap
      ensures State() == RateSet(old(State()), true, a)
    {
      StopPreviewInternal();
      state := Stopped;
      state := Start;
      var ok := StartPreview2(a);
      if ok {
        state := Started;
      }
    }

    method DoStartPreview(a: Answers)
      requires Valid()
      modifies this`state, display, snap
      ensures State() == PreviewOn(old(State()), a)
    {
      match state {
        case Stopped | TakePicture =>
          state := Start;
          if window || noDisplay {
            var ok := StartPreview2(a);
            if ok {
              state := Started;
            }
          }
        case Start | Started | Recording =>
      }
    }

    method DoStopPreview(appSays: bool)
      requires Valid()
      modifies this`state, this`hint, display, record, snap
      ensures State() == StopAll(old(State()).(f := old(State().f).(hint := appSays)))
    {
      hint := appSays;
      StopWhatRuns();
    }

    /** The switch of stopPreview, by the state it finds. */
    method StopWhatRuns()
      requires Valid()
      modifies this`state, display, record, snap
      ensures State() == StopAll(old(State()))
    {
      match state {
        case Start =>
          state := Stopped;
        case Started =>
          StopPreviewInternal();
          state := Stopped;
        case Recording =>
          StopRecordingInternal();
          StopPreviewInternal();
          state := Stopped;
        case TakePicture | Stopped =>
      }
    }

    method DoStartRecording(a: Answers)
      requires Valid()
      modifies this, display, record, snap
      ensures State() == RecordOn(old(State()), a)
    {
      if state == Started {
        appHint := hint;
        if !hint || restart {
          hint := true;
          Relaunch(a);
          restart := false;
        }
        record.Begin(a.record);
        if a.record {
          state := Recording;
        }
      }
    }

    method DoStopRecording()
      requires Valid()
      modifies this`state, this`hint, record
      ensures State() == RecordOff(old(State()))
    {
      if state == Recording {
        hint := appHint;
        StopRecordingInternal();
        state := Started;
      }
    }

    method DoTakePicture(a: Answers)
      requires Valid()
      modifies this`state, this`restart, display, snap
      ensures State() == PictureTaken(old(State()), a)
    {
      if state == Started {
        if zsl {
          PausePreviewForZSL(a);
          return;
        }
        StopPreviewInternal();
        snap.Begin(a.snap);
        if !a.snap {
          return;
        }
        state := TakePicture;
      }
    }

    method DoSetPreviewWindow(newWindow: bool, a: Answers)
      requires Valid()
      modifies this`state, this`window, display, snap
      ensures State() == WindowSet(old(State()), newWindow, a)
    {
      match state {
        case Start =>
          window := newWindow;
          if window {
            var ok := StartPreview2(a);
            if ok {
              state := Started;
            }
          }
        case Stopped | TakePicture =>
          window := newWindow;
        case Started | Recording =>
      }
    }

    method DoSetHighFrameRate(running: bool, a: Answers)
      requires Valid()
      modifies this`state, display, snap
      ensures State() == RateSet(old(State()), running, a)
    {
      if running {
        Relaunch(a);
      }
    }

    method DoCancelPicture(ready: bool)
      requires Valid()
      modifies snap
      ensures State() == Cancelled(old(State()), ready)
    {
      if state == TakePicture {
        CancelPictureInternal(ready);
      }
    }

    method DoRelease(ready: bool)
      requires Valid()
      modifies this`state, display, record, snap
      ensures State() == Released(old(State()), ready)
    {
      match state {
        case Started =>
          StopPreviewInternal();
        case Recording =>
          StopRecordingInternal();
          StopPreviewInternal();
        case TakePicture =>
          CancelPictureInternal(ready);
        case Stopped | Start =>
      }
      state := Stopped;
    }
  }
}
