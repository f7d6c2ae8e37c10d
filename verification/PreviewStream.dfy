/** The preview stream object: its buffer record, and the loops over it. */
module PreviewStreams {
  import opened PreviewBuffers
  import opened FrameRates

  class PreviewStream {
    const flag: array<Flag>
    const notify: array<Frame>
    var count: nat
    var cnt: int
    ghost var owner: seq<Owner>
    ghost var start: seq<Flag>
    ghost var delivered: seq<Frame>
    ghost var back: seq<Frame>
    ghost var reports: seq<Frame>
    ghost var shown: seq<bool>
    ghost var cancelled: seq<nat>

    ghost predicate Valid()
      reads this
    {
      flag.Length == notify.Length == |owner| == |start|
    }

    ghost function State(): Preview
      reads this, flag, notify
    {
      Preview(flag[..], notify[..], cnt, owner, start, delivered, back, reports, shown)
    }

    ghost predicate AllWithWindow()
      reads this`owner
    {
      forall i | 0 <= i < |owner| :: owner[i] == Window
    }

    /** The frame counter is not initialized. */
    constructor (n: nat, anyCount: int)
      ensures Valid() && flag.Length == n && count == 0 && cnt == anyCount && cancelled == []
      ensures AllWithWindow() && fresh(flag) && fresh(notify)
    {
      flag := new Flag[n](_ => NotOwned);
      notify := new Frame[n](_ => Frame(0, 0));
      count, cnt, owner, start, cancelled := 0, anyCount, seq(n, _ => Window), seq(n, _ => NotOwned), [];
      delivered, back, reports, shown := [], [], [], [];
    }

    /**
     start: the buffers are acquired and prepared, and the driver gets them all; a
     failure behind the acquisition puts them back.
     */
    method Start(gs: seq<Got>, answers: seq<Answer>, prepared: bool) returns (ok: bool)
      requires Valid() && |gs| == |answers| == flag.Length && AllWithWindow()
      modifies this, flag
      ensures Valid() && (ok <==> FirstBad(gs) == |gs| && prepared)
      ensures ok ==> State() == Streaming(gs, old(notify[..]), old(cnt)) && count == |gs|
      ensures !ok ==> count == 0 && forall i | 0 <= i < |gs| :: flag[i] == NotOwned
      ensures !ok && FirstBad(gs) < |gs| ==> forall i | 0 <= i < |gs| :: owner[i] == Holder(gs, answers, i)
      ensures !ok && FirstBad(gs) == |gs| ==> forall i | 0 <= i < |gs| ::
        owner[i] == if Cancels(StartFlags(gs)[i], answers[i]) && answers[i].cancelled then Window else Hal
      ensures cancelled == if ok then old(cancelled)
                           else if FirstBad(gs) < |gs| then old(cancelled) + seq(FirstBad(gs), i => i)
                           else old(cancelled) + Cancelled(StartFlags(gs), answers, |gs|)
    {
      ok := GetBuffers(gs, answers);
      if !ok {
        return;
      }
      assert flag[..] == StartFlags(gs);
      if !prepared {
        PutBuffers(answers);
        return false;
      }
      owner, start := seq(|gs|, _ => Driver), flag[..];
      delivered, back, reports, shown := [], [], [], [];
    }

    /** The record is set to zero. */
    method Clear()
      modifies this`count, flag
      ensures count == 0 && forall i | 0 <= i < flag.Length :: flag[i] == NotOwned
    {
      for i := 0 to flag.Length
        invariant forall j | 0 <= j < i :: flag[j] == NotOwned
      {
        flag[i] := NotOwned;
      }
      count := 0;
    }

    /** getBufferFromSurface: a buffer that cannot be had sends the earlier ones back, and the record is cleared. */
    method GetBuffers(gs: seq<Got>, answers: seq<Answer>) returns (ok: bool)
      requires Valid() && |gs| == |answers| == flag.Length && AllWithWindow()
      modifies this`count, this`owner, this`cancelled, flag
      ensures Valid() && (ok <==> FirstBad(gs) == |gs|)
      ensures forall i | 0 <= i < |gs| :: owner[i] == Holder(gs, answers, i)
      ensures forall i | 0 <= i < |gs| :: flag[i] == if ok then StartFlags(gs)[i] else NotOwned
      ensures ok ==> count == |gs| && cancelled == old(cancelled)
      ensures !ok ==> count == 0 && cancelled == old(cancelled) + seq(FirstBad(gs), i => i)
    {
      count := flag.Length;
      var i := 0;
      while i < count
        invariant 0 <= i <= count == flag.Length && Valid() && cancelled == old(cancelled)
        invariant forall j | 0 <= j < i :: gs[j].dequeued && gs[j].locked && owner[j] == Hal
        invariant forall j | 0 <= j < i :: flag[j] == StartFlags(gs)[j]
        invariant forall j | i <= j < |owner| :: owner[j] == Window
      {
        if gs[i].dequeued {
          owner := owner[i := Hal];
          flag[i] := if gs[i].genlocked then Locked else Unlocked;
        } else {
          flag[i] := NotOwned;
        }
        if !(gs[i].dequeued && gs[i].locked) {
          BadIsFirst(gs, i);
          CancelFirst(i, answers);
          Clear();
          return false;
        }
        i := i + 1;
      }
      BadIsFirst(gs, i);
      return true;
    }

    method CancelFirst(c: nat, answers: seq<Answer>)
      requires Valid() && c < |answers| == flag.Length
      requires forall i | 0 <= i < c :: owner[i] == Hal && flag[i] != NotOwned
      modifies this`owner, this`cancelled, flag
      ensures Valid() && cancelled == old(cancelled) + seq(c, i => i)
      ensures forall i | 0 <= i < |owner| ::
        owner[i] == if i < c then (if answers[i].cancelled then Window else Hal) else old(owner)[i]
    {
      for i := 0 to c
        invariant Valid() && cancelled == old(cancelled) + seq(i, j => j)
        invariant forall j | i <= j < c :: flag[j] == old(flag[j])
        invariant forall j | 0 <= j < |owner| ::
          owner[j] == if j < i then (if answers[j].cancelled then Window else Hal) else old(owner)[j]
      {
        if flag[i] == Locked && answers[i].unlocks {
          flag[i] := Unlocked;
        }
        if flag[i] != NotOwned {
          cancelled := cancelled + [i];
          owner := if answers[i].cancelled then owner[i := Window] else owner;
        }
        flag[i] := NotOwned;
      }
    }

    /** putBufferToSurface: the buffers go back, and the record is cleared. */
    method PutBuffers(answers: seq<Answer>)
      requires Valid() && |answers| == flag.Length == count
      modifies this`owner, this`cancelled, this`count, flag
      ensures Valid() && State() == PutBack(old(State()), answers) && count == 0
      ensures cancelled == old(cancelled) + Cancelled(old(flag[..]), answers, |answers|)
    {
      ghost var was := flag[..];
      for i := 0 to count
        invariant Valid() && count == |answers| && cancelled == old(cancelled) + Cancelled(was, answers, i)
        invariant forall j | i <= j < count :: flag[j] == was[j]
        invariant forall j | 0 <= j < |owner| ::
          owner[j] == if j < i && Cancels(was[j], answers[j]) && answers[j].cancelled then Window else old(owner)[j]
      {
        PutOne(i, answers[i]);
      }
      Clear();
    }

    /** One buffer put back; one that does not unlock is left as it is. */
    method PutOne(i: nat, a: Answer)
      requires Valid() && i < flag.Length
      modifies this`owner, this`cancelled, flag
      ensures Valid() && flag[i] == (if Stuck(old(flag[i]), a) then Locked else NotOwned)
      ensures forall j | 0 <= j < flag.Length && j != i :: flag[j] == old(flag[j])
      ensures owner == if Cancels(old(flag[i]), a) && a.cancelled then old(owner)[i := Window] else old(owner)
      ensures cancelled == if Cancels(old(flag[i]), a) then old(cancelled) + [i] else old(cancelled)
    {
      if flag[i] == Locked {
        if !a.unlocks {
          return;
        }
        flag[i] := Unlocked;
      }
      if flag[i] != NotOwned {
        cancelled := cancelled + [i];
        owner := if a.cancelled then owner[i := Window] else owner;
      }
      flag[i] := NotOwned;
    }

    /** processPreviewFrameWithDisplay. */
    method ProcessFrame(d: Delivery)
      requires Valid() && Enabled(State(), d)
      modifies this`cnt, this`owner, this`delivered, this`back, this`reports, this`shown, flag, notify
      ensures Valid() && State() == Step(old(State()), d)
    {
      Display(d);
      hide ToSurface;
      Refill(d);
    }

    /** The delivered buffer is unlocked, or reported as not locked, and shown or skipped. */
    method Display(d: Delivery)
      requires Valid() && d.frame.idx < |owner|
      modifies this`cnt, this`owner, this`delivered, this`reports, this`shown, flag, notify
      ensures Valid() && State() == ToSurface(old(State()), d)
    {
      hide Choose;
      var i := d.frame.idx;
      notify[i] := d.frame;
      UnlockOrReport(d);
      var ok := ShowOrSkip(d);
      if ok {
        flag[i] := NotOwned;
      }
      delivered := delivered + [d.frame];
    }

    method UnlockOrReport(d: Delivery)
      requires Valid() && d.frame.idx < |owner|
      modifies this`reports, flag
      ensures var i, was := d.frame.idx, old(flag[..]);
              && flag[..] == was[i := if was[i] == Locked && d.unlocks then Unlocked else was[i]]
              && reports == if was[i] == Locked then old(reports) else old(reports) + [d.frame]
    {
      if flag[d.frame.idx] == Locked {
        if d.unlocks {
          flag[d.frame.idx] := Unlocked;
        }
      } else {
        reports := reports + [d.frame];
      }
    }

    method Refill(d: Delivery)
      requires Valid() && (d.dequeued.Buffer? ==> d.dequeued.i < |owner|)
      modifies this`owner, this`back, flag
      ensures Valid() && State() == FromSurface(old(State()), d)
    {
      if d.dequeued.Buffer? {
        var j := d.dequeued.i;
        flag[j] := Unlocked;
        owner := owner[j := Hal];
        if d.locks {
          flag[j] := Locked;
          if d.taken {
            owner, back := owner[j := Driver], back + [notify[j]];
          }
        }
      }
    }

    /** Counts the frame and enqueues or cancels its buffer; the answer is that of the last call made. */
    method ShowOrSkip(d: Delivery) returns (ok: bool)
      requires Valid() && d.frame.idx < |owner|
      modifies this`cnt, this`owner, this`shown
      ensures var s := Choose(old(cnt), d.mode, d.skip);
              && ok == (if s.calls == 2 then d.second else d.first)
              && cnt == s.cnt && shown == old(shown) + [s.shown]
              && owner == old(owner)[d.frame.idx := if d.first || ok then Window else Hal]
    {
      hide Rem, CMod;
      ok := d.first;
      ghost var enqueued, any := true, d.first;
      if d.skip && d.mode != NoString {
        cnt := cnt + 1;
        match d.mode {
          case Times(k) => cnt := CMod(cnt, k);
          case Off | Other | NoString =>
        }
        if d.mode == Off && cnt == 0 {
          ok := d.second;
          any := any || ok;
        } else if d.mode != Off {
          enqueued := cnt == 0;
        }
      }
      shown := shown + [enqueued];
      owner := owner[d.frame.idx := if any then Window else Hal];
    }
  }
}
