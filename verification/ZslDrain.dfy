/** The list editing behind a burst request (mm_camera_channel.c): both queues are drained from the front. */
module ZslDrain {
  import opened FrameQueue
  import opened ZslArrival
  import opened ZslModel

  /** Dequeues without touching the match counter. */
  method Pop(q: ReadyQueue, ghost pairs: seq<nat>, ghost extra: seq<nat>) returns (frame: FrameNode?)
    requires q.Valid() && q.Frames(pairs, extra)
    modifies q`head, q`tail, q`cnt, q`nodes, q.frames`next
    ensures q.Valid() && q.Frames(Rest(pairs), if pairs == [] then Rest(extra) else extra)
    ensures frame != null <==> pairs != [] || extra != []
    ensures frame != null ==> frame.frameId == (pairs + extra)[0] && (frame.matched <==> pairs != [])
    ensures frame != null ==> frame in q.frames && frame !in q.nodes
  {
    frame := q.Dequeue();
  }

  function Rest(ids: seq<nat>): seq<nat> { if ids == [] then [] else ids[1..] }

  /** An unmatched frame leaves only when no pair is left before it. */
  function AfterPop(pairs: seq<nat>, extra: seq<nat>): seq<nat> { if pairs == [] then [] else extra }
  function Popped(pairs: seq<nat>, extra: seq<nat>): seq<nat> { if pairs == [] then extra else pairs[..1] }

  /** Dequeues from both queues; the frames of a pair leave together. */
  method PopBoth(mq: ReadyQueue, sq: ReadyQueue, ghost pairs: seq<nat>, ghost mx: seq<nat>, ghost sx: seq<nat>)
    returns (mframe: FrameNode?, sframe: FrameNode?)
    requires Separate(mq, sq) && mq.Frames(pairs, mx) && sq.Frames(pairs, sx) && |mx| + |sx| <= 1
    modifies mq`head, mq`tail, mq`cnt, mq`nodes, mq.frames`next, sq`head, sq`tail, sq`cnt, sq`nodes, sq.frames`next
    ensures Separate(mq, sq)
    ensures mq.Frames(Rest(pairs), AfterPop(pairs, mx)) && sq.Frames(Rest(pairs), AfterPop(pairs, sx))
    ensures (mframe == null <==> pairs == [] && mx == []) && (sframe == null <==> pairs == [] && sx == [])
    ensures mframe != null ==> mframe.frameId == (pairs + mx)[0]
    ensures sframe != null ==> sframe.frameId == (pairs + sx)[0]
    ensures mframe != null ==> mframe in mq.frames && mframe !in mq.nodes && (mframe.matched <==> pairs != [])
    ensures sframe != null ==> sframe in sq.frames && sframe !in sq.nodes && (sframe.matched <==> pairs != [])
  {
    mframe := Pop(mq, pairs, mx);
    sframe := Pop(sq, pairs, sx);
  }

  /** Both counters follow a pair that has left. */
  method CountPairOut(mq: ReadyQueue, sq: ReadyQueue, ghost pairs: seq<nat>, ghost mx: seq<nat>, ghost sx: seq<nat>)
    requires Separate(mq, sq) && mq.Frames(pairs, mx) && sq.Frames(pairs, sx)
    requires mq.matchCnt == sq.matchCnt == |pairs| + 1
    modifies mq`matchCnt, sq`matchCnt
    ensures Separate(mq, sq) && mq.Holds(pairs, mx) && sq.Holds(pairs, sx)
  {
    mq.matchCnt := mq.matchCnt - 1;
    sq.matchCnt := sq.matchCnt - 1;
  }

  /** One position of the skip loop. */
  method SkipOne(mq: ReadyQueue, sq: ReadyQueue, ghost pairs: seq<nat>, ghost mx: seq<nat>, ghost sx: seq<nat>)
    returns (doneMain: seq<nat>, donePreview: seq<nat>)
    requires Separate(mq, sq) && mq.Holds(pairs, mx) && sq.Holds(pairs, sx) && |mx| + |sx| <= 1
    modifies mq, sq, mq.frames`next, sq.frames`next
    ensures Separate(mq, sq)
    ensures mq.Holds(Rest(pairs), AfterPop(pairs, mx)) && sq.Holds(Rest(pairs), AfterPop(pairs, sx))
    ensures doneMain == Popped(pairs, mx) && donePreview == Popped(pairs, sx)
  {
    hide ReadyQueue.Valid, ReadyQueue.Frames, Separate;
    var mframe, sframe := PopBoth(mq, sq, pairs, mx, sx);
    doneMain := if mframe != null then [mframe.frameId] else [];
    donePreview := if sframe != null then [sframe.frameId] else [];
    if mframe != null && sframe != null && mframe.frameId == sframe.frameId {
      CountPairOut(mq, sq, Rest(pairs), mx, sx);
    }
  }

  // What is left in a queue after n positions are gone, and what went.

  function Skipped(longer: nat, lookBack: int): nat { if longer > lookBack then longer - lookBack else 0 }
  function Later(pairs: seq<nat>, n: nat): seq<nat> { if n <= |pairs| then pairs[n..] else [] }
  function LaterExtra(pairs: seq<nat>, extra: seq<nat>, n: nat): seq<nat> { if n <= |pairs| then extra else [] }
  function Gone(pairs: seq<nat>, extra: seq<nat>, n: nat): seq<nat> {
    if n <= |pairs| then pairs[..n] else pairs + extra
  }

  lemma GoneStep(pairs: seq<nat>, extra: seq<nat>, n: nat)
    ensures var left, last := Later(pairs, n), LaterExtra(pairs, extra, n);
            && Later(pairs, n + 1) == Rest(left) && LaterExtra(pairs, extra, n + 1) == AfterPop(left, last)
            && Gone(pairs, extra, n + 1) == Gone(pairs, extra, n) + Popped(left, last)
  {
  }

  method LongerCount(mq: ReadyQueue, sq: ReadyQueue, ghost pairs: seq<nat>, ghost mx: seq<nat>, ghost sx: seq<nat>)
    returns (count: int)
    requires Separate(mq, sq) && mq.Holds(pairs, mx) && sq.Holds(pairs, sx) && |mx| + |sx| <= 1
    ensures count == |pairs| + |mx| + |sx|
  {
    count := mq.cnt;
    if count < sq.cnt {
      count := sq.cnt;
    }
  }

  /** mm_camera_channel_skip_frames: how many positions go, and which frames are given back on each side. */
  method SkipFrames(
      mq: ReadyQueue, sq: ReadyQueue, lookBack: int, ghost pairs: seq<nat>, ghost mx: seq<nat>,
      ghost sx: seq<nat>)
    returns (doneMain: seq<nat>, donePreview: seq<nat>)
    requires Separate(mq, sq) && mq.Holds(pairs, mx) && sq.Holds(pairs, sx) && |mx| + |sx| <= 1
    modifies mq, sq, mq.frames`next, sq.frames`next
    ensures Separate(mq, sq)
    ensures var n := Skipped(|pairs| + |mx| + |sx|, lookBack);
            && mq.Holds(Later(pairs, n), LaterExtra(pairs, mx, n))
            && sq.Holds(Later(pairs, n), LaterExtra(pairs, sx, n))
            && doneMain == Gone(pairs, mx, n)
            && donePreview == Gone(pairs, sx, n)
  {
    hide ReadyQueue.Valid;
    hide ReadyQueue.Holds;
    var count := LongerCount(mq, sq, pairs, mx, sx);
    count := count - lookBack;
    doneMain, donePreview := [], [];
    assert pairs[0..] == pairs;
    var i := 0;
    while i < count
      invariant 0 <= i && (i <= count || i == 0)
      invariant Separate(mq, sq)
      invariant mq.Holds(Later(pairs, i), LaterExtra(pairs, mx, i))
      invariant sq.Holds(Later(pairs, i), LaterExtra(pairs, sx, i))
      invariant doneMain == Gone(pairs, mx, i) && donePreview == Gone(pairs, sx, i)
    {
      var moreMain, morePreview := SkipOne(mq, sq, Later(pairs, i), LaterExtra(pairs, mx, i), LaterExtra(pairs, sx, i));
      GoneStep(pairs, mx, i);
      GoneStep(pairs, sx, i);
      doneMain, donePreview := doneMain + moreMain, donePreview + morePreview;
      i := i + 1;
    }
  }

  /** A frame taken from an otherwise empty queue is put back: the queue is as it was. */
  method PutBack(q: ReadyQueue, frame: FrameNode)
    requires q.Valid() && q.Holds([], []) && frame in q.frames && !frame.matched
    modifies q`head, q`tail, q`cnt, q`nodes, q.frames`next
    ensures q.Valid() && q.Holds([], [frame.frameId])
  {
    q.Enqueue(frame);
  }

  /** After a failed round, whatever was taken goes back in. */
  method PutBackBoth(
      mq: ReadyQueue, sq: ReadyQueue, mframe: FrameNode?, sframe: FrameNode?, ghost mx: seq<nat>,
      ghost sx: seq<nat>)
    requires Separate(mq, sq) && mq.Holds([], []) && sq.Holds([], [])
    requires mframe != null ==> mframe in mq.frames && !mframe.matched && mx == [mframe.frameId]
    requires sframe != null ==> sframe in sq.frames && !sframe.matched && sx == [sframe.frameId]
    requires (mframe == null ==> mx == []) && (sframe == null ==> sx == [])
    modifies mq`head, mq`tail, mq`cnt, mq`nodes, mq.frames`next, sq`head, sq`tail, sq`cnt, sq`nodes, sq.frames`next
    ensures Separate(mq, sq) && mq.Holds([], mx) && sq.Holds([], sx)
  {
    if mframe != null {
      PutBack(mq, mframe);
    }
    if sframe != null {
      PutBack(sq, sframe);
    }
  }

  lemma Int8Step(x: int)
    ensures Int8(Int8(x) - 1) == Int8(x - 1)
  {
  }

  /** One round of the burst loop; in a failed round the frame one queue still had goes back in. */
  method HandOne(mq: ReadyQueue, sq: ReadyQueue, ghost pairs: seq<nat>, ghost mx: seq<nat>, ghost sx: seq<nat>)
    returns (out: seq<(nat, nat)>)
    requires Separate(mq, sq) && mq.Holds(pairs, mx) && sq.Holds(pairs, sx) && |mx| + |sx| <= 1
    modifies mq, sq, mq.frames`next, sq.frames`next
    ensures Separate(mq, sq) && mq.Holds(Rest(pairs), mx) && sq.Holds(Rest(pairs), sx)
    ensures out == if pairs == [] then [] else [(pairs[0], pairs[0])]
  {
    var mframe, sframe := PopBoth(mq, sq, pairs, mx, sx);
    out := [];
    if mframe != null && sframe != null {
      if mframe.frameId != sframe.frameId {
        assert false;  // the reported "ZSL algorithm error"
      }
      out := [(mframe.frameId, sframe.frameId)];
      CountPairOut(mq, sq, Rest(pairs), mx, sx);
    } else {
      PutBackBoth(mq, sq, mframe, sframe, mx, sx);
    }
  }

  function Twice(ids: seq<nat>): seq<(nat, nat)> { seq(|ids|, i requires 0 <= i < |ids| => (ids[i], ids[i])) }

  lemma TwiceStep(ids: seq<nat>, i: nat)
    requires i < |ids|
    ensures Twice(ids[..i + 1]) == Twice(ids[..i]) + [(ids[i], ids[i])]
    ensures Rest(ids[i..]) == ids[i + 1..] && ids[i..][0] == ids[i]
  {
  }

  /**
   The burst loop: pairs go to the client until n are out or a queue is empty.
   `pending` is the eight-bit count of pairs still owed.
   */
  method HandOut(mq: ReadyQueue, sq: ReadyQueue, n: int, ghost pairs: seq<nat>, ghost mx: seq<nat>, ghost sx: seq<nat>)
    returns (pending: int, out: seq<(nat, nat)>, complete: bool)
    requires Separate(mq, sq) && mq.Holds(pairs, mx) && sq.Holds(pairs, sx) && |mx| + |sx| <= 1
    modifies mq, sq, mq.frames`next, sq.frames`next
    ensures Separate(mq, sq)
    ensures var k := Min(Max(n, 0), |pairs|);
            && mq.Holds(pairs[k..], mx) && sq.Holds(pairs[k..], sx)
            && out == Twice(pairs[..k])
            && pending == Int8(n - k)
    ensures complete <==> n <= |pairs|
  {
    hide ReadyQueue.Valid;
    hide ReadyQueue.Holds;
    pending, out, complete := Int8(n), [], true;
    assert pairs[0..] == pairs;
    var i := 0;
    while i < n
      invariant 0 <= i <= |pairs| && i <= Max(n, 0)
      invariant Separate(mq, sq) && mq.Holds(pairs[i..], mx) && sq.Holds(pairs[i..], sx)
      invariant out == Twice(pairs[..i]) && pending == Int8(n - i) && complete
    {
      var pair := HandOne(mq, sq, pairs[i..], mx, sx);
      if pair == [] {
        complete := false;
        break;
      }
      Int8Step(n - i);
      TwiceStep(pairs, i);
      out, pending := out + pair, Int8(pending - 1);
      i := i + 1;
    }
  }
}