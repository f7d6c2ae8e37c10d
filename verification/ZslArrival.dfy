/** The list editing behind one arriving frame (mm_camera_notify.c), on the frame's own queue and the other stream's. */
module ZslArrival {
  import opened FrameQueue
  import opened ZslModel

  /** Two well-formed lists over the frame slots of two streams. */
  ghost predicate Separate(myq: ReadyQueue, peerq: ReadyQueue)
    reads myq`head, myq`tail, myq`cnt, myq`nodes, myq.frames`next
    reads peerq`head, peerq`tail, peerq`cnt, peerq`nodes, peerq.frames`next
  {
    && myq != peerq && myq.frames !! peerq.frames
    && myq.Valid() && peerq.Valid()
  }

  /** The frame is newer than everything waiting opposite: keep it. */
  method AppendIfNewer(
      myq: ReadyQueue, peerq: ReadyQueue, node: FrameNode, expected: nat, ghost pairs: seq<nat>,
      ghost mine: seq<nat>, ghost theirs: seq<nat>)
    requires Separate(myq, peerq) && myq.Holds(pairs, mine) && peerq.Holds(pairs, theirs) && |theirs| <= 1
    requires node in myq.frames && node !in myq.nodes && !node.matched && !node.validEntry
    requires forall x | x in pairs :: x < node.frameId
    modifies myq`head, myq`tail, myq`cnt, myq`nodes, myq.frames`next, node`validEntry
    ensures Separate(myq, peerq) && peerq.Holds(pairs, theirs)
    ensures node.validEntry <==> (if theirs == [] then pairs == [] || node.frameId >= expected
                                  else node.frameId > theirs[0] && node.frameId >= expected)
    ensures if node.validEntry then myq.nodes == old(myq.nodes) + [node] && myq.Holds(pairs, mine + [node.frameId])
            else myq.nodes == old(myq.nodes) && myq.Holds(pairs, mine)
  {
    var peerFrame := peerq.tail;
    assert peerFrame != null && theirs == [] ==> pairs[|pairs| - 1] in pairs;
    if peerFrame == null || (node.frameId > peerFrame.frameId && node.frameId >= expected) {
      myq.Enqueue(node);
      node.validEntry := true;
    }
  }

  /** Drops the unmatched frame opposite, which is the last one there. */
  method DropPeerFrame(peerq: ReadyQueue, prev: FrameNode?, peerFrame: FrameNode, ghost pairs: seq<nat>, ghost u: nat)
    returns (rest: FrameNode?, done: nat)
    requires peerq.Valid() && peerq.Holds(pairs, [u])
    requires peerFrame == peerq.nodes[|pairs|]
    requires prev == if |pairs| > 0 then peerq.nodes[|pairs| - 1] else null
    modifies peerq`head, peerq`tail, peerq`cnt, peerq`nodes, peerq.frames`next
    ensures rest == null && done == u
    ensures peerq.Valid() && peerq.nodes == old(peerq.nodes)[..|pairs|] && peerq.Holds(pairs, [])
  {
    if prev == null {
      var first := peerq.Dequeue();
      done := first.frameId;
      rest := peerq.head;
    } else {
      peerq.UnlinkAfter(prev, peerFrame, |pairs|);
      done := peerFrame.frameId;
      rest := prev.next;
    }
  }

  /** The frame has the id of the unmatched frame opposite: both are matched. */
  method MatchFrames(myq: ReadyQueue, peerq: ReadyQueue, node: FrameNode, peerFrame: FrameNode, ghost pairs: seq<nat>)
    requires Separate(myq, peerq) && myq.Holds(pairs, []) && peerq.Holds(pairs, [node.frameId])
    requires node in myq.frames && node !in myq.nodes
    requires peerFrame == peerq.nodes[|pairs|]
    modifies myq, peerq`matchCnt, myq.frames`next, node`matched, peerFrame`matched
    ensures Separate(myq, peerq) && myq.nodes == old(myq.nodes) + [node]
    ensures myq.Holds(pairs + [node.frameId], []) && peerq.Holds(pairs + [node.frameId], [])
  {
    node.matched := true;
    peerFrame.matched := true;
    myq.Enqueue(node);
    assert Separate(myq, peerq);
    myq.matchCnt := myq.matchCnt + 1;
    peerq.matchCnt := peerq.matchCnt + 1;
  }

  /** What the walk along the other queue finds for a frame. */
  datatype Verdict = Matched | TooOld | Passed(peerDropped: bool)

  function Compared(id: nat, expected: nat, theirs: seq<nat>): Verdict
    requires |theirs| <= 1
  {
    if theirs == [] then Passed(false)
    else if theirs[0] == id && id >= expected then Matched
    else if theirs[0] < id then Passed(true)
    else TooOld
  }

  /**
   The walk: frames already matched are passed over; an unmatched one has the
   same id (the caller matches the two), or is older and is dropped, or is newer
   and the arriving frame is too old.
   */
  method ScanPeer(peerq: ReadyQueue, id: nat, expected: nat, ghost pairs: seq<nat>, ghost theirs: seq<nat>)
    returns (verdict: Verdict, peerFrame: FrameNode?, donePeer: seq<nat>)
    requires peerq.Valid() && peerq.Holds(pairs, theirs) && |theirs| <= 1
    modifies peerq`head, peerq`tail, peerq`cnt, peerq`nodes, peerq.frames`next
    ensures peerq.Valid() && peerq.Holds(pairs, if verdict == Passed(true) then [] else theirs)
    ensures verdict == Compared(id, expected, theirs)
    ensures peerq.nodes == if verdict == Passed(true) then old(peerq.nodes)[..|pairs|] else old(peerq.nodes)
    ensures verdict.Matched? ==> peerFrame == peerq.nodes[|pairs|]
    ensures donePeer == if verdict == Passed(true) then theirs else []
  {
    peerFrame, donePeer := peerq.head, [];
    var prev: FrameNode? := null;
    verdict := Passed(false);
    ghost var j := 0;
    while peerFrame != null
      invariant peerq.Valid() && peerq.Holds(pairs, if verdict == Passed(true) then [] else theirs)
      invariant if verdict == Passed(true)
                then peerFrame == null && theirs != [] && theirs[0] < id && peerq.nodes == old(peerq.nodes)[..|pairs|]
                else peerq.nodes == old(peerq.nodes)
      invariant verdict == Passed(false) || verdict == Passed(true)
      invariant donePeer == if verdict == Passed(true) then theirs else []
      invariant 0 <= j <= |pairs|
      invariant verdict == Passed(false) ==> peerFrame == if j < |peerq.nodes| then peerq.nodes[j] else null
      invariant verdict == Passed(false) ==> prev == if j > 0 then peerq.nodes[j - 1] else null
      decreases peerFrame != null, |pairs| - j
    {
      if peerFrame.matched {
        prev := peerFrame;
        peerFrame := peerFrame.next;
        j := j + 1;
      } else if peerFrame.frameId == id && id >= expected {
        return Matched, peerFrame, [];
      } else if id > peerFrame.frameId {
        var done;
        peerFrame, done := DropPeerFrame(peerq, prev, peerFrame, pairs, theirs[0]);
        verdict, donePeer := Passed(true), donePeer + [done];
      } else {
        return TooOld, peerFrame, [];
      }
    }
  }

  /** The walk, and the match it may find. */
  method ScanAndMatch(
      myq: ReadyQueue, peerq: ReadyQueue, node: FrameNode, expected: nat, ghost pairs: seq<nat>,
      ghost mine: seq<nat>, ghost theirs: seq<nat>)
    returns (verdict: Verdict, donePeer: seq<nat>)
    requires Separate(myq, peerq) && myq.Holds(pairs, mine) && peerq.Holds(pairs, theirs) && |theirs| <= 1
    requires !node.matched && node in myq.frames
    requires theirs == [node.frameId] ==> mine == [] && node !in myq.nodes
    modifies myq, peerq, myq.frames`next, peerq.frames`next, peerq.frames`matched, node`matched
    ensures Separate(myq, peerq)
    ensures verdict == Compared(node.frameId, expected, theirs)
    ensures if verdict.Matched? then myq.Holds(pairs + [node.frameId], []) && peerq.Holds(pairs + [node.frameId], [])
            else myq.Holds(pairs, mine) && peerq.Holds(pairs, if verdict == Passed(true) then [] else theirs)
    ensures myq.nodes == if verdict.Matched? then old(myq.nodes) + [node] else old(myq.nodes)
    ensures peerq.nodes == if verdict == Passed(true) then old(peerq.nodes)[..|pairs|] else old(peerq.nodes)
    ensures donePeer == if verdict == Passed(true) then theirs else []
  {
    var peerFrame;
    verdict, peerFrame, donePeer := ScanPeer(peerq, node.frameId, expected, pairs, theirs);
    if verdict.Matched? {
      MatchFrames(myq, peerq, node, peerFrame, pairs);
    }
  }

  /** Whether a frame that is not matched joins its own queue. */
  predicate Kept(id: nat, expected: nat, pairs: seq<nat>, theirs: seq<nat>)
    requires |theirs| <= 1
  {
    Compared(id, expected, theirs).Passed? && (id >= expected || (theirs == [] && pairs == []))
  }

  // What the two queues hold after a comparison.

  function PairsAfter(verdict: Verdict, id: nat, pairs: seq<nat>): seq<nat> {
    if verdict.Matched? then pairs + [id] else pairs
  }

  /** In the frame's own queue an older unmatched frame, if any, still precedes it. */
  function MineAfter(verdict: Verdict, kept: bool, id: nat, mine: seq<nat>): seq<nat> {
    if verdict.Matched? then [] else if kept then mine + [id] else mine
  }

  function TheirsAfter(verdict: Verdict, theirs: seq<nat>): seq<nat> {
    if verdict.Matched? || verdict == Passed(true) then [] else theirs
  }

  /** The comparison as a whole, up to the label water_mark. */
  method PlaceFrame(
      myq: ReadyQueue, peerq: ReadyQueue, node: FrameNode, expected: nat, ghost pairs: seq<nat>,
      ghost mine: seq<nat>, ghost theirs: seq<nat>)
    returns (verdict: Verdict, donePeer: seq<nat>)
    requires Separate(myq, peerq) && myq.Holds(pairs, mine) && peerq.Holds(pairs, theirs) && |mine| + |theirs| <= 1
    requires node in myq.frames && node !in myq.nodes && !node.matched && !node.validEntry
    requires forall x | x in pairs :: x < node.frameId
    modifies myq, peerq, myq.frames`next, peerq.frames`next, peerq.frames`matched, node`matched, node`validEntry
    ensures Separate(myq, peerq)
    ensures verdict == Compared(node.frameId, expected, theirs)
    ensures node.validEntry <==> Kept(node.frameId, expected, pairs, theirs)
    ensures myq.Holds(PairsAfter(verdict, node.frameId, pairs), MineAfter(verdict, node.validEntry, node.frameId, mine))
    ensures peerq.Holds(PairsAfter(verdict, node.frameId, pairs), TheirsAfter(verdict, theirs))
    ensures myq.nodes == if verdict.Matched? || node.validEntry then old(myq.nodes) + [node] else old(myq.nodes)
    ensures peerq.nodes <= old(peerq.nodes)
    ensures donePeer == if verdict == Passed(true) then theirs else []
  {
    AppendIfNewer(myq, peerq, node, expected, pairs, mine, theirs);
    ghost var now := if node.validEntry then mine + [node.frameId] else mine;
    verdict, donePeer := ScanAndMatch(myq, peerq, node, expected, pairs, now, theirs);
  }

  /** The oldest matched frame of a queue leaves it. */
  method TakeMatched(q: ReadyQueue, ghost pairs: seq<nat>, ghost extra: seq<nat>) returns (frame: FrameNode)
    requires q.Valid() && q.Holds(pairs, extra) && pairs != []
    modifies q, q.frames`next
    ensures q.Valid() && q.Holds(pairs[1..], extra) && q.nodes == old(q.nodes)[1..]
    ensures frame.frameId == pairs[0]
  {
    var first := q.Dequeue();
    if first == null {
      assert false;
    }
    frame := first;
    q.matchCnt := q.matchCnt - 1;
  }

  /** The oldest pair leaves both queues. */
  method TakePair(
      myq: ReadyQueue, peerq: ReadyQueue, ghost pairs: seq<nat>, ghost mine: seq<nat>, ghost theirs: seq<nat>)
    returns (mineFrame: FrameNode, peerFrame: FrameNode)
    requires Separate(myq, peerq) && myq.Holds(pairs, mine) && peerq.Holds(pairs, theirs) && pairs != []
    modifies myq, peerq, myq.frames`next, peerq.frames`next
    ensures Separate(myq, peerq) && myq.Holds(pairs[1..], mine) && peerq.Holds(pairs[1..], theirs)
    ensures myq.nodes == old(myq.nodes)[1..] && peerq.nodes == old(peerq.nodes)[1..]
    ensures mineFrame.frameId == peerFrame.frameId == pairs[0]
  {
    peerFrame := TakeMatched(peerq, pairs, theirs);
    mineFrame := TakeMatched(myq, pairs, mine);
  }

  lemma HeldLength(q: ReadyQueue, pairs: seq<nat>, extra: seq<nat>)
    requires q.Holds(pairs, extra)
    ensures |q.nodes| == |pairs| + |extra|
  {
  }

  /** The watermark loop: while both queues hold too many pairs, the oldest pair leaves. */
  method TrimToWaterMark(
      myq: ReadyQueue, peerq: ReadyQueue, waterMark: nat, ghost pairs: seq<nat>, ghost mine: seq<nat>,
      ghost theirs: seq<nat>)
    returns (ghost n: nat, doneMine: seq<nat>, donePeer: seq<nat>)
    requires Separate(myq, peerq) && myq.Holds(pairs, mine) && peerq.Holds(pairs, theirs)
    modifies myq, peerq, myq.frames`next, peerq.frames`next
    ensures n == if |pairs| > waterMark then |pairs| - waterMark else 0
    ensures Separate(myq, peerq) && myq.Holds(pairs[n..], mine) && peerq.Holds(pairs[n..], theirs)
    ensures doneMine == donePeer == pairs[..n]
    ensures myq.nodes == old(myq.nodes)[n..] && peerq.nodes == old(peerq.nodes)[n..]
  {
    hide ReadyQueue.Valid, ReadyQueue.Frames, Separate;
    n, doneMine, donePeer := 0, [], [];
    ghost var left := pairs;
    assert pairs[0..] == pairs;
    while myq.matchCnt > waterMark && peerq.matchCnt > waterMark
      invariant n <= |pairs| && (n > 0 ==> |pairs| - n >= waterMark) && left == pairs[n..]
      invariant Separate(myq, peerq) && myq.Holds(left, mine) && peerq.Holds(left, theirs)
      invariant doneMine == donePeer == pairs[..n]
      invariant |myq.nodes| + n == |old(myq.nodes)| && |peerq.nodes| + n == |old(peerq.nodes)|
      invariant myq.nodes == old(myq.nodes)[n..] && peerq.nodes == old(peerq.nodes)[n..]
      decreases |left|
    {
      HeldLength(myq, left, mine);
      HeldLength(peerq, left, theirs);
      var mineFrame, peerFrame := TakePair(myq, peerq, left, mine, theirs);
      doneMine, donePeer := doneMine + [mineFrame.frameId], donePeer + [peerFrame.frameId];
      n, left := n + 1, left[1..];
    }
  }

  /** Beyond one unmatched frame, the first of them leaves its own queue. */
  method DropFirstUnmatched(myq: ReadyQueue, peerq: ReadyQueue, ghost pairs: seq<nat>, ghost extra: seq<nat>)
    returns (done: nat)
    requires Separate(myq, peerq) && myq.Holds(pairs, extra) && |extra| == 2
    modifies myq`head, myq`tail, myq`cnt, myq`nodes, myq.frames`next
    ensures Separate(myq, peerq) && myq.Holds(pairs, extra[1..]) && done == extra[0]
    ensures myq.nodes == old(myq.nodes)[..|pairs|] + old(myq.nodes)[|pairs| + 1..]
  {
    var frame := myq.head;
    var prev: FrameNode? := null;
    ghost var j := 0;
    while frame.matched
      invariant 0 <= j <= |pairs| && frame == myq.nodes[j]
      invariant prev == if j > 0 then myq.nodes[j - 1] else null
      decreases |pairs| - j
    {
      prev := frame;
      frame := prev.next;
      j := j + 1;
    }
    done := frame.frameId;
    if prev == null {
      var first := myq.Dequeue();
    } else {
      // The C code compares with the tail of the other queue, which this frame cannot be; and it is not
      // the tail of its own queue either, so nothing needs repair.
      if frame == peerq.tail {
        assert false;
      }
      myq.UnlinkInner(prev, frame, j);
    }
  }

  /** How many of the pairs the watermark loop removes. */
  function Excess(pairs: seq<nat>, waterMark: nat): nat { if |pairs| > waterMark then |pairs| - waterMark else 0 }

  /** Of two unmatched frames in a queue the older one is dropped. */
  function OldOf(extra: seq<nat>): seq<nat> { if |extra| == 2 then extra[..1] else [] }
  function LastOf(extra: seq<nat>): seq<nat> { if |extra| == 2 then extra[1..] else extra }

  /** From the label water_mark (or, with `trim` false, from the label end) to the dispatch. */
  method Settle(
      myq: ReadyQueue, peerq: ReadyQueue, waterMark: nat, trim: bool, ghost pairs: seq<nat>,
      ghost extra: seq<nat>, ghost theirs: seq<nat>)
    returns (doneMine: seq<nat>, donePeer: seq<nat>)
    requires Separate(myq, peerq) && myq.Holds(pairs, extra) && peerq.Holds(pairs, theirs)
    requires |extra| <= 2 && |theirs| <= 1
    modifies myq, peerq, myq.frames`next, peerq.frames`next
    ensures Separate(myq, peerq)
    ensures var n := if trim then Excess(pairs, waterMark) else 0;
            && myq.Holds(pairs[n..], LastOf(extra))
            && peerq.Holds(pairs[n..], theirs)
            && doneMine == pairs[..n] + OldOf(extra)
            && donePeer == pairs[..n]
    ensures forall k | k in myq.nodes :: k in old(myq.nodes)
    ensures forall k | k in peerq.nodes :: k in old(peerq.nodes)
  {
    doneMine, donePeer := [], [];
    ghost var n := 0;
    assert pairs[0..] == pairs;
    if trim {
      n, doneMine, donePeer := TrimToWaterMark(myq, peerq, waterMark, pairs, extra, theirs);
    }
    hide ReadyQueue.Holds, ReadyQueue.Valid, Separate;
    var surplus := DropSurplus(myq, peerq, pairs[n..], extra, theirs);
    doneMine := doneMine + surplus;
  }

  /** The two checks for more than one unmatched frame; only the one on the frame's own queue can fire. */
  method DropSurplus(
      myq: ReadyQueue, peerq: ReadyQueue, ghost pairs: seq<nat>, ghost extra: seq<nat>, ghost theirs: seq<nat>)
    returns (done: seq<nat>)
    requires Separate(myq, peerq) && myq.Holds(pairs, extra) && peerq.Holds(pairs, theirs)
    requires |extra| <= 2 && |theirs| <= 1
    modifies myq`head, myq`tail, myq`cnt, myq`nodes, myq.frames`next
    ensures Separate(myq, peerq) && myq.Holds(pairs, LastOf(extra)) && peerq.Holds(pairs, theirs)
    ensures done == OldOf(extra)
    ensures forall k | k in myq.nodes :: k in old(myq.nodes)
  {
    done := [];
    if myq.cnt > myq.matchCnt + 1 {
      var first := DropFirstUnmatched(myq, peerq, pairs, extra);
      done := [first];
    }
    if peerq.cnt > peerq.matchCnt + 1 {
      assert false;
    }
  }

  /**
   What one arriving frame does up to the dispatch: the verdict, the frames given
   back on each side in order, and what the queues then hold.
   */
  datatype Report = Report(verdict: Verdict, doneMine: seq<nat>, donePeer: seq<nat>)

  ghost predicate Reported(
      r: Report, id: nat, expected: nat, waterMark: nat, pairs: seq<nat>, mine: seq<nat>, theirs: seq<nat>,
      left: seq<nat>, my: seq<nat>, peer: seq<nat>)
  {
    && |theirs| <= 1
    && r.verdict == Compared(id, expected, theirs)
    && var kept := Kept(id, expected, pairs, theirs);
       var all := PairsAfter(r.verdict, id, pairs);
       var n := if r.verdict.TooOld? then 0 else Excess(all, waterMark);
       && left == all[n..]
       && my == LastOf(MineAfter(r.verdict, kept, id, mine))
       && peer == TheirsAfter(r.verdict, theirs)
       && r.doneMine == (if r.verdict.Matched? || kept then [] else [id])
                        + (all[..n] + OldOf(MineAfter(r.verdict, kept, id, mine)))
       && r.donePeer == (if r.verdict == Passed(true) then theirs else []) + all[..n]
  }

  /** A frame just read from the driver is neither matched nor entered. */
  method ResetFlags(
      myq: ReadyQueue, peerq: ReadyQueue, node: FrameNode, ghost pairs: seq<nat>, ghost mine: seq<nat>,
      ghost theirs: seq<nat>)
    requires Separate(myq, peerq) && myq.Holds(pairs, mine) && peerq.Holds(pairs, theirs)
    requires node in myq.frames && node !in myq.nodes
    modifies node`matched, node`validEntry
    ensures Separate(myq, peerq) && myq.Holds(pairs, mine) && peerq.Holds(pairs, theirs)
    ensures !node.matched && !node.validEntry
  {
    node.matched, node.validEntry := false, false;
  }

  method ArriveOnQueues(
      myq: ReadyQueue, peerq: ReadyQueue, node: FrameNode, expected: nat, waterMark: nat, ghost pairs: seq<nat>,
      ghost mine: seq<nat>, ghost theirs: seq<nat>)
    returns (r: Report, ghost left: seq<nat>, ghost my: seq<nat>, ghost peer: seq<nat>)
    requires Separate(myq, peerq) && myq.Holds(pairs, mine) && peerq.Holds(pairs, theirs) && |mine| + |theirs| <= 1
    requires node in myq.frames && node !in myq.nodes
    requires forall x | x in pairs :: x < node.frameId
    modifies myq, peerq, myq.frames`next, peerq.frames`next, peerq.frames`matched, node`matched, node`validEntry
    ensures Separate(myq, peerq) && myq.Holds(left, my) && peerq.Holds(left, peer) && |my| + |peer| <= 1
    ensures Reported(r, node.frameId, expected, waterMark, pairs, mine, theirs, left, my, peer)
  {
    hide ReadyQueue.Valid;
    hide ReadyQueue.Holds;
    ResetFlags(myq, peerq, node, pairs, mine, theirs);
    var verdict, donePeer := PlaceFrame(myq, peerq, node, expected, pairs, mine, theirs);
    var doneMine := if !node.validEntry && !verdict.Matched? then [node.frameId] else [];
    ghost var all := PairsAfter(verdict, node.frameId, pairs);
    ghost var extra := MineAfter(verdict, node.validEntry, node.frameId, mine);
    ghost var n := if verdict.TooOld? then 0 else Excess(all, waterMark);
    left, my, peer := all[n..], LastOf(extra), TheirsAfter(verdict, theirs);
    var moreMine, morePeer := Settle(myq, peerq, waterMark, !verdict.TooOld?, all, extra, peer);
    r := Report(verdict, doneMine + moreMine, donePeer + morePeer);
  }
}
