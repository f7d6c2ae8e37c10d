/** The ready queue of a stream: a singly linked list with head, tail and two counters. */
module FrameQueue {

  class FrameNode {
    var frameId: nat
    var matched: bool
    var validEntry: bool
    var next: FrameNode?

    constructor (id: nat)
      ensures frameId == id && !matched && !validEntry && next == null
    {
      frameId, matched, validEntry, next := id, false, false, null;
    }
  }

  class ReadyQueue {
    const frames: set<FrameNode>  // the frame slots of the stream: only these are ever linked
    var head: FrameNode?
    var tail: FrameNode?
    var cnt: int
    var matchCnt: int
    ghost var nodes: seq<FrameNode>

    ghost predicate Valid()
      reads this`head, this`tail, this`cnt, this`nodes, frames`next
    {
      && cnt == |nodes|
      && (forall i | 0 <= i < |nodes| :: nodes[i] in frames)
      && (forall i, j | 0 <= i < j < |nodes| :: nodes[i] != nodes[j])
      && (forall i | 0 <= i < |nodes| - 1 :: nodes[i].next == nodes[i + 1])
      && (if nodes == [] then head == null && tail == null
          else head == nodes[0] && tail == nodes[|nodes| - 1] && nodes[|nodes| - 1].next == null)
    }

    /** The queue links frames with these ids: first the matched ones, then the others. */
    ghost predicate Frames(pairs: seq<nat>, extra: seq<nat>)
      reads this`nodes, frames`frameId, frames`matched
    {
      && (forall i | 0 <= i < |nodes| :: nodes[i] in frames)
      && |nodes| == |pairs| + |extra|
      && (forall i | 0 <= i < |pairs| :: nodes[i].matched && nodes[i].frameId == pairs[i])
      && (forall i | |pairs| <= i < |nodes| :: !nodes[i].matched && nodes[i].frameId == extra[i - |pairs|])
    }

    /** ... and match_cnt counts the matched ones. */
    ghost predicate Holds(pairs: seq<nat>, extra: seq<nat>)
      reads this`nodes, this`matchCnt, frames`frameId, frames`matched
    {
      matchCnt == |pairs| && Frames(pairs, extra)
    }

    constructor (frames: set<FrameNode>)
      ensures Valid() && nodes == [] && matchCnt == 0 && this.frames == frames
    {
      this.frames := frames;
      head, tail, cnt, matchCnt, nodes := null, null, 0, 0, [];
    }

    method Enqueue(node: FrameNode)
      requires Valid() && node in frames && node !in nodes
      modifies this`head, this`tail, this`cnt, this`nodes, frames`next
      ensures Valid() && nodes == old(nodes) + [node]
    {
      node.next := null;
      if head == null {
        head, tail := node, node;
      } else {
        tail.next := node;
        tail := node;
      }
      cnt := cnt + 1;
      nodes := nodes + [node];
    }

    method Dequeue() returns (node: FrameNode?)
      requires Valid()
      modifies this`head, this`tail, this`cnt, this`nodes, frames`next
      ensures Valid()
      ensures if old(nodes) == [] then node == null && nodes == []
              else node == old(nodes)[0] && nodes == old(nodes)[1..]
    {
      node := head;
      if node == null { return; }
      if head == tail {
        head, tail := null, null;
      } else {
        head := node.next;
      }
      node.next := null;
      cnt := cnt - 1;
      nodes := nodes[1..];
    }

    /** Unlinks the node after `prev`, which need not be the last one. */
    method UnlinkAfter(prev: FrameNode, node: FrameNode, ghost k: nat)
      requires Valid() && 1 <= k < |nodes| && nodes[k - 1] == prev && nodes[k] == node
      modifies this`tail, this`cnt, this`nodes, frames`next
      ensures Valid() && nodes == old(nodes)[..k] + old(nodes)[k + 1..]
    {
      prev.next := node.next;
      if node == tail {
        tail := prev;
      }
      cnt := cnt - 1;
      nodes := nodes[..k] + nodes[k + 1..];
    }

    /** Unlinks an inner node; the tail stays. */
    method UnlinkInner(prev: FrameNode, node: FrameNode, ghost k: nat)
      requires Valid() && 1 <= k < |nodes| - 1 && nodes[k - 1] == prev && nodes[k] == node
      modifies this`cnt, this`nodes, prev`next
      ensures Valid() && nodes == old(nodes)[..k] + old(nodes)[k + 1..]
    {
      prev.next := node.next;
      cnt := cnt - 1;
      nodes := nodes[..k] + nodes[k + 1..];
    }
  }
}
