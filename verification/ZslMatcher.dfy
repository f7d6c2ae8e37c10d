/**
 The matcher as the C code runs it: two ready queues edited in place.  Arrive and
 RequestBurst are proved to perform the steps of ZslModel, so the invariant and
 the run theorems of ZslRuns and ZslBursts hold of the lists; branches of the
 source that would break them are shown never to be taken (`assert false`).
 */
module ZslMatcher {
  import opened FrameQueue
  import opened ZslArrival
  import opened ZslDrain
  import opened ZslModel
  import ZslRuns

  lemma GiveBackNone(s: Zsl, side: Side, ids: seq<nat>)
    requires ids == []
    ensures GiveBack(s, side, multiset(ids)) == s
  {
    assert LogOf(s, side).back + multiset(ids) == LogOf(s, side).back;
  }

  lemma TrimAt(u: Zsl, n: nat)
    requires n == Excess(u.pairs, u.cfg.waterMark)
    ensures Trim(u) == Gives(u.(pairs := u.pairs[n..]), multiset(u.pairs[..n]), multiset(u.pairs[..n]))
  {
  }

  /** Both sides give frames back. */
  function Gives(s: Zsl, mainBack: multiset<nat>, previewBack: multiset<nat>): Zsl {
    s.(main := s.main.(back := s.main.back + mainBack), preview := s.preview.(back := s.preview.back + previewBack))
  }

  lemma GivesTwice(s: Zsl, a: multiset<nat>, b: multiset<nat>, c: multiset<nat>, d: multiset<nat>)
    ensures Gives(Gives(s, a, b), c, d) == Gives(s, a + c, b + d)
  {
    assert (s.main.back + a) + c == s.main.back + (a + c);
    assert (s.preview.back + b) + d == s.preview.back + (b + d);
  }

  /** Returns made before, by and after the watermark loop add up in any order. */
  lemma TrimBooks(t: Zsl, side: Side, n: nat, before: seq<nat>, after: seq<nat>, theirs: seq<nat>)
    requires n == Excess(t.pairs, t.cfg.waterMark)
    ensures Returned(t.(pairs := t.pairs[n..]), side, before + (t.pairs[..n] + after), theirs + t.pairs[..n])
         == Trim(Returned(t, side, before + after, theirs))
  {
    var gone := t.pairs[..n];
    var mine, peer := multiset(before + after), multiset(theirs);
    var u := Returned(t, side, before + after, theirs);
    assert multiset(before + (gone + after)) == mine + multiset(gone);
    assert multiset(theirs + gone) == peer + multiset(gone);
    TrimAt(u, n);
    match side
    case Main =>
      assert u == Gives(t, mine, peer);
      GivesTwice(t.(pairs := t.pairs[n..]), mine, peer, multiset(gone), multiset(gone));
    case Preview =>
      assert u == Gives(t, peer, mine);
      GivesTwice(t.(pairs := t.pairs[n..]), peer, mine, multiset(gone), multiset(gone));
  }

  function Moved(s: Zsl, side: Side, id: nat, verdict: Verdict, kept: bool): Zsl {
    if verdict.Matched? then Pair(s, id)
    else if kept then s.(lone := Lone(side, id))
    else if verdict == Passed(true) then s.(lone := NoLone) else s
  }

  function Returned(t: Zsl, side: Side, mine: seq<nat>, theirs: seq<nat>): Zsl {
    GiveBack(GiveBack(t, side, multiset(mine)), Peer(side), multiset(theirs))
  }

  lemma PlaceKept(s: Zsl, side: Side, id: nat)
    requires var theirs := LoneOf(s, Peer(side)); |theirs| <= 1 && Kept(id, s.expected, s.pairs, theirs)
    ensures Place(s, side, id)
         == (Returned(s.(lone := Lone(side, id)), side, LoneOf(s, side), LoneOf(s, Peer(side))), false)
  {
    var peer := Peer(side);
    if s.lone.Lone? && s.lone.side == peer {
      assert multiset(LoneOf(s, peer)) == multiset{s.lone.id};
      GiveBackNone(s, side, LoneOf(s, side));
    } else {
      GiveBackNone(Keep(s, side, id), peer, LoneOf(s, peer));
    }
  }

  lemma PlaceRefused(s: Zsl, side: Side, id: nat)
    requires var theirs := LoneOf(s, Peer(side)); |theirs| <= 1 && !Kept(id, s.expected, s.pairs, theirs)
    requires Compared(id, s.expected, LoneOf(s, Peer(side))).Passed?
    ensures Place(s, side, id) == (Returned(s.(lone := if s.lone.Lone? && s.lone.side == side then s.lone else NoLone),
                                            side, [id], LoneOf(s, Peer(side))), false)
  {
    assert multiset([id]) == multiset{id};
    var peer := Peer(side);
    if s.lone.Lone? && s.lone.side == peer {
      assert multiset(LoneOf(s, peer)) == multiset{s.lone.id};
    } else {
      GiveBackNone(GiveBack(s, side, multiset{id}), peer, LoneOf(s, peer));
    }
  }

  /** Where the comparison leaves the frames, with the returns of both sides. */
  lemma PlaceBooks(
      s: Zsl, side: Side, id: nat, verdict: Verdict, kept: bool, before: seq<nat>, after: seq<nat>,
      theirs: seq<nat>)
    requires verdict == Compared(id, s.expected, LoneOf(s, Peer(side)))
    requires kept == Kept(id, s.expected, s.pairs, LoneOf(s, Peer(side)))
    requires before == if verdict.Matched? || kept then [] else [id]
    requires after == OldOf(MineAfter(verdict, kept, id, LoneOf(s, side)))
    requires theirs == if verdict == Passed(true) then LoneOf(s, Peer(side)) else []
    ensures Place(s, side, id)
         == (Returned(Moved(s, side, id, verdict, kept), side, before + after, theirs), verdict.TooOld?)
  {
    if verdict.Matched? {
      GiveBackNone(Pair(s, id), side, before + after);
      GiveBackNone(Pair(s, id), Peer(side), theirs);
    } else if verdict.TooOld? {
      assert before + after == [id] && multiset([id]) == multiset{id};
      GiveBackNone(GiveBack(s, side, multiset{id}), Peer(side), theirs);
    } else if kept {
      assert before + after == LoneOf(s, side);
      PlaceKept(s, side, id);
    } else {
      assert before + after == [id];
      PlaceRefused(s, side, id);
    }
  }

  /** What the list editing reports for an arriving frame is the step of the model, up to the dispatch. */
  lemma ArrivalBooks(s: Zsl, t: Zsl, side: Side, id: nat, r: Report, left: seq<nat>, my: seq<nat>, peer: seq<nat>)
    requires Reported(r, id, s.expected, s.cfg.waterMark, s.pairs, LoneOf(s, side), LoneOf(s, Peer(side)),
                      left, my, peer)
    requires var kept := Kept(id, s.expected, s.pairs, LoneOf(s, Peer(side)));
             t == Returned(Moved(s, side, id, r.verdict, kept).(pairs := left), side, r.doneMine, r.donePeer)
    ensures t == var (u, skipTrim) := Place(s, side, id); if skipTrim then u else Trim(u)
  {
    var kept := Kept(id, s.expected, s.pairs, LoneOf(s, Peer(side)));
    var before := if r.verdict.Matched? || kept then [] else [id];
    var after := OldOf(MineAfter(r.verdict, kept, id, LoneOf(s, side)));
    var theirs := if r.verdict == Passed(true) then LoneOf(s, Peer(side)) else [];
    PlaceBooks(s, side, id, r.verdict, kept, before, after, theirs);
    var m := Moved(s, side, id, r.verdict, kept);
    assert m.pairs == PairsAfter(r.verdict, id, s.pairs);
    if r.verdict.TooOld? {
      assert m.pairs[..0] + after == after && theirs + m.pairs[..0] == theirs;
    } else {
      TrimBooks(m, side, Excess(m.pairs, s.cfg.waterMark), before, after, theirs);
    }
  }

  lemma MovedLone(s: Zsl, side: Side, id: nat, verdict: Verdict, kept: bool)
    requires |LoneOf(s, Peer(side))| <= 1
    requires verdict == Compared(id, s.expected, LoneOf(s, Peer(side)))
    requires kept == Kept(id, s.expected, s.pairs, LoneOf(s, Peer(side)))
    ensures LoneOf(Moved(s, side, id, verdict, kept), side) == LastOf(MineAfter(verdict, kept, id, LoneOf(s, side)))
    ensures LoneOf(Moved(s, side, id, verdict, kept), Peer(side)) == TheirsAfter(verdict, LoneOf(s, Peer(side)))
  {
  }

  ghost function LoneFrom(mainExtra: seq<nat>, previewExtra: seq<nat>): Lone {
    if mainExtra != [] then Lone(Main, mainExtra[0])
    else if previewExtra != [] then Lone(Preview, previewExtra[0])
    else NoLone
  }

  lemma LoneFromExtras(t: Zsl, side: Side, mainExtra: seq<nat>, previewExtra: seq<nat>)
    requires |mainExtra| + |previewExtra| <= 1
    requires LoneOf(t, side) == if side == Main then mainExtra else previewExtra
    requires LoneOf(t, Peer(side)) == if side == Main then previewExtra else mainExtra
    ensures LoneFrom(mainExtra, previewExtra) == t.lone
  {
  }

  lemma ExtrasAre(s: Zsl, mainExtra: seq<nat>, previewExtra: seq<nat>)
    requires s.lone == LoneFrom(mainExtra, previewExtra) && |mainExtra| + |previewExtra| <= 1
    ensures LoneOf(s, Main) == mainExtra && LoneOf(s, Preview) == previewExtra
  {
  }

  lemma PairsBelow(s: Zsl, side: Side, id: nat)
    requires Inv(s) && Newest(s, side, id)
    ensures forall x | x in s.pairs :: x < id
  {
    QueuedArrived(s, side);
    assert forall x | x in s.pairs :: x in QueueIds(s, side);
  }

  lemma ArriveUpTo(s: Zsl, side: Side, id: nat)
    ensures var (u, skipTrim) := Place(Note(s, side, id), side, id);
            var v := if skipTrim then u else Trim(u);
            v.burst == s.burst && ZslModel.Arrive(s, side, id) == ZslModel.Dispatch(v)
  {
  }

  lemma TwiceConcat(a: seq<nat>, b: seq<nat>)
    ensures Twice(a + b) == Twice(a) + Twice(b)
  {
  }

  lemma DispatchSets(s: Zsl)
    ensures ZslModel.Dispatch(s) ==
      if s.pending <= 0 || s.pairs == [] then s
      else s.(pairs := s.pairs[1..], delivered := s.delivered + [s.pairs[0]], pending := s.pending - 1,
              burst := Burst(s.burst.asked, s.burst.got + 1, s.burst.dones + (if s.pending == 1 then 1 else 0)))
  {
  }

  lemma HandOverSets(s: Zsl, n: int)
    ensures var k := Min(Max(n, 0), |s.pairs|);
            HandOver(s, n) == s.(pairs := s.pairs[k..], delivered := s.delivered + s.pairs[..k], pending := Int8(n - k),
                                 burst := Burst(n, k, if n <= |s.pairs| && Int8(n - k) == 0 then 1 else 0))
  {
  }

  lemma TwiceOne(x: nat)
    ensures Twice([x]) == [(x, x)]
  {
  }

  lemma SkipBooksFew(s: Zsl, n: nat)
    requires n == SkipCount(s) <= |s.pairs|
    ensures Skip(s) == Returned(s.(pairs := s.pairs[n..]), Main, s.pairs[..n], s.pairs[..n])
  {
  }

  lemma SkipBooksAll(s: Zsl, n: nat)
    requires n == SkipCount(s) > |s.pairs|
    ensures Skip(s) == Returned(s.(pairs := [], lone := NoLone), Main,
                                s.pairs + LoneOf(s, Main), s.pairs + LoneOf(s, Preview))
  {
    var mx, sx := LoneOf(s, Main), LoneOf(s, Preview);
    assert s.pairs[|s.pairs|..] == [] && s.pairs[..|s.pairs|] == s.pairs;
    assert s.main.back + multiset(s.pairs + mx) == s.main.back + multiset(s.pairs) + multiset(mx);
    assert s.preview.back + multiset(s.pairs + sx) == s.preview.back + multiset(s.pairs) + multiset(sx);
    if s.lone.Lone? {
      assert multiset([s.lone.id]) == multiset{s.lone.id};
    }
    assert mx == [] ==> s.main.back + multiset(s.pairs) + multiset(mx) == s.main.back + multiset(s.pairs);
    assert sx == [] ==> s.preview.back + multiset(s.pairs) + multiset(sx) == s.preview.back + multiset(s.pairs);
  }

  /** What the skip loop does to the queues is the skip of the model. */
  lemma SkipBooks(s: Zsl, mx: seq<nat>, sx: seq<nat>, n: nat)
    requires mx == LoneOf(s, Main) && sx == LoneOf(s, Preview) && n == Skipped(|s.pairs| + |mx| + |sx|, s.cfg.lookBack)
    ensures Skip(s) == Returned(s.(pairs := Later(s.pairs, n),
                                   lone := LoneFrom(LaterExtra(s.pairs, mx, n), LaterExtra(s.pairs, sx, n))),
                                Main, Gone(s.pairs, mx, n), Gone(s.pairs, sx, n))
  {
    assert n == SkipCount(s);
    if n <= |s.pairs| {
      assert LoneFrom(mx, sx) == s.lone;
      SkipBooksFew(s, n);
    } else {
      SkipBooksAll(s, n);
    }
  }

  class ZslChannel {
    const mainQ: ReadyQueue
    const previewQ: ReadyQueue
    var expectedId: nat
    var pendingCnt: int
    var cfg: Config

    // What the lists hold, and what has happened to the frames so far.
    ghost var pairs: seq<nat>
    ghost var mainExtra: seq<nat>
    ghost var previewExtra: seq<nat>
    ghost var mainLog: Log
    ghost var previewLog: Log
    ghost var matched: seq<nat>
    ghost var delivered: seq<nat>
    ghost var burst: Burst
    ghost var handed: seq<(nat, nat)>  // the ids of the frames handed to the client, main and preview

    ghost function State(): Zsl
      reads this
    {
      Zsl(pairs, LoneFrom(mainExtra, previewExtra), expectedId, pendingCnt, cfg,
          mainLog, previewLog, matched, delivered, burst)
    }

    function QueueOf(side: Side): ReadyQueue { if side == Main then mainQ else previewQ }

    ghost function ExtraOf(side: Side): seq<nat>
      reads this`mainExtra, this`previewExtra
    {
      if side == Main then mainExtra else previewExtra
    }

    /** The lists hold the matched pairs, and at most one of them one more frame. */
    ghost predicate Linked()
      reads this`pairs, this`mainExtra, this`previewExtra, mainQ, previewQ, mainQ.frames, previewQ.frames
    {
      && Separate(mainQ, previewQ)
      && mainQ.Holds(pairs, mainExtra)
      && previewQ.Holds(pairs, previewExtra)
      && |mainExtra| + |previewExtra| <= 1
    }

    ghost predicate Valid()
      reads this, mainQ, previewQ, mainQ.frames, previewQ.frames
    {
      Linked() && Inv(State()) && handed == Twice(delivered)
    }

    constructor (cfg: Config, mainFrames: set<FrameNode>, previewFrames: set<FrameNode>)
      requires mainFrames !! previewFrames
      ensures Valid() && State() == Init(cfg)
      ensures fresh(mainQ) && fresh(previewQ) && mainQ.frames == mainFrames && previewQ.frames == previewFrames
    {
      mainQ := new ReadyQueue(mainFrames);
      previewQ := new ReadyQueue(previewFrames);
      expectedId, pendingCnt, this.cfg := 0, 0, cfg;
      pairs, mainExtra, previewExtra, matched, delivered, burst, handed := [], [], [], [], [], Burst(0, 0, 0), [];
      mainLog, previewLog := Log([], multiset{}), Log([], multiset{});
      new;
      assert Linked() && State() == Init(cfg);
      hide Inv;
      hide Linked;
      ZslRuns.InitInv(cfg);
    }

    /** The list editing of one arrival. */
    method EditQueues(side: Side, node: FrameNode) returns (r: Report)
      requires Linked()
      requires node in QueueOf(side).frames && node !in QueueOf(side).nodes
      requires forall x | x in pairs :: x < node.frameId
      modifies mainQ, previewQ, mainQ.frames, previewQ.frames, this`pairs, this`mainExtra, this`previewExtra
      ensures Linked() && node.frameId == old(node.frameId)
      ensures Reported(r, node.frameId, expectedId, cfg.waterMark,
                       old(pairs), old(ExtraOf(side)), old(ExtraOf(Peer(side))),
                       pairs, ExtraOf(side), ExtraOf(Peer(side)))
    {
      hide ReadyQueue.Valid;
      hide ReadyQueue.Holds;
      hide Reported;
      if side == Main {
        r, pairs, mainExtra, previewExtra :=
          ArriveOnQueues(mainQ, previewQ, node, expectedId, cfg.waterMark, pairs, mainExtra, previewExtra);
      } else {
        r, pairs, previewExtra, mainExtra :=
          ArriveOnQueues(previewQ, mainQ, node, expectedId, cfg.waterMark, pairs, previewExtra, mainExtra);
      }
    }

    /** The frames a step gave back, entered in the logs. */
    ghost method Give(side: Side, doneMine: seq<nat>, donePeer: seq<nat>)
      modifies this`mainLog, this`previewLog
      ensures State() == Returned(old(State()), side, doneMine, donePeer)
    {
      var m, p := multiset(doneMine), multiset(donePeer);
      if side == Main {
        mainLog, previewLog := mainLog.(back := mainLog.back + m), previewLog.(back := previewLog.back + p);
      } else {
        mainLog, previewLog := mainLog.(back := mainLog.back + p), previewLog.(back := previewLog.back + m);
      }
    }

    /** The bookkeeping of one arrival, after the list editing; `s` is the state before. */
    method Book(side: Side, id: nat, r: Report, ghost s: Zsl)
      requires Reported(r, id, s.expected, s.cfg.waterMark, s.pairs, LoneOf(s, side), LoneOf(s, Peer(side)),
                        pairs, ExtraOf(side), ExtraOf(Peer(side)))
      requires |ExtraOf(side)| + |ExtraOf(Peer(side))| <= 1
      requires State() == s.(pairs := pairs, lone := LoneFrom(mainExtra, previewExtra))
      modifies this`expectedId, this`matched, this`mainLog, this`previewLog
      ensures State() == var (u, skipTrim) := Place(s, side, id); if skipTrim then u else Trim(u)
    {
      ghost var kept := Kept(id, s.expected, s.pairs, LoneOf(s, Peer(side)));
      MovedLone(s, side, id, r.verdict, kept);
      LoneFromExtras(Moved(s, side, id, r.verdict, kept), side, mainExtra, previewExtra);
      if r.verdict.Matched? {
        expectedId := id + cfg.interval;
        matched := matched + [id];
      }
      assert State() == Moved(s, side, id, r.verdict, kept).(pairs := pairs);
      Give(side, r.doneMine, r.donePeer);
      ArrivalBooks(s, State(), side, id, r, pairs, ExtraOf(side), ExtraOf(Peer(side)));
    }

    /** The oldest pair leaves both lists, unless one of them counts no match. */
    method TakeOldest() returns (out: seq<(nat, nat)>)
      requires Linked()
      modifies mainQ, previewQ, mainQ.frames`next, previewQ.frames`next, this`pairs
      ensures Linked() && (out == [] <==> old(pairs) == [])
      ensures out != [] ==> out == [(old(pairs)[0], old(pairs)[0])]
      ensures pairs == if out == [] then old(pairs) else old(pairs)[1..]
    {
      hide ReadyQueue.Valid;
      hide ReadyQueue.Frames;
      if mainQ.matchCnt == 0 || previewQ.matchCnt == 0 {
        return [];
      }
      var mainFrame, previewFrame := TakePair(mainQ, previewQ, pairs, mainExtra, previewExtra);
      out, pairs := [(mainFrame.frameId, previewFrame.frameId)], pairs[1..];
    }

    /** The dispatch at the end of an arrival: a pending burst takes the oldest pair. */
    method Dispatch() returns (doneEvent: bool)
      requires Linked() && handed == Twice(delivered)
      modifies this, mainQ, previewQ, mainQ.frames`next, previewQ.frames`next
      ensures Linked() && handed == Twice(delivered)
      ensures State() == ZslModel.Dispatch(old(State()))
      ensures doneEvent <==> State().burst.dones == old(State()).burst.dones + 1
    {
      hide ReadyQueue.Valid;
      hide ReadyQueue.Holds;
      hide Separate, Twice, LoneFrom, ZslModel.Dispatch;
      DispatchSets(State());
      doneEvent := false;
      if pendingCnt > 0 {
        ghost var oldest := pairs;
        var out := TakeOldest();
        if out == [] {
          return;
        }
        TwiceConcat(delivered, [oldest[0]]);
        TwiceOne(oldest[0]);
        handed := handed + out;
        pendingCnt := pendingCnt - 1;
        doneEvent := pendingCnt == 0;
        delivered := delivered + [oldest[0]];
        burst := burst.(got := burst.got + 1, dones := burst.dones + (if doneEvent then 1 else 0));
      }
    }

    /** A frame arrives and is placed; too many pairs are trimmed. */
    method PlaceAndTrim(side: Side, node: FrameNode)
      requires Linked()
      requires node in QueueOf(side).frames && node !in QueueOf(side).nodes
      requires forall x | x in pairs :: x < node.frameId
      modifies mainQ, previewQ, mainQ.frames, previewQ.frames
      modifies this`pairs, this`mainExtra, this`previewExtra, this`expectedId, this`matched
      modifies this`mainLog, this`previewLog
      ensures Linked()
      ensures var s, id := old(State()), old(node.frameId);
              var (u, skipTrim) := Place(Note(s, side, id), side, id);
              State() == if skipTrim then u else Trim(u)
    {
      hide ReadyQueue.Valid;
      hide ReadyQueue.Holds;
      hide Separate;
      hide Place;
      hide Trim;
      ghost var s, id := State(), node.frameId;
      if side == Main {
        mainLog := mainLog.(arrived := mainLog.arrived + [id]);
      } else {
        previewLog := previewLog.(arrived := previewLog.arrived + [id]);
      }
      assert State() == Note(s, side, id);
      ExtrasAre(State(), mainExtra, previewExtra);
      var r := EditQueues(side, node);
      Book(side, node.frameId, r, Note(s, side, id));
    }

    /**
     A frame arrives (mm_camera_zsl_frame_cmp_and_enq).  When one of the streams is
     no longer in use the call does nothing.  Returns whether delivery-done is sent.
     */
    method Arrive(side: Side, node: FrameNode, inUse: bool) returns (doneEvent: bool)
      requires Valid()
      requires node in QueueOf(side).frames && node !in QueueOf(side).nodes
      requires Newest(State(), side, node.frameId)
      modifies this, mainQ, previewQ, mainQ.frames, previewQ.frames
      ensures Valid()
      ensures State() == if inUse then ZslModel.Arrive(old(State()), side, old(node.frameId)) else old(State())
      ensures doneEvent <==> State().burst.dones == old(State()).burst.dones + 1
    {
      hide ReadyQueue.Valid;
      hide ReadyQueue.Holds;
      hide Separate;
      hide Inv;
      hide Place;
      hide Trim;
      hide Note;
      if !inUse {
        return false;
      }
      ghost var s, id := State(), node.frameId;
      PairsBelow(s, side, id);
      PlaceAndTrim(side, node);
      ArriveUpTo(s, side, id);
      doneEvent := Dispatch();
      ZslRuns.ArriveKeeps(s, side, id);
    }

    /** Pairs go to the client until n are out or the supply is. */
    method ServeBurst(n: int) returns (doneEvent: bool)
      requires Linked() && handed == Twice(delivered)
      modifies this, mainQ, previewQ, mainQ.frames`next, previewQ.frames`next
      ensures Linked() && handed == Twice(delivered)
      ensures State() == HandOver(old(State()), n)
      ensures doneEvent <==> State().burst.dones == 1
    {
      hide ReadyQueue.Valid;
      hide ReadyQueue.Holds;
      hide Separate;
      hide Twice, LoneFrom, Int8, HandOver;
      HandOverSets(State(), n);
      var out, complete;
      pendingCnt, out, complete := HandOut(mainQ, previewQ, n, pairs, mainExtra, previewExtra);
      ghost var k := Min(Max(n, 0), |pairs|);
      doneEvent := complete && pendingCnt == 0;
      TwiceConcat(delivered, pairs[..k]);
      handed, delivered := handed + out, delivered + pairs[..k];
      pairs := pairs[k..];
      burst := Burst(n, k, if doneEvent then 1 else 0);
    }

    /** A burst of n pairs is requested (mm_camera_dispatch_buffered_frames). */
    method RequestBurst(n: int) returns (doneEvent: bool)
      requires Valid()
      modifies this, mainQ, previewQ, mainQ.frames, previewQ.frames
      ensures Valid() && State() == ZslModel.Request(old(State()), n)
      ensures doneEvent <==> State().burst.dones == 1
    {
      hide ReadyQueue.Valid;
      hide ReadyQueue.Holds;
      hide Separate;
      hide Inv;
      hide Skip;
      hide HandOver;
      ghost var s := State();
      ExtrasAre(s, mainExtra, previewExtra);
      SkipOldest();
      doneEvent := ServeBurst(n);
      ZslRuns.RequestKeeps(s, n);
    }

    /** The skip before a burst. */
    method SkipOldest()
      requires Linked()
      requires LoneOf(State(), Main) == mainExtra && LoneOf(State(), Preview) == previewExtra
      modifies mainQ, previewQ, mainQ.frames`next, previewQ.frames`next
      modifies this`pairs, this`mainExtra, this`previewExtra, this`mainLog, this`previewLog
      ensures Linked() && State() == Skip(old(State()))
    {
      hide ReadyQueue.Valid;
      hide ReadyQueue.Holds;
      hide Skip;
      hide Returned;
      ghost var s := State();
      var doneMain, donePreview := SkipFrames(mainQ, previewQ, cfg.lookBack, pairs, mainExtra, previewExtra);
      ghost var gone := Skipped(|pairs| + |mainExtra| + |previewExtra|, cfg.lookBack);
      mainExtra, previewExtra, pairs :=
        LaterExtra(pairs, mainExtra, gone), LaterExtra(pairs, previewExtra, gone), Later(pairs, gone);
      Give(Main, doneMain, donePreview);
      SkipBooks(s, LoneOf(s, Main), LoneOf(s, Preview), gone);
    }

    /** The driver fills a buffer it was given back: the frame gets its new id outside the queues. */
    method FillBuffer(side: Side, node: FrameNode, id: nat)
      requires Valid() && node in QueueOf(side).frames && node !in QueueOf(side).nodes
      modifies node`frameId
      ensures Valid() && State() == old(State()) && node.frameId == id && node !in QueueOf(side).nodes
    {
      hide Inv;
      node.frameId := id;
    }

    /** The buffering attributes of the channel are set again. */
    method SetAttributes(cfg: Config)
      requires Valid()
      modifies this`cfg
      ensures Valid() && State() == old(State()).(cfg := cfg)
    {
      hide ReadyQueue.Valid;
      hide ReadyQueue.Holds;
      hide Separate;
      hide Inv;
      ghost var s := State();
      this.cfg := cfg;
      ZslRuns.StepKeeps(s, SetAttr(cfg));
    }

    /** A stream or buffer event of the snapshot channel forgets the expected id. */
    method ResetExpected()
      requires Valid()
      modifies this`expectedId
      ensures Valid() && State() == old(State()).(expected := 0)
    {
      hide ReadyQueue.Valid;
      hide ReadyQueue.Holds;
      hide Separate;
      hide Inv;
      ghost var s := State();
      expectedId := 0;
      ZslRuns.StepKeeps(s, ChannelReset);
    }
  }

  /** What the two lists of a channel look like between any two calls. */
  lemma ListsAgree(c: ZslChannel)
    requires c.Valid()
    ensures var mq, sq, n := c.mainQ, c.previewQ, c.mainQ.matchCnt;
            && 0 <= n == sq.matchCnt <= Min(|mq.nodes|, |sq.nodes|) && |mq.nodes| + |sq.nodes| <= 2 * n + 1
            && mq.cnt == |mq.nodes| && sq.cnt == |sq.nodes|
            && (forall i | 0 <= i < |mq.nodes| :: mq.nodes[i].matched <==> i < n)
            && (forall i | 0 <= i < |sq.nodes| :: sq.nodes[i].matched <==> i < n)
            && (forall i | 0 <= i < n :: mq.nodes[i].frameId == sq.nodes[i].frameId)
            && (forall i, j | 0 <= i < j < |mq.nodes| :: mq.nodes[i].frameId < mq.nodes[j].frameId)
            && (forall i, j | 0 <= i < j < |sq.nodes| :: sq.nodes[i].frameId < sq.nodes[j].frameId)
  {
    QueueNodes(c, Main);
    QueueNodes(c, Preview);
  }

  lemma QueueNodes(c: ZslChannel, side: Side)
    requires c.Valid()
    ensures var q, ids := c.QueueOf(side), c.pairs + c.ExtraOf(side);
            && q.matchCnt == |c.pairs| && q.cnt == |q.nodes| == |ids| && Ascending(ids)
            && (forall i | 0 <= i < |ids| :: q.nodes[i].frameId == ids[i] && (q.nodes[i].matched <==> i < |c.pairs|))
            && (forall i, j | 0 <= i < j < |ids| :: q.nodes[i].frameId < q.nodes[j].frameId)
  {
    QueueAscends(c.State(), c.mainExtra, c.previewExtra, side);
    hide Inv;
    var q, ids := c.QueueOf(side), c.pairs + c.ExtraOf(side);
    HeldNodes(q, c.pairs, c.ExtraOf(side));
    hide ReadyQueue.Valid, ReadyQueue.Holds, Separate;
    AscendingNodes(q.nodes, ids);
  }

  lemma QueueAscends(s: Zsl, mainExtra: seq<nat>, previewExtra: seq<nat>, side: Side)
    requires Inv(s) && s.lone == LoneFrom(mainExtra, previewExtra) && |mainExtra| + |previewExtra| <= 1
    ensures Ascending(s.pairs + (if side == Main then mainExtra else previewExtra))
  {
    ExtrasAre(s, mainExtra, previewExtra);
    hide LoneFrom, Ascending, Conserved;
    assert SideInv(s, side);
  }

  lemma HeldNodes(q: ReadyQueue, pairs: seq<nat>, extra: seq<nat>)
    requires q.Valid() && q.Holds(pairs, extra)
    ensures q.matchCnt == |pairs| && q.cnt == |q.nodes| == |pairs + extra|
    ensures forall i | 0 <= i < |q.nodes| ::
              q.nodes[i].frameId == (pairs + extra)[i] && (q.nodes[i].matched <==> i < |pairs|)
  {
  }

  lemma AscendingNodes(nodes: seq<FrameNode>, ids: seq<nat>)
    requires |nodes| == |ids| && Ascending(ids) && forall i | 0 <= i < |ids| :: nodes[i].frameId == ids[i]
    ensures forall i, j | 0 <= i < j < |ids| :: nodes[i].frameId < nodes[j].frameId
  {
  }
}
