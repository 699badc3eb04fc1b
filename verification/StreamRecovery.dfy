/**
 * Loss never stops a stream for good. From any state of two live ends with receive windows of at least
 * INIT_WINDOW, one firing of the retransmission timer, the arrival of what it sent, and the receiver's
 * answer, at once or from its delayed-ACK timer, acknowledge everything; and one firing of the probe
 * timer lets a reader go on whose window update was lost.
 */
module StreamRecovery {
  import opened Bytes
  import opened StreamTypes
  import opened StreamEnd
  import opened StreamInv
  import opened StreamStep
  import opened StreamLive
  import opened StreamSystem
  import opened StreamTheorems
  import opened StreamFlow

  /** A frame that carries segment g. */
  predicate Carries(f: Frame, g: Segment) {
    f.kind == g.kind && f.num == g.num && f.payload == g.data
  }

  /** onTimer sends every unacknowledged segment, in order. */
  lemma {:induction false} ResendFromFrames(e: End, i: nat, now: int)
    requires i <= |e.snd.unacked|
    ensures var out' := ResendFrom(e, i, now).out;
            |out'| == |e.out| + |e.snd.unacked| - i && e.out <= out'
            && (forall k :: i <= k < |e.snd.unacked| ==> Carries(out'[|e.out| + k - i], e.snd.unacked[k]))
    decreases |e.snd.unacked| - i
  {
    if i < |e.snd.unacked| {
      var e1 := Resend(e, i, now);
      ResendFromFrames(e1, i + 1, now);
      var out' := ResendFrom(e, i, now).out;
      assert out'[|e.out|] == e1.out[|e.out|];
      forall k | i <= k < |e.snd.unacked| ensures Carries(out'[|e.out| + k - i], e.snd.unacked[k]) {
        if k > i { assert Carries(out'[|e1.out| + k - (i + 1)], e1.snd.unacked[k]); }
      }
    }
  }

  lemma TimerResends(e: End, now: int)
    requires !e.dead && |e.snd.unacked| > 0 && !TimedOut(e, now)
    ensures var r := ResendFrom(e.(rtx := e.rtx.(armed := false)), 0, now);
            var e' := OnTimer(e, now);
            e'.tx == r.tx + Marked(r.out, r.cfg.client) && e'.dead == r.dead && e'.snd == r.snd && e'.rcv == r.rcv
  {
    hide ResendFrom, Min, Pow2, NeedsTimer, Marked;
  }

  /** The frames a timer firing puts on the lines. */
  lemma TimerFrames(e: End, now: int)
    requires e.out == [] && !e.dead && |e.snd.unacked| > 0 && !TimedOut(e, now)
    ensures var e' := OnTimer(e, now);
            !e'.dead && |e'.tx| == |e.tx| + |e.snd.unacked| && e.tx <= e'.tx
            && (forall k :: 0 <= k < |e.snd.unacked| ==> Carries(e'.tx[|e.tx| + k], e.snd.unacked[k]))
            && e'.snd.log == e.snd.log && e'.snd.nxt == e.snd.nxt && e'.snd.right == e.snd.right
            && e'.snd.finQueued == e.snd.finQueued && e'.rcv == e.rcv
  {
    hide ResendFrom, OnTimer;
    var e1 := e.(rtx := e.rtx.(armed := false));
    TimerResends(e, now);
    ResendFromFrames(e1, 0, now);
    ResendFromKeeps(e1, 0, now);
    var out := ResendFrom(e1, 0, now).out;
    forall k | 0 <= k < |e.snd.unacked| ensures Carries(OnTimer(e, now).tx[|e.tx| + k], e.snd.unacked[k]) {
      assert Carries(out[0 + k - 0], e1.snd.unacked[k]);
    }
  }

  lemma {:induction false} ResendFromKeeps(e: End, i: nat, now: int)
    requires i <= |e.snd.unacked|
    ensures var e' := ResendFrom(e, i, now);
            e'.dead == e.dead && e'.tx == e.tx && e'.cfg == e.cfg && e'.rcv == e.rcv
            && e'.snd.log == e.snd.log && e'.snd.nxt == e.snd.nxt && e'.snd.right == e.snd.right
            && e'.snd.finQueued == e.snd.finQueued
    decreases |e.snd.unacked| - i
  {
    if i < |e.snd.unacked| { ResendFromKeeps(Resend(e, i, now), i + 1, now); }
  }

  /** Nothing new is written in answer to a frame, and only finishing can end the stream. */
  lemma FrameLeaves(e: End, f: Frame, now: int, plog: seq<Item>)
    requires EndInv(e, plog) && Genuine(e, f, plog) && f.kind != Rst
    ensures var e' := HandleFrame(e, f, now);
            e'.snd.log == e.snd.log && (e'.dead && !e.dead ==> e'.finished)
            && e'.snd.finQueued == e.snd.finQueued && e'.rcv.finWritten == e.rcv.finWritten
  {
    hide FramesInv, SndInv, RcvInv, LinkInv, ProcessAck, ProcessSegment, HandleDead;
    var e1 := e.(lastHeard := now);
    if !e.dead {
      ProcessAckInv(e1, f, now);
      if f.Segment() { ProcessSegmentInv(ProcessAck(e1, f, now), f, plog); }
    } else {
      DeadLeaves(e, f);
    }
  }

  lemma DeadLeaves(e: End, f: Frame)
    ensures HandleDead(e, f).snd == e.snd && HandleDead(e, f).rcv == e.rcv && HandleDead(e, f).dead == e.dead
    ensures HandleDead(e, f).finished == e.finished
  {
  }

  /** The receiver is live, or has finished with all there is. */
  ghost predicate Receptive(e: End, plog: seq<Item>) { e.dead ==> e.finished && e.rcv.dlv == plog }

  lemma FinishedHasAll(e: End, plog: seq<Item>)
    requires EndInv(e, plog) && e.finished
    ensures e.rcv.dlv == plog
  {
    hide FramesInv, SndInv, LinkInv, Parked;
    assert e.rcv.fin;
    assert e.rcv.dlv[|e.rcv.dlv| - 1] == plog[|e.rcv.dlv| - 1];
  }

  lemma InOrderTakes(e: End, f: Frame, plog: seq<Item>, j: nat)
    requires EndSane(e) && RcvInv(false, e.writer, e.rcv, plog) && !e.dead && f.Segment()
    requires Genuine(e, f, plog) && LinkInv(e.cfg, e.link, e.rcv.dlv, e.reader, e.writer)
    requires |e.rcv.dlv| == j && ItemAt(plog, j, f.num, f.kind, f.payload) && !Refused(e, Received(f))
    ensures |ProcessSegment(e, f).rcv.dlv| > j
  {
    hide FramesInv, LinkInv, Drain, Deliver, DelayAck, EndSane, Parked;
    var g := Received(f);
    if f.kind == Fin { FinCarriesNothing(!e.cfg.client, plog, f.num, f.payload); }
    StartEnd(e.rcv.dlv);
    StartPrefix(e.rcv.dlv, plog, j);
    InOrderInv(e, g, Deliver(e, g).rcv.nxt in Deliver(e, g).rcv.ooo, plog);
  }

  /** A frame carrying item j leaves at least j + 1 items delivered. */
  lemma Takes(e: End, f: Frame, now: int, plog: seq<Item>, j: nat, right: int)
    requires EndInv(e, plog) && Genuine(e, f, plog) && Receptive(e, plog) && f.Segment()
    requires ItemAt(plog, j, f.num, f.kind, f.payload) && j <= |e.rcv.dlv|
    requires Roomy(e.rcv, e.cfg.window, right) && InWindow(plog, right)
    ensures var e' := HandleFrame(e, f, now);
            |e'.rcv.dlv| > j && Receptive(e', plog)
  {
    hide FramesInv, SndInv, RcvInv, LinkInv, ProcessAck, ProcessSegment, InWindow, HandleDead;
    HandleFrameInv(e, f, now, plog);
    FrameLeaves(e, f, now, plog);
    var e' := HandleFrame(e, f, now);
    if e'.finished { FinishedHasAll(e', plog); }
    if e.dead {
      DeadLeaves(e, f);
    } else if |e.rcv.dlv| == j {
      var e1 := ProcessAck(e.(lastHeard := now), f, now);
      ProcessAckInv(e.(lastHeard := now), f, now);
      assert !Refused(e1, Received(f)) by { NotRefused(e1, f, plog, j, right); }
      InOrderTakes(e1, f, plog, j);
    }
  }

  lemma NotRefused(e: End, f: Frame, plog: seq<Item>, j: nat, right: int)
    requires RcvInv(false, e.writer, e.rcv, plog) && |e.rcv.dlv| == j
    requires ItemAt(plog, j, f.num, f.kind, f.payload)
    requires Roomy(e.rcv, e.cfg.window, right) && InWindow(plog, right)
    ensures !Refused(e, Received(f))
  {
    hide Parked;
    assert EndsBy(plog, j, right);
    StartEnd(e.rcv.dlv);
    StartPrefix(e.rcv.dlv, plog, j);
  }

  /** The lines deliver fs one after the other. */
  function Feed(e: End, fs: seq<Frame>, now: int): End {
    if |fs| == 0 then e else HandleFrame(Feed(e, fs[..|fs| - 1], now), fs[|fs| - 1], now)
  }

  /** What holds of two ends in any reachable state with room at the receiver. */
  ghost predicate Coupled(e: End, peer: End) {
    && e.cfg.client != peer.cfg.client
    && EndInv(e, peer.snd.log) && EndInv(peer, e.snd.log) && Flow(e, peer) && Flow(peer, e)
    && RoomyEnds(e, peer)
  }

  lemma ActCoupled(e: End, peer: End, f: Frame, now: int)
    requires Coupled(e, peer) && f in e.tx && f.kind != Rst
    ensures Coupled(e, HandleFrame(peer, f, now)) && Genuine(peer, f, e.snd.log)
    ensures HandleFrame(peer, f, now).cfg == peer.cfg
  {
    hide EndInv, HandleFrame, Flow, RoomyEnds, Genuine;
    SentFlag(e, peer.snd.log, f);
    SentIsGenuine(peer, e, f);
    var ev := Recv(f, now);
    assert Step(peer, ev) == HandleFrame(peer, f, now);
    ActInv(peer, e, ev);
    ActRoomy(peer, e, ev);
  }

  lemma SentFlag(e: End, plog: seq<Item>, f: Frame)
    requires EndInv(e, plog) && f in e.tx
    ensures f.fromClient == e.cfg.client
  {
  }

  /** The first n unacknowledged segments, delivered in order, are all taken. */
  lemma {:induction false} FeedTakes(e: End, peer: End, fs: seq<Frame>, now: int)
    requires Coupled(e, peer) && Receptive(peer, e.snd.log) && !e.dead && |fs| <= |e.snd.unacked|
    requires forall k :: 0 <= k < |fs| ==> fs[k] in e.tx && Carries(fs[k], e.snd.unacked[k])
    ensures var peer' := Feed(peer, fs, now);
            Coupled(e, peer') && Receptive(peer', e.snd.log) && e.snd.acked + |fs| <= |peer'.rcv.dlv|
  {
    hide EndInv, HandleFrame, RoomyEnds;
    if |fs| > 0 {
      var n := |fs| - 1;
      FeedTakes(e, peer, fs[..n], now);
      var p := Feed(peer, fs[..n], now);
      var f := fs[n];
      assert Carries(f, e.snd.unacked[n]);
      UnackedAt(e, p.snd.log, n);
      ActCoupled(e, p, f, now);
      TakesNext(e, p, f, now, e.snd.acked + n);
    }
  }

  lemma UnackedAt(e: End, plog: seq<Item>, n: nat)
    requires EndInv(e, plog) && !e.dead && n < |e.snd.unacked|
    ensures var g := e.snd.unacked[n];
            ItemAt(e.snd.log, e.snd.acked + n, g.num, g.kind, g.data)
            && (g.kind == Open || g.kind == Data || g.kind == Fin)
    ensures e.snd.acked + |e.snd.unacked| == |e.snd.log|
  {
    hide FramesInv, RcvInv, LinkInv, InWindow;
    assert Matches(e.snd.unacked[n], e.snd.log, e.snd.acked + n);
  }

  lemma TakesNext(e: End, p: End, f: Frame, now: int, j: nat)
    requires Coupled(e, p) && Genuine(p, f, e.snd.log) && Receptive(p, e.snd.log) && f.Segment()
    requires ItemAt(e.snd.log, j, f.num, f.kind, f.payload) && j <= |p.rcv.dlv|
    ensures |HandleFrame(p, f, now).rcv.dlv| > j && Receptive(HandleFrame(p, f, now), e.snd.log)
  {
    hide EndInv, HandleFrame;
    InWindowOf(e, p.snd.log);
    Takes(p, f, now, e.snd.log, j, e.snd.right);
  }

  lemma LiveAnswers(e: End, f: Frame, now: int, plog: seq<Item>)
    requires EndInv(e, plog) && Genuine(e, f, plog) && !e.dead && e.rcv.dlv == plog && f.Segment()
    ensures HandleLive(e, f, now) == MaybeFinish(QueueAck(ProcessAck(e, f, now), false, false))
    ensures var a := ProcessAck(e, f, now); a.tx == e.tx && a.rcv == e.rcv && a.cfg == e.cfg
  {
    hide FramesInv, SndInv, LinkInv, ProcessAck, Parked, LogOk, MaybeFinish, FillAck;
    ProcessAckInv(e, f, now);
    var e1 := ProcessAck(e, f, now);
    assert Received(f).End() <= e1.rcv.nxt by { HasIt(e.rcv, plog, f); }
    assert ProcessSegment(e1, f) == QueueAck(e1, false, false);
    assert |QueueAck(e1, false, false).out| > 0;
  }

  lemma Finishes(e: End)
    ensures MaybeFinish(e).out == e.out && MaybeFinish(e).tx == e.tx && MaybeFinish(e).cfg == e.cfg
    ensures MaybeFinish(e).rcv.nxt == e.rcv.nxt
  {
  }

  /** A segment the receiver already has is acknowledged at once, by the last frame it sends. */
  lemma DuplicateAnswered(e: End, f: Frame, now: int, plog: seq<Item>)
    requires EndInv(e, plog) && Genuine(e, f, plog) && Receptive(e, plog)
    requires e.rcv.dlv == plog && f.Segment()
    ensures var e' := HandleFrame(e, f, now);
            |e'.tx| > |e.tx| && e'.rcv.nxt == e.rcv.nxt
            && (var a := e'.tx[|e'.tx| - 1]; a.kind == Ack && a.ack == e.rcv.nxt)
  {
    hide EndInv, ProcessAck, MaybeFinish, HandleLive, Genuine, FillAck;
    if e.dead {
      AnswerLast(e, QueueAck(e, false, false));
    } else {
      var e1 := e.(lastHeard := now);
      assert EndInv(e1, plog) && Genuine(e1, f, plog) by { HeardInv(e, e1, f, plog); }
      LiveAnswers(e1, f, now, plog);
      var e2 := QueueAck(ProcessAck(e1, f, now), false, false);
      Finishes(e2);
      AnswerLast(e, MaybeFinish(e2));
    }
  }

  lemma HeardInv(e: End, e': End, f: Frame, plog: seq<Item>)
    requires EndInv(e, plog) && Genuine(e, f, plog) && e' == e.(lastHeard := e'.lastHeard)
    ensures EndInv(e', plog) && Genuine(e', f, plog)
  {
    hide FramesInv, SndInv, RcvInv, LinkInv;
  }

  lemma HasIt(r: Rcv, plog: seq<Item>, f: Frame)
    requires r.dlv == plog && r.nxt == Size(r.dlv) && f.Segment() && Queued(plog, f.num, f.kind, f.payload)
    ensures Received(f).End() <= r.nxt
  {
    var i :| ItemAt(plog, i, f.num, f.kind, f.payload);
    StartNext(plog, i);
    StartMonotone(plog, i + 1, |plog|);
    StartEnd(plog);
  }

  lemma AnswerLast(e: End, e': End)
    requires |e'.out| > 0
    ensures var tx := Flush(e').tx; |tx| > |e'.tx| && tx[|tx| - 1] == Mark(e'.out[|e'.out| - 1], e'.cfg.client)
  {
  }

  /** What a firing of the timer sends are the unacknowledged segments, and it couples as before. */
  lemma RoundCarries(e: End, peer: End, now: int, later: int)
    requires Coupled(e, peer) && !e.dead && |e.snd.unacked| > 0 && !TimedOut(e, now)
    ensures var e1 := OnTimer(e, now);
            Coupled(e1, peer) && !e1.dead && e.tx <= e1.tx && |e1.tx| - |e.tx| == |e1.snd.unacked| == |e.snd.unacked|
            && (var fs := e1.tx[|e.tx|..];
                forall k :: 0 <= k < |fs| ==> fs[k] in e1.tx && Carries(fs[k], e1.snd.unacked[k]))
  {
    hide EndInv, HandleFrame, OnTimer, RoomyEnds;
    NothingOut(e, peer.snd.log);
    TimerFrames(e, now);
    var e1 := OnTimer(e, now);
    var fs := e1.tx[|e.tx|..];
    TimerCoupled(e, peer, now);
    Carried(e, e1, peer, now);
    forall k | 0 <= k < |fs| ensures fs[k] in e1.tx && Carries(fs[k], e1.snd.unacked[k]) {
      assert fs[k] == e1.tx[|e.tx| + k];
      assert Carries(fs[k], e.snd.unacked[k]);
    }
  }

  /** The timer fires and the frames it sends all arrive: the receiver has everything. */
  lemma RoundDelivers(e: End, peer: End, now: int, later: int)
    requires Coupled(e, peer) && !e.dead && !peer.dead
    requires |e.snd.unacked| > 0 && !TimedOut(e, now)
    ensures var e1 := OnTimer(e, now);
            e.tx <= e1.tx && |e.tx| < |e1.tx| && !e1.dead && e1.snd.log == e.snd.log && e1.snd.nxt == e.snd.nxt
            && e1.snd.finQueued == e.snd.finQueued && e1.rcv == e.rcv && e1.tx[|e1.tx| - 1].Segment()
            && (var p := Feed(peer, e1.tx[|e.tx|..], later);
                Coupled(e1, p) && Receptive(p, e.snd.log) && p.rcv.dlv == e.snd.log)
  {
    hide EndInv, HandleFrame, OnTimer, RoomyEnds, Feed;
    NothingOut(e, peer.snd.log);
    TimerFrames(e, now);
    var e1 := OnTimer(e, now);
    var fs := e1.tx[|e.tx|..];
    RoundCarries(e, peer, now, later);
    FeedTakes(e1, peer, fs, later);
    var p := Feed(peer, fs, later);
    UnackedAt(e1, p.snd.log, |fs| - 1);
    assert Carries(fs[|fs| - 1], e1.snd.unacked[|fs| - 1]);
    DlvWithin(p, e1.snd.log);
  }

  // ---- the answer -----------------------------------------------------------------------

  /** What a frame that is no RST leaves of a live end. */
  lemma AfterFrame(e: End, f: Frame, now: int, plog: seq<Item>)
    requires EndInv(e, plog) && Genuine(e, f, plog) && !e.dead && f.kind != Rst
    ensures var a := ProcessAck(e.(lastHeard := now), f, now);
            var e' := HandleFrame(e, f, now);
            && e'.snd == a.snd.(unacked := e'.snd.unacked) && e'.reader == e.reader && e'.writer == e.writer
            && (e'.dead <==> a.snd.finQueued && a.snd.una == a.snd.nxt && e.rcv.finWritten)
            && (e'.dead ==> e'.finished)
            && (!e'.dead ==> e'.snd == a.snd && e'.wake.send == a.wake.send && e'.rcv.finWritten == e.rcv.finWritten)
  {
    hide FramesInv, SndInv, RcvInv, LinkInv, ProcessAck, ProcessSegment;
    var e1 := e.(lastHeard := now);
    ProcessAckInv(e1, f, now);
    if f.Segment() { ProcessSegmentInv(ProcessAck(e1, f, now), f, plog); }
  }

  /** Frame a, arriving at e, acknowledges everything e has sent, and ends e if nothing else is left to do. */
  ghost predicate Completes(e: End, a: Frame, now: int) {
    var e' := HandleFrame(e, a, now);
    && e'.snd.una == e'.snd.nxt == e.snd.nxt
    && (e.snd.finQueued && e.rcv.finWritten ==> e'.finished)
  }

  lemma AckCompletes(e: End, p: End, a: Frame, now: int)
    requires EndInv(e, p.snd.log) && EndInv(p, e.snd.log) && !e.dead
    requires a in p.tx && a.kind != Rst && a.ack == e.snd.nxt
    ensures Completes(e, a, now)
  {
    hide FramesInv, SndInv, RcvInv, LinkInv, ProcessAck, HandleFrame, Genuine;
    SentIsGenuine(e, p, a);
    AfterFrame(e, a, now, p.snd.log);
    var e1 := e.(lastHeard := now);
    assert Boundary(e1.snd.log, a.ack) by { GenuineAck(e, a, p.snd.log); }
    ProcessAckInv(e1, a, now);
    UnaNxt(e1.cfg, e1.dead, e1.reader, e1.snd);
  }

  lemma GenuineAck(e: End, f: Frame, plog: seq<Item>)
    requires Genuine(e, f, plog) && f.kind != Rst
    ensures Boundary(e.snd.log, f.ack)
  {
  }

  /** One more copy of a segment draws the acknowledgement of everything. */
  lemma RoundAcks(e: End, p: End, f: Frame, later: int)
    requires Coupled(e, p) && Receptive(p, e.snd.log) && !e.dead && p.rcv.dlv == e.snd.log
    requires f in e.tx && f.Segment()
    ensures var p1 := HandleFrame(p, f, later);
            |p1.tx| > |p.tx| && p1.rcv.dlv == e.snd.log && p1.tx[|p1.tx| - 1].kind == Ack
            && (var e' := HandleFrame(e, p1.tx[|p1.tx| - 1], later);
                e'.snd.una == e'.snd.nxt == e.snd.nxt
                && (e.snd.finQueued && e.rcv.finWritten ==> e'.finished))
  {
    hide EndInv, HandleFrame, RoomyEnds, Genuine;
    ActCoupled(e, p, f, later);
    DuplicateAnswered(p, f, later, e.snd.log);
    var p1 := HandleFrame(p, f, later);
    var a := p1.tx[|p1.tx| - 1];
    HandleFrameInv(p, f, later, e.snd.log);
    DlvWithin(p1, e.snd.log);
    SizesAgree(e, p1);
    AckCompletes(e, p1, a, later);
  }

  /** A live receiver has its timers set, and one that has died has said all it received. */
  ghost predicate Spoken(e: End) { LiveInv(e) && (e.dead ==> Said(e.rcv.dlv, e.rcv.nxt, e.tx)) }

  /** Nothing is delivered behind a FIN that was written out: the whole log is there. */
  lemma FinWrittenHasAll(e: End, plog: seq<Item>)
    requires EndInv(e, plog) && e.rcv.finWritten
    ensures e.rcv.dlv == plog
  {
    hide FramesInv, SndInv, LinkInv, Parked;
    assert e.rcv.dlv[|e.rcv.dlv| - 1] == plog[|e.rcv.dlv| - 1];
  }

  lemma FrameSpeaks(e: End, f: Frame, now: int, plog: seq<Item>)
    requires EndInv(e, plog) && Genuine(e, f, plog) && Receptive(e, plog) && f.Segment() && Spoken(e)
    ensures Spoken(HandleFrame(e, f, now))
  {
    hide EndInv, HandleFrame, LiveInv, Genuine;
    var e' := HandleFrame(e, f, now);
    HandleFrameLive(e, f, now, plog);
    if e'.dead {
      if !e.dead {
        AfterFrame(e, f, now, plog);
        FinWrittenHasAll(e, plog);
      }
      DuplicateAnswered(e, f, now, plog);
      HandleFrameInv(e, f, now, plog);
      var a := e'.tx[|e'.tx| - 1];
      assert a in e'.tx && a.kind != Rst && a.ack == e'.rcv.nxt;
    }
  }

  lemma {:induction false} FeedSpeaks(e: End, peer: End, fs: seq<Frame>, now: int)
    requires Coupled(e, peer) && Receptive(peer, e.snd.log) && !e.dead && |fs| <= |e.snd.unacked|
    requires forall k :: 0 <= k < |fs| ==> fs[k] in e.tx && Carries(fs[k], e.snd.unacked[k])
    requires Spoken(peer)
    ensures Spoken(Feed(peer, fs, now))
  {
    hide EndInv, HandleFrame, RoomyEnds, Spoken;
    if |fs| > 0 {
      var n := |fs| - 1;
      FeedSpeaks(e, peer, fs[..n], now);
      FeedTakes(e, peer, fs[..n], now);
      var p := Feed(peer, fs[..n], now);
      assert Carries(fs[n], e.snd.unacked[n]);
      UnackedAt(e, p.snd.log, n);
      ActCoupled(e, p, fs[n], now);
      FrameSpeaks(p, fs[n], now, e.snd.log);
    }
  }

  /** The receiver's delayed ACK, if one is due. */
  function Answered(p: End): End { if !p.dead && p.acks.pending > 0 then OnAckTimer(p) else p }

  lemma AnswerSaid(e: End, p: End)
    requires Coupled(e, p) && Spoken(p)
    ensures var p1 := Answered(p);
            EndInv(e, p1.snd.log) && EndInv(p1, e.snd.log) && p1.rcv.dlv == p.rcv.dlv && p1.rcv.nxt == p.rcv.nxt
            && Said(p1.rcv.dlv, p1.rcv.nxt, p1.tx)
    ensures !p.dead && p.acks.pending > 0 ==> p.acks.timerSet
  {
    hide EndInv, Flow, RoomyEnds, Said, TimerOk, WakeOk;
    NothingOut(p, e.snd.log);
    assert p.tx + p.out == p.tx;
    if !p.dead && p.acks.pending > 0 {
      assert Step(p, AckTimerFires) == OnAckTimer(p);
      ActInv(p, e, AckTimerFires);
      OnAckTimerLive(p);
      var p1 := OnAckTimer(p);
      NothingOut(p1, e.snd.log);
      assert p1.tx + p1.out == p1.tx;
      AckTimerAnswers(p);
    }
  }

  lemma AckTimerAnswers(p: End)
    requires !p.dead && p.acks.pending > 0
    ensures OnAckTimer(p).acks.pending == 0 && OnAckTimer(p).rcv == p.rcv
  {
  }

  /**
   * One firing of the timer, and the frames it sends arriving in order. The receiver then has everything; it has
   * acknowledged it, or has its delayed-ACK timer set and acknowledges it when that fires; and any frame with that
   * acknowledgement completes the sender.
   */
  lemma OneRoundRecovers(e: End, peer: End, now: int, later: int)
    requires Coupled(e, peer) && LiveInv(peer) && !e.dead && !peer.dead
    requires |e.snd.unacked| > 0 && !TimedOut(e, now)
    ensures var e1 := OnTimer(e, now);
            e.tx <= e1.tx && (
            var p := Feed(peer, e1.tx[|e.tx|..], later);
            && p.rcv.dlv == e.snd.log
            && (!p.dead && p.acks.pending > 0 ==> p.acks.timerSet)
            && (exists a :: a in Answered(p).tx && a.kind != Rst && a.ack == e.snd.nxt)
            && (forall a :: a in Answered(p).tx && a.kind != Rst && a.ack == e.snd.nxt ==> Completes(e1, a, later)))
    ensures OnTimer(e, now).snd.nxt == e.snd.nxt && OnTimer(e, now).snd.finQueued == e.snd.finQueued
    ensures OnTimer(e, now).rcv == e.rcv
  {
    hide EndInv, HandleFrame, OnTimer, RoomyEnds, Feed, LiveInv, Completes, Answered;
    RoundDelivers(e, peer, now, later);
    var e1 := OnTimer(e, now);
    var fs := e1.tx[|e.tx|..];
    RoundCarries(e, peer, now, later);
    FeedSpeaks(e1, peer, fs, later);
    var p := Feed(peer, fs, later);
    AnswerSaid(e1, p);
    SizesAgree(e1, Answered(p));
    NotNothing(e1, p.snd.log);
    forall a | a in Answered(p).tx && a.kind != Rst && a.ack == e.snd.nxt ensures Completes(e1, a, later) {
      AckCompletes(e1, Answered(p), a, later);
    }
  }

  lemma NotNothing(e: End, plog: seq<Item>)
    requires EndInv(e, plog) && !e.dead && |e.snd.unacked| > 0
    ensures e.snd.log != []
  {
  }

  // ---- a closed window ------------------------------------------------------------------

  /** Every frame waiting to go out tells the peer the ack and window of now. */
  predicate Tells(e: End) {
    forall i :: 0 <= i < |e.out| ==> e.out[i].kind != Rst && e.out[i].ack == e.rcv.nxt && e.out[i].wnd == Free(e)
  }

  predicate Telling(e: End, e': End) { e'.rcv == e.rcv && e'.cfg == e.cfg && Tells(e') }

  lemma RetransmitTells(e: End, now: int)
    requires Tells(e) && Sendable(e.snd)
    ensures Telling(e, FastRetransmit(e, now))
  {
    hide Quot;
  }

  lemma ArmTells(e: End)
    requires Tells(e)
    ensures Telling(e, ArmTimer(e)) && Telling(e, ArmIfIdle(e))
  {
    hide Armed;
  }

  lemma OpenTells(e: End, right: int)
    requires Tells(e)
    ensures Telling(e, Signal(OpenWindow(e, right)))
  {
    hide ArmIfIdle;
    ArmTells(e.(snd := e.snd.(right := right)));
  }

  lemma AdvanceTells(e: End, ack: int, now: int)
    requires Tells(e) && Sendable(e.snd)
    ensures Telling(e, Advance(e, ack, now))
  {
    hide AckedCount, UpdateRTT, FastRetransmit, ArmTimer;
    var n := AckedCount(e.snd.unacked, ack);
    var e1 := e.(snd := Acknowledged(e.snd, n, ack),
                 rtx := Sample(e, n, now).(backoff := 0, dupAcks := 0, lastProgress := now));
    RetransmitTells(e1, now);
    ArmTells(if ack < e.rtx.recover then FastRetransmit(e1, now) else e1);
  }

  lemma DuplicateTells(e: End, now: int)
    requires Tells(e) && Sendable(e.snd)
    ensures Telling(e, CountDuplicate(e, now))
  {
    hide FastRetransmit;
    RetransmitTells(e.(rtx := e.rtx.(dupAcks := e.rtx.dupAcks + 1, recover := e.snd.nxt)), now);
  }

  /** So does whatever a live end puts out while it takes an acknowledgement. */
  lemma AckPutsOut(e: End, f: Frame, now: int)
    requires e.out == [] && Sendable(e.snd)
    ensures Telling(e, ProcessAck(e, f, now))
  {
    hide Advance, CountDuplicate, OpenWindow, Signal, Sendable;
    AdvanceTells(e, f.ack, now);
    DuplicateTells(e, now);
    OpenTells(e, Edge(f));
    OpenTells(Advance(e, f.ack, now), Edge(f));
    OpenTells(CountDuplicate(e, now), Edge(f));
  }

  lemma ProbeSent(e: End, now: int)
    requires e.out == [] && !e.dead && e.snd.unacked == [] && !TimedOut(e, now)
    ensures var e1 := OnTimer(e, now);
            && e1.tx == e.tx + [Mark(AckFrame(e, Ack, true, false, 0, []), e.cfg.client)]
            && e1.snd == e.snd && e1.reader == e.reader && !e1.dead && e1.out == []
  {
    hide Pow2, NeedsTimer;
    var f := AckFrame(e, Ack, true, false, 0, []);
    assert [] + [f] == [f] && Marked([f], e.cfg.client) == [Mark(f, e.cfg.client)];
  }

  /** A live end answers a probe with its ack and window. */
  lemma ProbeAnswered(e: End, f: Frame, now: int, plog: seq<Item>)
    requires EndInv(e, plog) && Genuine(e, f, plog) && !e.dead && f.kind == Ack && f.probe && !e.rcv.finWritten
    ensures var e' := HandleFrame(e, f, now);
            |e'.tx| > 0 && (var a := e'.tx[|e'.tx| - 1];
            a.kind != Rst && a.ack == e.rcv.nxt && a.wnd == Free(e)) && e'.rcv == e.rcv && e'.cfg == e.cfg
  {
    hide EndInv, ProcessAck, HandleLive, Sendable;
    var e1 := e.(lastHeard := now);
    SendableOf(e, plog);
    NothingOut(e, plog);
    AckPutsOut(e1, f, now);
    AckKeepsRcv(e1, f, now);
    ProbeHandled(e1, f, now);
    AnswerLast(e1, HandleLive(e1, f, now));
  }

  lemma ProbeHandled(e: End, f: Frame, now: int)
    requires f.kind == Ack && f.probe && !e.rcv.finWritten && Telling(e, ProcessAck(e, f, now))
    ensures var e' := HandleLive(e, f, now); Telling(e, e') && |e'.out| > 0
  {
    hide ProcessAck;
  }

  /** An answer that opens the window wakes the reader, which may then read. */
  lemma AnswerReopens(e: End, a: Frame, now: int, plog: seq<Item>)
    requires EndInv(e, plog) && Genuine(e, a, plog) && !e.dead && a.kind != Rst && e.reader == WaitSend
    requires e.snd.unacked == [] && !e.snd.finQueued && a.ack == e.snd.nxt == e.snd.una && Edge(a) > e.snd.nxt
    ensures var e' := HandleFrame(e, a, now);
            !e'.dead && e'.wake.send && e'.reader == WaitSend && ReadCheck(ReadWake(e')).reader.Reading?
  {
    hide EndInv, Genuine, HandleFrame, Pow2, NeedsTimer;
    AfterFrame(e, a, now, plog);
    var e1 := e.(lastHeard := now);
    assert ProcessAck(e1, a, now) == Signal(OpenWindow(e1, Edge(a)));
  }

  /** The probe goes out, arrives and is answered; the answer tells of the window. */
  lemma ProbeRound(e: End, peer: End, now: int, later: int)
    requires e.cfg.client != peer.cfg.client
    requires EndInv(e, peer.snd.log) && EndInv(peer, e.snd.log) && Flow(e, peer) && Flow(peer, e)
    requires !e.dead && !peer.dead && !TimedOut(e, now) && !e.snd.finQueued && e.snd.unacked == []
    ensures var e1 := OnTimer(e, now);
            |e1.tx| == |e.tx| + 1 && e1.snd == e.snd && e1.reader == e.reader && !e1.dead && (
            var peer1 := HandleFrame(peer, e1.tx[|e.tx|], later);
            && EndInv(e1, peer1.snd.log) && EndInv(peer1, e1.snd.log) && |peer1.tx| > 0 && (
            var a := peer1.tx[|peer1.tx| - 1];
            a.kind != Rst && a.ack == peer.rcv.nxt && a.wnd == Free(peer)))
  {
    hide EndInv, HandleFrame, OnTimer, Genuine, Step, Enabled, Flow;
    NothingOut(e, peer.snd.log);
    ProbeSent(e, now);
    var e1 := OnTimer(e, now);
    var f := e1.tx[|e.tx|];
    TimerStep(e, now);
    ActInv(e, peer, TimerFires(now));
    SentIsGenuine(peer, e1, f);
    SentFlag(e1, peer.snd.log, f);
    NoFinYet(peer, e);
    ProbeAnswered(peer, f, later, e1.snd.log);
    RecvStep(peer, f, later);
    ActInv(peer, e1, Recv(f, later));
  }

  /**
   * A reader waits for a window that the receiver has opened, and the update was lost: one firing of the probe timer
   * and the receiver's answer wake the reader, and it reads on.
   */
  lemma ProbeReopens(e: End, peer: End, now: int, later: int)
    requires e.cfg.client != peer.cfg.client
    requires EndInv(e, peer.snd.log) && EndInv(peer, e.snd.log) && Flow(e, peer) && Flow(peer, e)
    requires !e.dead && !peer.dead && !TimedOut(e, now) && e.reader == WaitSend && !e.snd.finQueued
    requires e.snd.unacked == [] && peer.rcv.queued < peer.cfg.window
    ensures var e1 := OnTimer(e, now);
            |e1.tx| == |e.tx| + 1 && (
            var peer1 := HandleFrame(peer, e1.tx[|e.tx|], later);
            |peer1.tx| > 0 && (
            var e2 := HandleFrame(e1, peer1.tx[|peer1.tx| - 1], later);
            !e2.dead && e2.wake.send && ReadCheck(ReadWake(e2)).reader.Reading?))
  {
    hide EndInv, HandleFrame, OnTimer, Genuine, Flow;
    ProbeRound(e, peer, now, later);
    var e1 := OnTimer(e, now);
    var peer1 := HandleFrame(peer, e1.tx[|e.tx|], later);
    var a := peer1.tx[|peer1.tx| - 1];
    SentIsGenuine(e1, peer1, a);
    AllDelivered(e, peer);
    AnswerReopens(e1, a, later, peer1.snd.log);
  }

  lemma TimerStep(e: End, now: int)
    ensures Enabled(e, TimerFires(now)) && Step(e, TimerFires(now)) == OnTimer(e, now)
  {
  }

  lemma RecvStep(e: End, f: Frame, now: int)
    requires f.fromClient != e.cfg.client
    ensures Enabled(e, Recv(f, now)) && Step(e, Recv(f, now)) == HandleFrame(e, f, now)
  {
  }

  lemma NoFinYet(p: End, e: End)
    requires EndInv(p, e.snd.log) && EndInv(e, p.snd.log) && !e.snd.finQueued
    ensures !p.rcv.finWritten
  {
    hide EndInv;
    WrittenFin(p, e.snd.log);
    if p.rcv.fin { FinMeansAll(e, p); }
  }

  lemma WrittenFin(p: End, plog: seq<Item>)
    requires EndInv(p, plog)
    ensures p.rcv.finWritten ==> p.rcv.fin
  {
    hide FramesInv, SndInv, LinkInv, Parked;
  }

  lemma AllDelivered(e: End, p: End)
    requires EndInv(e, p.snd.log) && EndInv(p, e.snd.log) && Flow(e, p) && !e.dead && e.snd.unacked == []
    ensures p.rcv.nxt == e.snd.nxt == e.snd.una
  {
    hide FramesInv, LinkInv, InWindow, Parked;
    UnaNxt(e.cfg, e.dead, e.reader, e.snd);
    assert p.rcv.dlv == e.snd.log;
  }

  /** Every reachable state of two live ends is such a state, in both directions. */
  lemma RunsAreCoupled(run: seq<System>, acts: seq<Action>, ccfg: Config, scfg: Config, target: Bytes, now: int, i: nat)
    requires IsRun(run, acts, ccfg, scfg, target, now) && i < |run|
    ensures scfg.window >= INIT_WINDOW ==> Coupled(run[i].c, run[i].s)
    ensures ccfg.window >= INIT_WINDOW ==> Coupled(run[i].s, run[i].c)
    ensures LiveInv(run[i].c) && LiveInv(run[i].s)
  {
    hide EndInv, RoomyEnds, Flow, LiveInv;
    NoStall(run, acts, ccfg, scfg, target, now, i);
    RunInv(run, acts, ccfg, scfg, target, now, i);
    RunRoomy(run, acts, ccfg, scfg, target, now, i);
  }

  lemma NothingOut(e: End, plog: seq<Item>)
    requires EndInv(e, plog)
    ensures e.out == []
  {
  }

  lemma DlvWithin(p: End, plog: seq<Item>)
    requires EndInv(p, plog)
    ensures p.rcv.dlv <= plog
  {
  }

  lemma SizesAgree(e: End, p: End)
    requires EndInv(e, p.snd.log) && EndInv(p, e.snd.log)
    ensures p.rcv.dlv == e.snd.log ==> p.rcv.nxt == e.snd.nxt
  {
  }

  lemma TimerCoupled(e: End, peer: End, now: int)
    requires Coupled(e, peer)
    ensures Coupled(OnTimer(e, now), peer)
  {
    hide EndInv, OnTimer, RoomyEnds;
    var ev := TimerFires(now);
    assert Step(e, ev) == OnTimer(e, now);
    ActInv(e, peer, ev);
    ActRoomy(e, peer, ev);
  }

  /** The marks onTimer leaves on the segments do not change what they carry. */
  lemma Carried(e: End, e1: End, peer: End, now: int)
    requires Coupled(e, peer) && Coupled(e1, peer) && e1 == OnTimer(e, now) && !e.dead && !e1.dead
    requires e1.snd.log == e.snd.log
    ensures |e1.snd.unacked| == |e.snd.unacked| && e1.snd.acked == e.snd.acked
    ensures forall k :: 0 <= k < |e.snd.unacked| ==>
              e1.snd.unacked[k].num == e.snd.unacked[k].num && e1.snd.unacked[k].kind == e.snd.unacked[k].kind
              && e1.snd.unacked[k].data == e.snd.unacked[k].data
  {
    hide EndInv, OnTimer, RoomyEnds;
    OnTimerInv(e, now, peer.snd.log);
    if |e.snd.unacked| > 0 { UnackedAt(e, peer.snd.log, 0); }
    if |e1.snd.unacked| > 0 { UnackedAt(e1, peer.snd.log, 0); }
    CountsAgree(e, peer.snd.log);
    CountsAgree(e1, peer.snd.log);
    forall k | 0 <= k < |e.snd.unacked|
      ensures e1.snd.unacked[k].num == e.snd.unacked[k].num && e1.snd.unacked[k].kind == e.snd.unacked[k].kind
              && e1.snd.unacked[k].data == e.snd.unacked[k].data
    {
      UnackedAt(e, peer.snd.log, k);
      UnackedAt(e1, peer.snd.log, k);
    }
  }

  lemma CountsAgree(e: End, plog: seq<Item>)
    requires EndInv(e, plog) && !e.dead
    ensures e.snd.acked + |e.snd.unacked| == |e.snd.log|
  {
  }
}
