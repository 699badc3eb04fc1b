/** What ends a stream, and what the other end is told of it (src/tcp_stream.go). */
module StreamLife {
  import opened Bytes
  import opened StreamTypes
  import opened StreamEnd
  import opened StreamInv
  import opened StreamStep
  import opened StreamLive
  import opened StreamKarn
  import opened StreamSystem
  import opened StreamTheorems
  import opened StreamFlow
  import opened StreamRecovery
  import opened StreamCompletion
  import opened StreamTiming
  import opened StreamWindow

  // ---- causes ---------------------------------------------------------------------------

  /** Everything is done with this: the last byte acknowledged, or the last byte written out and the FIN passed on. */
  predicate CompletedBy(e: End, ev: Event) {
    match ev
    case Recv(f, _) => f.kind != Rst && e.snd.finQueued && e.rcv.finWritten && f.ack == e.snd.nxt
    case WriteCloses => e.snd.finQueued && e.snd.una == e.snd.nxt
    case _ => false
  }

  /** Something went wrong on this side. */
  predicate BrokenBy(e: End, ev: Event) {
    match ev
    case TimerFires(now) =>
      if |e.snd.unacked| > 0 then now - e.rtx.lastProgress > e.cfg.timeout else now - e.lastHeard > e.cfg.timeout
    case OpenTimeout => !e.link.isOpen
    case Stopped => true
    case DialReturns(ok) => !ok
    case ReadReturns(_, res, _) => res == ReadFail
    case WriteReturns(_, failed) => failed
    case _ => false
  }

  predicate ResetBy(ev: Event) { ev.Recv? && ev.f.kind == Rst }

  /** A frame that says the stream is no more. */
  predicate SaysRst(fs: seq<Frame>) { exists i :: 0 <= i < |fs| && fs[i].kind == Rst }

  /** Frames that say nothing of the kind. */
  predicate NoRst(fs: seq<Frame>) { forall i :: 0 <= i < |fs| ==> fs[i].kind != Rst }

  /** Dead or alive, finished or not, and whether the peer was told, after an event on a live end. */
  predicate Fate(e: End, e': End, completed: bool, broken: bool, reset: bool) {
    && (e'.dead <==> completed || broken || reset) && (e'.finished <==> completed)
    && (SaysRst(SentIn(e, e')) <==> broken)
  }

  lemma Quiet(fs: seq<Frame>)
    requires NoRst(fs)
    ensures !SaysRst(fs)
  {
  }

  lemma MarkedQuiet(e: End, e': End)
    requires e'.tx == e.tx
    ensures SaysRst(SentIn(e, Flush(e'))) <==> SaysRst(e'.out)
  {
    var fs := SentIn(e, Flush(e'));
    assert fs == Marked(e'.out, e'.cfg.client);
    forall i | 0 <= i < |fs| ensures fs[i].kind == e'.out[i].kind {}
    if SaysRst(e'.out) {
      var i :| 0 <= i < |e'.out| && e'.out[i].kind == Rst;
      assert fs[i].kind == Rst;
    }
  }

  lemma RstSaid(e: End)
    ensures SaysRst(e.out + [RST])
  {
    assert (e.out + [RST])[|e.out|].kind == Rst;
  }

  // ---- a frame --------------------------------------------------------------------------

  lemma FrameFate(e: End, f: Frame, now: int, plog: seq<Item>)
    requires EndInv(e, plog) && Genuine(e, f, plog) && !e.dead && Orderly(e) && f.kind != Rst
    ensures Fate(e, HandleFrame(e, f, now), CompletedBy(e, Recv(f, now)), false, false)
  {
    hide EndInv, HandleFrame, ProcessAck, Genuine, SaysRst;
    AfterFrame(e, f, now, plog);
    BehindNone(e, f, plog);
    var e0 := e.(lastHeard := now);
    AckClock(e0, f, now);
    Unas(e, plog);
    AckKeepsNxt(e, f, now, plog);
    FrameQuietly(e, f, now, plog);
    FinishedIsDead(e, f, now, plog);
  }

  lemma AckKeepsNxt(e: End, f: Frame, now: int, plog: seq<Item>)
    requires EndInv(e, plog) && Genuine(e, f, plog) && !e.dead && f.kind != Rst
    ensures var s := ProcessAck(e.(lastHeard := now), f, now).snd; s.nxt == e.snd.nxt && s.finQueued == e.snd.finQueued
  {
    hide FramesInv, SndInv, RcvInv, LinkInv, ProcessAck;
    ProcessAckInv(e.(lastHeard := now), f, now);
  }

  lemma FinishedIsDead(e: End, f: Frame, now: int, plog: seq<Item>)
    requires EndInv(e, plog) && Genuine(e, f, plog) && !e.dead && f.kind != Rst
    ensures HandleFrame(e, f, now).finished ==> HandleFrame(e, f, now).dead
  {
    hide FramesInv, SndInv, RcvInv, LinkInv, HandleFrame;
    HandleFrameInv(e, f, now, plog);
  }

  /** A live end never answers a frame with RST. */
  lemma FrameQuietly(e: End, f: Frame, now: int, plog: seq<Item>)
    requires EndInv(e, plog) && Genuine(e, f, plog) && !e.dead && f.kind != Rst
    ensures !SaysRst(SentIn(e, HandleFrame(e, f, now)))
  {
    hide EndInv, ProcessAck, ProcessSegment, QueueAck, AddsAcks, MaybeFinish, Flush, Genuine, SaysRst;
    var e0 := e.(lastHeard := now);
    var e1 := ProcessAck(e0, f, now);
    NothingOut(e, plog);
    BehindNone(e, f, plog);
    var n := AckedCount(e.snd.unacked, f.ack);
    CountCovers(e.snd.unacked, f.ack);
    AckSends(e0, f, now, n);
    if e1.out != [] { UnackedAt(e, plog, n); }
    assert NoRst(e1.out);
    assert e1.tx == e.tx by { AckTx(e, f, now, plog); }
    SegmentPutsOut(e1, f);
    SegmentTx(e, f, now, plog);
    NothingAdded(e1.out);
    var e2 := if f.Segment() then ProcessSegment(e1, f) else e1;
    AckAdds(e2, false, false);
    BothAdd(e1.out, e2.out, QueueAck(e2, false, false).out);
    var e3 := if f.probe && |e2.out| == 0 then QueueAck(e2, false, false) else e2;
    AckKeeps(e2);
    Finishes(e3);
    assert NoRst(e3.out) by { StillQuiet(e1.out, e3.out); }
    Quiet(e3.out);
    MarkedQuiet(e, MaybeFinish(e3));
    Handled(e, f, now);
  }

  lemma StillQuiet(a: seq<Frame>, b: seq<Frame>)
    requires NoRst(a) && AddsAcks(a, b)
    ensures NoRst(b)
  {
    forall i | 0 <= i < |b| ensures b[i].kind != Rst { if i < |a| { assert b[i] == a[i]; } }
  }

  lemma AckTx(e: End, f: Frame, now: int, plog: seq<Item>)
    requires EndInv(e, plog) && Genuine(e, f, plog) && !e.dead && f.kind != Rst
    ensures ProcessAck(e.(lastHeard := now), f, now).tx == e.tx
  {
    hide FramesInv, SndInv, RcvInv, LinkInv, ProcessAck;
    ProcessAckInv(e.(lastHeard := now), f, now);
  }

  lemma SegmentTx(e: End, f: Frame, now: int, plog: seq<Item>)
    requires EndInv(e, plog) && Genuine(e, f, plog) && !e.dead && f.kind != Rst
    ensures f.Segment() ==> ProcessSegment(ProcessAck(e.(lastHeard := now), f, now), f).tx == e.tx
  {
    hide FramesInv, SndInv, RcvInv, LinkInv, ProcessAck, ProcessSegment;
    ProcessAckInv(e.(lastHeard := now), f, now);
    if f.Segment() { ProcessSegmentInv(ProcessAck(e.(lastHeard := now), f, now), f, plog); }
  }

  lemma ResetFate(e: End, f: Frame, now: int)
    requires !e.dead && !e.finished && e.out == [] && f.kind == Rst
    ensures Fate(e, HandleFrame(e, f, now), false, false, true)
  {
    var e' := Abort(e.(lastHeard := now), false);
    MarkedQuiet(e, e');
    assert e'.out == [];
  }

  // ---- the timer ------------------------------------------------------------------------

  lemma TimerFate(e: End, now: int, plog: seq<Item>)
    requires EndInv(e, plog) && !e.dead && !e.finished
    ensures Fate(e, OnTimer(e, now), false, BrokenBy(e, TimerFires(now)), false)
  {
    hide EndInv, ResendFrom, FillAck, Min, Pow2, NeedsTimer, SaysRst, Flush;
    NothingOut(e, plog);
    var e1 := e.(rtx := e.rtx.(armed := false));
    if TimedOut(e1, now) {
      RstSaid(e1);
      MarkedQuiet(e, Abort(e1, true));
      assert OnTimer(e, now) == Flush(Abort(e1, true));
      StaysDead(Abort(e1, true));
    } else {
      ResendQuietly(e, now, plog);
      ResendAlive(e1, 0, now);
      var e2 := if |e1.snd.unacked| > 0 then ResendFrom(e1, 0, now) else QueueAck(e1, true, false);
      var backoff := if e2.rtx.backoff < 6 then e2.rtx.backoff + 1 else e2.rtx.backoff;
      var e3 := ArmTimer(e2.(rtx := e2.rtx.(backoff := backoff)));
      Quiet(e3.out);
      MarkedQuiet(e, e3);
      assert OnTimer(e, now) == Flush(e3);
      StaysDead(e3);
    }
  }

  lemma StaysDead(e: End)
    ensures Flush(e).dead == e.dead && Flush(e).finished == e.finished
  {
  }

  lemma {:induction false} ResendAlive(e: End, i: nat, now: int)
    requires i <= |e.snd.unacked|
    ensures var e' := ResendFrom(e, i, now); e'.dead == e.dead && e'.finished == e.finished && e'.tx == e.tx
    decreases |e.snd.unacked| - i
  {
    if i < |e.snd.unacked| { ResendAlive(Resend(e, i, now), i + 1, now); }
  }

  lemma ResendQuietly(e: End, now: int, plog: seq<Item>)
    requires EndInv(e, plog) && !e.dead
    ensures var e1 := e.(rtx := e.rtx.(armed := false));
            NoRst(if |e1.snd.unacked| > 0 then ResendFrom(e1, 0, now).out else QueueAck(e1, true, false).out)
  {
    hide EndInv, ResendFrom;
    NothingOut(e, plog);
    var e1 := e.(rtx := e.rtx.(armed := false));
    ResendFromFrames(e1, 0, now);
    var out := ResendFrom(e1, 0, now).out;
    forall k | 0 <= k < |out| ensures out[k].kind != Rst {
      UnackedAt(e, plog, k);
      assert Carries(out[0 + k - 0], e1.snd.unacked[k]);
    }
  }

  // ---- the rest -------------------------------------------------------------------------

  lemma QueueQuietly(e: End, kind: Kind, data: Bytes, now: int)
    requires NoRst(e.out) && kind != Rst
    ensures var e' := QueueSegment(e, kind, data, now);
            NoRst(e'.out) && e'.tx == e.tx && e'.dead == e.dead && e'.finished == e.finished
            && e'.rcv == e.rcv && (kind == Fin ==> e'.snd.una < e'.snd.nxt || e.snd.una > e.snd.nxt)
  {
    hide FillAck, Min, Pow2, NeedsTimer;
  }

  lemma ReadFate(e: End, data: Bytes, res: ReadResult, now: int, plog: seq<Item>)
    requires EndInv(e, plog) && !e.dead && !e.finished && e.reader.Reading?
    ensures Fate(e, ReadDone(e, data, res, now), false, res == ReadFail, false)
  {
    hide EndInv, QueueSegment, SaysRst, Flush;
    NothingOut(e, plog);
    Unas(e, plog);
    var e0 := e.(snd := e.snd.(read := e.snd.read + data));
    QueueQuietly(e0, Data, data, now);
    var e1 := if |data| > 0 then QueueSegment(e0, Data, data, now) else e0;
    match res
    case ReadOk =>
      Quiet(e1.out);
      MarkedQuiet(e, e1.(reader := AtRead));
      StaysDead(e1.(reader := AtRead));
    case ReadEof =>
      QueueQuietly(e1, Fin, [], now);
      assert e1.snd.una <= e1.snd.nxt by { QueueGrows(e0, data, now); }
      var e2 := QueueSegment(e1, Fin, [], now).(reader := ReadEnded);
      Quiet(e2.out);
      MarkedQuiet(e, e2);
      StaysDead(e2);
    case ReadFail =>
      var e2 := e1.(reader := ReadEnded);
      RstSaid(e2);
      MarkedQuiet(e, Abort(e2, true));
      StaysDead(Abort(e2, true));
  }

  lemma QueueGrows(e: End, data: Bytes, now: int)
    requires e.snd.una <= e.snd.nxt
    ensures QueueSegment(e, Data, data, now).snd.una <= QueueSegment(e, Data, data, now).snd.nxt
  {
    hide FillAck, Min, Pow2, NeedsTimer;
  }

  /** A section that puts out nothing but ACKs and does not end the stream. */
  lemma LiveFate(e: End, e': End)
    requires !e.dead && !e.finished && e'.tx == e.tx && NoRst(e'.out) && e'.dead == e.dead && e'.finished == e.finished
    ensures Fate(e, Flush(e'), false, false, false)
  {
    hide SaysRst;
    Quiet(e'.out);
    MarkedQuiet(e, e');
  }

  lemma BrokenFate(e: End, e': End)
    requires !e.dead && !e.finished && e'.tx == e.tx && !e'.dead && !e'.finished
    ensures Fate(e, Flush(Abort(e', true)), false, true, false)
  {
    hide SaysRst;
    RstSaid(e');
    MarkedQuiet(e, Abort(e', true));
  }

  lemma SilentFate(e: End, e': End)
    requires !e.dead && !e.finished && e'.tx == e.tx && e'.dead == e.dead && e'.finished == e.finished
    ensures Fate(e, e', false, false, false)
  {
    assert SentIn(e, e') == [];
  }

  lemma WriteFate(e: End, n: nat, failed: bool)
    requires e.writer.Writing? && n <= |Flatten(e.writer.bufs)| && !e.dead && !e.finished && e.out == []
    ensures Fate(e, WriteDone(e, n, failed), false, failed, false)
  {
    hide Flatten, FillAck, WorthUpdating, Fate, Flush, Abort;
    var e1 := e.(rcv := e.rcv.(written := e.rcv.written + Flatten(e.writer.bufs)[..n]));
    if failed {
      BrokenFate(e, e1.(writer := WriteEnded));
    } else {
      var e2 := e1.(writer := AtWrite, rcv := e1.rcv.(queued := e1.rcv.queued - n));
      LiveFate(e, if WorthUpdating(e2) then QueueAck(e2, false, false) else e2);
    }
  }

  lemma CloseFate(e: End)
    requires e.writer == Closing && !e.dead && !e.finished && e.out == []
    ensures Fate(e, WriteClosed(e), e.snd.finQueued && e.snd.una == e.snd.nxt, false, false)
  {
    hide SaysRst;
    var e1 := e.(writer := WriteEnded, rcv := e.rcv.(finWritten := true));
    Quiet(MaybeFinish(e1).out);
    MarkedQuiet(e, MaybeFinish(e1));
  }

  lemma CallbackFate(e: End, ok: bool)
    requires !e.dead && !e.finished && e.out == []
    ensures Fate(e, OnAckTimer(e), false, false, false)
    ensures Fate(e, CheckOpened(e), false, !e.link.isOpen, false)
    ensures Fate(e, Stop(e), false, true, false)
    ensures Fate(e, Dialed(e, ok), false, !ok, false)
  {
    hide FillAck, Fate, Flush, Abort;
    var a := e.(acks := e.acks.(timerSet := false));
    LiveFate(e, if !a.dead && a.acks.pending > 0 then QueueAck(a, false, false) else a);
    if e.link.isOpen { LiveFate(e, e); }
    BrokenFate(e, e);
    var d := e.(link := e.link.(dialing := false));
    BrokenFate(e, d);
    LiveFate(e, StartLoops(d.(link := d.link.(conn := true))));
  }

  lemma LoopFate(e: End)
    requires !e.dead && !e.finished
    ensures Fate(e, ReadCheck(e), false, false, false) && Fate(e, ReadWake(e), false, false, false)
    ensures Fate(e, WriteCheck(e), false, false, false) && Fate(e, WriteWake(e), false, false, false)
  {
    hide Fate, Min, Pow2, NeedsTimer, CanSend;
    SilentFate(e, ReadCheck(e));
    SilentFate(e, ReadWake(e));
    SilentFate(e, WriteCheck(e));
    SilentFate(e, WriteWake(e));
  }

  lemma OtherFate(e: End, ev: Event)
    requires Enabled(e, ev) && !ev.Recv? && !ev.TimerFires? && !ev.ReadReturns?
    requires !e.dead && !e.finished && e.out == []
    ensures Fate(e, Step(e, ev), CompletedBy(e, ev), BrokenBy(e, ev), false)
  {
    hide Fate, OnAckTimer, CheckOpened, Stop, Dialed;
    hide ReadCheck, ReadWake, WriteCheck, WriteWake, WriteDone, WriteClosed;
    match ev
    case WriteReturns(n, failed) => WriteFate(e, n, failed);
    case WriteCloses => CloseFate(e);
    case AckTimerFires => CallbackFate(e, true);
    case OpenTimeout => CallbackFate(e, true);
    case Stopped => CallbackFate(e, true);
    case DialReturns(ok) => CallbackFate(e, ok);
    case _ => LoopFate(e);
  }

  /**
   * A live end ends for cause, and for each cause there is: when both directions are done, when the peer resets it, and
   * when its timeout is over, no OPEN came, the endpoint stops, or its connection fails. It counts as finished in the
   * first case only; it tells the peer in the last one, and says RST in no other.
   */
  lemma EndsForCause(e: End, ev: Event, plog: seq<Item>)
    requires EndInv(e, plog) && Orderly(e) && !e.dead && Enabled(e, ev) && (ev.Recv? ==> Genuine(e, ev.f, plog))
    ensures Fate(e, Step(e, ev), CompletedBy(e, ev), BrokenBy(e, ev), ResetBy(ev))
  {
    hide EndInv, Step, HandleFrame, OnTimer, ReadDone, Genuine, Orderly, CompletedBy, BrokenBy;
    NothingOut(e, plog);
    NotFinished(e, plog);
    match ev
    case Recv(f, now) =>
      RecvStep(e, f, now);
      if f.kind == Rst {
        ResetFate(e, f, now);
        NotCompleted(e, ev);
      } else {
        FrameFate(e, f, now, plog);
        NotCompleted(e, ev);
      }
    case TimerFires(now) =>
      TimerStep(e, now);
      TimerFate(e, now, plog);
      NotCompleted(e, ev);
    case ReadReturns(data, res, now) =>
      StepIs(e, ev);
      assert e.reader.Reading? by { ReadingOf(e, ev); }
      ReadFate(e, data, res, now, plog);
      NotCompleted(e, ev);
    case _ => OtherFate(e, ev);
  }

  lemma NotCompleted(e: End, ev: Event)
    ensures ev.Recv? ==> !BrokenBy(e, ev) && (ev.f.kind == Rst ==> !CompletedBy(e, ev))
    ensures ev.TimerFires? || ev.ReadReturns? ==> !CompletedBy(e, ev)
    ensures ev.ReadReturns? ==> (BrokenBy(e, ev) <==> ev.res == ReadFail)
  {
  }

  lemma ReadingOf(e: End, ev: Event)
    requires Enabled(e, ev) && ev.ReadReturns?
    ensures e.reader.Reading?
  {
  }

  lemma NotFinished(e: End, plog: seq<Item>)
    requires EndInv(e, plog) && !e.dead
    ensures !e.finished
  {
  }

  // ---- an end that is dead --------------------------------------------------------------

  /**
   * A dead end stays as it is and says nothing of its own accord. It answers a frame: with RST if it did not finish,
   * with its acknowledgement if it did, and never an RST, nor, once finished, a pure ACK.
   */
  lemma DeadAnswers(e: End, f: Frame, now: int)
    requires e.dead && e.out == []
    ensures var e' := HandleFrame(e, f, now);
            var answer := SentIn(e, e');
            && e'.dead && e'.finished == e.finished && e'.rcv == e.rcv && e'.snd == e.snd
            && (if f.kind == Rst || (e.finished && f.kind == Ack && !f.probe) then answer == []
                else |answer| == 1 && answer[0].fromClient == e.cfg.client
                     && if e.finished then answer[0].kind == Ack && answer[0].ack == e.rcv.nxt
                        else answer[0].kind == Rst)
  {
    hide FillAck, SentIn, Flush;
    var a := HandleDead(e, f);
    FlushSends(e, a);
  }

  /** A reset reaches the other end: the next frame it sends to an end that broke off comes back as its own end. */
  lemma ResetReaches(e: End, peer: End, f: Frame, now: int, later: int)
    requires EndInv(e, peer.snd.log) && EndInv(peer, e.snd.log) && e.cfg.client != peer.cfg.client
    requires e.dead && !e.finished && !peer.dead && f in peer.tx && f.kind != Rst
    ensures var answer := SentIn(e, HandleFrame(e, f, now));
            |answer| == 1 && (var peer' := HandleFrame(peer, answer[0], later); peer'.dead && !peer'.finished)
  {
    hide EndInv, HandleFrame;
    NothingOut(e, peer.snd.log);
    NothingOut(peer, e.snd.log);
    NotFinished(peer, e.snd.log);
    DeadAnswers(e, f, now);
    var answer := SentIn(e, HandleFrame(e, f, now));
    ResetFate(peer, answer[0], later);
  }

  /**
   * The first frame of a stream at an endpoint that does not know it: an RST is ignored; an ACK, and any frame once the
   * endpoint has stopped, is answered with RST and nothing else, which ends a live client; any other opens the stream.
   */
  lemma FirstContact(y: System, f: Frame, now: int, later: int)
    requires SysInv(y) && CanAct(y, FirstFrame(f, now)) && !y.c.dead
    ensures var y' := Act(y, FirstFrame(f, now));
            var answer := SentIn(y.s, y'.s);
            && y'.c == y.c && y'.refuse == y.refuse
            && (if f.kind == Rst then y' == y
                else if f.kind == Ack || y.refuse then
                  && !y'.up && y'.s.rcv == y.s.rcv && y'.s.snd == y.s.snd && |answer| == 1
                  && (var c' := HandleFrame(y.c, answer[0], later); c'.dead && !c'.finished)
                else y'.up && y'.s.lastHeard == now && y'.s.rtx.lastProgress == now && NoRst(answer))
  {
    hide EndInv, HandleFrame, Flow;
    NothingOut(y.c, y.s.snd.log);
    NothingOut(y.s, y.c.snd.log);
    NotFinished(y.c, y.s.snd.log);
    if f.kind != Rst {
      if f.kind == Ack || y.refuse {
        OneRst(y.s);
        ResetFate(y.c, SentIn(y.s, Reject(y.s))[0], later);
      } else {
        Opened1(y, f, now);
      }
    }
  }

  lemma OneRst(e: End)
    requires e.out == []
    ensures SentIn(e, Reject(e)) == [Mark(RST, e.cfg.client)] && Reject(e).rcv == e.rcv && Reject(e).snd == e.snd
  {
    assert [] + [RST] == [RST];
    assert Marked([RST], e.cfg.client) == [Mark(RST, e.cfg.client)];
  }

  lemma Opened1(y: System, f: Frame, now: int)
    requires SysInv(y) && CanAct(y, FirstFrame(f, now)) && f.kind != Rst && f.kind != Ack && !y.refuse
    ensures var s1 := y.s.(lastHeard := now, rtx := y.s.rtx.(lastProgress := now));
            var s2 := HandleFrame(s1, f, now);
            s2.lastHeard == now && s2.rtx.lastProgress == now && NoRst(SentIn(y.s, s2))
  {
    hide EndInv, HandleFrame, Flow, Genuine, EndSane;
    var s1 := y.s.(lastHeard := now, rtx := y.s.rtx.(lastProgress := now));
    Restamped(y.s, s1, y.c.snd.log);
    SwapFirst(y, f);
    SwapIn(y, f, s1);
    WhoSent(s1, y.c, f);
    SentIsGenuine(s1, y.c, f);
    FrameQuietly(s1, f, now, y.c.snd.log);
    FrameClock(s1, f, now);
    NoneSaid(SentIn(y.s, HandleFrame(s1, f, now)));
  }

  lemma SwapIn(y: System, f: Frame, s1: End)
    requires f in y.s.tx + y.c.tx && s1.tx == y.s.tx
    ensures f in s1.tx + y.c.tx
  {
  }

  lemma NoneSaid(fs: seq<Frame>)
    requires !SaysRst(fs)
    ensures NoRst(fs)
  {
  }

  // ---- idle time counts -----------------------------------------------------------------

  /**
   * The clock of the timeout is not set when data is queued on an idle stream. Of a first segment queued after a time
   * without progress, the stream forgives a delay of the timeout less that time: it ends when the timer fires later,
   * however short a time the segment has been outstanding.
   */
  lemma IdleTimeCounts(e: End, data: Bytes, now: int, later: int, plog: seq<Item>)
    requires EndInv(e, plog) && !e.dead && !e.finished && e.reader.Reading? && |data| > 0 && e.snd.unacked == []
    ensures var e1 := ReadDone(e, data, ReadOk, now);
            var idle := now - e.rtx.lastProgress;
            && !e1.dead && !e1.finished && |e1.snd.unacked| == 1
            && (OnTimer(e1, later).dead <==> later - now > e.cfg.timeout - idle)
  {
    hide EndInv, OnTimer, Fate;
    NothingOut(e, plog);
    var e0 := e.(snd := e.snd.(read := e.snd.read + data));
    OneQueued(e, data, now);
    var e1 := ReadDone(e, data, ReadOk, now);
    ReadClock(e, data, ReadOk, now);
    TimerDies(e1, later);
  }

  lemma OneQueued(e: End, data: Bytes, now: int)
    requires !e.dead && !e.finished && e.snd.unacked == [] && |data| > 0
    ensures var e1 := ReadDone(e, data, ReadOk, now);
            !e1.dead && !e1.finished && |e1.snd.unacked| == 1 && e1.cfg == e.cfg
  {
    hide FillAck, Min, Pow2, NeedsTimer, Marked;
  }

  lemma TimerDies(e: End, now: int)
    requires !e.dead && |e.snd.unacked| > 0
    ensures OnTimer(e, now).dead <==> now - e.rtx.lastProgress > e.cfg.timeout
  {
    hide ResendFrom, FillAck, Min, Pow2, NeedsTimer, Marked;
    ResendAlive(e.(rtx := e.rtx.(armed := false)), 0, now);
  }

  /** A run at whose end the client, having sent nothing but its OPEN, is about to read. */
  lemma AboutToRead(ccfg: Config, scfg: Config)
    returns (run: seq<System>, acts: seq<Action>)
    requires ccfg.Valid() && scfg.Valid() && ccfg.client && !scfg.client && scfg.window < INIT_WINDOW
    ensures IsRun(run, acts, ccfg, scfg, [], 0) && |run| > 0
    ensures var c := run[|run| - 1].c;
            && !c.dead && !c.finished && c.snd.unacked == [] && c.reader.Reading? && c.reader.n >= 1 && c.cfg == ccfg
            && EndInv(c, run[|run| - 1].s.snd.log)
  {
    hide IsRun, ReadCheck, EndInv;
    run, acts := Acquainted(ccfg, scfg);
    var y := run[|run| - 1];
    Extend(run, acts, ccfg, scfg, [], 0, Client(ReadChecks));
    var y1 := Act(y, Client(ReadChecks));
    run, acts := run + [y1], acts + [Client(ReadChecks)];
    CheckedReads(y.c);
    assert EndInv(y1.c, y1.s.snd.log) by { RunInv(run, acts, ccfg, scfg, [], 0, |run| - 1); }
    NotFinished(y1.c, y1.s.snd.log);
  }

  /**
   * So data that has been unacknowledged for no time at all can reset the connection: a client that reads its first
   * bytes when the timeout is over since its OPEN was acknowledged, and whose timer fires then.
   */
  lemma IdleStreamDies(ccfg: Config, scfg: Config)
    returns (run: seq<System>, acts: seq<Action>)
    requires ccfg.Valid() && scfg.Valid() && ccfg.client && !scfg.client
    requires scfg.window < INIT_WINDOW && ccfg.timeout >= 0
    ensures IsRun(run, acts, ccfg, scfg, [], 0) && |run| > 2
    ensures var y, y' := run[|run| - 3], run[|run| - 1];
            var late := y.c.rtx.lastProgress + ccfg.timeout + 1;
            && !y.c.dead && y.c.snd.unacked == [] && y'.c.dead && !y'.c.finished
            && acts[|acts| - 2] == Client(ReadReturns([0], ReadOk, late))
            && acts[|acts| - 1] == Client(TimerFires(late))
  {
    hide IsRun, ReadDone, OnTimer, EndInv;
    run, acts := AboutToRead(ccfg, scfg);
    var y := run[|run| - 1];
    var late := y.c.rtx.lastProgress + ccfg.timeout + 1;
    IdleTimeCounts(y.c, [0], late, late, y.s.snd.log);
    var read, fire := Client(ReadReturns([0], ReadOk, late)), Client(TimerFires(late));
    assert CanAct(y, read);
    Extend(run, acts, ccfg, scfg, [], 0, read);
    var y1 := Act(y, read);
    run, acts := run + [y1], acts + [read];
    TimerStep(y1.c, late);
    Extend(run, acts, ccfg, scfg, [], 0, fire);
    TimerUnfinished(y1.c, late);
    run, acts := run + [Act(y1, fire)], acts + [fire];
  }

  lemma CheckedReads(e: End)
    requires !e.dead && e.reader == AtRead && e.snd.nxt < e.snd.right && e.snd.unacked == [] && e.cfg.Valid()
    ensures var e' := ReadCheck(e);
            && e'.reader.Reading? && e'.reader.n >= 1 && !e'.dead && e'.snd == e.snd && e'.rtx == e.rtx
            && e'.cfg == e.cfg && e'.finished == e.finished
  {
  }

  lemma TimerUnfinished(e: End, now: int)
    requires !e.finished
    ensures !OnTimer(e, now).finished
  {
    hide ResendFrom, FillAck, Min, Pow2, NeedsTimer, Marked;
    ResendAlive(e.(rtx := e.rtx.(armed := false)), 0, now);
  }
}
