/**
 * A live stream never stalls: whenever its mutex is free, whatever is left to do has a timer set
 * or a wake-up pending.
 */
module StreamLive {
  import opened Bytes
  import opened StreamTypes
  import opened StreamEnd
  import opened StreamInv
  import opened StreamStep

  ghost predicate RtxRange(r: Rtx) {
    && MIN_RTO <= r.rto <= MAX_RTO && r.backoff <= 6
    && (r.armed ==> MIN_RTO <= r.delay <= MAX_RTO)
  }

  ghost predicate TimerOk(e: End) {
    RtxRange(e.rtx) && (if e.dead then !e.rtx.armed else NeedsTimer(e.snd) ==> e.rtx.armed)
  }

  /** A frame has told the peer about everything delivered so far. */
  ghost predicate Said(dlv: seq<Item>, nxt: int, sent: seq<Frame>) {
    dlv == [] || (exists f :: f in sent && f.kind != Rst && f.ack == nxt)
  }

  ghost predicate AckOk(e: End) {
    && 0 <= e.acks.pending
    && (e.acks.pending == 0 ==> Said(e.rcv.dlv, e.rcv.nxt, e.tx + e.out))
    && (if e.dead then !e.acks.timerSet else e.acks.pending > 0 ==> e.acks.timerSet)
  }

  ghost predicate WakeOk(e: End) {
    !e.dead ==>
      && (e.reader == WaitSend && CanSend(e) ==> e.wake.send)
      && (e.writer == WaitData && (|e.rcv.queue| > 0 || e.rcv.fin) ==> e.wake.write)
  }

  ghost predicate LiveInv(e: End) { TimerOk(e) && AckOk(e) && WakeOk(e) }

  lemma Pow2Positive(n: nat)
    ensures Pow2(n) >= 1
  {
  }

  lemma Multiple(x: int, k: nat)
    requires x >= 0 && k >= 1
    ensures x * k >= x
  {
    assert x * k == x + x * (k - 1);
    assert x * (k - 1) >= 0;
  }

  lemma DelayRange(rto: int, backoff: nat)
    requires MIN_RTO <= rto
    ensures MIN_RTO <= Min(rto * Pow2(backoff), MAX_RTO) <= MAX_RTO
  {
    hide Pow2;
    Pow2Positive(backoff);
    Multiple(rto, Pow2(backoff));
  }

  lemma ArmLive(e: End)
    requires RtxRange(e.rtx)
    ensures TimerOk(ArmTimer(e)) && (TimerOk(e) || !e.rtx.armed ==> TimerOk(ArmIfIdle(e)))
  {
    DelayRange(e.rtx.rto, e.rtx.backoff);
  }

  /** Every frame but RST leaves nothing unsaid. */
  lemma FrameLive(e: End, f: Frame)
    requires f.kind != Rst && f.ack == e.rcv.nxt
    ensures AckOk(e.(acks := FillAck(e), out := e.out + [f]))
  {
    assert f in e.tx + (e.out + [f]);
  }

  lemma QueueAckLive(e: End, probe: bool, outOfOrder: bool)
    ensures AckOk(QueueAck(e, probe, outOfOrder))
    ensures TimerOk(e) ==> TimerOk(QueueAck(e, probe, outOfOrder))
    ensures WakeOk(e) ==> WakeOk(QueueAck(e, probe, outOfOrder))
  {
    FrameLive(e, AckFrame(e, Ack, probe, outOfOrder, 0, []));
  }

  lemma ResendLive(e: End, i: nat, now: int)
    requires i < |e.snd.unacked| && e.snd.unacked[i].kind != Rst
    ensures AckOk(Resend(e, i, now))
    ensures TimerOk(e) ==> TimerOk(Resend(e, i, now))
    ensures WakeOk(e) ==> WakeOk(Resend(e, i, now))
    ensures |Resend(e, i, now).snd.unacked| == |e.snd.unacked|
  {
    var e1 := e.(snd := Resent(e.snd, i, now));
    FrameLive(e1, AckFrame(e1, e1.snd.unacked[i].kind, false, false, e1.snd.unacked[i].num, e1.snd.unacked[i].data));
  }

  /** The kinds in unacked, for which Held is known. */
  ghost predicate Sendable(s: Snd) {
    forall i :: 0 <= i < |s.unacked| ==> s.unacked[i].kind != Rst
  }

  lemma HeldSendable(cfg: Config, dead: bool, reader: Reader, s: Snd)
    requires SndInv(cfg, dead, reader, s)
    ensures Sendable(s)
  {
    if !dead {
      forall i | 0 <= i < |s.unacked| ensures s.unacked[i].kind != Rst {
        UnackedQueued(cfg, reader, s, i);
      }
    }
  }

  lemma QueueSegmentLive(e: End, kind: Kind, data: Bytes, now: int)
    requires RtxRange(e.rtx) && kind != Rst && (e.rtx.armed || !e.dead)
    ensures var e' := QueueSegment(e, kind, data, now);
            AckOk(e') && (!e.dead ==> TimerOk(e')) && (e.reader != WaitSend && WakeOk(e) ==> WakeOk(e'))
  {
    var g := Segment(e.snd.nxt, kind, data, now, false);
    var e1 := e.(snd := Enqueue(e.snd, g));
    FrameLive(e1, AckFrame(e1, kind, false, false, g.num, data));
    DelayRange(e.rtx.rto, e.rtx.backoff);
  }

  lemma UpdateRTTRange(r: Rtx, rtt: int)
    requires RtxRange(r)
    ensures RtxRange(UpdateRTT(r, rtt))
  {
  }

  lemma FastRetransmitLive(e: End, now: int)
    requires Sendable(e.snd) && AckOk(e)
    ensures var e' := FastRetransmit(e, now);
            AckOk(e') && e'.rtx == e.rtx && NeedsTimer(e'.snd) == NeedsTimer(e.snd)
            && (WakeOk(e) ==> WakeOk(e'))
  {
    hide AckOk, RtxRange;
    if FastRetransmit(e, now) != e { ResendLive(e, 0, now); }
  }

  lemma AdvanceLive(e: End, ack: int, now: int)
    requires Sendable(e.snd) && LiveInv(e) && !e.dead
    ensures var e' := Advance(e, ack, now);
            TimerOk(e') && AckOk(e')
            && e'.rcv == e.rcv && e'.writer == e.writer && e'.wake == e.wake && e'.dead == e.dead && e'.cfg == e.cfg
  {
    hide AckOk, WakeOk;
    var n := AckedCount(e.snd.unacked, ack);
    if n > 0 { UpdateRTTRange(e.rtx, now - e.snd.unacked[0].sentAt); }
    var e1 := e.(snd := Acknowledged(e.snd, n, ack),
                 rtx := Sample(e, n, now).(backoff := 0, dupAcks := 0, lastProgress := now));
    assert AckOk(e1) by { AckOkIgnores(e, e1); }
    FastRetransmitLive(e1, now);
    var e2 := if ack < e.rtx.recover then FastRetransmit(e1, now) else e1;
    ArmLive(e2);
    AckOkIgnores(e2, ArmTimer(e2));
  }

  lemma AckOkIgnores(e: End, e': End)
    requires AckOk(e) && e'.rcv == e.rcv && e'.acks == e.acks && e'.tx == e.tx && e'.out == e.out && e'.dead == e.dead
    ensures AckOk(e')
  {
  }

  ghost predicate WriterWakeOk(e: End) {
    !e.dead ==> e.writer == WaitData && (|e.rcv.queue| > 0 || e.rcv.fin) ==> e.wake.write
  }

  lemma OpenWindowLive(e: End, right: int)
    requires e.cfg.Valid() && !e.dead && TimerOk(e) && AckOk(e) && WriterWakeOk(e)
    ensures LiveInv(Signal(OpenWindow(e, right)))
  {
    hide AckOk;
    var e1 := e.(snd := e.snd.(right := right));
    ArmLive(e1);
    var e' := Signal(OpenWindow(e, right));
    AckOkIgnores(e, e');
  }

  lemma CountDuplicateLive(e: End, now: int)
    requires Sendable(e.snd) && LiveInv(e) && !e.dead
    ensures var e' := CountDuplicate(e, now);
            TimerOk(e') && AckOk(e')
            && e'.rcv == e.rcv && e'.writer == e.writer && e'.wake == e.wake && e'.dead == e.dead && e'.cfg == e.cfg
  {
    hide AckOk, WakeOk;
    var n := e.rtx.dupAcks + 1;
    var d := e.(rtx := e.rtx.(dupAcks := n, recover := e.snd.nxt));
    AckOkIgnores(e, d);
    AckOkIgnores(e, e.(rtx := e.rtx.(dupAcks := n)));
    FastRetransmitLive(d, now);
  }

  lemma ProcessAckLive(e: End, f: Frame, now: int)
    requires e.cfg.Valid() && Sendable(e.snd) && LiveInv(e) && !e.dead
    ensures LiveInv(ProcessAck(e, f, now))
  {
    hide AckOk, TimerOk, CountDuplicate, Advance, OpenWindow, Signal;
    if f.ack > e.snd.nxt {
    } else if f.ack > e.snd.una {
      AdvanceLive(e, f.ack, now);
      OpenWindowLive(Advance(e, f.ack, now), Edge(f));
    } else if f.ack == e.snd.una && f.outOfOrder && |e.snd.unacked| > 0 {
      CountDuplicateLive(e, now);
      OpenWindowLive(CountDuplicate(e, now), Edge(f));
    } else {
      OpenWindowLive(e, Edge(f));
    }
  }

  // ---- receive side ---------------------------------------------------------------------

  /** Delivering wakes the writer for anything it waits for. */
  lemma DeliverLive(e: End, g: Segment)
    requires WriterWakeOk(e)
    ensures var e' := Deliver(e, g);
            WriterWakeOk(e') && SameButRcv(e, e')
  {
  }

  ghost predicate SameButRcv(e: End, e': End) {
    && e'.cfg == e.cfg && e'.dead == e.dead && e'.snd == e.snd && e'.rtx == e.rtx && e'.acks == e.acks
    && e'.reader == e.reader && e'.writer == e.writer && e'.wake.send == e.wake.send
    && e'.tx == e.tx && e'.out == e.out
  }

  lemma {:induction false} DrainLive(e: End)
    requires WriterWakeOk(e)
    ensures WriterWakeOk(Drain(e)) && SameButRcv(e, Drain(e))
    decreases |e.rcv.ooo|
  {
    if e.rcv.nxt in e.rcv.ooo {
      DeliverNextShrinks(e);
      DeliverLive(e.(rcv := e.rcv.(ooo := e.rcv.ooo - {e.rcv.nxt})), e.rcv.ooo[e.rcv.nxt]);
      DrainLive(DeliverNext(e));
    }
  }

  lemma DelayAckLive(e: End, filled: bool, g: Segment)
    requires 0 <= e.acks.pending && TimerOk(e) && WakeOk(e) && !e.dead
    ensures LiveInv(DelayAck(e, filled, g))
  {
    var e1 := e.(acks := e.acks.(pending := e.acks.pending + 1));
    QueueAckLive(e1, false, false);
  }

  lemma ProcessSegmentLive(e: End, f: Frame)
    requires LiveInv(e) && !e.dead
    ensures LiveInv(ProcessSegment(e, f))
  {
    hide Deliver, Drain, RtxRange, Said;
    var g := Received(f);
    QueueAckLive(e, false, false);
    QueueAckLive(Park(e, g), false, true);
    DeliverLive(e, g);
    var e1 := Deliver(e, g);
    DrainLive(e1);
    assert WakeOk(Drain(e1));
    DelayAckLive(Drain(e1), e1.rcv.nxt in e1.rcv.ooo, g);
  }

  // ---- whole sections -------------------------------------------------------------------

  lemma MarkedKeeps(fs: seq<Frame>, client: bool, f: Frame)
    requires f in fs
    ensures Mark(f, client) in Marked(fs, client)
  {
    var i :| 0 <= i < |fs| && fs[i] == f;
    assert Marked(fs, client)[i] == Mark(f, client);
  }

  lemma FlushLive(e: End)
    requires LiveInv(e)
    ensures LiveInv(Flush(e))
  {
    if e.rcv.dlv != [] && e.acks.pending == 0 {
      var f :| f in e.tx + e.out && f.kind != Rst && f.ack == e.rcv.nxt;
      if f in e.out {
        MarkedKeeps(e.out, e.cfg.client, f);
        assert Mark(f, e.cfg.client) in Flush(e).tx + Flush(e).out;
      } else {
        assert f in Flush(e).tx + Flush(e).out;
      }
    }
  }

  lemma DieLive(e: End)
    requires LiveInv(e)
    ensures LiveInv(Die(e))
    ensures LiveInv(MaybeFinish(e))
    ensures LiveInv(Abort(e, true)) && LiveInv(Abort(e, false))
  {
    forall f | f in e.tx + e.out ensures f in e.tx + (e.out + [RST]) {}
  }

  lemma HandleFrameLive(e: End, f: Frame, now: int, plog: seq<Item>)
    requires EndInv(e, plog) && Genuine(e, f, plog) && LiveInv(e)
    ensures LiveInv(HandleFrame(e, f, now))
  {
    hide LiveInv, Abort, FramesInv, SndInv, RcvInv, LinkInv, MaybeFinish, ProcessAck, ProcessSegment;
    if e.dead {
      HandleDeadLive(e, f);
      FlushLive(HandleDead(e, f));
    } else {
      var e1 := e.(lastHeard := now);
      StampLive(e, now);
      DieLive(e1);
      FlushLive(Abort(e1, false));
      if f.kind != Rst {
        HandleLiveLive(e1, f, now, plog);
        FlushLive(HandleLive(e1, f, now));
      }
    }
  }

  lemma StampLive(e: End, now: int)
    requires LiveInv(e)
    ensures LiveInv(e.(lastHeard := now))
  {
  }

  lemma HandleDeadLive(e: End, f: Frame)
    requires LiveInv(e) && e.dead
    ensures LiveInv(HandleDead(e, f))
  {
    QueueAckLive(e, false, false);
    forall g | g in e.tx + e.out ensures g in e.tx + (e.out + [RST]) {}
  }

  lemma HandleLiveLive(e: End, f: Frame, now: int, plog: seq<Item>)
    requires Held(e, plog) && !e.dead && f.kind != Rst && Genuine(e, f, plog) && LiveInv(e)
    ensures LiveInv(HandleLive(e, f, now))
  {
    hide LiveInv, MaybeFinish, FramesInv, SndInv, RcvInv, LinkInv, ProcessAck, ProcessSegment;
    HeldSendable(e.cfg, e.dead, e.reader, e.snd);
    ProcessAckLive(e, f, now);
    ProcessAckInv(e, f, now);
    var e1 := ProcessAck(e, f, now);
    if f.Segment() { ProcessSegmentLive(e1, f); }
    var e2 := if f.Segment() then ProcessSegment(e1, f) else e1;
    ProbeLive(e2);
    DieLive(if f.probe && |e2.out| == 0 then QueueAck(e2, false, false) else e2);
  }

  lemma ProbeLive(e: End)
    requires LiveInv(e)
    ensures LiveInv(QueueAck(e, false, false))
  {
    QueueAckLive(e, false, false);
  }

  /** TimerOk but for the timer that has just fired. */
  ghost predicate FiredInv(e: End) { RtxRange(e.rtx) && AckOk(e) && WakeOk(e) }

  lemma {:induction false} ResendFromLive(e: End, i: nat, now: int)
    requires Sendable(e.snd) && FiredInv(e) && i <= |e.snd.unacked|
    ensures FiredInv(ResendFrom(e, i, now)) && ResendFrom(e, i, now).dead == e.dead
    decreases |e.snd.unacked| - i
  {
    hide RtxRange, AckOk, WakeOk;
    if i < |e.snd.unacked| {
      ResendLive(e, i, now);
      ResendFromLive(Resend(e, i, now), i + 1, now);
    }
  }

  lemma BackoffLive(e: End, backoff: nat)
    requires FiredInv(e) && backoff <= 6
    ensures LiveInv(ArmTimer(e.(rtx := e.rtx.(backoff := backoff))))
  {
    hide Said;
    DelayRange(e.rtx.rto, backoff);
  }

  lemma OnTimerLive(e: End, now: int, plog: seq<Item>)
    requires EndInv(e, plog) && LiveInv(e)
    ensures LiveInv(OnTimer(e, now))
  {
    hide EndInv, ResendFrom, Abort, QueueAck, Said;
    var e1 := e.(rtx := e.rtx.(armed := false));
    assert Sendable(e.snd) by { SendableOf(e, plog); }
    if e1.dead {
    } else if TimedOut(e1, now) {
      FiredDies(e1);
      FlushLive(Abort(e1, true));
    } else {
      ResendFromLive(e1, 0, now);
      QueueAckLive(e1, true, false);
      assert RtxRange(QueueAck(e1, true, false).rtx) by { QueueAckKeeps(e1); }
      var e2 := if |e1.snd.unacked| > 0 then ResendFrom(e1, 0, now) else QueueAck(e1, true, false);
      var backoff := if e2.rtx.backoff < 6 then e2.rtx.backoff + 1 else e2.rtx.backoff;
      BackoffLive(e2, backoff);
      FlushLive(ArmTimer(e2.(rtx := e2.rtx.(backoff := backoff))));
    }
  }

  lemma QueueAckKeeps(e: End)
    ensures QueueAck(e, true, false).rtx == e.rtx && QueueAck(e, true, false).dead == e.dead
  {
  }

  lemma SendableOf(e: End, plog: seq<Item>)
    requires EndInv(e, plog)
    ensures Sendable(e.snd)
  {
    HeldSendable(e.cfg, e.dead, e.reader, e.snd);
  }

  lemma FiredDies(e: End)
    requires FiredInv(e) && !e.dead
    ensures LiveInv(Abort(e, true))
  {
    forall f | f in e.tx + e.out ensures f in e.tx + (e.out + [RST]) {}
  }

  lemma OnAckTimerLive(e: End)
    requires LiveInv(e)
    ensures LiveInv(OnAckTimer(e))
  {
    hide Said, RtxRange, Flush;
    var e1 := e.(acks := e.acks.(timerSet := false));
    QueueAckLive(e1, false, false);
    FlushLive(if !e1.dead && e1.acks.pending > 0 then QueueAck(e1, false, false) else e1);
  }

  lemma AbortsLive(e: End, ok: bool)
    requires LiveInv(e)
    ensures LiveInv(CheckOpened(e)) && LiveInv(Stop(e)) && LiveInv(Dialed(e, ok))
  {
    hide Said, RtxRange, Flush, Abort;
    DieLive(e);
    FlushLive(e);
    FlushLive(Abort(e, true));
    var d := e.(link := e.link.(dialing := false));
    DieLive(d);
    FlushLive(Abort(d, true));
    FlushLive(StartLoops(d.(link := d.link.(conn := true))));
  }

  lemma ChecksLive(e: End)
    requires LiveInv(e)
    ensures e.writer == AtWrite ==> LiveInv(WriteCheck(e))
    ensures e.reader == WaitSend ==> LiveInv(ReadWake(e))
    ensures e.writer == WaitData ==> LiveInv(WriteWake(e))
  {
    hide Said, RtxRange;
  }

  lemma ReadCheckLive(e: End)
    requires e.cfg.Valid() && LiveInv(e) && e.reader == AtRead
    ensures LiveInv(ReadCheck(e))
  {
    hide Said, RtxRange;
    ArmLive(e);
  }

  lemma ReadDoneLive(e: End, data: Bytes, res: ReadResult, now: int)
    requires LiveInv(e) && e.reader.Reading?
    ensures LiveInv(ReadDone(e, data, res, now))
  {
    hide Said, QueueSegment, RtxRange, MaybeFinish, Abort;
    var e0 := e.(snd := e.snd.(read := e.snd.read + data));
    if e0.dead {
      } else {
      QueueSegmentLive(e0, Data, data, now);
      var e1 := if |data| > 0 then QueueSegment(e0, Data, data, now) else e0;
      assert LiveInv(e1) && RtxRange(e1.rtx) && !e1.dead && e1.reader == e.reader by { ReadKept(e0, data, now); }
      Repositioned(e1, AtRead);
      Repositioned(e1, ReadEnded);
      match res
      case ReadOk => FlushLive(e1.(reader := AtRead));
      case ReadFail =>
        DieLive(e1.(reader := ReadEnded));
        FlushLive(Abort(e1.(reader := ReadEnded), true));
      case ReadEof =>
        QueueSegmentLive(e1, Fin, [], now);
        ReadKeptIdle(e1, now);
        var e2 := QueueSegment(e1, Fin, [], now);
        Repositioned(e2, ReadEnded);
        DieLive(e2.(reader := ReadEnded));
        FlushLive(MaybeFinish(e2.(reader := ReadEnded)));
    }
  }

  lemma ReadKept(e: End, data: Bytes, now: int)
    ensures var e' := QueueSegment(e, Data, data, now); e'.dead == e.dead && e'.reader == e.reader
  {
  }

  lemma ReadKeptIdle(e: End, now: int)
    ensures var e' := QueueSegment(e, Fin, [], now); e'.dead == e.dead && e'.reader == e.reader
  {
  }

  lemma Repositioned(e: End, reader: Reader)
    requires LiveInv(e) && reader != WaitSend
    ensures LiveInv(e.(reader := reader))
  {
  }

  lemma WriteLive(e: End, n: nat, failed: bool)
    requires LiveInv(e)
    ensures e.writer.Writing? && n <= |Flatten(e.writer.bufs)| ==> LiveInv(WriteDone(e, n, failed))
    ensures e.writer == Closing ==> LiveInv(WriteClosed(e))
  {
    hide Said, RtxRange, MaybeFinish, Abort, QueueAck, Flush, WorthUpdating, Flatten;
    if e.writer.Writing? && n <= |Flatten(e.writer.bufs)| {
      var e1 := e.(rcv := Wrote(e, n, false), writer := WriteEnded);
        DieLive(e1);
      FlushLive(Abort(e1, true));
      var e2 := e.(rcv := Wrote(e, n, true), writer := AtWrite);
        ProbeLive(e2);
      FlushLive(e2);
      FlushLive(QueueAck(e2, false, false));
    }
    if e.writer == Closing {
      var e1 := e.(writer := WriteEnded, rcv := e.rcv.(finWritten := true));
        DieLive(e1);
      FlushLive(MaybeFinish(e1));
    }
  }

  /** No section leaves a live stream stalled. */
  lemma StepLive(e: End, ev: Event, plog: seq<Item>)
    requires EndInv(e, plog) && LiveInv(e) && Enabled(e, ev)
    requires ev.Recv? ==> Genuine(e, ev.f, plog)
    ensures LiveInv(Step(e, ev))
  {
    hide LiveInv, HandleFrame, OnTimer, OnAckTimer, CheckOpened, Stop, Dialed, FramesInv, SndInv, RcvInv, LinkInv;
    hide ReadCheck, ReadWake, ReadDone, WriteCheck, WriteWake, WriteDone, WriteClosed;
    match ev
    case Recv(f, now) => HandleFrameLive(e, f, now, plog);
    case TimerFires(now) => OnTimerLive(e, now, plog);
    case DialReturns(ok) => AbortsLive(e, ok);
    case AckTimerFires => OnAckTimerLive(e);
    case OpenTimeout => AbortsLive(e, true);
    case Stopped => AbortsLive(e, true);
    case ReadChecks => ReadCheckLive(e);
    case ReadReturns(data, res, now) => ReadDoneLive(e, data, res, now);
    case WriteReturns(n, failed) => WriteLive(e, n, failed);
    case WriteCloses => WriteLive(e, 0, false);
    case ReadWakes => ChecksLive(e);
    case WriteChecks => ChecksLive(e);
    case WriteWakes => ChecksLive(e);
  }
}
