/** One end keeps its invariant over every section that runs under its mutex. */
module StreamStep {
  import opened Bytes
  import opened StreamTypes
  import opened StreamEnd
  import opened StreamInv

  ghost predicate FinishInv(e: End) {
    e.finished ==> e.dead && e.snd.finQueued && e.snd.una == e.snd.nxt && e.rcv.finWritten
  }

  /** The invariant of an end, frames still waiting for unlock included. */
  ghost predicate Held(e: End, plog: seq<Item>) {
    && EndSane(e) && LogOk(!e.cfg.client, plog)
    && SndInv(e.cfg, e.dead, e.reader, e.snd)
    && RcvInv(e.dead, e.writer, e.rcv, plog)
    && LinkInv(e.cfg, e.link, e.rcv.dlv, e.reader, e.writer)
    && FinishInv(e)
  }

  /** The invariant whenever the mutex is free. */
  ghost predicate EndInv(e: End, plog: seq<Item>) { Held(e, plog) && e.out == [] }

  /** Histories and edges only grow. */
  ghost predicate Onward(e: End, e': End) {
    && e'.cfg == e.cfg && e.snd.log <= e'.snd.log && e.rcv.dlv <= e'.rcv.dlv
    && e.snd.una <= e'.snd.una && e.snd.right <= e'.snd.right && e.snd.acked <= e'.snd.acked
    && e.rcv.nxt <= e'.rcv.nxt && RightEdge(e.cfg, e.rcv) <= RightEdge(e.cfg, e'.rcv)
    && e.snd.read <= e'.snd.read && e.rcv.written <= e'.rcv.written
    && (e.dead ==> e'.dead && e'.snd.log == e.snd.log && e'.rcv.dlv == e.rcv.dlv)
    && (e.finished ==> e'.finished)
  }

  /** Where a section stands: nothing handed to the pipeline yet, no new segment below una. */
  ghost predicate Working(e: End, e': End) {
    Onward(e, e') && e'.tx == e.tx && NewAbove([], e'.out, e'.snd.una)
  }

  /** The effect of a whole section. */
  ghost predicate Advances(e: End, e': End) {
    Onward(e, e') && e.tx <= e'.tx && NewAbove(e.tx, e'.tx, e'.snd.una)
  }

  ghost predicate SameAcked(e: End, e': End) {
    e'.snd.acked == e.snd.acked && e'.snd.right == e.snd.right
  }

  lemma FlushInv(e0: End, e: End, plog: seq<Item>)
    requires Held(e, plog) && Working(e0, e)
    ensures EndInv(Flush(e), plog) && Advances(e0, Flush(e))
    ensures SameAcked(e0, e) ==> SameAcked(e0, Flush(e))
  {
    hide SndInv, RcvInv, FramesInv, LogOk, LinkInv;
    FramesFlush(e.cfg, e.snd.log, e.rcv, e.tx, e.out);
    assert Flush(e).tx + [] == Flush(e).tx;
    forall i | |e0.tx| <= i < |Flush(e).tx|
      ensures Flush(e).tx[i].Segment() ==> Flush(e).tx[i].num >= e.snd.una
    {
      assert Flush(e).tx[i] == Mark(e.out[i - |e0.tx|], e.cfg.client);
    }
  }

  lemma DieInv(e: End, plog: seq<Item>)
    requires Held(e, plog) && !e.dead
    ensures Held(Die(e), plog) && SameAcked(e, Die(e))
    ensures forall e0 :: Working(e0, e) ==> Working(e0, Die(e))
  {
    hide FramesInv;
    FramesGrow(e.cfg, e.snd.log, e.rcv, e.tx, e.out, e.snd.log, Die(e).rcv);
  }

  lemma MaybeFinishInv(e0: End, e: End, plog: seq<Item>)
    requires Held(e, plog) && Working(e0, e)
    ensures Held(MaybeFinish(e), plog) && Working(e0, MaybeFinish(e)) && SameAcked(e, MaybeFinish(e))
  {
    hide FramesInv, SndInv, RcvInv, LinkInv;
    if MaybeFinish(e) != e { DieInv(e, plog); }
  }

  lemma AbortInv(e0: End, e: End, notifyPeer: bool, plog: seq<Item>)
    requires Held(e, plog) && Working(e0, e)
    ensures Held(Abort(e, notifyPeer), plog) && Working(e0, Abort(e, notifyPeer))
    ensures SameAcked(e, Abort(e, notifyPeer))
  {
    hide FramesInv, SndInv, RcvInv, LinkInv;
    if !e.dead {
      FramesAppend(e.cfg, e.snd.log, e.rcv, e.tx, e.out, RST);
      DieInv(if notifyPeer then e.(out := e.out + [RST]) else e, plog);
    }
  }

  lemma HeldAck(e0: End, e: End, probe: bool, outOfOrder: bool, plog: seq<Item>)
    requires Held(e, plog) && Working(e0, e)
    ensures Held(QueueAck(e, probe, outOfOrder), plog) && Working(e0, QueueAck(e, probe, outOfOrder))
    ensures SameAcked(e, QueueAck(e, probe, outOfOrder))
  {
    hide FramesInv, SndInv, RcvInv, LinkInv;
    QueueAckInv(e, probe, outOfOrder);
  }

  // ---- the sections ---------------------------------------------------------------------

  lemma HandleLiveInv(e0: End, e: End, f: Frame, now: int, plog: seq<Item>)
    requires Held(e, plog) && Working(e0, e) && e.out == [] && !e.dead && Genuine(e, f, plog)
    requires f.kind != Rst && e.snd == e0.snd
    ensures var e' := HandleLive(e, f, now);
            Held(e', plog) && Working(e0, e')
            && e'.snd.right == Max(e0.snd.right, Edge(f))
            && (e'.snd.acked == e0.snd.acked || BoundaryAt(e0.snd.log, e'.snd.acked, f.ack))
  {
    hide FramesInv, SndInv, RcvInv, LinkInv, ProcessAck, ProcessSegment, EndSane, MaybeFinish;
    var e1 := ProcessAck(e, f, now);
    ProcessAckInv(e, f, now);
    assert Held(e1, plog) && Working(e0, e1);
    var e2 := if f.Segment() then ProcessSegment(e1, f) else e1;
    if f.Segment() { ProcessSegmentInv(e1, f, plog); }
    UnaNxt(e1.cfg, e1.dead, e1.reader, e1.snd);
    assert NewAbove([], e2.out, e2.snd.una) by {
      forall i | 0 <= i < |e2.out| ensures e2.out[i].Segment() ==> e2.out[i].num >= e2.snd.una {
        if i < |e1.out| { assert e2.out[i] == e1.out[i]; }
      }
    }
    assert Held(e2, plog) && Working(e0, e2);
    HeldAck(e0, e2, false, false, plog);
    MaybeFinishInv(e0, if f.probe && |e2.out| == 0 then QueueAck(e2, false, false) else e2, plog);
  }

  lemma HandleDeadInv(e: End, f: Frame, plog: seq<Item>)
    requires EndInv(e, plog)
    ensures Held(HandleDead(e, f), plog) && Working(e, HandleDead(e, f)) && SameAcked(e, HandleDead(e, f))
  {
    hide FramesInv, SndInv, RcvInv, LinkInv;
    HeldAck(e, e, false, false, plog);
    FramesAppend(e.cfg, e.snd.log, e.rcv, e.tx, e.out, RST);
  }

  /** How far one frame can move a sender. */
  ghost predicate AckedBy(e: End, e': End, f: Frame) {
    || SameAcked(e, e')
    || (f.kind != Rst && e'.snd.right == Max(e.snd.right, Edge(f))
        && (e'.snd.acked == e.snd.acked || BoundaryAt(e.snd.log, e'.snd.acked, f.ack)))
  }

  lemma HandleFrameInv(e: End, f: Frame, now: int, plog: seq<Item>)
    requires EndInv(e, plog) && Genuine(e, f, plog)
    ensures var e' := HandleFrame(e, f, now);
            EndInv(e', plog) && Advances(e, e') && AckedBy(e, e', f)
  {
    hide FramesInv, SndInv, RcvInv, LinkInv, HandleDead, HandleLive, Abort;
    if e.dead {
      HandleDeadInv(e, f, plog);
      FlushInv(e, HandleDead(e, f), plog);
    } else {
      var e1 := e.(lastHeard := now);
      if f.kind == Rst {
        AbortInv(e, e1, false, plog);
        FlushInv(e, Abort(e1, false), plog);
      } else {
        HandleLiveInv(e, e1, f, now, plog);
        FlushInv(e, HandleLive(e1, f, now), plog);
      }
    }
  }

  lemma ResendHeld(e0: End, e: End, i: nat, now: int, plog: seq<Item>)
    requires Held(e, plog) && Working(e0, e) && !e.dead && i < |e.snd.unacked|
    ensures var e' := Resend(e, i, now);
            Held(e', plog) && Working(e0, e') && SameAcked(e, e') && !e'.dead
            && |e'.snd.unacked| == |e.snd.unacked|
  {
    hide FramesInv, SndInv, RcvInv, LinkInv, EndSane, Resend;
    ResendInv(e, i, now);
    var e1 := Resend(e, i, now);
    forall j | 0 <= j < |e1.out| ensures e1.out[j].Segment() ==> e1.out[j].num >= e1.snd.una {
      if j < |e.out| { assert e1.out[j] == e.out[j]; }
    }
  }

  lemma {:induction false} ResendFromInv(e0: End, e: End, i: nat, now: int, plog: seq<Item>)
    requires Held(e, plog) && Working(e0, e) && !e.dead && i <= |e.snd.unacked|
    ensures var e' := ResendFrom(e, i, now);
            Held(e', plog) && Working(e0, e') && SameAcked(e, e')
    decreases |e.snd.unacked| - i
  {
    hide Held, Working, Resend;
    if i < |e.snd.unacked| {
      ResendHeld(e0, e, i, now, plog);
      ResendFromInv(e0, Resend(e, i, now), i + 1, now, plog);
    }
  }

  lemma OnTimerInv(e: End, now: int, plog: seq<Item>)
    requires EndInv(e, plog)
    ensures var e' := OnTimer(e, now);
            EndInv(e', plog) && Advances(e, e') && SameAcked(e, e')
  {
    hide FramesInv, SndInv, RcvInv, LinkInv, ResendFrom, Abort, QueueAck;
    var e1 := e.(rtx := e.rtx.(armed := false));
    if e1.dead {
    } else if TimedOut(e1, now) {
      AbortInv(e, e1, true, plog);
      FlushInv(e, Abort(e1, true), plog);
    } else {
      ResendFromInv(e, e1, 0, now, plog);
      HeldAck(e, e1, true, false, plog);
      var e2 := if |e1.snd.unacked| > 0 then ResendFrom(e1, 0, now) else QueueAck(e1, true, false);
      var backoff := if e2.rtx.backoff < 6 then e2.rtx.backoff + 1 else e2.rtx.backoff;
      FlushInv(e, ArmTimer(e2.(rtx := e2.rtx.(backoff := backoff))), plog);
    }
  }

  lemma SmallSectionsInv(e: End, plog: seq<Item>)
    requires EndInv(e, plog)
    ensures EndInv(OnAckTimer(e), plog) && Advances(e, OnAckTimer(e)) && SameAcked(e, OnAckTimer(e))
    ensures EndInv(CheckOpened(e), plog) && Advances(e, CheckOpened(e)) && SameAcked(e, CheckOpened(e))
    ensures EndInv(Stop(e), plog) && Advances(e, Stop(e)) && SameAcked(e, Stop(e))
  {
    hide FramesInv, SndInv, RcvInv, LinkInv, Abort, QueueAck;
    var e1 := e.(acks := e.acks.(timerSet := false));
    HeldAck(e, e1, false, false, plog);
    FlushInv(e, if !e1.dead && e1.acks.pending > 0 then QueueAck(e1, false, false) else e1, plog);
    AbortInv(e, e, true, plog);
    FlushInv(e, e, plog);
    FlushInv(e, Abort(e, true), plog);
  }

  lemma DialedInv(e: End, ok: bool, plog: seq<Item>)
    requires EndInv(e, plog) && e.link.dialing
    ensures EndInv(Dialed(e, ok), plog) && Advances(e, Dialed(e, ok)) && SameAcked(e, Dialed(e, ok))
  {
    hide FramesInv, Abort;
    var e1 := e.(link := e.link.(dialing := false));
    if !ok {
      AbortInv(e, e1, true, plog);
      FlushInv(e, Abort(e1, true), plog);
    } else if !e1.dead {
      FlushInv(e, StartLoops(e1.(link := e1.link.(conn := true))), plog);
    }
  }

  // ---- readLoop -------------------------------------------------------------------------

  lemma ReadCheckInv(e: End, plog: seq<Item>)
    requires EndInv(e, plog) && e.reader == AtRead
    ensures EndInv(ReadCheck(e), plog) && Advances(e, ReadCheck(e)) && SameAcked(e, ReadCheck(e))
  {
    hide FramesInv, RcvInv, SndInv, ArmIfIdle;
    assert SndInv(e.cfg, e.dead, ReadCheck(e).reader, e.snd) by { ReadCheckSnd(e); }
    assert ArmIfIdle(e) == e.(rtx := ArmIfIdle(e).rtx) by { ArmKeeps(e); }
  }

  lemma ReadCheckSnd(e: End)
    requires SndInv(e.cfg, e.dead, e.reader, e.snd) && e.reader == AtRead && e.cfg.Valid()
    ensures SndInv(e.cfg, e.dead, ReadCheck(e).reader, e.snd)
  {
  }

  lemma ArmKeeps(e: End)
    ensures ArmIfIdle(e) == e.(rtx := ArmIfIdle(e).rtx)
  {
  }

  lemma ReadWakeInv(e: End, plog: seq<Item>)
    requires EndInv(e, plog) && e.reader == WaitSend
    ensures EndInv(ReadWake(e), plog) && Advances(e, ReadWake(e)) && SameAcked(e, ReadWake(e))
  {
    hide FramesInv, RcvInv;
  }

  /** Queueing a segment in the middle of a section. */
  lemma HeldQueue(e0: End, e: End, kind: Kind, data: Bytes, now: int, plog: seq<Item>)
    requires EndSane(e) && LogOk(!e.cfg.client, plog) && !e.dead && !e.finished
    requires RcvInv(e.dead, e.writer, e.rcv, plog) && LinkInv(e.cfg, e.link, e.rcv.dlv, e.reader, e.writer)
    requires Working(e0, e) && kind != Open && MayQueue(e.cfg, e.reader, e.snd, kind, data)
    ensures var e' := QueueSegment(e, kind, data, now);
            Held(e', plog) && Working(e0, e') && SameAcked(e, e') && Quiet(e, e')
            && e'.snd.read == e.snd.read && (kind == Data ==> DataOf(e'.snd.log) == DataOf(e.snd.log) + data)
            && e'.snd.finQueued == (kind == Fin)
  {
    hide FramesInv, RcvInv, LinkInv, QueueSegment;
    QueueSegmentInv(e, kind, data, now);
    Append(e.snd.log, Item(kind, data));
    var e' := QueueSegment(e, kind, data, now);
    forall i | 0 <= i < |e'.out| ensures e'.out[i].Segment() ==> e'.out[i].num >= e'.snd.una {
      if i < |e.out| { assert e'.out[i] == e.out[i]; }
    }
  }

  /** conn.Read returned data while the stream was alive: the state in which it is queued. */
  lemma ReadMayQueue(e: End, data: Bytes, reader: Reader)
    requires SndInv(e.cfg, false, e.reader, e.snd) && e.reader.Reading? && |data| <= e.reader.n
    requires !reader.Reading?
    ensures |data| > 0 ==> MayQueue(e.cfg, reader, e.snd.(read := e.snd.read + data), Data, data)
    ensures SndInv(e.cfg, false, reader, e.snd) && !e.snd.finQueued
    ensures |data| == 0 ==> e.snd.(read := e.snd.read + data) == e.snd
  {
    var s := e.snd.(read := e.snd.read + data);
    assert s.(read := DataOf(s.log)) == e.snd;
    assert |data| == 0 ==> e.snd.read + data == e.snd.read;
  }

  lemma FinMayQueue(cfg: Config, reader: Reader, s: Snd)
    requires SndInv(cfg, false, reader, s) && !s.finQueued && reader == ReadEnded
    ensures MayQueue(cfg, reader, s, Fin, [])
  {
    assert s.(read := DataOf(s.log)) == s;
  }

  /** readLoop's queueing of what it read, before the error is looked at. */
  function ReadQueue(e: End, data: Bytes, now: int): End {
    var e0 := e.(snd := e.snd.(read := e.snd.read + data));
    if |data| > 0 then QueueSegment(e0, Data, data, now) else e0
  }

  /** The reader's program counter does not matter to queueSegmentLocked. */
  lemma ReadQueueInv(e: End, data: Bytes, reader: Reader, now: int, plog: seq<Item>)
    requires EndInv(e, plog) && !e.dead && e.reader.Reading? && |data| <= e.reader.n
    requires reader == AtRead || reader == ReadEnded
    ensures var e' := ReadQueue(e, data, now).(reader := reader);
            Held(e', plog) && Working(e, e') && SameAcked(e, e') && !e'.dead && !e'.snd.finQueued
  {
    hide FramesInv, RcvInv, QueueSegment, SndInv, MayQueue;
    ReadMayQueue(e, data, reader);
    var e1 := e.(snd := e.snd.(read := e.snd.read + data), reader := reader);
    if |data| > 0 {
      HeldQueue(e, e1, Data, data, now, plog);
      assert QueueSegment(e1, Data, data, now) == ReadQueue(e, data, now).(reader := reader) by {
        QueueIgnoresReader(e1, e1.(reader := e.reader), data, now);
      }
    }
  }

  lemma QueueIgnoresReader(e: End, e': End, data: Bytes, now: int)
    requires e' == e.(reader := e'.reader)
    ensures QueueSegment(e', Data, data, now).(reader := e.reader) == QueueSegment(e, Data, data, now)
  {
  }

  lemma ReadDoneInv(e: End, data: Bytes, res: ReadResult, now: int, plog: seq<Item>)
    requires EndInv(e, plog) && e.reader.Reading? && |data| <= e.reader.n
    ensures var e' := ReadDone(e, data, res, now);
            EndInv(e', plog) && Advances(e, e') && SameAcked(e, e')
  {
    hide FramesInv, RcvInv, QueueSegment, SndInv, MayQueue, Abort, MaybeFinish;
    if e.dead {
      ReadDoneDead(e, data, plog);
    } else {
      var e1 := ReadQueue(e, data, now);
      match res
      case ReadOk =>
        ReadQueueInv(e, data, AtRead, now, plog);
        FlushInv(e, e1.(reader := AtRead), plog);
      case ReadFail =>
        ReadQueueInv(e, data, ReadEnded, now, plog);
        AbortInv(e, e1.(reader := ReadEnded), true, plog);
        FlushInv(e, Abort(e1.(reader := ReadEnded), true), plog);
      case ReadEof =>
        ReadQueueInv(e, data, ReadEnded, now, plog);
        ReadEofInv(e, e1, now, plog);
    }
  }

  lemma ReadDoneDead(e: End, data: Bytes, plog: seq<Item>)
    requires EndInv(e, plog) && e.reader.Reading? && e.dead
    ensures var e' := e.(snd := e.snd.(read := e.snd.read + data), reader := ReadEnded);
            EndInv(e', plog) && Advances(e, e') && SameAcked(e, e')
  {
    hide FramesInv, RcvInv;
  }

  lemma ReadEofInv(e: End, e1: End, now: int, plog: seq<Item>)
    requires var e2 := e1.(reader := ReadEnded);
             Held(e2, plog) && Working(e, e2) && SameAcked(e, e2) && !e2.dead && !e2.snd.finQueued
    ensures var e' := Flush(MaybeFinish(QueueSegment(e1, Fin, [], now).(reader := ReadEnded)));
            EndInv(e', plog) && Advances(e, e') && SameAcked(e, e')
  {
    hide FramesInv, RcvInv, SndInv, MayQueue, MaybeFinish, QueueSegment;
    var e2 := e1.(reader := ReadEnded);
    FinMayQueue(e2.cfg, e2.reader, e2.snd);
    HeldQueue(e, e2, Fin, [], now, plog);
    var e3 := QueueSegment(e2, Fin, [], now);
    assert e3 == QueueSegment(e1, Fin, [], now).(reader := ReadEnded) by { FinIgnoresReader(e2, e1, now); }
    MaybeFinishInv(e, e3, plog);
    FlushInv(e, MaybeFinish(e3), plog);
  }

  lemma FinIgnoresReader(e: End, e': End, now: int)
    requires e' == e.(reader := e'.reader)
    ensures QueueSegment(e', Fin, [], now).(reader := e.reader) == QueueSegment(e, Fin, [], now)
  {
  }

  // ---- writeLoop ------------------------------------------------------------------------

  /** Taking the queue moves it from waiting to in flight. */
  lemma WriteCheckRcv(e: End, plog: seq<Item>)
    requires RcvInv(e.dead, e.writer, e.rcv, plog) && e.writer == AtWrite
    ensures var e' := WriteCheck(e); RcvInv(e.dead, e'.writer, e'.rcv, plog)
  {
    hide Parked, Size;
  }

  lemma WriteCheckInv(e: End, plog: seq<Item>)
    requires EndInv(e, plog) && e.writer == AtWrite
    ensures EndInv(WriteCheck(e), plog) && Advances(e, WriteCheck(e)) && SameAcked(e, WriteCheck(e))
  {
    hide FramesInv, SndInv, RcvInv;
    WriteCheckRcv(e, plog);
    FramesGrow(e.cfg, e.snd.log, e.rcv, e.tx, e.out, e.snd.log, WriteCheck(e).rcv);
  }

  lemma WriteWakeInv(e: End, plog: seq<Item>)
    requires EndInv(e, plog) && e.writer == WaitData
    ensures EndInv(WriteWake(e), plog) && Advances(e, WriteWake(e)) && SameAcked(e, WriteWake(e))
  {
    hide FramesInv, SndInv;
  }

  /** The receive side once WriteTo has returned n. */
  function Wrote(e: End, n: nat, ok: bool): Rcv
    requires e.writer.Writing? && n <= |Flatten(e.writer.bufs)|
  {
    e.rcv.(written := e.rcv.written + Flatten(e.writer.bufs)[..n],
           queued := if ok then e.rcv.queued - n else e.rcv.queued)
  }

  lemma WroteInv(e: End, n: nat, plog: seq<Item>)
    requires RcvInv(e.dead, e.writer, e.rcv, plog)
    requires e.writer.Writing? && n == |Flatten(e.writer.bufs)|
    ensures RcvInv(e.dead, AtWrite, Wrote(e, n, true), plog)
    ensures RightEdge(e.cfg, e.rcv) <= RightEdge(e.cfg, Wrote(e, n, true))
  {
    assert Flatten(e.writer.bufs)[..n] == Flatten(e.writer.bufs);
  }

  /** A failed write leaves the stream with what reached conn, and dead. */
  lemma WriteFailed(e: End, n: nat, plog: seq<Item>)
    requires RcvInv(e.dead, e.writer, e.rcv, plog)
    requires e.writer.Writing? && n <= |Flatten(e.writer.bufs)|
    ensures RcvInv(true, WriteEnded, Wrote(e, n, false).(ooo := map[], queue := []), plog)
  {
  }

  lemma SndDies(cfg: Config, dead: bool, reader: Reader, s: Snd)
    requires SndInv(cfg, dead, reader, s)
    ensures SndInv(cfg, true, reader, s.(unacked := []))
  {
  }

  lemma WriteFailedInv(e: End, n: nat, plog: seq<Item>)
    requires EndInv(e, plog) && e.writer.Writing? && n <= |Flatten(e.writer.bufs)|
    ensures var e' := WriteDone(e, n, true);
            EndInv(e', plog) && Advances(e, e') && SameAcked(e, e')
  {
    hide FramesInv, SndInv, RcvInv, Flatten;
    WriteFailed(e, n, plog);
    SndDies(e.cfg, e.dead, e.reader, e.snd);
    FramesAppend(e.cfg, e.snd.log, e.rcv, e.tx, e.out, RST);
    var e1 := e.(rcv := Wrote(e, n, false), writer := WriteEnded);
    var e2 := Abort(e1, true);
    FramesGrow(e.cfg, e.snd.log, e.rcv, e.tx, e2.out, e.snd.log, e2.rcv);
    assert e.dead ==> e1.rcv == e1.rcv.(ooo := map[], queue := []) by { DeadHoldsNothing(e, plog); }
    assert e.dead ==> e.snd == e.snd.(unacked := []) by { DeadHoldsNothing(e, plog); }
    FlushInv(e, e2, plog);
  }

  lemma DeadHoldsNothing(e: End, plog: seq<Item>)
    requires EndInv(e, plog)
    ensures e.dead ==> e.rcv.ooo == map[] && e.rcv.queue == [] && e.snd.unacked == []
  {
  }

  lemma WriteDoneInv(e: End, n: nat, failed: bool, plog: seq<Item>)
    requires EndInv(e, plog) && e.writer.Writing? && n <= |Flatten(e.writer.bufs)|
    requires !failed ==> n == |Flatten(e.writer.bufs)|
    ensures var e' := WriteDone(e, n, failed);
            EndInv(e', plog) && Advances(e, e') && SameAcked(e, e')
  {
    hide FramesInv, SndInv, RcvInv, Flatten, QueueAck, WorthUpdating;
    if failed {
      WriteFailedInv(e, n, plog);
    } else {
      WroteInv(e, n, plog);
      var e2 := e.(rcv := Wrote(e, n, true), writer := AtWrite);
      FramesGrow(e.cfg, e.snd.log, e.rcv, e.tx, e.out, e.snd.log, e2.rcv);
      assert e2.rcv.queued >= 0 by { QueuedNonNegative(e2.dead, e2.writer, e2.rcv, plog); }
      HeldAck(e, e2, false, false, plog);
      FlushInv(e, if WorthUpdating(e2) then QueueAck(e2, false, false) else e2, plog);
    }
  }

  lemma QueuedNonNegative(dead: bool, writer: Writer, r: Rcv, plog: seq<Item>)
    requires RcvInv(dead, writer, r, plog)
    ensures r.queued >= 0
  {
  }

  lemma WriteClosedInv(e: End, plog: seq<Item>)
    requires EndInv(e, plog) && e.writer == Closing
    ensures EndInv(WriteClosed(e), plog) && Advances(e, WriteClosed(e)) && SameAcked(e, WriteClosed(e))
  {
    hide FramesInv, SndInv, MaybeFinish;
    var e1 := e.(writer := WriteEnded, rcv := e.rcv.(finWritten := true));
    FramesGrow(e.cfg, e.snd.log, e.rcv, e.tx, e.out, e.snd.log, e1.rcv);
    MaybeFinishInv(e, e1, plog);
    FlushInv(e, MaybeFinish(e1), plog);
  }

  // ---- every section --------------------------------------------------------------------

  /** One end keeps its invariant, whichever section runs. */
  lemma StepInv(e: End, ev: Event, plog: seq<Item>)
    requires EndInv(e, plog) && Enabled(e, ev)
    requires ev.Recv? ==> Genuine(e, ev.f, plog)
    ensures var e' := Step(e, ev);
            EndInv(e', plog) && Advances(e, e')
            && (if ev.Recv? then AckedBy(e, e', ev.f) else SameAcked(e, e'))
  {
    hide EndInv, Advances, SameAcked, HandleFrame, OnTimer, OnAckTimer, CheckOpened, Stop, Dialed;
    hide ReadCheck, ReadWake, ReadDone, WriteCheck, WriteWake, WriteDone, WriteClosed;
    match ev
    case Recv(f, now) => HandleFrameInv(e, f, now, plog);
    case TimerFires(now) => OnTimerInv(e, now, plog);
    case AckTimerFires => SmallSectionsInv(e, plog);
    case OpenTimeout => SmallSectionsInv(e, plog);
    case Stopped => SmallSectionsInv(e, plog);
    case DialReturns(ok) => DialedInv(e, ok, plog);
    case ReadChecks => ReadCheckInv(e, plog);
    case ReadWakes => ReadWakeInv(e, plog);
    case ReadReturns(data, res, now) => ReadDoneInv(e, data, res, now, plog);
    case WriteChecks => WriteCheckInv(e, plog);
    case WriteWakes => WriteWakeInv(e, plog);
    case WriteReturns(n, failed) => WriteDoneInv(e, n, failed, plog);
    case WriteCloses => WriteClosedInv(e, plog);
  }
}
