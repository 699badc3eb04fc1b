/** When a receiver tells its peer that its window has opened (writeLoop of src/tcp_stream.go). */
module StreamUpdates {
  import opened Bytes
  import opened StreamTypes
  import opened StreamEnd
  import opened StreamInv
  import opened StreamStep
  import opened StreamKarn
  import opened StreamSystem
  import opened StreamTheorems
  import opened StreamFlow
  import opened StreamRecovery
  import opened StreamTiming

  /** The furthest right edge that frames have told of, 0 before any. */
  ghost predicate Furthest(fs: seq<Frame>, right: int) {
    && right >= 0 && (forall i :: 0 <= i < |fs| && fs[i].kind != Rst ==> Edge(fs[i]) <= right)
    && (right == 0 || exists i :: 0 <= i < |fs| && fs[i].kind != Rst && Edge(fs[i]) == right)
  }

  /** The end knows it. */
  ghost predicate KnowsTold(e: End) { Furthest(e.tx + e.out, e.acks.advRight) }

  lemma OneFurther(fs: seq<Frame>, right: int, f: Frame)
    requires Furthest(fs, right)
    ensures Furthest(fs + [f], if f.kind == Rst then right else Max(right, Edge(f)))
  {
    var right' := if f.kind == Rst then right else Max(right, Edge(f));
    if right' == right {
      if right != 0 {
        var i :| 0 <= i < |fs| && fs[i].kind != Rst && Edge(fs[i]) == right;
        assert (fs + [f])[i] == fs[i];
      }
    } else {
      assert (fs + [f])[|fs|] == f;
    }
  }

  /** A frame that tells of the present state. */
  lemma FrameTold(e: End, f: Frame)
    requires KnowsTold(e) && f.kind != Rst && Edge(f) == e.rcv.nxt + Free(e)
    ensures KnowsTold(e.(acks := FillAck(e), out := e.out + [f]))
  {
    OneFurther(e.tx + e.out, e.acks.advRight, f);
    assert e.tx + (e.out + [f]) == e.tx + e.out + [f];
  }

  lemma RstTold(e: End)
    requires KnowsTold(e)
    ensures KnowsTold(e.(out := e.out + [RST]))
  {
    OneFurther(e.tx + e.out, e.acks.advRight, RST);
    assert e.tx + (e.out + [RST]) == e.tx + e.out + [RST];
  }

  /** Nothing else counts. */
  lemma SameTold(e: End, e': End)
    requires KnowsTold(e) && e'.tx == e.tx && e'.out == e.out && e'.acks.advRight == e.acks.advRight
    ensures KnowsTold(e')
  {
  }

  lemma AckTold(e: End, probe: bool, outOfOrder: bool)
    requires KnowsTold(e)
    ensures KnowsTold(QueueAck(e, probe, outOfOrder))
  {
    FrameTold(e, AckFrame(e, Ack, probe, outOfOrder, 0, []));
  }

  lemma ResendTold(e: End, i: nat, now: int)
    requires KnowsTold(e) && i < |e.snd.unacked| && e.snd.unacked[i].kind != Rst
    ensures KnowsTold(Resend(e, i, now))
  {
    hide FillAck, KnowsTold;
    var e1 := e.(snd := Resent(e.snd, i, now));
    SameTold(e, e1);
    var g := e1.snd.unacked[i];
    FrameTold(e1, AckFrame(e1, g.kind, false, false, g.num, g.data));
  }

  lemma MarkedTold(tx: seq<Frame>, out: seq<Frame>, client: bool, right: int)
    requires Furthest(tx + out, right)
    ensures Furthest(tx + Marked(out, client), right)
  {
    var a, b := tx + out, tx + Marked(out, client);
    forall i | 0 <= i < |b| ensures b[i].kind == a[i].kind && Edge(b[i]) == Edge(a[i]) {}
    if right != 0 {
      var i :| 0 <= i < |a| && a[i].kind != Rst && Edge(a[i]) == right;
      assert b[i].kind != Rst && Edge(b[i]) == right;
    }
  }

  lemma FlushTold(e: End)
    requires KnowsTold(e)
    ensures KnowsTold(Flush(e))
  {
    MarkedTold(e.tx, e.out, e.cfg.client, e.acks.advRight);
    assert e.tx + Marked(e.out, e.cfg.client) + [] == e.tx + Marked(e.out, e.cfg.client);
  }

  lemma DieTold(e: End)
    requires KnowsTold(e)
    ensures KnowsTold(MaybeFinish(e)) && KnowsTold(Abort(e, true)) && KnowsTold(Abort(e, false))
  {
    hide KnowsTold;
    RstTold(e);
    SameTold(e, MaybeFinish(e));
    SameTold(e, Abort(e, false));
    SameTold(e.(out := e.out + [RST]), Die(e.(out := e.out + [RST])));
  }

  // ---- frames ---------------------------------------------------------------------------

  lemma RetransmitTold(e: End, now: int)
    requires KnowsTold(e) && (|e.snd.unacked| > 0 ==> e.snd.unacked[0].kind != Rst)
    ensures KnowsTold(FastRetransmit(e, now))
  {
    hide KnowsTold, Resend, Quot;
    if |e.snd.unacked| > 0 { ResendTold(e, 0, now); }
  }

  lemma AdvanceTold(e: End, ack: int, now: int)
    requires KnowsTold(e) && Kinds(e.snd.unacked)
    ensures KnowsTold(Advance(e, ack, now))
  {
    hide KnowsTold, UpdateRTT, AckedCount, FastRetransmit, Min, NeedsTimer;
    var n := AckedCount(e.snd.unacked, ack);
    var e1 := e.(snd := Acknowledged(e.snd, n, ack),
                 rtx := Sample(e, n, now).(backoff := 0, dupAcks := 0, lastProgress := now));
    SameTold(e, e1);
    RetransmitTold(e1, now);
    var e2 := if ack < e.rtx.recover then FastRetransmit(e1, now) else e1;
    SameTold(e2, ArmTimer(e2));
  }

  predicate Kinds(unacked: seq<Segment>) { forall i :: 0 <= i < |unacked| ==> unacked[i].kind != Rst }

  lemma KindsOf(e: End, plog: seq<Item>)
    requires EndInv(e, plog) && !e.dead
    ensures Kinds(e.snd.unacked)
  {
    hide EndInv;
    forall i | 0 <= i < |e.snd.unacked| ensures e.snd.unacked[i].kind != Rst { UnackedAt(e, plog, i); }
  }

  lemma DuplicateTold(e: End, now: int)
    requires KnowsTold(e) && Kinds(e.snd.unacked)
    ensures KnowsTold(CountDuplicate(e, now))
  {
    hide KnowsTold, FastRetransmit;
    var e1 := e.(rtx := e.rtx.(dupAcks := e.rtx.dupAcks + 1, recover := e.snd.nxt));
    SameTold(e, e1);
    RetransmitTold(e1, now);
    SameTold(e, e.(rtx := e.rtx.(dupAcks := e.rtx.dupAcks + 1)));
  }

  lemma WindowTold(e: End, right: int)
    requires KnowsTold(e)
    ensures KnowsTold(Signal(OpenWindow(e, right)))
  {
    hide KnowsTold, Min, Pow2, NeedsTimer;
    SameTold(e, Signal(OpenWindow(e, right)));
  }

  lemma ProcessAckTold(e: End, f: Frame, now: int)
    requires KnowsTold(e) && Kinds(e.snd.unacked)
    ensures KnowsTold(ProcessAck(e, f, now))
  {
    hide KnowsTold, Advance, CountDuplicate, OpenWindow, Signal;
    AdvanceTold(e, f.ack, now);
    DuplicateTold(e, now);
    WindowTold(Advance(e, f.ack, now), Edge(f));
    WindowTold(CountDuplicate(e, now), Edge(f));
    WindowTold(e, Edge(f));
  }

  lemma {:induction false} DrainTold(e: End)
    requires KnowsTold(e)
    ensures KnowsTold(Drain(e))
    decreases |e.rcv.ooo|
  {
    hide KnowsTold;
    if e.rcv.nxt in e.rcv.ooo {
      DeliverNextShrinks(e);
      SameTold(e, DeliverNext(e));
      DrainTold(DeliverNext(e));
    }
  }

  lemma DelayTold(e: End, filled: bool, g: Segment)
    requires KnowsTold(e)
    ensures KnowsTold(DelayAck(e, filled, g))
  {
    hide KnowsTold, QueueAck;
    var e1 := e.(acks := e.acks.(pending := e.acks.pending + 1));
    SameTold(e, e1);
    SameTold(e, e1.(acks := e1.acks.(timerSet := true)));
    AckTold(e1, false, false);
  }

  lemma SegmentTold(e: End, f: Frame)
    requires KnowsTold(e)
    ensures KnowsTold(ProcessSegment(e, f))
  {
    hide KnowsTold, QueueAck, Drain, DelayAck, Refused, Deliver;
    var g := Received(f);
    AckTold(e, false, false);
    SameTold(e, Park(e, g));
    AckTold(Park(e, g), false, true);
    DeliverEffect(e, g);
    SameTold(e, Deliver(e, g));
    DrainTold(Deliver(e, g));
    DelayTold(Drain(Deliver(e, g)), Deliver(e, g).rcv.nxt in Deliver(e, g).rcv.ooo, g);
  }

  lemma FrameKeepsTold(e: End, f: Frame, now: int, plog: seq<Item>)
    requires EndInv(e, plog) && KnowsTold(e)
    ensures KnowsTold(HandleFrame(e, f, now))
  {
    hide EndInv, KnowsTold, ProcessAck, ProcessSegment, QueueAck, MaybeFinish, Flush, Abort;
    var e1 := e.(lastHeard := now);
    SameTold(e, e1);
    if e.dead {
      AckTold(e, false, false);
      RstTold(e);
      FlushTold(HandleDead(e, f));
    } else if f.kind == Rst {
      DieTold(e1);
      FlushTold(Abort(e1, false));
    } else {
      KindsOf(e, plog);
      ProcessAckTold(e1, f, now);
      var e2 := ProcessAck(e1, f, now);
      SegmentTold(e2, f);
      var e3 := if f.Segment() then ProcessSegment(e2, f) else e2;
      AckTold(e3, false, false);
      DieTold(if f.probe && |e3.out| == 0 then QueueAck(e3, false, false) else e3);
      FlushTold(HandleLive(e1, f, now));
    }
  }

  // ---- the other sections ---------------------------------------------------------------

  lemma {:induction false} ResendFromTold(e: End, i: nat, now: int)
    requires KnowsTold(e) && i <= |e.snd.unacked| && Kinds(e.snd.unacked)
    ensures KnowsTold(ResendFrom(e, i, now))
    decreases |e.snd.unacked| - i
  {
    hide KnowsTold;
    if i < |e.snd.unacked| {
      ResendTold(e, i, now);
      ResendFromTold(Resend(e, i, now), i + 1, now);
    }
  }

  lemma TimerTold(e: End, now: int, plog: seq<Item>)
    requires EndInv(e, plog) && KnowsTold(e)
    ensures KnowsTold(OnTimer(e, now))
  {
    hide EndInv, KnowsTold, ResendFrom, QueueAck, Flush, Abort, Min, Pow2, NeedsTimer;
    var e1 := e.(rtx := e.rtx.(armed := false));
    SameTold(e, e1);
    if !e.dead {
      KindsOf(e, plog);
      DieTold(e1);
      FlushTold(Abort(e1, true));
      ResendFromTold(e1, 0, now);
      AckTold(e1, true, false);
      var e2 := if |e1.snd.unacked| > 0 then ResendFrom(e1, 0, now) else QueueAck(e1, true, false);
      var e3 := e2.(rtx := e2.rtx.(backoff := if e2.rtx.backoff < 6 then e2.rtx.backoff + 1 else e2.rtx.backoff));
      SameTold(e2, ArmTimer(e3));
      FlushTold(ArmTimer(e3));
    }
  }

  lemma QueueTold(e: End, kind: Kind, data: Bytes, now: int)
    requires KnowsTold(e) && kind != Rst
    ensures KnowsTold(QueueSegment(e, kind, data, now))
  {
    hide KnowsTold, FillAck, Min, Pow2, NeedsTimer;
    var g := Segment(e.snd.nxt, kind, data, now, false);
    var e1 := e.(snd := Enqueue(e.snd, g));
    SameTold(e, e1);
    FrameTold(e1, AckFrame(e1, kind, false, false, g.num, g.data));
    SameTold(QueueSegmentFrame(e1, g), QueueSegment(e, kind, data, now));
  }

  lemma ReadTold(e: End, data: Bytes, res: ReadResult, now: int)
    requires KnowsTold(e)
    ensures KnowsTold(ReadDone(e, data, res, now))
  {
    hide KnowsTold, QueueSegment, Flush, Abort, MaybeFinish;
    var e0 := e.(snd := e.snd.(read := e.snd.read + data));
    SameTold(e, e0);
    SameTold(e, e0.(reader := ReadEnded));
    QueueTold(e0, Data, data, now);
    var e1 := if |data| > 0 then QueueSegment(e0, Data, data, now) else e0;
    SameTold(e1, e1.(reader := AtRead));
    FlushTold(e1.(reader := AtRead));
    SameTold(e1, e1.(reader := ReadEnded));
    DieTold(e1.(reader := ReadEnded));
    FlushTold(Abort(e1.(reader := ReadEnded), true));
    QueueTold(e1, Fin, [], now);
    var e2 := QueueSegment(e1, Fin, [], now);
    SameTold(e2, e2.(reader := ReadEnded));
    DieTold(e2.(reader := ReadEnded));
    FlushTold(MaybeFinish(e2.(reader := ReadEnded)));
  }

  lemma WriteTold(e: End, n: nat, failed: bool)
    requires e.writer.Writing? && n <= |Flatten(e.writer.bufs)| && KnowsTold(e)
    ensures KnowsTold(WriteDone(e, n, failed))
  {
    hide KnowsTold, QueueAck, Flush, Abort, WorthUpdating, Flatten;
    var e1 := e.(rcv := Wrote(e, n, false), writer := WriteEnded);
    SameTold(e, e1);
    DieTold(e1);
    FlushTold(Abort(e1, true));
    var e2 := e.(rcv := Wrote(e, n, true), writer := AtWrite);
    SameTold(e, e2);
    AckTold(e2, false, false);
    FlushTold(if WorthUpdating(e2) then QueueAck(e2, false, false) else e2);
  }

  lemma CallbackTold(e: End, ok: bool)
    requires KnowsTold(e)
    ensures KnowsTold(OnAckTimer(e)) && KnowsTold(CheckOpened(e)) && KnowsTold(Stop(e)) && KnowsTold(Dialed(e, ok))
  {
    hide KnowsTold, QueueAck, Flush, Abort;
    var a := e.(acks := e.acks.(timerSet := false));
    SameTold(e, a);
    AckTold(a, false, false);
    FlushTold(if !a.dead && a.acks.pending > 0 then QueueAck(a, false, false) else a);
    DieTold(e);
    FlushTold(e);
    FlushTold(Abort(e, true));
    var d := e.(link := e.link.(dialing := false));
    SameTold(e, d);
    DieTold(d);
    FlushTold(Abort(d, true));
    var d2 := StartLoops(d.(link := d.link.(conn := true)));
    SameTold(e, d2);
    FlushTold(d2);
  }

  lemma LoopTold(e: End)
    requires KnowsTold(e)
    ensures KnowsTold(ReadCheck(e)) && KnowsTold(ReadWake(e)) && KnowsTold(WriteCheck(e)) && KnowsTold(WriteWake(e))
    ensures KnowsTold(WriteClosed(e))
  {
    hide KnowsTold, Flush, MaybeFinish, Min, Pow2, NeedsTimer, CanSend;
    SameTold(e, ReadCheck(e));
    SameTold(e, ReadWake(e));
    SameTold(e, WriteCheck(e));
    SameTold(e, WriteWake(e));
    var c := e.(writer := WriteEnded, rcv := e.rcv.(finWritten := true));
    SameTold(e, c);
    DieTold(c);
    FlushTold(MaybeFinish(c));
  }

  lemma StepTold(e: End, ev: Event, plog: seq<Item>)
    requires EndInv(e, plog) && Enabled(e, ev) && KnowsTold(e)
    ensures KnowsTold(Step(e, ev))
  {
    hide EndInv, KnowsTold, HandleFrame, OnTimer, ReadDone, WriteDone, OnAckTimer, CheckOpened, Stop, Dialed;
    hide ReadCheck, ReadWake, WriteCheck, WriteWake, WriteClosed;
    match ev
    case Recv(f, now) => FrameKeepsTold(e, f, now, plog);
    case TimerFires(now) => TimerTold(e, now, plog);
    case ReadReturns(data, res, now) => ReadTold(e, data, res, now);
    case WriteReturns(n, failed) => WriteTold(e, n, failed);
    case AckTimerFires => CallbackTold(e, true);
    case OpenTimeout => CallbackTold(e, true);
    case Stopped => CallbackTold(e, true);
    case DialReturns(ok) => CallbackTold(e, ok);
    case _ => LoopTold(e);
  }

  lemma ActKeepsTold(y: System, a: Action)
    requires SysInv(y) && CanAct(y, a) && KnowsTold(y.c) && KnowsTold(y.s)
    ensures KnowsTold(Act(y, a).c) && KnowsTold(Act(y, a).s)
  {
    hide EndInv, Flow, Step, HandleFrame, KnowsTold, Flush;
    match a
    case Client(ev) => StepTold(y.c, ev, y.s.snd.log);
    case Server(ev) => StepTold(y.s, ev, y.c.snd.log);
    case FirstFrame(f, now) =>
      var s1 := y.s.(lastHeard := now, rtx := y.s.rtx.(lastProgress := now));
      SameTold(y.s, s1);
      RstTold(y.s);
      FlushTold(y.s.(out := y.s.out + [RST]));
      if f.kind != Rst && f.kind != Ack && !y.refuse {
        Restamped(y.s, s1, y.c.snd.log);
        FrameKeepsTold(s1, f, now, y.c.snd.log);
      }
    case Refuse =>
  }

  /** In every reachable state an end knows the furthest right edge it has told its peer of. */
  lemma {:induction false} RunTold(run: seq<System>, acts: seq<Action>, ccfg: Config, scfg: Config, target: Bytes,
          now: int, i: nat)
    requires IsRun(run, acts, ccfg, scfg, target, now) && i < |run|
    ensures KnowsTold(run[i].c) && KnowsTold(run[i].s)
  {
    hide SysInv, CanAct, Act, KnowsTold, Opened;
    if i == 0 {
      InitialTold(ccfg, scfg, target, now);
    } else {
      RunInv(run, acts, ccfg, scfg, target, now, i - 1);
      RunTold(run, acts, ccfg, scfg, target, now, i - 1);
      ActKeepsTold(run[i - 1], acts[i - 1]);
    }
  }

  lemma InitialTold(ccfg: Config, scfg: Config, target: Bytes, now: int)
    ensures KnowsTold(Opened(ccfg, target, now)) && KnowsTold(New(scfg, false, now))
  {
    hide QueueSegment, Flush;
    var n := New(ccfg, true, now);
    assert KnowsTold(n);
    QueueTold(n, Open, target, now);
    var e1 := QueueSegment(n, Open, target, now);
    SameTold(e1, StartLoops(e1));
    FlushTold(StartLoops(e1));
  }

  /**
   * Once bytes are written out, the peer is told of the window if, and only if, its right edge is a quarter of the
   * window beyond the furthest one told; so it never lags by more.
   */
  lemma UpdatesWindow(run: seq<System>, acts: seq<Action>, ccfg: Config, scfg: Config, target: Bytes, now: int, i: nat,
          side: bool, n: nat, told: int)
    requires IsRun(run, acts, ccfg, scfg, target, now) && i < |run|
    requires var e := EndOf(run[i], side);
             e.writer.Writing? && n <= |Flatten(e.writer.bufs)| && Furthest(e.tx, told)
    ensures var e, e' := EndOf(run[i], side), WriteDone(EndOf(run[i], side), n, false);
            var sent := SentIn(e, e');
            if RightEdge(e.cfg, e'.rcv) - told >= e.cfg.window / 4
            then |sent| == 1 && sent[0].kind == Ack && sent[0].ack == e.rcv.nxt
                 && Edge(sent[0]) == RightEdge(e.cfg, e'.rcv)
            else sent == []
  {
    hide IsRun, Flatten, EndInv, Flow;
    RunInv(run, acts, ccfg, scfg, target, now, i);
    RunTold(run, acts, ccfg, scfg, target, now, i);
    var e := EndOf(run[i], side);
    NothingOut(e, EndOf(run[i], !side).snd.log);
    assert e.tx + e.out == e.tx;
    OneFurthest(e.tx, told, e.acks.advRight);
    UpdateSent(e, n);
  }

  lemma OneFurthest(fs: seq<Frame>, a: int, b: int)
    requires Furthest(fs, a) && Furthest(fs, b)
    ensures a == b
  {
  }

  lemma UpdateSent(e: End, n: nat)
    requires e.writer.Writing? && n <= |Flatten(e.writer.bufs)| && e.out == []
    ensures var e' := WriteDone(e, n, false);
            var sent := SentIn(e, e');
            if RightEdge(e.cfg, e'.rcv) - e.acks.advRight >= e.cfg.window / 4
            then |sent| == 1 && sent[0].kind == Ack && sent[0].ack == e.rcv.nxt
                 && Edge(sent[0]) == RightEdge(e.cfg, e'.rcv)
            else sent == []
  {
    hide Flatten, FillAck, SentIn, Flush;
    var e2 := e.(rcv := Wrote(e, n, true), writer := AtWrite);
    FlushSends(e, if WorthUpdating(e2) then QueueAck(e2, false, false) else e2);
  }
}
