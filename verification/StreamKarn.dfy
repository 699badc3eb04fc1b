/** The Karn rule of src/tcp_stream.go:417-420: RTT samples come only from segments sent once. */
module StreamKarn {
  import opened Bytes
  import opened StreamTypes
  import opened StreamEnd
  import opened StreamInv
  import opened StreamStep

  /** How often the segment at num has been sent. */
  function Copies(fs: seq<Frame>, num: int): nat {
    if |fs| == 0 then 0
    else Copies(fs[..|fs| - 1], num) + (if fs[|fs| - 1].Segment() && fs[|fs| - 1].num == num then 1 else 0)
  }

  lemma {:induction false} CopiesConcat(a: seq<Frame>, b: seq<Frame>, num: int)
    ensures Copies(a + b, num) == Copies(a, num) + Copies(b, num)
  {
    if |b| == 0 {
      assert a + b == a;
    } else {
      assert (a + b)[..|a + b| - 1] == a + b[..|b| - 1];
      CopiesConcat(a, b[..|b| - 1], num);
    }
  }

  lemma {:induction false} CopiesMarked(fs: seq<Frame>, client: bool, num: int)
    ensures Copies(Marked(fs, client), num) == Copies(fs, num)
  {
    if |fs| > 0 {
      var front := fs[..|fs| - 1];
      CopiesMarked(front, client, num);
      assert Marked(fs, client)[..|fs| - 1] == Marked(front, client);
    }
  }

  lemma {:induction false} NoCopies(fs: seq<Frame>, num: int)
    requires forall i :: 0 <= i < |fs| ==> !(fs[i].Segment() && fs[i].num == num)
    ensures Copies(fs, num) == 0
  {
    if |fs| > 0 { NoCopies(fs[..|fs| - 1], num); }
  }

  ghost predicate OnceAt(g: Segment, sent: seq<Frame>) {
    !g.retrans ==> Copies(sent, g.num) == 1
  }

  /** An unacknowledged segment not marked as retransmitted was sent exactly once. */
  ghost predicate Once(unacked: seq<Segment>, sent: seq<Frame>) {
    forall i :: 0 <= i < |unacked| ==> OnceAt(unacked[i], sent)
  }

  ghost predicate OnceInv(e: End) { Once(e.snd.unacked, e.tx + e.out) }

  /** Frames that are no segments change nothing. */
  lemma MoreAcks(unacked: seq<Segment>, tx: seq<Frame>, out: seq<Frame>, out': seq<Frame>)
    requires Once(unacked, tx + out) && out <= out'
    requires forall i :: |out| <= i < |out'| ==> !out'[i].Segment()
    ensures Once(unacked, tx + out')
  {
    forall i | 0 <= i < |unacked| ensures OnceAt(unacked[i], tx + out') {
      var num := unacked[i].num;
      assert OnceAt(unacked[i], tx + out);
      assert tx + out' == (tx + out) + out'[|out|..];
      NoCopies(out'[|out|..], num);
      CopiesConcat(tx + out, out'[|out|..], num);
    }
  }

  lemma OneMore(sent: seq<Frame>, f: Frame, num: int)
    ensures Copies(sent + [f], num) == Copies(sent, num) + (if f.Segment() && f.num == num then 1 else 0)
  {
    assert (sent + [f])[..|sent|] == sent;
  }

  /** Segments of the log lie below nxt, so a new one has not been sent before. */
  lemma FreshSegment(cfg: Config, log: seq<Item>, r: Rcv, tx: seq<Frame>, out: seq<Frame>)
    requires FramesInv(cfg, log, r, tx, out) && Positive(log)
    ensures Copies(tx + out, Size(log)) == 0
  {
    var all := tx + out;
    forall i | 0 <= i < |all| ensures !(all[i].Segment() && all[i].num == Size(log)) {
      assert FrameOk(all[i], cfg, log, r);
      if all[i].Segment() {
        var j :| ItemAt(log, j, all[i].num, all[i].kind, all[i].payload);
        StartInjective(log, j, |log|);
        StartEnd(log);
      }
    }
    NoCopies(all, Size(log));
  }

  /** A new segment leaves the count of those before it alone. */
  lemma OnceBefore(unacked: seq<Segment>, log: seq<Item>, acked: nat, sent: seq<Frame>, f: Frame)
    requires Tiles(unacked, log, acked) && Positive(log) && Once(unacked, sent) && f.num == Size(log)
    ensures Once(unacked, sent + [f])
  {
    forall i | 0 <= i < |unacked| ensures OnceAt(unacked[i], sent + [f]) {
      OneMore(sent, f, unacked[i].num);
      assert OnceAt(unacked[i], sent);
      assert Matches(unacked[i], log, acked + i);
      StartInjective(log, acked + i, |log|);
      StartEnd(log);
    }
  }

  lemma OnceAppend(unacked: seq<Segment>, g: Segment, sent: seq<Frame>)
    requires Once(unacked, sent) && OnceAt(g, sent)
    ensures Once(unacked + [g], sent)
  {
  }

  lemma EnqueueOnce(e: End, kind: Kind, data: Bytes, now: int)
    requires FramesInv(e.cfg, e.snd.log, e.rcv, e.tx, e.out) && Positive(e.snd.log)
    requires e.snd.nxt == Size(e.snd.log) && OnceInv(e) && kind != Ack && kind != Rst
    requires Tiles(e.snd.unacked, e.snd.log, e.snd.acked)
    ensures OnceInv(QueueSegment(e, kind, data, now))
  {
    hide FramesInv, FillAck, Once, Tiles, Copies, Size;
    var g := Segment(e.snd.nxt, kind, data, now, false);
    FreshSegment(e.cfg, e.snd.log, e.rcv, e.tx, e.out);
    var e' := QueueSegment(e, kind, data, now);
    var f := e'.out[|e.out|];
    assert e'.tx + e'.out == (e.tx + e.out) + [f];
    OneMore(e.tx + e.out, f, g.num);
    OnceBefore(e.snd.unacked, e.snd.log, e.snd.acked, e.tx + e.out, f);
    OnceAppend(e.snd.unacked, g, (e.tx + e.out) + [f]);
  }

  /** Sending segment i again, marked, leaves the count of the others alone. */
  lemma OnceOthers(unacked: seq<Segment>, log: seq<Item>, acked: nat, sent: seq<Frame>, f: Frame, i: nat, g: Segment)
    requires Tiles(unacked, log, acked) && Positive(log) && Once(unacked, sent) && i < |unacked|
    requires f.num == unacked[i].num && g.retrans
    ensures Once(unacked[i := g], sent + [f])
  {
    var marked := unacked[i := g];
    forall j | 0 <= j < |marked| ensures OnceAt(marked[j], sent + [f]) {
      if j != i {
        assert OnceAt(unacked[j], sent);
        assert Matches(unacked[j], log, acked + j);
        assert Matches(unacked[i], log, acked + i);
        StartInjective(log, acked + i, acked + j);
        OneMore(sent, f, unacked[j].num);
      }
    }
  }

  lemma ResendOnce(e: End, i: nat, now: int)
    requires SndInv(e.cfg, false, e.reader, e.snd) && OnceInv(e) && i < |e.snd.unacked|
    ensures OnceInv(Resend(e, i, now))
  {
    hide FillAck, Once, Tiles, Start, Size, InWindow;
    var s := e.snd;
    var e' := Resend(e, i, now);
    var f := e'.out[|e.out|];
    assert e'.tx + e'.out == (e.tx + e.out) + [f];
    OnceOthers(s.unacked, s.log, s.acked, e.tx + e.out, f, i, e'.snd.unacked[i]);
  }

  lemma FlushOnce(e: End)
    requires OnceInv(e)
    ensures OnceInv(Flush(e))
  {
    forall i | 0 <= i < |e.snd.unacked| ensures OnceAt(e.snd.unacked[i], Flush(e).tx + Flush(e).out) {
      var num := e.snd.unacked[i].num;
      assert OnceAt(e.snd.unacked[i], e.tx + e.out);
      CopiesConcat(e.tx, e.out, num);
      CopiesMarked(e.out, e.cfg.client, num);
      CopiesConcat(e.tx, Marked(e.out, e.cfg.client), num);
      assert Flush(e).tx + Flush(e).out == e.tx + Marked(e.out, e.cfg.client);
    }
  }

  lemma AcknowledgedOnce(unacked: seq<Segment>, n: nat, sent: seq<Frame>)
    requires Once(unacked, sent) && n <= |unacked|
    ensures Once(unacked[n..], sent)
  {
    forall i | 0 <= i < |unacked[n..]| ensures OnceAt(unacked[n..][i], sent) {
      assert OnceAt(unacked[n + i], sent);
    }
  }

  lemma FastRetransmitOnce(e: End, now: int)
    requires SndInv(e.cfg, false, e.reader, e.snd) && OnceInv(e)
    ensures OnceInv(FastRetransmit(e, now))
  {
    hide SndInv, OnceInv;
    if FastRetransmit(e, now) != e { ResendOnce(e, 0, now); }
  }

  /** Opening the window sends nothing. */
  lemma OpenOnce(e: End, right: int)
    requires OnceInv(e)
    ensures OnceInv(ArmTimer(e)) && OnceInv(Signal(OpenWindow(e, right)))
  {
    hide Once, Armed;
  }

  lemma ProcessAckOnce(e: End, f: Frame, now: int)
    requires EndSane(e) && SndInv(e.cfg, false, e.reader, e.snd) && Boundary(e.snd.log, f.ack) && OnceInv(e)
    ensures OnceInv(ProcessAck(e, f, now))
  {
    hide SndInv, FramesInv, FastRetransmit, Start, Once, UpdateRTT, ArmTimer, OpenWindow, Signal, AckedCount, Queued;
    var k :| BoundaryAt(e.snd.log, k, f.ack);
    AcknowledgedCount(e.cfg, e.reader, e.snd, k);
    if f.ack > e.snd.una {
      var n := AckedCount(e.snd.unacked, f.ack);
      AcknowledgedInv(e.cfg, e.reader, e.snd, k);
      AcknowledgedOnce(e.snd.unacked, n, e.tx + e.out);
      var e1 := e.(snd := Acknowledged(e.snd, n, f.ack),
                   rtx := Sample(e, n, now).(backoff := 0, dupAcks := 0, lastProgress := now));
      FastRetransmitOnce(e1, now);
      OpenOnce(if f.ack < e.rtx.recover then FastRetransmit(e1, now) else e1, 0);
      OpenOnce(Advance(e, f.ack, now), Edge(f));
    } else {
      FastRetransmitOnce(e.(rtx := e.rtx.(dupAcks := e.rtx.dupAcks + 1, recover := e.snd.nxt)), now);
      OpenOnce(CountDuplicate(e, now), Edge(f));
      OpenOnce(e, Edge(f));
    }
  }

  lemma {:induction false} ResendFromOnce(e0: End, e: End, i: nat, now: int, plog: seq<Item>)
    requires Held(e, plog) && Working(e0, e) && !e.dead && i <= |e.snd.unacked| && OnceInv(e)
    ensures OnceInv(ResendFrom(e, i, now))
    decreases |e.snd.unacked| - i
  {
    hide OnceInv, Held, Working;
    if i < |e.snd.unacked| {
      assert SndInv(e.cfg, false, e.reader, e.snd) by { HeldSnd(e, plog); }
      ResendOnce(e, i, now);
      ResendHeld(e0, e, i, now, plog);
      ResendFromOnce(e0, Resend(e, i, now), i + 1, now, plog);
    }
  }

  lemma HeldSnd(e: End, plog: seq<Item>)
    requires Held(e, plog) && !e.dead
    ensures SndInv(e.cfg, false, e.reader, e.snd)
  {
  }

  /** A frame that claims to start at nxt or later is no segment of the log. */
  lemma NewAreAcks(cfg: Config, log: seq<Item>, r: Rcv, tx: seq<Frame>, out: seq<Frame>, out': seq<Frame>)
    requires FramesInv(cfg, log, r, tx, out') && Positive(log) && NewAbove(out, out', Size(log))
    ensures forall i :: |out| <= i < |out'| ==> !out'[i].Segment()
  {
    forall i | |out| <= i < |out'| ensures !out'[i].Segment() {
      assert out'[i] in tx + out';
      assert FrameOk(out'[i], cfg, log, r);
      if out'[i].Segment() {
        var j :| ItemAt(log, j, out'[i].num, out'[i].kind, out'[i].payload);
        StartInjective(log, j, |log|);
        StartEnd(log);
      }
    }
  }

  lemma SegmentOnce(e: End, f: Frame, plog: seq<Item>)
    requires Held(e, plog) && !e.dead && f.Segment() && Genuine(e, f, plog) && OnceInv(e)
    ensures OnceInv(ProcessSegment(e, f))
  {
    hide FramesInv, RcvInv, LinkInv, ProcessSegment, Once, FinishInv;
    ProcessSegmentInv(e, f, plog);
    var e' := ProcessSegment(e, f);
    NewAreAcks(e.cfg, e.snd.log, e'.rcv, e.tx, e.out, e'.out);
    MoreAcks(e.snd.unacked, e.tx, e.out, e'.out);
  }

  lemma AckOnce(e: End, probe: bool, outOfOrder: bool)
    requires OnceInv(e)
    ensures OnceInv(QueueAck(e, probe, outOfOrder))
  {
    hide Once;
    MoreAcks(e.snd.unacked, e.tx, e.out, QueueAck(e, probe, outOfOrder).out);
  }

  lemma DieOnce(e: End)
    requires OnceInv(e)
    ensures OnceInv(MaybeFinish(e)) && OnceInv(Abort(e, true)) && OnceInv(Abort(e, false))
  {
  }

  lemma HandleFrameOnce(e: End, f: Frame, now: int, plog: seq<Item>)
    requires EndInv(e, plog) && Genuine(e, f, plog) && OnceInv(e)
    ensures OnceInv(HandleFrame(e, f, now))
  {
    hide OnceInv, Abort, FramesInv, SndInv, RcvInv, LinkInv, MaybeFinish, HandleDead, HandleLive, Flush;
    var e1 := e.(lastHeard := now);
    if e.dead {
      HandleDeadOnce(e, f, plog);
      FlushOnce(HandleDead(e, f));
    } else if f.kind == Rst {
      Restamp(e, e1);
      DieOnce(e1);
      FlushOnce(Abort(e1, false));
    } else {
      Restamp(e, e1);
      HandleLiveOnce(e1, f, now, plog);
      FlushOnce(HandleLive(e1, f, now));
    }
  }

  lemma Restamp(e: End, e': End)
    requires OnceInv(e) && e'.snd.unacked == e.snd.unacked && e'.tx == e.tx && e'.out == e.out
    ensures OnceInv(e')
  {
  }

  lemma HandleDeadOnce(e: End, f: Frame, plog: seq<Item>)
    requires EndInv(e, plog) && e.dead
    ensures OnceInv(HandleDead(e, f))
  {
  }

  lemma HandleLiveOnce(e: End, f: Frame, now: int, plog: seq<Item>)
    requires Held(e, plog) && !e.dead && f.kind != Rst && Genuine(e, f, plog) && OnceInv(e)
    ensures OnceInv(HandleLive(e, f, now))
  {
    hide OnceInv, MaybeFinish, FramesInv, SndInv, RcvInv, LinkInv, ProcessAck, ProcessSegment, QueueAck;
    ProcessAckInv(e, f, now);
    ProcessAckOnce(e, f, now);
    var e1 := ProcessAck(e, f, now);
    if f.Segment() { SegmentOnce(e1, f, plog); }
    var e2 := if f.Segment() then ProcessSegment(e1, f) else e1;
    AckOnce(e2, false, false);
    DieOnce(if f.probe && |e2.out| == 0 then QueueAck(e2, false, false) else e2);
  }

  lemma OnTimerOnce(e: End, now: int, plog: seq<Item>)
    requires EndInv(e, plog) && OnceInv(e)
    ensures OnceInv(OnTimer(e, now))
  {
    hide OnceInv, Abort, FramesInv, SndInv, RcvInv, LinkInv, ResendFrom, QueueAck, Flush;
    var e1 := e.(rtx := e.rtx.(armed := false));
    Restamp(e, e1);
    if e1.dead {
    } else if TimedOut(e1, now) {
      DieOnce(e1);
      FlushOnce(Abort(e1, true));
    } else {
      ResendFromOnce(e, e1, 0, now, plog);
      AckOnce(e1, true, false);
      var e2 := if |e1.snd.unacked| > 0 then ResendFrom(e1, 0, now) else QueueAck(e1, true, false);
      var backoff := if e2.rtx.backoff < 6 then e2.rtx.backoff + 1 else e2.rtx.backoff;
      var e3 := ArmTimer(e2.(rtx := e2.rtx.(backoff := backoff)));
      Restamp(e2, e3);
      FlushOnce(e3);
    }
  }

  lemma ReadDoneOnce(e: End, data: Bytes, res: ReadResult, now: int, plog: seq<Item>)
    requires EndInv(e, plog) && OnceInv(e) && e.reader.Reading? && |data| <= e.reader.n
    ensures OnceInv(ReadDone(e, data, res, now))
  {
    hide OnceInv, Abort, FramesInv, RcvInv, LinkInv, MaybeFinish, QueueSegment, Flush;
    var e0 := e.(snd := e.snd.(read := e.snd.read + data));
    Restamp(e, e0);
    if e0.dead {
      Restamp(e0, e0.(reader := ReadEnded));
    } else {
      EnqueueOnce(e0, Data, data, now);
      var e1 := ReadQueue(e, data, now);
      Restamp(e1, e1.(reader := AtRead));
      Restamp(e1, e1.(reader := ReadEnded));
      FlushOnce(e1.(reader := AtRead));
      DieOnce(e1.(reader := ReadEnded));
      FlushOnce(Abort(e1.(reader := ReadEnded), true));
      ReadQueueInv(e, data, ReadEnded, now, plog);
      EnqueueOnce(e1.(reader := ReadEnded), Fin, [], now);
      var e2 := QueueSegment(e1, Fin, [], now);
      FinIgnoresReader(e1.(reader := ReadEnded), e1, now);
      Restamp(QueueSegment(e1.(reader := ReadEnded), Fin, [], now), e2.(reader := ReadEnded));
      DieOnce(e2.(reader := ReadEnded));
      FlushOnce(MaybeFinish(e2.(reader := ReadEnded)));
    }
  }

  lemma OtherOnce(e: End, ok: bool, n: nat)
    requires OnceInv(e) && e.out == []
    ensures OnceInv(OnAckTimer(e)) && OnceInv(CheckOpened(e)) && OnceInv(Stop(e)) && OnceInv(Dialed(e, ok))
    ensures OnceInv(ReadCheck(e)) && OnceInv(ReadWake(e)) && OnceInv(WriteCheck(e)) && OnceInv(WriteWake(e))
    ensures OnceInv(WriteClosed(e))
    ensures e.writer.Writing? && n <= |Flatten(e.writer.bufs)| ==> OnceInv(WriteDone(e, n, ok))
  {
    hide OnceInv, Abort, MaybeFinish, QueueAck, Flush, WorthUpdating;
    var a := e.(acks := e.acks.(timerSet := false));
    Restamp(e, a);
    AckOnce(a, false, false);
    FlushOnce(if !a.dead && a.acks.pending > 0 then QueueAck(a, false, false) else a);
    DieOnce(e);
    FlushOnce(e);
    FlushOnce(Abort(e, true));
    var d := e.(link := e.link.(dialing := false));
    Restamp(e, d);
    DieOnce(d);
    FlushOnce(Abort(d, true));
    var d2 := StartLoops(d.(link := d.link.(conn := true)));
    Restamp(e, d2);
    FlushOnce(d2);
    Restamp(e, ReadCheck(e));
    Restamp(e, ReadWake(e));
    Restamp(e, WriteCheck(e));
    Restamp(e, WriteWake(e));
    var c := e.(writer := WriteEnded, rcv := e.rcv.(finWritten := true));
    Restamp(e, c);
    DieOnce(c);
    FlushOnce(MaybeFinish(c));
    if e.writer.Writing? && n <= |Flatten(e.writer.bufs)| { WriteDoneOnce(e, n, ok); }
  }

  lemma WriteDoneOnce(e: End, n: nat, failed: bool)
    requires OnceInv(e) && e.writer.Writing? && n <= |Flatten(e.writer.bufs)|
    ensures OnceInv(WriteDone(e, n, failed))
  {
    hide OnceInv, Abort, QueueAck, Flush, WorthUpdating, Flatten;
    var e1 := e.(rcv := Wrote(e, n, false), writer := WriteEnded);
    Restamp(e, e1);
    DieOnce(e1);
    FlushOnce(Abort(e1, true));
    var e2 := e.(rcv := Wrote(e, n, true), writer := AtWrite);
    Restamp(e, e2);
    AckOnce(e2, false, false);
    FlushOnce(if WorthUpdating(e2) then QueueAck(e2, false, false) else e2);
  }

  /** Every section keeps count. */
  lemma StepOnce(e: End, ev: Event, plog: seq<Item>)
    requires EndInv(e, plog) && OnceInv(e) && Enabled(e, ev)
    requires ev.Recv? ==> Genuine(e, ev.f, plog)
    ensures OnceInv(Step(e, ev))
  {
    hide EndInv, OnceInv, HandleFrame, OnTimer, OnAckTimer, CheckOpened, Stop, Dialed;
    hide ReadCheck, ReadWake, ReadDone, WriteCheck, WriteWake, WriteDone, WriteClosed;
    assert e.out == [] by { Unlocked(e, plog); }
    match ev
    case Recv(f, now) => HandleFrameOnce(e, f, now, plog);
    case TimerFires(now) => OnTimerOnce(e, now, plog);
    case ReadReturns(data, res, now) => ReadDoneOnce(e, data, res, now, plog);
    case DialReturns(ok) => OtherOnce(e, ok, 0);
    case WriteReturns(n, failed) => OtherOnce(e, failed, n);
    case _ => OtherOnce(e, true, 0);
  }

  lemma Unlocked(e: End, plog: seq<Item>)
    requires EndInv(e, plog)
    ensures e.out == []
  {
  }

  function Estimate(r: Rtx): (int, int, int) { (r.srtt, r.rttvar, r.rto) }

  lemma {:induction false} DrainEstimate(e: End)
    ensures Drain(e).rtx == e.rtx
    decreases |e.rcv.ooo|
  {
    if e.rcv.nxt in e.rcv.ooo {
      DeliverNextShrinks(e);
      DrainEstimate(DeliverNext(e));
    }
  }

  lemma SegmentEstimate(e: End, f: Frame)
    ensures ProcessSegment(e, f).rtx == e.rtx
  {
    hide Drain, Flush;
    DrainEstimate(Deliver(e, Received(f)));
  }

  lemma {:induction false} ResendEstimate(e: End, i: nat, now: int)
    requires i <= |e.snd.unacked|
    ensures ResendFrom(e, i, now).rtx == e.rtx
    decreases |e.snd.unacked| - i
  {
    if i < |e.snd.unacked| { ResendEstimate(Resend(e, i, now), i + 1, now); }
  }

  lemma RetransmitEstimate(e: End, now: int)
    ensures FastRetransmit(e, now).rtx == e.rtx
  {
  }

  lemma AdvanceEstimate(e: End, ack: int, now: int)
    ensures Estimate(Advance(e, ack, now).rtx) == Estimate(Sample(e, AckedCount(e.snd.unacked, ack), now))
  {
    hide UpdateRTT, AckedCount, FastRetransmit, Min, NeedsTimer;
    var n := AckedCount(e.snd.unacked, ack);
    RetransmitEstimate(e.(snd := Acknowledged(e.snd, n, ack),
                          rtx := Sample(e, n, now).(backoff := 0, dupAcks := 0, lastProgress := now)), now);
  }

  lemma DuplicateEstimate(e: End, now: int)
    ensures Estimate(CountDuplicate(e, now).rtx) == Estimate(e.rtx)
  {
    hide FastRetransmit;
    RetransmitEstimate(e.(rtx := e.rtx.(dupAcks := e.rtx.dupAcks + 1, recover := e.snd.nxt)), now);
  }

  lemma WindowEstimate(e: End, right: int)
    ensures Estimate(Signal(OpenWindow(e, right)).rtx) == Estimate(e.rtx)
  {
    hide Min, Pow2;
  }

  lemma AckEstimate(e: End, f: Frame, now: int)
    ensures Estimate(ProcessAck(e, f, now).rtx) ==
            if e.snd.una < f.ack <= e.snd.nxt then Estimate(Sample(e, AckedCount(e.snd.unacked, f.ack), now))
            else Estimate(e.rtx)
  {
    hide Sample, AckedCount, Advance, CountDuplicate, Signal, OpenWindow;
    AdvanceEstimate(e, f.ack, now);
    DuplicateEstimate(e, now);
    WindowEstimate(Advance(e, f.ack, now), Edge(f));
    WindowEstimate(CountDuplicate(e, now), Edge(f));
    WindowEstimate(e, Edge(f));
  }

  lemma FrameEstimate(e: End, f: Frame, now: int)
    ensures Estimate(HandleFrame(e, f, now).rtx) ==
            if !e.dead && f.kind != Rst then Estimate(ProcessAck(e.(lastHeard := now), f, now).rtx)
            else Estimate(e.rtx)
  {
    hide ProcessAck, ProcessSegment;
    SegmentEstimate(ProcessAck(e.(lastHeard := now), f, now), f);
  }

  lemma TimerEstimate(e: End, now: int)
    ensures Estimate(OnTimer(e, now).rtx) == Estimate(e.rtx)
  {
    hide ResendFrom, Min, Pow2;
    ResendEstimate(e.(rtx := e.rtx.(armed := false)), 0, now);
  }

  lemma StillEstimate(e: End)
    ensures Estimate(Flush(e).rtx) == Estimate(Abort(e, true).rtx) == Estimate(MaybeFinish(e).rtx) == Estimate(e.rtx)
    ensures Estimate(QueueAck(e, false, false).rtx) == Estimate(e.rtx)
  {
  }

  lemma QueueEstimate(e: End, kind: Kind, data: Bytes, now: int)
    ensures Estimate(QueueSegment(e, kind, data, now).rtx) == Estimate(e.rtx)
  {
    hide Min, Pow2, FillAck;
  }

  lemma ReadEstimate(e: End, data: Bytes, res: ReadResult, now: int)
    ensures Estimate(ReadDone(e, data, res, now).rtx) == Estimate(e.rtx)
  {
    hide QueueSegment, Flush, Abort, MaybeFinish;
    var e0 := e.(snd := e.snd.(read := e.snd.read + data));
    QueueEstimate(e0, Data, data, now);
    var e1 := if |data| > 0 then QueueSegment(e0, Data, data, now) else e0;
    QueueEstimate(e1, Fin, [], now);
    StillEstimate(e1.(reader := AtRead));
    StillEstimate(e1.(reader := ReadEnded));
    StillEstimate(Abort(e1.(reader := ReadEnded), true));
    StillEstimate(QueueSegment(e1, Fin, [], now).(reader := ReadEnded));
    StillEstimate(MaybeFinish(QueueSegment(e1, Fin, [], now).(reader := ReadEnded)));
  }

  lemma WriteEstimate(e: End, n: nat, failed: bool)
    requires e.writer.Writing? && n <= |Flatten(e.writer.bufs)|
    ensures Estimate(WriteDone(e, n, failed).rtx) == Estimate(e.rtx)
  {
    hide Flatten, Flush, Abort, QueueAck, WorthUpdating;
    var e1 := e.(rcv := Wrote(e, n, false), writer := WriteEnded);
    StillEstimate(e1);
    StillEstimate(Abort(e1, true));
    var e2 := e.(rcv := Wrote(e, n, true), writer := AtWrite);
    StillEstimate(e2);
    StillEstimate(QueueAck(e2, false, false));
  }

  lemma CallbackEstimate(e: End, ok: bool)
    ensures Estimate(OnAckTimer(e).rtx) == Estimate(CheckOpened(e).rtx) == Estimate(Stop(e).rtx) == Estimate(e.rtx)
    ensures Estimate(Dialed(e, ok).rtx) == Estimate(e.rtx)
  {
    hide Flush, Abort, QueueAck;
    var e1 := e.(acks := e.acks.(timerSet := false));
    StillEstimate(e1);
    StillEstimate(QueueAck(e1, false, false));
    StillEstimate(e);
    StillEstimate(Abort(e, true));
    var d := e.(link := e.link.(dialing := false));
    StillEstimate(d);
    StillEstimate(Abort(d, true));
    StillEstimate(StartLoops(d.(link := d.link.(conn := true))));
  }

  lemma LoopEstimate(e: End)
    ensures Estimate(ReadCheck(e).rtx) == Estimate(ReadWake(e).rtx) == Estimate(e.rtx)
    ensures Estimate(WriteCheck(e).rtx) == Estimate(WriteWake(e).rtx) == Estimate(e.rtx)
    ensures Estimate(WriteClosed(e).rtx) == Estimate(e.rtx)
  {
    hide Min, Pow2, Flush, MaybeFinish;
    var c := e.(writer := WriteEnded, rcv := e.rcv.(finWritten := true));
    StillEstimate(c);
    StillEstimate(MaybeFinish(c));
  }

  /** An acknowledgement takes an RTT sample: it covers the first segment outstanding, and that was sent once. */
  predicate Samples(e: End, ev: Event) {
    && ev.Recv? && !e.dead && ev.f.kind != Rst && e.snd.una < ev.f.ack <= e.snd.nxt
    && |e.snd.unacked| > 0 && e.snd.unacked[0].End() <= ev.f.ack && !e.snd.unacked[0].retrans
  }

  /** The sample: the time since that segment was sent. */
  function SampleOf(e: End, ev: Event): int
    requires Samples(e, ev)
  {
    ev.now - e.snd.unacked[0].sentAt
  }

  lemma EstimateMoves(e: End, ev: Event)
    requires Enabled(e, ev)
    ensures Estimate(Step(e, ev).rtx)
            == if Samples(e, ev) then Estimate(UpdateRTT(e.rtx, SampleOf(e, ev))) else Estimate(e.rtx)
  {
    hide UpdateRTT, ProcessAck, HandleFrame, OnTimer, OnAckTimer;
    hide CheckOpened, Stop, Dialed, ReadCheck, ReadWake, ReadDone, WriteCheck, WriteWake, WriteDone, WriteClosed;
    match ev
    case Recv(f, now) =>
      FrameEstimate(e, f, now);
      AckEstimate(e.(lastHeard := now), f, now);
    case TimerFires(now) => TimerEstimate(e, now);
    case ReadReturns(data, res, now) => ReadEstimate(e, data, res, now);
    case WriteReturns(n, failed) => WriteEstimate(e, n, failed);
    case AckTimerFires => CallbackEstimate(e, true);
    case OpenTimeout => CallbackEstimate(e, true);
    case Stopped => CallbackEstimate(e, true);
    case DialReturns(ok) => CallbackEstimate(e, ok);
    case _ => LoopEstimate(e);
  }

  /**
   * Sections 2.2 and 2.3 of RFC 6298 in whole nanoseconds: what a sample does to the estimators, and the retransmission
   * timeout they give, within 200 ms and 10 s.
   */
  predicate Estimated(r: Rtx, r': Rtx, sample: int) {
    && (if r.srtt == 0 then r'.srtt == sample && r'.rttvar == sample / 2
        else
          var diff := if r.srtt >= sample then r.srtt - sample else sample - r.srtt;
          && 8 * r'.srtt <= 7 * r.srtt + sample < 8 * r'.srtt + 8
          && 4 * r'.rttvar <= 3 * r.rttvar + diff < 4 * r'.rttvar + 4)
    && (var wanted := r'.srtt + 4 * r'.rttvar;
        r'.rto == if wanted < 200_000_000 then 200_000_000
                  else if wanted > 10_000_000_000 then 10_000_000_000 else wanted)
  }

  /** What each frame does to the estimators, in numbers: only a sample moves them, and by that law. */
  lemma EstimatorLaw(e: End, ev: Event)
    requires Enabled(e, ev) && e.rtx.srtt >= 0 && e.rtx.rttvar >= 0
    ensures Samples(e, ev) && SampleOf(e, ev) >= 0 ==> Estimated(e.rtx, Step(e, ev).rtx, SampleOf(e, ev))
    ensures !Samples(e, ev) ==> Estimate(Step(e, ev).rtx) == Estimate(e.rtx)
  {
    hide Step, Enabled, Samples;
    EstimateMoves(e, ev);
  }

  /** The estimator moves only for a segment sent exactly once, by the time since it was sent. */
  lemma SampleIsUnambiguous(e: End, ev: Event, plog: seq<Item>)
    requires EndInv(e, plog) && OnceInv(e) && Enabled(e, ev)
    ensures Estimate(Step(e, ev).rtx) != Estimate(e.rtx) ==> Samples(e, ev) && Copies(e.tx, e.snd.unacked[0].num) == 1
  {
    hide FramesInv, SndInv, RcvInv, LinkInv, Copies, UpdateRTT, Step;
    if |e.snd.unacked| > 0 { assert OnceAt(e.snd.unacked[0], e.tx + e.out) && e.tx + e.out == e.tx; }
    EstimateMoves(e, ev);
  }
}
