/** The promises of src/tcp_stream.go, over every run of two ends and a network that loses, duplicates and reorders. */
module StreamTheorems {
  import opened Bytes
  import opened StreamTypes
  import opened StreamEnd
  import opened StreamInv
  import opened StreamStep
  import opened StreamLive
  import opened StreamKarn
  import opened StreamSystem

  // ---- safety ---------------------------------------------------------------------------

  /** What r wrote, holds and queues against what s read. */
  ghost predicate Faithful(s: End, r: End) {
    && r.rcv.written + InFlight(r.writer) + Flatten(r.rcv.queue) <= s.snd.read
    && (r.rcv.fin ==> DataOf(r.rcv.dlv) == s.snd.read && s.snd.finQueued)
    && (r.rcv.fin && !r.dead ==> r.rcv.written + InFlight(r.writer) + Flatten(r.rcv.queue) == s.snd.read)
    && (r.rcv.finWritten ==> r.rcv.written == s.snd.read)
  }

  lemma FinMeansAll(s: End, r: End)
    requires EndInv(s, r.snd.log) && EndInv(r, s.snd.log) && r.rcv.fin
    ensures r.rcv.dlv == s.snd.log && s.snd.finQueued && s.snd.read == DataOf(s.snd.log)
  {
    hide FramesInv, LinkInv;
    assert r.rcv.dlv[|r.rcv.dlv| - 1] == s.snd.log[|r.rcv.dlv| - 1];
  }

  lemma EndsFaithful(s: End, r: End)
    requires EndInv(s, r.snd.log) && EndInv(r, s.snd.log)
    ensures Faithful(s, r)
  {
    hide FramesInv, LinkInv, Tiles, InWindow, Parked, LogOk;
    DataOfPrefix(r.rcv.dlv, s.snd.log);
    if r.rcv.fin { FinMeansAll(s, r); }
    if r.dead { assert r.rcv.written + InFlight(r.writer) + [] == r.rcv.written + InFlight(r.writer); }
  }

  /** Stream safety, in both directions, and one dial, once OPEN has arrived, to the right target. */
  lemma StreamSafety(run: seq<System>, acts: seq<Action>, ccfg: Config, scfg: Config, target: Bytes, now: int, i: nat)
    requires IsRun(run, acts, ccfg, scfg, target, now) && i < |run|
    ensures Faithful(run[i].c, run[i].s) && Faithful(run[i].s, run[i].c)
    ensures run[i].c.link.dials == []
    ensures run[i].s.link.dials == if |run[i].s.rcv.dlv| == 0 then []
                                   else [if scfg.target == [] then target else scfg.target]
  {
    RunInv(run, acts, ccfg, scfg, target, now, i);
    var y := run[i];
    EndsFaithful(y.c, y.s);
    EndsFaithful(y.s, y.c);
    RunOnward(run, acts, ccfg, scfg, target, now, 0, i);
    FirstItem(ccfg, target, now);
    DialsOf(y.c, y.s.snd.log);
    DialsOf(y.s, y.c.snd.log);
  }

  lemma FirstItem(ccfg: Config, target: Bytes, now: int)
    ensures Opened(ccfg, target, now).snd.log == [Item(Open, target)]
  {
  }

  lemma DialsOf(e: End, plog: seq<Item>)
    requires EndInv(e, plog)
    ensures e.cfg.client ==> e.link.dials == []
    ensures !e.cfg.client ==>
              e.link.dials == if |e.rcv.dlv| > 0 then [Target(e.cfg, e.rcv.dlv[0].data)] else []
    ensures e.rcv.dlv <= plog
  {
    hide FramesInv, SndInv, Parked;
  }

  lemma OnwardChains(a: End, b: End, c: End)
    requires Onward(a, b) && Onward(b, c)
    ensures Onward(a, c)
  {
    hide RightEdge;
  }

  lemma AdvancesOnward(e: End, e': End)
    requires Advances(e, e')
    ensures Onward(e, e') && e.tx <= e'.tx
  {
  }

  lemma OnwardStays(e: End)
    ensures Onward(e, e)
  {
  }

  lemma StepOf(run: seq<System>, acts: seq<Action>, ccfg: Config, scfg: Config, target: Bytes, now: int, i: nat)
    requires IsRun(run, acts, ccfg, scfg, target, now) && i + 1 < |run|
    ensures i < |acts| && CanAct(run[i], acts[i]) && run[i + 1] == Act(run[i], acts[i])
  {
    hide CanAct, Act, Initial;
  }

  /** Along a run, everything that only grows does. */
  lemma {:induction false} RunOnward(run: seq<System>, acts: seq<Action>, ccfg: Config, scfg: Config,
          target: Bytes, now: int, i: nat, j: nat)
    requires IsRun(run, acts, ccfg, scfg, target, now) && i <= j < |run|
    ensures Onward(run[i].c, run[j].c) && run[i].c.tx <= run[j].c.tx
    ensures Onward(run[i].s, run[j].s) && run[i].s.tx <= run[j].s.tx
    decreases j
  {
    hide IsRun, SysInv, CanAct, Act, Onward, Advances;
    if i < j {
      RunOnward(run, acts, ccfg, scfg, target, now, i, j - 1);
      RunInv(run, acts, ccfg, scfg, target, now, j - 1);
      StepOf(run, acts, ccfg, scfg, target, now, j - 1);
      ActKeepsInv(run[j - 1], acts[j - 1]);
      AdvancesOnward(run[j - 1].c, run[j].c);
      AdvancesOnward(run[j - 1].s, run[j].s);
      OnwardChains(run[i].c, run[j - 1].c, run[j].c);
      OnwardChains(run[i].s, run[j - 1].s, run[j].s);
    } else {
      OnwardStays(run[i].c);
      OnwardStays(run[i].s);
    }
  }

  // ---- graceful finish ------------------------------------------------------------------

  /** A finished end has delivered everything and received everything. */
  lemma FinishedIsComplete(e: End, peer: End)
    requires EndInv(e, peer.snd.log) && EndInv(peer, e.snd.log) && Flow(e, peer) && e.finished
    ensures peer.rcv.nxt == e.snd.nxt && e.rcv.nxt == peer.snd.nxt
    ensures peer.rcv.dlv == e.snd.log && peer.rcv.fin && DataOf(peer.rcv.dlv) == e.snd.read
    ensures peer.snd.finQueued && e.rcv.written == peer.snd.read
  {
    hide FramesInv, LinkInv;
    UnaNxt(e.cfg, e.dead, e.reader, e.snd);
    assert peer.rcv.dlv == e.snd.log;
    assert e.rcv.fin;
    FinMeansAll(peer, e);
  }

  lemma GracefulFinish(run: seq<System>, acts: seq<Action>, ccfg: Config, scfg: Config, target: Bytes, now: int, i: nat)
    requires IsRun(run, acts, ccfg, scfg, target, now) && i < |run|
    ensures var c, s := run[i].c, run[i].s;
            && (c.finished ==> s.rcv.nxt == c.snd.nxt && c.rcv.nxt == s.snd.nxt
                               && DataOf(s.rcv.dlv) == c.snd.read && c.rcv.written == s.snd.read)
            && (s.finished ==> c.rcv.nxt == s.snd.nxt && s.rcv.nxt == c.snd.nxt
                               && DataOf(c.rcv.dlv) == s.snd.read && s.rcv.written == c.snd.read)
            && (c.finished && s.finished ==> s.rcv.written == c.snd.read && c.rcv.written == s.snd.read)
  {
    RunInv(run, acts, ccfg, scfg, target, now, i);
    if run[i].c.finished { FinishedIsComplete(run[i].c, run[i].s); }
    if run[i].s.finished { FinishedIsComplete(run[i].s, run[i].c); }
  }

  /** The acknowledgement with which a lingering finished end answers any frame but a pure ACK. */
  lemma LingeringAnswer(e: End, f: Frame, now: int)
    requires e.finished && e.dead && e.out == [] && f.kind != Rst && (f.kind != Ack || f.probe)
    ensures var tx' := HandleFrame(e, f, now).tx;
            tx' == e.tx + [Mark(AckFrame(e, Ack, false, false, 0, []), e.cfg.client)]
  {
    var a := AckFrame(e, Ack, false, false, 0, []);
    assert [] + [a] == [a];
    assert Marked([a], e.cfg.client) == [Mark(a, e.cfg.client)];
  }

  /** That answer acknowledges all the live peer has sent; with its own writes done, the peer finishes. */
  lemma LingeringAckSuffices(e: End, peer: End, f: Frame, now: int, later: int)
    requires EndInv(e, peer.snd.log) && EndInv(peer, e.snd.log) && Flow(e, peer)
    requires e.finished && !peer.dead && f.kind != Rst && (f.kind != Ack || f.probe)
    ensures var e' := HandleFrame(e, f, now);
            var answer := e'.tx[|e'.tx| - 1];
            var peer' := HandleFrame(peer, answer, later);
            peer'.snd.una == peer'.snd.nxt == peer.snd.nxt
            && (peer.rcv.finWritten ==> peer'.finished)
  {
    hide FramesInv, SndInv, RcvInv, LinkInv, ProcessAck;
    assert e.dead && e.out == [];
    LingeringAnswer(e, f, now);
    var answer := Mark(AckFrame(e, Ack, false, false, 0, []), e.cfg.client);
    FinishedIsComplete(e, peer);
    var p1 := peer.(lastHeard := later);
    assert Boundary(p1.snd.log, answer.ack) by { LastBoundary(p1.cfg, p1.dead, p1.reader, p1.snd); }
    ProcessAckInv(p1, answer, later);
    UnaNxt(p1.cfg, p1.dead, p1.reader, p1.snd);
  }

  lemma LastBoundary(cfg: Config, dead: bool, reader: Reader, s: Snd)
    requires SndInv(cfg, dead, reader, s)
    ensures Boundary(s.log, s.nxt)
  {
    StartEnd(s.log);
    assert BoundaryAt(s.log, |s.log|, s.nxt);
  }

  // ---- acknowledgements -----------------------------------------------------------------

  /** What the two ends know of each other is true. */
  ghost predicate AcksTrue(s: End, r: End) {
    && s.snd.una <= r.rcv.nxt <= s.snd.nxt
    && (forall f :: f in r.tx && f.kind != Rst ==> f.ack <= r.rcv.nxt && Boundary(s.snd.log, f.ack))
    && (!s.dead ==> Tiles(s.snd.unacked, s.snd.log, s.snd.acked)
                    && s.snd.una == Start(s.snd.log, s.snd.acked) && s.snd.nxt == Start(s.snd.log, |s.snd.log|))
    && (forall k :: k in r.rcv.ooo ==> k > r.rcv.nxt)
  }

  lemma AcksInFlight(s: End, r: End)
    requires EndInv(s, r.snd.log) && EndInv(r, s.snd.log)
    ensures forall f :: f in r.tx && f.kind != Rst ==> f.ack <= r.rcv.nxt && Boundary(s.snd.log, f.ack)
  {
    hide LinkInv, SndInv, Parked;
    forall f | f in r.tx && f.kind != Rst ensures f.ack <= r.rcv.nxt && Boundary(s.snd.log, f.ack) {
      assert f in r.tx + r.out;
      assert FrameOk(f, r.cfg, r.snd.log, r.rcv);
      BoundaryGrows(r.rcv.dlv, s.snd.log, f.ack);
    }
  }

  lemma EndsAcksTrue(s: End, r: End)
    requires EndInv(s, r.snd.log) && EndInv(r, s.snd.log) && Flow(s, r)
    ensures AcksTrue(s, r)
  {
    hide LinkInv, FramesInv, InWindow, Tiles, DataOf;
    AcksInFlight(s, r);
    StartEnd(s.snd.log);
    StartEnd(r.rcv.dlv);
    StartPrefix(r.rcv.dlv, s.snd.log, |r.rcv.dlv|);
    StartMonotone(s.snd.log, s.snd.acked, |r.rcv.dlv|);
    StartMonotone(s.snd.log, |r.rcv.dlv|, |s.snd.log|);
    forall k | k in r.rcv.ooo ensures k > r.rcv.nxt { assert ParkedAt(r.rcv.ooo, s.snd.log, r.rcv.nxt, k); }
  }

  lemma AckTruth(run: seq<System>, acts: seq<Action>, ccfg: Config, scfg: Config, target: Bytes, now: int, i: nat)
    requires IsRun(run, acts, ccfg, scfg, target, now) && i < |run|
    ensures AcksTrue(run[i].c, run[i].s) && AcksTrue(run[i].s, run[i].c)
  {
    RunInv(run, acts, ccfg, scfg, target, now, i);
    EndsAcksTrue(run[i].c, run[i].s);
    EndsAcksTrue(run[i].s, run[i].c);
  }

  /** No segment is ever sent or resent from below the acknowledged edge. */
  lemma NothingResentBelowUna(run: seq<System>, acts: seq<Action>, ccfg: Config, scfg: Config, target: Bytes,
          now: int, i: nat)
    requires IsRun(run, acts, ccfg, scfg, target, now) && i < |acts|
    ensures NewAbove(run[i].c.tx, run[i + 1].c.tx, run[i + 1].c.snd.una)
    ensures NewAbove(run[i].s.tx, run[i + 1].s.tx, run[i + 1].s.snd.una)
  {
    RunInv(run, acts, ccfg, scfg, target, now, i);
    ActKeepsInv(run[i], acts[i]);
  }

  /** Acknowledgements and advertised right edges never retreat, in the order the frames were sent. */
  lemma NeverRetreats(run: seq<System>, acts: seq<Action>, ccfg: Config, scfg: Config, target: Bytes, now: int,
          i: nat, a: nat, b: nat)
    requires IsRun(run, acts, ccfg, scfg, target, now) && i < |run|
    ensures a < b < |run[i].c.tx| ==> Ordered(run[i].c.tx[a], run[i].c.tx[b])
    ensures a < b < |run[i].s.tx| ==> Ordered(run[i].s.tx[a], run[i].s.tx[b])
  {
    RunInv(run, acts, ccfg, scfg, target, now, i);
    FramesOrdered(run[i].c, run[i].s.snd.log, a, b);
    FramesOrdered(run[i].s, run[i].c.snd.log, a, b);
  }

  lemma FramesOrdered(e: End, plog: seq<Item>, a: nat, b: nat)
    requires EndInv(e, plog)
    ensures a < b < |e.tx| ==> Ordered(e.tx[a], e.tx[b])
  {
    hide SndInv, RcvInv, LinkInv;
    assert e.tx + e.out == e.tx;
  }

  // ---- no stall, and the Karn rule ------------------------------------------------------

  ghost predicate Lively(e: End) { LiveInv(e) && OnceInv(e) }

  lemma ActLively(e: End, peer: End, ev: Event)
    requires e.cfg.client != peer.cfg.client && Lively(e)
    requires EndInv(e, peer.snd.log) && EndInv(peer, e.snd.log)
    requires Enabled(e, ev) && (ev.Recv? ==> ev.f in e.tx + peer.tx)
    ensures Lively(Step(e, ev))
  {
    hide EndInv, Step, LiveInv, OnceInv;
    if ev.Recv? {
      WhoSent(e, peer, ev.f);
      SentIsGenuine(e, peer, ev.f);
    }
    StepLive(e, ev, peer.snd.log);
    StepOnce(e, ev, peer.snd.log);
  }

  lemma NewLively(cfg: Config, conn: bool, now: int)
    ensures Lively(New(cfg, conn, now))
  {
  }

  lemma OpenedLively(cfg: Config, target: Bytes, now: int)
    ensures Lively(Opened(cfg, target, now))
  {
    var n := New(cfg, true, now);
    var e1 := QueueSegment(n, Open, target, now);
    QueueSegmentLive(n, Open, target, now);
    assert LiveInv(StartLoops(e1));
    FlushLive(StartLoops(e1));
    assert OnceInv(StartLoops(e1)) by {
      OneMore([], e1.out[0], 0);
      assert e1.tx + e1.out == [] + [e1.out[0]];
    }
    FlushOnce(StartLoops(e1));
  }

  lemma RejectLively(e: End)
    requires Lively(e) && e.out == [] && e.snd.unacked == [] && e.rcv.dlv == []
    ensures Lively(Reject(e))
  {
    var e1 := e.(out := e.out + [RST]);
    assert LiveInv(e1);
    FlushLive(e1);
    FlushOnce(e1);
  }

  lemma RestampLively(e: End, now: int)
    requires Lively(e)
    ensures Lively(e.(lastHeard := now, rtx := e.rtx.(lastProgress := now)))
  {
  }

  lemma {:induction false} RunLively(run: seq<System>, acts: seq<Action>, ccfg: Config, scfg: Config,
          target: Bytes, now: int, i: nat)
    requires IsRun(run, acts, ccfg, scfg, target, now) && i < |run|
    ensures Lively(run[i].c) && Lively(run[i].s)
    ensures !run[i].up ==> run[i].s.snd.unacked == []
  {
    hide Lively, EndInv, Flow, HandleFrame;
    if i == 0 {
      OpenedLively(ccfg, target, now);
      NewLively(scfg, false, now);
    } else {
      RunInv(run, acts, ccfg, scfg, target, now, i - 1);
      RunLively(run, acts, ccfg, scfg, target, now, i - 1);
      ActKeepsLively(run[i - 1], acts[i - 1]);
    }
  }

  lemma ActKeepsLively(y: System, a: Action)
    requires SysInv(y) && CanAct(y, a) && Lively(y.c) && Lively(y.s) && (!y.up ==> y.s.snd.unacked == [])
    ensures Lively(Act(y, a).c) && Lively(Act(y, a).s) && (!Act(y, a).up ==> Act(y, a).s.snd.unacked == [])
  {
    hide Lively, EndInv, Flow, HandleFrame, OnTimer, OnAckTimer, CheckOpened, Stop, Dialed;
    hide ReadCheck, ReadWake, ReadDone, WriteCheck, WriteWake, WriteDone, WriteClosed;
    match a
    case Client(ev) => ActLively(y.c, y.s, ev);
    case Server(ev) =>
      SwapSent(y, ev);
      ActLively(y.s, y.c, ev);
    case FirstFrame(f, now) =>
      Unlocked(y.s, y.c.snd.log);
      RejectLively(y.s);
      var s1 := y.s.(lastHeard := now, rtx := y.s.rtx.(lastProgress := now));
      if f.kind != Rst && f.kind != Ack && !y.refuse {
        Restamped(y.s, s1, y.c.snd.log);
        RestampLively(y.s, now);
        SwapFirst(y, f);
        ActLively(s1, y.c, Recv(f, now));
        assert Step(s1, Recv(f, now)) == HandleFrame(s1, f, now);
      }
    case Refuse =>
  }

  /** Whenever the mutex of a live stream is free, whatever is left to do has a timer or a wake-up. */
  lemma NoStall(run: seq<System>, acts: seq<Action>, ccfg: Config, scfg: Config, target: Bytes, now: int, i: nat)
    requires IsRun(run, acts, ccfg, scfg, target, now) && i < |run|
    ensures LiveInv(run[i].c) && LiveInv(run[i].s)
  {
    RunLively(run, acts, ccfg, scfg, target, now, i);
  }

  /**
   * Along every run the estimators move only on the acknowledgement of a segment that was sent exactly once, and by
   * the law of the RFC for the time since then.
   */
  lemma KarnRule(run: seq<System>, acts: seq<Action>, ccfg: Config, scfg: Config, target: Bytes, now: int, i: nat,
          ev: Event)
    requires IsRun(run, acts, ccfg, scfg, target, now) && i < |run|
    ensures forall e :: e in {run[i].c, run[i].s} && Enabled(e, ev) && Estimate(Step(e, ev).rtx) != Estimate(e.rtx) ==>
              && Samples(e, ev) && Copies(e.tx, e.snd.unacked[0].num) == 1
              && (e.rtx.srtt >= 0 && e.rtx.rttvar >= 0 && SampleOf(e, ev) >= 0 ==>
                    Estimated(e.rtx, Step(e, ev).rtx, SampleOf(e, ev)))
  {
    hide Step, Enabled, Copies, IsRun, EndInv, OnceInv, LiveInv, Estimated;
    RunInv(run, acts, ccfg, scfg, target, now, i);
    RunLively(run, acts, ccfg, scfg, target, now, i);
    forall e | e in {run[i].c, run[i].s} && Enabled(e, ev) && Estimate(Step(e, ev).rtx) != Estimate(e.rtx)
      ensures && Samples(e, ev) && Copies(e.tx, e.snd.unacked[0].num) == 1
              && (e.rtx.srtt >= 0 && e.rtx.rttvar >= 0 && SampleOf(e, ev) >= 0 ==>
                    Estimated(e.rtx, Step(e, ev).rtx, SampleOf(e, ev)))
    {
      SampleIsUnambiguous(e, ev, if e == run[i].c then run[i].s.snd.log else run[i].c.snd.log);
      if e.rtx.srtt >= 0 && e.rtx.rttvar >= 0 { EstimatorLaw(e, ev); }
    }
  }
}
