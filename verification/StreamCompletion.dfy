/**
 * Two live ends that have queued their FINs can always still finish, even if everything sent so far is lost: each
 * timer fires at most once, what that sends and what answers it arrives, and the two writers write out what is left.
 */
module StreamCompletion {
  import opened Bytes
  import opened StreamTypes
  import opened StreamEnd
  import opened StreamInv
  import opened StreamStep
  import opened StreamLive
  import opened StreamSystem
  import opened StreamTheorems
  import opened StreamFlow
  import opened StreamRecovery

  // ---- what is left to do ---------------------------------------------------------------

  /**
   * A live end has something left to do, its two goroutines start together, and writeLoop returns from it only
   * after the FIN.
   */
  ghost predicate Orderly(e: End) {
    && (!e.dead && e.snd.finQueued && e.snd.una == e.snd.nxt ==> !e.rcv.finWritten)
    && (e.writer == WriteIdle ==> e.reader == ReadIdle)
    && (!e.dead && e.writer == WriteEnded ==> e.rcv.finWritten)
  }

  lemma RecvOrderly(e: End, f: Frame, now: int, plog: seq<Item>)
    requires EndInv(e, plog) && Genuine(e, f, plog) && Orderly(e)
    ensures Orderly(HandleFrame(e, f, now))
  {
    if e.dead || f.kind == Rst {
      DeadOrderly(e, f, now);
    } else {
      hide EndInv, HandleFrame, Genuine;
      AfterFrame(e, f, now, plog);
    }
  }

  lemma DeadOrderly(e: End, f: Frame, now: int)
    requires (e.dead || f.kind == Rst) && Orderly(e)
    ensures Orderly(HandleFrame(e, f, now))
  {
    hide FillAck, Marked;
  }

  lemma TimerOrderly(e: End, now: int)
    requires Orderly(e)
    ensures Orderly(OnTimer(e, now))
  {
    hide Marked, Min, Pow2, NeedsTimer, ResendFrom, FillAck;
    var e1 := e.(rtx := e.rtx.(armed := false));
    ResendOrderly(e1, 0, now);
  }

  lemma {:induction false} ResendOrderly(e: End, i: nat, now: int)
    requires i <= |e.snd.unacked|
    ensures var e' := ResendFrom(e, i, now);
            && e'.dead == e.dead && e'.rcv == e.rcv && e'.reader == e.reader && e'.writer == e.writer
            && e'.snd.una == e.snd.una && e'.snd.nxt == e.snd.nxt && e'.snd.finQueued == e.snd.finQueued
    decreases |e.snd.unacked| - i
  {
    if i < |e.snd.unacked| { ResendOrderly(Resend(e, i, now), i + 1, now); }
  }

  lemma ReadOrderly(e: End, data: Bytes, res: ReadResult, now: int, plog: seq<Item>)
    requires EndInv(e, plog) && e.reader.Reading? && Orderly(e)
    ensures Orderly(ReadDone(e, data, res, now))
  {
    hide Marked, Min, Pow2, NeedsTimer, FillAck, FramesInv, RcvInv, LinkInv;
  }

  lemma OtherOrderly(e: End, ev: Event)
    requires Enabled(e, ev) && !ev.Recv? && !ev.TimerFires? && !ev.ReadReturns? && Orderly(e)
    ensures Orderly(Step(e, ev))
  {
    hide Marked, Min, Pow2, NeedsTimer, FillAck, Flatten, CanSend, WorthUpdating;
  }

  lemma StepOrderly(e: End, ev: Event, plog: seq<Item>)
    requires EndInv(e, plog) && Enabled(e, ev) && (ev.Recv? ==> Genuine(e, ev.f, plog)) && Orderly(e)
    ensures Orderly(Step(e, ev))
  {
    hide EndInv, Orderly, HandleFrame, OnTimer, ReadDone, Genuine;
    match ev
    case Recv(f, now) => RecvOrderly(e, f, now, plog);
    case TimerFires(now) => TimerOrderly(e, now);
    case ReadReturns(data, res, now) => ReadOrderly(e, data, res, now, plog);
    case _ => OtherOrderly(e, ev);
  }

  lemma ActOrderly(e: End, peer: End, ev: Event)
    requires e.cfg.client != peer.cfg.client && EndInv(e, peer.snd.log) && EndInv(peer, e.snd.log)
    requires Enabled(e, ev) && (ev.Recv? ==> ev.f in e.tx + peer.tx) && Orderly(e)
    ensures Orderly(Step(e, ev))
  {
    hide EndInv, Step, Orderly;
    if ev.Recv? {
      WhoSent(e, peer, ev.f);
      SentIsGenuine(e, peer, ev.f);
    }
    StepOrderly(e, ev, peer.snd.log);
  }

  lemma ActKeepsOrderly(y: System, a: Action)
    requires SysInv(y) && CanAct(y, a) && Orderly(y.c) && Orderly(y.s)
    ensures Orderly(Act(y, a).c) && Orderly(Act(y, a).s)
  {
    hide EndInv, Flow, HandleFrame, OnTimer, OnAckTimer, CheckOpened, Stop, Dialed, Orderly;
    hide ReadCheck, ReadWake, ReadDone, WriteCheck, WriteWake, WriteDone, WriteClosed;
    match a
    case Client(ev) => ActOrderly(y.c, y.s, ev);
    case Server(ev) =>
      SwapSent(y, ev);
      ActOrderly(y.s, y.c, ev);
    case FirstFrame(f, now) =>
      var s1 := y.s.(lastHeard := now, rtx := y.s.rtx.(lastProgress := now));
      SameOrderly(y.s, s1);
      SameOrderly(y.s, Reject(y.s));
      if f.kind != Rst && f.kind != Ack && !y.refuse {
        Restamped(y.s, s1, y.c.snd.log);
        SwapFirst(y, f);
        ActOrderly(s1, y.c, Recv(f, now));
        assert Step(s1, Recv(f, now)) == HandleFrame(s1, f, now);
      }
    case Refuse =>
  }

  lemma SameOrderly(e: End, e': End)
    requires Orderly(e) && e' == e.(lastHeard := e'.lastHeard, rtx := e'.rtx, out := e'.out, tx := e'.tx)
    ensures Orderly(e')
  {
  }

  lemma {:induction false} RunOrderly(run: seq<System>, acts: seq<Action>, ccfg: Config, scfg: Config, target: Bytes,
          now: int, i: nat)
    requires IsRun(run, acts, ccfg, scfg, target, now) && i < |run|
    ensures Orderly(run[i].c) && Orderly(run[i].s)
  {
    hide SysInv, CanAct, Act, Orderly;
    if i == 0 {
      InitialOrderly(ccfg, scfg, target, now);
    } else {
      RunInv(run, acts, ccfg, scfg, target, now, i - 1);
      RunOrderly(run, acts, ccfg, scfg, target, now, i - 1);
      ActKeepsOrderly(run[i - 1], acts[i - 1]);
    }
  }

  lemma InitialOrderly(ccfg: Config, scfg: Config, target: Bytes, now: int)
    ensures var y := Initial(ccfg, scfg, target, now); Orderly(y.c) && Orderly(y.s)
  {
    hide Marked, Min, Pow2, NeedsTimer, FillAck;
  }

  // ---- sent again -----------------------------------------------------------------------

  ghost predicate CarriesItem(f: Frame, log: seq<Item>, j: int) {
    f.Segment() && ItemAt(log, j, f.num, f.kind, f.payload)
  }

  /** Some frame sent after the first base ones carries item j. */
  ghost predicate SentAgain(log: seq<Item>, j: int, tx: seq<Frame>, base: nat) {
    exists k :: base <= k < |tx| && CarriesItem(tx[k], log, j)
  }

  /** The FIN is queued, the end is alive or has finished, and every item not acknowledged has been sent again. */
  ghost predicate Leaving(e: End, base: nat) {
    && e.snd.finQueued && (e.dead ==> e.finished) && base <= |e.tx|
    && (forall j :: e.snd.acked <= j < |e.snd.log| ==> SentAgain(e.snd.log, j, e.tx, base))
  }

  lemma StillLeaving(e: End, e': End, base: nat)
    requires Leaving(e, base) && e'.snd.log == e.snd.log && e'.snd.finQueued && e.snd.acked <= e'.snd.acked
    requires e.tx <= e'.tx && (e'.dead ==> e'.finished)
    ensures Leaving(e', base)
  {
    forall j | e'.snd.acked <= j < |e'.snd.log| ensures SentAgain(e'.snd.log, j, e'.tx, base) {
      assert SentAgain(e.snd.log, j, e.tx, base);
      var k :| base <= k < |e.tx| && CarriesItem(e.tx[k], e.snd.log, j);
      assert e'.tx[k] == e.tx[k];
    }
  }

  lemma NothingUnacked(e: End, plog: seq<Item>)
    requires EndInv(e, plog) && !e.dead && e.snd.finQueued && e.snd.unacked == []
    ensures Leaving(e, |e.tx|)
  {
    hide EndInv, SentAgain;
    CountsAgree(e, plog);
  }

  /** The timer sends again whatever is not acknowledged. */
  lemma FireLeaves(e: End, peer: End, now: int)
    requires Coupled(e, peer) && !e.dead && e.snd.finQueued && |e.snd.unacked| > 0 && !TimedOut(e, now)
    ensures Leaving(OnTimer(e, now), |e.tx|)
  {
    hide EndInv, OnTimer, RoomyEnds, Flow;
    var e1 := OnTimer(e, now);
    NothingOut(e, peer.snd.log);
    TimerFrames(e, now);
    RoundCarries(e, peer, now, now);
    UnackedAt(e1, peer.snd.log, 0);
    var fs := e1.tx[|e.tx|..];
    forall j | e1.snd.acked <= j < |e1.snd.log| ensures SentAgain(e1.snd.log, j, e1.tx, |e.tx|) {
      var i := j - e1.snd.acked;
      UnackedAt(e1, peer.snd.log, i);
      assert Carries(fs[i], e1.snd.unacked[i]);
      assert e1.tx[|e.tx| + i] == fs[i];
      assert CarriesItem(e1.tx[|e.tx| + i], e1.snd.log, j);
    }
  }

  // ---- runs that go on ------------------------------------------------------------------

  datatype Setup = Setup(ccfg: Config, scfg: Config, target: Bytes, start: int)

  /** The states of a run, the last one apart, and its actions. */
  datatype Trace = Trace(before: seq<System>, last: System, acts: seq<Action>) {
    function States(): seq<System> { before + [last] }
  }

  ghost predicate Is(u: Setup, t: Trace) {
    && IsRun(t.States(), t.acts, u.ccfg, u.scfg, u.target, u.start)
    && u.ccfg.window >= INIT_WINDOW && u.scfg.window >= INIT_WINDOW
  }

  /** Frames arrive, a timer that is set fires, and writeLoop gets on. */
  predicate Benign(e: End, ev: Event) {
    || ev.Recv? || (ev.TimerFires? && e.rtx.armed) || ev.WriteChecks? || ev.WriteWakes? || ev.WriteCloses?
    || (ev.WriteReturns? && !ev.failed)
  }

  function SentSince(e: End, e0: End): seq<Frame> { if |e0.tx| <= |e.tx| then e.tx[|e0.tx|..] else [] }

  /** No frame arrives that was sent before y0. */
  predicate Helps(a: Action, y: System, y0: System) {
    match a
    case Client(ev) => Benign(y.c, ev) && (ev.Recv? ==> ev.f in SentSince(y.s, y0.s))
    case Server(ev) => Benign(y.s, ev) && (ev.Recv? ==> ev.f in SentSince(y.c, y0.c))
    case _ => false
  }

  /** t goes on from t0 as if all that was sent before had been lost. */
  ghost predicate Continues(t0: Trace, t: Trace) {
    && |t.before| == |t.acts| && t0.States() <= t.States() && t0.acts <= t.acts
    && (forall i :: |t0.acts| <= i < |t.acts| ==> Helps(t.acts[i], t.States()[i], t0.last))
  }

  /** An end is on its way out since t0. */
  ghost predicate Ending(t0: Trace, t: Trace, side: bool) {
    Leaving(EndOf(t.last, side), |EndOf(t0.last, side).tx|)
  }

  ghost predicate Goes(u: Setup, t0: Trace, t: Trace) { Is(u, t0) && Is(u, t) && Continues(t0, t) && t.last.up }

  lemma Facts(u: Setup, t: Trace, side: bool)
    requires Is(u, t)
    ensures var e, p := EndOf(t.last, side), EndOf(t.last, !side);
            Coupled(e, p) && Coupled(p, e) && LiveInv(e) && Orderly(e)
  {
    hide IsRun, Coupled, LiveInv, Orderly;
    RunsAreCoupled(t.States(), t.acts, u.ccfg, u.scfg, u.target, u.start, |t.before|);
    RunOrderly(t.States(), t.acts, u.ccfg, u.scfg, u.target, u.start, |t.before|);
  }

  lemma Go(u: Setup, t0: Trace, t: Trace, side: bool, ev: Event) returns (t': Trace)
    requires Goes(u, t0, t) && Enabled(EndOf(t.last, side), ev) && Benign(EndOf(t.last, side), ev)
    requires ev.Recv? ==> ev.f in SentSince(EndOf(t.last, !side), EndOf(t0.last, !side))
    ensures Goes(u, t0, t') && EndOf(t'.last, side) == Step(EndOf(t.last, side), ev)
    ensures EndOf(t'.last, !side) == EndOf(t.last, !side)
  {
    hide IsRun, Enabled, Step;
    var y, a := t.last, By(side, ev);
    assert CanAct(y, a);
    Extend(t.States(), t.acts, u.ccfg, u.scfg, u.target, u.start, a);
    t' := Trace(t.States(), Act(y, a), t.acts + [a]);
    assert Helps(a, y, t0.last);
    forall i | |t0.acts| <= i < |t'.acts| ensures Helps(t'.acts[i], t'.States()[i], t0.last) {
      if i < |t.acts| { assert t'.acts[i] == t.acts[i] && t'.States()[i] == t.States()[i]; }
    }
  }

  lemma Fire(u: Setup, t0: Trace, t: Trace, side: bool, at: int) returns (t': Trace)
    requires Goes(u, t0, t) && EndOf(t.last, side) == EndOf(t0.last, side)
    requires var e := EndOf(t.last, side); !e.dead && e.snd.finQueued && !TimedOut(e, at)
    ensures Goes(u, t0, t') && Ending(t0, t', side) && EndOf(t'.last, !side) == EndOf(t.last, !side)
    ensures EndOf(t'.last, side).snd.log == EndOf(t.last, side).snd.log
  {
    hide EndInv, OnTimer, Goes, Leaving, TimedOut, LiveInv, Orderly, RoomyEnds, Flow;
    var e, p := EndOf(t.last, side), EndOf(t.last, !side);
    assert Is(u, t) by { GoesIs(u, t0, t); }
    Facts(u, t, side);
    if e.snd.unacked == [] {
      NothingUnacked(e, p.snd.log);
      t' := t;
    } else {
      FireLeaves(e, p, at);
      NothingOut(e, p.snd.log);
      TimerFrames(e, at);
      TimerStep(e, at);
      assert e.rtx.armed by { UnackedArms(e); }
      t' := Go(u, t0, t, side, TimerFires(at));
    }
  }

  lemma UnackedArms(e: End)
    requires LiveInv(e) && !e.dead && e.snd.unacked != []
    ensures e.rtx.armed
  {
  }

  lemma GoesIs(u: Setup, t0: Trace, t: Trace)
    requires Goes(u, t0, t)
    ensures Is(u, t)
  {
  }

  // ---- what arrives ---------------------------------------------------------------------

  lemma FrameAdvances(e: End, f: Frame, now: int, plog: seq<Item>, base: nat)
    requires EndInv(e, plog) && Genuine(e, f, plog) && f.kind != Rst && Leaving(e, base)
    ensures var e' := HandleFrame(e, f, now);
            && Leaving(e', base) && EndInv(e', plog) && e'.snd.log == e.snd.log && e.rcv.dlv <= e'.rcv.dlv <= plog
            && e'.snd.nxt == e.snd.nxt && (e.snd.una == e.snd.nxt ==> e'.snd.una == e'.snd.nxt)
  {
    hide EndInv, HandleFrame, Genuine, Leaving;
    var e' := HandleFrame(e, f, now);
    HandleFrameInv(e, f, now, plog);
    FrameLeaves(e, f, now, plog);
    DlvWithin(e', plog);
    Unas(e, plog);
    Unas(e', plog);
    assert Leaving(e', base) by { LeavingKept(e, e', base); }
  }

  lemma LeavingKept(e: End, e': End, base: nat)
    requires Leaving(e, base) && Advances(e, e') && e'.snd.log == e.snd.log && e'.snd.finQueued == e.snd.finQueued
    requires e'.dead && !e.dead ==> e'.finished
    ensures Leaving(e', base)
  {
    StillLeaving(e, e', base);
  }

  lemma Unas(e: End, plog: seq<Item>)
    requires EndInv(e, plog)
    ensures e.snd.una <= e.snd.nxt == Size(e.snd.log) && (e.finished ==> e.snd.una == e.snd.nxt)
    ensures e.snd.una == e.snd.nxt <==> e.snd.acked == |e.snd.log|
    ensures e.snd.acked <= |e.snd.log|
  {
    UnaNxt(e.cfg, e.dead, e.reader, e.snd);
  }

  /** A frame sent since t0 arrives. */
  lemma Arrive(u: Setup, t0: Trace, t: Trace, side: bool, f: Frame, at: int) returns (t': Trace)
    requires Goes(u, t0, t) && Ending(t0, t, side) && f.kind != Rst
    requires f in SentSince(EndOf(t.last, !side), EndOf(t0.last, !side))
    ensures Goes(u, t0, t') && Ending(t0, t', side) && EndOf(t'.last, !side) == EndOf(t.last, !side)
    ensures var e, e' := EndOf(t.last, side), EndOf(t'.last, side);
            && e' == HandleFrame(e, f, at) && e'.snd.log == e.snd.log && e'.snd.nxt == e.snd.nxt
            && e.rcv.dlv <= e'.rcv.dlv <= EndOf(t.last, !side).snd.log
            && (e.snd.una == e.snd.nxt ==> e'.snd.una == e'.snd.nxt)
  {
    hide EndInv, HandleFrame, Goes, Leaving, LiveInv, Orderly, RoomyEnds, Flow, Genuine;
    var e, p := EndOf(t.last, side), EndOf(t.last, !side);
    assert Is(u, t) by { GoesIs(u, t0, t); }
    Facts(u, t, side);
    assert f in p.tx;
    SentIsGenuine(e, p, f);
    SentFlag(p, e.snd.log, f);
    RecvStep(e, f, at);
    FrameAdvances(e, f, at, p.snd.log, |EndOf(t0.last, side).tx|);
    t' := Go(u, t0, t, side, Recv(f, at));
  }

  /** Some frame sent since t0 carries an item the sender has not had acknowledged. */
  lemma FrameFor(t0: Trace, t: Trace, side: bool, j: nat) returns (f: Frame)
    requires Ending(t0, t, side)
    requires var e := EndOf(t.last, side); e.snd.acked <= j < |e.snd.log|
    ensures f in SentSince(EndOf(t.last, side), EndOf(t0.last, side)) && f in EndOf(t.last, side).tx
    ensures CarriesItem(f, EndOf(t.last, side).snd.log, j)
  {
    var e, base := EndOf(t.last, side), |EndOf(t0.last, side).tx|;
    assert SentAgain(e.snd.log, j, e.tx, base);
    var k :| base <= k < |e.tx| && CarriesItem(e.tx[k], e.snd.log, j);
    f := e.tx[k];
    assert e.tx[base..][k - base] == f;
  }

  lemma IsReceptive(e: End, p: End, base: nat)
    requires Coupled(e, p) && Leaving(p, base)
    ensures Receptive(p, e.snd.log)
  {
    hide EndInv;
    if p.dead { FinishedHasAll(p, e.snd.log); }
  }

  /** Whatever one end has queued reaches the other. */
  lemma {:induction false} AllArrive(u: Setup, t0: Trace, t: Trace, side: bool, at: int) returns (t': Trace)
    requires Goes(u, t0, t) && Ending(t0, t, true) && Ending(t0, t, false)
    ensures Goes(u, t0, t') && Ending(t0, t', true) && Ending(t0, t', false)
    ensures EndOf(t'.last, side) == EndOf(t.last, side)
    ensures EndOf(t'.last, !side).rcv.dlv == EndOf(t.last, side).snd.log
    ensures EndOf(t'.last, !side).snd.log == EndOf(t.last, !side).snd.log
    decreases |EndOf(t.last, side).snd.log| - |EndOf(t.last, !side).rcv.dlv|
  {
    hide EndInv, HandleFrame, Goes, Leaving, LiveInv, Orderly, RoomyEnds, Genuine, CarriesItem;
    var e, p := EndOf(t.last, side), EndOf(t.last, !side);
    assert Is(u, t) by { GoesIs(u, t0, t); }
    Facts(u, t, side);
    DlvWithin(p, e.snd.log);
    if |p.rcv.dlv| < |e.snd.log| {
      var j := |p.rcv.dlv|;
      var f := FrameFor(t0, t, side, j);
      assert f.Segment() && ItemAt(e.snd.log, j, f.num, f.kind, f.payload) by { assert CarriesItem(f, e.snd.log, j); }
      IsReceptive(e, p, |EndOf(t0.last, !side).tx|);
      SentIsGenuine(p, e, f);
      TakesNext(e, p, f, at, j);
      t' := Arrive(u, t0, t, !side, f, at);
      t' := AllArrive(u, t0, t', side, at);
    } else {
      t' := t;
    }
  }

  /** Both ends have all the other has queued, and are on their way out. */
  ghost predicate Full(t0: Trace, t: Trace) {
    && Ending(t0, t, true) && Ending(t0, t, false)
    && t.last.c.rcv.dlv == t.last.s.snd.log && t.last.s.rcv.dlv == t.last.c.snd.log
  }

  predicate Acked(e: End) { e.snd.una == e.snd.nxt }

  /** A frame sent since t0 arrives where all is there already. */
  lemma ArriveFull(u: Setup, t0: Trace, t: Trace, side: bool, f: Frame, at: int) returns (t': Trace)
    requires Goes(u, t0, t) && Full(t0, t) && f.kind != Rst
    requires f in SentSince(EndOf(t.last, !side), EndOf(t0.last, !side))
    ensures Goes(u, t0, t') && Full(t0, t') && EndOf(t'.last, !side) == EndOf(t.last, !side)
    ensures EndOf(t'.last, side) == HandleFrame(EndOf(t.last, side), f, at)
    ensures Acked(EndOf(t.last, side)) ==> Acked(EndOf(t'.last, side))
  {
    hide HandleFrame, Goes, Leaving;
    t' := Arrive(u, t0, t, side, f, at);
  }

  /** One copy of what is not acknowledged draws the acknowledgement of everything. */
  lemma AllAcked(u: Setup, t0: Trace, t: Trace, side: bool, at: int) returns (t': Trace)
    requires Goes(u, t0, t) && Full(t0, t)
    ensures Goes(u, t0, t') && Full(t0, t') && Acked(EndOf(t'.last, side))
    ensures Acked(EndOf(t.last, !side)) ==> Acked(EndOf(t'.last, !side))
  {
    hide EndInv, HandleFrame, Goes, Leaving, LiveInv, Orderly, Flow, RoomyEnds;
    var e, p := EndOf(t.last, side), EndOf(t.last, !side);
    assert Is(u, t) by { GoesIs(u, t0, t); }
    Facts(u, t, side);
    Unas(e, p.snd.log);
    t' := t;
    if !Acked(e) { t' := OneAck(u, t0, t, side, at); }
  }

  lemma OneAck(u: Setup, t0: Trace, t: Trace, side: bool, at: int) returns (t': Trace)
    requires Goes(u, t0, t) && Full(t0, t)
    requires var e, p := EndOf(t.last, side), EndOf(t.last, !side);
             Coupled(e, p) && !Acked(e) && e.snd.acked < |e.snd.log| && (e.finished ==> Acked(e))
    ensures Goes(u, t0, t') && Full(t0, t') && Acked(EndOf(t'.last, side))
    ensures Acked(EndOf(t.last, !side)) ==> Acked(EndOf(t'.last, !side))
  {
    hide Coupled, HandleFrame, Goes, Leaving, CarriesItem, SentSince;
    var e, p, p0 := EndOf(t.last, side), EndOf(t.last, !side), EndOf(t0.last, !side);
    LeavingEnd(e, |EndOf(t0.last, side).tx|);
    LeavingEnd(p, |p0.tx|);
    var f := FrameFor(t0, t, side, e.snd.acked);
    assert f.Segment() by { assert CarriesItem(f, e.snd.log, e.snd.acked); }
    IsReceptive(e, p, |p0.tx|);
    RoundAcks(e, p, f, at);
    t' := ArriveFull(u, t0, t, !side, f, at);
    var p1 := EndOf(t'.last, !side);
    LastSince(p1, p0);
    t' := ArriveFull(u, t0, t', side, p1.tx[|p1.tx| - 1], at);
  }

  lemma LeavingEnd(e: End, base: nat)
    requires Leaving(e, base)
    ensures (e.dead ==> e.finished) && base <= |e.tx| && e.snd.finQueued
  {
  }

  lemma LastSince(e: End, e0: End)
    requires |e0.tx| < |e.tx|
    ensures e.tx[|e.tx| - 1] in SentSince(e, e0)
  {
    assert e.tx[|e0.tx|..][|e.tx| - 1 - |e0.tx|] == e.tx[|e.tx| - 1];
  }

  // ---- what is written out --------------------------------------------------------------

  /** The next thing writeLoop does, with all delivered. */
  function NextWrite(e: End): Event {
    match e.writer
    case WaitData => WriteWakes
    case Writing(bufs) => WriteReturns(|Flatten(bufs)|, false)
    case Closing => WriteCloses
    case _ => WriteChecks
  }

  function ToWrite(e: End): nat {
    match e.writer
    case WriteIdle => 7
    case WaitData => 6
    case Writing(_) => if |e.rcv.queue| > 0 then 5 else 3
    case AtWrite => if |e.rcv.queue| > 0 then 4 else 2
    case Closing => 1
    case WriteEnded => 0
  }

  lemma WriteMoves(e: End)
    requires !e.dead && e.snd.finQueued && e.snd.una == e.snd.nxt && e.rcv.fin && e.reader == ReadEnded
    requires LiveInv(e) && Orderly(e)
    ensures Enabled(e, NextWrite(e)) && Benign(e, NextWrite(e)) && !NextWrite(e).Recv?
    ensures var e' := Step(e, NextWrite(e));
            && (e'.dead ==> e'.finished) && ToWrite(e') < ToWrite(e)
            && e'.snd.log == e.snd.log && e'.snd.finQueued && e'.snd.una == e'.snd.nxt && e'.rcv.fin
  {
    hide TimerOk, AckOk, Flatten, FillAck, WorthUpdating;
  }

  /** writeLoop writes out what is left and the FIN, and the end has finished. */
  lemma {:induction false} WriteOut(u: Setup, t0: Trace, t: Trace, side: bool) returns (t': Trace)
    requires Goes(u, t0, t) && Ending(t0, t, side)
    requires var e := EndOf(t.last, side); e.snd.una == e.snd.nxt && e.rcv.fin
    ensures Goes(u, t0, t') && EndOf(t'.last, side).finished && EndOf(t'.last, !side) == EndOf(t.last, !side)
    decreases ToWrite(EndOf(t.last, side))
  {
    hide EndInv, Goes, Leaving, LiveInv, Orderly, RoomyEnds, Flow, Step, Enabled;
    var e, p := EndOf(t.last, side), EndOf(t.last, !side);
    var base := |EndOf(t0.last, side).tx|;
    LeavingEnd(e, base);
    if e.dead {
      t' := t;
    } else {
      assert Is(u, t) by { GoesIs(u, t0, t); }
      Facts(u, t, side);
      assert e.reader == ReadEnded by { FinEndsReader(e, p.snd.log); }
      WriteMoves(e);
      var ev := NextWrite(e);
      StepInv(e, ev, p.snd.log);
      LeavingKept(e, Step(e, ev), base);
      t' := Go(u, t0, t, side, ev);
      t' := WriteOut(u, t0, t', side);
    }
  }

  lemma FinEndsReader(e: End, plog: seq<Item>)
    requires EndInv(e, plog) && e.snd.finQueued
    ensures e.reader == ReadEnded
  {
  }

  lemma FullHasFin(e: End, p: End)
    requires EndInv(e, p.snd.log) && EndInv(p, e.snd.log) && e.rcv.dlv == p.snd.log && p.snd.finQueued
    ensures e.rcv.fin
  {
    hide FramesInv, LinkInv;
  }

  // ---- the way out ----------------------------------------------------------------------

  lemma BothFired(u: Setup, t0: Trace, at: int) returns (t: Trace)
    requires Is(u, t0) && t0.last.up
    requires forall side :: var e := EndOf(t0.last, side); !e.dead && e.snd.finQueued && !TimedOut(e, at)
    ensures Goes(u, t0, t) && Ending(t0, t, true) && Ending(t0, t, false)
  {
    hide IsRun, Leaving, TimedOut;
    NotYet(u, t0);
    t := Fire(u, t0, t0, true, at);
    t := Fire(u, t0, t, false, at);
  }

  lemma NotYet(u: Setup, t: Trace)
    requires Is(u, t)
    ensures Continues(t, t)
  {
  }

  lemma FinsThere(u: Setup, t0: Trace, t: Trace, side: bool)
    requires Goes(u, t0, t) && Ending(t0, t, !side)
    requires EndOf(t.last, side).rcv.dlv == EndOf(t.last, !side).snd.log
    ensures EndOf(t.last, side).rcv.fin
  {
    hide EndInv, Leaving, LiveInv, Orderly, RoomyEnds, Flow, IsRun;
    Facts(u, t, side);
    LeavingEnd(EndOf(t.last, !side), |EndOf(t0.last, !side).tx|);
    FullHasFin(EndOf(t.last, side), EndOf(t.last, !side));
  }

  lemma ServerIsUp(u: Setup, t: Trace)
    requires Is(u, t) && t.last.s.snd.finQueued
    ensures t.last.up
  {
    RunInv(t.States(), t.acts, u.ccfg, u.scfg, u.target, u.start, |t.before|);
    FinMeansQueued(t.last.s, t.last.c.snd.log);
  }

  lemma FinMeansQueued(e: End, plog: seq<Item>)
    requires EndInv(e, plog) && e.snd.finQueued
    ensures e.snd.log != []
  {
  }

  /**
   * From any reachable state of two live ends that have queued their FINs, with windows of at least INIT_WINDOW and
   * neither past its timeout, the run can go on to both having finished with every byte written out, and no frame
   * sent before is needed for it.
   */
  lemma FinishIsPossible(u: Setup, t0: Trace, at: int) returns (t: Trace)
    requires Is(u, t0)
    requires forall side :: var e := EndOf(t0.last, side); !e.dead && e.snd.finQueued && !TimedOut(e, at)
    ensures Is(u, t) && Continues(t0, t)
    ensures var c, s := t.last.c, t.last.s;
            c.finished && s.finished && s.rcv.written == c.snd.read && c.rcv.written == s.snd.read
  {
    hide IsRun, Leaving, TimedOut;
    assert EndOf(t0.last, false) == t0.last.s;
    ServerIsUp(u, t0);
    t := BothFired(u, t0, at);
    t := AllArrive(u, t0, t, true, at);
    t := AllArrive(u, t0, t, false, at);
    t := AllAcked(u, t0, t, true, at);
    t := AllAcked(u, t0, t, false, at);
    FinsThere(u, t0, t, true);
    FinsThere(u, t0, t, false);
    t := WriteOut(u, t0, t, true);
    t := WriteOut(u, t0, t, false);
    GracefulFinish(t.States(), t.acts, u.ccfg, u.scfg, u.target, u.start, |t.before|);
  }
}
