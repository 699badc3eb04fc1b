/** The least receive window with which no data frame is ever refused or out of window. */
module StreamWindow {
  import opened Bytes
  import opened StreamTypes
  import opened StreamEnd
  import opened StreamInv
  import opened StreamStep
  import opened StreamSystem
  import opened StreamFlow
  import opened StreamRecovery

  // ---- a client whose segments are as large as the initial window -----------------------

  /** Until OPEN has arrived the client has sent nothing else; from then on the server has room. */
  ghost predicate Patient(c: End, s: End) {
    if s.rcv.dlv == [] then |c.snd.log| == 1 && !c.reader.Reading? else RoomyEnds(c, s)
  }

  predicate LargeSegments(ccfg: Config, scfg: Config) {
    ccfg.client && !scfg.client && ccfg.mss >= INIT_WINDOW && scfg.window == INIT_WINDOW - 1
  }

  /** Before OPEN is acknowledged there is less room than a segment takes. */
  lemma CannotSend(c: End, s: End)
    requires LargeSegments(c.cfg, s.cfg) && EndInv(c, s.snd.log) && EndInv(s, c.snd.log) && Flow(c, s)
    requires s.rcv.dlv == [] && !c.dead
    ensures !CanSend(c)
  {
    hide FramesInv, LinkInv, InWindow, Parked;
    UnaNxt(c.cfg, c.dead, c.reader, c.snd);
    StartEnd(c.snd.log);
    StartMonotone(c.snd.log, 0, |c.snd.log|);
  }

  /** Only conn.Read returning queues segments, and only a frame arriving delivers any. */
  lemma OtherQuiet(e: End, ev: Event)
    requires Enabled(e, ev) && !ev.Recv? && !ev.ReadReturns?
    ensures Step(e, ev).snd.log == e.snd.log && Step(e, ev).rcv.dlv == e.rcv.dlv
    ensures Step(e, ev).reader.Reading? ==> e.reader.Reading? || (!e.dead && CanSend(e))
  {
    hide Marked, Min, Pow2, NeedsTimer, FillAck, Flatten, CanSend, WorthUpdating, OnTimer;
    if ev.TimerFires? { TimerQuiet(e, ev.now); }
  }

  lemma TimerQuiet(e: End, now: int)
    ensures var e' := OnTimer(e, now);
            e'.snd.log == e.snd.log && e'.rcv.dlv == e.rcv.dlv && e'.reader == e.reader
  {
    hide Marked, Min, Pow2, NeedsTimer, FillAck, ResendFrom;
    var e1 := e.(rtx := e.rtx.(armed := false));
    ResendQuiet(e1, 0, now);
  }

  lemma {:induction false} ResendQuiet(e: End, i: nat, now: int)
    requires i <= |e.snd.unacked|
    ensures var e' := ResendFrom(e, i, now);
            e'.snd.log == e.snd.log && e'.rcv == e.rcv && e'.reader == e.reader
    decreases |e.snd.unacked| - i
  {
    if i < |e.snd.unacked| { ResendQuiet(Resend(e, i, now), i + 1, now); }
  }

  lemma RstQuiet(e: End, f: Frame, now: int)
    requires e.dead || f.kind == Rst
    ensures var e' := HandleFrame(e, f, now);
            e'.snd.log == e.snd.log && e'.rcv.dlv == e.rcv.dlv && e'.reader == e.reader
  {
    hide FillAck, Marked;
  }

  lemma FrameQuiet(e: End, f: Frame, now: int, plog: seq<Item>)
    requires EndInv(e, plog) && Genuine(e, f, plog)
    ensures HandleFrame(e, f, now).snd.log == e.snd.log && HandleFrame(e, f, now).reader == e.reader
    ensures e.rcv.dlv == [] && HandleFrame(e, f, now).rcv.dlv != [] ==> !HandleFrame(e, f, now).dead
  {
    if e.dead || f.kind == Rst {
      RstQuiet(e, f, now);
    } else {
      hide EndInv, Genuine, HandleFrame;
      AfterFrame(e, f, now, plog);
      FrameLeaves(e, f, now, plog);
      WrittenFin(e, plog);
      FinIsDelivered(e, plog);
    }
  }

  lemma FinIsDelivered(e: End, plog: seq<Item>)
    requires EndInv(e, plog)
    ensures e.rcv.fin ==> e.rcv.dlv != []
  {
  }

  lemma ClientPatient(c: End, s: End, ev: Event)
    requires LargeSegments(c.cfg, s.cfg) && Patient(c, s) && EndInv(c, s.snd.log) && EndInv(s, c.snd.log)
    requires Flow(c, s) && Flow(s, c) && Enabled(c, ev) && (ev.Recv? ==> ev.f in c.tx + s.tx)
    ensures Patient(Step(c, ev), s)
  {
    hide EndInv, Step, RoomyEnds, Flow;
    if s.rcv.dlv != [] {
      ActRoomy(c, s, ev);
    } else if ev.Recv? {
      WhoSent(c, s, ev.f);
      SentIsGenuine(c, s, ev.f);
      RecvStep(c, ev.f, ev.now);
      FrameQuiet(c, ev.f, ev.now, s.snd.log);
    } else {
      if !c.dead { CannotSend(c, s); }
      OtherQuiet(c, ev);
    }
  }

  /** OPEN has arrived: what the client may send from then on fits. */
  lemma OpenFits(c: End, s: End, s': End)
    requires LargeSegments(c.cfg, s.cfg) && EndInv(s, c.snd.log) && EndInv(s', c.snd.log) && s'.cfg == s.cfg
    requires |c.snd.log| == 1 && LogOk(true, c.snd.log) && Flow(c, s)
    requires s.rcv.dlv == [] && s'.rcv.dlv != [] && !s'.dead
    ensures RoomyEnds(c, s')
  {
    hide FramesInv, LinkInv, SndInv, Parked;
    assert s'.rcv.dlv == c.snd.log;
    assert c.snd.log == [] + [c.snd.log[0]] && c.snd.log[0].kind == Open;
    Append([], c.snd.log[0]);
  }

  lemma ServerPatient(c: End, s: End, ev: Event)
    requires LargeSegments(c.cfg, s.cfg) && Patient(c, s) && EndInv(c, s.snd.log) && EndInv(s, c.snd.log)
    requires Flow(c, s) && Flow(s, c) && Enabled(s, ev) && (ev.Recv? ==> ev.f in s.tx + c.tx)
    ensures Patient(c, Step(s, ev))
  {
    hide EndInv, Step, RoomyEnds, Flow, LogOk;
    ActInv(s, c, ev);
    LogOkOf(c, s.snd.log);
    var s' := Step(s, ev);
    if s.rcv.dlv != [] {
      ActRoomy(s, c, ev);
    } else if s'.rcv.dlv != [] {
      assert !s'.dead by { Opens(c, s, ev); }
      OpenFits(c, s, s');
    }
  }

  lemma Opens(c: End, s: End, ev: Event)
    requires EndInv(c, s.snd.log) && EndInv(s, c.snd.log) && c.cfg.client != s.cfg.client
    requires Enabled(s, ev) && (ev.Recv? ==> ev.f in s.tx + c.tx)
    requires s.rcv.dlv == [] && Step(s, ev).rcv.dlv != []
    ensures !Step(s, ev).dead
  {
    hide EndInv, Step;
    if ev.Recv? {
      WhoSent(s, c, ev.f);
      SentIsGenuine(s, c, ev.f);
      RecvStep(s, ev.f, ev.now);
      FrameQuiet(s, ev.f, ev.now, c.snd.log);
    } else {
      NoneDelivered(s, ev);
    }
  }

  lemma NoneDelivered(e: End, ev: Event)
    requires Enabled(e, ev) && !ev.Recv?
    ensures Step(e, ev).rcv.dlv == e.rcv.dlv
  {
    hide ReadDone, Step;
    if ev.ReadReturns? {
      ReadDelivers(e, ev.data, ev.res, ev.at);
      assert Step(e, ev) == ReadDone(e, ev.data, ev.res, ev.at) by { ReadStep(e, ev); }
    } else {
      OtherQuiet(e, ev);
    }
  }

  lemma ReadDelivers(e: End, data: Bytes, res: ReadResult, at: int)
    ensures ReadDone(e, data, res, at).rcv.dlv == e.rcv.dlv
  {
    hide Marked, Min, Pow2, NeedsTimer, FillAck;
  }

  lemma ReadStep(e: End, ev: Event)
    requires Enabled(e, ev) && ev.ReadReturns?
    ensures Step(e, ev) == ReadDone(e, ev.data, ev.res, ev.at)
  {
    hide ReadDone;
  }

  lemma ActKeepsPatient(y: System, a: Action)
    requires SysInv(y) && CanAct(y, a) && LargeSegments(y.c.cfg, y.s.cfg) && Patient(y.c, y.s)
    ensures Patient(Act(y, a).c, Act(y, a).s)
  {
    hide EndInv, HandleFrame, Flow, Patient, OnTimer, OnAckTimer, CheckOpened, Stop, Dialed;
    hide ReadCheck, ReadWake, ReadDone, WriteCheck, WriteWake, WriteDone, WriteClosed;
    match a
    case Client(ev) => ClientPatient(y.c, y.s, ev);
    case Server(ev) =>
      SwapSent(y, ev);
      ServerPatient(y.c, y.s, ev);
    case FirstFrame(f, now) =>
      var s1 := y.s.(lastHeard := now, rtx := y.s.rtx.(lastProgress := now));
      SamePatient(y.c, y.s, s1);
      SamePatient(y.c, y.s, Reject(y.s));
      if f.kind != Rst && f.kind != Ack && !y.refuse {
        Restamped(y.s, s1, y.c.snd.log);
        SameFlow(y.c, y.s, s1);
        SwapFirst(y, f);
        ServerPatient(y.c, s1, Recv(f, now));
        assert Step(s1, Recv(f, now)) == HandleFrame(s1, f, now);
      }
    case Refuse =>
  }

  lemma SamePatient(c: End, s: End, s': End)
    requires Patient(c, s) && s'.rcv == s.rcv && s'.cfg == s.cfg
    ensures Patient(c, s')
  {
  }

  lemma {:induction false} RunPatient(run: seq<System>, acts: seq<Action>, ccfg: Config, scfg: Config, target: Bytes,
          now: int, i: nat)
    requires IsRun(run, acts, ccfg, scfg, target, now) && i < |run| && LargeSegments(ccfg, scfg)
    ensures Patient(run[i].c, run[i].s)
  {
    hide SysInv, CanAct, Act, Patient, Opened;
    if i == 0 {
      InitialPatient(ccfg, scfg, target, now);
    } else {
      RunInv(run, acts, ccfg, scfg, target, now, i - 1);
      RunConfigs(run, acts, ccfg, scfg, target, now, i - 1);
      RunPatient(run, acts, ccfg, scfg, target, now, i - 1);
      ActKeepsPatient(run[i - 1], acts[i - 1]);
    }
  }

  lemma InitialPatient(ccfg: Config, scfg: Config, target: Bytes, now: int)
    ensures Patient(Opened(ccfg, target, now), New(scfg, false, now))
  {
    hide Marked, Min, Pow2, NeedsTimer, FillAck;
  }

  lemma PatientTakesAll(c: End, s: End)
    requires EndInv(c, s.snd.log) && EndInv(s, c.snd.log) && Patient(c, s) && c.cfg.client
    ensures TakesAll(c, s)
  {
    if s.rcv.dlv != [] {
      EndsTakeAll(c, s);
    } else {
      hide LinkInv, RcvInv, Tiles, InWindow;
      forall f | f in c.tx ensures f.kind != Data {
        assert f in c.tx + c.out;
        assert FrameOk(f, c.cfg, c.snd.log, c.rcv);
      }
    }
  }

  // ---- the overrun ----------------------------------------------------------------------

  /** Nothing yet acknowledges anything. */
  lemma OpenHeard(e: End, f: Frame)
    requires e == New(e.cfg, false, 0) && f.ack == 0 && !f.outOfOrder
    ensures var e1 := ProcessAck(e.(lastHeard := 0), f, 0);
            && e1.rcv == e.rcv && e1.cfg == e.cfg && e1.out == [] && e1.tx == []
            && !e1.dead && !e1.snd.finQueued
  {
    hide Armed, NeedsTimer;
  }

  lemma OpenDelivered(e: End, f: Frame)
    requires e.rcv == New(e.cfg, false, 0).rcv && e.out == [] && f.kind == Open && f.num == 0
    ensures var e2 := ProcessSegment(e, f);
            && e2.rcv.nxt == 1 && e2.rcv.queued == 0 && !e2.rcv.finWritten && e2.cfg == e.cfg && e2.tx == e.tx
            && e2.dead == e.dead && e2.snd == e.snd && |e2.out| == 1
            && (var a := e2.out[0]; a.kind == Ack && a.ack == 1 && a.wnd == Max(e.cfg.window, 0) && !a.fromClient)
  {
    hide FillAck;
    var d := Deliver(e, Received(f));
    assert Drain(d) == d;
  }

  /** The server's answer to OPEN. */
  lemma OpenAnswered(e: End, f: Frame)
    requires e == New(e.cfg, false, 0) && f.kind == Open && f.num == 0 && f.ack == 0 && !f.outOfOrder
    ensures var s := HandleFrame(e, f, 0);
            && s.rcv.nxt == 1 && s.rcv.queued == 0 && s.cfg == e.cfg && |s.tx| == 1
            && (var a := s.tx[0];
                a.kind == Ack && a.ack == 1 && a.wnd == Max(e.cfg.window, 0) && a.fromClient == e.cfg.client)
  {
    hide ProcessAck, ProcessSegment, Max, FillAck;
    OpenHeard(e, f);
    var e1 := ProcessAck(e.(lastHeard := 0), f, 0);
    OpenDelivered(e1, f);
    var e2 := ProcessSegment(e1, f);
    assert HandleLive(e.(lastHeard := 0), f, 0) == e2;
  }

  lemma OpenSent(ccfg: Config)
    requires ccfg.client
    ensures var c := Opened(ccfg, [], 0);
            && |c.tx| > 0 && c.tx[0].kind == Open && c.tx[0].num == 0 && c.tx[0].ack == 0
            && !c.tx[0].outOfOrder && c.tx[0].fromClient && c.rcv == New(ccfg, true, 0).rcv && c.cfg == ccfg
            && !c.dead && !c.snd.finQueued && c.reader == AtRead && c.snd.right == INIT_WINDOW && c.snd.nxt == 1
  {
    hide Pow2, Armed;
    var n := New(ccfg, true, 0);
    var e1 := n.(snd := Enqueue(n.snd, Segment(0, Open, [], 0, false)));
    var f := AckFrame(e1, Open, false, false, 0, []);
    assert QueueSegment(n, Open, [], 0).out == [] + [f];
    assert Marked([] + [f], true)[0] == Mark(f, true);
  }

  /** The client takes the acknowledgement of its OPEN, and may read. */
  lemma OpenAcked(c: End, s: End, a: Frame)
    requires EndInv(c, s.snd.log) && EndInv(s, c.snd.log) && a in s.tx && a.kind == Ack && a.ack == 1
    requires !c.dead && !c.snd.finQueued && c.snd.right == INIT_WINDOW && c.snd.nxt == 1 && Edge(a) <= INIT_WINDOW
    ensures var c' := HandleFrame(c, a, 0);
            !c'.dead && c'.reader == c.reader && c'.snd.nxt == 1 && c'.snd.right == INIT_WINDOW && c'.out == []
            && c'.snd.unacked == [] && c'.cfg == c.cfg
  {
    hide EndInv, HandleFrame, ProcessAck, Genuine;
    SentIsGenuine(c, s, a);
    AfterFrame(c, a, 0, s.snd.log);
    HandleFrameInv(c, a, 0, s.snd.log);
    NothingOut(HandleFrame(c, a, 0), s.snd.log);
    AckedOpen(c, a, s.snd.log);
  }

  lemma AckedOpen(c: End, a: Frame, plog: seq<Item>)
    requires EndInv(c, plog) && Genuine(c, a, plog) && a.kind == Ack && a.ack == 1
    requires !c.dead && c.snd.right == INIT_WINDOW && c.snd.nxt == 1 && Edge(a) <= INIT_WINDOW
    ensures var s := ProcessAck(c.(lastHeard := 0), a, 0).snd;
            s.unacked == [] && s.nxt == 1 && s.right == INIT_WINDOW && s.finQueued == c.snd.finQueued
  {
    hide FramesInv, SndInv, RcvInv, LinkInv, ProcessAck;
    var e1 := c.(lastHeard := 0);
    ProcessAckInv(e1, a, 0);
    UnaNxt(e1.cfg, e1.dead, e1.reader, e1.snd);
    UnaNxt(e1.cfg, e1.dead, e1.reader, ProcessAck(e1, a, 0).snd);
  }

  /** OPEN goes, its acknowledgement returns. */
  lemma Acquainted(ccfg: Config, scfg: Config)
    returns (run: seq<System>, acts: seq<Action>)
    requires ccfg.Valid() && scfg.Valid() && ccfg.client && !scfg.client && scfg.window < INIT_WINDOW
    ensures IsRun(run, acts, ccfg, scfg, [], 0) && |run| > 0
    ensures var c, s := run[|run| - 1].c, run[|run| - 1].s;
            && !c.dead && c.reader == AtRead && c.out == [] && c.snd.nxt == 1 && c.snd.right == INIT_WINDOW
            && c.snd.unacked == [] && c.cfg == ccfg && s.cfg == scfg && s.rcv.nxt == 1 && s.rcv.queued == 0
  {
    hide IsRun, HandleFrame, Opened;
    StartRun(ccfg, scfg);
    OpenSent(ccfg);
    var y := Initial(ccfg, scfg, [], 0);
    var f := y.c.tx[0];
    var first := FirstFrame(f, 0);
    assert f in y.Sent();
    Extend([y], [], ccfg, scfg, [], 0, first);
    var y1 := Act(y, first);
    assert New(scfg, false, 0).(lastHeard := 0, rtx := y.s.rtx.(lastProgress := 0)) == New(scfg, false, 0);
    OpenAnswered(New(scfg, false, 0), f);
    var a := y1.s.tx[0];
    run, acts := [y] + [y1], [] + [first];
    assert SysInv(y1) by { RunInv(run, acts, ccfg, scfg, [], 0, 1); }
    assert a in y1.Sent();
    Extend(run, acts, ccfg, scfg, [], 0, Client(Recv(a, 0)));
    OpenAcked(y1.c, y1.s, a);
    run, acts := run + [Act(y1, Client(Recv(a, 0)))], acts + [Client(Recv(a, 0))];
  }

  /** A client with large segments overruns a smaller window once OPEN is acknowledged. */
  lemma LargeSegmentsOverrun(ccfg: Config, scfg: Config)
    returns (run: seq<System>, acts: seq<Action>)
    requires ccfg.Valid() && scfg.Valid() && ccfg.client && !scfg.client
    requires ccfg.mss >= INIT_WINDOW && scfg.window < INIT_WINDOW - 1
    ensures IsRun(run, acts, ccfg, scfg, [], 0) && |run| > 0 && !TakesAll(run[|run| - 1].c, run[|run| - 1].s)
  {
    hide IsRun, ReadCheck, ReadDone, SentPiece;
    run, acts := Acquainted(ccfg, scfg);
    var y := run[|run| - 1];
    var piece := seq(INIT_WINDOW - 1, _ => 0);
    PieceSent(y.c, piece, 0);
    Extend(run, acts, ccfg, scfg, [], 0, Client(ReadChecks));
    var y1 := Act(y, Client(ReadChecks));
    run, acts := run + [y1], acts + [Client(ReadChecks)];
    var read := Client(ReadReturns(piece, ReadOk, 0));
    assert CanAct(y1, read);
    Extend(run, acts, ccfg, scfg, [], 0, read);
    run, acts := run + [Act(y1, read)], acts + [read];
    TooMuch(Act(y1, read).c, y.s, INIT_WINDOW - 1);
  }

  lemma TooMuch(c: End, s: End, size: nat)
    requires SentPiece(c, 1, size) && s.rcv.nxt == 1 && s.rcv.queued == 0 && s.cfg.window < size
    ensures !TakesAll(c, s)
  {
    var f :| f in c.tx && f.kind == Data && f.num == 1 && |f.payload| == size;
  }

  // ---- exactly --------------------------------------------------------------------------

  /**
   * The window a server needs for the segments of its client. Segments as large as the initial window wait for OPEN,
   * which takes a sequence number of that window, to be acknowledged.
   */
  function Needed(ccfg: Config): nat { if ccfg.mss < INIT_WINDOW then INIT_WINDOW else INIT_WINDOW - 1 }

  lemma LargeEnough(run: seq<System>, acts: seq<Action>, ccfg: Config, scfg: Config, target: Bytes, now: int, i: nat)
    requires IsRun(run, acts, ccfg, scfg, target, now) && i < |run|
    ensures scfg.window >= Needed(ccfg) ==> TakesAll(run[i].c, run[i].s)
    ensures ccfg.window >= INIT_WINDOW ==> TakesAll(run[i].s, run[i].c)
  {
    hide EndInv, Flow, TakesAll, WindowShape, Patient;
    FlowControl(run, acts, ccfg, scfg, target, now, i, 0);
    if ccfg.mss >= INIT_WINDOW && scfg.window == INIT_WINDOW - 1 {
      RunInv(run, acts, ccfg, scfg, target, now, i);
      RunPatient(run, acts, ccfg, scfg, target, now, i);
      PatientTakesAll(run[i].c, run[i].s);
    }
  }

  /**
   * No data frame is ever refused or out of window, in any run, exactly when the server's window is at least
   * INIT_WINDOW, or a byte less for client segments of that size and more; and from server to client, exactly when
   * the client's is at least INIT_WINDOW.
   */
  lemma WindowIsExact(ccfg: Config, scfg: Config)
    requires ccfg.Valid() && scfg.Valid() && ccfg.client && !scfg.client
    ensures scfg.window >= Needed(ccfg) <==>
              forall run: seq<System>, acts, target, now, i ::
                IsRun(run, acts, ccfg, scfg, target, now) && 0 <= i < |run| ==> TakesAll(run[i].c, run[i].s)
    ensures ccfg.window >= INIT_WINDOW <==>
              forall run: seq<System>, acts, target, now, i ::
                IsRun(run, acts, ccfg, scfg, target, now) && 0 <= i < |run| ==> TakesAll(run[i].s, run[i].c)
  {
    hide IsRun, TakesAll;
    forall run: seq<System>, acts, target, now, i | IsRun(run, acts, ccfg, scfg, target, now) && 0 <= i < |run|
      ensures scfg.window >= Needed(ccfg) ==> TakesAll(run[i].c, run[i].s)
      ensures ccfg.window >= INIT_WINDOW ==> TakesAll(run[i].s, run[i].c)
    {
      LargeEnough(run, acts, ccfg, scfg, target, now, i);
    }
    if scfg.window < Needed(ccfg) {
      var run, acts := Overrunning(ccfg, scfg);
      var last := |run| - 1;
      assert !TakesAll(run[last].c, run[last].s);
    }
    if ccfg.window < INIT_WINDOW {
      var run, acts := SmallClientOverrun(ccfg, scfg);
      var last := |run| - 1;
      assert !TakesAll(run[last].s, run[last].c);
    }
  }

  lemma Overrunning(ccfg: Config, scfg: Config)
    returns (run: seq<System>, acts: seq<Action>)
    requires ccfg.Valid() && scfg.Valid() && ccfg.client && !scfg.client && scfg.window < Needed(ccfg)
    ensures IsRun(run, acts, ccfg, scfg, [], 0) && |run| > 0 && !TakesAll(run[|run| - 1].c, run[|run| - 1].s)
  {
    hide IsRun, TakesAll;
    if ccfg.mss < INIT_WINDOW {
      run, acts := SmallWindowOverrun(ccfg, scfg);
    } else {
      run, acts := LargeSegmentsOverrun(ccfg, scfg);
    }
  }
}
