/**
 * Two ends of one stream and the lines between them. Every frame ever sent may be delivered at any
 * later time, any number of times, in any order, or never: the lines lose, duplicate and reorder.
 */
module StreamSystem {
  import opened Bytes
  import opened StreamTypes
  import opened StreamEnd
  import opened StreamInv
  import opened StreamStep

  /** up: the server end exists. refuse: its endpoint was stopped first. */
  datatype System = System(c: End, s: End, up: bool, refuse: bool) {
    function Sent(): seq<Frame> { c.tx + s.tx }
  }

  datatype Action =
    | Client(ev: Event)
    | Server(ev: Event)
    // handlePacket at a forward endpoint that has no such stream yet
    | FirstFrame(f: Frame, at: int)
    | Refuse

  function Initial(ccfg: Config, scfg: Config, target: Bytes, now: int): System {
    System(Opened(ccfg, target, now), New(scfg, false, now), false, false)
  }

  predicate CanAct(y: System, a: Action) {
    match a
    case Client(ev) => Enabled(y.c, ev) && (ev.Recv? ==> ev.f in y.Sent())
    case Server(ev) => y.up && Enabled(y.s, ev) && (ev.Recv? ==> ev.f in y.Sent())
    case FirstFrame(f, _) => !y.up && f in y.Sent() && f.fromClient
    case Refuse => !y.up
  }

  /** The server answers a frame for which it will not open a stream. */
  function Reject(e: End): End { Flush(e.(out := e.out + [RST])) }

  function Act(y: System, a: Action): System
    requires CanAct(y, a)
  {
    match a
    case Client(ev) => y.(c := Step(y.c, ev))
    case Server(ev) => y.(s := Step(y.s, ev))
    case FirstFrame(f, now) =>
      if f.kind == Rst then y
      else if f.kind == Ack || y.refuse then y.(s := Reject(y.s))
      else y.(s := HandleFrame(y.s.(lastHeard := now, rtx := y.s.rtx.(lastProgress := now)), f, now), up := true)
    case Refuse => y.(refuse := true)
  }

  /** A run: a start, and each state the effect of one possible action on the one before. */
  ghost predicate IsRun(run: seq<System>, acts: seq<Action>, ccfg: Config, scfg: Config, target: Bytes, now: int) {
    && ccfg.Valid() && scfg.Valid() && ccfg.client && !scfg.client
    && |run| == |acts| + 1 && run[0] == Initial(ccfg, scfg, target, now)
    && (forall i :: 0 <= i < |acts| ==> CanAct(run[i], acts[i]) && run[i + 1] == Act(run[i], acts[i]))
  }

  /** What one direction of the stream guarantees: s sends, r receives. */
  ghost predicate Flow(s: End, r: End) {
    && s.snd.acked <= |r.rcv.dlv|
    && s.snd.right <= Max(INIT_WINDOW, RightEdge(r.cfg, r.rcv))
  }

  ghost predicate SysInv(y: System) {
    && y.c.cfg.client && !y.s.cfg.client
    && EndInv(y.c, y.s.snd.log) && EndInv(y.s, y.c.snd.log)
    && Flow(y.c, y.s) && Flow(y.s, y.c)
    && (!y.up ==> y.s.snd.log == [] && y.s.rcv.dlv == [] && !y.s.dead)
  }

  lemma LogGrowsOk(r: End, log: seq<Item>, log': seq<Item>)
    requires EndInv(r, log) && log <= log' && LogOk(!r.cfg.client, log')
    ensures EndInv(r, log')
  {
    hide FramesInv, SndInv, LinkInv;
    forall k ensures ParkedAt(r.rcv.ooo, log', r.rcv.nxt, k) {
      assert ParkedAt(r.rcv.ooo, log, r.rcv.nxt, k);
      if k in r.rcv.ooo { QueuedGrows(log, log', k, r.rcv.ooo[k].kind, r.rcv.ooo[k].data); }
    }
  }

  /** A frame the peer sent is genuine, whenever it arrives. */
  lemma SentIsGenuine(e: End, peer: End, f: Frame)
    requires EndInv(e, peer.snd.log) && EndInv(peer, e.snd.log) && f in peer.tx
    ensures Genuine(e, f, peer.snd.log)
    ensures f.kind != Rst ==> Boundary(peer.rcv.dlv, f.ack) && Edge(f) <= RightEdge(peer.cfg, peer.rcv)
  {
    hide SndInv, LinkInv;
    assert f in peer.tx + peer.out;
    if f.kind != Rst { BoundaryGrows(peer.rcv.dlv, e.snd.log, f.ack); }
  }

  /** A frame from the other side, told by its direction flag. */
  lemma WhoSent(e: End, peer: End, f: Frame)
    requires EndInv(e, peer.snd.log) && EndInv(peer, e.snd.log) && e.cfg.client != peer.cfg.client
    requires f in e.tx + peer.tx && f.fromClient != e.cfg.client
    ensures f in peer.tx
  {
  }

  lemma BoundaryWithin(e: End, peer: End, k: nat, ack: int)
    requires EndInv(e, peer.snd.log) && EndInv(peer, e.snd.log)
    requires BoundaryAt(e.snd.log, k, ack) && Boundary(peer.rcv.dlv, ack)
    ensures k <= |peer.rcv.dlv|
  {
    var j :| BoundaryAt(peer.rcv.dlv, j, ack);
    StartPrefix(peer.rcv.dlv, e.snd.log, j);
    StartInjective(e.snd.log, j, k);
  }

  /** One end acts: both directions survive. */
  lemma ActInv(e: End, peer: End, ev: Event)
    requires e.cfg.client != peer.cfg.client
    requires EndInv(e, peer.snd.log) && EndInv(peer, e.snd.log) && Flow(e, peer) && Flow(peer, e)
    requires Enabled(e, ev) && (ev.Recv? ==> ev.f in e.tx + peer.tx)
    ensures var e' := Step(e, ev);
            Advances(e, e') && EndInv(e', peer.snd.log) && EndInv(peer, e'.snd.log)
            && Flow(e', peer) && Flow(peer, e')
  {
    hide EndInv, Step, FramesInv;
    if ev.Recv? {
      WhoSent(e, peer, ev.f);
      SentIsGenuine(e, peer, ev.f);
    }
    StepInv(e, ev, peer.snd.log);
    var e' := Step(e, ev);
    LogOkOf(e', peer.snd.log);
    LogGrowsOk(peer, e.snd.log, e'.snd.log);
    if ev.Recv? && !SameAcked(e, e') && e'.snd.acked != e.snd.acked {
      BoundaryWithin(e, peer, e'.snd.acked, ev.f.ack);
    }
  }

  lemma LogOkOf(e: End, plog: seq<Item>)
    requires EndInv(e, plog)
    ensures LogOk(e.cfg.client, e.snd.log)
  {
  }

  lemma NewEnd(cfg: Config, conn: bool, now: int, plog: seq<Item>)
    requires cfg.Valid() && LogOk(!cfg.client, plog) && (conn ==> cfg.client)
    ensures var e := New(cfg, conn, now);
            EndSane(e) && e.out == [] && RcvInv(e.dead, e.writer, e.rcv, plog) && FinishInv(e)
            && (!cfg.client ==> EndInv(e, plog))
  {
    var e := New(cfg, conn, now);
    forall k ensures ParkedAt(e.rcv.ooo, plog, 0, k) {}
    forall i ensures EndsBy(e.snd.log, i, e.snd.right) {}
    StartEnd([]);
  }

  lemma InitialInv(ccfg: Config, scfg: Config, target: Bytes, now: int)
    requires ccfg.Valid() && scfg.Valid() && ccfg.client && !scfg.client
    ensures SysInv(Initial(ccfg, scfg, target, now))
  {
    hide FramesInv, SndInv, RcvInv, QueueSegment;
    var n := New(ccfg, true, now);
    NewEnd(ccfg, true, now, []);
    assert MayQueue(n.cfg, n.reader, n.snd, Open, target);
    QueueSegmentInv(n, Open, target, now);
    var e1 := QueueSegment(n, Open, target, now);
    var e2 := StartLoops(e1);
    assert SndInv(e2.cfg, e2.dead, e2.reader, e2.snd) by { ReaderStarts(e1.cfg, e1.snd); }
    assert RcvInv(e2.dead, e2.writer, e2.rcv, []) by { WriterStarts(n.rcv); }
    FlushInv(e2, e2, []);
    var c := Initial(ccfg, scfg, target, now).c;
    assert EndInv(c, []);
    LogOkOf(c, []);
    NewEnd(scfg, false, now, c.snd.log);
    FirstAcked(c);
  }

  lemma ReaderStarts(cfg: Config, s: Snd)
    requires SndInv(cfg, false, ReadIdle, s)
    ensures SndInv(cfg, false, AtRead, s)
  {
  }

  lemma WriterStarts(r: Rcv)
    requires RcvInv(false, WriteIdle, r, [])
    ensures RcvInv(false, AtWrite, r, [])
  {
  }

  lemma FirstAcked(c: End)
    requires c.snd.acked == 0 && c.snd.right == INIT_WINDOW
    ensures forall s: End :: Flow(c, s)
  {
  }

  lemma RejectInv(e: End, plog: seq<Item>)
    requires EndInv(e, plog)
    ensures EndInv(Reject(e), plog) && Advances(e, Reject(e))
    ensures Reject(e).snd == e.snd && Reject(e).rcv == e.rcv && Reject(e).cfg == e.cfg && !Reject(e).dead == !e.dead
  {
    hide FramesInv, SndInv, RcvInv, LinkInv;
    FramesAppend(e.cfg, e.snd.log, e.rcv, e.tx, e.out, RST);
    FlushInv(e, e.(out := e.out + [RST]), plog);
  }

  lemma ActKeepsInv(y: System, a: Action)
    requires SysInv(y) && CanAct(y, a)
    ensures SysInv(Act(y, a)) && Advances(y.c, Act(y, a).c) && Advances(y.s, Act(y, a).s)
  {
    hide EndInv, HandleFrame, FramesInv, Reject, Flow, OnTimer, OnAckTimer, CheckOpened, Stop, Dialed;
    hide ReadCheck, ReadWake, ReadDone, WriteCheck, WriteWake, WriteDone, WriteClosed;
    assert Advances(y.c, y.c) && Advances(y.s, y.s);
    match a
    case Client(ev) =>
      ActInv(y.c, y.s, ev);
    case Server(ev) =>
      assert y.c.tx + y.s.tx == y.Sent();
      SwapSent(y, ev);
      ActInv(y.s, y.c, ev);
    case FirstFrame(f, now) =>
      if f.kind == Rst {
      } else if f.kind == Ack || y.refuse {
        RejectInv(y.s, y.c.snd.log);
        SameFlow(y.c, y.s, Reject(y.s));
      } else {
        var s1 := y.s.(lastHeard := now, rtx := y.s.rtx.(lastProgress := now));
        Restamped(y.s, s1, y.c.snd.log);
        SameFlow(y.c, y.s, s1);
        SwapFirst(y, f);
        ActInv(s1, y.c, Recv(f, now));
        assert Step(s1, Recv(f, now)) == HandleFrame(s1, f, now);
      }
    case Refuse =>
  }

  lemma SwapSent(y: System, ev: Event)
    ensures ev.Recv? && ev.f in y.Sent() ==> ev.f in y.s.tx + y.c.tx
  {
  }

  lemma SwapFirst(y: System, f: Frame)
    ensures f in y.Sent() ==> f in y.s.tx + y.c.tx
  {
  }

  lemma SameFlow(c: End, s: End, s': End)
    requires Flow(c, s) && Flow(s, c) && s'.snd == s.snd && s'.rcv == s.rcv && s'.cfg == s.cfg
    ensures Flow(c, s') && Flow(s', c)
  {
  }

  lemma Restamped(e: End, e': End, plog: seq<Item>)
    requires EndInv(e, plog) && e' == e.(lastHeard := e'.lastHeard, rtx := e'.rtx)
    ensures EndInv(e', plog)
  {
    hide FramesInv, SndInv, RcvInv, LinkInv;
  }

  /** The invariant holds in every reachable state. */
  lemma {:induction false} RunInv(run: seq<System>, acts: seq<Action>, ccfg: Config, scfg: Config, target: Bytes,
          now: int, i: nat)
    requires IsRun(run, acts, ccfg, scfg, target, now) && i < |run|
    ensures SysInv(run[i])
  {
    if i == 0 {
      InitialInv(ccfg, scfg, target, now);
    } else {
      RunInv(run, acts, ccfg, scfg, target, now, i - 1);
      ActKeepsInv(run[i - 1], acts[i - 1]);
    }
  }
}
