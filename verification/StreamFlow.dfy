/** Flow control: with a window of at least INIT_WINDOW a receiver never has to refuse data. */
module StreamFlow {
  import opened Bytes
  import opened StreamTypes
  import opened StreamEnd
  import opened StreamInv
  import opened StreamStep
  import opened StreamSystem

  /** The receiver has room for all a sender limited to right may send. */
  ghost predicate Roomy(r: Rcv, window: int, right: int) {
    r.queued <= window && right <= r.nxt + window - r.queued
  }

  lemma TookRoomy(cfg: Config, writer: Writer, r: Rcv, g: Segment, plog: seq<Item>, right: int)
    requires RcvInv(false, writer, r, plog) && LogOk(!cfg.client, plog) && Next(r, g, plog)
    requires Roomy(r, cfg.window, right) && InWindow(plog, right)
    ensures Roomy(Took(r, g), cfg.window, right)
  {
    hide Parked;
    NextItem(r.dlv, plog, g.num, g.kind, g.data);
    assert EndsBy(plog, |r.dlv|, right);
    StartEnd(r.dlv);
    StartPrefix(r.dlv, plog, |r.dlv|);
  }

  lemma DeliverRoomy(e: End, g: Segment, plog: seq<Item>, right: int)
    requires RcvInv(false, e.writer, e.rcv, plog) && LogOk(!e.cfg.client, plog) && Next(e.rcv, g, plog)
    requires Roomy(e.rcv, e.cfg.window, right) && InWindow(plog, right)
    ensures Roomy(Deliver(e, g).rcv, e.cfg.window, right)
  {
    hide RcvInv, InWindow;
    TookRoomy(e.cfg, e.writer, e.rcv, g, plog, right);
  }

  lemma {:induction false} DrainRoomy(e: End, plog: seq<Item>, right: int)
    requires EndSane(e) && RcvCore(false, e.writer, e.rcv, plog) && LogOk(!e.cfg.client, plog)
    requires LinkInv(e.cfg, e.link, e.rcv.dlv, e.reader, e.writer)
    requires Roomy(e.rcv, e.cfg.window, right) && InWindow(plog, right)
    ensures Roomy(Drain(e).rcv, e.cfg.window, right)
    decreases |e.rcv.ooo|
  {
    hide FramesInv, RcvCore, LinkInv, InWindow, Deliver, Roomy;
    if e.rcv.nxt in e.rcv.ooo {
      UnparkInv(e.writer, e.rcv, plog);
      var e1 := e.(rcv := e.rcv.(ooo := e.rcv.ooo - {e.rcv.nxt}));
      FramesGrow(e.cfg, e.snd.log, e.rcv, e.tx, e.out, e.snd.log, e1.rcv);
      assert Roomy(e1.rcv, e1.cfg.window, right) by { StillRoomy(e.rcv, e1.rcv, e.cfg.window, right); }
      DeliverInv(e1, e.rcv.ooo[e.rcv.nxt], plog);
      DeliverRoomy(e1, e.rcv.ooo[e.rcv.nxt], plog, right);
      DeliverNextShrinks(e);
      DrainRoomy(DeliverNext(e), plog, right);
    }
  }

  lemma StillRoomy(r: Rcv, r': Rcv, window: int, right: int)
    requires Roomy(r, window, right) && r'.queued == r.queued && r'.nxt == r.nxt
    ensures Roomy(r', window, right)
  {
  }

  lemma SegmentRoomy(e: End, f: Frame, plog: seq<Item>, right: int)
    requires EndSane(e) && RcvInv(false, e.writer, e.rcv, plog) && !e.dead && f.Segment()
    requires Genuine(e, f, plog) && LinkInv(e.cfg, e.link, e.rcv.dlv, e.reader, e.writer)
    requires Roomy(e.rcv, e.cfg.window, right) && InWindow(plog, right)
    ensures Roomy(ProcessSegment(e, f).rcv, e.cfg.window, right)
  {
    hide FramesInv, RcvCore, LinkInv, InWindow, Deliver, Drain, EndSane;
    var g := Received(f);
    if f.kind == Fin { FinCarriesNothing(!e.cfg.client, plog, f.num, f.payload); }
    if g.num == e.rcv.nxt && g.End() > e.rcv.nxt && !Refused(e, g) {
      DeliverInv(e, g, plog);
      DeliverRoomy(e, g, plog, right);
      DrainRoomy(Deliver(e, g), plog, right);
    }
  }

  lemma HandleRoomy(e: End, f: Frame, now: int, plog: seq<Item>, right: int)
    requires EndInv(e, plog) && Genuine(e, f, plog)
    requires Roomy(e.rcv, e.cfg.window, right) && InWindow(plog, right)
    ensures Roomy(HandleFrame(e, f, now).rcv, e.cfg.window, right)
  {
    hide FramesInv, RcvCore, LinkInv, InWindow, SndInv, ProcessAck, ProcessSegment;
    var e1 := e.(lastHeard := now);
    if !e.dead && f.kind != Rst {
      ProcessAckInv(e1, f, now);
      if f.Segment() { SegmentRoomy(ProcessAck(e1, f, now), f, plog, right); }
    }
  }

  lemma {:induction false} ResendKeepsRcv(e: End, i: nat, now: int)
    requires i <= |e.snd.unacked|
    ensures ResendFrom(e, i, now).rcv == e.rcv
    decreases |e.snd.unacked| - i
  {
    if i < |e.snd.unacked| { ResendKeepsRcv(Resend(e, i, now), i + 1, now); }
  }

  lemma ReadRoomy(e: End, data: Bytes, res: ReadResult, now: int, right: int)
    requires Roomy(e.rcv, e.cfg.window, right)
    ensures Roomy(ReadDone(e, data, res, now).rcv, e.cfg.window, right)
  {
    hide Min, Pow2, Marked, NeedsTimer;
  }

  lemma WriteRoomy(e: End, n: nat, failed: bool, right: int)
    requires e.writer.Writing? && n <= |Flatten(e.writer.bufs)| && Roomy(e.rcv, e.cfg.window, right)
    ensures Roomy(WriteDone(e, n, failed).rcv, e.cfg.window, right)
  {
    hide FillAck, Marked, Flatten, WorthUpdating;
  }

  /** Sections that receive nothing only make room. */
  lemma OtherRoomy(e: End, ev: Event, right: int)
    requires Enabled(e, ev) && !ev.Recv? && Roomy(e.rcv, e.cfg.window, right)
    ensures Roomy(Step(e, ev).rcv, e.cfg.window, right)
  {
    hide ResendFrom, Min, Pow2, FillAck, Marked, Flatten, NeedsTimer, CanSend, ReadDone, WriteDone;
    if ev.ReadReturns? { ReadRoomy(e, ev.data, ev.res, ev.at, right); }
    if ev.WriteReturns? { WriteRoomy(e, ev.n, ev.failed, right); }
    if ev.TimerFires? { ResendKeepsRcv(e.(rtx := e.rtx.(armed := false)), 0, ev.now); }
  }

  lemma StepRoomy(e: End, ev: Event, plog: seq<Item>, right: int)
    requires EndInv(e, plog) && Enabled(e, ev) && (ev.Recv? ==> Genuine(e, ev.f, plog))
    requires Roomy(e.rcv, e.cfg.window, right) && InWindow(plog, right)
    ensures Roomy(Step(e, ev).rcv, e.cfg.window, right)
  {
    hide EndInv, Roomy, HandleFrame, InWindow;
    if ev.Recv? { HandleRoomy(e, ev.f, ev.now, plog, right); } else { OtherRoomy(e, ev, right); }
  }

  // ---- over runs ------------------------------------------------------------------------

  ghost predicate RoomyEnds(s: End, r: End) { Roomy(r.rcv, r.cfg.window, s.snd.right) }

  lemma InWindowOf(s: End, plog: seq<Item>)
    requires EndInv(s, plog)
    ensures InWindow(s.snd.log, s.snd.right)
  {
  }

  /** One end acts: each direction that had room keeps it. */
  lemma ActRoomy(e: End, peer: End, ev: Event)
    requires e.cfg.client != peer.cfg.client
    requires EndInv(e, peer.snd.log) && EndInv(peer, e.snd.log) && Flow(e, peer) && Flow(peer, e)
    requires Enabled(e, ev) && (ev.Recv? ==> ev.f in e.tx + peer.tx)
    ensures RoomyEnds(e, peer) ==> RoomyEnds(Step(e, ev), peer)
    ensures RoomyEnds(peer, e) ==> RoomyEnds(peer, Step(e, ev))
  {
    hide EndInv, Step, FramesInv, InWindow;
    if ev.Recv? {
      WhoSent(e, peer, ev.f);
      SentIsGenuine(e, peer, ev.f);
    }
    InWindowOf(peer, e.snd.log);
    StepInv(e, ev, peer.snd.log);
    if RoomyEnds(peer, e) { StepRoomy(e, ev, peer.snd.log, peer.snd.right); }
  }

  lemma ActKeepsRoomy(y: System, a: Action)
    requires SysInv(y) && CanAct(y, a)
    ensures RoomyEnds(y.c, y.s) ==> RoomyEnds(Act(y, a).c, Act(y, a).s)
    ensures RoomyEnds(y.s, y.c) ==> RoomyEnds(Act(y, a).s, Act(y, a).c)
  {
    hide EndInv, HandleFrame, FramesInv, Flow, OnTimer, OnAckTimer, CheckOpened, Stop, Dialed;
    hide ReadCheck, ReadWake, ReadDone, WriteCheck, WriteWake, WriteDone, WriteClosed;
    match a
    case Client(ev) => ActRoomy(y.c, y.s, ev);
    case Server(ev) =>
      SwapSent(y, ev);
      ActRoomy(y.s, y.c, ev);
    case FirstFrame(f, now) =>
      if f.kind != Rst && f.kind != Ack && !y.refuse {
        var s1 := y.s.(lastHeard := now, rtx := y.s.rtx.(lastProgress := now));
        Restamped(y.s, s1, y.c.snd.log);
        SameFlow(y.c, y.s, s1);
        SwapFirst(y, f);
        ActRoomy(s1, y.c, Recv(f, now));
        assert Step(s1, Recv(f, now)) == HandleFrame(s1, f, now);
      }
    case Refuse =>
  }

  lemma {:induction false} RunRoomy(run: seq<System>, acts: seq<Action>, ccfg: Config, scfg: Config, target: Bytes,
          now: int, i: nat)
    requires IsRun(run, acts, ccfg, scfg, target, now) && i < |run|
    ensures run[i].c.cfg == ccfg && run[i].s.cfg == scfg
    ensures scfg.window >= INIT_WINDOW ==> RoomyEnds(run[i].c, run[i].s)
    ensures ccfg.window >= INIT_WINDOW ==> RoomyEnds(run[i].s, run[i].c)
  {
    hide SysInv, CanAct, Act;
    if i == 0 {
    } else {
      RunRoomy(run, acts, ccfg, scfg, target, now, i - 1);
      RunInv(run, acts, ccfg, scfg, target, now, i - 1);
      ActKeepsInv(run[i - 1], acts[i - 1]);
      ActKeepsRoomy(run[i - 1], acts[i - 1]);
    }
  }

  /** Data bytes among the parked segments that start in [lo, hi). */
  function ParkedBytes(ooo: map<int, Segment>, lo: int, hi: int): nat
    decreases hi - lo
  {
    if hi <= lo then 0
    else ParkedBytes(ooo, lo, hi - 1) + (if hi - 1 in ooo && ooo[hi - 1].kind == Data then |ooo[hi - 1].data| else 0)
  }

  /** Nothing parked starts strictly between two boundaries. */
  lemma {:induction false} NoneBetween(ooo: map<int, Segment>, plog: seq<Item>, lo: int, j: nat, hi: int)
    requires Parked(ooo, plog, lo) && Positive(plog) && j < |plog|
    requires lo <= Start(plog, j) < hi <= Start(plog, j + 1)
    ensures ParkedBytes(ooo, lo, hi) == ParkedBytes(ooo, lo, Start(plog, j) + 1)
    decreases hi
  {
    if hi > Start(plog, j) + 1 {
      NoneBetween(ooo, plog, lo, j, hi - 1);
      assert ParkedAt(ooo, plog, lo, hi - 1);
      if hi - 1 in ooo {
        var i :| ItemAt(plog, i, hi - 1, ooo[hi - 1].kind, ooo[hi - 1].data);
        StartInjective(plog, j, i);
        StartInjective(plog, i, j + 1);
        assert false;
      }
    }
  }

  /** Parked data up to a boundary fits between nxt and that boundary, and below right. */
  lemma {:induction false} ParkedFits(ooo: map<int, Segment>, plog: seq<Item>, k: nat, j: nat, right: int)
    requires Positive(plog) && k <= j <= |plog| && Parked(ooo, plog, Start(plog, k)) && InWindow(plog, right)
    requires Start(plog, k) <= right
    ensures Start(plog, k) <= Start(plog, j)
    ensures ParkedBytes(ooo, Start(plog, k), Start(plog, j)) <= Min(Start(plog, j), right) - Start(plog, k)
    decreases j
  {
    if k < j {
      var lo := Start(plog, k);
      ParkedFits(ooo, plog, k, j - 1, right);
      StartNext(plog, j - 1);
      NoneBetween(ooo, plog, lo, j - 1, Start(plog, j));
      var at := Start(plog, j - 1);
      assert ParkedAt(ooo, plog, lo, at);
      assert EndsBy(plog, j - 1, right);
      if at in ooo {
        var i :| ItemAt(plog, i, at, ooo[at].kind, ooo[at].data);
        StartInjective(plog, i, j - 1);
      }
    }
  }

  /** Nothing parked lies beyond the end of the log. */
  lemma {:induction false} ParkedEnds(ooo: map<int, Segment>, plog: seq<Item>, lo: int, hi: int)
    requires Positive(plog) && Parked(ooo, plog, lo) && lo <= Size(plog) <= hi
    ensures ParkedBytes(ooo, lo, hi) == ParkedBytes(ooo, lo, Size(plog))
    decreases hi
  {
    if hi > Size(plog) {
      ParkedEnds(ooo, plog, lo, hi - 1);
      assert ParkedAt(ooo, plog, lo, hi - 1);
      if hi - 1 in ooo {
        var i :| ItemAt(plog, i, hi - 1, ooo[hi - 1].kind, ooo[hi - 1].data);
        StartInjective(plog, i, |plog|);
        StartEnd(plog);
        assert false;
      }
    }
  }

  lemma {:induction false} ParkedMonotone(ooo: map<int, Segment>, lo: int, a: int, b: int)
    requires a <= b
    ensures ParkedBytes(ooo, lo, a) <= ParkedBytes(ooo, lo, b)
    decreases b - a
  {
    if a < b { ParkedMonotone(ooo, lo, a, b - 1); }
  }

  /** Everything r holds for conn, in order or parked, fits its window. */
  lemma HeldFits(s: End, r: End, hi: int)
    requires EndInv(s, r.snd.log) && EndInv(r, s.snd.log) && RoomyEnds(s, r)
    ensures r.rcv.queued + ParkedBytes(r.rcv.ooo, r.rcv.nxt, hi) <= r.cfg.window
  {
    hide FramesInv, LinkInv, Flatten, DataOf, Tiles;
    var log, k := s.snd.log, |r.rcv.dlv|;
    StartEnd(r.rcv.dlv);
    StartPrefix(r.rcv.dlv, log, k);
    StartEnd(log);
    var edge := r.rcv.nxt + r.cfg.window - r.rcv.queued;
    forall i ensures EndsBy(log, i, edge) { assert EndsBy(log, i, s.snd.right); }
    ParkedFits(r.rcv.ooo, log, k, |log|, edge);
    var top := Max(hi, Size(log));
    ParkedEnds(r.rcv.ooo, log, r.rcv.nxt, top);
    ParkedMonotone(r.rcv.ooo, r.rcv.nxt, hi, top);
  }

  /** What a receiver with room promises about every data frame its peer has sent. */
  ghost predicate TakesAll(s: End, r: End) {
    forall f :: f in s.tx && f.kind == Data ==>
      && (f.num == r.rcv.nxt ==> !Refused(r, Received(f)) && r.rcv.queued + |f.payload| <= r.cfg.window)
      && (f.num > r.rcv.nxt ==> f.num + |f.payload| <= r.rcv.nxt + r.cfg.window)
  }

  lemma EndsTakeAll(s: End, r: End)
    requires EndInv(s, r.snd.log) && EndInv(r, s.snd.log) && RoomyEnds(s, r)
    ensures TakesAll(s, r)
  {
    hide LinkInv, Tiles, Parked, Flatten, DataOf;
    forall f | f in s.tx && f.kind == Data
      ensures f.num + |f.payload| <= r.rcv.nxt + r.cfg.window - r.rcv.queued
    {
      assert f in s.tx + s.out;
      assert FrameOk(f, s.cfg, s.snd.log, s.rcv);
      var i :| ItemAt(s.snd.log, i, f.num, f.kind, f.payload);
      assert EndsBy(s.snd.log, i, s.snd.right);
    }
  }

  /** What the sender sees of the window. */
  ghost predicate WindowShape(e: End) {
    && e.snd.nxt <= e.snd.right + (if e.snd.finQueued then 1 else 0)
    && RightEdge(e.cfg, e.rcv) == Max(e.rcv.nxt, e.rcv.nxt - e.rcv.queued + e.cfg.window)
    && (!e.dead ==> e.rcv.nxt - e.rcv.queued == Controls(e.rcv.dlv) + |e.rcv.written|)
  }

  lemma EndsWindowShape(e: End, plog: seq<Item>)
    requires EndInv(e, plog)
    ensures WindowShape(e)
  {
    hide FramesInv, LinkInv, Tiles, Parked, InWindow;
    SizeSplits(e.rcv.dlv);
  }

  /** What the receiver's window gives one direction of the stream. */
  ghost predicate NeverRefuses(s: End, r: End, hi: int) {
    r.rcv.queued + ParkedBytes(r.rcv.ooo, r.rcv.nxt, hi) <= r.cfg.window && TakesAll(s, r)
  }

  /**
   * A window of at least INIT_WINDOW: what the receiver holds fits it, and no data frame is ever
   * refused or falls outside it. Senders overrun the edge by at most the FIN.
   */
  lemma FlowControl(run: seq<System>, acts: seq<Action>, ccfg: Config, scfg: Config, target: Bytes, now: int,
          i: nat, hi: int)
    requires IsRun(run, acts, ccfg, scfg, target, now) && i < |run|
    ensures scfg.window >= INIT_WINDOW ==> NeverRefuses(run[i].c, run[i].s, hi)
    ensures ccfg.window >= INIT_WINDOW ==> NeverRefuses(run[i].s, run[i].c, hi)
    ensures WindowShape(run[i].c) && WindowShape(run[i].s)
  {
    hide EndInv, FramesInv, Flow, TakesAll, WindowShape;
    var c, s := run[i].c, run[i].s;
    RunInv(run, acts, ccfg, scfg, target, now, i);
    RunRoomy(run, acts, ccfg, scfg, target, now, i);
    if scfg.window >= INIT_WINDOW {
      HeldFits(c, s, hi);
      EndsTakeAll(c, s);
    }
    if ccfg.window >= INIT_WINDOW {
      HeldFits(s, c, hi);
      EndsTakeAll(s, c);
    }
    EndsWindowShape(c, s.snd.log);
    EndsWindowShape(s, c.snd.log);
  }

  // ---- the bound is exact ---------------------------------------------------------------

  // The arguments below are the same for the client and the server: side says which of them sends.

  function EndOf(y: System, side: bool): End { if side then y.c else y.s }

  function By(side: bool, ev: Event): Action { if side then Client(ev) else Server(ev) }

  /** An end that may still send up to INIT_WINDOW, at nxt, to a peer that has received nothing in order. */
  ghost predicate Ready(y: System, side: bool, nxt: int) {
    var e := EndOf(y, side);
    && !e.dead && e.reader == AtRead && e.out == [] && e.snd.right == INIT_WINDOW && e.snd.nxt == nxt
    && EndOf(y, !side).rcv.nxt == 0 && EndOf(y, !side).rcv.queued == 0 && (side || y.up)
  }

  lemma Extend(run: seq<System>, acts: seq<Action>, ccfg: Config, scfg: Config, target: Bytes, now: int, a: Action)
    requires IsRun(run, acts, ccfg, scfg, target, now) && CanAct(run[|run| - 1], a)
    ensures IsRun(run + [Act(run[|run| - 1], a)], acts + [a], ccfg, scfg, target, now)
  {
    hide CanAct, Act, Initial;
    var run', acts' := run + [Act(run[|run| - 1], a)], acts + [a];
    forall i | 0 <= i < |acts'| ensures CanAct(run'[i], acts'[i]) && run'[i + 1] == Act(run'[i], acts'[i]) {
      if i < |acts| { assert CanAct(run[i], acts[i]); }
    }
  }

  ghost predicate SentPiece(e: End, num: int, size: nat) {
    exists f :: f in e.tx && f.kind == Data && f.num == num && |f.payload| == size
  }

  /** One pass of readLoop: check, read the piece, queue and flush it. */
  lemma PieceSent(c: End, piece: Bytes, now: int)
    requires !c.dead && c.reader == AtRead && c.out == [] && CanSend(c)
    requires 0 < |piece| <= Min(c.snd.right - c.snd.nxt, c.cfg.mss)
    ensures ReadCheck(c) == c.(reader := Reading(Min(c.snd.right - c.snd.nxt, c.cfg.mss)))
    ensures var c' := ReadDone(ReadCheck(c), piece, ReadOk, now);
            !c'.dead && c'.reader == AtRead && c'.out == [] && c'.snd.right == c.snd.right && c'.cfg == c.cfg
            && c'.snd.nxt == c.snd.nxt + |piece| && SentPiece(c', c.snd.nxt, |piece|)
            && c'.snd.finQueued == c.snd.finQueued && c'.rcv == c.rcv
  {
    hide Min, QueueSegment;
    var e1 := c.(reader := Reading(Min(c.snd.right - c.snd.nxt, c.cfg.mss)), snd := c.snd.(read := c.snd.read + piece));
    assert ReadCheck(c) == c.(reader := e1.reader);
    PieceQueued(e1, piece, now);
    var e2 := QueueSegment(e1, Data, piece, now);
    var f := AckFrame(e1, Data, false, false, c.snd.nxt, piece);
    assert Marked([] + [f], c.cfg.client)[0] == Mark(f, c.cfg.client);
    assert ReadDone(ReadCheck(c), piece, ReadOk, now) == Flush(e2.(reader := AtRead));
    assert Mark(f, c.cfg.client) in Flush(e2.(reader := AtRead)).tx;
  }

  lemma PieceQueued(e: End, piece: Bytes, now: int)
    requires e.out == [] && !e.dead
    ensures var e' := QueueSegment(e, Data, piece, now);
            e'.out == [] + [AckFrame(e, Data, false, false, e.snd.nxt, piece)] && e'.tx == e.tx && e'.cfg == e.cfg
            && e'.snd.nxt == e.snd.nxt + |piece| && e'.snd.right == e.snd.right && !e'.dead && e'.rcv == e.rcv
            && e'.snd.finQueued == e.snd.finQueued
  {
    hide FillAck, Armed, NeedsTimer;
  }

  /** The state after an end has read and sent a piece of its connection. */
  lemma SendPiece(run: seq<System>, acts: seq<Action>, ccfg: Config, scfg: Config, target: Bytes, now: int,
          side: bool, piece: Bytes)
    returns (run': seq<System>, acts': seq<Action>)
    requires IsRun(run, acts, ccfg, scfg, target, now) && |run| > 0
    requires var e := EndOf(run[|run| - 1], side);
             Ready(run[|run| - 1], side, e.snd.nxt) && CanSend(e)
             && 0 < |piece| <= Min(e.snd.right - e.snd.nxt, e.cfg.mss)
    ensures IsRun(run', acts', ccfg, scfg, target, now) && |run'| > 0
    ensures var e, e' := EndOf(run[|run| - 1], side), EndOf(run'[|run'| - 1], side);
            Ready(run'[|run'| - 1], side, e.snd.nxt + |piece|) && e'.cfg == e.cfg && SentPiece(e', e.snd.nxt, |piece|)
            && EndOf(run'[|run'| - 1], !side) == EndOf(run[|run| - 1], !side)
            && run'[|run'| - 1].up == run[|run| - 1].up
            && run'[|run'| - 1].refuse == run[|run| - 1].refuse
  {
    hide ReadCheck, ReadDone, IsRun, SentPiece, CanSend;
    var y := run[|run| - 1];
    var e := EndOf(y, side);
    PieceSent(e, piece, now);
    var check, read := By(side, ReadChecks), By(side, ReadReturns(piece, ReadOk, now));
    assert CanAct(y, check);
    Extend(run, acts, ccfg, scfg, target, now, check);
    var y1 := Act(y, check);
    run', acts' := run + [y1], acts + [check];
    assert EndOf(y1, side) == ReadCheck(e) && EndOf(y1, !side) == EndOf(y, !side);
    assert CanAct(y1, read);
    Extend(run', acts', ccfg, scfg, target, now, read);
    run', acts' := run' + [Act(y1, read)], acts' + [read];
  }

  /** An end fills the initial window with count full segments. */
  lemma {:induction false} FillWindow(run: seq<System>, acts: seq<Action>, ccfg: Config, scfg: Config, target: Bytes,
          now: int, side: bool, mss: nat, count: nat)
    returns (run': seq<System>, acts': seq<Action>)
    requires IsRun(run, acts, ccfg, scfg, target, now) && count > 0 && |run| > 0 && mss > 0
    requires Ready(run[|run| - 1], side, INIT_WINDOW - count * mss) && EndOf(run[|run| - 1], side).cfg.mss == mss
    ensures IsRun(run', acts', ccfg, scfg, target, now) && |run'| > 0
    ensures var y' := run'[|run'| - 1];
            Ready(y', side, INIT_WINDOW) && SentPiece(EndOf(y', side), INIT_WINDOW - mss, mss)
            && EndOf(y', !side) == EndOf(run[|run| - 1], !side) && y'.up == run[|run| - 1].up
            && y'.refuse == run[|run| - 1].refuse
    decreases count
  {
    hide Ready, IsRun, SentPiece;
    var full := seq(mss, _ => 0);
    var y := run[|run| - 1];
    ReadyAt(y, side, INIT_WINDOW - count * mss);
    assert count * mss >= mss;
    run', acts' := SendPiece(run, acts, ccfg, scfg, target, now, side, full);
    if count > 1 {
      assert INIT_WINDOW - count * mss + mss == INIT_WINDOW - (count - 1) * mss;
      run', acts' := FillWindow(run', acts', ccfg, scfg, target, now, side, mss, count - 1);
    }
  }

  lemma ReadyAt(y: System, side: bool, nxt: int)
    requires Ready(y, side, nxt)
    ensures EndOf(y, side).snd.nxt == nxt && EndOf(y, side).snd.right == INIT_WINDOW
  {
  }

  /** An end sends all the initial window allows, the last segment a full one. */
  lemma FillAll(run: seq<System>, acts: seq<Action>, ccfg: Config, scfg: Config, target: Bytes, now: int,
          side: bool, mss: nat, nxt: nat)
    returns (run': seq<System>, acts': seq<Action>)
    requires IsRun(run, acts, ccfg, scfg, target, now) && |run| > 0 && nxt + mss <= INIT_WINDOW && mss > 0
    requires Ready(run[|run| - 1], side, nxt) && EndOf(run[|run| - 1], side).cfg.mss == mss
    ensures IsRun(run', acts', ccfg, scfg, target, now) && |run'| > 0
    ensures var y' := run'[|run'| - 1];
            Ready(y', side, INIT_WINDOW) && SentPiece(EndOf(y', side), INIT_WINDOW - mss, mss)
            && EndOf(y', !side) == EndOf(run[|run| - 1], !side) && y'.up == run[|run| - 1].up
            && y'.refuse == run[|run| - 1].refuse
  {
    hide Ready, IsRun, SentPiece;
    ReadyAt(run[|run| - 1], side, nxt);
    var total := INIT_WINDOW - nxt;
    var count, rest := total / mss, total % mss;
    assert total == count * mss + rest && count >= 1;
    run', acts' := run, acts;
    if rest > 0 {
      run', acts' := SendPiece(run', acts', ccfg, scfg, target, now, side, seq(rest, _ => 0));
    }
    run', acts' := FillWindow(run', acts', ccfg, scfg, target, now, side, mss, count);
  }

  /** A data frame behind the window is not kept: at most its acknowledgement ends the stream. */
  lemma Discarded(e: End, f: Frame, now: int)
    requires !e.dead && f.kind == Data && f.num > e.rcv.nxt && f.num + |f.payload| > e.rcv.nxt + e.cfg.window
    ensures var e' := HandleFrame(e, f, now);
            && e'.rcv == (if e'.dead then e.rcv.(ooo := map[], queue := []) else e.rcv)
            && (e'.dead ==> e'.finished && e.snd.finQueued && e.rcv.finWritten)
  {
    hide ProcessAck, FillAck;
    var e1 := e.(lastHeard := now);
    AckKeepsRcv(e1, f, now);
  }

  predicate SameRcv(e: End, e': End) {
    e'.rcv == e.rcv && e'.cfg == e.cfg && e'.dead == e.dead && e'.snd.finQueued == e.snd.finQueued
  }

  lemma RetransmitKeepsRcv(e: End, now: int)
    ensures SameRcv(e, FastRetransmit(e, now)) && SameRcv(e, ArmTimer(e)) && SameRcv(e, ArmIfIdle(e))
  {
    hide Quot, FillAck, Armed;
  }

  lemma AckKeepsRcv(e: End, f: Frame, now: int)
    ensures SameRcv(e, ProcessAck(e, f, now))
  {
    hide AckedCount, Sample, FastRetransmit, ArmTimer, ArmIfIdle;
    var n := AckedCount(e.snd.unacked, f.ack);
    var e1 := e.(snd := Acknowledged(e.snd, n, f.ack),
                 rtx := Sample(e, n, now).(backoff := 0, dupAcks := 0, lastProgress := now));
    RetransmitKeepsRcv(e1, now);
    RetransmitKeepsRcv(FastRetransmit(e1, now), now);
    RetransmitKeepsRcv(e.(rtx := e.rtx.(dupAcks := e.rtx.dupAcks + 1, recover := e.snd.nxt)), now);
    var e2 := if f.ack > e.snd.una then Advance(e, f.ack, now)
              else if f.ack == e.snd.una && f.outOfOrder && |e.snd.unacked| > 0 then CountDuplicate(e, now) else e;
    assert SameRcv(e, e2);
    RetransmitKeepsRcv(e2.(snd := e2.snd.(right := Edge(f))), now);
  }

  /** The sender has filled a window the receiver never had: a data frame lies outside it. */
  ghost predicate Overrun(y: System, side: bool) {
    var s, r := EndOf(y, side), EndOf(y, !side);
    !TakesAll(s, r)
    && (s.cfg.mss < INIT_WINDOW ==> exists f :: f in s.tx && f.kind == Data && f.num > r.rcv.nxt
                                               && f.num + |f.payload| > r.rcv.nxt + r.cfg.window)
  }

  lemma Outside(y: System, side: bool, size: nat)
    requires Ready(y, side, INIT_WINDOW) && 0 < size <= INIT_WINDOW
    requires SentPiece(EndOf(y, side), INIT_WINDOW - size, size)
    requires EndOf(y, !side).cfg.window < INIT_WINDOW && size == Min(EndOf(y, side).cfg.mss, INIT_WINDOW)
    ensures Overrun(y, side)
  {
    var s, r := EndOf(y, side), EndOf(y, !side);
    var f :| f in s.tx && f.kind == Data && f.num == INIT_WINDOW - size && |f.payload| == size;
    assert f.num + |f.payload| > r.rcv.nxt + r.cfg.window;
  }

  lemma StartRun(ccfg: Config, scfg: Config)
    requires ccfg.Valid() && scfg.Valid() && ccfg.client && !scfg.client
    ensures IsRun([Initial(ccfg, scfg, [], 0)], [], ccfg, scfg, [], 0)
  {
  }

  lemma InitialReady(ccfg: Config, scfg: Config)
    requires ccfg.Valid()
    ensures Ready(Initial(ccfg, scfg, [], 0), true, 1) && Initial(ccfg, scfg, [], 0).c.cfg == ccfg
    ensures Initial(ccfg, scfg, [], 0).s == New(scfg, false, 0)
    ensures !Initial(ccfg, scfg, [], 0).up && !Initial(ccfg, scfg, [], 0).refuse
  {
  }

  /** A client overruns a server whose window is smaller, and the server throws the frame away. */
  lemma SmallWindowOverrun(ccfg: Config, scfg: Config)
    returns (run: seq<System>, acts: seq<Action>)
    requires ccfg.Valid() && scfg.Valid() && ccfg.client && !scfg.client
    requires ccfg.mss < INIT_WINDOW && scfg.window < INIT_WINDOW
    ensures IsRun(run, acts, ccfg, scfg, [], 0) && |run| > 1
    ensures var y, y' := run[|run| - 2], run[|run| - 1];
            && Overrun(y, true) && Overrun(y', true) && y'.up && y'.s.rcv == y.s.rcv
            && exists f :: acts[|acts| - 1] == FirstFrame(f, 0) && f.kind == Data && f in y.c.tx
  {
    hide IsRun, Initial, SentPiece, HandleFrame, Ready, TakesAll;
    StartRun(ccfg, scfg);
    InitialReady(ccfg, scfg);
    run, acts := FillAll([Initial(ccfg, scfg, [], 0)], [], ccfg, scfg, [], 0, true, ccfg.mss, 1);
    var y := run[|run| - 1];
    RunConfigs(run, acts, ccfg, scfg, [], 0, |run| - 1);
    Outside(y, true, ccfg.mss);
    var f :| f in y.c.tx && f.kind == Data && f.num > y.s.rcv.nxt && f.num + |f.payload| > y.s.rcv.nxt + y.s.cfg.window;
    SentBy(run, acts, ccfg, scfg, [], 0, f);
    var a := FirstFrame(f, 0);
    assert CanAct(y, a);
    Extend(run, acts, ccfg, scfg, [], 0, a);
    var y' := Act(y, a);
    Discarded(New(scfg, false, 0).(lastHeard := 0, rtx := y.s.rtx.(lastProgress := 0)), f, 0);
    run, acts := run + [y'], acts + [a];
    RunConfigs(run, acts, ccfg, scfg, [], 0, |run| - 1);
    StillOverrun(y, y');
  }

  lemma StillOverrun(y: System, y': System)
    requires Overrun(y, true) && y'.c == y.c && y'.s.rcv == y.s.rcv && y'.s.cfg == y.s.cfg
    ensures Overrun(y', true)
  {
  }

  lemma RunConfigs(run: seq<System>, acts: seq<Action>, ccfg: Config, scfg: Config, target: Bytes, now: int, i: nat)
    requires IsRun(run, acts, ccfg, scfg, target, now) && i < |run|
    ensures run[i].c.cfg == ccfg && run[i].s.cfg == scfg
  {
    RunRoomy(run, acts, ccfg, scfg, target, now, i);
  }

  lemma SentBy(run: seq<System>, acts: seq<Action>, ccfg: Config, scfg: Config, target: Bytes, now: int, f: Frame)
    requires IsRun(run, acts, ccfg, scfg, target, now) && |run| > 0 && f in run[|run| - 1].c.tx
    ensures f.fromClient
  {
    RunInv(run, acts, ccfg, scfg, target, now, |run| - 1);
    FlagOf(run[|run| - 1].c, run[|run| - 1].s.snd.log, f);
  }

  lemma FlagOf(e: End, plog: seq<Item>, f: Frame)
    requires EndInv(e, plog) && f in e.tx
    ensures f.fromClient == e.cfg.client
  {
  }

  // ---- from server to client ------------------------------------------------------------

  /** The server end after OPEN arrived. */
  lemma OpenTaken(ccfg: Config, scfg: Config)
    requires ccfg.Valid() && !scfg.client && ccfg.client && ccfg.window < INIT_WINDOW
    ensures var c := Opened(ccfg, [], 0);
            |c.tx| > 0 && c.tx[0].kind == Open && c.tx[0].fromClient
            && (var s := HandleFrame(New(scfg, false, 0), c.tx[0], 0);
                !s.dead && s.link.dialing && s.out == [] && s.snd == New(scfg, false, 0).snd && s.cfg == scfg)
    ensures Opened(ccfg, [], 0).rcv == New(ccfg, true, 0).rcv
  {
    hide Pow2, Armed;
    var n := New(ccfg, true, 0);
    var e1 := n.(snd := Enqueue(n.snd, Segment(0, Open, [], 0, false)));
    var f := AckFrame(e1, Open, false, false, 0, []);
    assert QueueSegment(n, Open, [], 0).out == [] + [f];
    var c := Opened(ccfg, [], 0);
    assert Marked([] + [f], true)[0] == Mark(f, true);
    assert c.tx[0] == Mark(f, true);
    OpenHandled(New(scfg, false, 0), c.tx[0]);
  }

  lemma OpenHandled(e: End, f: Frame)
    requires e == New(e.cfg, false, 0) && !e.cfg.client
    requires f.kind == Open && f.num == 0 && f.ack == 0 && f.wnd < INIT_WINDOW && !f.outOfOrder
    ensures var s := HandleFrame(e, f, 0);
            !s.dead && s.link.dialing && s.out == [] && s.snd == e.snd && s.cfg == e.cfg
  {
    hide FillAck;
    var e1 := Signal(e.(lastHeard := 0));
    assert ProcessAck(e.(lastHeard := 0), f, 0) == e1;
    var d := Deliver(e1, Received(f));
    assert Drain(d) == d;
  }

  /** A run that brings the server up, dialled and ready to read. */
  lemma ServerUp(ccfg: Config, scfg: Config)
    returns (run: seq<System>, acts: seq<Action>)
    requires ccfg.Valid() && scfg.Valid() && ccfg.client && !scfg.client && ccfg.window < INIT_WINDOW
    ensures IsRun(run, acts, ccfg, scfg, [], 0) && |run| > 0
    ensures Ready(run[|run| - 1], false, 0) && run[|run| - 1].s.snd.unacked == []
  {
    hide IsRun, HandleFrame;
    StartRun(ccfg, scfg);
    InitialReady(ccfg, scfg);
    OpenTaken(ccfg, scfg);
    var y := Initial(ccfg, scfg, [], 0);
    var f := y.c.tx[0];
    var first, dial := FirstFrame(f, 0), Server(DialReturns(true));
    assert f in y.Sent();
    assert CanAct(y, first);
    Extend([y], [], ccfg, scfg, [], 0, first);
    var y1 := Act(y, first);
    assert New(scfg, false, 0).(lastHeard := 0, rtx := y.s.rtx.(lastProgress := 0)) == New(scfg, false, 0);
    Extend([y] + [y1], [] + [first], ccfg, scfg, [], 0, dial);
    run, acts := [y] + [y1] + [Act(y1, dial)], [] + [first] + [dial];
  }

  /** A server overruns a client whose window is smaller. */
  lemma SmallClientOverrun(ccfg: Config, scfg: Config)
    returns (run: seq<System>, acts: seq<Action>)
    requires ccfg.Valid() && scfg.Valid() && ccfg.client && !scfg.client && ccfg.window < INIT_WINDOW
    ensures IsRun(run, acts, ccfg, scfg, [], 0) && |run| > 0 && Overrun(run[|run| - 1], false)
  {
    hide IsRun, SentPiece, Ready, TakesAll;
    run, acts := ServerUp(ccfg, scfg);
    RunConfigs(run, acts, ccfg, scfg, [], 0, |run| - 1);
    ReadyAt(run[|run| - 1], false, 0);
    var size := Min(scfg.mss, INIT_WINDOW);
    if scfg.mss <= INIT_WINDOW {
      run, acts := FillAll(run, acts, ccfg, scfg, [], 0, false, scfg.mss, 0);
    } else {
      run, acts := SendPiece(run, acts, ccfg, scfg, [], 0, false, seq(INIT_WINDOW, _ => 0));
    }
    RunConfigs(run, acts, ccfg, scfg, [], 0, |run| - 1);
    Outside(run[|run| - 1], false, size);
  }
}
