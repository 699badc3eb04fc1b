/**
 * One end of a TCP stream as a value: the fields of tcpStream, the program counters of its two
 * goroutines, and history variables. Each function is the effect of one section of
 * src/tcp_stream.go that runs under the stream's mutex.
 */
module StreamEnd {
  import opened Bytes
  import opened StreamTypes

  datatype Config = Config(client: bool, mss: nat, window: nat, timeout: int, target: Bytes) {
    // newTcpStreamEndpoint: mss is at least 256, window at least two segments and a uint32.
    predicate Valid() { 256 <= mss && 2 * mss <= window < 0x1_0000_0000 }
  }

  /** Send side. log, acked and read are history: items queued, items acknowledged, bytes read from conn. */
  datatype Snd = Snd(
    una: int, nxt: int, right: int, unacked: seq<Segment>, finQueued: bool,
    log: seq<Item>, acked: nat, read: Bytes)

  /** Retransmission: the estimator, the loss detector and the timer. delay is what the timer was last set to. */
  datatype Rtx = Rtx(
    srtt: int, rttvar: int, rto: int, backoff: nat, dupAcks: int, recover: int,
    lastProgress: int, armed: bool, delay: int)

  /** Receive side. dlv and written are history: items delivered in order, bytes written to conn. */
  datatype Rcv = Rcv(
    nxt: int, ooo: map<int, Segment>, queue: seq<Bytes>, queued: int, fin: bool, finWritten: bool,
    dlv: seq<Item>, written: Bytes)

  /** The connection behind the stream. dials is history: the targets dialled. */
  datatype Link = Link(conn: bool, isOpen: bool, dialing: bool, dials: seq<Bytes>)

  /** The one-slot channels that wake the two goroutines. */
  datatype Wake = Wake(send: bool, write: bool)

  datatype Acks = Acks(advRight: int, pending: int, timerSet: bool)

  /** Where readLoop is: at the top of its loop, waiting on sendCh, inside conn.Read, or returned. */
  datatype Reader = ReadIdle | AtRead | WaitSend | Reading(n: int) | ReadEnded

  /** Where writeLoop is: at the top, waiting on writeCh, inside WriteTo, inside closeWrite, or returned. */
  datatype Writer = WriteIdle | AtWrite | WaitData | Writing(bufs: seq<Bytes>) | Closing | WriteEnded

  datatype ReadResult = ReadOk | ReadEof | ReadFail

  datatype End = End(
    cfg: Config, link: Link, dead: bool, finished: bool, lastHeard: int,
    snd: Snd, rtx: Rtx, rcv: Rcv, acks: Acks, wake: Wake, reader: Reader, writer: Writer,
    out: seq<Frame>, tx: seq<Frame>)
  {
    /** Every frame this end has produced: handed to the pipeline or waiting for unlock. */
    function All(): seq<Frame> { tx + out }
  }

  function New(cfg: Config, conn: bool, now: int): End {
    End(cfg, Link(conn, false, false, []), false, false, now,
        Snd(0, 0, INIT_WINDOW, [], false, [], 0, []),
        Rtx(0, 0, INIT_RTO, 0, 0, 0, now, false, 0),
        Rcv(0, map[], [], 0, false, false, [], []),
        Acks(0, 0, false), Wake(false, false), ReadIdle, WriteIdle, [], [])
  }

  // ---- frames out -----------------------------------------------------------------------

  function Free(e: End): int { Max(e.cfg.window - e.rcv.queued, 0) }

  function AckFrame(e: End, kind: Kind, probe: bool, outOfOrder: bool, num: int, payload: Bytes): Frame {
    Frame(kind, false, probe, outOfOrder, num, e.rcv.nxt, Free(e), payload)
  }

  function FillAck(e: End): Acks {
    Acks(Max(e.acks.advRight, e.rcv.nxt + Free(e)), 0, false)
  }

  function QueueAck(e: End, probe: bool, outOfOrder: bool): End {
    e.(acks := FillAck(e), out := e.out + [AckFrame(e, Ack, probe, outOfOrder, 0, [])])
  }

  function QueueSegmentFrame(e: End, g: Segment): End {
    e.(acks := FillAck(e), out := e.out + [AckFrame(e, g.kind, false, false, g.num, g.data)])
  }

  const RST := Frame(Rst, false, false, false, 0, 0, 0, [])

  function Mark(f: Frame, client: bool): Frame { f.(fromClient := f.fromClient || client) }

  function Marked(fs: seq<Frame>, client: bool): (ms: seq<Frame>)
    ensures |ms| == |fs|
    ensures forall i :: 0 <= i < |fs| ==> ms[i] == Mark(fs[i], client)
  {
    if |fs| == 0 then [] else Marked(fs[..|fs| - 1], client) + [Mark(fs[|fs| - 1], client)]
  }

  /** unlockAndFlush. */
  function Flush(e: End): End {
    e.(out := [], tx := e.tx + Marked(e.out, e.cfg.client))
  }

  // ---- timers ---------------------------------------------------------------------------

  /** Go's integer division, which truncates toward zero. */
  function Quot(a: int, b: int): int
    requires b > 0
  {
    if a >= 0 then a / b else -(-a / b)
  }

  function Pow2(n: nat): nat { if n == 0 then 1 else 2 * Pow2(n - 1) }

  function UpdateRTT(r: Rtx, rtt: int): Rtx {
    var rttvar := if r.srtt == 0 then Quot(rtt, 2)
                  else Quot(3 * r.rttvar + (if r.srtt - rtt < 0 then rtt - r.srtt else r.srtt - rtt), 4);
    var srtt := if r.srtt == 0 then rtt else Quot(7 * r.srtt + rtt, 8);
    r.(srtt := srtt, rttvar := rttvar, rto := Min(Max(srtt + 4 * rttvar, MIN_RTO), MAX_RTO))
  }

  /** Something must be resent, or a closed window must be probed. */
  predicate NeedsTimer(s: Snd) { |s.unacked| > 0 || (s.right <= s.nxt && !s.finQueued) }

  function Armed(r: Rtx, needed: bool): Rtx {
    if !needed then r.(armed := false)
    else r.(armed := true, delay := Min(r.rto * Pow2(r.backoff), MAX_RTO))
  }

  /** armTimerLocked. */
  function ArmTimer(e: End): End { e.(rtx := Armed(e.rtx, !e.dead && NeedsTimer(e.snd))) }

  function ArmIfIdle(e: End): End { if e.rtx.armed then e else ArmTimer(e) }

  // ---- send side ------------------------------------------------------------------------

  /** A segment joins unacked, before its frame is built. */
  function Enqueue(s: Snd, g: Segment): Snd {
    s.(unacked := s.unacked + [g], nxt := s.nxt + g.Len(),
       finQueued := s.finQueued || g.kind == Fin, log := s.log + [Item(g.kind, g.data)])
  }

  /** queueSegmentLocked. */
  function QueueSegment(e: End, kind: Kind, data: Bytes, now: int): End {
    var g := Segment(e.snd.nxt, kind, data, now, false);
    ArmIfIdle(QueueSegmentFrame(e.(snd := Enqueue(e.snd, g)), g))
  }

  /** How many leading segments a cumulative acknowledgement covers. */
  function AckedCount(unacked: seq<Segment>, ack: int): (n: nat)
    ensures n <= |unacked|
  {
    if |unacked| > 0 && unacked[0].End() <= ack then 1 + AckedCount(unacked[1..], ack) else 0
  }

  function Resent(s: Snd, i: nat, now: int): Snd
    requires i < |s.unacked|
  {
    s.(unacked := s.unacked[i := s.unacked[i].(retrans := true, sentAt := now)])
  }

  /** Segment i goes out again. */
  function Resend(e: End, i: nat, now: int): End
    requires i < |e.snd.unacked|
  {
    var e1 := e.(snd := Resent(e.snd, i, now));
    QueueSegmentFrame(e1, e1.snd.unacked[i])
  }

  function FastRetransmit(e: End, now: int): End {
    if |e.snd.unacked| == 0 || now - e.snd.unacked[0].sentAt < e.rtx.srtt + Quot(e.rtx.srtt, 4)
    then e else Resend(e, 0, now)
  }

  /** Karn: only a segment that was sent once gives an RTT sample. */
  function Sample(e: End, n: nat, now: int): Rtx
    requires n <= |e.snd.unacked|
  {
    if n > 0 && !e.snd.unacked[0].retrans then UpdateRTT(e.rtx, now - e.snd.unacked[0].sentAt) else e.rtx
  }

  function Acknowledged(s: Snd, n: nat, ack: int): Snd
    requires n <= |s.unacked|
  {
    s.(unacked := s.unacked[n..], una := ack, acked := s.acked + n)
  }

  /** The branch of processAckLocked taken when the acknowledgement moves sndUna. */
  function Advance(e: End, ack: int, now: int): End {
    var n := AckedCount(e.snd.unacked, ack);
    var e1 := e.(snd := Acknowledged(e.snd, n, ack),
                 rtx := Sample(e, n, now).(backoff := 0, dupAcks := 0, lastProgress := now));
    ArmTimer(if ack < e.rtx.recover then FastRetransmit(e1, now) else e1)
  }

  function CountDuplicate(e: End, now: int): End {
    var n := e.rtx.dupAcks + 1;
    if n == 3 then FastRetransmit(e.(rtx := e.rtx.(dupAcks := n, recover := e.snd.nxt)), now)
    else e.(rtx := e.rtx.(dupAcks := n))
  }

  function OpenWindow(e: End, right: int): End {
    if right > e.snd.right then ArmIfIdle(e.(snd := e.snd.(right := right))) else e
  }

  function Signal(e: End): End {
    if e.snd.right > e.snd.nxt then e.(wake := e.wake.(send := true)) else e
  }

  function ProcessAck(e: End, f: Frame, now: int): End {
    if f.ack > e.snd.nxt then e
    else
      var e1 := if f.ack > e.snd.una then Advance(e, f.ack, now)
                else if f.ack == e.snd.una && f.outOfOrder && |e.snd.unacked| > 0 then CountDuplicate(e, now)
                else e;
      Signal(OpenWindow(e1, f.ack + f.wnd))
  }

  /** onTimer resends segments i.. of unacked. */
  function ResendFrom(e: End, i: nat, now: int): End
    requires i <= |e.snd.unacked|
    decreases |e.snd.unacked| - i
  {
    if i == |e.snd.unacked| then e else ResendFrom(Resend(e, i, now), i + 1, now)
  }

  predicate TimedOut(e: End, now: int) {
    now - (if |e.snd.unacked| > 0 then e.rtx.lastProgress else e.lastHeard) > e.cfg.timeout
  }

  function OnTimer(e: End, now: int): End {
    var e1 := e.(rtx := e.rtx.(armed := false));
    if e1.dead then e1
    else if TimedOut(e1, now) then Flush(Abort(e1, true))
    else
      var e2 := if |e1.snd.unacked| > 0 then ResendFrom(e1, 0, now) else QueueAck(e1, true, false);
      var backoff := if e2.rtx.backoff < 6 then e2.rtx.backoff + 1 else e2.rtx.backoff;
      Flush(ArmTimer(e2.(rtx := e2.rtx.(backoff := backoff))))
  }

  // ---- receive side ---------------------------------------------------------------------

  function Target(cfg: Config, payload: Bytes): Bytes { if cfg.target == [] then payload else cfg.target }

  function Took(r: Rcv, g: Segment): Rcv {
    r.(nxt := r.nxt + g.Len(), dlv := r.dlv + [Item(g.kind, g.data)],
       queue := if g.kind == Data && |g.data| > 0 then r.queue + [g.data] else r.queue,
       queued := if g.kind == Data then r.queued + |g.data| else r.queued,
       fin := r.fin || g.kind == Fin)
  }

  /** deliverLocked. */
  function Deliver(e: End, g: Segment): End {
    var e1 := e.(rcv := Took(e.rcv, g));
    if g.kind == Open && !e.cfg.client && !e.link.isOpen then
      e1.(link := e.link.(isOpen := true, dialing := true, dials := e.link.dials + [Target(e.cfg, g.data)]))
    else if g.kind == Fin || (g.kind == Data && |g.data| > 0) then e1.(wake := e.wake.(write := true))
    else e1
  }

  function DeliverNext(e: End): End
    requires e.rcv.nxt in e.rcv.ooo
  {
    Deliver(e.(rcv := e.rcv.(ooo := e.rcv.ooo - {e.rcv.nxt})), e.rcv.ooo[e.rcv.nxt])
  }

  lemma DeliverNextShrinks(e: End)
    requires e.rcv.nxt in e.rcv.ooo
    ensures |DeliverNext(e).rcv.ooo| < |e.rcv.ooo|
  {
    var rest := e.rcv.ooo - {e.rcv.nxt};
    assert rest.Keys == e.rcv.ooo.Keys - {e.rcv.nxt};
    assert |rest.Keys| < |e.rcv.ooo.Keys|;
    assert |rest| == |rest.Keys| && |e.rcv.ooo| == |e.rcv.ooo.Keys|;
    assert DeliverNext(e).rcv.ooo == rest;
  }

  /** Deliver parked segments while the next one is there. */
  function Drain(e: End): End
    decreases |e.rcv.ooo|
  {
    if e.rcv.nxt in e.rcv.ooo then DeliverNextShrinks(e); Drain(DeliverNext(e)) else e
  }

  function Received(f: Frame): Segment {
    Segment(f.num, f.kind, if f.kind == Fin then [] else f.payload, 0, false)
  }

  function Park(e: End, g: Segment): End {
    if g.num > e.rcv.nxt && g.End() <= e.rcv.nxt + e.cfg.window && g.num !in e.rcv.ooo
    then e.(rcv := e.rcv.(ooo := e.rcv.ooo[g.num := g])) else e
  }

  /** The data frame that line 558 refuses. */
  predicate Refused(e: End, g: Segment) {
    g.kind == Data && e.rcv.queued + |g.data| > e.cfg.window + e.cfg.mss
  }

  function DelayAck(e: End, filled: bool, g: Segment): End {
    var e1 := e.(acks := e.acks.(pending := e.acks.pending + 1));
    if filled || g.kind != Data || e1.acks.pending >= 2 then QueueAck(e1, false, false)
    else e1.(acks := e1.acks.(timerSet := true))
  }

  function ProcessSegment(e: End, f: Frame): End {
    var g := Received(f);
    if g.End() <= e.rcv.nxt then QueueAck(e, false, false)
    else if g.num != e.rcv.nxt then QueueAck(Park(e, g), false, true)
    else if Refused(e, g) then e
    else
      var e1 := Deliver(e, g);
      DelayAck(Drain(e1), e1.rcv.nxt in e1.rcv.ooo, g)
  }

  // ---- end of stream --------------------------------------------------------------------

  /** endLocked. */
  function Die(e: End): End {
    e.(dead := true, snd := e.snd.(unacked := []), rtx := e.rtx.(armed := false),
       rcv := e.rcv.(ooo := map[], queue := []), acks := e.acks.(timerSet := false))
  }

  function MaybeFinish(e: End): End {
    if e.dead || !e.snd.finQueued || e.snd.una != e.snd.nxt || !e.rcv.finWritten then e
    else Die(e.(finished := true))
  }

  function Abort(e: End, notifyPeer: bool): End {
    if e.dead then e else Die(if notifyPeer then e.(out := e.out + [RST]) else e)
  }

  // ---- sections under the lock ----------------------------------------------------------

  function HandleDead(e: End, f: Frame): End {
    if f.kind == Rst then e
    else if !e.finished then e.(out := e.out + [RST])
    else if f.kind != Ack || f.probe then QueueAck(e, false, false)
    else e
  }

  function HandleLive(e: End, f: Frame, now: int): End {
    var e1 := ProcessAck(e, f, now);
    var e2 := if f.Segment() then ProcessSegment(e1, f) else e1;
    var e3 := if f.probe && |e2.out| == 0 then QueueAck(e2, false, false) else e2;
    MaybeFinish(e3)
  }

  function HandleFrame(e: End, f: Frame, now: int): End {
    if e.dead then Flush(HandleDead(e, f))
    else
      var e1 := e.(lastHeard := now);
      Flush(if f.kind == Rst then Abort(e1, false) else HandleLive(e1, f, now))
  }

  function OnAckTimer(e: End): End {
    var e1 := e.(acks := e.acks.(timerSet := false));
    Flush(if !e1.dead && e1.acks.pending > 0 then QueueAck(e1, false, false) else e1)
  }

  function CheckOpened(e: End): End {
    Flush(if !e.link.isOpen then Abort(e, true) else e)
  }

  function Stop(e: End): End { Flush(Abort(e, true)) }

  function StartLoops(e: End): End { e.(reader := AtRead, writer := AtWrite) }

  /** dial returned. */
  function Dialed(e: End, ok: bool): End {
    var e1 := e.(link := e.link.(dialing := false));
    if !ok then Flush(Abort(e1, true))
    else if e1.dead then e1
    else Flush(StartLoops(e1.(link := e1.link.(conn := true))))
  }

  /** tcpStreamEndpoint.open on an accepted connection. */
  function Opened(cfg: Config, target: Bytes, now: int): End {
    Flush(StartLoops(QueueSegment(New(cfg, true, now), Open, target, now)))
  }

  predicate CanSend(e: End) {
    var space := e.snd.right - e.snd.nxt;
    space >= e.cfg.mss || (space > 0 && |e.snd.unacked| == 0)
  }

  function ReadCheck(e: End): End {
    if e.dead then e.(reader := ReadEnded)
    else if CanSend(e) then e.(reader := Reading(Min(e.snd.right - e.snd.nxt, e.cfg.mss)))
    else ArmIfIdle(e).(reader := WaitSend)
  }

  /** The select on sendCh and done. */
  function ReadWake(e: End): End { e.(reader := AtRead, wake := e.wake.(send := false)) }

  /** conn.Read returned data and err. */
  function ReadDone(e: End, data: Bytes, res: ReadResult, now: int): End {
    var e0 := e.(snd := e.snd.(read := e.snd.read + data));
    if e0.dead then e0.(reader := ReadEnded)
    else
      var e1 := if |data| > 0 then QueueSegment(e0, Data, data, now) else e0;
      match res
      case ReadOk => Flush(e1.(reader := AtRead))
      case ReadEof => Flush(MaybeFinish(QueueSegment(e1, Fin, [], now).(reader := ReadEnded)))
      case ReadFail => Flush(Abort(e1.(reader := ReadEnded), true))
  }

  function WriteCheck(e: End): End {
    if e.dead then e.(writer := WriteEnded)
    else if |e.rcv.queue| == 0 then e.(writer := if e.rcv.fin then Closing else WaitData)
    else e.(writer := Writing(e.rcv.queue), rcv := e.rcv.(queue := []))
  }

  function WriteWake(e: End): End { e.(writer := AtWrite, wake := e.wake.(write := false)) }

  /** The writer tells the peer once its window has opened by a quarter. */
  predicate WorthUpdating(e: End) {
    e.rcv.nxt + Free(e) >= e.acks.advRight + e.cfg.window / 4
  }

  /** bufs.WriteTo returned n and err. */
  function WriteDone(e: End, n: nat, failed: bool): End
    requires e.writer.Writing? && n <= |Flatten(e.writer.bufs)|
  {
    var e1 := e.(rcv := e.rcv.(written := e.rcv.written + Flatten(e.writer.bufs)[..n]));
    if failed then Flush(Abort(e1.(writer := WriteEnded), true))
    else
      var e2 := e1.(writer := AtWrite, rcv := e1.rcv.(queued := e1.rcv.queued - n));
      Flush(if WorthUpdating(e2) then QueueAck(e2, false, false) else e2)
  }

  /** closeWrite returned. */
  function WriteClosed(e: End): End {
    Flush(MaybeFinish(e.(writer := WriteEnded, rcv := e.rcv.(finWritten := true))))
  }

  // ---- one end as a transition system ---------------------------------------------------

  datatype Event =
    | Recv(f: Frame, now: int)
    | TimerFires(now: int)
    | AckTimerFires
    | OpenTimeout
    | Stopped
    | DialReturns(ok: bool)
    | ReadChecks
    | ReadWakes
    | ReadReturns(data: Bytes, res: ReadResult, at: int)
    | WriteChecks
    | WriteWakes
    | WriteReturns(n: nat, failed: bool)
    | WriteCloses

  /** Timers may fire late, so their callbacks are always possible. */
  predicate Enabled(e: End, ev: Event) {
    match ev
    case Recv(f, _) => f.fromClient != e.cfg.client
    case OpenTimeout => !e.cfg.client
    case DialReturns(_) => e.link.dialing
    case ReadChecks => e.reader == AtRead
    case ReadWakes => e.reader == WaitSend && (e.wake.send || e.dead)
    case ReadReturns(data, _, _) => e.reader.Reading? && |data| <= e.reader.n
    case WriteChecks => e.writer == AtWrite
    case WriteWakes => e.writer == WaitData && (e.wake.write || e.dead)
    case WriteReturns(n, failed) =>
      e.writer.Writing? && n <= |Flatten(e.writer.bufs)| && (failed || n == |Flatten(e.writer.bufs)|)
    case WriteCloses => e.writer == Closing
    case _ => true
  }

  function Step(e: End, ev: Event): End
    requires Enabled(e, ev)
  {
    match ev
    case Recv(f, now) => HandleFrame(e, f, now)
    case TimerFires(now) => OnTimer(e, now)
    case AckTimerFires => OnAckTimer(e)
    case OpenTimeout => CheckOpened(e)
    case Stopped => Stop(e)
    case DialReturns(ok) => Dialed(e, ok)
    case ReadChecks => ReadCheck(e)
    case ReadWakes => ReadWake(e)
    case ReadReturns(data, res, now) => ReadDone(e, data, res, now)
    case WriteChecks => WriteCheck(e)
    case WriteWakes => WriteWake(e)
    case WriteReturns(n, failed) => WriteDone(e, n, failed)
    case WriteCloses => WriteClosed(e)
  }
}
