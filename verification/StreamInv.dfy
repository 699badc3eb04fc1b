/**
 * What every section of src/tcp_stream.go keeps true of its own end, given that the frames it
 * receives were produced by a peer whose log of queued items is plog.
 */
module StreamInv {
  import opened Bytes
  import opened StreamTypes
  import opened StreamEnd

  /** OPEN only first and only from the client, FIN only last, no empty data. */
  ghost predicate LogOk(client: bool, log: seq<Item>) {
    && Positive(log)
    && (client ==> |log| > 0)
    && (forall i :: 0 <= i < |log| ==>
          && (log[i].kind == Open || log[i].kind == Data || log[i].kind == Fin)
          && (log[i].kind == Open <==> client && i == 0)
          && (log[i].kind == Fin ==> i == |log| - 1 && log[i].data == []))
  }

  ghost predicate Matches(g: Segment, log: seq<Item>, i: int) {
    ItemAt(log, i, g.num, g.kind, g.data)
  }

  /** unacked is exactly the unacknowledged tail of the log. */
  ghost predicate Tiles(unacked: seq<Segment>, log: seq<Item>, acked: nat) {
    && acked + |unacked| == |log|
    && (forall i :: 0 <= i < |unacked| ==> Matches(unacked[i], log, acked + i))
  }

  ghost predicate EndsBy(log: seq<Item>, i: int, right: int) {
    0 <= i < |log| && log[i].kind == Data ==> Start(log, i) + log[i].Len() <= right
  }

  /** Every data item was sent inside the peer's window. */
  ghost predicate InWindow(log: seq<Item>, right: int) {
    forall i :: EndsBy(log, i, right)
  }

  ghost predicate SndInv(cfg: Config, dead: bool, reader: Reader, s: Snd) {
    && LogOk(cfg.client, s.log)
    && s.acked <= |s.log| && s.una == Start(s.log, s.acked) && s.nxt == Size(s.log)
    && (if dead then s.unacked == [] else Tiles(s.unacked, s.log, s.acked))
    && (s.finQueued <==> EndsWithFin(s.log))
    && InWindow(s.log, s.right)
    && s.nxt <= s.right + (if s.finQueued then 1 else 0)
    && (s.finQueued ==> reader == ReadEnded)
    && (reader.Reading? ==> 1 <= reader.n <= cfg.mss && s.nxt + reader.n <= s.right)
    && DataOf(s.log) <= s.read
    && (!dead || s.finQueued ==> s.read == DataOf(s.log))
  }

  function InFlight(w: Writer): Bytes { if w.Writing? then Flatten(w.bufs) else [] }

  ghost predicate ParkedAt(ooo: map<int, Segment>, plog: seq<Item>, lo: int, k: int) {
    k in ooo ==> k >= lo && ooo[k].num == k && Queued(plog, k, ooo[k].kind, ooo[k].data)
  }

  /** Parked segments are items of the peer's log that start at lo or later. */
  ghost predicate Parked(ooo: map<int, Segment>, plog: seq<Item>, lo: int) {
    forall k :: ParkedAt(ooo, plog, lo, k)
  }

  /** The receive invariant, except that the next segment may still be parked. */
  ghost predicate RcvCore(dead: bool, writer: Writer, r: Rcv, plog: seq<Item>) {
    && r.dlv <= plog && r.nxt == Size(r.dlv)
    && Parked(r.ooo, plog, r.nxt)
    && (r.fin <==> EndsWithFin(r.dlv))
    && r.written + InFlight(writer) <= DataOf(r.dlv)
    && |InFlight(writer)| <= r.queued
    && (if dead then r.queue == [] && r.ooo == map[]
        else r.written + InFlight(writer) + Flatten(r.queue) == DataOf(r.dlv)
             && r.queued == |InFlight(writer)| + |Flatten(r.queue)|)
    && (writer == Closing || r.finWritten ==> r.fin && r.written == DataOf(r.dlv))
  }

  ghost predicate RcvInv(dead: bool, writer: Writer, r: Rcv, plog: seq<Item>) {
    RcvCore(dead, writer, r, plog) && r.nxt !in r.ooo
  }

  ghost predicate LinkInv(cfg: Config, l: Link, dlv: seq<Item>, reader: Reader, writer: Writer) {
    && (l.isOpen <==> !cfg.client && |dlv| > 0)
    && |l.dials| == (if l.isOpen then 1 else 0)
    && (l.isOpen ==> l.dials[0] == Target(cfg, dlv[0].data))
    && (l.dialing ==> l.isOpen && !l.conn)
    && (!cfg.client && l.conn ==> l.isOpen)
    && (!l.conn ==> reader == ReadIdle && writer == WriteIdle)
  }

  function Edge(f: Frame): int { f.ack + f.wnd }

  /** The right edge of the window an end would advertise now. */
  function RightEdge(cfg: Config, r: Rcv): int { r.nxt + Max(cfg.window - r.queued, 0) }

  /** A frame tells the truth about the end that produced it. */
  ghost predicate FrameOk(f: Frame, cfg: Config, log: seq<Item>, r: Rcv) {
    f.kind == Rst || (
      && Boundary(r.dlv, f.ack) && f.ack <= r.nxt
      && 0 <= f.wnd <= cfg.window && Edge(f) <= RightEdge(cfg, r)
      && (f.Segment() ==> Queued(log, f.num, f.kind, f.payload)))
  }

  /** Acknowledgements and right edges never move backwards. */
  ghost predicate Ordered(f: Frame, g: Frame) {
    f.kind == Rst || g.kind == Rst || (f.ack <= g.ack && Edge(f) <= Edge(g))
  }

  ghost predicate FramesInv(cfg: Config, log: seq<Item>, r: Rcv, tx: seq<Frame>, out: seq<Frame>) {
    && (forall f :: f in tx + out ==> FrameOk(f, cfg, log, r))
    && (forall i, j :: 0 <= i < j < |tx + out| ==> Ordered((tx + out)[i], (tx + out)[j]))
    && (forall f :: f in tx ==> f.fromClient == cfg.client)
    && (forall f :: f in out ==> !f.fromClient)
  }

  /** What frames are judged against only ever grows. */
  ghost predicate Grows(cfg: Config, log: seq<Item>, r: Rcv, log': seq<Item>, r': Rcv) {
    && log <= log' && r.dlv <= r'.dlv
    && r.nxt <= r'.nxt && RightEdge(cfg, r) <= RightEdge(cfg, r')
  }

  lemma FrameOkGrows(f: Frame, cfg: Config, log: seq<Item>, r: Rcv, log': seq<Item>, r': Rcv)
    requires Grows(cfg, log, r, log', r') && FrameOk(f, cfg, log, r)
    ensures FrameOk(f, cfg, log', r')
  {
    if f.kind != Rst {
      BoundaryGrows(r.dlv, r'.dlv, f.ack);
      if f.Segment() { QueuedGrows(log, log', f.num, f.kind, f.payload); }
    }
  }

  lemma FramesGrow(cfg: Config, log: seq<Item>, r: Rcv, tx: seq<Frame>, out: seq<Frame>, log': seq<Item>, r': Rcv)
    requires Grows(cfg, log, r, log', r') && FramesInv(cfg, log, r, tx, out)
    ensures FramesInv(cfg, log', r', tx, out)
  {
    forall f | f in tx + out ensures FrameOk(f, cfg, log', r') { FrameOkGrows(f, cfg, log, r, log', r'); }
  }

  /** One more frame, describing the present state. */
  lemma FramesAppend(cfg: Config, log: seq<Item>, r: Rcv, tx: seq<Frame>, out: seq<Frame>, f: Frame)
    requires FramesInv(cfg, log, r, tx, out)
    requires FrameOk(f, cfg, log, r) && !f.fromClient
    requires f.kind == Rst || (f.ack == r.nxt && Edge(f) == RightEdge(cfg, r))
    ensures FramesInv(cfg, log, r, tx, out + [f])
  {
    var all, all' := tx + out, tx + (out + [f]);
    assert all' == all + [f];
    forall i, j | 0 <= i < j < |all'| ensures Ordered(all'[i], all'[j]) {
      assert all[i] in all;
      assert FrameOk(all[i], cfg, log, r);
      if j < |all| { assert Ordered(all[i], all[j]); }
    }
  }

  lemma FramesFlush(cfg: Config, log: seq<Item>, r: Rcv, tx: seq<Frame>, out: seq<Frame>)
    requires FramesInv(cfg, log, r, tx, out)
    ensures FramesInv(cfg, log, r, tx + Marked(out, cfg.client), [])
  {
    var all := tx + out;
    var all' := tx + Marked(out, cfg.client) + [];
    assert |all'| == |all|;
    forall i | 0 <= i < |all|
      ensures all'[i] == all[i] || all'[i] == Mark(all[i], cfg.client)
    {}
    forall i | 0 <= i < |all'| ensures FrameOk(all'[i], cfg, log, r) {
      assert all[i] in all;
    }
    forall i, j | 0 <= i < j < |all'| ensures Ordered(all'[i], all'[j]) {
      assert Ordered(all[i], all[j]);
    }
    forall i | 0 <= i < |all'| ensures all'[i].fromClient == cfg.client {
      if i < |tx| { assert all[i] in tx; } else { assert out[i - |tx|] in out; }
    }
  }

  lemma FramesAck(e: End, kind: Kind, probe: bool, outOfOrder: bool, num: int, payload: Bytes)
    requires FramesInv(e.cfg, e.snd.log, e.rcv, e.tx, e.out)
    requires e.rcv.nxt == Size(e.rcv.dlv) && e.rcv.queued >= 0 && e.cfg.Valid()
    requires kind == Ack || (kind != Rst && Queued(e.snd.log, num, kind, payload))
    ensures FramesInv(e.cfg, e.snd.log, e.rcv, e.tx, e.out + [AckFrame(e, kind, probe, outOfOrder, num, payload)])
  {
    StartEnd(e.rcv.dlv);
    assert BoundaryAt(e.rcv.dlv, |e.rcv.dlv|, e.rcv.nxt);
    FramesAppend(e.cfg, e.snd.log, e.rcv, e.tx, e.out, AckFrame(e, kind, probe, outOfOrder, num, payload));
  }

  // ---- send side ------------------------------------------------------------------------

  /** Only copies of segments differ: retransmission marks and times. */
  ghost predicate SameSent(s: Snd, s': Snd) {
    && s' == s.(unacked := s'.unacked)
    && |s'.unacked| == |s.unacked|
    && (forall i :: 0 <= i < |s.unacked| ==>
          s'.unacked[i] == s.unacked[i].(retrans := s'.unacked[i].retrans, sentAt := s'.unacked[i].sentAt))
  }

  lemma SameSentInv(cfg: Config, dead: bool, reader: Reader, s: Snd, s': Snd)
    requires SndInv(cfg, dead, reader, s) && SameSent(s, s')
    ensures SndInv(cfg, dead, reader, s')
  {
    if !dead {
      forall i | 0 <= i < |s'.unacked| ensures Matches(s'.unacked[i], s.log, s.acked + i) {
        assert Matches(s.unacked[i], s.log, s.acked + i);
      }
    }
  }

  lemma UnackedQueued(cfg: Config, reader: Reader, s: Snd, i: nat)
    requires SndInv(cfg, false, reader, s) && i < |s.unacked|
    ensures var g := s.unacked[i];
            Queued(s.log, g.num, g.kind, g.data)
            && (g.kind == Open || g.kind == Data || g.kind == Fin)
            && s.una <= g.num < g.End() <= s.nxt && g.num == Start(s.log, s.acked + i)
  {
    assert Matches(s.unacked[i], s.log, s.acked + i);
    StartMonotone(s.log, s.acked, s.acked + i);
    StartNext(s.log, s.acked + i);
    StartMonotone(s.log, s.acked + i + 1, |s.log|);
    StartEnd(s.log);
  }

  lemma UnaNxt(cfg: Config, dead: bool, reader: Reader, s: Snd)
    requires SndInv(cfg, dead, reader, s)
    ensures s.una <= s.nxt && (s.una == s.nxt <==> s.acked == |s.log|)
    ensures !dead ==> (s.una == s.nxt <==> s.unacked == [])
  {
    StartInjective(s.log, s.acked, |s.log|);
    StartEnd(s.log);
    StartMonotone(s.log, s.acked, |s.log|);
  }

  /** What a caller of queueSegmentLocked guarantees. */
  ghost predicate MayQueue(cfg: Config, reader: Reader, s: Snd, kind: Kind, data: Bytes) {
    && !reader.Reading? && kind != Ack && kind != Rst
    && (kind == Open ==> cfg.client && s == New(cfg, true, 0).snd)
    && (kind != Open ==> SndInv(cfg, false, reader, s.(read := DataOf(s.log))) && !s.finQueued)
    && (kind == Data ==> |data| > 0 && s.nxt + |data| <= s.right
                         && DataOf(s.log) + data == s.read)
    && (kind == Fin ==> data == [] && reader == ReadEnded)
    && (kind != Data ==> DataOf(s.log) == s.read)
  }

  lemma EmptyTiles(log: seq<Item>, right: int)
    ensures Size([]) == 0 && (log == [] ==> Tiles([], log, 0) && InWindow(log, right))
  {
  }

  lemma TilesAppend(unacked: seq<Segment>, log: seq<Item>, acked: nat, g: Segment)
    requires Tiles(unacked, log, acked) && g.num == Size(log)
    ensures Tiles(unacked + [g], log + [Item(g.kind, g.data)], acked)
  {
    var log' := log + [Item(g.kind, g.data)];
    StartEnd(log);
    StartPrefix(log, log', |log|);
    forall i | 0 <= i < |unacked + [g]| ensures Matches((unacked + [g])[i], log', acked + i) {
      if i < |unacked| {
        assert Matches(unacked[i], log, acked + i);
        StartPrefix(log, log', acked + i);
      }
    }
  }

  lemma InWindowAppend(log: seq<Item>, it: Item, right: int)
    requires InWindow(log, right) && (it.kind == Data ==> Size(log) + it.Len() <= right)
    ensures InWindow(log + [it], right)
  {
    var log' := log + [it];
    StartEnd(log);
    StartPrefix(log, log', |log|);
    forall i ensures EndsBy(log', i, right) {
      assert EndsBy(log, i, right);
      if 0 <= i < |log| { StartPrefix(log, log', i); }
    }
  }

  lemma LogOkAppend(client: bool, log: seq<Item>, it: Item)
    requires if it.kind == Open then client && log == [] else LogOk(client, log) && !EndsWithFin(log)
    requires it.kind != Ack && it.kind != Rst
    requires (it.kind == Data ==> |it.data| > 0) && (it.kind == Fin ==> it.data == [])
    ensures LogOk(client, log + [it]) && (EndsWithFin(log + [it]) <==> it.kind == Fin)
  {
  }

  lemma EnqueueInv(cfg: Config, reader: Reader, s: Snd, kind: Kind, data: Bytes, now: int)
    requires MayQueue(cfg, reader, s, kind, data)
    ensures var g := Segment(s.nxt, kind, data, now, false);
            SndInv(cfg, false, reader, Enqueue(s, g)) && Queued(Enqueue(s, g).log, g.num, kind, data)
    ensures s.una <= s.nxt
  {
    hide Tiles, InWindow, Start, Size, LogOk, EndsWithFin, DataOf, Controls, Queued;
    var it := Item(kind, data);
    var log' := s.log + [it];
    StartEnd(s.log);
    Append(s.log, it);
    StartPrefix(s.log, log', |s.log|);
    StartPrefix(s.log, log', s.acked);
    assert ItemAt(log', |s.log|, s.nxt, kind, data);
    EmptyTiles(s.log, s.right);
    LogOkAppend(cfg.client, s.log, it);
    TilesAppend(s.unacked, s.log, s.acked, Segment(s.nxt, kind, data, now, false));
    InWindowAppend(s.log, it, s.right);
    StartMonotone(s.log, s.acked, |s.log|);
    assert Queued(log', s.nxt, kind, data) by { QueuedAt(log', |s.log|, s.nxt, kind, data); }
  }

  lemma QueuedAt(log: seq<Item>, i: int, num: int, kind: Kind, data: Bytes)
    requires ItemAt(log, i, num, kind, data)
    ensures Queued(log, num, kind, data)
  {
  }

  /** Nothing moved but what the two sides' own functions say. */
  ghost predicate Quiet(e: End, e': End) {
    && e'.cfg == e.cfg && e'.link == e.link && e'.dead == e.dead && e'.finished == e.finished
    && e'.lastHeard == e.lastHeard && e'.rcv == e.rcv && e'.reader == e.reader && e'.writer == e.writer
    && e'.tx == e.tx && e.out <= e'.out && e'.wake.write == e.wake.write
  }

  /** No frame put out by this step lies below una. */
  ghost predicate NewAbove(out: seq<Frame>, out': seq<Frame>, una: int) {
    forall i :: |out| <= i < |out'| ==> out'[i].Segment() ==> out'[i].num >= una
  }

  ghost predicate EndSane(e: End) {
    e.cfg.Valid() && e.rcv.nxt == Size(e.rcv.dlv) && e.rcv.queued >= 0
    && FramesInv(e.cfg, e.snd.log, e.rcv, e.tx, e.out)
  }

  lemma QueueSegmentInv(e: End, kind: Kind, data: Bytes, now: int)
    requires EndSane(e) && !e.dead && MayQueue(e.cfg, e.reader, e.snd, kind, data)
    ensures var e' := QueueSegment(e, kind, data, now);
            SndInv(e'.cfg, false, e'.reader, e'.snd) && EndSane(e') && Quiet(e, e')
            && e'.snd == Enqueue(e.snd, Segment(e.snd.nxt, kind, data, now, false))
            && NewAbove(e.out, e'.out, e.snd.una)
  {
    hide SndInv, FramesInv, MayQueue;
    var g := Segment(e.snd.nxt, kind, data, now, false);
    EnqueueInv(e.cfg, e.reader, e.snd, kind, data, now);
    var e1 := e.(snd := Enqueue(e.snd, g));
    FramesGrow(e.cfg, e.snd.log, e.rcv, e.tx, e.out, e1.snd.log, e.rcv);
    QueuedKind(e, kind, data);
    FramesAck(e1, kind, false, false, g.num, data);
  }

  lemma QueuedKind(e: End, kind: Kind, data: Bytes)
    requires MayQueue(e.cfg, e.reader, e.snd, kind, data)
    ensures kind != Rst && kind != Ack
  {}

  lemma ResendInv(e: End, i: nat, now: int)
    requires EndSane(e) && SndInv(e.cfg, false, e.reader, e.snd) && i < |e.snd.unacked|
    ensures var e' := Resend(e, i, now);
            SndInv(e'.cfg, false, e'.reader, e'.snd) && EndSane(e') && Quiet(e, e')
            && SameSent(e.snd, e'.snd) && NewAbove(e.out, e'.out, e.snd.una)
            && e'.rtx == e.rtx && |e'.out| > |e.out|
  {
    hide SndInv, FramesInv;
    UnackedQueued(e.cfg, e.reader, e.snd, i);
    var s' := Resent(e.snd, i, now);
    SameSentInv(e.cfg, false, e.reader, e.snd, s');
    var g := s'.unacked[i];
    FramesAck(e.(snd := s'), g.kind, false, false, g.num, g.data);
  }

  lemma FastRetransmitInv(e: End, now: int)
    requires EndSane(e) && SndInv(e.cfg, false, e.reader, e.snd)
    ensures var e' := FastRetransmit(e, now);
            SndInv(e'.cfg, false, e'.reader, e'.snd) && EndSane(e') && Quiet(e, e')
            && SameSent(e.snd, e'.snd) && NewAbove(e.out, e'.out, e.snd.una) && e'.rtx == e.rtx
  {
    hide SndInv, FramesInv, Resend, EndSane;
    if FastRetransmit(e, now) != e { ResendInv(e, 0, now); }
  }

  /** The loop of processAckLocked removes exactly the segments before a boundary. */
  lemma {:induction false} AckedCountIs(unacked: seq<Segment>, log: seq<Item>, acked: nat, k: nat)
    requires Positive(log) && Tiles(unacked, log, acked) && acked <= k <= |log|
    ensures AckedCount(unacked, Start(log, k)) == k - acked
    decreases |unacked|
  {
    if |unacked| > 0 {
      assert Matches(unacked[0], log, acked);
      StartNext(log, acked);
      StartInjective(log, acked + 1, k);
      if acked < k {
        forall i | 0 <= i < |unacked[1..]| ensures Matches(unacked[1..][i], log, acked + 1 + i) {
          assert Matches(unacked[i + 1], log, acked + (i + 1));
        }
        AckedCountIs(unacked[1..], log, acked + 1, k);
      }
    }
  }

  lemma AcknowledgedCount(cfg: Config, reader: Reader, s: Snd, k: nat)
    requires SndInv(cfg, false, reader, s) && k <= |s.log|
    ensures Start(s.log, k) <= s.nxt
    ensures Start(s.log, k) > s.una <==> k > s.acked
    ensures s.acked <= k ==> AckedCount(s.unacked, Start(s.log, k)) == k - s.acked
    ensures |s.unacked| == |s.log| - s.acked
  {
    StartMonotone(s.log, k, |s.log|);
    StartEnd(s.log);
    StartInjective(s.log, s.acked, k);
    if s.acked <= k { AckedCountIs(s.unacked, s.log, s.acked, k); }
  }

  lemma TilesDrop(unacked: seq<Segment>, log: seq<Item>, acked: nat, n: nat)
    requires Tiles(unacked, log, acked) && acked + n <= |log|
    ensures n <= |unacked| && Tiles(unacked[n..], log, acked + n)
  {
    var rest := unacked[n..];
    forall i | 0 <= i < |rest| ensures Matches(rest[i], log, acked + n + i) {
      assert Matches(unacked[n + i], log, acked + (n + i));
    }
  }

  lemma AcknowledgedInv(cfg: Config, reader: Reader, s: Snd, k: nat)
    requires SndInv(cfg, false, reader, s) && s.acked <= k <= |s.log|
    ensures SndInv(cfg, false, reader, Acknowledged(s, k - s.acked, Start(s.log, k)))
  {
    hide Tiles, Start, Size, InWindow, LogOk, DataOf;
    TilesDrop(s.unacked, s.log, s.acked, k - s.acked);
  }

  ghost predicate AckEffect(e: End, e': End, ack: int, right: int) {
    && Quiet(e, e')
    && e'.snd.log == e.snd.log && e'.snd.read == e.snd.read && e'.snd.nxt == e.snd.nxt
    && e'.snd.finQueued == e.snd.finQueued && e.snd.acked <= e'.snd.acked
    && e'.snd.una == Max(e.snd.una, ack) && e'.snd.right == Max(e.snd.right, right)
    && NewAbove(e.out, e'.out, e'.snd.una)
  }

  lemma AdvanceInv(e: End, k: nat, now: int)
    requires EndSane(e) && !e.dead && SndInv(e.cfg, false, e.reader, e.snd)
    requires e.snd.acked < k <= |e.snd.log|
    ensures var e' := Advance(e, Start(e.snd.log, k), now);
            SndInv(e'.cfg, false, e'.reader, e'.snd) && EndSane(e')
            && AckEffect(e, e', Start(e.snd.log, k), e.snd.right) && e'.snd.acked == k
  {
    hide SndInv, FramesInv, Start, FastRetransmit;
    var ack := Start(e.snd.log, k);
    AcknowledgedCount(e.cfg, e.reader, e.snd, k);
    AcknowledgedInv(e.cfg, e.reader, e.snd, k);
    var n := AckedCount(e.snd.unacked, ack);
    var e1 := e.(snd := Acknowledged(e.snd, n, ack),
                 rtx := Sample(e, n, now).(backoff := 0, dupAcks := 0, lastProgress := now));
    FastRetransmitInv(e1, now);
  }

  lemma CountDuplicateInv(e: End, now: int)
    requires EndSane(e) && !e.dead && SndInv(e.cfg, false, e.reader, e.snd)
    ensures var e' := CountDuplicate(e, now);
            SndInv(e'.cfg, false, e'.reader, e'.snd) && EndSane(e')
            && AckEffect(e, e', e.snd.una, e.snd.right) && e'.snd.acked == e.snd.acked
  {
    hide SndInv, FramesInv, FastRetransmit;
    var n := e.rtx.dupAcks + 1;
    if n == 3 { FastRetransmitInv(e.(rtx := e.rtx.(dupAcks := n, recover := e.snd.nxt)), now); }
  }

  lemma RightInv(cfg: Config, reader: Reader, s: Snd, right: int)
    requires SndInv(cfg, false, reader, s) && s.right <= right
    ensures SndInv(cfg, false, reader, s.(right := right))
  {
    forall i ensures EndsBy(s.log, i, right) { assert EndsBy(s.log, i, s.right); }
  }

  lemma OpenWindowInv(e: End, right: int)
    requires EndSane(e) && !e.dead && SndInv(e.cfg, false, e.reader, e.snd)
    ensures var e' := Signal(OpenWindow(e, right));
            SndInv(e'.cfg, false, e'.reader, e'.snd) && EndSane(e')
            && AckEffect(e, e', e.snd.una, right) && e'.snd.acked == e.snd.acked && e'.out == e.out
  {
    hide FramesInv, SndInv;
    if right > e.snd.right { RightInv(e.cfg, e.reader, e.snd, right); }
  }

  lemma ProcessAckInv(e: End, f: Frame, now: int)
    requires EndSane(e) && !e.dead && SndInv(e.cfg, false, e.reader, e.snd)
    requires Boundary(e.snd.log, f.ack)
    ensures var e' := ProcessAck(e, f, now);
            SndInv(e'.cfg, false, e'.reader, e'.snd) && EndSane(e') && AckEffect(e, e', f.ack, Edge(f))
            && (e'.snd.acked == e.snd.acked || BoundaryAt(e.snd.log, e'.snd.acked, f.ack))
  {
    hide SndInv, FramesInv, Start, Advance, CountDuplicate, OpenWindow, Signal, EndSane;
    var k :| BoundaryAt(e.snd.log, k, f.ack);
    AcknowledgedCount(e.cfg, e.reader, e.snd, k);
    if f.ack > e.snd.una {
      AdvanceInv(e, k, now);
      OpenWindowInv(Advance(e, f.ack, now), Edge(f));
    } else if f.ack == e.snd.una && f.outOfOrder && |e.snd.unacked| > 0 {
      CountDuplicateInv(e, now);
      OpenWindowInv(CountDuplicate(e, now), Edge(f));
    } else {
      OpenWindowInv(e, Edge(f));
    }
  }

  // ---- receive side ---------------------------------------------------------------------

  /** The item the receiver is waiting for is the one at its own boundary. */
  lemma NextItem(dlv: seq<Item>, plog: seq<Item>, num: int, kind: Kind, data: Bytes)
    requires dlv <= plog && Positive(plog) && Queued(plog, num, kind, data)
    ensures num == Size(dlv) ==> |dlv| < |plog| && plog[|dlv|] == Item(kind, data)
    ensures num > Size(dlv) ==> |dlv| < |plog| && num >= Start(plog, |dlv| + 1)
    ensures num >= Size(dlv) <==> num + Item(kind, data).Len() > Size(dlv)
  {
    var i :| ItemAt(plog, i, num, kind, data);
    StartEnd(dlv);
    StartPrefix(dlv, plog, |dlv|);
    StartInjective(plog, i, |dlv|);
    StartNext(plog, i);
    if i > |dlv| { StartMonotone(plog, |dlv| + 1, i); }
    if i < |dlv| { StartMonotone(plog, i + 1, |dlv|); }
  }

  lemma ParkedAbove(r: Rcv, plog: seq<Item>)
    requires r.dlv <= plog && r.nxt == Size(r.dlv) && Positive(plog) && |r.dlv| < |plog|
    requires Parked(r.ooo, plog, r.nxt) && r.nxt !in r.ooo
    ensures Parked(r.ooo, plog, r.nxt + plog[|r.dlv|].Len())
  {
    var next := r.nxt + plog[|r.dlv|].Len();
    StartEnd(r.dlv);
    StartPrefix(r.dlv, plog, |r.dlv|);
    StartNext(plog, |r.dlv|);
    forall k ensures ParkedAt(r.ooo, plog, next, k) {
      assert ParkedAt(r.ooo, plog, r.nxt, k);
      if k in r.ooo { NextItem(r.dlv, plog, k, r.ooo[k].kind, r.ooo[k].data); }
    }
  }

  /** g is the next item of the peer's log. */
  ghost predicate Next(r: Rcv, g: Segment, plog: seq<Item>) {
    g.num == r.nxt && Queued(plog, g.num, g.kind, g.data)
  }

  /** The bytes waiting for conn when item it is delivered next. */
  lemma TookData(dlv: seq<Item>, queue: seq<Bytes>, done: Bytes, it: Item)
    requires done + Flatten(queue) == DataOf(dlv)
    requires it.kind == Data || it.kind == Open || it.kind == Fin
    ensures var queue' := if it.kind == Data && |it.data| > 0 then queue + [it.data] else queue;
            done + Flatten(queue') == DataOf(dlv + [it])
            && |Flatten(queue')| == |Flatten(queue)| + (if it.kind == Data then |it.data| else 0)
  {
    Append(dlv, it);
    FlattenAppend(queue, it.data);
    assert done + (Flatten(queue) + it.data) == (done + Flatten(queue)) + it.data;
  }

  lemma TookInv(cfg: Config, writer: Writer, r: Rcv, g: Segment, plog: seq<Item>)
    requires RcvInv(false, writer, r, plog) && LogOk(!cfg.client, plog) && Next(r, g, plog)
    ensures RcvCore(false, writer, Took(r, g), plog)
    ensures Took(r, g).ooo == r.ooo
    ensures !r.fin && |r.dlv| < |plog| && plog[|r.dlv|] == Item(g.kind, g.data)
    ensures r.dlv <= Took(r, g).dlv
    ensures RightEdge(cfg, r) <= RightEdge(cfg, Took(r, g))
  {
    hide Parked, Flatten, DataOf, Size, Queued;
    var it := Item(g.kind, g.data);
    var r' := Took(r, g);
    NextItem(r.dlv, plog, g.num, g.kind, g.data);
    assert r.fin ==> r.dlv == plog;
    Append(r.dlv, it);
    assert r'.dlv <= plog;
    ParkedAbove(r, plog);
    TookData(r.dlv, r.queue, r.written + InFlight(writer), it);
    DataOfPrefix(r.dlv, r'.dlv);
  }

  /** Only the receive side moved. */
  ghost predicate SegEffect(e: End, e': End) {
    && e'.cfg == e.cfg && e'.dead == e.dead && e'.finished == e.finished && e'.lastHeard == e.lastHeard
    && e'.snd == e.snd && e'.rtx == e.rtx && e'.reader == e.reader && e'.writer == e.writer
    && e'.wake.send == e.wake.send && e'.tx == e.tx && e.out <= e'.out
    && e.rcv.dlv <= e'.rcv.dlv && e'.rcv.written == e.rcv.written && e'.rcv.finWritten == e.rcv.finWritten
    && e.rcv.nxt <= e'.rcv.nxt && RightEdge(e.cfg, e.rcv) <= RightEdge(e.cfg, e'.rcv)
    && NewAbove(e.out, e'.out, e.snd.nxt)
  }

  lemma DlvOf(writer: Writer, r: Rcv, plog: seq<Item>)
    requires RcvInv(false, writer, r, plog)
    ensures r.dlv <= plog
  {
  }

  /** What delivering does besides the receive side: a dial, or a wake-up. */
  lemma DeliverEffect(e: End, g: Segment)
    ensures var e' := Deliver(e, g);
            e' == e.(rcv := Took(e.rcv, g), link := e'.link, wake := e'.wake) && e'.wake.send == e.wake.send
  {
  }

  lemma DeliverLink(e: End, g: Segment, plog: seq<Item>)
    requires LinkInv(e.cfg, e.link, e.rcv.dlv, e.reader, e.writer)
    requires LogOk(!e.cfg.client, plog) && |e.rcv.dlv| < |plog| && plog[|e.rcv.dlv|] == Item(g.kind, g.data)
    requires !e.cfg.client && e.rcv.dlv != [] ==> e.rcv.dlv[0] == plog[0]
    ensures LinkInv(e.cfg, Deliver(e, g).link, e.rcv.dlv + [Item(g.kind, g.data)], e.reader, e.writer)
  {
    hide Positive;
  }

  lemma DeliverInv(e: End, g: Segment, plog: seq<Item>)
    requires EndSane(e) && RcvInv(false, e.writer, e.rcv, plog) && LogOk(!e.cfg.client, plog)
    requires LinkInv(e.cfg, e.link, e.rcv.dlv, e.reader, e.writer) && Next(e.rcv, g, plog)
    ensures var e' := Deliver(e, g);
            EndSane(e') && RcvCore(false, e'.writer, e'.rcv, plog) && e'.out == e.out
            && LinkInv(e'.cfg, e'.link, e'.rcv.dlv, e'.reader, e'.writer)
            && SegEffect(e, e') && e'.rcv.ooo == e.rcv.ooo && e'.acks == e.acks
  {
    hide FramesInv, RcvCore, Deliver, LinkInv, LogOk;
    TookInv(e.cfg, e.writer, e.rcv, g, plog);
    DeliverEffect(e, g);
    DlvOf(e.writer, e.rcv, plog);
    DeliverLink(e, g, plog);
    Append(e.rcv.dlv, Item(g.kind, g.data));
    FramesGrow(e.cfg, e.snd.log, e.rcv, e.tx, e.out, e.snd.log, Took(e.rcv, g));
  }

  lemma UnparkInv(writer: Writer, r: Rcv, plog: seq<Item>)
    requires RcvCore(false, writer, r, plog) && r.nxt in r.ooo
    ensures RcvInv(false, writer, r.(ooo := r.ooo - {r.nxt}), plog) && Next(r, r.ooo[r.nxt], plog)
  {
    assert ParkedAt(r.ooo, plog, r.nxt, r.nxt);
    forall k ensures ParkedAt(r.ooo - {r.nxt}, plog, r.nxt, k) {
      assert ParkedAt(r.ooo, plog, r.nxt, k);
    }
  }

  lemma {:induction false} DrainInv(e: End, plog: seq<Item>)
    requires EndSane(e) && RcvCore(false, e.writer, e.rcv, plog) && LogOk(!e.cfg.client, plog)
    requires LinkInv(e.cfg, e.link, e.rcv.dlv, e.reader, e.writer)
    ensures var e' := Drain(e);
            EndSane(e') && RcvInv(false, e'.writer, e'.rcv, plog) && e'.out == e.out
            && LinkInv(e'.cfg, e'.link, e'.rcv.dlv, e'.reader, e'.writer)
            && SegEffect(e, e') && e'.acks == e.acks
    decreases |e.rcv.ooo|
  {
    hide FramesInv, RcvCore, Deliver, LinkInv;
    if e.rcv.nxt in e.rcv.ooo {
      UnparkInv(e.writer, e.rcv, plog);
      var e1 := e.(rcv := e.rcv.(ooo := e.rcv.ooo - {e.rcv.nxt}));
      FramesGrow(e.cfg, e.snd.log, e.rcv, e.tx, e.out, e.snd.log, e1.rcv);
      DeliverInv(e1, e.rcv.ooo[e.rcv.nxt], plog);
      DeliverNextShrinks(e);
      DrainInv(DeliverNext(e), plog);
    }
  }

  lemma ParkInv(e: End, g: Segment, plog: seq<Item>)
    requires RcvInv(false, e.writer, e.rcv, plog) && Queued(plog, g.num, g.kind, g.data)
    ensures RcvInv(false, e.writer, Park(e, g).rcv, plog)
    ensures Park(e, g) == e.(rcv := e.rcv.(ooo := Park(e, g).rcv.ooo))
  {
    var ooo' := Park(e, g).rcv.ooo;
    forall k ensures ParkedAt(ooo', plog, e.rcv.nxt, k) {
      assert ParkedAt(e.rcv.ooo, plog, e.rcv.nxt, k);
    }
  }

  lemma QueueAckInv(e: End, probe: bool, outOfOrder: bool)
    requires EndSane(e)
    ensures var e' := QueueAck(e, probe, outOfOrder);
            EndSane(e') && SegEffect(e, e') && e'.rcv == e.rcv && e'.link == e.link && e'.wake == e.wake
            && |e'.out| == |e.out| + 1
  {
    hide FramesInv;
    FramesAck(e, Ack, probe, outOfOrder, 0, []);
  }

  /** What the network may hand to this end: a frame its peer produced. */
  ghost predicate Genuine(e: End, f: Frame, plog: seq<Item>) {
    && LogOk(!e.cfg.client, plog)
    && (f.kind != Rst ==> Boundary(e.snd.log, f.ack))
    && (f.Segment() ==> Queued(plog, f.num, f.kind, f.payload))
  }

  lemma FinCarriesNothing(client: bool, plog: seq<Item>, num: int, data: Bytes)
    requires LogOk(client, plog) && Queued(plog, num, Fin, data)
    ensures data == []
  {
  }

  lemma SegEffectTrans(e: End, e1: End, e2: End)
    requires SegEffect(e, e1) && SegEffect(e1, e2)
    ensures SegEffect(e, e2)
  {
  }

  lemma DelayAckInv(e: End, filled: bool, g: Segment)
    requires EndSane(e)
    ensures var e' := DelayAck(e, filled, g);
            EndSane(e') && SegEffect(e, e') && e'.rcv == e.rcv && e'.link == e.link && e'.wake == e.wake
  {
    hide FramesInv;
    QueueAckInv(e.(acks := e.acks.(pending := e.acks.pending + 1)), false, false);
  }

  lemma InOrderInv(e: End, g: Segment, filled: bool, plog: seq<Item>)
    requires EndSane(e) && RcvInv(false, e.writer, e.rcv, plog) && !e.dead
    requires LogOk(!e.cfg.client, plog) && Next(e.rcv, g, plog)
    requires LinkInv(e.cfg, e.link, e.rcv.dlv, e.reader, e.writer)
    ensures var e' := DelayAck(Drain(Deliver(e, g)), filled, g);
            EndSane(e') && RcvInv(false, e'.writer, e'.rcv, plog)
            && LinkInv(e'.cfg, e'.link, e'.rcv.dlv, e'.reader, e'.writer) && SegEffect(e, e')
            && e.rcv.dlv + [Item(g.kind, g.data)] <= e'.rcv.dlv
  {
    hide FramesInv, RcvCore, Drain, LinkInv, DelayAck, EndSane;
    var e1 := Deliver(e, g);
    DeliverInv(e, g, plog);
    DrainInv(e1, plog);
    DelayAckInv(Drain(e1), filled, g);
  }

  lemma ProcessSegmentInv(e: End, f: Frame, plog: seq<Item>)
    requires EndSane(e) && RcvInv(false, e.writer, e.rcv, plog) && !e.dead && f.Segment()
    requires Genuine(e, f, plog) && LinkInv(e.cfg, e.link, e.rcv.dlv, e.reader, e.writer)
    ensures var e' := ProcessSegment(e, f);
            EndSane(e') && RcvInv(false, e'.writer, e'.rcv, plog)
            && LinkInv(e'.cfg, e'.link, e'.rcv.dlv, e'.reader, e'.writer) && SegEffect(e, e')
  {
    hide FramesInv, RcvInv, Deliver, Drain, Park, LinkInv, DelayAck, SegEffect;
    var g := Received(f);
    if f.kind == Fin { FinCarriesNothing(!e.cfg.client, plog, f.num, f.payload); }
    if g.End() <= e.rcv.nxt {
      QueueAckInv(e, false, false);
    } else if g.num != e.rcv.nxt {
      ParkInv(e, g, plog);
      var e1 := Park(e, g);
      FramesGrow(e.cfg, e.snd.log, e.rcv, e.tx, e.out, e.snd.log, e1.rcv);
      assert SegEffect(e, e1) by { ParkEffect(e, g); }
      QueueAckInv(e1, false, true);
      SegEffectTrans(e, e1, QueueAck(e1, false, true));
    } else if Refused(e, g) {
      assert SegEffect(e, e) by { ParkEffect(e, g); }
    } else {
      InOrderInv(e, g, Deliver(e, g).rcv.nxt in Deliver(e, g).rcv.ooo, plog);
    }
  }

  lemma ParkEffect(e: End, g: Segment)
    ensures SegEffect(e, Park(e, g)) && SegEffect(e, e)
  {
  }
}
