/**
 * tcpStream as it is written: an object whose methods update its fields in place, section by
 * section. The struct's fields are kept in the records of StreamEnd, one for each concern. Every
 * method is proved to compute the function of StreamEnd that the protocol theorems are about.
 */
module StreamClass {
  import opened Bytes
  import opened StreamTypes
  import opened StreamEnd

  class TcpStream {
    const cfg: Config

    var link: Link
    var dead: bool
    var finished: bool
    var lastHeard: int
    var snd: Snd
    var rtx: Rtx
    var rcv: Rcv
    var acks: Acks
    var wake: Wake
    var out: seq<Frame>

    // Where readLoop and writeLoop are, and every frame handed to the pipeline.
    ghost var reader: Reader
    ghost var writer: Writer
    ghost var tx: seq<Frame>

    ghost function View(): End
      reads this
    {
      End(cfg, link, dead, finished, lastHeard, snd, rtx, rcv, acks, wake, reader, writer, out, tx)
    }

    /** newTcpStream. */
    constructor (cfg: Config, conn: bool, now: int)
      ensures View() == New(cfg, conn, now)
    {
      this.cfg := cfg;
      link, dead, finished, lastHeard := Link(conn, false, false, []), false, false, now;
      snd := Snd(0, 0, INIT_WINDOW, [], false, [], 0, []);
      rtx := Rtx(0, 0, INIT_RTO, 0, 0, 0, now, false, 0);
      rcv := Rcv(0, map[], [], 0, false, false, [], []);
      acks, wake, out := Acks(0, 0, false), Wake(false, false), [];
      reader, writer, tx := ReadIdle, WriteIdle, [];
    }

    // ---- frames out ---------------------------------------------------------------------

    method FillAck(f: Frame) returns (g: Frame)
      modifies this`acks
      ensures acks == StreamEnd.FillAck(old(View()))
      ensures g == f.(ack := rcv.nxt, wnd := Free(View()))
    {
      var free := Max(cfg.window - rcv.queued, 0);
      g := f.(ack := rcv.nxt, wnd := free);
      if rcv.nxt + free > acks.advRight {
        acks := acks.(advRight := rcv.nxt + free);
      }
      acks := acks.(pending := 0);
      if acks.timerSet {
        acks := acks.(timerSet := false);
      }
    }

    method QueueAck(probe: bool, outOfOrder: bool)
      modifies this`acks, this`out
      ensures View() == StreamEnd.QueueAck(old(View()), probe, outOfOrder)
    {
      var f := FillAck(Frame(Ack, false, probe, outOfOrder, 0, 0, 0, []));
      out := out + [f];
    }

    method QueueSegmentFrame(g: Segment)
      modifies this`acks, this`out
      ensures View() == StreamEnd.QueueSegmentFrame(old(View()), g)
    {
      var f := FillAck(Frame(g.kind, false, false, false, g.num, 0, 0, g.data));
      out := out + [f];
    }

    method UnlockAndFlush()
      modifies this`out, this`tx
      ensures View() == Flush(old(View()))
    {
      var frames := out;
      out := [];
      for i := 0 to |frames|
        invariant out == [] && tx == old(tx) + Marked(frames[..i], cfg.client)
      {
        assert frames[..i + 1][..i] == frames[..i];
        tx := tx + [Mark(frames[i], cfg.client)];
      }
      assert frames[..|frames|] == frames;
    }

    // ---- send side ----------------------------------------------------------------------

    method ArmTimer()
      modifies this`rtx
      ensures View() == StreamEnd.ArmTimer(old(View()))
    {
      if dead || (|snd.unacked| == 0 && (snd.right > snd.nxt || snd.finQueued)) {
        if rtx.armed {
          rtx := rtx.(armed := false);
        }
        return;
      }
      rtx := rtx.(delay := Min(rtx.rto * Pow2(rtx.backoff), MAX_RTO));
      rtx := rtx.(armed := true);
    }

    method QueueSegment(kind: Kind, data: Bytes, now: int)
      modifies this`snd, this`rtx, this`acks, this`out
      ensures View() == StreamEnd.QueueSegment(old(View()), kind, data, now)
    {
      var g := Segment(snd.nxt, kind, data, now, false);
      snd := snd.(unacked := snd.unacked + [g], log := snd.log + [Item(kind, data)]);
      snd := snd.(nxt := snd.nxt + g.Len());
      if kind == Fin {
        snd := snd.(finQueued := true);
      }
      assert snd == Enqueue(old(snd), g);
      QueueSegmentFrame(g);
      if !rtx.armed {
        ArmTimer();
      }
    }

    method UpdateRTT(rtt: int)
      modifies this`rtx
      ensures rtx == StreamEnd.UpdateRTT(old(rtx), rtt)
    {
      if rtx.srtt == 0 {
        rtx := rtx.(srtt := rtt, rttvar := Quot(rtt, 2));
      } else {
        var diff := rtx.srtt - rtt;
        if diff < 0 {
          diff := -diff;
        }
        rtx := rtx.(rttvar := Quot(3 * rtx.rttvar + diff, 4));
        rtx := rtx.(srtt := Quot(7 * rtx.srtt + rtt, 8));
      }
      rtx := rtx.(rto := rtx.srtt + 4 * rtx.rttvar);
      if rtx.rto < MIN_RTO {
        rtx := rtx.(rto := MIN_RTO);
      } else if rtx.rto > MAX_RTO {
        rtx := rtx.(rto := MAX_RTO);
      }
    }

    method FastRetransmit(now: int)
      modifies this`snd, this`acks, this`out
      ensures View() == StreamEnd.FastRetransmit(old(View()), now)
    {
      if |snd.unacked| == 0 {
        return;
      }
      var g := snd.unacked[0];
      if now - g.sentAt < rtx.srtt + Quot(rtx.srtt, 4) {
        return;
      }
      g := g.(retrans := true, sentAt := now);
      snd := snd.(unacked := snd.unacked[0 := g]);
      QueueSegmentFrame(g);
    }

    /** processAckLocked's loop: how many segments ack covers; the first may give an RTT sample. */
    method CountAcked(ack: int, now: int) returns (i: nat)
      modifies this`rtx
      ensures i == AckedCount(snd.unacked, ack)
      ensures rtx == Sample(old(View()), i, now)
    {
      ghost var n := AckedCount(snd.unacked, ack);
      i := 0;
      while i < |snd.unacked| && snd.unacked[i].End() <= ack
        invariant 0 <= i <= n
        invariant n == i + AckedCount(snd.unacked[i..], ack)
        invariant rtx == Sample(old(View()), i, now)
      {
        if i == 0 && !snd.unacked[0].retrans {
          UpdateRTT(now - snd.unacked[0].sentAt);
        }
        assert snd.unacked[i..][1..] == snd.unacked[i + 1..];
        i := i + 1;
      }
    }

    /** The branch of processAckLocked that moves sndUna. */
    method AdvanceTo(ack: int, now: int)
      modifies this`snd, this`rtx, this`acks, this`out
      ensures View() == Advance(old(View()), ack, now)
    {
      var i := CountAcked(ack, now);
      snd := snd.(unacked := snd.unacked[i..], una := ack, acked := snd.acked + i);
      rtx := rtx.(backoff := 0, dupAcks := 0, lastProgress := now);
      if ack < rtx.recover {
        FastRetransmit(now);
      }
      ArmTimer();
    }

    method ProcessAck(f: Frame, now: int)
      modifies this`snd, this`rtx, this`acks, this`out, this`wake
      ensures View() == StreamEnd.ProcessAck(old(View()), f, now)
    {
      hide Advance, StreamEnd.FastRetransmit, OpenWindow, Signal;
      if f.ack > snd.nxt {
        return;
      }
      if f.ack > snd.una {
        AdvanceTo(f.ack, now);
      } else if f.ack == snd.una && f.outOfOrder && |snd.unacked| > 0 {
        rtx := rtx.(dupAcks := rtx.dupAcks + 1);
        if rtx.dupAcks == 3 {
          rtx := rtx.(recover := snd.nxt);
          FastRetransmit(now);
        }
        assert View() == CountDuplicate(old(View()), now);
      }
      OpenWindowTo(f.ack + f.wnd);
    }

    /** The end of processAckLocked: the peer's window. */
    method OpenWindowTo(right: int)
      modifies this`snd, this`rtx, this`wake
      ensures View() == Signal(OpenWindow(old(View()), right))
    {
      if right > snd.right {
        snd := snd.(right := right);
        if !rtx.armed {
          ArmTimer();
        }
      }
      if snd.right > snd.nxt {
        wake := wake.(send := true);
      }
    }

    method OnTimer(now: int)
      modifies this
      ensures View() == StreamEnd.OnTimer(old(View()), now)
    {
      hide ResendFrom, StreamEnd.Abort, StreamEnd.QueueAck, Flush, Pow2;
      rtx := rtx.(armed := false);
      if dead {
        return;
      }
      ghost var fired := View();
      if |snd.unacked| > 0 {
        if now - rtx.lastProgress > cfg.timeout {
          Abort(true);
          UnlockAndFlush();
          return;
        }
        ResendAll(now);
      } else {
        if now - lastHeard > cfg.timeout {
          Abort(true);
          UnlockAndFlush();
          return;
        }
        QueueAck(true, false);
      }
      if rtx.backoff < 6 {
        rtx := rtx.(backoff := rtx.backoff + 1);
      }
      ArmTimer();
      UnlockAndFlush();
    }

    /** onTimer's loop over the unacknowledged segments. */
    method ResendAll(now: int)
      modifies this`snd, this`acks, this`out
      ensures View() == ResendFrom(old(View()), 0, now)
    {
      var i := 0;
      while i < |snd.unacked|
        invariant i <= |snd.unacked|
        invariant ResendFrom(View(), i, now) == ResendFrom(old(View()), 0, now)
      {
        snd := snd.(unacked := snd.unacked[i := snd.unacked[i].(retrans := true, sentAt := now)]);
        QueueSegmentFrame(snd.unacked[i]);
        i := i + 1;
      }
    }

    // ---- receive side -------------------------------------------------------------------

    method Deliver(g: Segment)
      modifies this`rcv, this`link, this`wake
      ensures View() == StreamEnd.Deliver(old(View()), g)
    {
      rcv := rcv.(nxt := rcv.nxt + g.Len(), dlv := rcv.dlv + [Item(g.kind, g.data)]);
      match g.kind
      case Open =>
        if !cfg.client && !link.isOpen {
          var target := cfg.target;
          if target == [] {
            target := g.data;
          }
          link := link.(isOpen := true, dialing := true, dials := link.dials + [target]);
        }
      case Data =>
        if |g.data| > 0 {
          rcv := rcv.(queue := rcv.queue + [g.data], queued := rcv.queued + |g.data|);
          wake := wake.(write := true);
        }
      case Fin =>
        rcv := rcv.(fin := true);
        wake := wake.(write := true);
      case _ =>
    }

    method ProcessSegment(f: Frame)
      requires f.Segment()
      modifies this`rcv, this`link, this`wake, this`acks, this`out
      ensures View() == StreamEnd.ProcessSegment(old(View()), f)
    {
      hide StreamEnd.Deliver, Drain, StreamEnd.QueueAck;
      var g := Segment(f.num, f.kind, [], 0, false);
      if f.kind != Fin {
        g := g.(data := f.payload);
      }
      var end := g.num + g.Len();
      if end <= rcv.nxt {
        QueueAck(false, false);
        return;
      }
      if g.num != rcv.nxt {
        if g.num > rcv.nxt && end <= rcv.nxt + cfg.window {
          if g.num !in rcv.ooo {
            rcv := rcv.(ooo := rcv.ooo[g.num := g]);
          }
        }
        QueueAck(false, true);
        return;
      }
      if g.kind == Data && rcv.queued + |g.data| > cfg.window + cfg.mss {
        return;
      }
      Deliver(g);
      var filled := DeliverParked();
      acks := acks.(pending := acks.pending + 1);
      if filled || g.kind != Data || acks.pending >= 2 {
        QueueAck(false, false);
      } else if !acks.timerSet {
        acks := acks.(timerSet := true);
      }
    }

    /** processSegmentLocked's loop over the segments that were waiting for this one. */
    method DeliverParked() returns (filled: bool)
      modifies this`rcv, this`link, this`wake
      ensures View() == Drain(old(View()))
      ensures filled <==> old(rcv).nxt in old(rcv).ooo
    {
      filled := false;
      while rcv.nxt in rcv.ooo
        invariant Drain(View()) == Drain(old(View()))
        invariant filled || View() == old(View())
        invariant filled ==> old(rcv).nxt in old(rcv).ooo
        decreases |rcv.ooo|
      {
        DeliverNextShrinks(View());
        var next := rcv.ooo[rcv.nxt];
        rcv := rcv.(ooo := rcv.ooo - {rcv.nxt});
        Deliver(next);
        filled := true;
      }
    }

    method OnAckTimer()
      modifies this`acks, this`out, this`tx
      ensures View() == StreamEnd.OnAckTimer(old(View()))
    {
      acks := acks.(timerSet := false);
      if !dead && acks.pending > 0 {
        QueueAck(false, false);
      }
      UnlockAndFlush();
    }

    // ---- end of stream ------------------------------------------------------------------

    method EndStream()
      modifies this`dead, this`rtx, this`acks, this`snd, this`rcv
      ensures View() == Die(old(View()))
    {
      dead := true;
      rtx := rtx.(armed := false);
      acks := acks.(timerSet := false);
      snd := snd.(unacked := []);
      rcv := rcv.(ooo := map[], queue := []);
    }

    method MaybeFinish()
      modifies this`finished, this`dead, this`rtx, this`acks, this`snd, this`rcv
      ensures View() == StreamEnd.MaybeFinish(old(View()))
    {
      if dead || !snd.finQueued || snd.una != snd.nxt || !rcv.finWritten {
        return;
      }
      finished := true;
      EndStream();
    }

    method Abort(notifyPeer: bool)
      modifies this`out, this`dead, this`rtx, this`acks, this`snd, this`rcv
      ensures View() == StreamEnd.Abort(old(View()), notifyPeer)
    {
      if dead {
        return;
      }
      if notifyPeer {
        out := out + [RST];
      }
      EndStream();
    }

    // ---- sections -----------------------------------------------------------------------

    method HandleFrame(f: Frame, now: int)
      modifies this
      ensures View() == StreamEnd.HandleFrame(old(View()), f, now)
    {
      hide StreamEnd.ProcessAck, StreamEnd.ProcessSegment, StreamEnd.MaybeFinish, StreamEnd.Abort;
      hide StreamEnd.QueueAck, Flush;
      if dead {
        if f.kind != Rst {
          if finished {
            if f.kind != Ack || f.probe {
              QueueAck(false, false);
            }
          } else {
            out := out + [RST];
          }
        }
        UnlockAndFlush();
        return;
      }
      lastHeard := now;
      if f.kind == Rst {
        Abort(false);
        UnlockAndFlush();
        return;
      }
      ProcessAck(f, now);
      if f.kind == Open || f.kind == Data || f.kind == Fin {
        ProcessSegment(f);
      }
      if f.probe && |out| == 0 {
        QueueAck(false, false);
      }
      MaybeFinish();
      UnlockAndFlush();
    }

    method CheckOpened()
      modifies this
      ensures View() == StreamEnd.CheckOpened(old(View()))
    {
      if !link.isOpen && !dead {
        Abort(true);
      }
      UnlockAndFlush();
    }

    /** What open does once the stream exists. */
    method OpenStream(target: Bytes, now: int)
      requires View() == New(cfg, true, now)
      modifies this
      ensures View() == Opened(cfg, target, now)
    {
      QueueSegment(Open, target, now);
      reader, writer := AtRead, AtWrite;
      UnlockAndFlush();
    }

    /** dial, once the connection attempt returns. */
    method DialReturned(ok: bool)
      modifies this
      ensures View() == Dialed(old(View()), ok)
    {
      hide StreamEnd.Abort, Flush;
      link := link.(dialing := false);
      if !ok {
        Abort(true);
        UnlockAndFlush();
        return;
      }
      if dead {
        return;
      }
      link := link.(conn := true);
      reader, writer := AtRead, AtWrite;
      UnlockAndFlush();
    }

    /** readLoop from the lock to conn.Read or the wait: n is how much to read, -1 to wait, 0 to return. */
    method ReadSection() returns (n: int)
      requires cfg.Valid()
      modifies this`reader, this`rtx
      ensures View() == ReadCheck(old(View()))
      ensures n > 0 <==> reader == Reading(n)
      ensures n < 0 <==> reader == WaitSend
    {
      if dead {
        reader := ReadEnded;
        return 0;
      }
      var space := snd.right - snd.nxt;
      if space >= cfg.mss || (space > 0 && |snd.unacked| == 0) {
        n := Min(snd.right - snd.nxt, cfg.mss);
        reader := Reading(n);
        return;
      }
      if !rtx.armed {
        ArmTimer();
      }
      reader := WaitSend;
      n := -1;
    }

    /** readLoop after conn.Read; true if it goes round again. */
    method ReadReturned(data: Bytes, res: ReadResult, now: int) returns (again: bool)
      modifies this
      ensures View() == ReadDone(old(View()), data, res, now)
      ensures again <==> reader == AtRead
    {
      hide StreamEnd.QueueSegment, StreamEnd.MaybeFinish, StreamEnd.Abort, Flush;
      snd := snd.(read := snd.read + data);
      if dead {
        reader := ReadEnded;
        return false;
      }
      if |data| > 0 {
        QueueSegment(Data, data, now);
      }
      if res != ReadOk {
        if res == ReadEof {
          QueueSegment(Fin, [], now);
          reader := ReadEnded;
          MaybeFinish();
        } else {
          reader := ReadEnded;
          Abort(true);
        }
        UnlockAndFlush();
        return false;
      }
      reader := AtRead;
      UnlockAndFlush();
      again := true;
    }

    /** writeLoop from the lock to WriteTo, closeWrite or the wait. */
    method WriteSection() returns (bufs: seq<Bytes>)
      modifies this`rcv, this`writer
      ensures View() == WriteCheck(old(View()))
      ensures |bufs| > 0 ==> writer == Writing(bufs)
      ensures bufs == [] ==> !writer.Writing?
    {
      bufs := [];
      if !dead && |rcv.queue| == 0 && !rcv.fin {
        writer := WaitData;
        return;
      }
      if dead {
        writer := WriteEnded;
        return;
      }
      if |rcv.queue| == 0 {
        writer := Closing;
        return;
      }
      bufs := rcv.queue;
      rcv := rcv.(queue := []);
      writer := Writing(bufs);
    }

    /** writeLoop after WriteTo of bufs returned n and err. */
    method WriteReturned(bufs: seq<Bytes>, n: nat, failed: bool) returns (again: bool)
      requires writer == Writing(bufs) && n <= |Flatten(bufs)|
      modifies this
      ensures View() == WriteDone(old(View()), n, failed)
      ensures again <==> !failed
    {
      hide Flatten, StreamEnd.Abort, Flush;
      rcv := rcv.(written := rcv.written + Flatten(bufs)[..n]);
      if failed {
        writer := WriteEnded;
        Abort(true);
        UnlockAndFlush();
        return false;
      }
      writer := AtWrite;
      rcv := rcv.(queued := rcv.queued - n);
      if rcv.nxt + Max(cfg.window - rcv.queued, 0) >= acks.advRight + cfg.window / 4 {
        QueueAck(false, false);
      }
      UnlockAndFlush();
      again := true;
    }

    /** writeLoop after closeWrite. */
    method WriteClosed()
      modifies this
      ensures View() == StreamEnd.WriteClosed(old(View()))
    {
      writer := WriteEnded;
      rcv := rcv.(finWritten := true);
      MaybeFinish();
      UnlockAndFlush();
    }
  }
}
