/** tcpTunnelQueue of src/tcp_tunnel_queue.go: the object, proved to move as the value in TcpQueue does. */
module TcpQueueClass {
  import opened Bytes
  import opened Fifo
  import opened Reals
  import opened TcpQueue
  import opened Options
  import Codel

  /** The packet a turn appends to what was sent, if any. */
  ghost predicate Found(before: seq<Sent>, after: seq<Sent>, pkt: Option<Packet>) {
    match pkt
    case None => after == before
    case Some(p) => |after| == |before| + 1 && after[..|before|] == before && after[|before|].it.pkt == p
  }

  class TcpTunnelQueue {
    const s: Settings
    const control: ShaperQueue
    const priority: ShaperQueue
    const bulk: ShaperQueue
    const reliable: ShaperQueue
    const codel: Codel.Controller
    var credit: real
    var closed: bool
    var queued: int

    ghost var taken: seq<Packet>
    ghost var entered: seq<Sent>
    ghost var sent: seq<Sent>
    ghost var released: seq<Packet>

    ghost predicate Valid()
      reads control, priority, bulk, reliable, codel
    {
      && s.Valid()
      && control != priority && control != bulk && control != reliable
      && priority != bulk && priority != reliable && bulk != reliable
      && control.Valid() && priority.Valid() && bulk.Valid() && reliable.Valid()
      && codel.p == s.codelParams && codel.lastCount <= codel.count
    }

    ghost function View(): Queue
      requires Valid()
      reads this, control, priority, bulk, reliable, codel
    {
      Queue(control.Contents(), priority.Contents(), bulk.Contents(), reliable.Contents(),
            codel.View(), credit, closed, queued, taken, entered, sent, released)
    }

    constructor (s: Settings)
      requires s.Valid()
      ensures Valid() && this.s == s && View() == Empty()
      ensures fresh(control) && fresh(priority) && fresh(bulk) && fresh(reliable) && fresh(codel)
    {
      this.s := s;
      control := new ShaperQueue();
      priority := new ShaperQueue();
      bulk := new ShaperQueue();
      reliable := new ShaperQueue();
      codel := new Codel.Controller(s.codelParams);
      credit, closed, queued := MAX_CREDIT as real, false, 0;
      taken, entered, sent, released := [], [], [], [];
    }

    method Account(delta: int)
      modifies this`queued
      ensures queued == old(queued) + delta
    {
      queued := queued + delta;
    }

    /** Puts an item in the queue of its class. */
    method Store(it: Item, cls: Class)
      requires Valid()
      modifies this`queued, this`entered, control, priority, bulk, reliable
      ensures Valid() && View() == Accept(old(View()), cls, it)
    {
      hide Wire, ShaperQueue.Valid, ShaperQueue.Contents, Codel.Controller.View;
      match cls {
        case Control => control.Push(it);
        case Priority => priority.Push(it);
        case Reliable => reliable.Push(it);
        case Bulk => bulk.Push(it);
      }
      entered := entered + [Sent(it, cls)];
      Account(it.wire);
    }

    /** The queue owns the reference from here on, unless it says no. */
    method Push(pkt: Packet, isControl: bool, now: int) returns (ok: bool)
      requires Valid()
      modifies this, control, priority, bulk, reliable
      ensures Valid() && (View(), ok) == TcpQueue.Push(s, old(View()), pkt, isControl, now)
    {
      hide Wire, MakeRoom, Accept, ShaperQueue.Valid, ShaperQueue.Contents, Codel.Controller.View;
      var it := Item(pkt, 0, now, pkt.size);
      taken := taken + [pkt];
      if closed {
        released := released + [pkt];
        return false;
      }
      var small := s.prioritySize > 0 && it.wire <= s.prioritySize;
      if isControl {
        Store(it, Control);
      } else if pkt.noDrop {
        Store(it, if small then Priority else Reliable);
      } else {
        Trim(it.wire);
        priority.BytesAreWire();
        bulk.BytesAreWire();
        reliable.BytesAreWire();
        if priority.bytes + bulk.bytes + reliable.bytes + it.wire > s.limit {
          released := released + [pkt];
          return false;
        }
        Store(it, if small then Priority else Bulk);
      }
      return true;
    }

    /** The loop of push that makes room by dropping the oldest bulk packets. */
    method Trim(wire: nat)
      requires Valid()
      modifies this`queued, this`released, bulk
      ensures Valid() && View() == MakeRoom(s, old(View()), wire)
    {
      hide Wire, ShaperQueue.Valid, ShaperQueue.Contents, Codel.Controller.View;
      priority.BytesAreWire();
      bulk.BytesAreWire();
      reliable.BytesAreWire();
      var left := bulk.Len();
      while priority.bytes + bulk.bytes + reliable.bytes + wire > s.limit && left > 0
        invariant Valid() && priority.bytes == Wire(priority.Contents()) && bulk.bytes == Wire(bulk.Contents())
        invariant reliable.bytes == Wire(reliable.Contents())
        invariant left == |bulk.Contents()|
        invariant MakeRoom(s, View(), wire) == MakeRoom(s, old(View()), wire)
        decreases left
      {
        var it := bulk.Pop();
        Account(0 - it.wire);
        released := released + [it.pkt];
        left := bulk.Len();
      }
    }

    /** The bulk case of pop's loop. */
    method TakeBulk(now: int) returns (pkt: Option<Packet>)
      requires Valid() && |bulk.Contents()| > 0
      modifies this, bulk, codel
      ensures Valid() && View() == PopBulk(s, old(View()), now)
      ensures Found(old(sent), sent, pkt)
    {
      hide Wire, Earn, Codel.Decide, ShaperQueue.Valid, ShaperQueue.Contents;
      var it := bulk.Pop();
      bulk.BytesAreWire();
      reliable.BytesAreWire();
      var sojourn := now - it.enq;
      if bulk.bytes + reliable.bytes < MIN_STANDING {
        sojourn := 0;
      }
      if s.codel {
        var drop := codel.ShouldDrop(now, sojourn);
        if drop {
          Account(0 - it.wire);
          released := released + [it.pkt];
          return None;
        }
      }
      credit := MinR(credit + Earn(s, it.wire), MAX_CREDIT as real);
      sent := sent + [Sent(it, Bulk)];
      Account(0 - it.wire);
      return Some(it.pkt);
    }

    /** The priority case: its branch that asks priorityCodel is never taken. */
    method TakePriority(now: int, bulkLen: nat) returns (pkt: Option<Packet>)
      requires Valid() && |priority.Contents()| > 0 && (credit > 0.0 || bulkLen == 0)
      modifies this, priority
      ensures Valid() && View() == PriorityTaken(old(View()))
      ensures Found(old(sent), sent, pkt)
    {
      hide Wire, ShaperQueue.Valid, ShaperQueue.Contents, Codel.Controller.View;
      var it := priority.Pop();
      if s.codel && !it.pkt.noDrop && credit <= 0.0 && bulkLen > 0 {
        assert false;
      }
      credit := credit - it.wire as real;
      sent := sent + [Sent(it, Priority)];
      Account(0 - it.wire);
      return Some(it.pkt);
    }

    /** The reliable case. */
    method TakeReliable(now: int) returns (pkt: Option<Packet>)
      requires Valid() && |reliable.Contents()| > 0
      modifies this, reliable
      ensures Valid() && View() == ReliableTaken(s, old(View()))
      ensures Found(old(sent), sent, pkt)
    {
      hide Wire, Earn, ShaperQueue.Valid, ShaperQueue.Contents, Codel.Controller.View;
      var it := reliable.Pop();
      credit := MinR(credit + Earn(s, it.wire), MAX_CREDIT as real);
      sent := sent + [Sent(it, Reliable)];
      Account(0 - it.wire);
      return Some(it.pkt);
    }

    /** One turn of pop's loop with packets queued: the packet found, if it was not dropped. */
    method TakeTurn(now: int) returns (pkt: Option<Packet>)
      requires Valid() && !IsEmpty(View())
      modifies this, control, priority, bulk, reliable, codel
      ensures Valid() && View() == Turn(s, old(View()), now)
      ensures Found(old(sent), sent, pkt)
    {
      hide Wire, PopBulk, PriorityTaken, ReliableTaken, ShaperQueue.Valid, ShaperQueue.Contents, Codel.Controller.View;
      var nControl := control.Len();
      var nPriority := priority.Len();
      var nBulk := bulk.Len();
      var nReliable := reliable.Len();
      var bulkLen := nBulk + nReliable;
      if bulkLen == 0 {
        credit := MAX_CREDIT as real;
      }
      if nControl > 0 {
        var it := control.Pop();
        sent := sent + [Sent(it, Control)];
        Account(0 - it.wire);
        return Some(it.pkt);
      } else if nPriority > 0 && (credit > 0.0 || bulkLen == 0) {
        pkt := TakePriority(now, bulkLen);
        return;
      }
      var older := nReliable > 0;
      if nReliable > 0 && nBulk > 0 {
        var r := reliable.Peek();
        var b := bulk.Peek();
        older := r.enq < b.enq;
      }
      if older {
        pkt := TakeReliable(now);
      } else {
        pkt := TakeBulk(now);
      }
    }

    /** Fills out from the queues, as far as the limit and what is queued allow. */
    method Pop(now: int, out: seq<Packet>, limit: int) returns (r: seq<Packet>)
      requires Valid()
      modifies this, control, priority, bulk, reliable, codel
      ensures Valid() && View() == TcpQueue.Pop(s, old(View()), now, Max(limit - |out|, 0))
      ensures |r| - |out| == |sent| - |old(sent)| && out <= r && old(sent) <= sent
      ensures forall i :: |out| <= i < |r| ==> r[i] == sent[|old(sent)| + i - |out|].it.pkt
    {
      hide Wire, Turn, Count;
      r := out;
      while |r| < limit
        invariant Valid() && |out| <= |r| <= Max(limit, |out|)
        invariant TcpQueue.Pop(s, View(), now, Max(limit - |r|, 0))
                  == TcpQueue.Pop(s, old(View()), now, Max(limit - |out|, 0))
        invariant |r| - |out| == |sent| - |old(sent)| && out <= r && old(sent) <= sent
        invariant forall i :: |out| <= i < |r| ==> r[i] == sent[|old(sent)| + i - |out|].it.pkt
        decreases Count(View())
      {
        var n := Len();
        if n == 0 {
          credit := MAX_CREDIT as real;
          return;
        }
        TurnCounts(s, View(), now);
        var pkt := TakeTurn(now);
        if pkt.Some? {
          r := r + [pkt.value];
        }
      }
    }

    method Len() returns (n: nat)
      requires Valid()
      ensures n == Count(View()) && (n == 0 <==> IsEmpty(View()))
    {
      var a := control.Len();
      var b := priority.Len();
      var c := bulk.Len();
      var d := reliable.Len();
      n := a + b + c + d;
    }

    /** Gives back all that is queued and turns away what comes later. */
    method Close()
      requires Valid()
      modifies this, control, priority, bulk, reliable
      ensures Valid() && View() == TcpQueue.Close(old(View()))
    {
      hide Wire, Packets, ShaperQueue.Valid, ShaperQueue.Contents, Codel.Controller.View;
      closed := true;
      Release(control);
      Release(priority);
      Release(bulk);
      Release(reliable);
    }

    method Release(sq: ShaperQueue)
      requires sq.Valid()
      modifies this`queued, this`released, sq
      ensures sq.Valid() && sq.Contents() == []
      ensures queued == old(queued) - Wire(old(sq.Contents()))
      ensures released == old(released) + Packets(old(sq.Contents()))
    {
      hide Wire, Packets, ShaperQueue.Valid, ShaperQueue.Contents;
      var left := sq.Len();
      ghost var all := sq.Contents();
      NothingHeld(all);
      ghost var i := 0;
      while left > 0
        invariant sq.Valid() && i + left == |all| && sq.Contents() == all[i..]
        invariant queued == old(queued) - Wire(all[..i])
        invariant released == old(released) + Packets(all[..i])
        decreases left
      {
        var it := sq.Pop();
        Account(0 - it.wire);
        released := released + [it.pkt];
        WireAndPackets(all, i);
        i := i + 1;
        left := sq.Len();
      }
      assert all[..|all|] == all;
    }
  }
}
