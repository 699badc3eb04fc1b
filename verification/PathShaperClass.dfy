/** pathShaper of src/shaper.go: the object, proved to move as the value in PathShaper does. */
module PathShaperClass {
  import opened Bytes
  import opened Fifo
  import opened Reals
  import opened PathShaper
  import Codel

  class Path {
    const s: Settings
    var r: PathRate
    var sentBytes: nat
    var tokens: real
    var priorityTokens: real
    var last: int
    const control: ShaperQueue
    const priority: ShaperQueue
    const bulk: ShaperQueue
    const codel: Codel.Controller
    const priorityCodel: Codel.Controller
    var lastActive: int
    var queued: int

    ghost var taken: seq<Packet>
    ghost var sent: seq<Sent>
    ghost var released: seq<Packet>

    ghost predicate Valid()
      reads control, priority, bulk, codel, priorityCodel
    {
      && s.Valid()
      && control != priority && control != bulk && priority != bulk && codel != priorityCodel
      && control.Valid() && priority.Valid() && bulk.Valid()
      && codel.p == s.codelParams && codel.lastCount <= codel.count
      && priorityCodel.p == s.codelParams && priorityCodel.lastCount <= priorityCodel.count
    }

    ghost function View(): Shaper
      requires Valid()
      reads this, control, priority, bulk, codel, priorityCodel
    {
      Shaper(r, sentBytes, tokens, priorityTokens, last, control.Contents(), priority.Contents(), bulk.Contents(),
             codel.View(), priorityCodel.View(), lastActive, queued, taken, sent, released)
    }

    constructor (s: Settings, now: int)
      requires s.Valid()
      ensures Valid() && this.s == s && View() == New(s, now)
      ensures fresh(control) && fresh(priority) && fresh(bulk) && fresh(codel) && fresh(priorityCodel)
    {
      this.s := s;
      r, sentBytes, tokens, priorityTokens, last := RateFor(s, s.r.rate), 0, s.r.burst, s.r.priorityBurst, now;
      control := new ShaperQueue();
      priority := new ShaperQueue();
      bulk := new ShaperQueue();
      codel := new Codel.Controller(s.codelParams);
      priorityCodel := new Codel.Controller(s.codelParams);
      lastActive, queued, taken, sent, released := now, 0, [], [], [];
    }

    method Drop(pkt: Packet)
      modifies this`released
      ensures released == old(released) + [pkt]
    {
      released := released + [pkt];
    }

    /** Puts an item in the queue of its class. */
    method Store(it: Item, cls: Class)
      requires Valid()
      modifies this`queued, this`lastActive, control, priority, bulk
      ensures Valid() && View() == Accept(old(View()), cls, it)
    {
      hide Wire, ShaperQueue.Valid, ShaperQueue.Contents, Codel.Controller.View;
      match cls {
        case Control => control.Push(it);
        case Priority =>
          lastActive := it.enq;
          priority.Push(it);
        case Bulk =>
          lastActive := it.enq;
          bulk.Push(it);
      }
      queued := queued + it.wire;
    }

    /** The path owns the reference from here on. */
    method Enqueue(pkt: Packet, addr: int, ipv6: bool, isControl: bool, now: int)
      requires Valid()
      modifies this, control, priority, bulk
      ensures Valid() && View() == PathShaper.Enqueue(s, old(View()), pkt, addr, ipv6, isControl, now)
    {
      hide Wire, MakeRoom, Accept, ShaperQueue.Valid, ShaperQueue.Contents, Codel.Controller.View;
      var it := Item(pkt, addr, now, pkt.size + UdpWireOverhead(ipv6) + s.overhead);
      taken := taken + [pkt];
      if isControl {
        var n := control.Len();
        if n >= MAX_CONTROL {
          Drop(pkt);
          return;
        }
        Store(it, Class.Control);
        return;
      }
      Trim(it.wire);
      priority.BytesAreWire();
      bulk.BytesAreWire();
      if priority.bytes + bulk.bytes + it.wire > s.queueLimit {
        Drop(pkt);
        return;
      }
      Store(it, if s.prioritySize > 0 && pkt.size <= s.prioritySize then Class.Priority else Class.Bulk);
    }

    /** The loop of enqueue that makes room by dropping the oldest bulk packets. */
    method Trim(wire: nat)
      requires Valid()
      modifies this`queued, this`released, bulk
      ensures Valid() && View() == MakeRoom(s, old(View()), wire)
    {
      hide Wire, ShaperQueue.Valid, ShaperQueue.Contents, Codel.Controller.View;
      priority.BytesAreWire();
      bulk.BytesAreWire();
      var left := bulk.Len();
      while priority.bytes + bulk.bytes + wire > s.queueLimit && left > 0
        invariant Valid() && priority.bytes == Wire(priority.Contents()) && bulk.bytes == Wire(bulk.Contents())
        invariant left == |bulk.Contents()|
        invariant MakeRoom(s, View(), wire) == MakeRoom(s, old(View()), wire)
        decreases left
      {
        var it := bulk.Pop();
        queued := queued - it.wire;
        Drop(it.pkt);
        left := bulk.Len();
      }
    }

    method Refill(now: int)
      requires Valid()
      modifies this`last, this`tokens, this`priorityTokens
      ensures Valid() && View() == PathShaper.Refill(old(View()), now)
    {
      hide Earned, ShaperQueue.Valid, ShaperQueue.Contents, Codel.Controller.View;
      var dt := now - last;
      if dt <= 0 {
        return;
      }
      last := now;
      tokens := MinR(tokens + Earned(r.rate, dt), r.burst);
      priorityTokens := MinR(priorityTokens + Earned(r.priorityRate, dt), r.priorityBurst);
    }

    method SetRate(now: int, rate: real)
      requires Valid()
      modifies this
      ensures Valid() && View() == PathShaper.SetRate(s, old(View()), now, rate)
    {
      hide RateFor, PathShaper.Refill, ShaperQueue.Valid, ShaperQueue.Contents, Codel.Controller.View;
      if rate == r.rate {
        return;
      }
      Refill(now);
      r := RateFor(s, rate);
      tokens := MinR(tokens, r.burst);
      priorityTokens := MinR(priorityTokens, r.priorityBurst);
    }

    /** Appends the item to what is sent. */
    method Take(out: seq<Item>, it: Item, ghost cls: Class) returns (r: seq<Item>)
      modifies this`queued, this`sentBytes, this`sent
      ensures r == out + [it] && sent == old(sent) + [Sent(it, cls)]
      ensures queued == old(queued) - it.wire && sentBytes == old(sentBytes) + it.wire
    {
      queued := queued - it.wire;
      sentBytes := sentBytes + it.wire;
      sent := sent + [Sent(it, cls)];
      return out + [it];
    }

    /** The priority case of dequeue's loop. */
    method TakePriority(now: int, out: seq<Item>) returns (r: seq<Item>)
      requires Valid() && |priority.Contents()| > 0
      modifies this, priority, priorityCodel
      ensures Valid() && View() == PathShaper.TakePriority(s, old(View()), now)
      ensures Found(old(sent), sent, out, r)
    {
      hide Wire, MaxR, Found, Codel.Decide, ShaperQueue.Valid, ShaperQueue.Contents;
      FoundEither(sent, Sent(priority.Contents()[0], Class.Priority), out);
      var it := priority.Pop();
      priority.BytesAreWire();
      if priority.bytes >= MIN_STANDING {
        var drop := priorityCodel.ShouldDrop(now, now - it.enq);
        if drop {
          queued := queued - it.wire;
          Drop(it.pkt);
          return out;
        }
      }
      tokens := tokens - it.wire as real;
      priorityTokens := MaxR(priorityTokens - it.wire as real, -this.r.priorityBurst);
      r := Take(out, it, Class.Priority);
    }

    /** The bulk case of dequeue's loop. */
    method TakeBulk(now: int, out: seq<Item>) returns (r: seq<Item>)
      requires Valid() && |bulk.Contents()| > 0
      modifies this, bulk, codel
      ensures Valid() && View() == PathShaper.TakeBulk(s, old(View()), now)
      ensures Found(old(sent), sent, out, r)
    {
      hide Wire, Found, Codel.Decide, ShaperQueue.Valid, ShaperQueue.Contents;
      FoundEither(sent, Sent(bulk.Contents()[0], Class.Bulk), out);
      var it := bulk.Pop();
      bulk.BytesAreWire();
      var sojourn := now - it.enq;
      if bulk.bytes < MIN_STANDING {
        sojourn := 0;
      }
      var drop := codel.ShouldDrop(now, sojourn);
      if drop {
        queued := queued - it.wire;
        Drop(it.pkt);
        return out;
      }
      tokens := tokens - it.wire as real;
      r := Take(out, it, Class.Bulk);
    }

    method TakeControl(out: seq<Item>) returns (r: seq<Item>)
      requires Valid() && |control.Contents()| > 0
      modifies this, control
      ensures Valid() && View() == PathShaper.TakeControl(old(View()))
      ensures Found(old(sent), sent, out, r)
    {
      hide Wire, ShaperQueue.Valid, ShaperQueue.Contents, Codel.Controller.View;
      var it := control.Pop();
      tokens := tokens - it.wire as real;
      r := Take(out, it, Class.Control);
    }

    /** Fills out with what the buckets let go at this time, as far as the limit allows. */
    method Dequeue(now: int, out: seq<Item>, limit: int) returns (r: seq<Item>)
      requires Valid()
      modifies this, control, priority, bulk, codel, priorityCodel
      ensures Valid() && View() == PathShaper.Dequeue(s, old(View()), now, Max(limit - |out|, 0))
      ensures Appended(old(sent), sent, out, r)
    {
      hide Wire, Found, PathShaper.Refill, PathShaper.TakeControl, PathShaper.TakePriority, PathShaper.TakeBulk;
      hide ShaperQueue.Valid, ShaperQueue.Contents, Codel.Controller.View, Count, Appended;
      Refill(now);
      r := out;
      AppendedNothing(sent, out);
      while |r| < limit
        invariant Valid() && |r| <= Max(limit, |out|) && Appended(old(sent), sent, out, r)
        invariant Serve(s, View(), now, Max(limit - |r|, 0))
                  == Serve(s, PathShaper.Refill(old(View()), now), now, Max(limit - |out|, 0))
        decreases Count(View())
      {
        var nControl := control.Len();
        var nPriority := priority.Len();
        var nBulk := bulk.Len();
        if nControl == 0 && (tokens <= 0.0 || nPriority + nBulk == 0) {
          break;
        }
        TurnCounts(s, View(), now);
        ghost var sent0, r0 := sent, r;
        if nControl > 0 {
          r := TakeControl(r);
        } else if nPriority > 0 && (priorityTokens > 0.0 || nBulk == 0) {
          r := TakePriority(now, r);
        } else {
          r := TakeBulk(now, r);
        }
        AppendedOne(old(sent), sent0, sent, out, r0, r);
      }
    }

    /** The time to sleep before the next dequeue; -1 on an empty path. */
    method Wait(now: int) returns (d: int)
      requires Valid() && r.rate > 0.0
      modifies this`last, this`tokens, this`priorityTokens
      ensures Valid() && (View(), d) == PathShaper.Wait(old(View()), now)
    {
      hide PathShaper.Refill, ShaperQueue.Valid, ShaperQueue.Contents, Codel.Controller.View;
      var nControl := control.Len();
      if nControl > 0 {
        return 0;
      }
      var nPriority := priority.Len();
      var nBulk := bulk.Len();
      if nPriority + nBulk == 0 {
        return -1;
      }
      Refill(now);
      assert r == old(r) by { RefillRate(old(View()), now); }
      if tokens > 0.0 {
        return 0;
      }
      var need := -tokens + r.burst / 2.0;
      return (need / r.rate * 1000000000.0).Floor;
    }

    /** Gives back all that is queued. */
    method Reset()
      requires Valid()
      modifies this`queued, this`released, control, priority, bulk
      ensures Valid() && View() == PathShaper.Reset(old(View()))
    {
      hide Wire, Packets, ShaperQueue.Valid, ShaperQueue.Contents, Codel.Controller.View;
      Release(control);
      Release(priority);
      Release(bulk);
    }

    method Release(sq: ShaperQueue)
      requires sq.Valid()
      modifies this`queued, this`released, sq
      ensures sq.Valid() && sq.Contents() == []
      ensures queued == old(queued) - Wire(old(sq.Contents()))
      ensures released == old(released) + Packets(old(sq.Contents()))
    {
      hide Wire, Packets, ShaperQueue.Valid, ShaperQueue.Contents;
      var left := sq.Len();
      ghost var all := sq.Contents();
      NothingHeld(all);
      ghost var i := 0;
      while left > 0
        invariant sq.Valid() && i + left == |all| && sq.Contents() == all[i..]
        invariant queued == old(queued) - Wire(all[..i])
        invariant released == old(released) + Packets(all[..i])
        decreases left
      {
        var it := sq.Pop();
        queued := queued - it.wire;
        released := released + [it.pkt];
        WireAndPackets(all, i);
        i := i + 1;
        left := sq.Len();
      }
      assert all[..|all|] == all;
    }
  }

  lemma RefillRate(p: Shaper, now: int)
    ensures PathShaper.Refill(p, now).r == p.r
  {
  }

  /** One turn appends the item it sends, if it sends one. */
  ghost predicate Found(before: seq<Sent>, after: seq<Sent>, out: seq<Item>, r: seq<Item>) {
    || (after == before && r == out)
    || (exists x :: after == before + [x] && r == out + [x.it])
  }

  lemma FoundEither(sent: seq<Sent>, x: Sent, out: seq<Item>)
    ensures Found(sent, sent, out, out) && Found(sent, sent + [x], out, out + [x.it])
  {
  }

  /** What a dequeue appends to out is what it adds to the history of sent items. */
  ghost predicate Appended(before: seq<Sent>, after: seq<Sent>, out: seq<Item>, r: seq<Item>) {
    && before <= after && out <= r && |r| - |out| == |after| - |before|
    && forall i :: |out| <= i < |r| ==> r[i] == after[|before| + i - |out|].it
  }

  lemma AppendedNothing(sent: seq<Sent>, out: seq<Item>)
    ensures Appended(sent, sent, out, out)
  {
  }

  lemma AppendedOne(before: seq<Sent>, mid: seq<Sent>, after: seq<Sent>, out: seq<Item>, r0: seq<Item>, r: seq<Item>)
    requires Appended(before, mid, out, r0) && Found(mid, after, r0, r)
    ensures Appended(before, after, out, r) && |r| - |r0| == |after| - |mid| <= 1
  {
  }
}
