/** Packets, queue items and the slice-backed FIFO of src/shaper.go. */
module Fifo {
  datatype Packet = Packet(id: int, size: nat, noDrop: bool)

  datatype Item = Item(pkt: Packet, addr: int, enq: int, wire: nat)

  const Blank := Item(Packet(0, 0, false), 0, 0, 0)

  /** A bulk queue holding less than this is never considered standing. */
  const MIN_STANDING := 1500

  /** Bytes on the wire of a queue. */
  function Wire(q: seq<Item>): nat {
    if |q| == 0 then 0 else Wire(q[..|q| - 1]) + q[|q| - 1].wire
  }

  lemma WireAppend(q: seq<Item>, it: Item)
    ensures Wire(q + [it]) == Wire(q) + it.wire
  {
    assert (q + [it])[..|q|] == q;
  }

  lemma {:induction false} WireHead(q: seq<Item>)
    requires |q| > 0
    ensures Wire(q) == q[0].wire + Wire(q[1..])
  {
    if |q| > 1 {
      WireHead(q[..|q| - 1]);
      assert q[..|q| - 1][1..] == q[1..][..|q| - 2];
    }
  }

  /** The packets of a queue, in order. */
  function Packets(items: seq<Item>): seq<Packet> {
    if |items| == 0 then [] else Packets(items[..|items| - 1]) + [items[|items| - 1].pkt]
  }

  lemma {:induction false} PacketsHead(items: seq<Item>)
    requires |items| > 0
    ensures Packets(items) == [items[0].pkt] + Packets(items[1..])
  {
    if |items| > 1 {
      PacketsHead(items[..|items| - 1]);
      assert items[..|items| - 1][1..] == items[1..][..|items| - 2];
    }
  }

  function Bag(items: seq<Item>): multiset<Packet> {
    if |items| == 0 then multiset{} else Bag(items[..|items| - 1]) + multiset{items[|items| - 1].pkt}
  }

  lemma BagAppend(items: seq<Item>, it: Item)
    ensures Bag(items + [it]) == Bag(items) + multiset{it.pkt}
  {
    assert (items + [it])[..|items|] == items;
  }

  lemma {:induction false} BagHead(items: seq<Item>)
    requires |items| > 0
    ensures Bag(items) == multiset{items[0].pkt} + Bag(items[1..])
  {
    if |items| > 1 {
      BagHead(items[..|items| - 1]);
      assert items[..|items| - 1][1..] == items[1..][..|items| - 2];
    }
  }

  lemma {:induction false} PacketsBag(items: seq<Item>)
    ensures multiset(Packets(items)) == Bag(items)
  {
    if |items| > 0 { PacketsBag(items[..|items| - 1]); }
  }

  lemma NothingHeld(items: seq<Item>)
    ensures Wire(items[..0]) == 0 && Packets(items[..0]) == []
  {
  }

  lemma WireAndPackets(items: seq<Item>, k: nat)
    requires k < |items|
    ensures Wire(items[..k + 1]) == Wire(items[..k]) + items[k].wire
    ensures Packets(items[..k + 1]) == Packets(items[..k]) + [items[k].pkt]
    ensures items[k..][0] == items[k] && items[k..][1..] == items[k + 1..]
  {
    assert items[..k + 1][..k] == items[..k];
  }

  class ShaperQueue {
    var items: seq<Item>
    var head: nat
    var bytes: int

    // Items compaction has copied so far, and the pushes and pops that pay for it, one item each.
    ghost var copied: nat
    ghost var pushes: nat
    ghost var pops: nat

    ghost predicate Valid()
      reads this
    {
      && head <= |items| && (head == |items| ==> head == 0)
      && bytes == Wire(items[head..])
      && copied + head <= pushes + pops
    }

    ghost function Contents(): seq<Item>
      requires Valid()
      reads this
    {
      items[head..]
    }

    lemma BytesAreWire()
      requires Valid()
      ensures bytes == Wire(Contents())
    {
    }

    constructor ()
      ensures Valid() && Contents() == [] && copied == pushes == pops == 0
    {
      items, head, bytes, copied, pushes, pops := [], 0, 0, 0, 0, 0;
    }

    method Len() returns (n: nat)
      requires Valid()
      ensures n == |Contents()|
    {
      n := |items| - head;
    }

    /** Moves the live items to the front once the dead half is the larger one. */
    method Push(it: Item)
      requires Valid()
      modifies this
      ensures Valid() && Contents() == old(Contents()) + [it]
      ensures bytes == Wire(Contents())
      ensures pushes == old(pushes) + 1 && pops == old(pops) && copied <= pushes + pops
    {
      WireAppend(items[head..], it);
      if head > 0 && head >= |items| / 2 {
        copied := copied + (|items| - head);
        items := items[head..];
        head := 0;
      }
      assert (items + [it])[head..] == items[head..] + [it];
      items := items + [it];
      bytes := bytes + it.wire;
      pushes := pushes + 1;
    }

    method Peek() returns (it: Item)
      requires Valid() && Contents() != []
      ensures it == Contents()[0]
    {
      it := items[head];
    }

    method Pop() returns (it: Item)
      requires Valid() && Contents() != []
      modifies this
      ensures Valid() && it == old(Contents())[0] && Contents() == old(Contents())[1..]
      ensures bytes == Wire(Contents())
      ensures pushes == old(pushes) && pops == old(pops) + 1 && copied <= pushes + pops
    {
      WireHead(items[head..]);
      it := items[head];
      assert items[head..][1..] == items[head := Blank][head + 1..];
      items := items[head := Blank];
      head := head + 1;
      bytes := bytes - it.wire;
      pops := pops + 1;
      if head == |items| {
        items := [];
        head := 0;
      }
    }
  }
}
