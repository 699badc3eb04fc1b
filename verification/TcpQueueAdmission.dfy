/** What push accepts and where it puts it, and what close ends (src/tcp_tunnel_queue.go:201-245 and 333-344). */
module TcpQueueAdmission {
  import opened Fifo
  import opened TcpQueue
  import opened TcpQueueTheorems
  import opened TcpQueueOrder

  /** Where a packet goes: control messages apart, small packets are priority, whatever else they are. */
  predicate Belongs(s: Settings, pkt: Packet, control: bool, cls: Class) {
    match cls
    case Control => control
    case Priority => !control && 0 < s.prioritySize && pkt.size <= s.prioritySize
    case Reliable => !control && !(0 < s.prioritySize && pkt.size <= s.prioritySize) && pkt.noDrop
    case Bulk => !control && !(0 < s.prioritySize && pkt.size <= s.prioritySize) && !pkt.noDrop
  }

  /** The first k bulk packets do not leave room for size bytes, but without them there is room. */
  predicate Fewest(s: Settings, q: Queue, size: nat, k: nat)
    requires k <= |q.bulk|
  {
    && (forall j :: 0 <= j < k ==> Wire(q.priority) + Wire(q.bulk[j..]) + Wire(q.reliable) + size > s.limit)
    && (k < |q.bulk| ==> Wire(q.priority) + Wire(q.bulk[k..]) + Wire(q.reliable) + size <= s.limit)
  }

  /** An accepted packet joins the end of its class, and nothing else enters. */
  predicate Enters(q: Queue, q': Queue, cls: Class, it: Item, k: nat)
    requires k <= |q.bulk|
  {
    && q'.entered == q.entered + [Sent(it, cls)]
    && q'.control == (if cls == Control then q.control + [it] else q.control)
    && q'.priority == (if cls == Priority then q.priority + [it] else q.priority)
    && q'.reliable == (if cls == Reliable then q.reliable + [it] else q.reliable)
    && q'.bulk == (if cls == Bulk then q.bulk[k..] + [it] else q.bulk[k..])
    && q'.released == q.released + Packets(q.bulk[..k])
  }

  /** A refused packet is given back, behind the bulk packets dropped in vain. */
  predicate TurnedAway(q: Queue, q': Queue, pkt: Packet, k: nat)
    requires k <= |q.bulk|
  {
    && q'.entered == q.entered && q'.control == q.control && q'.priority == q.priority && q'.reliable == q.reliable
    && q'.bulk == q.bulk[k..] && q'.released == q.released + Packets(q.bulk[..k]) + [pkt]
  }

  /**
   * push accepts a packet exactly if the queue is open and the packet is control, or must not be dropped, or fits
   * beside what is held in priority and reliable: bulk, and only as much of it as needed, makes room. It says so, and
   * puts the packet where it belongs.
   */
  lemma PushAdmits(s: Settings, q: Queue, pkt: Packet, control: bool, now: int) returns (cls: Class, k: nat)
    ensures Belongs(s, pkt, control, cls) && k <= |q.bulk|
    ensures if q.closed || control || pkt.noDrop then k == 0 else Fewest(s, q, pkt.size, k)
    ensures var (q', ok) := Push(s, q, pkt, control, now);
            && (ok <==> !q.closed && (control || pkt.noDrop
                                      || Wire(q.priority) + Wire(q.reliable) + pkt.size <= s.limit))
            && (if ok then Enters(q, q', cls, Item(pkt, 0, now, pkt.size), k) else TurnedAway(q, q', pkt, k))
            && q'.closed == q.closed && q'.sent == q.sent && q'.credit == q.credit
  {
    hide MakeRoom, Wire, Packets;
    cls := ClassOf(s, pkt, control);
    NothingIn();
    k := 0;
    assert q.bulk[0..] == q.bulk && q.bulk[..0] == [];
    assert q.released + [] == q.released;
    if !q.closed && !control && !pkt.noDrop {
      var q0 := q.(taken := q.taken + [pkt]);
      k := MakeRoomDropsOldestBulk(s, q0, pkt.size);
      if k == |q.bulk| { assert q.bulk[k..] == []; }
    }
  }

  lemma NothingIn()
    ensures Packets([]) == [] && Wire([]) == 0
  {
  }

  // ---- close ----------------------------------------------------------------------------

  /** Closed, and nothing held. */
  predicate Over(q: Queue) { q.closed && IsEmpty(q) }

  lemma StepOver(s: Settings, q: Queue, op: Op)
    requires s.Valid() && Over(q)
    ensures var q' := Step(s, q, op);
            Over(q') && q'.entered == q.entered && q'.sent == q.sent && q'.queued == q.queued
            && q'.released == if op.DoPush? then q.released + [op.pkt] else q.released
    ensures op.DoPush? ==> !Push(s, q, op.pkt, op.control, op.at).1
  {
    hide MakeRoom, ClassOf;
    NothingIn();
    assert q.released + [] == q.released;
  }

  /** The packets pushed in a run. */
  function Pushed(ops: seq<Op>): seq<Packet> {
    if |ops| == 0 then []
    else Pushed(ops[..|ops| - 1]) + (if ops[|ops| - 1].DoPush? then [ops[|ops| - 1].pkt] else [])
  }

  /**
   * Once closed, whatever is pushed or popped: nothing enters and nothing leaves, the backlog is nothing, and every
   * packet is given back when it is pushed.
   */
  lemma {:induction false} CloseEnds(s: Settings, before: seq<Op>, after: seq<Op>)
    requires s.Valid()
    ensures var q := Run(s, Empty(), before + [DoClose]);
            var q' := Run(s, q, after);
            && Over(q') && q'.entered == q.entered && q'.sent == Run(s, Empty(), before).sent && q'.queued == 0
            && q'.released == q.released + Pushed(after)
  {
    hide Step, Over, Empty, Packets, Wire;
    var q := Run(s, Empty(), before);
    assert (before + [DoClose])[..|before|] == before;
    if |after| == 0 {
      Closes(s, q);
      QueueConservation(s, before);
      CloseConserves(q);
    } else {
      CloseEnds(s, before, after[..|after| - 1]);
      StepOver(s, Run(s, Run(s, Empty(), before + [DoClose]), after[..|after| - 1]), after[|after| - 1]);
    }
  }

  lemma Closes(s: Settings, q: Queue)
    requires s.Valid()
    ensures Over(Close(q)) && Step(s, q, DoClose) == Close(q) && Close(q).sent == q.sent
  {
    hide Packets, Wire;
  }
}
