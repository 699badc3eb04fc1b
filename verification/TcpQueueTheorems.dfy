/** What src/tcp_tunnel_queue.go guarantees over every interleaving of push, pop and close. */
module TcpQueueTheorems {
  import opened Fifo
  import opened TcpQueue
  import Codel

  /** A pop is a sequence of turns at one time; pushes may come between any two. */
  datatype Op = DoPush(pkt: Packet, control: bool, at: int) | DoTurn(now: int) | DoClose

  function Step(s: Settings, q: Queue, op: Op): Queue
    requires s.Valid()
  {
    match op
    case DoPush(pkt, control, now) => Push(s, q, pkt, control, now).0
    case DoTurn(now) => if IsEmpty(q) then Refresh(q) else Turn(s, q, now)
    case DoClose => Close(q)
  }

  function Run(s: Settings, q: Queue, ops: seq<Op>): Queue
    requires s.Valid()
  {
    if |ops| == 0 then q else Step(s, Run(s, q, ops[..|ops| - 1]), ops[|ops| - 1])
  }

  lemma {:induction false} RunSplits(s: Settings, q: Queue, a: seq<Op>, b: seq<Op>)
    requires s.Valid()
    ensures Run(s, q, a + b) == Run(s, Run(s, q, a), b)
  {
    if |b| == 0 {
      assert a + b == a;
    } else {
      assert (a + b)[..|a + b| - 1] == a + b[..|b| - 1];
      RunSplits(s, q, a, b[..|b| - 1]);
    }
  }

  /** Every pop is a run of turns, and finds fewer than it was asked for only by emptying all four queues. */
  lemma {:induction false} PopIsRun(s: Settings, q: Queue, now: int, n: nat) returns (turns: seq<Op>)
    requires s.Valid()
    ensures Pop(s, q, now, n) == Run(s, q, turns)
    ensures forall op :: op in turns ==> op == DoTurn(now)
    ensures |q.sent| <= |Pop(s, q, now, n).sent| <= |q.sent| + n
    ensures |Pop(s, q, now, n).sent| < |q.sent| + n ==> IsEmpty(Pop(s, q, now, n))
    decreases Count(q)
  {
    hide Turn, Count;
    if n == 0 {
      turns := [];
    } else if IsEmpty(q) {
      turns := [DoTurn(now)];
      assert turns[..0] == [];
    } else {
      TurnCounts(s, q, now);
      var q1 := Turn(s, q, now);
      var rest := PopIsRun(s, q1, now, if |q1.sent| > |q.sent| then n - 1 else n);
      turns := [DoTurn(now)] + rest;
      assert [DoTurn(now)][..0] == [];
      assert Run(s, q, [DoTurn(now)]) == q1;
      RunSplits(s, q, [DoTurn(now)], rest);
    }
  }

  // ---- conservation ---------------------------------------------------------------------

  function SentBag(sent: seq<Sent>): multiset<Packet> {
    if |sent| == 0 then multiset{} else SentBag(sent[..|sent| - 1]) + multiset{sent[|sent| - 1].it.pkt}
  }

  lemma SentAppend(sent: seq<Sent>, x: Sent)
    ensures SentBag(sent + [x]) == SentBag(sent) + multiset{x.it.pkt}
  {
    assert (sent + [x])[..|sent|] == sent;
  }

  function Queued(q: Queue): multiset<Packet> { Bag(q.control) + Bag(q.priority) + Bag(q.bulk) + Bag(q.reliable) }

  /** Every reference pushed is exactly one of queued, sent or released. */
  ghost predicate Conserved(q: Queue) {
    multiset(q.taken) == Queued(q) + SentBag(q.sent) + multiset(q.released)
  }

  /** The backlog counter is the wire bytes of the four queues. */
  ghost predicate Accounted(q: Queue) {
    q.queued == Wire(q.control) + Wire(q.priority) + Wire(q.bulk) + Wire(q.reliable)
  }

  /** The oldest bulk packet is dropped to make room. */
  function DropOldest(q: Queue): Queue
    requires |q.bulk| > 0
  {
    q.(bulk := q.bulk[1..], queued := q.queued - q.bulk[0].wire, released := q.released + [q.bulk[0].pkt])
  }

  lemma DropOldestKeeps(q: Queue)
    requires |q.bulk| > 0 && Conserved(q) && Accounted(q)
    ensures Conserved(DropOldest(q)) && Accounted(DropOldest(q))
  {
    BagHead(q.bulk);
    WireHead(q.bulk);
  }

  lemma {:induction false} MakeRoomKeeps(s: Settings, q: Queue, wire: nat)
    requires Conserved(q) && Accounted(q)
    ensures Conserved(MakeRoom(s, q, wire)) && Accounted(MakeRoom(s, q, wire))
    decreases |q.bulk|
  {
    hide Conserved, Accounted, Wire;
    if Held(q) + wire > s.limit && |q.bulk| > 0 {
      DropOldestKeeps(q);
      MakeRoomKeeps(s, DropOldest(q), wire);
    }
  }

  lemma AcceptKeeps(q: Queue, cls: Class, it: Item)
    requires multiset(q.taken) == Queued(q) + SentBag(q.sent) + multiset(q.released) + multiset{it.pkt} && Accounted(q)
    ensures Conserved(Accept(q, cls, it)) && Accounted(Accept(q, cls, it))
  {
    hide Bag, Wire, SentBag;
    var items :=
      match cls case Control => q.control case Priority => q.priority case Reliable => q.reliable case Bulk => q.bulk;
    BagAppend(items, it);
    WireAppend(items, it);
  }

  lemma PushConserves(s: Settings, q: Queue, pkt: Packet, control: bool, now: int)
    requires Conserved(q) && Accounted(q)
    ensures Conserved(Push(s, q, pkt, control, now).0) && Accounted(Push(s, q, pkt, control, now).0)
  {
    hide MakeRoom, Accept, Wire, Bag, SentBag;
    var it := Item(pkt, 0, now, pkt.size);
    MakeRoomKeeps(s, q, it.wire);
    MakeRoomIgnoresTaken(s, q, q.taken + [pkt], it.wire);
    var q0 := q.(taken := q.taken + [pkt]);
    var q1 := MakeRoom(s, q0, it.wire);
    AcceptKeeps(q0, ClassOf(s, pkt, control), it);
    AcceptKeeps(q1, ClassOf(s, pkt, control), it);
  }

  lemma {:induction false} MakeRoomIgnoresTaken(s: Settings, q: Queue, taken: seq<Packet>, wire: nat)
    ensures MakeRoom(s, q.(taken := taken), wire) == MakeRoom(s, q, wire).(taken := taken)
    ensures MakeRoom(s, q, wire).taken == q.taken
    decreases |q.bulk|
  {
    if Held(q) + wire > s.limit && |q.bulk| > 0 {
      MakeRoomIgnoresTaken(s, DropOldest(q), taken, wire);
    }
  }

  /** The head of a queue turns from queued to sent, or to released. */
  lemma HeadLeaves(items: seq<Item>, rest: multiset<Packet>, sent: seq<Sent>, cls: Class, released: seq<Packet>,
          all: multiset<Packet>)
    requires |items| > 0 && all == Bag(items) + rest + SentBag(sent) + multiset(released)
    ensures all == Bag(items[1..]) + rest + SentBag(sent + [Sent(items[0], cls)]) + multiset(released)
    ensures all == Bag(items[1..]) + rest + SentBag(sent) + multiset(released + [items[0].pkt])
    ensures Wire(items) == items[0].wire + Wire(items[1..])
  {
    BagHead(items);
    WireHead(items);
    SentAppend(sent, Sent(items[0], cls));
  }

  lemma ControlLeaves(q: Queue)
    requires |q.control| > 0 && Conserved(q) && Accounted(q)
    ensures var q' := Emit(q.(control := q.control[1..]), Control, q.control[0]); Conserved(q') && Accounted(q')
  {
    hide Bag, Wire, SentBag;
    HeadLeaves(q.control, Bag(q.priority) + Bag(q.bulk) + Bag(q.reliable), q.sent, Control, q.released,
               multiset(q.taken));
  }

  lemma PriorityLeaves(q: Queue, credit: real)
    requires |q.priority| > 0 && Conserved(q) && Accounted(q)
    ensures var q' := Emit(q.(priority := q.priority[1..], credit := credit), Priority, q.priority[0]);
            Conserved(q') && Accounted(q')
  {
    hide Bag, Wire, SentBag;
    HeadLeaves(q.priority, Bag(q.control) + Bag(q.bulk) + Bag(q.reliable), q.sent, Priority, q.released,
               multiset(q.taken));
  }

  lemma ReliableLeaves(q: Queue, credit: real)
    requires |q.reliable| > 0 && Conserved(q) && Accounted(q)
    ensures var q' := Emit(q.(reliable := q.reliable[1..], credit := credit), Reliable, q.reliable[0]);
            Conserved(q') && Accounted(q')
  {
    hide Bag, Wire, SentBag;
    HeadLeaves(q.reliable, Bag(q.control) + Bag(q.bulk) + Bag(q.priority), q.sent, Reliable, q.released,
               multiset(q.taken));
  }

  lemma BulkLeaves(q: Queue, codel: Codel.State, credit: real)
    requires |q.bulk| > 0 && Conserved(q) && Accounted(q)
    ensures var q1 := q.(bulk := q.bulk[1..], codel := codel);
            var sent := Emit(q1.(credit := credit), Bulk, q.bulk[0]);
            var dropped := q1.(queued := q1.queued - q.bulk[0].wire, released := q1.released + [q.bulk[0].pkt]);
            Conserved(sent) && Accounted(sent) && Conserved(dropped) && Accounted(dropped)
  {
    hide Bag, Wire, SentBag;
    HeadLeaves(q.bulk, Bag(q.control) + Bag(q.reliable) + Bag(q.priority), q.sent, Bulk, q.released, multiset(q.taken));
  }

  lemma TurnConserves(s: Settings, q: Queue, now: int)
    requires s.Valid() && !IsEmpty(q) && Conserved(q) && Accounted(q)
    ensures Conserved(Turn(s, q, now)) && Accounted(Turn(s, q, now))
  {
    hide Codel.Decide, Earn, Emit, Conserved, Accounted, BulkSojourn;
    var q0 := Refresh(q);
    assert Conserved(q0) && Accounted(q0) by { RefreshKeeps(q); }
    if |q.control| > 0 {
      ControlLeaves(q0);
    } else if PriorityTurn(q0) {
      PriorityLeaves(q0, q0.credit - q0.priority[0].wire as real);
    } else if ReliableTurn(q0) {
      ReliableLeaves(q0, EarnCredit(s, q0, q0.reliable[0].wire).credit);
    } else {
      var codel' := if s.codel then Codel.Decide(s.codelParams, q0.codel, now, BulkSojourn(q0, now)).0 else q0.codel;
      BulkLeaves(q0, codel', EarnCredit(s, q0, q0.bulk[0].wire).credit);
    }
  }

  lemma RefreshKeeps(q: Queue)
    requires Conserved(q) && Accounted(q)
    ensures Conserved(Refresh(q)) && Accounted(Refresh(q))
  {
  }

  lemma CloseConserves(q: Queue)
    requires Conserved(q) && Accounted(q)
    ensures Conserved(Close(q)) && Accounted(Close(q)) && Close(q).queued == 0
  {
    PacketsBag(q.control);
    PacketsBag(q.priority);
    PacketsBag(q.bulk);
    PacketsBag(q.reliable);
  }

  lemma EmptyConserves()
    ensures Conserved(Empty()) && Accounted(Empty())
  {
  }

  /** From an empty queue, every reference pushed is queued, sent or released, once; the backlog is exact. */
  lemma {:induction false} QueueConservation(s: Settings, ops: seq<Op>)
    requires s.Valid()
    ensures Conserved(Run(s, Empty(), ops)) && Accounted(Run(s, Empty(), ops))
  {
    hide Turn, Push, Close, Empty, Conserved, Accounted;
    if |ops| == 0 {
      EmptyConserves();
    } else {
      var q := Run(s, Empty(), ops[..|ops| - 1]);
      QueueConservation(s, ops[..|ops| - 1]);
      match ops[|ops| - 1]
      case DoPush(pkt, control, now) => PushConserves(s, q, pkt, control, now);
      case DoTurn(now) => if !IsEmpty(q) { TurnConserves(s, q, now); } else { RefreshKeeps(q); }
      case DoClose => CloseConserves(q);
    }
  }

  // ---- what may be dropped --------------------------------------------------------------

  /** Bytes a droppable packet holds. */
  function Droppable(items: seq<Item>): nat {
    if |items| == 0 then 0
    else Droppable(items[..|items| - 1]) + (if items[|items| - 1].pkt.noDrop then 0 else items[|items| - 1].wire)
  }

  lemma DroppableAppend(items: seq<Item>, it: Item)
    ensures Droppable(items + [it]) == Droppable(items) + (if it.pkt.noDrop then 0 else it.wire)
  {
    assert (items + [it])[..|items|] == items;
  }

  lemma {:induction false} DroppableWire(items: seq<Item>)
    ensures Droppable(items) <= Wire(items)
  {
    if |items| > 0 { DroppableWire(items[..|items| - 1]); }
  }

  lemma {:induction false} DroppableHead(items: seq<Item>)
    requires |items| > 0
    ensures Droppable(items) == (if items[0].pkt.noDrop then 0 else items[0].wire) + Droppable(items[1..])
  {
    if |items| > 1 {
      DroppableHead(items[..|items| - 1]);
      assert items[..|items| - 1][1..] == items[1..][..|items| - 2];
    }
  }
}
