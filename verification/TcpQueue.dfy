/** The send queue of a TCP tunnel connection (src/tcp_tunnel_queue.go) as a value. */
module TcpQueue {
  import opened Fifo
  import opened Reals
  import Codel

  const MAX_CREDIT := 65536

  datatype Settings = Settings(prioritySize: int, share: real, codelParams: Codel.Params, codel: bool, limit: int) {
    // newTcpQueueSettings: a share of 1 to 100 percent, or none when the queue is disabled.
    predicate Valid() { prioritySize >= 0 && 0.0 <= share <= 1.0 && limit >= 0 }
  }

  datatype Class = Control | Priority | Reliable | Bulk

  datatype Sent = Sent(it: Item, cls: Class)

  /**
   * taken, entered, sent and released are history: references pushed, put in a queue, popped, and
   * given back without being sent.
   */
  datatype Queue = Queue(
    control: seq<Item>, priority: seq<Item>, bulk: seq<Item>, reliable: seq<Item>,
    codel: Codel.State, credit: real, closed: bool, queued: int,
    taken: seq<Packet>, entered: seq<Sent>, sent: seq<Sent>, released: seq<Packet>)

  function Empty(): Queue {
    Queue([], [], [], [], Codel.Fresh, MAX_CREDIT as real, false, 0, [], [], [], [])
  }

  /** Bytes that count against the limit. */
  function Held(q: Queue): nat { Wire(q.priority) + Wire(q.bulk) + Wire(q.reliable) }

  predicate Small(s: Settings, wire: int) { s.prioritySize > 0 && wire <= s.prioritySize }

  // ---- push -----------------------------------------------------------------------------

  /** Make room by dropping the oldest bulk packets. */
  function MakeRoom(s: Settings, q: Queue, wire: nat): Queue
    decreases |q.bulk|
  {
    if Held(q) + wire > s.limit && |q.bulk| > 0 then
      MakeRoom(s, q.(bulk := q.bulk[1..], queued := q.queued - q.bulk[0].wire,
                     released := q.released + [q.bulk[0].pkt]), wire)
    else q
  }

  function Accept(q: Queue, cls: Class, it: Item): Queue {
    var q1 := q.(queued := q.queued + it.wire, entered := q.entered + [Sent(it, cls)]);
    match cls
    case Control => q1.(control := q.control + [it])
    case Priority => q1.(priority := q.priority + [it])
    case Reliable => q1.(reliable := q.reliable + [it])
    case Bulk => q1.(bulk := q.bulk + [it])
  }

  function Refuse(q: Queue, pkt: Packet): Queue { q.(released := q.released + [pkt]) }

  /** Where a packet belongs. */
  function ClassOf(s: Settings, pkt: Packet, control: bool): Class {
    if control then Control
    else if Small(s, pkt.size) then Priority
    else if pkt.noDrop then Reliable
    else Bulk
  }

  function Push(s: Settings, q: Queue, pkt: Packet, control: bool, now: int): (Queue, bool) {
    var it := Item(pkt, 0, now, pkt.size);
    var q0 := q.(taken := q.taken + [pkt]);
    var cls := ClassOf(s, pkt, control);
    if q.closed then (Refuse(q0, pkt), false)
    else if control || pkt.noDrop then (Accept(q0, cls, it), true)
    else
      var q1 := MakeRoom(s, q0, it.wire);
      if Held(q1) + it.wire > s.limit then (Refuse(q1, pkt), false) else (Accept(q1, cls, it), true)
  }

  // ---- pop ------------------------------------------------------------------------------

  /** The priority credit that wire bulk bytes earn. */
  function Earn(s: Settings, wire: int): real
    requires s.Valid()
  {
    wire as real * s.share / (1.0 - s.share + 0.000000001)
  }

  function BulkLen(q: Queue): nat { |q.bulk| + |q.reliable| }

  /** With no bulk waiting, priority starts again from full credit. */
  function Refresh(q: Queue): Queue {
    if BulkLen(q) == 0 then q.(credit := MAX_CREDIT as real) else q
  }

  predicate PriorityTurn(q: Queue) { |q.priority| > 0 && (q.credit > 0.0 || BulkLen(q) == 0) }

  predicate ReliableTurn(q: Queue) {
    |q.reliable| > 0 && (|q.bulk| == 0 || q.reliable[0].enq < q.bulk[0].enq)
  }

  function Emit(q: Queue, cls: Class, it: Item): Queue {
    q.(queued := q.queued - it.wire, sent := q.sent + [Sent(it, cls)])
  }

  function EarnCredit(s: Settings, q: Queue, wire: int): Queue
    requires s.Valid()
  {
    q.(credit := MinR(q.credit + Earn(s, wire), MAX_CREDIT as real))
  }

  /** CoDel's view of the head of bulk: no delay stands in a nearly empty queue. */
  function BulkSojourn(q: Queue, now: int): int
    requires |q.bulk| > 0
  {
    if Wire(q.bulk[1..]) + Wire(q.reliable) < MIN_STANDING then 0 else now - q.bulk[0].enq
  }

  function PopBulk(s: Settings, q: Queue, now: int): Queue
    requires s.Valid() && |q.bulk| > 0
  {
    var it := q.bulk[0];
    var (codel', drop) := if s.codel then Codel.Decide(s.codelParams, q.codel, now, BulkSojourn(q, now))
                          else (q.codel, false);
    var q1 := q.(bulk := q.bulk[1..], codel := codel');
    if drop then q1.(queued := q1.queued - it.wire, released := q1.released + [it.pkt])
    else Emit(EarnCredit(s, q1, it.wire), Bulk, it)
  }

  function PriorityTaken(q: Queue): Queue
    requires |q.priority| > 0
  {
    Emit(q.(priority := q.priority[1..], credit := q.credit - q.priority[0].wire as real), Priority, q.priority[0])
  }

  function ReliableTaken(s: Settings, q: Queue): Queue
    requires s.Valid() && |q.reliable| > 0
  {
    Emit(EarnCredit(s, q.(reliable := q.reliable[1..]), q.reliable[0].wire), Reliable, q.reliable[0])
  }

  /** One turn of the loop in pop, on a queue with something in it. */
  function Turn(s: Settings, q0: Queue, now: int): Queue
    requires s.Valid() && !IsEmpty(q0)
  {
    var q := Refresh(q0);
    if |q.control| > 0 then Emit(q.(control := q.control[1..]), Control, q.control[0])
    else if PriorityTurn(q) then PriorityTaken(q)
    else if ReliableTurn(q) then ReliableTaken(s, q)
    else PopBulk(s, q, now)
  }

  predicate IsEmpty(q: Queue) { |q.control| == 0 && |q.priority| == 0 && BulkLen(q) == 0 }

  function Count(q: Queue): nat { |q.control| + |q.priority| + BulkLen(q) }

  /** Every turn takes one packet out of its queue. */
  lemma TurnCounts(s: Settings, q: Queue, now: int)
    requires s.Valid() && !IsEmpty(q)
    ensures |q.sent| <= |Turn(s, q, now).sent| <= |q.sent| + 1
    ensures Count(Turn(s, q, now)) < Count(q)
  {
    hide Codel.Decide, Wire, Earn;
  }

  /** pop(now, out, limit), of which n packets are still to be found. */
  function Pop(s: Settings, q: Queue, now: int, n: nat): Queue
    requires s.Valid()
    decreases Count(q)
  {
    if n == 0 then q
    else if IsEmpty(q) then Refresh(q)
    else
      var q1 := Turn(s, q, now);
      Pop(s, q1, now, if |q1.sent| > |q.sent| then n - 1 else n)
  }

  // ---- close ----------------------------------------------------------------------------

  function Close(q: Queue): Queue {
    q.(closed := true, control := [], priority := [], bulk := [], reliable := [],
       queued := q.queued - Wire(q.control) - Wire(q.priority) - Wire(q.bulk) - Wire(q.reliable),
       released := q.released + Packets(q.control) + Packets(q.priority) + Packets(q.bulk) + Packets(q.reliable))
  }
}
