/** What may be dropped, and in which order packets leave (src/tcp_tunnel_queue.go). */
module TcpQueueOrder {
  import opened Fifo
  import opened TcpQueue
  import opened TcpQueueTheorems
  import Codel

  /** The items of one class in a log. */
  function Of(log: seq<Sent>, cls: Class): seq<Item> {
    if |log| == 0 then []
    else
      var x := log[|log| - 1];
      if x.cls == cls then Of(log[..|log| - 1], cls) + [x.it] else Of(log[..|log| - 1], cls)
  }

  lemma OfAppend(log: seq<Sent>, x: Sent, cls: Class)
    ensures Of(log + [x], cls) == if x.cls == cls then Of(log, cls) + [x.it] else Of(log, cls)
  {
    assert (log + [x])[..|log|] == log;
  }

  // ---- protected packets ----------------------------------------------------------------

  /** What entered a queue is what was sent from it followed by what it still holds. */
  predicate Intact(q: Queue, cls: Class, items: seq<Item>) {
    Of(q.entered, cls) == Of(q.sent, cls) + items
  }

  predicate Protected(q: Queue) {
    Intact(q, Control, q.control) && Intact(q, Priority, q.priority) && Intact(q, Reliable, q.reliable)
  }

  /** Room is made from the oldest bulk packets, no more of them than it takes, and nothing else is touched. */
  lemma {:induction false} MakeRoomDropsOldestBulk(s: Settings, q: Queue, wire: nat) returns (k: nat)
    ensures k <= |q.bulk|
    ensures var r := MakeRoom(s, q, wire);
            && r == q.(bulk := q.bulk[k..], queued := r.queued, released := q.released + Packets(q.bulk[..k]))
            && (k < |q.bulk| ==> Held(r) + wire <= s.limit)
    ensures forall j :: 0 <= j < k ==> Wire(q.priority) + Wire(q.bulk[j..]) + Wire(q.reliable) + wire > s.limit
    decreases |q.bulk|
  {
    hide Wire;
    if Held(q) + wire > s.limit && |q.bulk| > 0 {
      var j := MakeRoomDropsOldestBulk(s, DropOldest(q), wire);
      k := j + 1;
      assert q.bulk[1..][j..] == q.bulk[k..];
      assert q.bulk[..k][1..] == q.bulk[1..][..j];
      PacketsHead(q.bulk[..k]);
      forall i | 0 <= i < k ensures Wire(q.priority) + Wire(q.bulk[i..]) + Wire(q.reliable) + wire > s.limit {
        if i > 0 { assert q.bulk[1..][i - 1..] == q.bulk[i..]; } else { assert q.bulk[0..] == q.bulk; }
      }
    } else {
      k := 0;
      assert q.bulk[..0] == [] && q.bulk[0..] == q.bulk;
      assert q.released + Packets([]) == q.released;
    }
  }

  lemma AcceptProtects(q: Queue, cls: Class, it: Item)
    requires Protected(q)
    ensures Protected(Accept(q, cls, it))
  {
    hide Of;
    OfAppend(q.entered, Sent(it, cls), Control);
    OfAppend(q.entered, Sent(it, cls), Priority);
    OfAppend(q.entered, Sent(it, cls), Reliable);
  }

  lemma Unmoved(q: Queue, q': Queue)
    requires Protected(q)
    requires q'.control == q.control && q'.priority == q.priority && q'.reliable == q.reliable
    requires q'.entered == q.entered && q'.sent == q.sent
    ensures Protected(q')
  {
  }

  lemma PushProtects(s: Settings, q: Queue, pkt: Packet, control: bool, now: int)
    requires Protected(q)
    ensures Protected(Push(s, q, pkt, control, now).0) && Push(s, q, pkt, control, now).0.closed == q.closed
  {
    hide Of, MakeRoom, Packets, Held, Protected;
    var it := Item(pkt, 0, now, pkt.size);
    var q0 := q.(taken := q.taken + [pkt]);
    var k := MakeRoomDropsOldestBulk(s, q0, it.wire);
    var q1 := MakeRoom(s, q0, it.wire);
    Unmoved(q, q0);
    Unmoved(q, q1);
    Unmoved(q, Refuse(q0, pkt));
    Unmoved(q, Refuse(q1, pkt));
    AcceptProtects(q0, ClassOf(s, pkt, control), it);
    AcceptProtects(q1, ClassOf(s, pkt, control), it);
  }

  function QueueOf(q: Queue, cls: Class): seq<Item> {
    match cls
    case Control => q.control
    case Priority => q.priority
    case Reliable => q.reliable
    case Bulk => q.bulk
  }

  /** The head of one class leaves, and the other classes keep what they have. */
  predicate Leaves(q: Queue, q': Queue, cls: Class) {
    && |QueueOf(q, cls)| > 0
    && QueueOf(q', cls) == QueueOf(q, cls)[1..]
    && (cls == Control || q'.control == q.control)
    && (cls == Priority || q'.priority == q.priority)
    && (cls == Reliable || q'.reliable == q.reliable)
    && (cls == Bulk || q'.bulk == q.bulk)
    && q'.entered == q.entered && q'.closed == q.closed && q'.taken == q.taken
  }

  predicate Sends(q: Queue, q': Queue, cls: Class) {
    Leaves(q, q', cls) && q'.sent == q.sent + [Sent(QueueOf(q, cls)[0], cls)] && q'.released == q.released
  }

  predicate DropsBulk(q: Queue, q': Queue) {
    Leaves(q, q', Bulk) && q'.sent == q.sent && q'.released == q.released + [q.bulk[0].pkt]
  }

  /**
   * A turn sends the head of one class, or drops the head of bulk: control before anything else, then priority while it
   * has credit or no data waits, and of the two data classes the older head.
   */
  lemma TurnTakesOne(s: Settings, q: Queue, now: int) returns (cls: Class)
    requires s.Valid() && !IsEmpty(q)
    ensures Sends(q, Turn(s, q, now), cls) || (cls == Bulk && DropsBulk(q, Turn(s, q, now)))
    ensures cls == Control <==> |q.control| > 0
    ensures cls == Priority <==> |q.control| == 0 && |q.priority| > 0
                                 && (q.credit > 0.0 || |q.bulk| + |q.reliable| == 0)
    ensures cls == Reliable && |q.bulk| > 0 ==> q.reliable[0].enq < q.bulk[0].enq
    ensures cls == Bulk && |q.reliable| > 0 ==> q.bulk[0].enq <= q.reliable[0].enq
  {
    hide Codel.Decide, Earn, Wire;
    cls := if |q.control| > 0 then Control else if PriorityTurn(Refresh(q)) then Priority
           else if ReliableTurn(q) then Reliable else Bulk;
  }

  lemma TurnProtects(s: Settings, q: Queue, now: int)
    requires s.Valid() && !IsEmpty(q) && Protected(q)
    ensures Protected(Turn(s, q, now)) && Turn(s, q, now).closed == q.closed
  {
    hide Of, Turn, IsEmpty;
    var cls := TurnTakesOne(s, q, now);
    var x := Sent(QueueOf(q, cls)[0], cls);
    OfAppend(q.sent, x, Control);
    OfAppend(q.sent, x, Priority);
    OfAppend(q.sent, x, Reliable);
  }

  predicate NoClose(ops: seq<Op>) { forall i :: 0 <= i < |ops| ==> !ops[i].DoClose? }

  /**
   * Until the queue is closed, control, priority and large no-drop packets that were accepted leave only
   * by being sent, each class in the order it was accepted: no drop reaches them.
   */
  lemma {:induction false} ProtectedLeaveOnlyBySending(s: Settings, ops: seq<Op>)
    requires s.Valid() && NoClose(ops)
    ensures Protected(Run(s, Empty(), ops)) && !Run(s, Empty(), ops).closed
  {
    if |ops| == 0 {
      assert Protected(Empty());
    } else {
      hide Of, Protected, Turn, Push, IsEmpty;
      var init := ops[..|ops| - 1];
      ProtectedLeaveOnlyBySending(s, init);
      var q := Run(s, Empty(), init);
      match ops[|ops| - 1]
      case DoPush(pkt, control, now) =>
        PushProtects(s, q, pkt, control, now);
      case DoTurn(now) =>
        if !IsEmpty(q) { TurnProtects(s, q, now); } else { Unmoved(q, Refresh(q)); }
      case DoClose => assert false;
    }
  }

  // ---- what is dropped, and how much droppable data is held ------------------------------

  lemma Drops(items: seq<Item>)
    requires forall i :: 0 <= i < |items| ==> !items[i].pkt.noDrop
    ensures |Packets(items)| == |items|
    ensures forall i :: 0 <= i < |items| ==> Packets(items)[i] == items[i].pkt
  {
    if |items| > 0 { Drops(items[..|items| - 1]); }
  }

  predicate Fit(s: Settings, items: seq<Item>) { forall i :: 0 <= i < |items| ==> items[i].wire <= s.prioritySize }

  predicate Loose(items: seq<Item>) { forall i :: 0 <= i < |items| ==> !items[i].pkt.noDrop }

  predicate Droppables(released: seq<Packet>) { forall i :: 0 <= i < |released| ==> !released[i].noDrop }

  predicate Within(s: Settings, priority: seq<Item>, bulk: seq<Item>) {
    Droppable(priority) + Droppable(bulk) <= s.limit
  }

  /** Priority packets are small, bulk packets droppable, and droppable data stays within the limit. */
  predicate Classed(s: Settings, q: Queue) {
    !q.closed && Fit(s, q.priority) && Loose(q.bulk) && Within(s, q.priority, q.bulk) && Droppables(q.released)
  }

  lemma {:induction false} DroppableTail(items: seq<Item>, k: nat)
    requires k <= |items|
    ensures Droppable(items[k..]) <= Droppable(items)
  {
    if k == 0 {
      assert items[0..] == items;
    } else {
      DroppableHead(items);
      DroppableTail(items[1..], k - 1);
      assert items[1..][k - 1..] == items[k..];
    }
  }

  lemma MakeRoomClasses(s: Settings, q: Queue, wire: nat)
    requires Classed(s, q)
    ensures Classed(s, MakeRoom(s, q, wire))
  {
    hide MakeRoom, Packets, Droppable, Held;
    var k := MakeRoomDropsOldestBulk(s, q, wire);
    Drops(q.bulk[..k]);
    DroppableTail(q.bulk, k);
  }

  lemma AcceptClasses(s: Settings, q: Queue, cls: Class, it: Item)
    requires Classed(s, q)
    requires cls == Priority ==> it.wire <= s.prioritySize
    requires cls == Bulk ==> !it.pkt.noDrop
    requires it.pkt.noDrop || cls == Control || Held(q) + it.wire <= s.limit
    ensures Classed(s, Accept(q, cls, it))
  {
    hide Wire, Droppable;
    DroppableAppend(q.priority, it);
    DroppableAppend(q.bulk, it);
    DroppableWire(q.priority);
    DroppableWire(q.bulk);
  }

  lemma PushClasses(s: Settings, q: Queue, pkt: Packet, control: bool, now: int)
    requires Classed(s, q)
    ensures Classed(s, Push(s, q, pkt, control, now).0)
  {
    hide MakeRoom, Accept, Held, Fit, Loose, Within;
    var it := Item(pkt, 0, now, pkt.size);
    var q0 := q.(taken := q.taken + [pkt]);
    MakeRoomClasses(s, q0, it.wire);
    var q1 := MakeRoom(s, q0, it.wire);
    var cls := ClassOf(s, pkt, control);
    if control || pkt.noDrop {
      AcceptClasses(s, q0, cls, it);
    } else if Held(q1) + it.wire <= s.limit {
      AcceptClasses(s, q1, cls, it);
    }
  }

  lemma TurnClasses(s: Settings, q: Queue, now: int)
    requires s.Valid() && !IsEmpty(q) && Classed(s, q)
    ensures Classed(s, Turn(s, q, now))
  {
    hide Turn, IsEmpty, Droppable;
    var cls := TurnTakesOne(s, q, now);
    if |q.priority| > 0 { DroppableTail(q.priority, 1); }
    if |q.bulk| > 0 { DroppableTail(q.bulk, 1); }
  }

  /** Until the queue is closed only droppable packets are given back, and droppable data stays within the limit. */
  lemma {:induction false} OnlyDroppableReleased(s: Settings, ops: seq<Op>)
    requires s.Valid() && NoClose(ops)
    ensures Classed(s, Run(s, Empty(), ops))
  {
    if |ops| == 0 {
      assert Classed(s, Empty());
    } else {
      var init := ops[..|ops| - 1];
      OnlyDroppableReleased(s, init);
      var q := Run(s, Empty(), init);
      match ops[|ops| - 1]
      case DoPush(pkt, control, now) => PushClasses(s, q, pkt, control, now);
      case DoTurn(now) => if !IsEmpty(q) { TurnClasses(s, q, now); }
      case DoClose => assert false;
    }
  }

  // ---- arrival order --------------------------------------------------------------------

  predicate Ascending(items: seq<Item>) {
    forall i, j :: 0 <= i < j < |items| ==> items[i].enq <= items[j].enq
  }

  predicate AllBefore(items: seq<Item>, t: int) { forall i :: 0 <= i < |items| ==> items[i].enq <= t }

  predicate AllAfter(items: seq<Item>, t: int) { forall i :: 0 <= i < |items| ==> items[i].enq >= t }

  /** The data packets of a log, bulk and reliable together. */
  function Data(log: seq<Sent>): seq<Item> {
    if |log| == 0 then []
    else
      var x := log[|log| - 1];
      if x.cls == Bulk || x.cls == Reliable then Data(log[..|log| - 1]) + [x.it] else Data(log[..|log| - 1])
  }

  lemma DataAppend(log: seq<Sent>, x: Sent)
    ensures Data(log + [x]) == if x.cls == Bulk || x.cls == Reliable then Data(log) + [x.it] else Data(log)
  {
    assert (log + [x])[..|log|] == log;
  }

  /** Both queues ascend, between the data sent, which ends at or before low, and the latest push. */
  predicate InOrder(data: seq<Item>, bulk: seq<Item>, reliable: seq<Item>, low: int, latest: int) {
    && low <= latest
    && Ascending(data) && Ascending(bulk) && Ascending(reliable)
    && AllBefore(data, low) && AllAfter(bulk, low) && AllAfter(reliable, low)
    && AllBefore(bulk, latest) && AllBefore(reliable, latest)
  }

  predicate Timely(q: Queue, low: int, latest: int) { InOrder(Data(q.sent), q.bulk, q.reliable, low, latest) }

  lemma PushInOrder(s: Settings, q: Queue, pkt: Packet, control: bool, now: int, low: int, latest: int)
    requires Timely(q, low, latest) && latest <= now
    ensures Timely(Push(s, q, pkt, control, now).0, low, now)
  {
    hide MakeRoom, Held, Data, Packets;
    var k := MakeRoomDropsOldestBulk(s, q.(taken := q.taken + [pkt]), pkt.size);
  }

  lemma BulkInOrder(data: seq<Item>, bulk: seq<Item>, reliable: seq<Item>, low: int, latest: int)
    requires InOrder(data, bulk, reliable, low, latest) && |bulk| > 0
    requires |reliable| > 0 ==> bulk[0].enq <= reliable[0].enq
    ensures InOrder(data + [bulk[0]], bulk[1..], reliable, bulk[0].enq, latest)
    ensures InOrder(data, bulk[1..], reliable, low, latest)
  {
  }

  lemma ReliableInOrder(data: seq<Item>, bulk: seq<Item>, reliable: seq<Item>, low: int, latest: int)
    requires InOrder(data, bulk, reliable, low, latest) && |reliable| > 0
    requires |bulk| > 0 ==> reliable[0].enq <= bulk[0].enq
    ensures InOrder(data + [reliable[0]], bulk, reliable[1..], reliable[0].enq, latest)
  {
  }

  lemma TurnInOrder(s: Settings, q: Queue, now: int, low: int, latest: int) returns (low': int)
    requires s.Valid() && !IsEmpty(q) && Timely(q, low, latest)
    ensures Timely(Turn(s, q, now), low', latest)
  {
    hide Data, Turn, InOrder, IsEmpty;
    var cls := TurnTakesOne(s, q, now);
    DataAppend(q.sent, Sent(QueueOf(q, cls)[0], cls));
    low' := low;
    if cls == Bulk {
      BulkInOrder(Data(q.sent), q.bulk, q.reliable, low, latest);
      if Sends(q, Turn(s, q, now), Bulk) { low' := q.bulk[0].enq; }
    } else if cls == Reliable {
      ReliableInOrder(Data(q.sent), q.bulk, q.reliable, low, latest);
      low' := q.reliable[0].enq;
    }
  }

  /** The latest push of a run, 0 before any. */
  function Latest(ops: seq<Op>, start: int): int {
    if |ops| == 0 then start
    else if ops[|ops| - 1].DoPush? then ops[|ops| - 1].at
    else Latest(ops[..|ops| - 1], start)
  }

  predicate PushesAscend(ops: seq<Op>, start: int) {
    |ops| > 0 ==>
      && PushesAscend(ops[..|ops| - 1], start)
      && (ops[|ops| - 1].DoPush? ==> Latest(ops[..|ops| - 1], start) <= ops[|ops| - 1].at)
  }

  /** With pushes that do not go back in time, bulk and reliable packets leave merged in arrival order. */
  lemma {:induction false} ArrivalOrder(s: Settings, ops: seq<Op>, start: int) returns (low: int)
    requires s.Valid() && PushesAscend(ops, start)
    ensures Ascending(Data(Run(s, Empty(), ops).sent))
    ensures Timely(Run(s, Empty(), ops), low, Latest(ops, start))
  {
    if |ops| == 0 {
      low := start;
    } else {
      hide Data, Turn, Push;
      var init := ops[..|ops| - 1];
      low := ArrivalOrder(s, init, start);
      var q := Run(s, Empty(), init);
      match ops[|ops| - 1]
      case DoPush(pkt, control, now) => PushInOrder(s, q, pkt, control, now, low, Latest(init, start));
      case DoTurn(now) => if !IsEmpty(q) { low := TurnInOrder(s, q, now, low, Latest(init, start)); }
      case DoClose =>
    }
  }
}
