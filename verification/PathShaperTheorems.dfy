/** What the shaper of src/shaper.go guarantees over every run of enqueues, dequeues and waits. */
module PathShaperTheorems {
  import opened Fifo
  import opened Reals
  import opened PathShaper
  import Codel

  /** A dequeue is a refill and some turns at one time; a wait is a refill. */
  datatype Op =
    | DoEnqueue(pkt: Packet, addr: int, ipv6: bool, control: bool, at: int)
    | DoRefill(now: int)
    | DoTurn(now: int)
    | DoSetRate(now: int, rate: real)
    | DoReset

  function Step(s: Settings, p: Shaper, op: Op): Shaper
    requires s.Valid()
  {
    match op
    case DoEnqueue(pkt, addr, ipv6, control, now) => Enqueue(s, p, pkt, addr, ipv6, control, now)
    case DoRefill(now) => Refill(p, now)
    case DoTurn(now) => if Ready(p) then Turn(s, p, now) else p
    case DoSetRate(now, rate) => SetRate(s, p, now, rate)
    case DoReset => Reset(p)
  }

  function Run(s: Settings, p: Shaper, ops: seq<Op>): Shaper
    requires s.Valid()
  {
    if |ops| == 0 then p else Step(s, Run(s, p, ops[..|ops| - 1]), ops[|ops| - 1])
  }

  lemma {:induction false} RunSplits(s: Settings, p: Shaper, a: seq<Op>, b: seq<Op>)
    requires s.Valid()
    ensures Run(s, p, a + b) == Run(s, Run(s, p, a), b)
  {
    if |b| == 0 {
      assert a + b == a;
    } else {
      assert (a + b)[..|a + b| - 1] == a + b[..|b| - 1];
      RunSplits(s, p, a, b[..|b| - 1]);
    }
  }

  lemma {:induction false} ServeIsRun(s: Settings, p: Shaper, now: int, n: nat) returns (turns: seq<Op>)
    requires s.Valid()
    ensures Serve(s, p, now, n) == Run(s, p, turns)
    ensures forall op :: op in turns ==> op == DoTurn(now)
    ensures |p.out| <= |Serve(s, p, now, n).out| <= |p.out| + n
    ensures |Serve(s, p, now, n).out| < |p.out| + n ==> !Ready(Serve(s, p, now, n))
    decreases Count(p)
  {
    hide Turn, Count, Ready;
    if n == 0 || !Ready(p) {
      turns := [];
    } else {
      TurnCounts(s, p, now);
      var p1 := Turn(s, p, now);
      var rest := ServeIsRun(s, p1, now, if |p1.out| > |p.out| then n - 1 else n);
      turns := [DoTurn(now)] + rest;
      assert [DoTurn(now)][..0] == [];
      assert Run(s, p, [DoTurn(now)]) == p1;
      RunSplits(s, p, [DoTurn(now)], rest);
    }
  }

  /**
   * Every dequeue is a run of steps, and returns fewer than it was asked for only with no control message left and
   * either no tokens or no data left.
   */
  lemma DequeueIsRun(s: Settings, p: Shaper, now: int, n: nat) returns (ops: seq<Op>)
    requires s.Valid()
    ensures Dequeue(s, p, now, n) == Run(s, p, ops)
    ensures forall op :: op in ops ==> op == DoTurn(now) || op == DoRefill(now)
    ensures |Dequeue(s, p, now, n).out| <= |p.out| + n
    ensures var p' := Dequeue(s, p, now, n);
            |p'.out| < |p.out| + n ==> |p'.control| == 0 && (p'.tokens <= 0.0 || |p'.priority| + |p'.bulk| == 0)
  {
    hide Serve, Ready;
    var turns := ServeIsRun(s, Refill(p, now), now, n);
    ops := [DoRefill(now)] + turns;
    assert [DoRefill(now)][..0] == [];
    assert Run(s, p, [DoRefill(now)]) == Refill(p, now);
    RunSplits(s, p, [DoRefill(now)], turns);
    NotReady(Dequeue(s, p, now, n));
  }

  /** Nothing to take: no control message, and no tokens or no data. */
  lemma NotReady(p: Shaper)
    ensures !Ready(p) <==> |p.control| == 0 && (p.tokens <= 0.0 || |p.priority| + |p.bulk| == 0)
  {
  }

  // ---- what one step does ---------------------------------------------------------------

  function QueueOf(p: Shaper, cls: Class): seq<Item> {
    match cls
    case Control => p.control
    case Priority => p.priority
    case Bulk => p.bulk
  }

  /** The head of one class leaves; nothing else is queued or dequeued, and time stands still. */
  predicate Leaves(p: Shaper, p': Shaper, cls: Class) {
    && |QueueOf(p, cls)| > 0
    && QueueOf(p', cls) == QueueOf(p, cls)[1..]
    && (cls == Control || p'.control == p.control)
    && (cls == Priority || p'.priority == p.priority)
    && (cls == Bulk || p'.bulk == p.bulk)
    && p'.r == p.r && p'.last == p.last && p'.taken == p.taken
    && p'.queued == p.queued - QueueOf(p, cls)[0].wire
  }

  predicate Sends(p: Shaper, p': Shaper, cls: Class) {
    && Leaves(p, p', cls)
    && var it := QueueOf(p, cls)[0];
    && p'.out == p.out + [Sent(it, cls)] && p'.released == p.released && p'.sent == p.sent + it.wire
    && p'.tokens == p.tokens - it.wire as real
    && p'.priorityTokens
       == if cls == Priority then MaxR(p.priorityTokens - it.wire as real, -p.r.priorityBurst) else p.priorityTokens
  }

  predicate Drops(p: Shaper, p': Shaper, cls: Class) {
    && Leaves(p, p', cls)
    && p'.out == p.out && p'.released == p.released + [QueueOf(p, cls)[0].pkt] && p'.sent == p.sent
    && p'.tokens == p.tokens && p'.priorityTokens == p.priorityTokens
  }

  /**
   * A turn sends or drops the head of one class: control before any data, and data only with tokens; priority while it
   * has tokens of its own or no bulk waits, else bulk. Only data is dropped.
   */
  lemma TurnTakesOne(s: Settings, p: Shaper, now: int) returns (cls: Class)
    requires Ready(p)
    ensures var p' := Turn(s, p, now); Sends(p, p', cls) || (cls != Control && Drops(p, p', cls))
    ensures cls == Control <==> |p.control| > 0
    ensures cls != Control ==> p.tokens > 0.0
    ensures cls == Priority <==> |p.control| == 0 && |p.priority| > 0 && (p.priorityTokens > 0.0 || |p.bulk| == 0)
  {
    hide Codel.Decide, Wire;
    cls := if |p.control| > 0 then Control else if PriorityTurn(p) then Priority else Bulk;
  }

  /** Room is made from the oldest bulk packets, no more of them than it takes, and nothing else is touched. */
  lemma {:induction false} MakeRoomDropsOldestBulk(s: Settings, p: Shaper, wire: nat) returns (k: nat)
    ensures k <= |p.bulk|
    ensures forall j :: 0 <= j < k ==> Wire(p.priority) + Wire(p.bulk[j..]) + wire > s.queueLimit
    ensures k < |p.bulk| ==> Wire(p.priority) + Wire(p.bulk[k..]) + wire <= s.queueLimit
    ensures var r := MakeRoom(s, p, wire);
            && r == p.(bulk := p.bulk[k..], queued := r.queued, released := p.released + Packets(p.bulk[..k]))
            && r.queued - Wire(r.bulk) == p.queued - Wire(p.bulk)
    decreases |p.bulk|
  {
    hide Wire, Packets;
    if Wire(p.priority) + Wire(p.bulk) + wire > s.queueLimit && |p.bulk| > 0 {
      var j := MakeRoomDropsOldestBulk(s, DropOldest(p), wire);
      k := j + 1;
      WireHead(p.bulk);
      assert p.bulk[1..][j..] == p.bulk[k..];
      assert p.bulk[..k][1..] == p.bulk[1..][..j];
      PacketsHead(p.bulk[..k]);
      forall i | 0 <= i < k ensures Wire(p.priority) + Wire(p.bulk[i..]) + wire > s.queueLimit {
        if i > 0 { assert p.bulk[1..][i - 1..] == p.bulk[i..]; } else { assert p.bulk[0..] == p.bulk; }
      }
    } else {
      k := 0;
      assert p.bulk[..0] == [] && p.bulk[0..] == p.bulk;
      NoPackets();
    }
  }

  lemma NoPackets()
    ensures Packets([]) == []
  {
  }

  /** enqueue never touches tokens, time or what was sent. */
  lemma EnqueueSpendsNothing(s: Settings, p: Shaper, pkt: Packet, addr: int, ipv6: bool, control: bool, now: int)
    ensures var p' := Enqueue(s, p, pkt, addr, ipv6, control, now);
            && p'.out == p.out && p'.tokens == p.tokens && p'.priorityTokens == p.priorityTokens
            && p'.last == p.last && p'.r == p.r && p'.sent == p.sent
  {
    hide MakeRoom, Wire, Packets;
    var wire := pkt.size + UdpWireOverhead(ipv6) + s.overhead;
    var k := MakeRoomDropsOldestBulk(s, p.(taken := p.taken + [pkt]), wire);
  }

  // ---- limits and conservation ----------------------------------------------------------

  function SentBag(log: seq<Sent>): multiset<Packet> {
    if |log| == 0 then multiset{} else SentBag(log[..|log| - 1]) + multiset{log[|log| - 1].it.pkt}
  }

  lemma SentBagAppend(log: seq<Sent>, x: Sent)
    ensures SentBag(log + [x]) == SentBag(log) + multiset{x.it.pkt}
  {
    assert (log + [x])[..|log|] == log;
  }

  /** Every reference enqueued is exactly one of queued, sent or released. */
  ghost predicate Conserved(p: Shaper) {
    multiset(p.taken) == Bag(p.control) + Bag(p.priority) + Bag(p.bulk) + SentBag(p.out) + multiset(p.released)
  }

  predicate Accounted(p: Shaper) { p.queued == Wire(p.control) + Wire(p.priority) + Wire(p.bulk) }

  predicate Limited(s: Settings, p: Shaper) {
    Wire(p.priority) + Wire(p.bulk) <= s.queueLimit && |p.control| <= MAX_CONTROL
  }

  predicate Capped(p: Shaper) { p.tokens <= p.r.burst && p.priorityTokens <= p.r.priorityBurst }

  ghost predicate Kept(s: Settings, p: Shaper) { Conserved(p) && Accounted(p) && Limited(s, p) && Capped(p) }

  lemma {:induction false} BagSplits(items: seq<Item>, k: nat)
    requires k <= |items|
    ensures Bag(items) == multiset(Packets(items[..k])) + Bag(items[k..])
    ensures Wire(items[k..]) <= Wire(items)
  {
    hide Wire, Bag, Packets;
    if k == 0 {
      assert items[0..] == items && items[..0] == [];
      NoPackets();
    } else {
      BagSplits(items[1..], k - 1);
      BagHead(items);
      WireHead(items);
      PacketsHead(items[..k]);
      assert items[..k][1..] == items[1..][..k - 1];
      assert items[1..][k - 1..] == items[k..];
    }
  }

  lemma MakeRoomKeeps(s: Settings, p: Shaper, wire: nat)
    requires Kept(s, p)
    ensures Kept(s, MakeRoom(s, p, wire))
  {
    hide MakeRoom, Wire, Packets, Bag, SentBag;
    var k := MakeRoomDropsOldestBulk(s, p, wire);
    BagSplits(p.bulk, k);
  }

  lemma MakeRoomIgnoresTaken(s: Settings, p: Shaper, taken: seq<Packet>, wire: nat)
    ensures MakeRoom(s, p.(taken := taken), wire) == MakeRoom(s, p, wire).(taken := taken)
    decreases |p.bulk|
  {
    if Wire(p.priority) + Wire(p.bulk) + wire > s.queueLimit && |p.bulk| > 0 {
      MakeRoomIgnoresTaken(s, DropOldest(p), taken, wire);
    }
  }

  lemma AcceptKeeps(s: Settings, p: Shaper, cls: Class, it: Item)
    requires Kept(s, p)
    requires if cls == Control then |p.control| < MAX_CONTROL
             else Wire(p.priority) + Wire(p.bulk) + it.wire <= s.queueLimit
    ensures Kept(s, Accept(p.(taken := p.taken + [it.pkt]), cls, it))
  {
    hide Wire, Conserved;
    AcceptConserves(p, cls, it);
    WireAppend(QueueOf(p, cls), it);
  }

  lemma AcceptConserves(p: Shaper, cls: Class, it: Item)
    requires Conserved(p)
    ensures Conserved(Accept(p.(taken := p.taken + [it.pkt]), cls, it))
  {
    hide Wire, Bag, SentBag;
    BagAppend(QueueOf(p, cls), it);
  }

  lemma RefuseKeeps(s: Settings, p: Shaper, pkt: Packet)
    requires Kept(s, p)
    ensures Kept(s, Refuse(p.(taken := p.taken + [pkt]), pkt))
  {
    hide Wire, Bag, SentBag;
  }

  lemma EnqueueKeeps(s: Settings, p: Shaper, pkt: Packet, addr: int, ipv6: bool, control: bool, now: int)
    requires Kept(s, p)
    ensures Kept(s, Enqueue(s, p, pkt, addr, ipv6, control, now))
  {
    hide MakeRoom, Accept, Wire, Kept;
    var it := Item(pkt, addr, now, pkt.size + UdpWireOverhead(ipv6) + s.overhead);
    var p1 := MakeRoom(s, p, it.wire);
    MakeRoomKeeps(s, p, it.wire);
    MakeRoomIgnoresTaken(s, p, p.taken + [pkt], it.wire);
    var k := MakeRoomDropsOldestBulk(s, p, it.wire);
    if control {
      if |p.control| >= MAX_CONTROL { RefuseKeeps(s, p, pkt); } else { AcceptKeeps(s, p, Control, it); }
    } else if Wire(p1.priority) + Wire(p1.bulk) + it.wire > s.queueLimit {
      RefuseKeeps(s, p1, pkt);
    } else {
      AcceptKeeps(s, p1, if s.prioritySize > 0 && pkt.size <= s.prioritySize then Priority else Bulk, it);
    }
  }

  /** One reference moves from a queue to the sent, or to the released. */
  lemma MoveConserves(p: Shaper, p': Shaper, cls: Class)
    requires Conserved(p) && (Sends(p, p', cls) || Drops(p, p', cls))
    ensures Conserved(p')
  {
    hide Wire, Bag, SentBag;
    BagHead(QueueOf(p, cls));
    if Sends(p, p', cls) { SentBagAppend(p.out, Sent(QueueOf(p, cls)[0], cls)); }
  }

  lemma TurnKeeps(s: Settings, p: Shaper, now: int)
    requires Ready(p) && Kept(s, p) && p.r.priorityBurst >= 0.0
    ensures Kept(s, Turn(s, p, now))
  {
    hide Turn, Ready, Wire, Conserved;
    var cls := TurnTakesOne(s, p, now);
    WireHead(QueueOf(p, cls));
    MoveConserves(p, Turn(s, p, now), cls);
  }

  lemma ResetKeeps(s: Settings, p: Shaper)
    requires Kept(s, p)
    ensures Kept(s, Reset(p)) && Reset(p).queued == 0
  {
    hide Wire, Bag, SentBag, Packets;
    PacketsBag(p.control);
    PacketsBag(p.priority);
    PacketsBag(p.bulk);
    NothingHeld();
  }

  lemma NothingHeld()
    ensures Wire([]) == 0 && Bag([]) == multiset{} && SentBag([]) == multiset{}
  {
  }

  lemma BurstsPositive(s: Settings, rate: real)
    requires s.Valid()
    ensures RateFor(s, rate).burst >= 3000.0 && RateFor(s, rate).priorityBurst >= 3000.0
  {
  }

  /**
   * Over every run: each reference enqueued is exactly one of queued, sent or released, the backlog statistic is exact,
   * data queued stays within queueLimit, control messages within 1024, and neither bucket overflows.
   */
  lemma {:induction false} ShaperInvariant(s: Settings, start: int, ops: seq<Op>)
    requires s.Valid()
    ensures Kept(s, Run(s, New(s, start), ops)) && Run(s, New(s, start), ops).r.priorityBurst >= 3000.0
  {
    hide Kept, Turn, Enqueue, Reset, RateFor;
    BurstsPositive(s, s.r.rate);
    if |ops| == 0 {
      NewKept(s, start);
    } else {
      var init := ops[..|ops| - 1];
      ShaperInvariant(s, start, init);
      var p := Run(s, New(s, start), init);
      match ops[|ops| - 1]
      case DoEnqueue(pkt, addr, ipv6, control, now) =>
        EnqueueKeeps(s, p, pkt, addr, ipv6, control, now);
        EnqueueSpendsNothing(s, p, pkt, addr, ipv6, control, now);
      case DoRefill(now) => RefillKeeps(s, p, now);
      case DoTurn(now) =>
        if Ready(p) {
          TurnKeeps(s, p, now);
          var cls := TurnTakesOne(s, p, now);
        }
      case DoSetRate(now, rate) =>
        RefillKeeps(s, p, now);
        SetRateKeeps(s, p, now, rate);
        BurstsPositive(s, rate);
      case DoReset =>
        ResetKeeps(s, p);
        assert Reset(p).r == p.r by { ResetRate(p); }
    }
  }

  lemma ResetRate(p: Shaper)
    ensures Reset(p).r == p.r
  {
  }

  /** The configured rate has the configured buckets. */
  lemma OwnRate(s: Settings)
    requires s.Valid()
    ensures RateFor(s, s.r.rate) == s.r
  {
    Quotient(s.r.priorityRate, s.r.rate);
  }

  lemma Quotient(a: real, b: real)
    requires b != 0.0
    ensures b * (a / b) == a
  {
  }

  lemma NewKept(s: Settings, start: int)
    requires s.Valid()
    ensures Kept(s, New(s, start))
  {
    hide RateFor;
    OwnRate(s);
  }

  lemma RefillKeeps(s: Settings, p: Shaper, now: int)
    requires Kept(s, p)
    ensures Kept(s, Refill(p, now)) && Refill(p, now).r == p.r
  {
    hide Wire, Bag, SentBag;
  }

  lemma SetRateKeeps(s: Settings, p: Shaper, now: int, rate: real)
    requires s.Valid() && Kept(s, p) && Kept(s, Refill(p, now))
    ensures Kept(s, SetRate(s, p, now, rate))
  {
    hide Wire, Bag, SentBag, Refill, RateFor;
  }
}
