/** The token-bucket shaper of one path (src/shaper.go) as a value. Times are nanoseconds, tokens exact. */
module PathShaper {
  import opened Fifo
  import opened Reals
  import Codel

  const MAX_CONTROL := 1024

  datatype PathRate = PathRate(rate: real, burst: real, priorityRate: real, priorityBurst: real)

  datatype Settings = Settings(
    r: PathRate, overhead: nat, prioritySize: nat, codelParams: Codel.Params, queueLimit: nat)
  {
    // newShaperSettings: two milliseconds of tokens, at least 3000 bytes, and a share of 1 to 100 percent.
    predicate Valid() {
      && 0.0 < r.rate && 0.0 < r.priorityRate <= r.rate
      && r.burst == MaxR(r.rate * 0.002, 3000.0)
      && r.priorityBurst == MaxR(r.burst * (r.priorityRate / r.rate), 3000.0)
    }
  }

  /** The buckets of a path at a rate. */
  function RateFor(s: Settings, rate: real): PathRate
    requires s.Valid()
  {
    var share := s.r.priorityRate / s.r.rate;
    var burst := MaxR(rate * 0.002, 3000.0);
    PathRate(rate, burst, rate * share, MaxR(burst * share, 3000.0))
  }

  datatype Class = Control | Priority | Bulk

  datatype Sent = Sent(it: Item, cls: Class)

  /**
   * tokens and priorityTokens as of last. queued is what the path adds to the shared statistic; taken, out and
   * released are history: packets enqueued, sent, and given back unsent.
   */
  datatype Shaper = Shaper(
    r: PathRate, sent: nat, tokens: real, priorityTokens: real, last: int,
    control: seq<Item>, priority: seq<Item>, bulk: seq<Item>,
    codel: Codel.State, priorityCodel: Codel.State, lastActive: int, queued: int,
    taken: seq<Packet>, out: seq<Sent>, released: seq<Packet>)

  function New(s: Settings, now: int): Shaper
    requires s.Valid()
  {
    Shaper(RateFor(s, s.r.rate), 0, s.r.burst, s.r.priorityBurst, now, [], [], [],
           Codel.Fresh, Codel.Fresh, now, 0, [], [], [])
  }

  // ---- enqueue --------------------------------------------------------------------------

  /** IP and UDP headers. */
  function UdpWireOverhead(ipv6: bool): nat { if ipv6 then 48 else 28 }

  function DropOldest(p: Shaper): Shaper
    requires |p.bulk| > 0
  {
    p.(bulk := p.bulk[1..], queued := p.queued - p.bulk[0].wire, released := p.released + [p.bulk[0].pkt])
  }

  function MakeRoom(s: Settings, p: Shaper, wire: nat): Shaper
    decreases |p.bulk|
  {
    if Wire(p.priority) + Wire(p.bulk) + wire > s.queueLimit && |p.bulk| > 0
    then MakeRoom(s, DropOldest(p), wire) else p
  }

  function Refuse(p: Shaper, pkt: Packet): Shaper { p.(released := p.released + [pkt]) }

  function Accept(p: Shaper, cls: Class, it: Item): Shaper {
    var p1 := p.(queued := p.queued + it.wire);
    match cls
    case Control => p1.(control := p.control + [it])
    case Priority => p1.(priority := p.priority + [it], lastActive := it.enq)
    case Bulk => p1.(bulk := p.bulk + [it], lastActive := it.enq)
  }

  function Enqueue(s: Settings, p: Shaper, pkt: Packet, addr: int, ipv6: bool, control: bool, now: int): Shaper {
    var it := Item(pkt, addr, now, pkt.size + UdpWireOverhead(ipv6) + s.overhead);
    var p0 := p.(taken := p.taken + [pkt]);
    if control then
      if |p.control| >= MAX_CONTROL then Refuse(p0, pkt) else Accept(p0, Control, it)
    else
      var p1 := MakeRoom(s, p0, it.wire);
      if Wire(p1.priority) + Wire(p1.bulk) + it.wire > s.queueLimit then Refuse(p1, pkt)
      else Accept(p1, if s.prioritySize > 0 && pkt.size <= s.prioritySize then Priority else Bulk, it)
  }

  // ---- tokens ---------------------------------------------------------------------------

  /** What a rate in bytes per second brings in ns nanoseconds. */
  function Earned(rate: real, ns: int): real { rate * (ns as real / 1000000000.0) }

  function Refill(p: Shaper, now: int): Shaper {
    if now <= p.last then p
    else
      p.(last := now,
         tokens := MinR(p.tokens + Earned(p.r.rate, now - p.last), p.r.burst),
         priorityTokens := MinR(p.priorityTokens + Earned(p.r.priorityRate, now - p.last), p.r.priorityBurst))
  }

  function SetRate(s: Settings, p: Shaper, now: int, rate: real): Shaper
    requires s.Valid()
  {
    if rate == p.r.rate then p
    else
      var p1 := Refill(p, now);
      var r := RateFor(s, rate);
      p1.(r := r, tokens := MinR(p1.tokens, r.burst), priorityTokens := MinR(p1.priorityTokens, r.priorityBurst))
  }

  // ---- dequeue --------------------------------------------------------------------------

  /** dequeue has something it may take: control always, the rest while there are tokens. */
  predicate Ready(p: Shaper) { |p.control| > 0 || (p.tokens > 0.0 && |p.priority| + |p.bulk| > 0) }

  function Take(p: Shaper, cls: Class, it: Item): Shaper {
    p.(tokens := p.tokens - it.wire as real, queued := p.queued - it.wire, sent := p.sent + it.wire,
       out := p.out + [Sent(it, cls)])
  }

  function Drop(p: Shaper, it: Item): Shaper {
    p.(queued := p.queued - it.wire, released := p.released + [it.pkt])
  }

  function TakeControl(p: Shaper): Shaper
    requires |p.control| > 0
  {
    Take(p.(control := p.control[1..]), Control, p.control[0])
  }

  predicate PriorityTurn(p: Shaper) { |p.priority| > 0 && (p.priorityTokens > 0.0 || |p.bulk| == 0) }

  /** priorityCodel is asked only about a standing queue. */
  function TakePriority(s: Settings, p: Shaper, now: int): Shaper
    requires |p.priority| > 0
  {
    var it := p.priority[0];
    var standing := Wire(p.priority[1..]) >= MIN_STANDING;
    var (c, drop) := if standing then Codel.Decide(s.codelParams, p.priorityCodel, now, now - it.enq)
                     else (p.priorityCodel, false);
    var p1 := p.(priority := p.priority[1..], priorityCodel := c);
    if drop then Drop(p1, it)
    else Take(p1.(priorityTokens := MaxR(p.priorityTokens - it.wire as real, -p.r.priorityBurst)), Priority, it)
  }

  function TakeBulk(s: Settings, p: Shaper, now: int): Shaper
    requires |p.bulk| > 0
  {
    var it := p.bulk[0];
    var sojourn := if Wire(p.bulk[1..]) < MIN_STANDING then 0 else now - it.enq;
    var (c, drop) := Codel.Decide(s.codelParams, p.codel, now, sojourn);
    var p1 := p.(bulk := p.bulk[1..], codel := c);
    if drop then Drop(p1, it) else Take(p1, Bulk, it)
  }

  /** One turn of dequeue's loop. */
  function Turn(s: Settings, p: Shaper, now: int): Shaper
    requires Ready(p)
  {
    if |p.control| > 0 then TakeControl(p)
    else if PriorityTurn(p) then TakePriority(s, p, now)
    else TakeBulk(s, p, now)
  }

  function Count(p: Shaper): nat { |p.control| + |p.priority| + |p.bulk| }

  lemma TurnCounts(s: Settings, p: Shaper, now: int)
    requires Ready(p)
    ensures Count(Turn(s, p, now)) < Count(p)
    ensures |p.out| <= |Turn(s, p, now).out| <= |p.out| + 1
  {
    hide Wire, Codel.Decide;
  }

  /** The loop of dequeue, with n items still to be found. */
  function Serve(s: Settings, p: Shaper, now: int, n: nat): Shaper
    decreases Count(p)
  {
    if n == 0 || !Ready(p) then p
    else
      TurnCounts(s, p, now);
      var p1 := Turn(s, p, now);
      Serve(s, p1, now, if |p1.out| > |p.out| then n - 1 else n)
  }

  function Dequeue(s: Settings, p: Shaper, now: int, n: nat): Shaper { Serve(s, Refill(p, now), now, n) }

  // ---- wait and reset -------------------------------------------------------------------

  /** How long to sleep on a path that is out of tokens: half a bucket, in whole nanoseconds. */
  function SleepFor(p: Shaper): int
    requires p.r.rate > 0.0
  {
    ((-p.tokens + p.r.burst / 2.0) / p.r.rate * 1000000000.0).Floor
  }

  /** The state after wait(now), and what it returns. */
  function Wait(p: Shaper, now: int): (Shaper, int)
    requires p.r.rate > 0.0
  {
    if |p.control| > 0 then (p, 0)
    else if |p.priority| + |p.bulk| == 0 then (p, -1)
    else
      var p1 := Refill(p, now);
      (p1, if p1.tokens > 0.0 then 0 else SleepFor(p1))
  }

  function Reset(p: Shaper): Shaper {
    p.(control := [], priority := [], bulk := [],
       queued := p.queued - Wire(p.control) - Wire(p.priority) - Wire(p.bulk),
       released := p.released + Packets(p.control) + Packets(p.priority) + Packets(p.bulk))
  }
}
