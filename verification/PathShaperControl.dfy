/** What enqueue accepts, which rate is in force, how long wait sleeps and what the path remembers (src/shaper.go). */
module PathShaperControl {
  import opened Fifo
  import opened Reals
  import opened PathShaper
  import opened PathShaperTheorems
  import opened PathShaperRate

  // ---- enqueue --------------------------------------------------------------------------

  /** Where a packet goes: control messages apart, small payloads are priority. */
  predicate Belongs(s: Settings, pkt: Packet, control: bool, cls: Class) {
    match cls
    case Control => control
    case Priority => !control && 0 < s.prioritySize && pkt.size <= s.prioritySize
    case Bulk => !control && !(0 < s.prioritySize && pkt.size <= s.prioritySize)
  }

  /** The first k bulk packets do not leave room for a packet, but without them there is room. */
  predicate Fewest(s: Settings, p: Shaper, wire: nat, k: nat)
    requires k <= |p.bulk|
  {
    && (forall j :: 0 <= j < k ==> Wire(p.priority) + Wire(p.bulk[j..]) + wire > s.queueLimit)
    && (k < |p.bulk| ==> Wire(p.priority) + Wire(p.bulk[k..]) + wire <= s.queueLimit)
  }

  /** What the queues hold once it has joined its class behind what is left, or was refused. */
  predicate Queues(p: Shaper, p': Shaper, cls: Class, tail: seq<Item>, k: nat)
    requires k <= |p.bulk|
  {
    && p'.control == (if cls == Control then p.control + tail else p.control)
    && p'.priority == (if cls == Priority then p.priority + tail else p.priority)
    && p'.bulk == (if cls == Bulk then p.bulk[k..] + tail else p.bulk[k..])
  }

  /**
   * enqueue accepts up to 1024 control messages, and data that fits beside what is held in priority: bulk, and only as
   * much of it as needed, makes room. What it accepts joins its class and marks the path active if it is data; what it
   * does not is given back, behind the bulk packets dropped.
   */
  lemma EnqueueAdmits(s: Settings, p: Shaper, pkt: Packet, addr: int, ipv6: bool, control: bool, now: int)
    returns (cls: Class, k: nat)
    ensures Belongs(s, pkt, control, cls) && k <= |p.bulk|
    ensures var wire := pkt.size + (if ipv6 then 48 else 28) + s.overhead;
            var p' := Enqueue(s, p, pkt, addr, ipv6, control, now);
            var ok := if control then |p.control| < 1024 else Wire(p.priority) + wire <= s.queueLimit;
            && (if control then k == 0 else Fewest(s, p, wire, k))
            && Queues(p, p', cls, if ok then [Item(pkt, addr, now, wire)] else [], k)
            && p'.released == p.released + Packets(p.bulk[..k]) + (if ok then [] else [pkt])
            && p'.lastActive == (if ok && !control then now else p.lastActive)
            && p'.sent == p.sent && p'.out == p.out
  {
    hide MakeRoom, Wire, Packets;
    cls := if control then Control else if s.prioritySize > 0 && pkt.size <= s.prioritySize then Priority else Bulk;
    PathShaperTheorems.NothingHeld();
    NoPackets();
    k := 0;
    assert p.bulk[0..] == p.bulk && p.bulk[..0] == [];
    if !control {
      k := MakeRoomDropsOldestBulk(s, p.(taken := p.taken + [pkt]), pkt.size + UdpWireOverhead(ipv6) + s.overhead);
      if k == |p.bulk| { assert p.bulk[k..] == []; }
    }
  }

  // ---- rates ----------------------------------------------------------------------------

  /** The rate last set, or the configured one. */
  function LastRate(s: Settings, ops: seq<Op>): real {
    if |ops| == 0 then s.r.rate
    else if ops[|ops| - 1].DoSetRate? then ops[|ops| - 1].rate
    else LastRate(s, ops[..|ops| - 1])
  }

  /** The buckets of a rate: two milliseconds of it and at least 3000 bytes, and the configured share of both. */
  predicate BucketsOf(s: Settings, rate: real, r: PathRate)
    requires s.Valid()
  {
    var share := s.r.priorityRate / s.r.rate;
    var burst := if rate * 0.002 >= 3000.0 then rate * 0.002 else 3000.0;
    && r.rate == rate && r.burst == burst && r.priorityRate == rate * share
    && r.priorityBurst == if burst * share >= 3000.0 then burst * share else 3000.0
  }

  /** Over every run the rate in force is the one last set, with the buckets that belong to it. */
  lemma {:induction false} RateInForce(s: Settings, start: int, ops: seq<Op>)
    requires s.Valid()
    ensures BucketsOf(s, LastRate(s, ops), Run(s, New(s, start), ops).r)
  {
    hide Turn, Ready, Enqueue, BucketsOf, Refill, RateFor;
    if |ops| == 0 {
      assert BucketsOf(s, s.r.rate, RateFor(s, s.r.rate)) by { RateHasBuckets(s, s.r.rate); }
    } else {
      var init, op := ops[..|ops| - 1], ops[|ops| - 1];
      RateInForce(s, start, init);
      var p := Run(s, New(s, start), init);
      match op
      case DoEnqueue(pkt, addr, ipv6, control, now) => EnqueueSpendsNothing(s, p, pkt, addr, ipv6, control, now);
      case DoRefill(now) => RefillRate(p, now);
      case DoTurn(now) => if Ready(p) { var cls := TurnTakesOne(s, p, now); }
      case DoSetRate(now, rate) =>
        RateHasBuckets(s, rate);
        if rate == p.r.rate { assert LastRate(s, init) == rate by { RateOf(s, LastRate(s, init), p.r); } }
      case DoReset =>
    }
  }

  lemma RateHasBuckets(s: Settings, rate: real)
    requires s.Valid()
    ensures BucketsOf(s, rate, RateFor(s, rate))
  {
  }

  lemma RefillRate(p: Shaper, now: int)
    ensures Refill(p, now).r == p.r
  {
  }

  lemma RateOf(s: Settings, rate: real, r: PathRate)
    requires s.Valid() && BucketsOf(s, rate, r)
    ensures r.rate == rate
  {
  }

  /** A change of rate credits what the old rate has brought, as far as the old and the new bucket hold it. */
  lemma SetRateCredits(s: Settings, p: Shaper, now: int, rate: real)
    requires s.Valid() && rate != p.r.rate && now >= p.last && Capped(p)
    ensures var p' := SetRate(s, p, now, rate);
            var earned := p.tokens + Earned(p.r.rate, now - p.last);
            var earnedPriority := p.priorityTokens + Earned(p.r.priorityRate, now - p.last);
            && p'.last == now
            && p'.tokens == MinR(earned, MinR(p.r.burst, p'.r.burst))
            && p'.priorityTokens == MinR(earnedPriority, MinR(p.r.priorityBurst, p'.r.priorityBurst))
  {
    hide RateFor;
    EarnedAdds(p.r.rate, 0, 0);
    EarnedAdds(p.r.priorityRate, 0, 0);
  }

  /** A bucket grows with the time by its rate, and overflows at its size; time never goes back. */
  lemma RefillCredits(p: Shaper, now: int)
    requires Capped(p)
    ensures var p' := Refill(p, now);
            var dt := if now > p.last then now - p.last else 0;
            && p'.last == p.last + dt && p'.r == p.r && p'.out == p.out
            && p'.tokens == (if p.tokens + Earned(p.r.rate, dt) <= p.r.burst
                             then p.tokens + Earned(p.r.rate, dt) else p.r.burst)
            && p'.priorityTokens
               == (if p.priorityTokens + Earned(p.r.priorityRate, dt) <= p.r.priorityBurst
                   then p.priorityTokens + Earned(p.r.priorityRate, dt) else p.r.priorityBurst)
  {
    EarnedAdds(p.r.rate, 0, 0);
    EarnedAdds(p.r.priorityRate, 0, 0);
  }

  // ---- wait -----------------------------------------------------------------------------

  /** Truncation rounds a sleep down. */
  lemma SleepAtMost(need: real, rate: real)
    requires rate > 0.0
    ensures Earned(rate, (need / rate * 1000000000.0).Floor) <= need
  {
    var x := need / rate * 1000000000.0;
    var z := (x - x.Floor as real) / 1000000000.0;
    assert z >= 0.0 && rate * z >= 0.0;
    assert need / rate * rate == need;
    assert x.Floor as real / 1000000000.0 == need / rate - z;
    assert rate * (need / rate - z) == rate * (need / rate) - rate * z;
  }

  /**
   * wait answers 0 exactly if dequeue may take something now, -1 exactly if nothing is queued, and otherwise a time at
   * whose end the path, with nothing sent meanwhile, has earned at most half a bucket.
   */
  lemma WaitAnswers(s: Settings, p: Shaper, now: int, rate: real)
    requires s.Valid() && rate > 0.0 && p.r == RateFor(s, rate) && now >= p.last
    ensures var (p1, d) := Wait(p, now);
            && (d == -1 <==> |p.control| + |p.priority| + |p.bulk| == 0)
            && (d == 0 <==> |p.control| > 0 || (|p.priority| + |p.bulk| > 0 && Refill(p, now).tokens > 0.0))
            && (p1 == p || p1 == Refill(p, now))
            && (d > 0 ==> p1 == Refill(p, now) && Refill(p1, now + d).tokens <= p.r.burst / 2.0)
  {
    hide Earned, RateFor;
    BurstsPositive(s, rate);
    RateIs(s, rate);
    if |p.control| == 0 && |p.priority| + |p.bulk| > 0 && Refill(p, now).tokens <= 0.0 {
      SleepThenTokens(s, p, now, rate);
      SleepAtMost(-Refill(p, now).tokens + p.r.burst / 2.0, rate);
    }
  }

  lemma RateIs(s: Settings, rate: real)
    requires s.Valid()
    ensures RateFor(s, rate).rate == rate
  {
  }

  // ---- what the path remembers ----------------------------------------------------------

  /** When data was last accepted, or the path made. */
  function LastData(s: Settings, start: int, ops: seq<Op>): int
    requires s.Valid()
  {
    if |ops| == 0 then start
    else
      var op := ops[|ops| - 1];
      var p := Run(s, New(s, start), ops[..|ops| - 1]);
      if op.DoEnqueue? && !op.control
         && Wire(p.priority) + op.pkt.size + (if op.ipv6 then 48 else 28) + s.overhead <= s.queueLimit
      then op.at
      else LastData(s, start, ops[..|ops| - 1])
  }

  /** Over every run: the path knows when it last took data, and the bytes it has sent, of every class. */
  lemma {:induction false} PathRemembers(s: Settings, start: int, ops: seq<Op>)
    requires s.Valid()
    ensures var p := Run(s, New(s, start), ops);
            p.lastActive == LastData(s, start, ops) && p.sent == BytesOf(p.out, All)
  {
    hide Turn, Ready, Enqueue, Wire, BytesOf, RateFor;
    if |ops| == 0 {
      NothingSent();
    } else {
      var init, op := ops[..|ops| - 1], ops[|ops| - 1];
      PathRemembers(s, start, init);
      var p := Run(s, New(s, start), init);
      match op
      case DoEnqueue(pkt, addr, ipv6, control, now) =>
        var cls, k := EnqueueAdmits(s, p, pkt, addr, ipv6, control, now);
      case DoTurn(now) =>
        if Ready(p) {
          var cls := TurnTakesOne(s, p, now);
          TurnActive(s, p, now);
          BytesAppend(p.out, Sent(QueueOf(p, cls)[0], cls), All);
        }
      case _ =>
    }
  }

  lemma TurnActive(s: Settings, p: Shaper, now: int)
    requires Ready(p)
    ensures Turn(s, p, now).lastActive == p.lastActive
  {
    hide Wire;
  }

  lemma NothingSent()
    ensures BytesOf([], All) == 0
  {
  }
}
