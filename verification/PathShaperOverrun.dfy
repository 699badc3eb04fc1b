/** When exactly the priority bound of src/shaper.go holds, and how larger packets break it. */
module PathShaperOverrun {
  import opened Fifo
  import opened Reals
  import opened PathShaper
  import opened PathShaperTheorems
  import opened PathShaperRate
  import Codel

  /** A share of 100 percent gives priority the bucket of the path. */
  lemma WholeRateBucket(s: Settings)
    requires s.Valid() && s.r.priorityRate == s.r.rate
    ensures s.r.priorityBurst == s.r.burst
  {
    assert s.r.priorityRate / s.r.rate == 1.0;
  }

  // ---- the time between two packets -----------------------------------------------------

  function Share(s: Settings): real
    requires s.Valid()
  {
    s.r.priorityRate / s.r.rate
  }

  /** What the priority rate brings in a nanosecond is less than what is over the bucket, and than what bulk is owed. */
  predicate Coarse(s: Settings, wire: nat)
    requires s.Valid()
  {
    Earned(s.r.priorityRate, 1) < Slack(wire as real, s.r.priorityBurst, Share(s))
  }

  function Slack(wire: real, bucket: real, share: real): real { MinR(wire - bucket, wire * (1.0 - share)) }

  lemma Times(x: real, y: real, c: real)
    requires x <= y && c >= 0.0
    ensures c * x <= c * y
  {
    var d := y - x;
    assert c * d >= 0.0 && c * y == c * x + c * d;
  }

  lemma TimesStrict(x: real, y: real, c: real)
    requires x < y && c > 0.0
    ensures c * x < c * y
  {
    var d := y - x;
    assert c * d > 0.0 && c * y == c * x + c * d;
  }

  /** The least whole number of nanoseconds in which a rate brings more than an amount. */
  lemma TimeFor(rate: real, amount: real) returns (n: nat)
    requires rate > 0.0 && amount > 0.0
    ensures n > 0 && amount < Earned(rate, n) <= amount + Earned(rate, 1)
  {
    var x := Divide(amount, rate);
    var z := 1.0 / 1000000000.0;
    n := (x * 1000000000.0).Floor + 1;
    var y := n as real / 1000000000.0;
    assert x < y <= x + z;
    TimeBounds(rate, x, y, z, amount);
  }

  lemma TimeBounds(rate: real, x: real, y: real, z: real, amount: real)
    requires rate > 0.0 && amount == rate * x && x < y <= x + z
    ensures amount < rate * y <= amount + rate * z
  {
    var d, f := y - x, x + z - y;
    assert rate * d > 0.0 && rate * y == rate * x + rate * d;
    assert rate * f >= 0.0 && rate * (x + z) == rate * y + rate * f;
    assert rate * (x + z) == rate * x + rate * z;
  }

  lemma Divide(amount: real, rate: real) returns (x: real)
    requires rate > 0.0 && amount > 0.0
    ensures amount == rate * x && x > 0.0
  {
    x := amount / rate;
    if x <= 0.0 { Times(x, 0.0, rate); }
  }

  lemma EarnedShare(s: Settings, n: nat)
    requires s.Valid()
    ensures Earned(s.r.priorityRate, n) == Share(s) * Earned(s.r.rate, n)
    ensures 0.0 < Share(s) <= 1.0
  {
    var y := n as real / 1000000000.0;
    assert Share(s) * s.r.rate == s.r.priorityRate;
    assert Share(s) * s.r.rate * y == Share(s) * (s.r.rate * y);
    Positive(s.r.priorityRate, s.r.rate, Share(s));
  }

  lemma Positive(a: real, b: real, q: real)
    requires 0.0 < a <= b && q * b == a
    ensures 0.0 < q <= 1.0
  {
    if q <= 0.0 { Times(q, 0.0, b); }
    if q > 1.0 { TimesStrict(1.0, q, b); }
  }

  lemma CycleFits(w: real, q: real, bucket: real, earned: real, grain: real)
    requires 0.0 < q && MaxR(bucket, w * q) < q * earned <= MaxR(bucket, w * q) + grain
    requires grain < Slack(w, bucket, q)
    ensures earned >= w && q * earned < w
  {
    assert w * (1.0 - q) == w - w * q;
    if earned < w { TimesStrict(earned, w, q); }
  }

  /**
   * A time in which the path earns a packet, the priority bucket is filled from its floor, and yet the priority rate
   * brings less than the packet.
   */
  lemma CycleTime(s: Settings, wire: nat) returns (n: nat)
    requires s.Valid() && s.r.priorityBurst > 0.0 && Coarse(s, wire)
    ensures n > 0 && Earned(s.r.rate, n) >= wire as real
    ensures s.r.priorityBurst < Earned(s.r.priorityRate, n) < wire as real
  {
    hide Earned, Share, MaxR, Slack;
    var w, q, bucket := wire as real, Share(s), s.r.priorityBurst;
    EarnedShare(s, 1);
    MaxIs(bucket, w * q);
    n := TimeFor(s.r.priorityRate, MaxR(bucket, w * q));
    EarnedShare(s, n);
    CycleFits(w, q, bucket, Earned(s.r.rate, n), Earned(s.r.priorityRate, 1));
  }

  lemma MaxIs(a: real, b: real)
    ensures MaxR(a, b) >= a && MaxR(a, b) >= b
  {
  }

  // ---- the run --------------------------------------------------------------------------

  function Header(s: Settings): nat { UdpWireOverhead(false) + s.overhead }

  /** Bytes on the wire of the smallest bulk packet. */
  function LeastBulk(s: Settings): nat { s.prioritySize + 1 + Header(s) }

  /** The address family of a packet of this many bytes on the wire: IPv6 where its headers fit. */
  predicate Six(s: Settings, wire: int) { wire >= UdpWireOverhead(true) + s.overhead }

  function Payload(s: Settings, wire: int): int { wire - UdpWireOverhead(Six(s, wire)) - s.overhead }

  /** A packet of this many bytes on the wire can be a priority packet, queued beside the smallest bulk packet. */
  predicate Fits(s: Settings, wire: nat) {
    0 < s.prioritySize && 0 <= Payload(s, wire) <= s.prioritySize && wire + LeastBulk(s) <= s.queueLimit
  }

  function BulkItem(s: Settings, at: int): Item {
    Item(Packet(0, s.prioritySize + 1, false), 0, at, LeastBulk(s))
  }

  function SmallItem(s: Settings, wire: nat, at: int): Item
    requires Header(s) <= wire
  {
    Item(Packet(0, Payload(s, wire), false), 0, at, wire)
  }

  function Arrives(it: Item, ipv6: bool): Op { DoEnqueue(it.pkt, 0, ipv6, false, it.enq) }

  lemma BulkQueued(s: Settings, wire: nat, p: Shaper, at: int)
    requires Fits(s, wire) && p.priority == [] && p.bulk == []
    ensures var p' := Enqueue(s, p, BulkItem(s, at).pkt, 0, false, false, at);
            p' == p.(taken := p'.taken, queued := p'.queued, bulk := [BulkItem(s, at)], lastActive := at)
  {
    assert Wire([]) == 0 && [] + [BulkItem(s, at)] == [BulkItem(s, at)];
  }

  lemma SmallQueued(s: Settings, wire: nat, p: Shaper, t: int, at: int)
    requires Fits(s, wire) && p.priority == [] && p.bulk == [BulkItem(s, t)]
    ensures var p' := Enqueue(s, p, SmallItem(s, wire, at).pkt, 0, Six(s, wire), false, at);
            p' == p.(taken := p'.taken, queued := p'.queued, priority := [SmallItem(s, wire, at)], lastActive := at)
  {
    WireAppend([], BulkItem(s, t));
    assert [] + [BulkItem(s, t)] == [BulkItem(s, t)];
    assert Wire([]) == 0 && [] + [SmallItem(s, wire, at)] == [SmallItem(s, wire, at)];
  }

  /** With tokens in both buckets, a lone priority packet goes out. */
  lemma SmallSent(s: Settings, wire: nat, p: Shaper, at: int)
    requires Header(s) <= wire && p.control == [] && p.priority == [SmallItem(s, wire, at)]
    requires p.tokens > 0.0 && p.priorityTokens > 0.0
    ensures Ready(p)
    ensures var p' := Turn(s, p, at);
            && p'.r == p.r && p'.last == p.last && p'.control == [] && p'.priority == [] && p'.bulk == p.bulk
            && p'.tokens == p.tokens - wire as real && p'.priorityTokens >= -p.r.priorityBurst
            && p'.out == p.out + [Sent(SmallItem(s, wire, at), Priority)]
  {
    hide Codel.Decide;
    assert p.priority[1..] == [] && Wire([]) == 0;
  }

  /** k packets have gone out, n nanoseconds apart, past the one bulk packet that waits. */
  predicate Cycled(s: Settings, start: int, n: nat, wire: nat, k: nat, p: Shaper) {
    && p.r == s.r && p.control == [] && p.priority == [] && p.bulk == [BulkItem(s, start)]
    && k > 0 && p.last == start + (k - 1) * n
    && p.tokens > -(wire as real) && p.priorityTokens >= -s.r.priorityBurst
    && BytesOf(p.out, Small) == k * wire && NoLarger([], p.out, Small, wire)
  }

  lemma SentCycled(s: Settings, start: int, n: nat, wire: nat, k: nat, p: Shaper, at: int)
    requires Fits(s, wire) && p.r == s.r && p.control == [] && p.priority == [] && p.bulk == [BulkItem(s, start)]
    requires p.tokens > 0.0 && p.priorityTokens > 0.0 && p.last == at == start + k * n
    requires BytesOf(p.out, Small) == k * wire && NoLarger([], p.out, Small, wire)
    ensures var q := Enqueue(s, p, SmallItem(s, wire, at).pkt, 0, Six(s, wire), false, at);
            |q.bulk| > 0 && Ready(q) && Cycled(s, start, n, wire, k + 1, Turn(s, q, at))
  {
    hide Enqueue, Turn, BytesOf, Ready;
    SmallQueued(s, wire, p, start, at);
    var q := Enqueue(s, p, SmallItem(s, wire, at).pkt, 0, Six(s, wire), false, at);
    SmallSent(s, wire, q, at);
    BytesAppend(p.out, Sent(SmallItem(s, wire, at), Priority), Small);
  }

  lemma Waited(s: Settings, start: int, n: nat, wire: nat, k: nat, p: Shaper)
    requires s.Valid() && Cycled(s, start, n, wire, k, p) && n > 0
    requires Earned(s.r.rate, n) >= wire as real && s.r.priorityBurst < Earned(s.r.priorityRate, n)
    ensures var q := Refill(p, start + k * n);
            q == p.(last := start + k * n, tokens := q.tokens, priorityTokens := q.priorityTokens)
            && q.tokens > 0.0 && q.priorityTokens > 0.0
  {
    hide Earned, BytesOf;
    assert start + k * n - p.last == n;
  }

  lemma FirstCycle(s: Settings, start: int, n: nat, wire: nat) returns (ops: seq<Op>)
    requires s.Valid() && Fits(s, wire)
    ensures FixedRate(ops) && BulkWaits(s, New(s, start), ops)
    ensures Cycled(s, start, n, wire, 1, Run(s, New(s, start), ops))
  {
    hide Run, BulkWaits, Enqueue, Turn, Cycled, RateFor, Ready;
    OwnRate(s);
    var p0 := New(s, start);
    var bulk, small := Arrives(BulkItem(s, start), false), Arrives(SmallItem(s, wire, start), Six(s, wire));
    var turn := DoTurn(start);
    RunOne(s, p0, [], bulk);
    RunOne(s, p0, [bulk], small);
    RunOne(s, p0, [bulk, small], turn);
    assert [bulk] + [small] == [bulk, small] && [bulk, small] + [turn] == [bulk, small, turn];
    BulkQueued(s, wire, p0, start);
    var p1 := Run(s, p0, [bulk]);
    SentCycled(s, start, n, wire, 0, p1, start);
    ops := [bulk, small, turn];
  }

  lemma {:induction false} Cycles(s: Settings, start: int, n: nat, wire: nat, k: nat) returns (ops: seq<Op>)
    requires s.Valid() && Fits(s, wire) && n > 0 && k > 0
    requires Earned(s.r.rate, n) >= wire as real && s.r.priorityBurst < Earned(s.r.priorityRate, n)
    ensures FixedRate(ops) && BulkWaits(s, New(s, start), ops)
    ensures Cycled(s, start, n, wire, k, Run(s, New(s, start), ops))
  {
    hide Run, BulkWaits, Enqueue, Turn, RateFor, Ready, Earned, Refill, BytesOf;
    var p0 := New(s, start);
    if k == 1 {
      ops := FirstCycle(s, start, n, wire);
    } else {
      var before := Cycles(s, start, n, wire, k - 1);
      var p := Run(s, p0, before);
      var at := start + (k - 1) * n;
      Waited(s, start, n, wire, k - 1, p);
      var q := Refill(p, at);
      SentCycled(s, start, n, wire, k - 1, q, at);
      var wait, small, turn := DoRefill(at), Arrives(SmallItem(s, wire, at), Six(s, wire)), DoTurn(at);
      RunOne(s, p0, before, wait);
      RunOne(s, p0, before + [wait], small);
      RunOne(s, p0, before + [wait] + [small], turn);
      ops := before + [wait] + [small] + [turn];
    }
  }

  /**
   * Packets larger than the priority bucket exceed the bound by any amount: the floor under priorityTokens leaves
   * part of their debt unpaid. From a new path, a run in which one bulk packet waits throughout.
   */
  lemma LargerPacketsOverrun(s: Settings, wire: nat, start: int, big: nat) returns (ops: seq<Op>)
    requires s.Valid() && Fits(s, wire) && Coarse(s, wire)
    ensures var p, p' := New(s, start), Run(s, New(s, start), ops);
            FixedRate(ops) && BulkWaits(s, p, ops) && NoLarger(p.out, p'.out, Small, wire) && !Within(p, p', big)
  {
    hide Run, BulkWaits, RateFor, Earned, BytesOf, Cycled;
    OwnRate(s);
    var n := CycleTime(s, wire);
    var gain := wire as real - Earned(s.r.priorityRate, n);
    var k := Repeats(s.r.priorityBurst + big as real, gain);
    ops := Cycles(s, start, n, wire, k + 1);
    OverrunAfter(s, wire, start, n, k, big, Run(s, New(s, start), ops));
  }

  lemma Repeats(amount: real, gain: real) returns (k: nat)
    requires gain > 0.0 && amount > 0.0
    ensures k as real * gain > amount
  {
    var x := Divide(amount, gain);
    k := x.Floor + 1;
    TimesStrict(x, k as real, gain);
  }

  lemma {:induction false} EarnedTimes(rate: real, n: nat, k: nat)
    ensures Earned(rate, k * n) == k as real * Earned(rate, n)
  {
    hide Earned;
    if k == 0 {
      EarnedAdds(rate, 0, 0);
    } else {
      EarnedTimes(rate, n, k - 1);
      assert k * n == (k - 1) * n + n;
      EarnedAdds(rate, (k - 1) * n, n);
      assert k as real * Earned(rate, n) == (k - 1) as real * Earned(rate, n) + Earned(rate, n);
    }
  }

  lemma OverrunAfter(s: Settings, wire: nat, start: int, n: nat, k: nat, big: nat, p': Shaper)
    requires s.Valid() && s.r.priorityBurst > 0.0 && Cycled(s, start, n, wire, k + 1, p')
    requires k as real * (wire as real - Earned(s.r.priorityRate, n)) > s.r.priorityBurst + big as real
    ensures NoLarger([], p'.out, Small, wire) && !Within(New(s, start), p', big)
  {
    hide Earned, RateFor;
    OwnRate(s);
    EarnedTimes(s.r.priorityRate, n, k);
    var a, b := wire as real, Earned(s.r.priorityRate, n);
    assert k as real * (a - b) == k as real * a - k as real * b;
    assert ((k + 1) * wire) as real == k as real * a + a;
  }

  // ---- exactly --------------------------------------------------------------------------

  /** Every stretch of every run of a new path at its configured rate keeps the bound, for packets up to big bytes. */
  ghost predicate AlwaysWithin(s: Settings, big: nat)
    requires s.Valid()
  {
    forall start: int, before: seq<Op>, ops: seq<Op> ::
      FixedRate(before) && FixedRate(ops) && BulkWaits(s, Run(s, New(s, start), before), ops)
      && NoLarger(Run(s, New(s, start), before).out, Run(s, Run(s, New(s, start), before), ops).out, Small, big)
      ==> Within(Run(s, New(s, start), before), Run(s, Run(s, New(s, start), before), ops), big)
  }

  /** A run at a fixed rate keeps the buckets of the settings, full at most. */
  lemma {:induction false} RunBuckets(s: Settings, start: int, ops: seq<Op>)
    requires s.Valid() && FixedRate(ops)
    ensures var p := Run(s, New(s, start), ops); p.r == s.r && Capped(p)
  {
    hide RateFor, Kept;
    OwnRate(s);
    ShaperInvariant(s, start, ops);
    assert Capped(Run(s, New(s, start), ops)) by { KeptCaps(s, Run(s, New(s, start), ops)); }
    if |ops| > 0 {
      hide Turn, Ready, Enqueue;
      var init, op := ops[..|ops| - 1], ops[|ops| - 1];
      RunBuckets(s, start, init);
      var p := Run(s, New(s, start), init);
      match op
      case DoEnqueue(pkt, addr, ipv6, control, now) => EnqueueSpendsNothing(s, p, pkt, addr, ipv6, control, now);
      case DoTurn(now) => if Ready(p) { var cls := TurnTakesOne(s, p, now); }
      case _ =>
    }
  }

  lemma KeptCaps(s: Settings, p: Shaper)
    requires Kept(s, p)
    ensures Capped(p)
  {
  }

  // What a path can queue as priority and as bulk.

  predicate Sized(s: Settings, p: Shaper) {
    && (forall i :: 0 <= i < |p.priority| ==> PrioritySized(s, p.priority[i].wire))
    && (forall i :: 0 <= i < |p.bulk| ==> s.prioritySize > 0 ==> p.bulk[i].wire >= LeastBulk(s))
  }

  predicate PrioritySized(s: Settings, wire: nat) {
    s.prioritySize > 0 && 0 <= Payload(s, wire) <= s.prioritySize
  }

  lemma EnqueueSized(s: Settings, p: Shaper, pkt: Packet, addr: int, ipv6: bool, control: bool, now: int)
    requires Sized(s, p)
    ensures Sized(s, Enqueue(s, p, pkt, addr, ipv6, control, now))
  {
    hide MakeRoom, Wire, Packets;
    var wire := pkt.size + UdpWireOverhead(ipv6) + s.overhead;
    var k := MakeRoomDropsOldestBulk(s, p.(taken := p.taken + [pkt]), wire);
  }

  lemma TurnSized(s: Settings, p: Shaper, now: int)
    requires Sized(s, p) && Ready(p)
    ensures Sized(s, Turn(s, p, now))
  {
    hide Turn, Ready, PrioritySized;
    var cls := TurnTakesOne(s, p, now);
  }

  lemma {:induction false} RunSized(s: Settings, p: Shaper, ops: seq<Op>)
    requires s.Valid() && Sized(s, p)
    ensures Sized(s, Run(s, p, ops))
  {
    hide Turn, Ready, Enqueue, RateFor, PrioritySized;
    if |ops| > 0 {
      var q := Run(s, p, ops[..|ops| - 1]);
      RunSized(s, p, ops[..|ops| - 1]);
      match ops[|ops| - 1]
      case DoEnqueue(pkt, addr, ipv6, control, now) => EnqueueSized(s, q, pkt, addr, ipv6, control, now);
      case DoTurn(now) => if Ready(q) { TurnSized(s, q, now); }
      case _ =>
    }
  }

  function MinI(a: int, b: int): int { if a <= b then a else b }

  /**
   * Bytes on the wire of the largest priority packet, of at most big, that is queued beside bulk; 0 if there is none.
   */
  function Largest(s: Settings, big: nat): nat {
    var room := MinI(big, s.queueLimit - LeastBulk(s));
    if s.prioritySize == 0 || room < Header(s) then 0
    else MinI(room, s.prioritySize + UdpWireOverhead(Six(s, room)) + s.overhead)
  }

  lemma LargestFits(s: Settings, big: nat)
    requires Largest(s, big) > 0
    ensures Fits(s, Largest(s, big)) && Largest(s, big) <= big
  {
  }

  /** No priority packet that leaves past queued bulk is larger. */
  lemma TurnLargest(s: Settings, p: Shaper, now: int, big: nat)
    requires Sized(s, p) && Limited(s, p) && Ready(p) && |p.bulk| > 0
    requires NoLarger(p.out, Turn(s, p, now).out, Small, big)
    ensures NoLarger(p.out, Turn(s, p, now).out, Small, Largest(s, big))
  {
    hide Turn, Ready, Wire;
    var cls := TurnTakesOne(s, p, now);
    if Sends(p, Turn(s, p, now), cls) && cls == Priority {
      WireHead(p.priority);
      WireHead(p.bulk);
      assert Turn(s, p, now).out[|p.out|] == Sent(p.priority[0], cls);
      assert PrioritySized(s, p.priority[0].wire);
    }
  }

  lemma LargerThrough(before: seq<Sent>, a: seq<Sent>, b: seq<Sent>, big: int)
    requires before <= a <= b
    ensures NoLarger(before, b, Small, big) <==> NoLarger(before, a, Small, big) && NoLarger(a, b, Small, big)
  {
    if NoLarger(before, b, Small, big) {
      forall i | |before| <= i < |a| && a[i].cls in Small ensures a[i].it.wire <= big { assert b[i] == a[i]; }
    }
  }

  lemma SameLog(log: seq<Sent>, big: int)
    ensures NoLarger(log, log, Small, big)
  {
  }

  lemma {:induction false} RunOutGrows(s: Settings, p: Shaper, ops: seq<Op>)
    requires s.Valid() && FixedRate(ops)
    ensures p.out <= Run(s, p, ops).out
  {
    hide Step;
    if |ops| > 0 {
      RunOutGrows(s, p, ops[..|ops| - 1]);
      OutOnlyGrows(s, Run(s, p, ops[..|ops| - 1]), ops[|ops| - 1]);
    }
  }

  lemma StepLargest(s: Settings, start: int, before: seq<Op>, op: Op, big: nat)
    requires s.Valid() && !op.DoSetRate?
    requires op.DoTurn? ==> |Run(s, New(s, start), before).bulk| > 0
    requires var q := Run(s, New(s, start), before); NoLarger(q.out, Step(s, q, op).out, Small, big)
    ensures var q := Run(s, New(s, start), before); NoLarger(q.out, Step(s, q, op).out, Small, Largest(s, big))
  {
    hide Run, Turn, Ready, Enqueue, RateFor, Sized, Largest, Wire;
    var q := Run(s, New(s, start), before);
    match op
    case DoEnqueue(pkt, addr, ipv6, control, now) => EnqueueSpendsNothing(s, q, pkt, addr, ipv6, control, now);
    case DoTurn(now) =>
      if Ready(q) {
        assert Sized(s, q) by { NewSized(s, start); RunSized(s, New(s, start), before); }
        assert Limited(s, q) by { ShaperInvariant(s, start, before); }
        TurnLargest(s, q, now, big);
      }
    case _ =>
  }

  lemma NewSized(s: Settings, start: int)
    requires s.Valid()
    ensures Sized(s, New(s, start))
  {
  }

  lemma {:induction false} RunLargest(s: Settings, start: int, before: seq<Op>, ops: seq<Op>, big: nat)
    requires s.Valid() && FixedRate(ops) && BulkWaits(s, Run(s, New(s, start), before), ops)
    requires var p := Run(s, New(s, start), before); NoLarger(p.out, Run(s, p, ops).out, Small, big)
    ensures var p := Run(s, New(s, start), before);
            p.out <= Run(s, p, ops).out && NoLarger(p.out, Run(s, p, ops).out, Small, Largest(s, big))
  {
    hide Turn, Ready, Enqueue, RateFor, Sized, NoLarger, Largest, Kept;
    var p := Run(s, New(s, start), before);
    if |ops| == 0 {
      assert NoLarger(p.out, p.out, Small, Largest(s, big)) by { SameLog(p.out, Largest(s, big)); }
    } else {
      var init, op := ops[..|ops| - 1], ops[|ops| - 1];
      var q := Run(s, p, init);
      RunOutGrows(s, p, init);
      OutOnlyGrows(s, q, op);
      LargerThrough(p.out, q.out, Step(s, q, op).out, big);
      RunLargest(s, start, before, init, big);
      RunSplits(s, New(s, start), before, init);
      StepLargest(s, start, before + init, op, big);
      LargerThrough(p.out, q.out, Step(s, q, op).out, Largest(s, big));
    }
  }

  /**
   * The bound holds for packets of up to big bytes if and only if the largest of them is no larger than the priority
   * bucket or priority has the whole rate, but for sizes so close to either that a nanosecond of the rate decides.
   */
  lemma PriorityBoundIsExact(s: Settings, big: nat)
    requires s.Valid()
    requires Largest(s, big) as real <= s.r.priorityBurst || s.r.priorityRate == s.r.rate || Coarse(s, Largest(s, big))
    ensures AlwaysWithin(s, big)
            <==> Largest(s, big) as real <= s.r.priorityBurst || s.r.priorityRate == s.r.rate
  {
    hide Run, BulkWaits, Within, BytesOf, New, Coarse, Largest, Fits, NoLarger;
    var w := Largest(s, big);
    if w as real <= s.r.priorityBurst || s.r.priorityRate == s.r.rate {
      forall start: int, before: seq<Op>, ops: seq<Op> |
        FixedRate(before) && FixedRate(ops) && BulkWaits(s, Run(s, New(s, start), before), ops)
        && NoLarger(Run(s, New(s, start), before).out, Run(s, Run(s, New(s, start), before), ops).out, Small, big)
        ensures Within(Run(s, New(s, start), before), Run(s, Run(s, New(s, start), before), ops), big)
      {
        RunWithin(s, start, before, ops, big);
      }
    } else {
      LargestFits(s, big);
      var ops := LargerPacketsOverrun(s, w, 0, big);
      RunOne(s, New(s, 0), [], DoTurn(0));
      assert FixedRate([]);
      assert NoLarger(New(s, 0).out, Run(s, New(s, 0), ops).out, Small, big) by {
        LargerAllowed(New(s, 0).out, Run(s, New(s, 0), ops).out, w, big);
      }
      assert !Within(Run(s, New(s, 0), []), Run(s, Run(s, New(s, 0), []), ops), big);
    }
  }

  lemma LargerAllowed(before: seq<Sent>, log: seq<Sent>, small: int, big: int)
    requires NoLarger(before, log, Small, small) && small <= big
    ensures NoLarger(before, log, Small, big)
  {
  }

  lemma RunWithin(s: Settings, start: int, before: seq<Op>, ops: seq<Op>, big: nat)
    requires s.Valid() && FixedRate(before) && FixedRate(ops) && BulkWaits(s, Run(s, New(s, start), before), ops)
    requires NoLarger(Run(s, New(s, start), before).out, Run(s, Run(s, New(s, start), before), ops).out, Small, big)
    requires Largest(s, big) as real <= s.r.priorityBurst || s.r.priorityRate == s.r.rate
    ensures Within(Run(s, New(s, start), before), Run(s, Run(s, New(s, start), before), ops), big)
  {
    hide Run, BulkWaits, BytesOf, New, Largest, NoLarger, Earned;
    var p := Run(s, New(s, start), before);
    RunBuckets(s, start, before);
    if s.r.priorityRate == s.r.rate {
      WholeRateBucket(s);
      WholeRateConformance(s, p, ops, big);
    } else {
      RunLargest(s, start, before, ops, big);
      PriorityConformance(s, p, ops, Largest(s, big));
      LargestAtMost(s, big);
    }
  }

  lemma LargestAtMost(s: Settings, big: nat)
    ensures Largest(s, big) <= big
  {
    if Largest(s, big) > 0 { LargestFits(s, big); }
  }

  /** 40 Mbit/s, 30 percent for priority, which takes payloads of up to so many bytes. */
  function Example(prioritySize: nat): Settings {
    Settings(PathRate(5000000.0, 10000.0, 1500000.0, 3000.0), 0, prioritySize, Codel.Params(5000000, 100000000), 262144)
  }

  /**
   * With such settings packets of 9000 bytes on the wire break the bound, and packets of 3000 keep it. With payloads
   * of up to 2960 bytes it holds for IPv4, and fails for IPv6, whose headers take such a packet past the bucket.
   */
  lemma JumboOverruns()
    ensures Example(9000).Valid() && !AlwaysWithin(Example(9000), 9000) && AlwaysWithin(Example(9000), 3000)
    ensures Example(2960).Valid() && AlwaysWithin(Example(2960), 2988) && !AlwaysWithin(Example(2960), 3008)
  {
    hide AlwaysWithin;
    assert 1500000.0 / 5000000.0 == 0.3;
    assert Earned(1500000.0, 1) < 1.0;
    PriorityBoundIsExact(Example(9000), 9000);
    PriorityBoundIsExact(Example(9000), 3000);
    PriorityBoundIsExact(Example(2960), 2988);
    PriorityBoundIsExact(Example(2960), 3008);
  }
}
