/** Rate conformance of the shaper (src/shaper.go): what may leave in any stretch of a run. */
module PathShaperRate {
  import opened Reals
  import opened PathShaper
  import opened PathShaperTheorems

  /** Wire bytes of some classes in a log. */
  function BytesOf(log: seq<Sent>, classes: set<Class>): nat {
    if |log| == 0 then 0
    else BytesOf(log[..|log| - 1], classes) + (if log[|log| - 1].cls in classes then log[|log| - 1].it.wire else 0)
  }

  lemma BytesAppend(log: seq<Sent>, x: Sent, classes: set<Class>)
    ensures BytesOf(log + [x], classes) == BytesOf(log, classes) + if x.cls in classes then x.it.wire else 0
  {
    assert (log + [x])[..|log|] == log;
  }

  const Data := {Class.Priority, Class.Bulk}
  const All := {Class.Control, Class.Priority, Class.Bulk}

  function Since(p: Shaper, p': Shaper, classes: set<Class>): int { BytesOf(p'.out, classes) - BytesOf(p.out, classes) }

  lemma EarnedAdds(rate: real, a: int, b: int)
    ensures Earned(rate, a + b) == Earned(rate, a) + Earned(rate, b)
    ensures Earned(rate, 0) == 0.0
    ensures rate >= 0.0 && a >= 0 ==> Earned(rate, a) >= 0.0
  {
    var x, y := a as real / 1000000000.0, b as real / 1000000000.0;
    assert (a + b) as real / 1000000000.0 == x + y;
    assert rate * (x + y) == rate * x + rate * y;
    if rate >= 0.0 && a >= 0 { assert x >= 0.0; }
  }

  /** A bucket: what is in it, what has left, and the bound on what may leave, over dt nanoseconds. */
  predicate Bucket(level0: real, level: real, rate: real, dt: int, drained: real, left: real, big: real) {
    && dt >= 0 && left <= drained
    && level <= level0 + Earned(rate, dt) - drained
    && (left == 0.0 || left <= level0 + Earned(rate, dt) + big)
  }

  lemma BucketFills(level0: real, level: real, rate: real, dt: int, drained: real, left: real, big: real, ns: nat,
          level': real)
    requires Bucket(level0, level, rate, dt, drained, left, big) && rate >= 0.0
    requires level' <= level + Earned(rate, ns)
    ensures Bucket(level0, level', rate, dt + ns, drained, left, big)
  {
    hide Earned;
    EarnedAdds(rate, ns, dt);
  }

  /** What is counted leaves only from a bucket that is not empty. */
  lemma BucketDrains(level0: real, level: real, rate: real, dt: int, drained: real, left: real, big: real, w: real,
          level': real)
    requires Bucket(level0, level, rate, dt, drained, left, big) && w <= big && level > 0.0
    requires level' <= level - w
    ensures Bucket(level0, level', rate, dt, drained + w, left + w, big)
  {
    hide Earned;
  }

  /** What is not counted may leave from any bucket. */
  lemma OthersDrain(level0: real, level: real, rate: real, dt: int, drained: real, left: real, big: real, w: real)
    requires Bucket(level0, level, rate, dt, drained, left, big) && w >= 0.0
    ensures Bucket(level0, level - w, rate, dt, drained + w, left, big)
  {
    hide Earned;
  }

  /** From p to p', at one rate, the bucket held for the classes counted. */
  predicate Conforms(p: Shaper, p': Shaper, classes: set<Class>, big: int) {
    && p'.r == p.r
    && Bucket(p.tokens, p'.tokens, p.r.rate, p'.last - p.last,
              Since(p, p', All) as real, Since(p, p', classes) as real, big as real)
  }

  /** What a log has beyond an earlier one is, of these classes, at most big bytes each. */
  predicate NoLarger(before: seq<Sent>, log: seq<Sent>, classes: set<Class>, big: int) {
    forall i :: |before| <= i < |log| && log[i].cls in classes ==> log[i].it.wire <= big
  }

  lemma TurnConforms(s: Settings, p: Shaper, q: Shaper, now: int, classes: set<Class>, big: int)
    requires Ready(q) && Conforms(p, q, classes, big) && classes <= Data && p.out <= q.out
    requires NoLarger(p.out, Turn(s, q, now).out, classes, big)
    ensures Conforms(p, Turn(s, q, now), classes, big)
  {
    hide Turn, Ready, BytesOf, Bucket;
    var cls := TurnTakesOne(s, q, now);
    var q' := Turn(s, q, now);
    var it := QueueOf(q, cls)[0];
    if Sends(q, q', cls) {
      var x := Sent(it, cls);
      BytesAppend(q.out, x, All);
      BytesAppend(q.out, x, classes);
      assert q'.out[|q.out|] == x;
      var dt, drained, left := q.last - p.last, Since(p, q, All) as real, Since(p, q, classes) as real;
      if cls in classes {
        BucketDrains(p.tokens, q.tokens, p.r.rate, dt, drained, left, big as real, it.wire as real, q'.tokens);
      } else {
        OthersDrain(p.tokens, q.tokens, p.r.rate, dt, drained, left, big as real, it.wire as real);
      }
    }
  }

  lemma RefillConforms(p: Shaper, q: Shaper, now: int, classes: set<Class>, big: int)
    requires Conforms(p, q, classes, big) && p.r.rate >= 0.0
    ensures Conforms(p, Refill(q, now), classes, big)
  {
    hide Earned, BytesOf, Bucket;
    if now > q.last {
      BucketFills(p.tokens, q.tokens, p.r.rate, q.last - p.last, Since(p, q, All) as real, Since(p, q, classes) as real,
                  big as real, now - q.last, Refill(q, now).tokens);
    }
  }

  predicate FixedRate(ops: seq<Op>) { forall i :: 0 <= i < |ops| ==> !ops[i].DoSetRate? }

  lemma OutOnlyGrows(s: Settings, p: Shaper, op: Op)
    requires s.Valid() && !op.DoSetRate?
    ensures p.out <= Step(s, p, op).out
  {
    hide Turn, Ready, Enqueue;
    match op
    case DoEnqueue(pkt, addr, ipv6, control, now) => EnqueueSpendsNothing(s, p, pkt, addr, ipv6, control, now);
    case DoTurn(now) => if Ready(p) { var cls := TurnTakesOne(s, p, now); }
    case _ =>
  }

  lemma {:induction false} RunConforms(s: Settings, p: Shaper, ops: seq<Op>, classes: set<Class>, big: int)
    requires s.Valid() && FixedRate(ops) && p.r.rate >= 0.0 && classes <= Data
    requires NoLarger(p.out, Run(s, p, ops).out, classes, big)
    ensures Conforms(p, Run(s, p, ops), classes, big) && p.out <= Run(s, p, ops).out
  {
    hide BytesOf, Turn, Ready, Enqueue;
    if |ops| == 0 {
      EarnedAdds(p.r.rate, 0, 0);
    } else {
      var init := ops[..|ops| - 1];
      var q := Run(s, p, init);
      OutOnlyGrows(s, q, ops[|ops| - 1]);
      RunConforms(s, p, init, classes, big);
      match ops[|ops| - 1]
      case DoEnqueue(pkt, addr, ipv6, control, now) => EnqueueSpendsNothing(s, q, pkt, addr, ipv6, control, now);
      case DoRefill(now) => RefillConforms(p, q, now, classes, big);
      case DoTurn(now) => if Ready(q) { TurnConforms(s, p, q, now, classes, big); }
      case DoReset =>
    }
  }

  /**
   * At a fixed rate, the data of any classes that leaves in any stretch of a run is at most a full bucket, what the
   * rate brings in that time, and one packet of theirs, however much else goes out beside it.
   */
  lemma ClassesConform(s: Settings, p: Shaper, ops: seq<Op>, classes: set<Class>, big: nat)
    requires s.Valid() && FixedRate(ops) && p.r.rate > 0.0 && 0.0 <= p.r.burst && Capped(p) && classes <= Data
    requires NoLarger(p.out, Run(s, p, ops).out, classes, big)
    ensures var p' := Run(s, p, ops);
            p'.last >= p.last
            && Since(p, p', classes) as real <= p.r.burst + Earned(p.r.rate, p'.last - p.last) + big as real
  {
    hide Run, BytesOf, Earned;
    RunConforms(s, p, ops, classes, big);
    EarnedAdds(p.r.rate, Run(s, p, ops).last - p.last, 0);
  }

  /**
   * At a fixed rate, the data that leaves in any stretch of a run is at most a full bucket, what the rate brings in
   * that time, and one packet, however many control messages go out beside it.
   */
  lemma RateConformance(s: Settings, p: Shaper, ops: seq<Op>, big: nat)
    requires s.Valid() && FixedRate(ops) && p.r.rate > 0.0 && 0.0 <= p.r.burst && Capped(p)
    requires NoLarger(p.out, Run(s, p, ops).out, Data, big)
    ensures var p' := Run(s, p, ops);
            p'.last >= p.last
            && Since(p, p', Data) as real <= p.r.burst + Earned(p.r.rate, p'.last - p.last) + big as real
  {
    hide Run, BytesOf;
    ClassesConform(s, p, ops, Data, big);
  }

  /** The same for a stretch that begins at time t0, however long the path was idle before. */
  lemma StretchConformance(s: Settings, p: Shaper, t0: int, ops: seq<Op>, big: nat)
    requires s.Valid() && FixedRate(ops) && p.r.rate > 0.0 && 0.0 <= p.r.burst && Capped(p) && t0 >= p.last
    requires NoLarger(p.out, Run(s, p, [DoRefill(t0)] + ops).out, Data, big)
    ensures var p' := Run(s, p, [DoRefill(t0)] + ops);
            p'.last >= t0 && Since(p, p', Data) as real <= p.r.burst + Earned(p.r.rate, p'.last - t0) + big as real
  {
    hide Run, BytesOf, Earned;
    RunSplits(s, p, [DoRefill(t0)], ops);
    assert Run(s, p, [DoRefill(t0)]) == Refill(p, t0) by { RunOne(s, p, [], DoRefill(t0)); }
    RateConformance(s, Refill(p, t0), ops, big);
  }

  /** A run one step longer. */
  lemma RunOne(s: Settings, p: Shaper, ops: seq<Op>, op: Op)
    requires s.Valid()
    ensures Run(s, p, ops + [op]) == Step(s, Run(s, p, ops), op)
    ensures BulkWaits(s, p, ops + [op])
            <==> BulkWaits(s, p, ops) && (op.DoTurn? ==> |Run(s, p, ops).bulk| > 0)
    ensures Run(s, p, []) == p && BulkWaits(s, p, []) && [] + [op] == [op]
  {
    hide Step;
    assert (ops + [op])[..|ops|] == ops;
  }

  // ---- priority -------------------------------------------------------------------------

  const Small := {Class.Priority}

  /** Bulk is queued whenever dequeue looks for data. */
  predicate BulkWaits(s: Settings, p: Shaper, ops: seq<Op>)
    requires s.Valid()
  {
    |ops| > 0 ==>
      && BulkWaits(s, p, ops[..|ops| - 1])
      && (ops[|ops| - 1].DoTurn? ==> |Run(s, p, ops[..|ops| - 1]).bulk| > 0)
  }

  /** Priority bytes in a log, of each packet at most cap. */
  function ClippedOf(log: seq<Sent>, cap: real): real {
    if |log| == 0 then 0.0
    else
      ClippedOf(log[..|log| - 1], cap)
      + (if log[|log| - 1].cls == Priority then MinR(log[|log| - 1].it.wire as real, cap) else 0.0)
  }

  lemma ClippedAppend(log: seq<Sent>, x: Sent, cap: real)
    ensures ClippedOf(log + [x], cap)
            == ClippedOf(log, cap) + if x.cls == Priority then MinR(x.it.wire as real, cap) else 0.0
  {
    assert (log + [x])[..|log|] == log;
  }

  /** Nothing is cut off packets no larger than the cap. */
  lemma {:induction false} ClippedIsAll(before: seq<Sent>, log: seq<Sent>, big: int, cap: real)
    requires before <= log && NoLarger(before, log, Small, big) && big as real <= cap
    ensures ClippedOf(log, cap) - ClippedOf(before, cap) == (BytesOf(log, Small) - BytesOf(before, Small)) as real
  {
    if |log| > |before| {
      ClippedIsAll(before, log[..|log| - 1], big, cap);
    } else {
      assert before == log;
    }
  }

  function ClippedSince(p: Shaper, p': Shaper): real {
    ClippedOf(p'.out, p.r.priorityBurst) - ClippedOf(p.out, p.r.priorityBurst)
  }

  predicate Shares(p: Shaper, p': Shaper, big: int) {
    && p'.r == p.r
    && Bucket(p.priorityTokens, p'.priorityTokens, p.r.priorityRate, p'.last - p.last,
              ClippedSince(p, p'), ClippedSince(p, p'), MinR(big as real, p.r.priorityBurst))
  }

  lemma TurnShares(s: Settings, p: Shaper, q: Shaper, now: int, big: int)
    requires Ready(q) && |q.bulk| > 0 && Shares(p, q, big) && p.out <= q.out
    requires NoLarger(p.out, Turn(s, q, now).out, Small, big)
    ensures Shares(p, Turn(s, q, now), big)
  {
    hide Turn, Ready, ClippedOf, Bucket;
    var cls := TurnTakesOne(s, q, now);
    var q' := Turn(s, q, now);
    var it := QueueOf(q, cls)[0];
    if Sends(q, q', cls) {
      ClippedAppend(q.out, Sent(it, cls), p.r.priorityBurst);
      assert q'.out[|q.out|] == Sent(it, cls);
      if cls == Priority {
        var w := MinR(it.wire as real, p.r.priorityBurst);
        BucketDrains(p.priorityTokens, q.priorityTokens, p.r.priorityRate, q.last - p.last,
                     ClippedSince(p, q), ClippedSince(p, q), MinR(big as real, p.r.priorityBurst), w,
                     q'.priorityTokens);
      }
    }
  }

  lemma RefillShares(p: Shaper, q: Shaper, now: int, big: int)
    requires Shares(p, q, big) && p.r.priorityRate >= 0.0
    ensures Shares(p, Refill(q, now), big)
  {
    hide Earned, ClippedOf, Bucket;
    if now > q.last {
      BucketFills(p.priorityTokens, q.priorityTokens, p.r.priorityRate, q.last - p.last, ClippedSince(p, q),
                  ClippedSince(p, q), MinR(big as real, p.r.priorityBurst), now - q.last,
                  Refill(q, now).priorityTokens);
    }
  }

  lemma {:induction false} RunShares(s: Settings, p: Shaper, ops: seq<Op>, big: int)
    requires s.Valid() && FixedRate(ops) && p.r.priorityRate >= 0.0 && BulkWaits(s, p, ops)
    requires NoLarger(p.out, Run(s, p, ops).out, Small, big)
    ensures Shares(p, Run(s, p, ops), big) && p.out <= Run(s, p, ops).out
  {
    hide ClippedOf, Turn, Ready, Enqueue;
    if |ops| == 0 {
      EarnedAdds(p.r.priorityRate, 0, 0);
    } else {
      var init := ops[..|ops| - 1];
      var q := Run(s, p, init);
      OutOnlyGrows(s, q, ops[|ops| - 1]);
      RunShares(s, p, init, big);
      match ops[|ops| - 1]
      case DoEnqueue(pkt, addr, ipv6, control, now) => EnqueueSpendsNothing(s, q, pkt, addr, ipv6, control, now);
      case DoRefill(now) => RefillShares(p, q, now, big);
      case DoTurn(now) => if Ready(q) { TurnShares(s, p, q, now, big); }
      case DoReset =>
    }
  }

  /**
   * While bulk stays queued, for packets of any size: the priority data that leaves in any stretch of a run, of each
   * packet at most a bucketful, is at most a full priority bucket, what the priority rate brings in that time, and one
   * packet.
   */
  lemma ClippedConformance(s: Settings, p: Shaper, ops: seq<Op>, big: nat)
    requires s.Valid() && FixedRate(ops) && p.r.priorityRate > 0.0 && p.r.priorityBurst >= 0.0
    requires Capped(p) && BulkWaits(s, p, ops) && NoLarger(p.out, Run(s, p, ops).out, Small, big)
    ensures var p' := Run(s, p, ops);
            ClippedSince(p, p') <= p.r.priorityBurst + Earned(p.r.priorityRate, p'.last - p.last)
                                   + MinR(big as real, p.r.priorityBurst)
  {
    hide Run, BulkWaits, ClippedOf, Earned;
    RunShares(s, p, ops, big);
    EarnedAdds(p.r.priorityRate, Run(s, p, ops).last - p.last, 0);
  }

  /** The priority data that leaves is at most a full priority bucket, what its rate brings, and one packet. */
  predicate Within(p: Shaper, p': Shaper, big: int) {
    Since(p, p', Small) as real <= p.r.priorityBurst + Earned(p.r.priorityRate, p'.last - p.last) + big as real
  }

  /** While bulk stays queued that holds of any stretch of a run, for packets no larger than the bucket. */
  lemma PriorityConformance(s: Settings, p: Shaper, ops: seq<Op>, big: nat)
    requires s.Valid() && FixedRate(ops) && p.r.priorityRate > 0.0 && Capped(p) && BulkWaits(s, p, ops)
    requires NoLarger(p.out, Run(s, p, ops).out, Small, big) && big as real <= p.r.priorityBurst
    ensures Within(p, Run(s, p, ops), big)
  {
    hide Run, BulkWaits, BytesOf, ClippedOf, Earned;
    var p' := Run(s, p, ops);
    RunShares(s, p, ops, big);
    ClippedIsAll(p.out, p'.out, big, p.r.priorityBurst);
    ClippedConformance(s, p, ops, big);
  }

  /** The same for a stretch that begins at time t0. */
  lemma StretchPriority(s: Settings, p: Shaper, t0: int, ops: seq<Op>, big: nat)
    requires s.Valid() && FixedRate(ops) && p.r.priorityRate > 0.0 && Capped(p) && t0 >= p.last
    requires BulkWaits(s, Refill(p, t0), ops) && big as real <= p.r.priorityBurst
    requires NoLarger(p.out, Run(s, p, [DoRefill(t0)] + ops).out, Small, big)
    ensures var p' := Run(s, p, [DoRefill(t0)] + ops);
            Since(p, p', Small) as real <= p.r.priorityBurst + Earned(p.r.priorityRate, p'.last - t0) + big as real
  {
    hide Run, BytesOf, Earned, BulkWaits;
    RunSplits(s, p, [DoRefill(t0)], ops);
    assert Run(s, p, [DoRefill(t0)]) == Refill(p, t0) by { RunOne(s, p, [], DoRefill(t0)); }
    PriorityConformance(s, Refill(p, t0), ops, big);
  }

  /** And for packets of any size where priority has the whole rate, bulk waiting or not. */
  lemma WholeRateConformance(s: Settings, p: Shaper, ops: seq<Op>, big: nat)
    requires s.Valid() && FixedRate(ops) && p.r.rate > 0.0 && 0.0 <= p.r.burst && Capped(p)
    requires p.r.priorityRate == p.r.rate && p.r.priorityBurst == p.r.burst
    requires NoLarger(p.out, Run(s, p, ops).out, Small, big)
    ensures Within(p, Run(s, p, ops), big)
  {
    hide Run, BytesOf, Earned;
    ClassesConform(s, p, ops, Small, big);
  }

  // ---- what priority is owed ------------------------------------------------------------

  /** No refill finds the priority bucket too full for all it brings. */
  predicate NothingSpills(s: Settings, p: Shaper, ops: seq<Op>)
    requires s.Valid()
  {
    |ops| > 0 ==>
      && NothingSpills(s, p, ops[..|ops| - 1])
      && (ops[|ops| - 1].DoRefill? ==>
            var q := Run(s, p, ops[..|ops| - 1]);
            ops[|ops| - 1].now > q.last ==>
              q.priorityTokens + Earned(q.r.priorityRate, ops[|ops| - 1].now - q.last) <= q.r.priorityBurst)
  }

  /** The priority bucket holds what it held and earned, but for what priority has sent. */
  predicate Owed(p: Shaper, q: Shaper) {
    && q.r == p.r && q.last >= p.last
    && q.priorityTokens >= p.priorityTokens + Earned(p.r.priorityRate, q.last - p.last) - Since(p, q, Small) as real
  }

  lemma TurnOwed(s: Settings, p: Shaper, q: Shaper, now: int)
    requires Ready(q) && Owed(p, q)
    ensures Owed(p, Turn(s, q, now))
  {
    hide Turn, Ready, BytesOf, Earned;
    var cls := TurnTakesOne(s, q, now);
    if Sends(q, Turn(s, q, now), cls) { BytesAppend(q.out, Sent(QueueOf(q, cls)[0], cls), Small); }
  }

  lemma RefillOwed(p: Shaper, q: Shaper, now: int)
    requires Owed(p, q)
    requires now > q.last ==> q.priorityTokens + Earned(q.r.priorityRate, now - q.last) <= q.r.priorityBurst
    ensures Owed(p, Refill(q, now))
  {
    hide BytesOf, Earned;
    if now > q.last { EarnedAdds(p.r.priorityRate, q.last - p.last, now - q.last); }
  }

  lemma {:induction false} RunOwed(s: Settings, p: Shaper, ops: seq<Op>)
    requires s.Valid() && FixedRate(ops) && NothingSpills(s, p, ops)
    ensures Owed(p, Run(s, p, ops))
  {
    hide BytesOf, Turn, Ready, Enqueue, Owed, Refill;
    if |ops| == 0 {
      NothingOwed(p);
    } else {
      var init := ops[..|ops| - 1];
      var q := Run(s, p, init);
      RunOwed(s, p, init);
      match ops[|ops| - 1]
      case DoEnqueue(pkt, addr, ipv6, control, now) =>
        EnqueueSpendsNothing(s, q, pkt, addr, ipv6, control, now);
        SameOwed(p, q, Enqueue(s, q, pkt, addr, ipv6, control, now));
      case DoRefill(now) => RefillOwed(p, q, now);
      case DoTurn(now) => if Ready(q) { TurnOwed(s, p, q, now); }
      case DoReset => SameOwed(p, q, Reset(q));
    }
  }

  lemma NothingOwed(p: Shaper)
    ensures Owed(p, p)
  {
    EarnedAdds(p.r.priorityRate, 0, 0);
  }

  lemma SameOwed(p: Shaper, q: Shaper, q': Shaper)
    requires Owed(p, q) && q'.r == q.r && q'.last == q.last && q'.out == q.out && q'.priorityTokens == q.priorityTokens
    ensures Owed(p, q')
  {
    hide BytesOf;
  }

  /**
   * The guaranteed share: when bulk leaves past waiting priority data, priority has already sent all that its bucket
   * held at any earlier time and its rate has brought since, unless a refill found that bucket too full in between.
   */
  lemma PriorityGuaranteed(s: Settings, p: Shaper, ops: seq<Op>, now: int)
    requires s.Valid() && FixedRate(ops) && NothingSpills(s, p, ops)
    requires Ready(Run(s, p, ops)) && |Run(s, p, ops).priority| > 0
    requires Turn(s, Run(s, p, ops), now).bulk != Run(s, p, ops).bulk
    ensures var q := Run(s, p, ops);
            Since(p, q, Small) as real >= p.priorityTokens + Earned(p.r.priorityRate, q.last - p.last)
  {
    hide Run, NothingSpills, Turn, Ready, BytesOf, Earned;
    RunOwed(s, p, ops);
    var cls := TurnTakesOne(s, Run(s, p, ops), now);
  }

  // ---- waiting --------------------------------------------------------------------------

  lemma Cancels(a: real, b: real, c: real)
    requires a * c <= b * c && c > 0.0
    ensures a <= b
  {
  }

  /** Half a bucket is at least a millisecond of the rate. */
  lemma SleepIsLong(need: real, rate: real)
    requires rate > 0.0 && need >= rate * 0.001
    ensures (need / rate * 1000000000.0).Floor >= 1000000
  {
    assert need / rate * rate == need;
    Cancels(0.001, need / rate, rate);
  }

  /** What the truncated sleep brings falls short of the need by less than a nanosecond's worth. */
  lemma SleepEarns(need: real, rate: real)
    requires rate > 0.0
    ensures Earned(rate, (need / rate * 1000000000.0).Floor) > need - rate / 1000000000.0
  {
    var x := need / rate * 1000000000.0;
    var d := x.Floor;
    assert d as real > x - 1.0;
    var y := (d as real - (x - 1.0)) / 1000000000.0;
    assert y > 0.0;
    assert rate * y > 0.0;
    assert need / rate * rate == need;
    assert d as real / 1000000000.0 == y + need / rate - 1.0 / 1000000000.0;
    assert rate * (y + need / rate - 1.0 / 1000000000.0)
        == rate * y + rate * (need / rate) - rate * (1.0 / 1000000000.0);
  }

  /**
   * On a path out of tokens, wait sleeps at least a millisecond, and the truncated sleep still leaves tokens
   * in the bucket when it is over.
   */
  lemma SleepThenTokens(s: Settings, p: Shaper, now: int, rate: real)
    requires s.Valid() && rate > 0.0 && p.r == RateFor(s, rate) && now >= p.last
    requires |p.control| == 0 && |p.priority| + |p.bulk| > 0 && Refill(p, now).tokens <= 0.0
    ensures var (p1, d) := Wait(p, now); d >= 1000000 && Refill(p1, now + d).tokens > 0.0
  {
    hide Earned;
    var p1 := Refill(p, now);
    var need := -p1.tokens + p1.r.burst / 2.0;
    SleepIsLong(need, rate);
    SleepEarns(need, rate);
  }
}
