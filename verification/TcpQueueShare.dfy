/** How the credit scheduler of src/tcp_tunnel_queue.go divides the link between priority and bulk. */
module TcpQueueShare {
  import opened Fifo
  import opened Reals
  import opened TcpQueue
  import opened TcpQueueTheorems
  import opened TcpQueueOrder
  import Codel

  /** Priority bytes that one bulk byte earns. */
  function Ratio(s: Settings): real
    requires s.Valid()
  {
    s.share / (1.0 - s.share + 0.000000001)
  }

  lemma FactorSign(r: real, d: real)
    requires r * d >= 0.0 && d > 0.0
    ensures r >= 0.0
  {
  }

  lemma EarnIsRatio(s: Settings, wire: int)
    requires s.Valid()
    ensures Earn(s, wire) == Ratio(s) * wire as real
    ensures Ratio(s) >= 0.0
  {
    var d := 1.0 - s.share + 0.000000001;
    assert Ratio(s) * d == s.share;
    FactorSign(Ratio(s), d);
    assert (wire as real * Ratio(s)) * d == wire as real * s.share;
  }

  lemma EarnAdds(s: Settings, a: int, b: int)
    requires s.Valid()
    ensures Earn(s, a + b) == Earn(s, a) + Earn(s, b)
  {
    EarnIsRatio(s, a);
    EarnIsRatio(s, b);
    EarnIsRatio(s, a + b);
    assert Ratio(s) * (a + b) as real == Ratio(s) * a as real + Ratio(s) * b as real;
  }

  lemma EarnGrows(s: Settings, a: int, b: int)
    requires s.Valid() && a <= b
    ensures Earn(s, a) <= Earn(s, b)
  {
    EarnIsRatio(s, a);
    EarnIsRatio(s, b);
    hide Earn, Ratio;
    assert Ratio(s) * (b - a) as real >= 0.0;
  }

  /** Wire bytes of one class in a log. */
  function SentBytes(log: seq<Sent>, cls: Class): nat { Wire(Of(log, cls)) }

  function PriorityBytes(log: seq<Sent>): nat { SentBytes(log, Priority) }

  function BulkBytes(log: seq<Sent>): nat { SentBytes(log, Bulk) + SentBytes(log, Reliable) }

  lemma SentAppend(log: seq<Sent>, x: Sent)
    ensures PriorityBytes(log + [x]) == PriorityBytes(log) + if x.cls == Priority then x.it.wire else 0
    ensures BulkBytes(log + [x]) == BulkBytes(log) + if x.cls == Bulk || x.cls == Reliable then x.it.wire else 0
  {
    OfAppend(log, x, Priority);
    OfAppend(log, x, Bulk);
    OfAppend(log, x, Reliable);
    WireAppend(Of(log, Priority), x.it);
    WireAppend(Of(log, Bulk), x.it);
    WireAppend(Of(log, Reliable), x.it);
  }

  predicate EarnsBy(s: Settings, q: Queue, q': Queue, cls: Class)
    requires s.Valid()
  {
    Sends(q, q', cls) && q'.credit == MinR(q.credit + Earn(s, QueueOf(q, cls)[0].wire), MAX_CREDIT as real)
  }

  /** What a turn does to the credit, with bulk waiting. */
  lemma TurnCredit(s: Settings, q: Queue, now: int)
    requires s.Valid() && BulkLen(q) > 0
    ensures var q' := Turn(s, q, now);
            || (Sends(q, q', Priority) && q.credit > 0.0 && q'.credit == q.credit - q.priority[0].wire as real)
            || (Sends(q, q', Control) && q'.credit == q.credit)
            || (DropsBulk(q, q') && q'.credit == q.credit)
            || ((|q.priority| > 0 ==> q.credit <= 0.0) && (EarnsBy(s, q, q', Bulk) || EarnsBy(s, q, q', Reliable)))
  {
    hide Codel.Decide, Earn, Wire;
    var cls := TurnTakesOne(s, q, now);
  }

  /** Priority holds only small packets, and credit is overdrawn by less than one of them. */
  predicate Solvent(s: Settings, q: Queue) {
    Fit(s, q.priority) && -(s.prioritySize as real) < q.credit <= 65536.0
  }

  lemma PushSolvent(s: Settings, q: Queue, pkt: Packet, control: bool, now: int)
    requires Solvent(s, q)
    ensures var q' := Push(s, q, pkt, control, now).0; Solvent(s, q') && q'.credit == q.credit && q'.sent == q.sent
  {
    hide MakeRoom, Held, Packets;
    var k := MakeRoomDropsOldestBulk(s, q.(taken := q.taken + [pkt]), pkt.size);
  }

  lemma TurnSolvent(s: Settings, q: Queue, now: int)
    requires s.Valid() && !IsEmpty(q) && Solvent(s, q)
    ensures Solvent(s, Turn(s, q, now))
  {
    if BulkLen(q) > 0 {
      EarnSign(s, q);
      hide Earn, Turn;
      TurnCredit(s, q, now);
    } else {
      hide Codel.Decide, Earn, Wire;
    }
  }

  lemma EarnSign(s: Settings, q: Queue)
    requires s.Valid()
    ensures forall i :: 0 <= i < |q.bulk| ==> Earn(s, q.bulk[i].wire) >= 0.0
    ensures forall i :: 0 <= i < |q.reliable| ==> Earn(s, q.reliable[i].wire) >= 0.0
  {
    EarnAdds(s, 0, 0);
    forall i | 0 <= i < |q.bulk| ensures Earn(s, q.bulk[i].wire) >= 0.0 { EarnGrows(s, 0, q.bulk[i].wire); }
    forall i | 0 <= i < |q.reliable| ensures Earn(s, q.reliable[i].wire) >= 0.0 { EarnGrows(s, 0, q.reliable[i].wire); }
  }

  /** Credit is always in (-prioritySize, 65536]. */
  lemma {:induction false} CreditInRange(s: Settings, ops: seq<Op>)
    requires s.Valid()
    ensures Solvent(s, Run(s, Empty(), ops))
  {
    if |ops| > 0 {
      hide Turn, Push;
      var init := ops[..|ops| - 1];
      CreditInRange(s, init);
      var q := Run(s, Empty(), init);
      match ops[|ops| - 1]
      case DoPush(pkt, control, now) => PushSolvent(s, q, pkt, control, now);
      case DoTurn(now) => if !IsEmpty(q) { TurnSolvent(s, q, now); }
      case DoClose =>
    }
  }

  // ---- bounds over a run -----------------------------------------------------------------

  /** Bulk or reliable data is waiting whenever pop looks. */
  predicate Contended(s: Settings, q: Queue, ops: seq<Op>)
    requires s.Valid()
  {
    |ops| > 0 ==>
      && Contended(s, q, ops[..|ops| - 1])
      && (ops[|ops| - 1].DoTurn? ==> BulkLen(Run(s, q, ops[..|ops| - 1])) > 0)
  }

  /** So is priority data. */
  predicate Saturated(s: Settings, q: Queue, ops: seq<Op>)
    requires s.Valid()
  {
    |ops| > 0 ==>
      && Saturated(s, q, ops[..|ops| - 1])
      && (ops[|ops| - 1].DoTurn? ==>
            BulkLen(Run(s, q, ops[..|ops| - 1])) > 0 && |Run(s, q, ops[..|ops| - 1]).priority| > 0)
  }

  /** Credit never exceeds what was there, plus what bulk earned, less what priority spent. */
  predicate Paid(s: Settings, q: Queue, q': Queue)
    requires s.Valid()
  {
    q'.credit <= q.credit + Earn(s, BulkBytes(q'.sent) - BulkBytes(q.sent))
                 - (PriorityBytes(q'.sent) - PriorityBytes(q.sent)) as real
  }

  lemma TurnPaid(s: Settings, q: Queue, now: int)
    requires s.Valid() && BulkLen(q) > 0
    ensures Paid(s, q, Turn(s, q, now))
  {
    hide Turn, Earn, PriorityBytes, BulkBytes;
    TurnCredit(s, q, now);
    var q' := Turn(s, q, now);
    EarnAdds(s, 0, 0);
    if |q'.sent| > |q.sent| { SentAppend(q.sent, q'.sent[|q.sent|]); }
  }

  lemma PaidChains(s: Settings, q: Queue, q1: Queue, q2: Queue)
    requires s.Valid() && Paid(s, q, q1) && Paid(s, q1, q2)
    ensures Paid(s, q, q2)
  {
    hide Earn, PriorityBytes, BulkBytes;
    EarnAdds(s, BulkBytes(q1.sent) - BulkBytes(q.sent), BulkBytes(q2.sent) - BulkBytes(q1.sent));
  }

  lemma PaidSame(s: Settings, q: Queue, q': Queue)
    requires s.Valid() && q'.credit == q.credit && q'.sent == q.sent
    ensures Paid(s, q, q')
  {
    hide PriorityBytes, BulkBytes;
  }

  lemma {:induction false} RunPaid(s: Settings, q: Queue, ops: seq<Op>)
    requires s.Valid() && Solvent(s, q) && Contended(s, q, ops)
    ensures Paid(s, q, Run(s, q, ops)) && Solvent(s, Run(s, q, ops))
  {
    hide Turn, Push, Paid;
    if |ops| == 0 {
      PaidSame(s, q, q);
    } else {
      var init := ops[..|ops| - 1];
      RunPaid(s, q, init);
      var q1 := Run(s, q, init);
      match ops[|ops| - 1] {
        case DoPush(pkt, control, now) =>
          PushSolvent(s, q1, pkt, control, now);
          PaidSame(s, q1, Run(s, q, ops));
        case DoTurn(now) =>
          TurnSolvent(s, q1, now);
          TurnPaid(s, q1, now);
        case DoClose => PaidSame(s, q1, Run(s, q, ops));
      }
      PaidChains(s, q, q1, Run(s, q, ops));
    }
  }

  /**
   * While bulk waits, priority sends less than its starting credit, plus its share of the bulk sent,
   * plus one priority packet.
   */
  lemma PriorityShareAtMost(s: Settings, q: Queue, ops: seq<Op>)
    requires s.Valid() && Solvent(s, q) && Contended(s, q, ops)
    ensures var q' := Run(s, q, ops);
            (PriorityBytes(q'.sent) - PriorityBytes(q.sent)) as real
              < q.credit + Ratio(s) * (BulkBytes(q'.sent) - BulkBytes(q.sent)) as real + s.prioritySize as real
  {
    hide Run, Contended, Earn, Ratio, BulkBytes, PriorityBytes;
    RunPaid(s, q, ops);
    EarnIsRatio(s, BulkBytes(Run(s, q, ops).sent) - BulkBytes(q.sent));
  }

  /** Every data packet sent is at most big. */
  predicate NoLarger(log: seq<Sent>, big: nat) {
    forall i :: 0 <= i < |log| && (log[i].cls == Bulk || log[i].cls == Reliable) ==> log[i].it.wire <= big
  }

  /** Nothing earned was lost to the cap, and credit is at most what one bulk packet can bring from nothing. */
  predicate Exact(s: Settings, q: Queue, q': Queue, big: nat)
    requires s.Valid()
  {
    && q'.credit == q.credit + Earn(s, BulkBytes(q'.sent) - BulkBytes(q.sent))
                    - (PriorityBytes(q'.sent) - PriorityBytes(q.sent)) as real
    && (q'.credit <= q.credit || q'.credit <= Earn(s, big))
  }

  lemma TurnExact(s: Settings, q: Queue, now: int, big: nat)
    requires s.Valid() && BulkLen(q) > 0 && |q.priority| > 0 && Earn(s, big) <= MAX_CREDIT as real
    requires NoLarger(Turn(s, q, now).sent, big)
    ensures Exact(s, q, Turn(s, q, now), big)
  {
    hide Turn, Earn, PriorityBytes, BulkBytes;
    TurnCredit(s, q, now);
    var q' := Turn(s, q, now);
    EarnAdds(s, 0, 0);
    if |q'.sent| > |q.sent| {
      var x := q'.sent[|q.sent|];
      SentAppend(q.sent, x);
      if x.cls == Bulk || x.cls == Reliable { EarnGrows(s, x.it.wire, big); }
    }
  }

  lemma ExactChains(s: Settings, q: Queue, q1: Queue, q2: Queue, big: nat)
    requires s.Valid() && Exact(s, q, q1, big) && Exact(s, q1, q2, big)
    ensures Exact(s, q, q2, big)
  {
    hide Earn, PriorityBytes, BulkBytes;
    EarnAdds(s, BulkBytes(q1.sent) - BulkBytes(q.sent), BulkBytes(q2.sent) - BulkBytes(q1.sent));
  }

  lemma ExactSame(s: Settings, q: Queue, q': Queue, big: nat)
    requires s.Valid() && q'.credit == q.credit && q'.sent == q.sent
    ensures Exact(s, q, q', big)
  {
    hide PriorityBytes, BulkBytes;
  }

  lemma SentOnlyGrows(s: Settings, q: Queue, op: Op)
    requires s.Valid() && (op.DoTurn? ==> BulkLen(q) > 0)
    ensures q.sent <= Step(s, q, op).sent
  {
    hide Turn, Push, Earn;
    match op
    case DoPush(pkt, control, now) => PushSent(s, q, pkt, control, now);
    case DoTurn(now) => TurnCredit(s, q, now);
    case DoClose =>
  }

  lemma PushSent(s: Settings, q: Queue, pkt: Packet, control: bool, now: int)
    ensures var q' := Push(s, q, pkt, control, now).0; q'.credit == q.credit && q'.sent == q.sent
  {
    hide MakeRoom, Held, Packets;
    var k := MakeRoomDropsOldestBulk(s, q.(taken := q.taken + [pkt]), pkt.size);
  }

  lemma {:induction false} RunExact(s: Settings, q: Queue, ops: seq<Op>, big: nat)
    requires s.Valid() && Saturated(s, q, ops) && Earn(s, big) <= MAX_CREDIT as real
    requires NoLarger(Run(s, q, ops).sent, big)
    ensures Exact(s, q, Run(s, q, ops), big)
  {
    hide Turn, Push, Exact, Earn;
    if |ops| == 0 {
      ExactSame(s, q, q, big);
    } else {
      var init := ops[..|ops| - 1];
      var q1 := Run(s, q, init);
      SentOnlyGrows(s, q1, ops[|ops| - 1]);
      RunExact(s, q, init, big);
      match ops[|ops| - 1] {
        case DoPush(pkt, control, now) =>
          PushSent(s, q1, pkt, control, now);
          ExactSame(s, q1, Run(s, q, ops), big);
        case DoTurn(now) => TurnExact(s, q1, now, big);
        case DoClose => ExactSame(s, q1, Run(s, q, ops), big);
      }
      ExactChains(s, q, q1, Run(s, q, ops), big);
    }
  }

  lemma Shortfall(credit: real, credit': real, earned: real, spent: real, most: real, small: real)
    requires credit' == credit + earned - spent && (credit' <= credit || credit' <= most)
    requires -small < credit && most >= 0.0 && small >= 0.0
    ensures spent >= earned - most - small
  {
  }

  /**
   * While both wait, and one bulk packet cannot earn more than the cap, priority gets its share of the bulk
   * sent, short of it by at most one packet's worth on each side.
   */
  lemma PriorityShareAtLeast(s: Settings, q: Queue, ops: seq<Op>, big: nat)
    requires s.Valid() && Solvent(s, q) && Saturated(s, q, ops)
    requires Ratio(s) * big as real <= MAX_CREDIT as real
    requires NoLarger(Run(s, q, ops).sent, big)
    ensures var q' := Run(s, q, ops);
            (PriorityBytes(q'.sent) - PriorityBytes(q.sent)) as real
              >= Ratio(s) * (BulkBytes(q'.sent) - BulkBytes(q.sent)) as real
                 - Ratio(s) * big as real - s.prioritySize as real
  {
    hide Run, Saturated, Earn, Ratio, BulkBytes, PriorityBytes;
    var q' := Run(s, q, ops);
    EarnIsRatio(s, big);
    EarnGrows(s, 0, big);
    EarnAdds(s, 0, 0);
    RunExact(s, q, ops, big);
    EarnIsRatio(s, BulkBytes(q'.sent) - BulkBytes(q.sent));
    Shortfall(q.credit, q'.credit, Earn(s, BulkBytes(q'.sent) - BulkBytes(q.sent)),
              (PriorityBytes(q'.sent) - PriorityBytes(q.sent)) as real, Earn(s, big), s.prioritySize as real);
  }
}
