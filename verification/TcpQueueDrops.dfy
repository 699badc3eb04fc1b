/** What pop drops is what CoDel decides (src/tcp_tunnel_queue.go:277-289), over every run. */
module TcpQueueDrops {
  import opened Fifo
  import opened TcpQueue
  import opened TcpQueueTheorems
  import opened TcpQueueOrder
  import Codel

  /** A turn takes the head of bulk out of its queue. */
  predicate TakesBulk(s: Settings, q: Queue, op: Op)
    requires s.Valid()
  {
    op.DoTurn? && |Step(s, q, op).bulk| < |q.bulk|
  }

  /** What CoDel is asked about the head of bulk: no delay counts with less than 1500 bytes of data behind it. */
  function Asked(q: Queue, now: int): Codel.Call
    requires |q.bulk| > 0
  {
    Codel.Call(now, if Wire(q.bulk[1..]) + Wire(q.reliable) < 1500 then 0 else now - q.bulk[0].enq)
  }

  /** The calls a run makes, one for each bulk packet that a turn takes. */
  function Calls(s: Settings, q: Queue, ops: seq<Op>): seq<Codel.Call>
    requires s.Valid()
  {
    if |ops| == 0 then []
    else
      var init, op := ops[..|ops| - 1], ops[|ops| - 1];
      var q1 := Run(s, q, init);
      if TakesBulk(s, q1, op) then Calls(s, q, init) + [Asked(q1, op.now)] else Calls(s, q, init)
  }

  /** CoDel has seen the calls of the run, and nothing else. */
  predicate Heard(s: Settings, q: Queue, calls: seq<Codel.Call>) {
    s.codel ==> q.codel == Codel.After(s.codelParams, calls)
  }

  /** What a turn does with the head of bulk, if that is what it takes. */
  lemma TurnDrops(s: Settings, q: Queue, now: int, calls: seq<Codel.Call>)
    requires s.Valid() && !IsEmpty(q) && Heard(s, q, calls)
    ensures var q' := Turn(s, q, now);
            if |q'.bulk| < |q.bulk|
            then Heard(s, q', calls + [Asked(q, now)])
                 && if s.codel && Codel.Dropped(s.codelParams, calls + [Asked(q, now)])
                    then DropsBulk(q, q') else Sends(q, q', Bulk)
            else Heard(s, q', calls) && q'.released == q.released
  {
    hide Codel.Decide, Codel.After, Codel.Dropped, Earn, Wire;
    if |q.bulk| > 0 { Codel.AfterCall(s.codelParams, calls, Asked(q, now)); }
  }

  lemma PushHeard(s: Settings, q: Queue, pkt: Packet, control: bool, now: int)
    ensures Push(s, q, pkt, control, now).0.codel == q.codel
  {
    hide Packets, Held;
    var k := MakeRoomDropsOldestBulk(s, q.(taken := q.taken + [pkt]), pkt.size);
  }

  lemma {:induction false} RunHeard(s: Settings, ops: seq<Op>)
    requires s.Valid()
    ensures Heard(s, Run(s, Empty(), ops), Calls(s, Empty(), ops))
  {
    hide Turn, Push, IsEmpty, Codel.After, Asked;
    if |ops| == 0 {
      NothingHeard(s);
    } else {
      var init := ops[..|ops| - 1];
      var q := Run(s, Empty(), init);
      RunHeard(s, init);
      match ops[|ops| - 1]
      case DoPush(pkt, control, now) => PushHeard(s, q, pkt, control, now);
      case DoTurn(now) => if !IsEmpty(q) { TurnDrops(s, q, now, Calls(s, Empty(), init)); }
      case DoClose =>
    }
  }

  lemma NothingHeard(s: Settings)
    ensures Heard(s, Empty(), [])
  {
  }

  /**
   * After any run, the next turn releases a packet exactly if it takes the head of bulk, CoDel is on, and CoDel drops
   * it, given the history of calls of the run; any other packet it takes is sent.
   */
  lemma PopDropsExactly(s: Settings, ops: seq<Op>, now: int)
    requires s.Valid() && !IsEmpty(Run(s, Empty(), ops))
    ensures var q := Run(s, Empty(), ops);
            var q' := Turn(s, q, now);
            var dropped := s.codel && |q'.bulk| < |q.bulk|
                           && Codel.Dropped(s.codelParams, Calls(s, Empty(), ops) + [Asked(q, now)]);
            && q'.released == (if dropped then q.released + [q.bulk[0].pkt] else q.released)
            && |q'.sent| == |q.sent| + (if dropped then 0 else 1)
  {
    hide Turn, IsEmpty, Codel.Dropped, Asked, Run, Calls, Heard;
    RunHeard(s, ops);
    var q := Run(s, Empty(), ops);
    TurnDrops(s, q, now, Calls(s, Empty(), ops));
    var cls := TurnTakesOne(s, q, now);
  }

  /** Packets the turns of a run released. */
  function TurnReleases(s: Settings, q: Queue, ops: seq<Op>): nat
    requires s.Valid()
  {
    if |ops| == 0 then 0
    else
      var q1 := Run(s, q, ops[..|ops| - 1]);
      var q2 := Step(s, q1, ops[|ops| - 1]);
      TurnReleases(s, q, ops[..|ops| - 1])
      + (if ops[|ops| - 1].DoTurn? && |q2.released| > |q1.released| then |q2.released| - |q1.released| else 0)
  }

  /** With CoDel off, or while no bulk packet stands for the target, no turn of a run gives a packet back. */
  lemma {:induction false} UncongestedLosesNothing(s: Settings, ops: seq<Op>)
    requires s.Valid() && (s.codel ==> Codel.BelowTarget(s.codelParams, Calls(s, Empty(), ops)))
    ensures TurnReleases(s, Empty(), ops) == 0
  {
    hide Turn, Push, IsEmpty, Codel.Dropped, Asked;
    if |ops| > 0 {
      var init, op := ops[..|ops| - 1], ops[|ops| - 1];
      var q, calls := Run(s, Empty(), init), Calls(s, Empty(), init);
      assert calls <= Calls(s, Empty(), ops);
      if s.codel { Codel.StillBelow(s.codelParams, calls, Calls(s, Empty(), ops)); }
      UncongestedLosesNothing(s, init);
      if op.DoTurn? && !IsEmpty(q) {
        PopDropsExactly(s, init, op.now);
        if s.codel && TakesBulk(s, q, op) {
          assert Calls(s, Empty(), ops) == calls + [Asked(q, op.now)];
          Codel.NotDropped(s.codelParams, calls + [Asked(q, op.now)]);
        }
      }
    }
  }
}
