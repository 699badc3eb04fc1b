/** What dequeue drops is what CoDel decides (src/shaper.go:295-318), for both data classes and over every run. */
module PathShaperDrops {
  import opened Fifo
  import opened PathShaper
  import opened PathShaperTheorems
  import Codel

  /** What CoDel may be asked about the head of a data class, with this much of the class left behind it. */
  function Asked(q: seq<Item>, now: int, cls: Class): Codel.Call
    requires |q| > 0
  {
    Codel.Call(now, if cls == Bulk && Wire(q[1..]) < 1500 then 0 else now - q[0].enq)
  }

  /** A turn takes the head of a class. */
  predicate Takes(s: Settings, p: Shaper, op: Op, cls: Class)
    requires s.Valid()
  {
    op.DoTurn? && |QueueOf(Step(s, p, op), cls)| < |QueueOf(p, cls)|
  }

  /** CoDel is asked about every bulk packet taken, about a priority packet only with 1500 bytes of them behind it. */
  predicate Asks(q: seq<Item>, cls: Class)
    requires |q| > 0
  {
    cls == Bulk || (cls == Priority && Wire(q[1..]) >= 1500)
  }

  /** The calls a run makes to the CoDel of a class. */
  function Calls(s: Settings, p: Shaper, ops: seq<Op>, cls: Class): seq<Codel.Call>
    requires s.Valid()
  {
    if |ops| == 0 then []
    else
      var init, op := ops[..|ops| - 1], ops[|ops| - 1];
      var p1 := Run(s, p, init);
      if Takes(s, p1, op, cls) && Asks(QueueOf(p1, cls), cls)
      then Calls(s, p, init, cls) + [Asked(QueueOf(p1, cls), op.now, cls)]
      else Calls(s, p, init, cls)
  }

  function CodelOf(p: Shaper, cls: Class): Codel.State { if cls == Priority then p.priorityCodel else p.codel }

  /** The CoDel of a class has seen these calls and nothing else. */
  predicate Heard(s: Settings, p: Shaper, cls: Class, calls: seq<Codel.Call>) {
    CodelOf(p, cls) == Codel.After(s.codelParams, calls)
  }

  /** What a turn does with the head of a data class, if that is what it takes. */
  lemma TurnDrops(s: Settings, p: Shaper, now: int, cls: Class, calls: seq<Codel.Call>)
    requires Ready(p) && cls != Control && Heard(s, p, cls, calls)
    ensures var p' := Turn(s, p, now);
            var q := QueueOf(p, cls);
            if |QueueOf(p', cls)| < |q| then
              (if Asks(q, cls)
               then Heard(s, p', cls, calls + [Asked(q, now, cls)])
                    && if Codel.Dropped(s.codelParams, calls + [Asked(q, now, cls)])
                       then Drops(p, p', cls) else Sends(p, p', cls)
               else Heard(s, p', cls, calls) && Sends(p, p', cls))
            else Heard(s, p', cls, calls)
  {
    hide Codel.Decide, Codel.After, Codel.Dropped, Wire;
    if |QueueOf(p, cls)| > 0 { Codel.AfterCall(s.codelParams, calls, Asked(QueueOf(p, cls), now, cls)); }
  }

  lemma OtherHeard(s: Settings, p: Shaper, op: Op)
    requires s.Valid() && !op.DoTurn?
    ensures Step(s, p, op).codel == p.codel && Step(s, p, op).priorityCodel == p.priorityCodel
  {
    hide Packets, Wire, RateFor;
    if op.DoEnqueue? {
      var wire := op.pkt.size + UdpWireOverhead(op.ipv6) + s.overhead;
      var k := MakeRoomDropsOldestBulk(s, p.(taken := p.taken + [op.pkt]), wire);
    }
  }

  lemma {:induction false} RunHeard(s: Settings, start: int, ops: seq<Op>, cls: Class)
    requires s.Valid() && cls != Control
    ensures Heard(s, Run(s, New(s, start), ops), cls, Calls(s, New(s, start), ops, cls))
  {
    hide Turn, Ready, Step, Codel.After, Asked, Asks;
    if |ops| == 0 {
      NothingHeard(s, start, cls);
    } else {
      var init, op := ops[..|ops| - 1], ops[|ops| - 1];
      var p := Run(s, New(s, start), init);
      RunHeard(s, start, init, cls);
      if op.DoTurn? {
        assert Step(s, p, op) == if Ready(p) then Turn(s, p, op.now) else p by { TurnStep(s, p, op.now); }
        if Ready(p) { TurnDrops(s, p, op.now, cls, Calls(s, New(s, start), init, cls)); }
      } else {
        OtherHeard(s, p, op);
      }
    }
  }

  lemma TurnStep(s: Settings, p: Shaper, now: int)
    requires s.Valid()
    ensures Step(s, p, DoTurn(now)) == if Ready(p) then Turn(s, p, now) else p
  {
  }

  lemma NothingHeard(s: Settings, start: int, cls: Class)
    requires s.Valid()
    ensures Heard(s, New(s, start), cls, [])
  {
  }

  /** CoDel drops the head of a class, after the calls of a run. */
  predicate ShouldDrop(s: Settings, start: int, ops: seq<Op>, now: int, cls: Class)
    requires s.Valid() && |QueueOf(Run(s, New(s, start), ops), cls)| > 0
  {
    var q := QueueOf(Run(s, New(s, start), ops), cls);
    Asks(q, cls) && Codel.Dropped(s.codelParams, Calls(s, New(s, start), ops, cls) + [Asked(q, now, cls)])
  }

  /**
   * After any run, the next turn takes the head of one class. It releases it exactly if it is data, CoDel is asked
   * about it and drops it, given the calls of the run about that class; else it sends it.
   */
  lemma DequeueDropsExactly(s: Settings, start: int, ops: seq<Op>, now: int) returns (cls: Class)
    requires s.Valid() && Ready(Run(s, New(s, start), ops))
    ensures var p := Run(s, New(s, start), ops);
            var p' := Turn(s, p, now);
            && Leaves(p, p', cls)
            && (if cls != Control && ShouldDrop(s, start, ops, now, cls) then Drops(p, p', cls) else Sends(p, p', cls))
  {
    hide Turn, Ready, Codel.Dropped, Asked, Asks, Run, Calls, Heard;
    var p := Run(s, New(s, start), ops);
    cls := TurnTakesOne(s, p, now);
    if cls != Control {
      RunHeard(s, start, ops, cls);
      TurnDrops(s, p, now, cls, Calls(s, New(s, start), ops, cls));
    }
  }

  /** Packets the turns of a run released. */
  function TurnReleases(s: Settings, p: Shaper, ops: seq<Op>): int
    requires s.Valid()
  {
    if |ops| == 0 then 0
    else
      var p1 := Run(s, p, ops[..|ops| - 1]);
      TurnReleases(s, p, ops[..|ops| - 1])
      + (if ops[|ops| - 1].DoTurn? then |Step(s, p1, ops[|ops| - 1]).released| - |p1.released| else 0)
  }

  lemma CallsGrow(s: Settings, p: Shaper, ops: seq<Op>, cls: Class)
    requires s.Valid() && |ops| > 0
    ensures Calls(s, p, ops[..|ops| - 1], cls) <= Calls(s, p, ops, cls)
  {
    hide Run, Takes, Asks, Asked;
  }

  /** While no packet that CoDel is asked about stands for the target, no turn of a run loses anything. */
  lemma {:induction false} UncongestedLosesNothing(s: Settings, start: int, ops: seq<Op>)
    requires s.Valid()
    requires Codel.BelowTarget(s.codelParams, Calls(s, New(s, start), ops, Bulk))
    requires Codel.BelowTarget(s.codelParams, Calls(s, New(s, start), ops, Priority))
    ensures TurnReleases(s, New(s, start), ops) == 0
  {
    hide Turn, Ready, Step, Codel.Dropped, Asked, Asks, Codel.BelowTarget, New;
    if |ops| > 0 {
      var init, op := ops[..|ops| - 1], ops[|ops| - 1];
      var p := Run(s, New(s, start), init);
      CallsGrow(s, New(s, start), ops, Bulk);
      CallsGrow(s, New(s, start), ops, Priority);
      Codel.StillBelow(s.codelParams, Calls(s, New(s, start), init, Bulk), Calls(s, New(s, start), ops, Bulk));
      Codel.StillBelow(s.codelParams, Calls(s, New(s, start), init, Priority), Calls(s, New(s, start), ops, Priority));
      UncongestedLosesNothing(s, start, init);
      if op.DoTurn? {
        TurnStep(s, p, op.now);
        if Ready(p) {
          var cls := DequeueDropsExactly(s, start, init, op.now);
          if cls != Control { NoneDropped(s, start, ops, cls); }
        }
      }
    }
  }

  lemma NoneDropped(s: Settings, start: int, ops: seq<Op>, cls: Class)
    requires s.Valid() && |ops| > 0 && ops[|ops| - 1].DoTurn?
    requires Takes(s, Run(s, New(s, start), ops[..|ops| - 1]), ops[|ops| - 1], cls)
    requires Codel.BelowTarget(s.codelParams, Calls(s, New(s, start), ops, cls))
    ensures !ShouldDrop(s, start, ops[..|ops| - 1], ops[|ops| - 1].now, cls)
  {
    hide Step, Codel.Dropped, Asked, New, Run;
    var p := Run(s, New(s, start), ops[..|ops| - 1]);
    if Asks(QueueOf(p, cls), cls) { Codel.NotDropped(s.codelParams, Calls(s, New(s, start), ops, cls)); }
  }
}
