/** How a receiver answers: acknowledgements, at once or delayed, marks of disorder, and window updates. */
module StreamAnswers {
  import opened Bytes
  import opened StreamTypes
  import opened StreamEnd
  import opened StreamInv
  import opened StreamStep
  import opened StreamLive
  import opened StreamKarn
  import opened StreamSystem
  import opened StreamTheorems
  import opened StreamFlow
  import opened StreamRecovery
  import opened StreamTiming

  // ---- what a frame is answered with ----------------------------------------------------

  /** The frames among fs that carry no segment. */
  function AnswersOf(fs: seq<Frame>): seq<Frame> {
    if |fs| == 0 then []
    else AnswersOf(fs[..|fs| - 1]) + (if fs[|fs| - 1].Segment() then [] else [fs[|fs| - 1]])
  }

  lemma AnswersAppend(fs: seq<Frame>, f: Frame)
    ensures AnswersOf(fs + [f]) == AnswersOf(fs) + (if f.Segment() then [] else [f])
  {
    assert (fs + [f])[..|fs|] == fs;
  }

  lemma {:induction false} AnswersMarked(fs: seq<Frame>, client: bool)
    ensures AnswersOf(Marked(fs, client)) == Marked(AnswersOf(fs), client)
  {
    if |fs| > 0 {
      var front, last := fs[..|fs| - 1], fs[|fs| - 1];
      AnswersMarked(front, client);
      AnswersAppend(Marked(front, client), Mark(last, client));
      MarkedAppend(AnswersOf(front), last, client);
    }
  }

  datatype Reply = Silence | Plain | Disorder

  /** The segment takes its place behind what was delivered, and what had been waiting for it follows. */
  predicate Fills(e: End, e': End) { |e'.rcv.dlv| > |e.rcv.dlv| + 1 }

  /**
   * What a live receiver owes a segment: an answer at once to one it has, to one that closes a gap, to OPEN and FIN,
   * and to every second one that is data; a mark of disorder to one that comes too early; nothing to data that no
   * window allowed for, nor to a first one, which it acknowledges later.
   */
  function Owes(cfg: Config, r: Rcv, pending: int, f: Frame, fills: bool): Reply {
    var end := f.num + (if f.kind == Data then |f.payload| else 1);
    if !f.Segment() then Silence
    else if end <= r.nxt then Plain
    else if f.num != r.nxt then Disorder
    else if f.kind == Data && r.queued + |f.payload| > cfg.window + cfg.mss then Silence
    else if fills || f.kind != Data || pending >= 1 then Plain
    else Silence
  }

  /** The whole answer: a probe is acknowledged if nothing else is put out. */
  function Due(cfg: Config, r: Rcv, pending: int, quiet: bool, f: Frame, fills: bool): Reply {
    var owed := Owes(cfg, r, pending, f, fills);
    if owed == Silence && f.probe && quiet then Plain else owed
  }

  /** An ACK that tells what the receiver has and may take. */
  predicate Reports(e: End, a: Frame, disorder: bool) {
    && a.kind == Ack && !a.probe && a.outOfOrder == disorder && a.fromClient == e.cfg.client
    && a.ack == e.rcv.nxt && a.wnd == (if e.rcv.queued <= e.cfg.window then e.cfg.window - e.rcv.queued else 0)
  }

  /** The reply in frames. */
  predicate Replies(e: End, answers: seq<Frame>, reply: Reply) {
    match reply
    case Silence => answers == []
    case Plain => |answers| == 1 && Reports(e, answers[0], false)
    case Disorder => |answers| == 1 && Reports(e, answers[0], true)
  }

  // ---- how the answer comes about -------------------------------------------------------

  /** What processSegmentLocked adds to out, before the direction is marked. */
  predicate Adds(e: End, e': End, reply: Reply) {
    match reply
    case Silence => e'.out == e.out
    case Plain => e'.out == e.out + [AckFrame(e', Ack, false, false, 0, [])]
    case Disorder => e'.out == e.out + [AckFrame(e', Ack, false, true, 0, [])]
  }

  lemma {:induction false} DrainOnlyReceives(e: End)
    ensures var e' := Drain(e);
            && e'.acks == e.acks && e'.out == e.out && e'.cfg == e.cfg && |e'.rcv.dlv| >= |e.rcv.dlv|
            && (|e'.rcv.dlv| > |e.rcv.dlv| <==> e.rcv.nxt in e.rcv.ooo)
    decreases |e.rcv.ooo|
  {
    if e.rcv.nxt in e.rcv.ooo {
      DeliverNextShrinks(e);
      DrainOnlyReceives(DeliverNext(e));
    }
  }

  lemma DelayAdds(e: End, filled: bool, g: Segment)
    ensures var e' := DelayAck(e, filled, g);
            var at := filled || g.kind != Data || e.acks.pending >= 1;
            && Adds(e, e', if at then Plain else Silence) && e'.rcv == e.rcv
            && e'.acks.pending == (if at then 0 else e.acks.pending + 1) && (!at ==> e'.acks.timerSet)
  {
  }

  lemma DeliverTakes(e: End, g: Segment)
    ensures var e' := Deliver(e, g);
            e'.acks == e.acks && e'.out == e.out && e'.cfg == e.cfg && |e'.rcv.dlv| == |e.rcv.dlv| + 1
  {
  }

  lemma SameAdds(e: End, d: End, e': End, reply: Reply)
    requires Adds(d, e', reply) && d.out == e.out
    ensures Adds(e, e', reply)
  {
  }

  lemma InOrderAdds(e: End, f: Frame)
    requires f.Segment() && f.num == e.rcv.nxt && Received(f).End() > e.rcv.nxt && !Refused(e, Received(f))
    ensures var e' := ProcessSegment(e, f);
            var at := Fills(e, e') || f.kind != Data || e.acks.pending >= 1;
            && Adds(e, e', if at then Plain else Silence) && |e'.rcv.dlv| > |e.rcv.dlv|
            && e'.acks.pending == (if at then 0 else e.acks.pending + 1) && (!at ==> e'.acks.timerSet)
  {
    hide Drain, Deliver, DelayAck, FillAck, Refused, Adds;
    var g := Received(f);
    var d := Deliver(e, g);
    DeliverTakes(e, g);
    DrainOnlyReceives(d);
    var filled := d.rcv.nxt in d.rcv.ooo;
    DelayAdds(Drain(d), filled, g);
    var e' := ProcessSegment(e, f);
    assert e' == DelayAck(Drain(d), filled, g);
    SameAdds(e, Drain(d), e', if filled || g.kind != Data || e.acks.pending >= 1 then Plain else Silence);
  }

  lemma SegmentAdds(e: End, f: Frame)
    requires f.Segment() && (f.kind == Fin ==> f.payload == [])
    ensures var e' := ProcessSegment(e, f); Adds(e, e', Owes(e.cfg, e.rcv, e.acks.pending, f, Fills(e, e')))
  {
    hide Drain, FillAck, DelayAck, Deliver, Adds;
    var g := Received(f);
    if g.num == e.rcv.nxt && g.End() > e.rcv.nxt && !Refused(e, g) {
      InOrderAdds(e, f);
    } else {
      AddsDirectly(e, false);
      AddsDirectly(Park(e, g), true);
      assert Adds(e, e, Silence) by { AddsNothing(e); }
      assert Adds(e, QueueAck(Park(e, g), false, true), Disorder) by { ParkedAdds(e, g); }
    }
  }

  lemma AddsDirectly(e: End, disorder: bool)
    ensures Adds(e, QueueAck(e, false, disorder), if disorder then Disorder else Plain)
  {
  }

  lemma AddsNothing(e: End)
    ensures Adds(e, e, Silence)
  {
  }

  lemma ParkedAdds(e: End, g: Segment)
    ensures Adds(e, QueueAck(Park(e, g), false, true), Disorder)
  {
  }

  // What processAckLocked leaves of the receive side, and of what is owed.

  predicate Owed(e: End, e': End) {
    && e'.rcv == e.rcv && e'.cfg == e.cfg && e'.dead == e.dead && e'.tx == e.tx
    && e'.acks.pending == (if e'.out == e.out then e.acks.pending else 0)
  }

  lemma RetransmitOwes(e: End, now: int)
    ensures Owed(e, FastRetransmit(e, now))
  {
  }

  lemma AdvanceOwes(e: End, ack: int, now: int)
    ensures Owed(e, Advance(e, ack, now))
  {
    hide UpdateRTT, AckedCount, FastRetransmit, Min, Pow2, NeedsTimer;
    var n := AckedCount(e.snd.unacked, ack);
    RetransmitOwes(e.(snd := Acknowledged(e.snd, n, ack),
                      rtx := Sample(e, n, now).(backoff := 0, dupAcks := 0, lastProgress := now)), now);
  }

  lemma DuplicateOwes(e: End, now: int)
    ensures Owed(e, CountDuplicate(e, now))
  {
    hide FastRetransmit;
    RetransmitOwes(e.(rtx := e.rtx.(dupAcks := e.rtx.dupAcks + 1, recover := e.snd.nxt)), now);
  }

  lemma WindowOwes(e: End, right: int)
    ensures Owed(e, Signal(OpenWindow(e, right))) && Signal(OpenWindow(e, right)).out == e.out
  {
    hide Min, Pow2, NeedsTimer;
  }

  /** What is sent again tells everything delivered; nothing else there changes what is owed. */
  lemma AckOwes(e: End, f: Frame, now: int)
    ensures Owed(e, ProcessAck(e, f, now))
  {
    hide Advance, CountDuplicate, OpenWindow, Signal;
    AdvanceOwes(e, f.ack, now);
    DuplicateOwes(e, now);
    WindowOwes(Advance(e, f.ack, now), Edge(f));
    WindowOwes(CountDuplicate(e, now), Edge(f));
    WindowOwes(e, Edge(f));
  }

  /** The state in which the segment of a frame is processed, for a live end. */
  function Reached(e: End, f: Frame, now: int): End { ProcessAck(e.(lastHeard := now), f, now) }

  lemma OutAnswers(e: End, f: Frame, now: int, plog: seq<Item>)
    requires EndInv(e, plog) && Genuine(e, f, plog) && !e.dead && f.kind != Rst
    ensures AnswersOf(Reached(e, f, now).out) == []
  {
    hide EndInv, ProcessAck, Genuine;
    NothingOut(e, plog);
    BehindNone(e, f, plog);
    var n := AckedCount(e.snd.unacked, f.ack);
    CountCovers(e.snd.unacked, f.ack);
    AckSends(e.(lastHeard := now), f, now, n);
    var out := Reached(e, f, now).out;
    if out != [] {
      UnackedAt(e, plog, n);
      assert out == [] + [out[0]];
      AnswersAppend([], out[0]);
    }
  }

  lemma FinEmpty(e: End, f: Frame, plog: seq<Item>)
    requires Genuine(e, f, plog) && f.kind == Fin
    ensures f.payload == []
  {
    FinCarriesNothing(!e.cfg.client, plog, f.num, f.payload);
  }

  lemma SectionsKeep(e: End, f: Frame, now: int, plog: seq<Item>)
    requires EndInv(e, plog) && Genuine(e, f, plog) && !e.dead && f.kind != Rst
    ensures Reached(e, f, now).tx == e.tx && Reached(e, f, now).cfg == e.cfg
    ensures f.Segment() ==> ProcessSegment(Reached(e, f, now), f).tx == e.tx
                            && ProcessSegment(Reached(e, f, now), f).cfg == e.cfg
  {
    hide FramesInv, SndInv, RcvInv, LinkInv, ProcessAck, ProcessSegment;
    ProcessAckInv(e.(lastHeard := now), f, now);
    if f.Segment() { ProcessSegmentInv(Reached(e, f, now), f, plog); }
  }

  /** What out ends with, before the direction is marked. */
  predicate EndsWith(e: End, answers: seq<Frame>, reply: Reply) {
    match reply
    case Silence => answers == []
    case Plain => answers == [AckFrame(e, Ack, false, false, 0, [])]
    case Disorder => answers == [AckFrame(e, Ack, false, true, 0, [])]
  }

  lemma AddsAnswer(a: End, e: End, reply: Reply)
    requires AnswersOf(a.out) == [] && Adds(a, e, reply)
    ensures EndsWith(e, AnswersOf(e.out), reply) && |e.out| == |a.out| + if reply == Silence then 0 else 1
  {
    AnswersAppend(a.out, AckFrame(e, Ack, false, false, 0, []));
    AnswersAppend(a.out, AckFrame(e, Ack, false, true, 0, []));
  }

  /** Finishing changes nothing of what was said. */
  lemma FinishedSays(e: End, reply: Reply)
    requires EndsWith(e, AnswersOf(e.out), reply)
    ensures var e' := Flush(MaybeFinish(e));
            && Replies(e', Marked(AnswersOf(e.out), e.cfg.client), reply)
            && e'.rcv.dlv == e.rcv.dlv && MaybeFinish(e).out == e.out && MaybeFinish(e).tx == e.tx
            && MaybeFinish(e).cfg == e.cfg
  {
    hide AnswersOf;
    var answers := AnswersOf(e.out);
    if |answers| > 0 { assert Marked(answers, e.cfg.client)[0] == Mark(answers[0], e.cfg.client); }
  }

  lemma ProbeAnswer(a: End, e: End)
    requires AnswersOf(a.out) == [] && e.out == a.out && a.out == []
    ensures EndsWith(QueueAck(e, false, false), AnswersOf(QueueAck(e, false, false).out), Plain)
  {
    AnswersAppend([], AckFrame(e, Ack, false, false, 0, []));
  }

  /** What handleFrame puts out for a frame behind processAckLocked. */
  function Behind(a: End, f: Frame): End {
    var e2 := if f.Segment() then ProcessSegment(a, f) else a;
    if f.probe && |e2.out| == 0 then QueueAck(e2, false, false) else e2
  }

  function ReplyTo(a: End, f: Frame, fills: bool): Reply {
    Due(a.cfg, a.rcv, a.acks.pending, a.out == [], f, fills)
  }

  lemma NoneOwed(a: End, f: Frame, fills: bool)
    requires !f.Segment()
    ensures Owes(a.cfg, a.rcv, a.acks.pending, f, fills) == Silence
  {
  }

  lemma BehindSays(a: End, f: Frame)
    requires AnswersOf(a.out) == [] && (f.kind == Fin ==> f.payload == [])
    ensures var e3 := Behind(a, f);
            EndsWith(e3, AnswersOf(e3.out), ReplyTo(a, f, Fills(a, e3)))
  {
    hide ProcessSegment, AnswersOf, Adds, EndsWith, Owes, FillAck;
    var e2 := if f.Segment() then ProcessSegment(a, f) else a;
    if f.Segment() {
      SegmentAdds(a, f);
    } else {
      AddsNothing(a);
      NoneOwed(a, f, Fills(a, e2));
    }
    AddsAnswer(a, e2, Owes(a.cfg, a.rcv, a.acks.pending, f, Fills(a, e2)));
    if f.probe && |e2.out| == 0 { ProbeAnswer(a, e2); }
  }

  lemma {:induction false} EitherOr(fs: seq<Frame>)
    ensures |SegmentsOf(fs)| + |AnswersOf(fs)| == |fs|
  {
    if |fs| > 0 { EitherOr(fs[..|fs| - 1]); }
  }

  lemma QuietMeans(e: End, f: Frame, now: int, plog: seq<Item>)
    requires EndInv(e, plog) && Genuine(e, f, plog) && !e.dead && f.kind != Rst
    ensures Reached(e, f, now).out == [] <==> SegmentsOf(SentIn(e, HandleFrame(e, f, now))) == []
  {
    hide EndInv, HandleFrame, Genuine, ProcessAck;
    OutAnswers(e, f, now, plog);
    FrameSegments(e, f, now, plog);
    EitherOr(Reached(e, f, now).out);
  }

  /**
   * What a live end answers a frame with, beside segments it sends again, which tell everything delivered: what it owes
   * the segment, an acknowledgement of a probe if it puts out nothing else, and nothing more. What it tells is what it
   * has and what it may take.
   */
  lemma FrameAnswered(e: End, f: Frame, now: int, plog: seq<Item>)
    requires EndInv(e, plog) && Genuine(e, f, plog) && !e.dead && f.kind != Rst
    ensures var e' := HandleFrame(e, f, now);
            var quiet := SegmentsOf(SentIn(e, e')) == [];
            Replies(e', AnswersOf(SentIn(e, e')),
                    Due(e.cfg, e.rcv, if quiet then e.acks.pending else 0, quiet, f, Fills(e, e')))
  {
    hide EndInv, ProcessAck, ProcessSegment, MaybeFinish, Flush, Genuine, AnswersOf, EndsWith, Replies, Due, QueueAck;
    hide HandleFrame, SegmentsOf;
    var a := Reached(e, f, now);
    NothingOut(e, plog);
    AckOwes(e.(lastHeard := now), f, now);
    OutAnswers(e, f, now, plog);
    QuietMeans(e, f, now, plog);
    if f.kind == Fin { FinEmpty(e, f, plog); }
    BehindSays(a, f);
    var e3 := Behind(a, f);
    SectionsKeep(e, f, now, plog);
    BehindKeeps(e, f, now);
    assert HandleFrame(e, f, now) == Flush(MaybeFinish(e3)) by { Handled(e, f, now); }
    FinishedSays(e3, ReplyTo(a, f, Fills(a, e3)));
    Flushed(e, MaybeFinish(e3));
    AnswersMarked(e3.out, e.cfg.client);
  }

  lemma BehindKeeps(e: End, f: Frame, now: int)
    requires f.Segment() ==> ProcessSegment(Reached(e, f, now), f).tx == e.tx
                             && ProcessSegment(Reached(e, f, now), f).cfg == e.cfg
    requires Reached(e, f, now).tx == e.tx && Reached(e, f, now).cfg == e.cfg
    ensures Behind(Reached(e, f, now), f).tx == e.tx && Behind(Reached(e, f, now), f).cfg == e.cfg
  {
    hide Reached, ProcessSegment;
  }

  // ---- what is kept of it ---------------------------------------------------------------

  lemma SegmentKept(e: End, f: Frame)
    requires f.Segment() && (f.kind == Fin ==> f.payload == []) && f.num != e.rcv.nxt
    ensures var end := f.num + (if f.kind == Data then |f.payload| else 1);
            var r, r' := e.rcv, ProcessSegment(e, f).rcv;
            r' == if end > r.nxt && f.num > r.nxt && end <= r.nxt + e.cfg.window && f.num !in r.ooo
                  then r.(ooo := r.ooo[f.num := Received(f)]) else r
  {
    hide Drain, Deliver, DelayAck, FillAck;
  }

  /**
   * What a live end that stays alive keeps of a segment out of its turn: nothing of one it has or has no room for; one
   * that comes early, within its window, it sets aside once, as it is.
   */
  lemma OutOfTurnKept(e: End, f: Frame, now: int, plog: seq<Item>)
    requires EndInv(e, plog) && Genuine(e, f, plog) && !e.dead && f.Segment() && f.num != e.rcv.nxt
    requires !HandleFrame(e, f, now).dead
    ensures var end := f.num + (if f.kind == Data then |f.payload| else 1);
            var r, r' := e.rcv, HandleFrame(e, f, now).rcv;
            r' == if end > r.nxt && f.num > r.nxt && end <= r.nxt + e.cfg.window && f.num !in r.ooo
                  then r.(ooo := r.ooo[f.num := Received(f)]) else r
  {
    hide EndInv, ProcessAck, ProcessSegment, Genuine;
    AckOwes(e.(lastHeard := now), f, now);
    if f.kind == Fin { FinEmpty(e, f, plog); }
    SegmentKept(Reached(e, f, now), f);
    Handled(e, f, now);
  }

  /** A segment in its turn is taken, unless it is data that no window allowed for. */
  lemma InTurnTaken(e: End, f: Frame, now: int, plog: seq<Item>)
    requires EndInv(e, plog) && Genuine(e, f, plog) && !e.dead && f.Segment() && f.num == e.rcv.nxt
    requires f.kind == Data ==> |f.payload| > 0
    ensures var r, r' := e.rcv, HandleFrame(e, f, now).rcv;
            if f.kind == Data && r.queued + |f.payload| > e.cfg.window + e.cfg.mss then r'.dlv == r.dlv
            else |r'.dlv| > |r.dlv|
  {
    hide EndInv, ProcessAck, Genuine, Drain, Deliver, DelayAck, FillAck;
    AckOwes(e.(lastHeard := now), f, now);
    var a := Reached(e, f, now);
    var d := Deliver(a, Received(f));
    if !Refused(a, Received(f)) {
      DeliverTakes(a, Received(f));
      DrainOnlyReceives(d);
      DelayAdds(Drain(d), d.rcv.nxt in d.rcv.ooo, Received(f));
    }
    Handled(e, f, now);
  }

  // ---- never more than one behind -------------------------------------------------------

  predicate Prompt(e: End) { e.acks.pending <= 1 }

  lemma {:induction false} ResendPrompt(e: End, i: nat, now: int)
    requires i <= |e.snd.unacked| && Prompt(e)
    ensures Prompt(ResendFrom(e, i, now))
    decreases |e.snd.unacked| - i
  {
    if i < |e.snd.unacked| { ResendPrompt(Resend(e, i, now), i + 1, now); }
  }

  lemma SegmentPrompt(e: End, f: Frame)
    requires Prompt(e) && f.Segment() && (f.kind == Fin ==> f.payload == [])
    ensures Prompt(ProcessSegment(e, f))
  {
    hide Drain, Deliver, DelayAck, FillAck, Refused;
    var g := Received(f);
    var d := Deliver(e, g);
    DeliverTakes(e, g);
    DrainOnlyReceives(d);
    DelayAdds(Drain(d), d.rcv.nxt in d.rcv.ooo, g);
    assert Prompt(QueueAck(e, false, false)) && Prompt(QueueAck(Park(e, g), false, true)) by { AckPrompt(e, g); }
  }

  lemma AckPrompt(e: End, g: Segment)
    ensures Prompt(QueueAck(e, false, false)) && Prompt(QueueAck(Park(e, g), false, true))
  {
  }

  lemma FramePrompt(e: End, f: Frame, now: int, plog: seq<Item>)
    requires EndInv(e, plog) && Genuine(e, f, plog) && Prompt(e)
    ensures Prompt(HandleFrame(e, f, now))
  {
    hide EndInv, ProcessAck, ProcessSegment, FillAck, Flush, MaybeFinish, Genuine, HandleFrame;
    if !e.dead && f.kind != Rst {
      AckOwes(e.(lastHeard := now), f, now);
      if f.kind == Fin { FinEmpty(e, f, plog); }
      var a := Reached(e, f, now);
      assert Prompt(a);
      if f.Segment() { SegmentPrompt(a, f); }
      BehindPrompt(a, f);
      assert HandleFrame(e, f, now) == Flush(MaybeFinish(Behind(a, f))) by { Handled(e, f, now); }
      FlushPrompt(Behind(a, f));
    } else {
      DeadPrompt(e, f, now);
    }
  }

  lemma BehindPrompt(a: End, f: Frame)
    requires Prompt(a) && (f.Segment() ==> Prompt(ProcessSegment(a, f)))
    ensures Prompt(Behind(a, f))
  {
    hide ProcessSegment;
  }

  lemma FlushPrompt(e: End)
    requires Prompt(e)
    ensures Prompt(Flush(MaybeFinish(e)))
  {
  }

  lemma DeadPrompt(e: End, f: Frame, now: int)
    requires Prompt(e) && (e.dead || f.kind == Rst)
    ensures Prompt(HandleFrame(e, f, now))
  {
    hide Marked;
  }

  lemma OtherPrompt(e: End, ev: Event)
    requires Enabled(e, ev) && !ev.Recv? && Prompt(e)
    ensures Prompt(Step(e, ev))
  {
    hide OnTimer, ReadDone, Marked, Flatten, CanSend, WorthUpdating, NeedsTimer, Pow2;
    if ev.TimerFires? { TimerPrompt(e, ev.now); }
    if ev.ReadReturns? { ReadPrompt(e, ev.data, ev.res, ev.at); }
  }

  lemma ReadPrompt(e: End, data: Bytes, res: ReadResult, now: int)
    requires Prompt(e)
    ensures Prompt(ReadDone(e, data, res, now))
  {
    hide Min, Pow2, NeedsTimer, Marked;
  }

  lemma TimerPrompt(e: End, now: int)
    requires Prompt(e)
    ensures Prompt(OnTimer(e, now))
  {
    hide ResendFrom, Min, Pow2, NeedsTimer, Marked;
    ResendPrompt(e.(rtx := e.rtx.(armed := false)), 0, now);
  }

  lemma ActPrompt(e: End, peer: End, ev: Event)
    requires e.cfg.client != peer.cfg.client && EndInv(e, peer.snd.log) && EndInv(peer, e.snd.log)
    requires Enabled(e, ev) && (ev.Recv? ==> ev.f in e.tx + peer.tx) && Prompt(e)
    ensures Prompt(Step(e, ev))
  {
    hide EndInv, Step, Prompt, HandleFrame;
    if ev.Recv? {
      WhoSent(e, peer, ev.f);
      SentIsGenuine(e, peer, ev.f);
      RecvStep(e, ev.f, ev.now);
      FramePrompt(e, ev.f, ev.now, peer.snd.log);
    } else {
      OtherPrompt(e, ev);
    }
  }

  lemma ActKeepsPrompt(y: System, a: Action)
    requires SysInv(y) && CanAct(y, a) && Prompt(y.c) && Prompt(y.s)
    ensures Prompt(Act(y, a).c) && Prompt(Act(y, a).s)
  {
    hide EndInv, Flow, HandleFrame, OnTimer, OnAckTimer, CheckOpened, Stop, Dialed;
    hide ReadCheck, ReadWake, ReadDone, WriteCheck, WriteWake, WriteDone, WriteClosed;
    match a
    case Client(ev) => ActPrompt(y.c, y.s, ev);
    case Server(ev) =>
      SwapSent(y, ev);
      ActPrompt(y.s, y.c, ev);
    case FirstFrame(f, now) =>
      if f.kind != Rst && f.kind != Ack && !y.refuse {
        var s1 := y.s.(lastHeard := now, rtx := y.s.rtx.(lastProgress := now));
        Restamped(y.s, s1, y.c.snd.log);
        SwapFirst(y, f);
        ActPrompt(s1, y.c, Recv(f, now));
        assert Step(s1, Recv(f, now)) == HandleFrame(s1, f, now);
      }
    case Refuse =>
  }

  /** In no reachable state is more than one segment delivered in order that no frame has told of. */
  lemma {:induction false} RunPrompt(run: seq<System>, acts: seq<Action>, ccfg: Config, scfg: Config, target: Bytes,
          now: int, i: nat)
    requires IsRun(run, acts, ccfg, scfg, target, now) && i < |run|
    ensures Prompt(run[i].c) && Prompt(run[i].s)
  {
    hide SysInv, CanAct, Act, Prompt, Opened;
    if i == 0 {
      InitialPrompt(ccfg, scfg, target, now);
    } else {
      RunInv(run, acts, ccfg, scfg, target, now, i - 1);
      RunPrompt(run, acts, ccfg, scfg, target, now, i - 1);
      ActKeepsPrompt(run[i - 1], acts[i - 1]);
    }
  }

  lemma InitialPrompt(ccfg: Config, scfg: Config, target: Bytes, now: int)
    ensures Prompt(Opened(ccfg, target, now)) && Prompt(New(scfg, false, now))
  {
    hide Marked, Min, Pow2, NeedsTimer;
  }
}
