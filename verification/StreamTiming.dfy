/** When segments are sent again, and how the timeout follows the line (src/tcp_stream.go). */
module StreamTiming {
  import opened Bytes
  import opened StreamTypes
  import opened StreamEnd
  import opened StreamInv
  import opened StreamStep
  import opened StreamKarn
  import opened StreamLive
  import opened StreamSystem
  import opened StreamTheorems
  import opened StreamFlow
  import opened StreamRecovery

  // ---- what goes out --------------------------------------------------------------------

  /** The frames among fs that carry a segment. */
  function SegmentsOf(fs: seq<Frame>): seq<Frame> {
    if |fs| == 0 then []
    else SegmentsOf(fs[..|fs| - 1]) + (if fs[|fs| - 1].Segment() then [fs[|fs| - 1]] else [])
  }

  lemma SegmentsAppend(fs: seq<Frame>, f: Frame)
    ensures SegmentsOf(fs + [f]) == SegmentsOf(fs) + (if f.Segment() then [f] else [])
  {
    assert (fs + [f])[..|fs|] == fs;
  }

  /** Frames that are no segments add none. */
  lemma {:induction false} SegmentsStay(a: seq<Frame>, b: seq<Frame>)
    requires a <= b && forall i :: |a| <= i < |b| ==> !b[i].Segment()
    ensures SegmentsOf(b) == SegmentsOf(a)
  {
    if |a| < |b| { SegmentsStay(a, b[..|b| - 1]); } else { assert a == b; }
  }

  lemma {:induction false} SegmentsMarked(fs: seq<Frame>, client: bool)
    ensures SegmentsOf(Marked(fs, client)) == Marked(SegmentsOf(fs), client)
  {
    if |fs| > 0 {
      var front, last := fs[..|fs| - 1], fs[|fs| - 1];
      SegmentsMarked(front, client);
      SegmentsAppend(Marked(front, client), Mark(last, client));
      MarkedAppend(SegmentsOf(front), last, client);
    }
  }

  lemma MarkedAppend(fs: seq<Frame>, f: Frame, client: bool)
    ensures Marked(fs + [f], client) == Marked(fs, client) + [Mark(f, client)]
  {
    assert (fs + [f])[..|fs|] == fs;
  }

  /** What a section hands to the lines. */
  function SentIn(e: End, e': End): seq<Frame> { if |e.tx| <= |e'.tx| then e'.tx[|e.tx|..] else [] }

  lemma FlushSends(e: End, a: End)
    requires a.tx == e.tx && |a.out| <= 1
    ensures SentIn(e, Flush(a)) == if |a.out| == 0 then [] else [Mark(a.out[0], a.cfg.client)]
    ensures Flush(a) == a.(out := [], tx := Flush(a).tx)
  {
    assert Flush(a).tx == e.tx + Marked(a.out, a.cfg.client);
  }

  // ---- fast retransmit ------------------------------------------------------------------

  /** Sent long enough ago, for the round trip of the line, to be missed. */
  predicate Late(age: int, srtt: int) { age >= srtt + Quot(srtt, 4) }

  lemma Retransmits(e: End, now: int)
    ensures var e' := FastRetransmit(e, now);
            e'.rtx == e.rtx
            && if |e.snd.unacked| > 0 && Late(now - e.snd.unacked[0].sentAt, e.rtx.srtt)
               then |e'.out| == |e.out| + 1 && e.out <= e'.out && Carries(e'.out[|e.out|], e.snd.unacked[0])
                    && e'.snd == e.snd.(unacked := e'.snd.unacked)
                    && e'.snd.unacked == e.snd.unacked[0 := e.snd.unacked[0].(retrans := true, sentAt := now)]
               else e' == e
  {
  }

  /** The first n segments outstanding are covered by an acknowledgement, and the next one is not. */
  predicate Covers(unacked: seq<Segment>, ack: int, n: nat) {
    && n <= |unacked| && (forall i :: 0 <= i < n ==> unacked[i].End() <= ack)
    && (n < |unacked| ==> unacked[n].End() > ack)
  }

  lemma {:induction false} CountCovers(unacked: seq<Segment>, ack: int)
    ensures Covers(unacked, ack, AckedCount(unacked, ack))
  {
    if |unacked| > 0 && unacked[0].End() <= ack {
      CountCovers(unacked[1..], ack);
      var n := AckedCount(unacked, ack);
      forall i | 0 <= i < n ensures unacked[i].End() <= ack { if i > 0 { assert unacked[i] == unacked[1..][i - 1]; } }
    }
  }

  /**
   * A loss shows: the third frame in a row that the peer marks as out of order, or an acknowledgement of part of what
   * was outstanding when a loss last showed.
   */
  predicate LossShows(e: End, f: Frame) {
    || (f.ack == e.snd.una && f.outOfOrder && |e.snd.unacked| > 0 && e.rtx.dupAcks == 2)
    || e.snd.una < f.ack < e.rtx.recover
  }

  /** What the loss detector remembers. */
  predicate Counted(e: End, f: Frame, r: Rtx) {
    var duplicate := f.ack == e.snd.una && f.outOfOrder && |e.snd.unacked| > 0;
    && r.dupAcks == (if f.ack > e.snd.una then 0 else if duplicate then e.rtx.dupAcks + 1 else e.rtx.dupAcks)
    && r.recover == (if duplicate && e.rtx.dupAcks == 2 then e.snd.nxt else e.rtx.recover)
  }

  /** What is outstanding once n segments are acknowledged, and one more was perhaps sent again. */
  function Left(unacked: seq<Segment>, n: nat, again: bool, now: int): seq<Segment>
    requires n <= |unacked| && (again ==> n < |unacked|)
  {
    if again then unacked[n..][0 := unacked[n].(retrans := true, sentAt := now)] else unacked[n..]
  }

  /** What is left outstanding, and one frame with the first segment of that if it goes out again. */
  predicate SendsAgain(e: End, e': End, n: nat, again: bool, now: int)
    requires n <= |e.snd.unacked| && (again ==> n < |e.snd.unacked|)
  {
    && e'.snd.unacked == Left(e.snd.unacked, n, again, now)
    && (if again then |e'.out| == 1 && Carries(e'.out[0], e.snd.unacked[n]) else e'.out == [])
  }

  lemma SampleKeeps(e: End, n: nat, now: int)
    requires n <= |e.snd.unacked|
    ensures Sample(e, n, now).recover == e.rtx.recover
  {
    hide Quot;
  }

  lemma AdvanceSends(e: End, ack: int, now: int)
    requires e.out == [] && e.snd.una < ack
    ensures var e', n := Advance(e, ack, now), AckedCount(e.snd.unacked, ack);
            var again := ack < e.rtx.recover && n < |e.snd.unacked|
                         && Late(now - e.snd.unacked[n].sentAt, e'.rtx.srtt);
            SendsAgain(e, e', n, again, now) && e'.rtx.dupAcks == 0 && e'.rtx.recover == e.rtx.recover
  {
    hide FastRetransmit, UpdateRTT, AckedCount, Min, Pow2, NeedsTimer, Late;
    var n := AckedCount(e.snd.unacked, ack);
    var e1 := e.(snd := Acknowledged(e.snd, n, ack),
                 rtx := Sample(e, n, now).(backoff := 0, dupAcks := 0, lastProgress := now));
    SampleKeeps(e, n, now);
    assert e1.snd.unacked == e.snd.unacked[n..];
    Retransmits(e1, now);
    var e2 := if ack < e.rtx.recover then FastRetransmit(e1, now) else e1;
    assert e2.out == Advance(e, ack, now).out && e2.snd == Advance(e, ack, now).snd;
  }

  lemma DuplicateSends(e: End, now: int)
    requires e.out == [] && |e.snd.unacked| > 0
    ensures var e' := CountDuplicate(e, now);
            var again := e.rtx.dupAcks == 2 && Late(now - e.snd.unacked[0].sentAt, e'.rtx.srtt);
            && SendsAgain(e, e', 0, again, now) && e'.rtx.dupAcks == e.rtx.dupAcks + 1
            && e'.rtx.recover == (if e.rtx.dupAcks == 2 then e.snd.nxt else e.rtx.recover)
  {
    hide FastRetransmit, Late;
    assert e.snd.unacked[0..] == e.snd.unacked;
    Retransmits(e.(rtx := e.rtx.(dupAcks := e.rtx.dupAcks + 1, recover := e.snd.nxt)), now);
  }

  lemma WindowSendsNothing(e: End, right: int)
    ensures var e' := Signal(OpenWindow(e, right));
            && e'.snd.unacked == e.snd.unacked && e'.out == e.out && e'.rtx.dupAcks == e.rtx.dupAcks
            && e'.rtx.recover == e.rtx.recover && e'.rtx.srtt == e.rtx.srtt
  {
    hide Min, Pow2, NeedsTimer;
  }

  /** An acknowledgement sends a segment again exactly if a loss shows and the first one left is late. */
  lemma AckSends(e: End, f: Frame, now: int, n: nat)
    requires e.out == [] && f.ack <= e.snd.nxt && n == AckedCount(e.snd.unacked, f.ack)
    requires f.ack <= e.snd.una ==> n == 0
    ensures var e' := ProcessAck(e, f, now);
            var again := LossShows(e, f) && n < |e.snd.unacked| && Late(now - e.snd.unacked[n].sentAt, e'.rtx.srtt);
            SendsAgain(e, e', n, again, now) && Counted(e, f, e'.rtx)
  {
    hide Advance, CountDuplicate, OpenWindow, Signal, AckedCount, Late;
    if f.ack > e.snd.una {
      AdvanceSends(e, f.ack, now);
      WindowSendsNothing(Advance(e, f.ack, now), Edge(f));
    } else if f.ack == e.snd.una && f.outOfOrder && |e.snd.unacked| > 0 {
      DuplicateSends(e, now);
      WindowSendsNothing(CountDuplicate(e, now), Edge(f));
    } else {
      assert e.snd.unacked[0..] == e.snd.unacked;
      WindowSendsNothing(e, Edge(f));
    }
  }

  lemma {:induction false} DrainPutsOutNothing(e: End)
    ensures Drain(e).out == e.out
    decreases |e.rcv.ooo|
  {
    if e.rcv.nxt in e.rcv.ooo {
      DeliverNextShrinks(e);
      DrainPutsOutNothing(DeliverNext(e));
    }
  }

  /** All that out has beyond what it had are ACKs. */
  predicate AddsAcks(out: seq<Frame>, out': seq<Frame>) {
    out <= out' && forall i :: |out| <= i < |out'| ==> out'[i].kind == Ack
  }

  lemma AckAdds(e: End, probe: bool, outOfOrder: bool)
    ensures AddsAcks(e.out, QueueAck(e, probe, outOfOrder).out)
  {
  }

  lemma DelayAdds(e: End, filled: bool, g: Segment)
    ensures AddsAcks(e.out, DelayAck(e, filled, g).out)
  {
  }

  /** A segment is answered by at most ACKs. */
  lemma SegmentPutsOut(e: End, f: Frame)
    ensures AddsAcks(e.out, ProcessSegment(e, f).out)
  {
    hide Drain, Deliver, DelayAck, QueueAck, Refused, AddsAcks;
    var g := Received(f);
    AckAdds(e, false, false);
    AckAdds(Park(e, g), false, true);
    assert Deliver(e, g).out == e.out by { DeliverEffect(e, g); }
    DrainPutsOutNothing(Deliver(e, g));
    DelayAdds(Drain(Deliver(e, g)), Deliver(e, g).rcv.nxt in Deliver(e, g).rcv.ooo, g);
    assert AddsAcks(e.out, e.out) by { NothingAdded(e.out); }
  }

  lemma NothingAdded(out: seq<Frame>)
    ensures AddsAcks(out, out)
  {
  }

  lemma BothAdd(a: seq<Frame>, b: seq<Frame>, c: seq<Frame>)
    requires AddsAcks(a, b) && AddsAcks(b, c)
    ensures AddsAcks(a, c)
  {
  }

  lemma AcksAreNone(a: seq<Frame>, b: seq<Frame>)
    requires AddsAcks(a, b)
    ensures SegmentsOf(b) == SegmentsOf(a)
  {
    SegmentsStay(a, b);
  }

  /** Beside what processAckLocked sends again, a live end puts out nothing but ACKs in answer to a frame. */
  lemma FrameSegments(e: End, f: Frame, now: int, plog: seq<Item>)
    requires EndInv(e, plog) && Genuine(e, f, plog) && !e.dead && f.kind != Rst
    ensures SegmentsOf(SentIn(e, HandleFrame(e, f, now)))
            == Marked(SegmentsOf(ProcessAck(e.(lastHeard := now), f, now).out), e.cfg.client)
  {
    hide EndSane, SndInv, RcvInv, LinkInv, ProcessAck, ProcessSegment, SegmentsOf, QueueAck, AddsAcks;
    hide MaybeFinish, Flush;
    var e0 := e.(lastHeard := now);
    var e1 := ProcessAck(e0, f, now);
    assert EndSane(e0) by { SameSane(e, e0); }
    ProcessAckInv(e0, f, now);
    if f.Segment() { ProcessSegmentInv(e1, f, plog); }
    SegmentPutsOut(e1, f);
    NothingAdded(e1.out);
    var e2 := if f.Segment() then ProcessSegment(e1, f) else e1;
    AckAdds(e2, false, false);
    BothAdd(e1.out, e2.out, QueueAck(e2, false, false).out);
    var e3 := if f.probe && |e2.out| == 0 then QueueAck(e2, false, false) else e2;
    AckKeeps(e2);
    Finishes(e3);
    AcksAreNone(e1.out, e3.out);
    SegmentsMarked(e3.out, e.cfg.client);
    Flushed(e, MaybeFinish(e3));
    assert HandleFrame(e, f, now) == Flush(MaybeFinish(e3)) by { Handled(e, f, now); }
  }

  lemma SameSane(e: End, e': End)
    requires EndSane(e) && e' == e.(lastHeard := e'.lastHeard)
    ensures EndSane(e')
  {
    hide FramesInv;
  }

  lemma AckKeeps(e: End)
    ensures QueueAck(e, false, false).tx == e.tx && QueueAck(e, false, false).cfg == e.cfg
  {
  }

  lemma Handled(e: End, f: Frame, now: int)
    requires !e.dead && f.kind != Rst
    ensures var e1 := ProcessAck(e.(lastHeard := now), f, now);
            var e2 := if f.Segment() then ProcessSegment(e1, f) else e1;
            HandleFrame(e, f, now)
            == Flush(MaybeFinish(if f.probe && |e2.out| == 0 then QueueAck(e2, false, false) else e2))
  {
    hide ProcessAck, ProcessSegment, FillAck, MaybeFinish, Flush;
  }

  lemma Flushed(e: End, e': End)
    requires e'.tx == e.tx
    ensures SentIn(e, Flush(e')) == Marked(e'.out, e'.cfg.client)
  {
  }

  /** An acknowledgement of nothing new covers nothing outstanding. */
  lemma BehindNone(e: End, f: Frame, plog: seq<Item>)
    requires EndInv(e, plog) && Genuine(e, f, plog) && !e.dead && f.kind != Rst
    ensures f.ack <= e.snd.nxt && (f.ack <= e.snd.una ==> AckedCount(e.snd.unacked, f.ack) == 0)
  {
    hide FramesInv, RcvInv, LinkInv;
    var k :| BoundaryAt(e.snd.log, k, f.ack);
    StartMonotone(e.snd.log, k, |e.snd.log|);
    StartEnd(e.snd.log);
    if |e.snd.unacked| > 0 { UnackedQueued(e.cfg, e.reader, e.snd, 0); }
  }

  /** Nothing behind processAckLocked touches the loss detector or the estimate. */
  lemma FrameRtx(e: End, f: Frame, now: int)
    requires !e.dead && f.kind != Rst
    ensures var r, r' := ProcessAck(e.(lastHeard := now), f, now).rtx, HandleFrame(e, f, now).rtx;
            r'.srtt == r.srtt && r'.dupAcks == r.dupAcks && r'.recover == r.recover
  {
    hide ProcessAck, ProcessSegment;
    SegmentEstimate(ProcessAck(e.(lastHeard := now), f, now), f);
  }

  /** With everything acknowledged nothing is outstanding. */
  lemma DoneHasNone(e: End, f: Frame, now: int, plog: seq<Item>)
    requires EndInv(e, plog) && Genuine(e, f, plog) && !e.dead && f.kind != Rst
    ensures var s := ProcessAck(e.(lastHeard := now), f, now).snd; s.una == s.nxt ==> s.unacked == []
  {
    hide FramesInv, SndInv, RcvInv, LinkInv, ProcessAck;
    var e1 := e.(lastHeard := now);
    ProcessAckInv(e1, f, now);
    UnaNxt(e1.cfg, false, e1.reader, ProcessAck(e1, f, now).snd);
  }

  lemma OneSegment(f: Frame, g: Segment, client: bool)
    requires Carries(f, g) && (g.kind == Open || g.kind == Data || g.kind == Fin)
    ensures var fs := Marked(SegmentsOf([f]), client); |fs| == 1 && Carries(fs[0], g)
  {
    SegmentsAppend([], f);
    assert [] + [f] == [f];
  }

  lemma NoSegment(client: bool)
    ensures Marked(SegmentsOf([]), client) == []
  {
  }

  /**
   * Fast retransmit, exactly. A frame that a live end handles sends a segment again if and only if it shows a loss and
   * the first segment it leaves outstanding was last sent a round trip and a quarter ago; it is that segment, once.
   * The estimate is the one after the frame. The count of out-of-order frames and the point up to which the loss is to
   * be repaired are kept with it.
   */
  lemma FastRetransmitExactly(e: End, f: Frame, now: int, plog: seq<Item>) returns (n: nat)
    requires EndInv(e, plog) && Genuine(e, f, plog) && !e.dead && f.kind != Rst
    ensures Covers(e.snd.unacked, f.ack, n)
    ensures var e' := HandleFrame(e, f, now);
            var sent := SegmentsOf(SentIn(e, e'));
            var again := LossShows(e, f) && n < |e.snd.unacked| && Late(now - e.snd.unacked[n].sentAt, e'.rtx.srtt);
            && e'.snd.unacked == Left(e.snd.unacked, n, again, now) && Counted(e, f, e'.rtx)
            && (if again then |sent| == 1 && Carries(sent[0], e.snd.unacked[n]) else sent == [])
  {
    hide EndInv, HandleFrame, ProcessAck, SegmentsOf, SentIn, Late, Genuine;
    n := AckedCount(e.snd.unacked, f.ack);
    CountCovers(e.snd.unacked, f.ack);
    NothingOut(e, plog);
    var e1 := e.(lastHeard := now);
    BehindNone(e, f, plog);
    AckSends(e1, f, now, n);
    AfterFrame(e, f, now, plog);
    DoneHasNone(e, f, now, plog);
    HandleFrameInv(e, f, now, plog);
    DeadHoldsNothing(HandleFrame(e, f, now), plog);
    FrameSegments(e, f, now, plog);
    FrameRtx(e, f, now);
    var a := ProcessAck(e1, f, now);
    if a.out == [] {
      NoSegment(e.cfg.client);
    } else {
      UnackedAt(e, plog, n);
      OneSegment(a.out[0], e.snd.unacked[n], e.cfg.client);
      assert a.out == [a.out[0]];
    }
  }

  // ---- the estimate over a run ----------------------------------------------------------

  /** If an action takes an RTT sample, it lies between lo and hi. */
  predicate SampleIn(y: System, a: Action, lo: int, hi: int) {
    match a
    case Client(ev) => Samples(y.c, ev) ==> lo <= SampleOf(y.c, ev) <= hi
    case Server(ev) => Samples(y.s, ev) ==> lo <= SampleOf(y.s, ev) <= hi
    case _ => true
  }

  ghost predicate SamplesIn(run: seq<System>, acts: seq<Action>, lo: int, hi: int)
    requires |run| == |acts| + 1
  {
    forall i :: 0 <= i < |acts| ==> SampleIn(run[i], acts[i], lo, hi)
  }

  predicate Smooth(r: Rtx, lo: int, hi: int) { (r.srtt == 0 || lo <= r.srtt <= hi) && 0 <= r.rttvar <= hi }

  lemma SampleSmooth(r: Rtx, r': Rtx, sample: int, lo: int, hi: int)
    requires Smooth(r, lo, hi) && 0 <= lo <= sample <= hi && Estimated(r, r', sample)
    ensures Smooth(r', lo, hi)
  {
  }

  lemma StepSmooth(e: End, ev: Event, lo: int, hi: int)
    requires Enabled(e, ev) && Smooth(e.rtx, lo, hi) && 0 <= lo
    requires Samples(e, ev) ==> lo <= SampleOf(e, ev) <= hi
    ensures Smooth(Step(e, ev).rtx, lo, hi)
  {
    hide Step, Enabled, Estimated, Samples;
    EstimatorLaw(e, ev);
    if Samples(e, ev) { SampleSmooth(e.rtx, Step(e, ev).rtx, SampleOf(e, ev), lo, hi); }
  }

  lemma ActSmooth(y: System, a: Action, lo: int, hi: int)
    requires CanAct(y, a) && SampleIn(y, a, lo, hi) && 0 <= lo && Smooth(y.c.rtx, lo, hi) && Smooth(y.s.rtx, lo, hi)
    requires !y.up ==> y.s.snd.unacked == []
    requires a.FirstFrame? ==> y.s.cfg.client == false
    ensures Smooth(Act(y, a).c.rtx, lo, hi) && Smooth(Act(y, a).s.rtx, lo, hi)
  {
    hide HandleFrame, Step, Smooth, Samples;
    match a
    case Client(ev) => StepSmooth(y.c, ev, lo, hi);
    case Server(ev) => StepSmooth(y.s, ev, lo, hi);
    case FirstFrame(f, now) =>
      var s1 := y.s.(lastHeard := now, rtx := y.s.rtx.(lastProgress := now));
      assert Smooth(s1.rtx, lo, hi) && Smooth(Reject(y.s).rtx, lo, hi) by { SameSmooth(y.s, s1, lo, hi); }
      assert !Samples(s1, Recv(f, now)) by { NothingToSample(s1, Recv(f, now)); }
      if f.kind != Rst && f.kind != Ack && !y.refuse {
        RecvStep(s1, f, now);
        StepSmooth(s1, Recv(f, now), lo, hi);
      }
    case Refuse =>
  }

  lemma SameSmooth(e: End, e': End, lo: int, hi: int)
    requires Smooth(e.rtx, lo, hi) && e'.rtx == e.rtx.(lastProgress := e'.rtx.lastProgress)
    ensures Smooth(e'.rtx, lo, hi) && Smooth(Reject(e).rtx, lo, hi)
  {
  }

  lemma NothingToSample(e: End, ev: Event)
    requires e.snd.unacked == []
    ensures !Samples(e, ev)
  {
  }

  /** Over every run the smoothed round trip stays between the least and the largest sample. */
  lemma {:induction false} SmoothedWithin(run: seq<System>, acts: seq<Action>, ccfg: Config, scfg: Config,
          target: Bytes, now: int, i: nat, lo: int, hi: int)
    requires IsRun(run, acts, ccfg, scfg, target, now) && i < |run| && 0 <= lo <= hi && SamplesIn(run, acts, lo, hi)
    ensures Smooth(run[i].c.rtx, lo, hi) && Smooth(run[i].s.rtx, lo, hi)
  {
    hide CanAct, Act, Smooth, SampleIn, Opened;
    if i == 0 {
      InitialSmooth(ccfg, scfg, target, now, lo, hi);
    } else {
      SmoothedWithin(run, acts, ccfg, scfg, target, now, i - 1, lo, hi);
      RunLively(run, acts, ccfg, scfg, target, now, i - 1);
      RunConfigs(run, acts, ccfg, scfg, target, now, i - 1);
      ActSmooth(run[i - 1], acts[i - 1], lo, hi);
    }
  }

  lemma InitialSmooth(ccfg: Config, scfg: Config, target: Bytes, now: int, lo: int, hi: int)
    requires 0 <= lo <= hi
    ensures Smooth(Opened(ccfg, target, now).rtx, lo, hi) && Smooth(New(scfg, false, now).rtx, lo, hi)
  {
    hide Marked, Min, Pow2, NeedsTimer, FillAck;
  }

  // ---- backoff --------------------------------------------------------------------------

  /** The timer fires at each of these times, one after the other. */
  function Fires(e: End, times: seq<int>): End {
    if |times| == 0 then e else OnTimer(Fires(e, times[..|times| - 1]), times[|times| - 1])
  }

  lemma FiringBacksOff(e: End, now: int)
    requires !e.dead && !TimedOut(e, now) && (|e.snd.unacked| > 0 || NeedsTimer(e.snd)) && e.rtx.backoff <= 6
    ensures var e' := OnTimer(e, now);
            && !e'.dead && e'.rtx.backoff == Min(e.rtx.backoff + 1, 6) && e'.rtx.armed && e'.rtx.rto == e.rtx.rto
            && e'.rtx.delay == Min(e.rtx.rto * Pow2(Min(e.rtx.backoff + 1, 6)), 10_000_000_000)
            && e'.rtx.lastProgress == e.rtx.lastProgress && e'.lastHeard == e.lastHeard && e'.cfg == e.cfg
            && |e'.snd.unacked| == |e.snd.unacked| && (NeedsTimer(e'.snd) <==> NeedsTimer(e.snd))
  {
    hide ResendFrom, Pow2, Marked, FillAck;
    var e1 := e.(rtx := e.rtx.(armed := false));
    ResendEstimate(e1, 0, now);
    ResendKeepsTimer(e1, 0, now);
  }

  lemma {:induction false} ResendKeepsTimer(e: End, i: nat, now: int)
    requires i <= |e.snd.unacked|
    ensures var e' := ResendFrom(e, i, now);
            && e'.dead == e.dead && |e'.snd.unacked| == |e.snd.unacked| && e'.snd.right == e.snd.right
            && e'.snd.nxt == e.snd.nxt && e'.snd.finQueued == e.snd.finQueued && e'.lastHeard == e.lastHeard
            && e'.cfg == e.cfg
    decreases |e.snd.unacked| - i
  {
    if i < |e.snd.unacked| { ResendKeepsTimer(Resend(e, i, now), i + 1, now); }
  }

  /** No firing finds the stream past its timeout. */
  predicate NoneTimedOut(e: End, times: seq<int>) {
    forall i :: 0 <= i < |times| ==> !TimedOut(e, times[i])
  }

  /** With nothing heard in between, each firing doubles the timeout, up to six times and to ten seconds. */
  lemma {:induction false} FiringsBackOff(e: End, times: seq<int>)
    requires !e.dead && NeedsTimer(e.snd) && NoneTimedOut(e, times) && |times| > 0 && e.rtx.backoff <= 6
    ensures var e' := Fires(e, times);
            && !e'.dead && NeedsTimer(e'.snd) && e'.rtx.armed && e'.rtx.rto == e.rtx.rto
            && e'.rtx.backoff == Min(e.rtx.backoff + |times|, 6)
            && e'.rtx.delay == Min(e.rtx.rto * Pow2(Min(e.rtx.backoff + |times|, 6)), 10_000_000_000)
            && e'.rtx.lastProgress == e.rtx.lastProgress && e'.lastHeard == e.lastHeard && e'.cfg == e.cfg
            && |e'.snd.unacked| == |e.snd.unacked|
  {
    hide OnTimer, Pow2, NeedsTimer;
    var n := |times| - 1;
    assert !TimedOut(e, times[n]);
    if n > 0 {
      assert NoneTimedOut(e, times[..n]);
      FiringsBackOff(e, times[..n]);
    }
    FiringBacksOff(Fires(e, times[..n]), times[n]);
  }

  /** What the timeout is measured from, and how often the timer has fired since. */
  function Clock(r: Rtx): (int, nat) { (r.lastProgress, r.backoff) }

  lemma AdvanceClock(e: End, ack: int, now: int)
    ensures Clock(Advance(e, ack, now).rtx) == (now, 0) && Advance(e, ack, now).snd.una == ack
  {
    hide UpdateRTT, AckedCount, Min, Pow2, NeedsTimer, FastRetransmit;
    var n := AckedCount(e.snd.unacked, ack);
    Retransmits(e.(snd := Acknowledged(e.snd, n, ack),
                   rtx := Sample(e, n, now).(backoff := 0, dupAcks := 0, lastProgress := now)), now);
  }

  lemma DuplicateClock(e: End, now: int)
    ensures Clock(CountDuplicate(e, now).rtx) == Clock(e.rtx) && CountDuplicate(e, now).snd.una == e.snd.una
  {
    hide FastRetransmit;
    Retransmits(e.(rtx := e.rtx.(dupAcks := e.rtx.dupAcks + 1, recover := e.snd.nxt)), now);
  }

  lemma WindowClock(e: End, right: int)
    ensures var e' := Signal(OpenWindow(e, right)); Clock(e'.rtx) == Clock(e.rtx) && e'.snd.una == e.snd.una
  {
    hide Min, Pow2, NeedsTimer;
  }

  lemma AckClock(e: End, f: Frame, now: int)
    ensures var e' := ProcessAck(e, f, now);
            if e.snd.una < f.ack <= e.snd.nxt then Clock(e'.rtx) == (now, 0) && e'.snd.una == f.ack
            else Clock(e'.rtx) == Clock(e.rtx) && e'.snd.una == e.snd.una
  {
    hide Advance, CountDuplicate, Signal, OpenWindow, Clock;
    AdvanceClock(e, f.ack, now);
    DuplicateClock(e, now);
    WindowClock(Advance(e, f.ack, now), Edge(f));
    WindowClock(CountDuplicate(e, now), Edge(f));
    WindowClock(e, Edge(f));
  }

  lemma SegmentHeard(e: End, f: Frame)
    ensures ProcessSegment(e, f).rtx == e.rtx && ProcessSegment(e, f).lastHeard == e.lastHeard
    ensures ProcessSegment(e, f).snd == e.snd
  {
    hide Drain, FillAck, Deliver;
    SegmentEstimate(e, f);
    DrainHeard(Deliver(e, Received(f)));
    DeliverHeard(e, Received(f));
  }

  lemma DeliverHeard(e: End, g: Segment)
    ensures Deliver(e, g).lastHeard == e.lastHeard && Deliver(e, g).snd == e.snd
  {
  }

  lemma {:induction false} DrainHeard(e: End)
    ensures Drain(e).lastHeard == e.lastHeard && Drain(e).snd == e.snd
    decreases |e.rcv.ooo|
  {
    if e.rcv.nxt in e.rcv.ooo {
      DeliverNextShrinks(e);
      DrainHeard(DeliverNext(e));
    }
  }

  lemma AckHeard(e: End, f: Frame, now: int)
    ensures ProcessAck(e, f, now).lastHeard == e.lastHeard
  {
    hide UpdateRTT, AckedCount, Min, Pow2, NeedsTimer, FillAck, Quot;
  }

  lemma FrameClock(e: End, f: Frame, now: int)
    ensures var e' := HandleFrame(e, f, now);
            && (if !e.dead && f.kind != Rst && e.snd.una < f.ack <= e.snd.nxt
                then Clock(e'.rtx) == (now, 0) && e'.snd.una == f.ack
                else Clock(e'.rtx) == Clock(e.rtx) && e'.snd.una == e.snd.una)
            && e'.lastHeard == if e.dead then e.lastHeard else now
  {
    hide ProcessAck, ProcessSegment, FillAck;
    var e0 := e.(lastHeard := now);
    AckClock(e0, f, now);
    AckHeard(e0, f, now);
    SegmentHeard(ProcessAck(e0, f, now), f);
  }

  /** What the sections that receive nothing leave of the clocks. */
  predicate SameClocks(e: End, e': End) {
    e'.rtx.lastProgress == e.rtx.lastProgress && e'.lastHeard == e.lastHeard && e'.snd.una == e.snd.una
  }

  lemma {:induction false} ResendClock(e: End, i: nat, now: int)
    requires i <= |e.snd.unacked|
    ensures SameClocks(e, ResendFrom(e, i, now))
    decreases |e.snd.unacked| - i
  {
    if i < |e.snd.unacked| { ResendClock(Resend(e, i, now), i + 1, now); }
  }

  lemma TimerClock(e: End, now: int)
    ensures SameClocks(e, OnTimer(e, now))
  {
    hide ResendFrom, Min, Pow2, NeedsTimer, Marked, FillAck;
    ResendClock(e.(rtx := e.rtx.(armed := false)), 0, now);
  }

  lemma ReadClock(e: End, data: Bytes, res: ReadResult, now: int)
    ensures SameClocks(e, ReadDone(e, data, res, now)) && ReadDone(e, data, res, now).rtx.backoff == e.rtx.backoff
  {
    hide Marked, QueueSegment;
    QueueClock(e.(snd := e.snd.(read := e.snd.read + data)), Data, data, now);
    var e1 := e.(snd := e.snd.(read := e.snd.read + data));
    QueueClock(if |data| > 0 then QueueSegment(e1, Data, data, now) else e1, Fin, [], now);
  }

  lemma QueueClock(e: End, kind: Kind, data: Bytes, now: int)
    ensures SameClocks(e, QueueSegment(e, kind, data, now))
            && QueueSegment(e, kind, data, now).rtx.backoff == e.rtx.backoff
  {
    hide Min, Pow2, NeedsTimer, FillAck;
  }

  lemma OtherClock(e: End, ev: Event)
    requires Enabled(e, ev) && !ev.Recv? && !ev.TimerFires? && !ev.ReadReturns?
    ensures SameClocks(e, Step(e, ev)) && Step(e, ev).rtx.backoff == e.rtx.backoff
  {
    hide Min, Pow2, NeedsTimer, Marked, FillAck, Flatten, CanSend, WorthUpdating;
  }

  /**
   * Progress, and nothing else, starts the timeout afresh: the clock of onTimer runs from the last acknowledgement of
   * something new, and that of a probe from the last frame heard.
   */
  lemma ProgressRestarts(e: End, ev: Event)
    requires Enabled(e, ev)
    ensures var e' := Step(e, ev);
            var progress := ev.Recv? && !e.dead && ev.f.kind != Rst && e.snd.una < ev.f.ack <= e.snd.nxt;
            && (if progress then Clock(e'.rtx) == (ev.now, 0) && e'.snd.una == ev.f.ack
                else e'.rtx.lastProgress == e.rtx.lastProgress && e'.snd.una == e.snd.una
                     && (!ev.TimerFires? ==> e'.rtx.backoff == e.rtx.backoff))
            && e'.lastHeard == if ev.Recv? && !e.dead then ev.now else e.lastHeard
  {
    hide HandleFrame, OnTimer, ReadDone, Step, Enabled;
    match ev
    case Recv(f, now) =>
      FrameClock(e, f, now);
      assert Step(e, ev) == HandleFrame(e, f, now) by { StepIs(e, ev); }
    case TimerFires(now) =>
      TimerClock(e, now);
      TimerStep(e, now);
    case ReadReturns(data, res, now) =>
      ReadClock(e, data, res, now);
      assert Step(e, ev) == ReadDone(e, data, res, now) by { StepIs(e, ev); }
    case _ => OtherClock(e, ev);
  }

  lemma StepIs(e: End, ev: Event)
    requires Enabled(e, ev)
    ensures ev.Recv? ==> Step(e, ev) == HandleFrame(e, ev.f, ev.now)
    ensures ev.ReadReturns? ==> Step(e, ev) == ReadDone(e, ev.data, ev.res, ev.at)
  {
    hide HandleFrame, ReadDone;
  }
}
