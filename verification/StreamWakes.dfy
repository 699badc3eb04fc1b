/** The loops of a stream do not spin: what wakes them is used up (readLoop and writeLoop of src/tcp_stream.go). */
module StreamWakes {
  import opened Bytes
  import opened StreamTypes
  import opened StreamEnd
  import opened StreamSystem
  import opened StreamTheorems
  import opened StreamFlow

  /** A frame reaches the end of one side. */
  predicate Hears(a: Action, side: bool) {
    match a
    case Client(ev) => side && ev.Recv?
    case Server(ev) => !side && ev.Recv?
    case FirstFrame(_, _) => !side
    case Refuse => false
  }

  /** The wake-up of one of the two loops. */
  function WakeOf(e: End, writer: bool): bool { if writer then e.wake.write else e.wake.send }

  function WakeBy(side: bool, writer: bool): Action { By(side, if writer then WriteWakes else ReadWakes) }

  function Bit(b: bool): nat { if b then 1 else 0 }

  /** Frames heard by one side in acts[i..j]. */
  function Heard(acts: seq<Action>, side: bool, i: nat, j: nat): nat
    requires i <= j <= |acts|
  {
    if i == j then 0 else Heard(acts, side, i, j - 1) + Bit(Hears(acts[j - 1], side))
  }

  /** Wake-ups of one loop of a live end in acts[i..j]. */
  function Woken(run: seq<System>, acts: seq<Action>, side: bool, writer: bool, i: nat, j: nat): nat
    requires i <= j <= |acts| <= |run|
  {
    if i == j then 0
    else Woken(run, acts, side, writer, i, j - 1)
         + Bit(acts[j - 1] == WakeBy(side, writer) && !EndOf(run[j - 1], side).dead)
  }

  lemma ResendSignals(e: End, i: nat, now: int)
    requires i <= |e.snd.unacked|
    ensures ResendFrom(e, i, now).wake == e.wake
    decreases |e.snd.unacked| - i
  {
    hide FillAck;
    if i < |e.snd.unacked| { ResendSignals(Resend(e, i, now), i + 1, now); }
  }

  lemma TimerSignals(e: End, now: int)
    ensures OnTimer(e, now).wake == e.wake
  {
    hide ResendFrom, Min, Pow2, NeedsTimer, Marked, FillAck;
    ResendSignals(e.(rtx := e.rtx.(armed := false)), 0, now);
  }

  lemma ReadSignals(e: End, data: Bytes, res: ReadResult, now: int)
    ensures ReadDone(e, data, res, now).wake == e.wake
  {
    hide Min, Pow2, NeedsTimer, Marked, FillAck;
  }

  /** Only a frame signals; waking uses the signal up. */
  lemma StepSignals(e: End, ev: Event, writer: bool)
    requires Enabled(e, ev) && !ev.Recv?
    ensures var woken := Bit(ev == (if writer then WriteWakes else ReadWakes) && !e.dead);
            Bit(WakeOf(Step(e, ev), writer)) + woken <= Bit(WakeOf(e, writer))
  {
    hide OnTimer, ReadDone, Pow2, NeedsTimer, Marked, Flatten, CanSend, WorthUpdating, FillAck;
    if ev.TimerFires? { TimerSignals(e, ev.now); }
    if ev.ReadReturns? { ReadSignals(e, ev.data, ev.res, ev.at); }
  }

  lemma ActSignals(y: System, a: Action, side: bool, writer: bool)
    requires CanAct(y, a)
    ensures var woken := Bit(a == WakeBy(side, writer) && !EndOf(y, side).dead);
            Bit(WakeOf(EndOf(Act(y, a), side), writer)) + woken
            <= Bit(WakeOf(EndOf(y, side), writer)) + Bit(Hears(a, side))
  {
    hide Step, Enabled, HandleFrame;
    match a
    case Client(ev) => if side && !ev.Recv? { StepSignals(y.c, ev, writer); }
    case Server(ev) => if !side && !ev.Recv? { StepSignals(y.s, ev, writer); }
    case FirstFrame(_, _) =>
    case Refuse =>
  }

  /**
   * In every stretch of every run, on either side, each of the two loops of a live end wakes at most once for each
   * frame the end hears there, and once more for a signal left from before; at the start of a run there is none.
   */
  lemma {:induction false} WakesArePaid(run: seq<System>, acts: seq<Action>, ccfg: Config, scfg: Config, target: Bytes,
          now: int, side: bool, writer: bool, i: nat, j: nat)
    requires IsRun(run, acts, ccfg, scfg, target, now) && i <= j <= |acts|
    ensures Woken(run, acts, side, writer, i, j) + Bit(WakeOf(EndOf(run[j], side), writer))
            <= Heard(acts, side, i, j) + if i == 0 then 0 else 1
  {
    hide IsRun;
    RunLength(run, acts, ccfg, scfg, target, now);
    if i < j {
      WakesArePaid(run, acts, ccfg, scfg, target, now, side, writer, i, j - 1);
      StepOf(run, acts, ccfg, scfg, target, now, j - 1);
      ActSignals(run[j - 1], acts[j - 1], side, writer);
    } else if i == 0 {
      StartsUnsignalled(run, acts, ccfg, scfg, target, now);
    }
  }

  lemma RunLength(run: seq<System>, acts: seq<Action>, ccfg: Config, scfg: Config, target: Bytes, now: int)
    requires IsRun(run, acts, ccfg, scfg, target, now)
    ensures |run| == |acts| + 1
  {
    hide Initial, CanAct, Act;
  }

  lemma StartsUnsignalled(run: seq<System>, acts: seq<Action>, ccfg: Config, scfg: Config, target: Bytes, now: int)
    requires IsRun(run, acts, ccfg, scfg, target, now)
    ensures |run| > 0 && run[0].c.wake == Wake(false, false) && run[0].s.wake == Wake(false, false)
  {
    hide CanAct, Act, FillAck, Min, Pow2, NeedsTimer, Marked;
  }
}
