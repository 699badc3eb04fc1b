/** The CoDel drop law of src/codel.go. Times and delays are nanoseconds. */
module Codel {
  import opened Options

  datatype Params = Params(target: int, interval: nat)

  datatype State = State(firstAbove: Option<int>, dropNext: int, count: nat, lastCount: nat, dropping: bool)

  const Fresh := State(None, 0, 0, 0, false)

  /** Looks for the gap downwards from hi. */
  function GapBelow(interval: nat, count: nat, hi: nat): (g: nat)
    requires (hi + 1) * (hi + 1) * count > interval * interval
    ensures g <= hi && g * g * count <= interval * interval < (g + 1) * (g + 1) * count
  {
    if hi * hi * count <= interval * interval then hi else GapBelow(interval, count, hi - 1)
  }

  /** The time to the next drop, interval / sqrt(count), rounded down. */
  function Gap(interval: nat, count: nat): (g: nat)
    ensures count > 0 ==> g <= interval && g * g * count <= interval * interval < (g + 1) * (g + 1) * count
  {
    if count == 0 then 0
    else
      StartsAbove(interval, count);
      GapBelow(interval, count, interval)
  }

  lemma StartsAbove(interval: nat, count: nat)
    requires count > 0
    ensures (interval + 1) * (interval + 1) * count > interval * interval
  {
    var sq := (interval + 1) * (interval + 1);
    assert sq == interval * interval + 2 * interval + 1;
    assert sq * count >= sq;
  }

  /** Drops never get rarer as the count grows. */
  lemma GapShrinks(interval: nat, a: nat, b: nat)
    requires 0 < a <= b
    ensures Gap(interval, b) <= Gap(interval, a)
  {
    var ga, gb := Gap(interval, a), Gap(interval, b);
    if gb > ga {
      assert gb * gb >= (ga + 1) * (ga + 1) by { Squares(ga + 1, gb); }
      Products((ga + 1) * (ga + 1), gb * gb, a, b);
    }
  }

  lemma Squares(x: nat, y: nat)
    requires x <= y
    ensures x * x <= y * y
  {
    assert y * y == x * x + (y - x) * (y + x);
    assert (y - x) * (y + x) >= 0;
  }

  lemma Products(x: nat, y: nat, a: nat, b: nat)
    requires x <= y && a <= b
    ensures x * a <= y * b
  {
    assert y * b - x * a == (y - x) * b + x * (b - a);
    assert (y - x) * b >= 0 && x * (b - a) >= 0;
  }

  // ---- the law --------------------------------------------------------------------------

  function Note(p: Params, c: State, now: int, sojourn: int): Option<int> {
    if sojourn < p.target then None
    else if c.firstAbove == None then Some(now + p.interval)
    else c.firstAbove
  }

  predicate OkToDrop(p: Params, c: State, now: int, sojourn: int) {
    sojourn >= p.target && c.firstAbove.Some? && now >= c.firstAbove.value
  }

  /** The count a new episode starts with. */
  function StartCount(p: Params, c: State, now: int): nat {
    if c.count - c.lastCount > 1 && now - c.dropNext < 16 * p.interval then c.count - c.lastCount else 1
  }

  function Decide(p: Params, c: State, now: int, sojourn: int): (State, bool) {
    var ok := OkToDrop(p, c, now, sojourn);
    var c1 := c.(firstAbove := Note(p, c, now, sojourn));
    if c.dropping then
      if !ok then (c1.(dropping := false), false)
      else if now >= c.dropNext then
        (c1.(count := c.count + 1, dropNext := c.dropNext + Gap(p.interval, c.count + 1)), true)
      else (c1, false)
    else if !ok then (c1, false)
    else
      var n := StartCount(p, c, now);
      (c1.(dropping := true, count := n, lastCount := n, dropNext := now + Gap(p.interval, n)), true)
  }

  // ---- histories ------------------------------------------------------------------------

  datatype Call = Call(now: int, sojourn: int)

  /** The state after a history of calls. */
  function After(p: Params, calls: seq<Call>): State {
    if |calls| == 0 then Fresh
    else Decide(p, After(p, calls[..|calls| - 1]), calls[|calls| - 1].now, calls[|calls| - 1].sojourn).0
  }

  /** Whether the last call of a history dropped its packet. */
  predicate Dropped(p: Params, calls: seq<Call>) {
    |calls| > 0
    && Decide(p, After(p, calls[..|calls| - 1]), calls[|calls| - 1].now, calls[|calls| - 1].sojourn).1
  }

  lemma AfterCall(p: Params, calls: seq<Call>, c: Call)
    ensures Decide(p, After(p, calls), c.now, c.sojourn) == (After(p, calls + [c]), Dropped(p, calls + [c]))
  {
    assert (calls + [c])[..|calls|] == calls;
  }

  predicate BelowTarget(p: Params, calls: seq<Call>) { forall i :: 0 <= i < |calls| ==> calls[i].sojourn < p.target }

  lemma StillBelow(p: Params, a: seq<Call>, b: seq<Call>)
    requires a <= b && BelowTarget(p, b)
    ensures BelowTarget(p, a)
  {
    forall i | 0 <= i < |a| ensures a[i].sojourn < p.target { assert a[i] == b[i]; }
  }

  lemma NotDropped(p: Params, calls: seq<Call>)
    requires |calls| > 0 && calls[|calls| - 1].sojourn < p.target
    ensures !Dropped(p, calls)
  {
  }

  /** Where the unbroken stretch of calls at or above target, ending with the last, began. */
  function AboveSince(p: Params, calls: seq<Call>): (j: nat)
    ensures j <= |calls|
    ensures forall k :: j <= k < |calls| ==> calls[k].sojourn >= p.target
    ensures 0 < j ==> calls[j - 1].sojourn < p.target
  {
    if |calls| == 0 || calls[|calls| - 1].sojourn < p.target then |calls|
    else AboveSince(p, calls[..|calls| - 1])
  }

  /** The delay has stood at or above target since an earlier call, at least one interval ago. */
  predicate Standing(p: Params, calls: seq<Call>) {
    var j := AboveSince(p, calls);
    j + 1 < |calls| && calls[|calls| - 1].now >= calls[j].now + p.interval
  }

  lemma {:induction false} FirstAboveIs(p: Params, calls: seq<Call>)
    ensures var j := AboveSince(p, calls);
            After(p, calls).firstAbove == if j < |calls| then Some(calls[j].now + p.interval) else None
    ensures After(p, calls).lastCount <= After(p, calls).count
  {
    hide Gap;
    if |calls| > 0 {
      var before := calls[..|calls| - 1];
      FirstAboveIs(p, before);
    }
  }

  /** The law exactly: what is dropped, when an episode starts and when it ends. */
  lemma DropExactly(p: Params, calls: seq<Call>)
    requires |calls| > 0
    ensures var before, now := After(p, calls[..|calls| - 1]), calls[|calls| - 1].now;
            && (Dropped(p, calls) <==> Standing(p, calls) && (before.dropping ==> now >= before.dropNext))
            && (After(p, calls).dropping <==> Standing(p, calls))
  {
    FirstAboveIs(p, calls[..|calls| - 1]);
  }

  /** A packet is dropped only if every delay since some call an interval or more ago was at least target. */
  lemma OnlyStandingQueuesDrop(p: Params, calls: seq<Call>)
    requires Dropped(p, calls)
    ensures exists j :: 0 <= j < |calls| && calls[j].now + p.interval <= calls[|calls| - 1].now
                        && (forall k :: j <= k < |calls| ==> calls[k].sojourn >= p.target)
  {
    DropExactly(p, calls);
    assert calls[AboveSince(p, calls)].now + p.interval <= calls[|calls| - 1].now;
  }

  /** The unsigned difference count - lastCount never wraps. */
  lemma CountAboveLast(p: Params, calls: seq<Call>)
    ensures After(p, calls).lastCount <= After(p, calls).count
  {
    FirstAboveIs(p, calls);
  }

  // ---- episodes -------------------------------------------------------------------------

  /** n gaps of the control law, from count c on. */
  function Gaps(interval: nat, c: nat, n: nat): nat {
    if n == 0 then 0 else Gaps(interval, c, n - 1) + Gap(interval, c + n - 1)
  }

  /** Calls a.. of a history, of which the first started an episode that has not ended. */
  ghost predicate Episode(p: Params, calls: seq<Call>, a: nat) {
    && a < |calls| && !After(p, calls[..a]).dropping
    && (forall k :: a < k <= |calls| ==> After(p, calls[..k]).dropping)
  }

  /** Drops among calls a.. of a history. */
  function Drops(p: Params, calls: seq<Call>, a: nat): nat
    requires a <= |calls|
    decreases |calls|
  {
    if |calls| == a then 0
    else Drops(p, calls[..|calls| - 1], a) + (if Dropped(p, calls) then 1 else 0)
  }

  lemma EpisodeBefore(p: Params, calls: seq<Call>, a: nat)
    requires Episode(p, calls, a) && |calls| > a + 1
    ensures var before := calls[..|calls| - 1];
            Episode(p, before, a) && before[..a + 1] == calls[..a + 1] && After(p, before).dropping
  {
    hide After;
    var before := calls[..|calls| - 1];
    forall k | a < k <= |before| ensures After(p, before[..k]).dropping { assert before[..k] == calls[..k]; }
    assert before[..a] == calls[..a] && before[..a + 1] == calls[..a + 1];
    assert before[..|before|] == before;
  }

  lemma EpisodeOpens(p: Params, calls: seq<Call>, a: nat)
    requires Episode(p, calls, a) && |calls| == a + 1
    ensures Dropped(p, calls) && After(p, calls).count >= 1 && calls[..a + 1] == calls
    ensures After(p, calls).dropNext == calls[a].now + Gap(p.interval, After(p, calls).count)
  {
    hide Gap;
    assert calls[..a + 1] == calls;
    assert calls[..|calls| - 1] == calls[..a];
    assert After(p, calls).dropping;
  }

  lemma EpisodeGoesOn(p: Params, calls: seq<Call>)
    requires |calls| > 0 && After(p, calls).dropping && After(p, calls[..|calls| - 1]).dropping
    ensures var before, after := After(p, calls[..|calls| - 1]), After(p, calls);
            if Dropped(p, calls)
            then after.count == before.count + 1
                 && after.dropNext == before.dropNext + Gap(p.interval, before.count + 1)
            else after.count == before.count && after.dropNext == before.dropNext
  {
    hide Gap;
  }

  lemma {:induction false} EpisodeSchedule(p: Params, calls: seq<Call>, a: nat)
    requires Episode(p, calls, a)
    ensures var c := After(p, calls[..a + 1]).count;
            var n := Drops(p, calls, a);
            n >= 1 && c >= 1 && After(p, calls).count == c + n - 1
            && After(p, calls).dropNext == calls[a].now + Gaps(p.interval, c, n)
    decreases |calls|
  {
    hide After, Dropped, Gap, Episode;
    Inside(p, calls, a);
    if |calls| == a + 1 {
      EpisodeOpens(p, calls, a);
      assert Drops(p, calls[..a], a) == 0;
    } else {
      EpisodeBefore(p, calls, a);
      EpisodeSchedule(p, calls[..|calls| - 1], a);
      EpisodeGoesOn(p, calls);
    }
  }

  lemma Inside(p: Params, calls: seq<Call>, a: nat)
    requires Episode(p, calls, a)
    ensures a < |calls|
    ensures |calls| > a + 1 ==> After(p, calls).dropping
  {
    assert calls[..|calls|] == calls;
  }

  /** The drop after n others in an episode comes no earlier than its start plus n gaps of the control law. */
  lemma DropsKeepSchedule(p: Params, calls: seq<Call>, a: nat)
    requires Episode(p, calls, a) && |calls| > a + 1 && Dropped(p, calls)
    ensures var n := Drops(p, calls[..|calls| - 1], a);
            n >= 1 && calls[|calls| - 1].now >= calls[a].now + Gaps(p.interval, After(p, calls[..a + 1]).count, n)
  {
    EpisodeBefore(p, calls, a);
    EpisodeSchedule(p, calls[..|calls| - 1], a);
    DropExactly(p, calls);
  }

  /** Calls e.. to a of a history leave no episode under way. */
  ghost predicate Quiet(p: Params, calls: seq<Call>, e: nat, a: nat)
    requires a <= |calls|
  {
    forall k :: e < k <= a ==> !After(p, calls[..k]).dropping
  }

  /** In an episode lastCount is the count it started with. */
  lemma {:induction false} EpisodeRemembers(p: Params, calls: seq<Call>, a: nat)
    requires Episode(p, calls, a)
    ensures After(p, calls).lastCount == After(p, calls[..a + 1]).count
    decreases |calls|
  {
    hide Gap, Episode, Drops;
    Inside(p, calls, a);
    if |calls| == a + 1 {
      assert calls[..a + 1] == calls;
      EpisodeOpens(p, calls, a);
      assert After(p, calls).lastCount == After(p, calls).count by { OpensWith(p, calls, a); }
    } else {
      EpisodeBefore(p, calls, a);
      EpisodeRemembers(p, calls[..|calls| - 1], a);
    }
  }

  lemma OpensWith(p: Params, calls: seq<Call>, a: nat)
    requires Episode(p, calls, a) && |calls| == a + 1
    ensures var before, after := After(p, calls[..a]), After(p, calls);
            after.lastCount == after.count == StartCount(p, before, calls[a].now) && !before.dropping
  {
    hide Gap, StartCount;
    assert calls[..|calls| - 1] == calls[..a] && calls[..|calls|] == calls;
  }

  /** Between episodes the controller remembers the last one. */
  lemma {:induction false} QuietKeeps(p: Params, calls: seq<Call>, e: nat, a: nat)
    requires e <= a <= |calls| && Quiet(p, calls, e, a)
    ensures var before, after := After(p, calls[..e]), After(p, calls[..a]);
            after.count == before.count && after.lastCount == before.lastCount && after.dropNext == before.dropNext
    decreases a
  {
    hide Gap, StartCount;
    if e < a {
      QuietKeeps(p, calls, e, a - 1);
      assert calls[..a][..a - 1] == calls[..a - 1];
      assert !After(p, calls[..a]).dropping;
    }
  }

  /**
   * A first episode starts at count 1. A later one starts where the one before it left off, at the number of its drops
   * but one, if there were more than two of them and the next would have been due less than 16 intervals ago; else it
   * starts at 1 again.
   */
  lemma EpisodeResumes(p: Params, calls: seq<Call>, b: nat, e: nat, a: nat)
    requires |calls| == a + 1 && b < e <= a && Episode(p, calls[..e], b) && Quiet(p, calls, e, a) && e < a
    requires Episode(p, calls, a)
    ensures var drops := Drops(p, calls[..e], b);
            After(p, calls).count
            == if drops > 2 && calls[a].now < After(p, calls[..e]).dropNext + 16 * p.interval then drops - 1 else 1
  {
    hide After, Gap, Drops, Episode;
    var last := calls[..e];
    Inside(p, last, b);
    EpisodeSchedule(p, last, b);
    EpisodeRemembers(p, last, b);
    QuietKeeps(p, calls, e, a);
    OpensWith(p, calls, a);
  }

  lemma FirstEpisode(p: Params, calls: seq<Call>, a: nat)
    requires |calls| == a + 1 && Episode(p, calls, a) && Quiet(p, calls, 0, a)
    ensures After(p, calls).count == 1
  {
    hide After, Gap, Episode;
    QuietKeeps(p, calls, 0, a);
    OpensWith(p, calls, a);
    assert calls[..0] == [] && After(p, []) == Fresh by { NothingYet(p); }
  }

  lemma NothingYet(p: Params)
    ensures After(p, []) == Fresh
  {
  }

  // ---- the object -----------------------------------------------------------------------

  class Controller {
    const p: Params
    var firstAbove: Option<int>
    var dropNext: int
    var count: nat
    var lastCount: nat
    var dropping: bool

    ghost function View(): State
      reads this
    {
      State(firstAbove, dropNext, count, lastCount, dropping)
    }

    constructor (p: Params)
      ensures View() == Fresh && this.p == p
    {
      this.p := p;
      firstAbove, dropNext, count, lastCount, dropping := None, 0, 0, 0, false;
    }

    method ShouldDrop(now: int, sojourn: int) returns (drop: bool)
      requires lastCount <= count
      modifies this
      ensures (View(), drop) == Decide(p, old(View()), now, sojourn)
      ensures lastCount <= count
    {
      var okToDrop := false;
      if sojourn < p.target {
        firstAbove := None;
      } else if firstAbove == None {
        firstAbove := Some(now + p.interval);
      } else if now >= firstAbove.value {
        okToDrop := true;
      }
      if dropping {
        if !okToDrop {
          dropping := false;
          return false;
        }
        if now >= dropNext {
          count := count + 1;
          dropNext := dropNext + Gap(p.interval, count);
          return true;
        }
        return false;
      }
      if !okToDrop {
        return false;
      }
      dropping := true;
      var delta := count - lastCount;
      if delta > 1 && now - dropNext < 16 * p.interval {
        count := delta;
      } else {
        count := 1;
      }
      lastCount := count;
      dropNext := now + Gap(p.interval, count);
      return true;
    }
  }
}
