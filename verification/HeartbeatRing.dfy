/** Heartbeat counts per minute in a ring of packed words (src/heartbeat_tracker.go). */
module HeartbeatRing {
  const SLOTS := 1440
  const COUNT_LIMIT := 0x1_0000_0000

  // ---- packed words ---------------------------------------------------------------------

  /** The minute in the high 32 bits, the shift dropping what does not fit, and the count in the low ones. */
  function Pack(minute: nat, count: nat): nat { minute % COUNT_LIMIT * COUNT_LIMIT + count }

  function MinuteOf(word: nat): nat { word / COUNT_LIMIT }

  function CountOf(word: nat): nat { word % COUNT_LIMIT }

  lemma UnpackPack(minute: nat, count: nat)
    requires minute < COUNT_LIMIT && count < COUNT_LIMIT
    ensures MinuteOf(Pack(minute, count)) == minute && CountOf(Pack(minute, count)) == count
  {
  }

  // ---- the ring as a value --------------------------------------------------------------

  function Slot(minute: nat): nat { minute % SLOTS }

  function Bumped(word: nat, minute: nat): nat {
    if MinuteOf(word) != minute then Pack(minute, 1)
    else if CountOf(word) == COUNT_LIMIT - 1 then word
    else Pack(minute, CountOf(word) + 1)
  }

  function Bump(ring: seq<nat>, minute: nat): seq<nat>
    requires |ring| == SLOTS
  {
    ring[Slot(minute) := Bumped(ring[Slot(minute)], minute)]
  }

  /** The ring after the events of a log, one minute each. */
  function RingOf(log: seq<nat>): (ring: seq<nat>)
    ensures |ring| == SLOTS
  {
    if |log| == 0 then seq(SLOTS, _ => 0) else Bump(RingOf(log[..|log| - 1]), log[|log| - 1])
  }

  function InRange(word: nat, lo: nat, hi: nat): nat {
    if lo <= MinuteOf(word) <= hi then CountOf(word) else 0
  }

  function Total(words: seq<nat>, lo: nat, hi: nat): nat {
    if |words| == 0 then 0 else Total(words[..|words| - 1], lo, hi) + InRange(words[|words| - 1], lo, hi)
  }

  lemma {:induction false} TotalUpdate(words: seq<nat>, i: nat, word: nat, lo: nat, hi: nat)
    requires i < |words|
    ensures Total(words[i := word], lo, hi) == Total(words, lo, hi) - InRange(words[i], lo, hi) + InRange(word, lo, hi)
  {
    hide InRange;
    var n := |words| - 1;
    if i < n {
      TotalUpdate(words[..n], i, word, lo, hi);
      assert words[i := word][..n] == words[..n][i := word];
    } else {
      assert words[i := word][..n] == words[..n];
    }
  }

  // ---- the log --------------------------------------------------------------------------

  /** Events of a log in a range of minutes. */
  function Events(log: seq<nat>, lo: nat, hi: nat): nat {
    if |log| == 0 then 0
    else Events(log[..|log| - 1], lo, hi) + (if lo <= log[|log| - 1] <= hi then 1 else 0)
  }

  predicate Ascending(log: seq<nat>) { forall i, j :: 0 <= i < j < |log| ==> log[i] <= log[j] }

  /** Minutes fit the word, and none of them has so many events that its count stops. */
  predicate Countable(log: seq<nat>) {
    forall i :: 0 <= i < |log| ==> log[i] < COUNT_LIMIT && Events(log, log[i], log[i]) < COUNT_LIMIT
  }

  lemma CountableBefore(log: seq<nat>)
    requires |log| > 0 && Countable(log)
    ensures Countable(log[..|log| - 1])
  {
    forall i | 0 <= i < |log| - 1 ensures Events(log[..|log| - 1], log[i], log[i]) < COUNT_LIMIT {
      assert Events(log, log[i], log[i]) < COUNT_LIMIT;
    }
  }

  lemma {:induction false} NoEvents(log: seq<nat>, m: nat)
    requires m !in log
    ensures Events(log, m, m) == 0
  {
    if |log| > 0 {
      assert log[|log| - 1] in log;
      NoEvents(log[..|log| - 1], m);
    }
  }

  /** A later minute took over the slot of an event in the range. */
  predicate Reused(log: seq<nat>, i: int, j: int, lo: nat, hi: nat) {
    0 <= i < j < |log| && lo <= log[i] <= hi && log[i] < log[j] && Slot(log[i]) == Slot(log[j])
  }

  ghost predicate NoReuse(log: seq<nat>, lo: nat, hi: nat) { forall i, j :: !Reused(log, i, j, lo, hi) }

  /** A used slot holds the latest minute of the log that falls on it, and how often it occurs. */
  ghost predicate HoldsLatest(log: seq<nat>, s: nat, word: nat) {
    && (CountOf(word) > 0 ==>
          && MinuteOf(word) in log && Slot(MinuteOf(word)) == s
          && CountOf(word) == Events(log, MinuteOf(word), MinuteOf(word)))
    && (forall k :: 0 <= k < |log| && Slot(log[k]) == s ==> CountOf(word) > 0 && log[k] <= MinuteOf(word))
  }

  lemma {:induction false} SlotHoldsLatest(log: seq<nat>, s: nat)
    requires Ascending(log) && Countable(log) && s < SLOTS
    ensures HoldsLatest(log, s, RingOf(log)[s])
  {
    hide Pack, MinuteOf, CountOf, Slot;
    if |log| == 0 {
      ZeroWord();
    } else {
      var init, m := log[..|log| - 1], log[|log| - 1];
      CountableBefore(log);
      SlotHoldsLatest(init, s);
      var word := RingOf(init)[s];
      assert m in log && Events(log, m, m) == Events(init, m, m) + 1 < COUNT_LIMIT;
      if Slot(m) == s {
        UnpackPack(m, 1);
        if CountOf(word) < COUNT_LIMIT - 1 { UnpackPack(m, CountOf(word) + 1); }
        assert forall k :: 0 <= k < |log| ==> log[k] <= m;
        if CountOf(word) == 0 || MinuteOf(word) != m { NoEvents(init, m); }
      }
    }
  }

  lemma ZeroWord()
    ensures MinuteOf(0) == 0 && CountOf(0) == 0
  {
  }

  /** What one event adds to the total: itself, less what it wipes out of its slot. */
  lemma TotalStep(log: seq<nat>, lo: nat, hi: nat)
    requires |log| > 0 && Ascending(log) && Countable(log)
    ensures var init, m := log[..|log| - 1], log[|log| - 1];
            var word := RingOf(init)[Slot(m)];
            Total(RingOf(log), lo, hi)
            == Total(RingOf(init), lo, hi) + (if lo <= m <= hi then 1 else 0)
               - (if MinuteOf(word) == m then 0 else InRange(word, lo, hi))
  {
    hide Pack, MinuteOf, CountOf, Total;
    var init, m := log[..|log| - 1], log[|log| - 1];
    var word := RingOf(init)[Slot(m)];
    CountableBefore(log);
    SlotHoldsLatest(init, Slot(m));
    assert Events(log, m, m) == Events(init, m, m) + 1 < COUNT_LIMIT;
    TotalUpdate(RingOf(init), Slot(m), Bumped(word, m), lo, hi);
    UnpackPack(m, 1);
    if CountOf(word) < COUNT_LIMIT - 1 { UnpackPack(m, CountOf(word) + 1); }
  }

  /** Nothing stale is ever counted: the ring reports no more events than there were. */
  lemma {:induction false} NeverOvercounts(log: seq<nat>, lo: nat, hi: nat)
    requires Ascending(log) && Countable(log)
    ensures Total(RingOf(log), lo, hi) <= Events(log, lo, hi)
  {
    if |log| == 0 {
      EmptyTotal(SLOTS, lo, hi);
    } else {
      hide RingOf, Total, InRange, MinuteOf;
      CountableBefore(log);
      NeverOvercounts(log[..|log| - 1], lo, hi);
      TotalStep(log, lo, hi);
    }
  }

  lemma {:induction false} EmptyTotal(n: nat, lo: nat, hi: nat)
    ensures Total(seq(n, _ => 0), lo, hi) == 0
  {
    if n > 0 {
      EmptyTotal(n - 1, lo, hi);
      assert seq(n, _ => 0)[..n - 1] == seq(n - 1, _ => 0);
    }
  }

  /** The ring reports every event of a range if none of their slots was reused. */
  lemma {:induction false} CountsAll(log: seq<nat>, lo: nat, hi: nat)
    requires Ascending(log) && Countable(log) && NoReuse(log, lo, hi)
    ensures Total(RingOf(log), lo, hi) == Events(log, lo, hi)
  {
    if |log| == 0 {
      EmptyTotal(SLOTS, lo, hi);
    } else {
      hide RingOf, Total, MinuteOf, CountOf, Slot;
      var init, m := log[..|log| - 1], log[|log| - 1];
      forall i, j ensures !Reused(init, i, j, lo, hi) { assert !Reused(log, i, j, lo, hi); }
      CountableBefore(log);
      CountsAll(init, lo, hi);
      TotalStep(log, lo, hi);
      SlotHoldsLatest(init, Slot(m));
      var word := RingOf(init)[Slot(m)];
      if MinuteOf(word) in init {
        var i :| 0 <= i < |init| && init[i] == MinuteOf(word);
        assert !Reused(log, i, |log| - 1, lo, hi);
      }
    }
  }

  /** Once the slot of an event in the range is reused, the ring reports too few. */
  lemma {:induction false} MissesReused(log: seq<nat>, lo: nat, hi: nat, i: nat, j: nat)
    requires Ascending(log) && Countable(log) && Reused(log, i, j, lo, hi)
    ensures Total(RingOf(log), lo, hi) < Events(log, lo, hi)
  {
    hide RingOf, Total, MinuteOf, CountOf;
    var init, m := log[..|log| - 1], log[|log| - 1];
    TotalStep(log, lo, hi);
    CountableBefore(log);
    NeverOvercounts(init, lo, hi);
    if j < |log| - 1 {
      MissesReused(init, lo, hi, i, j);
    } else {
      SlotHoldsLatest(init, Slot(m));
      var word := RingOf(init)[Slot(m)];
      var k :| 0 <= k < |init| && init[k] == MinuteOf(word);
      if init[k] > log[i] {
        assert i < k;
        MissesReused(init, lo, hi, i, k);
      }
    }
  }

  /**
   * Ring equals log, exactly: for events whose minutes never go back, the ring reports the events of a range
   * if and only if no later minute has taken over the slot of one of them.
   */
  lemma RingIsLog(log: seq<nat>, lo: nat, hi: nat)
    requires Ascending(log) && Countable(log)
    ensures Total(RingOf(log), lo, hi) == Events(log, lo, hi) <==> NoReuse(log, lo, hi)
  {
    hide RingOf, Total;
    if NoReuse(log, lo, hi) {
      CountsAll(log, lo, hi);
    } else {
      var i, j :| Reused(log, i, j, lo, hi);
      MissesReused(log, lo, hi, i, j);
    }
  }

  lemma NearSlots(a: nat, b: nat)
    requires a <= b < a + SLOTS && Slot(a) == Slot(b)
    ensures a == b
  {
  }

  /** A range that starts fewer than 1440 minutes before the last event is reported exactly. */
  lemma ShortRangeIsExact(log: seq<nat>, lo: nat, hi: nat)
    requires Ascending(log) && Countable(log) && (|log| > 0 ==> log[|log| - 1] < lo + SLOTS)
    ensures Total(RingOf(log), lo, hi) == Events(log, lo, hi)
  {
    hide RingOf, Total, Slot;
    forall i, j | 0 <= i < j < |log| && lo <= log[i] && Slot(log[i]) == Slot(log[j]) ensures log[i] == log[j] {
      assert log[j] <= log[|log| - 1];
      NearSlots(log[i], log[j]);
    }
    CountsAll(log, lo, hi);
  }

  // ---- windows --------------------------------------------------------------------------

  const MINUTE := 60_000_000_000
  const FIVE_MINUTES := 5 * MINUTE
  const HOUR := 60 * MINUTE
  const DAY := 24 * HOUR

  /** The minute of a time in nanoseconds since 1970, as unsigned 64 bits: earlier minutes wrap around. */
  function MinuteAt(ns: int): nat {
    var seconds := ns / 1_000_000_000;
    if seconds >= 0 then seconds / 60 else -(-seconds / 60) % 0x1_0000_0000_0000_0000
  }

  lemma MinuteIs(ns: nat)
    ensures MinuteAt(ns) == ns / MINUTE
  {
  }

  /** What snapshotAt reports of one ring for one window. */
  function Window(log: seq<nat>, now: int, window: nat): nat {
    Total(RingOf(log), MinuteAt(now - window), MinuteAt(now))
  }

  /** The five minutes and the hour are exact for events up to now. */
  lemma ShortWindows(log: seq<nat>, now: nat, window: nat)
    requires Ascending(log) && Countable(log) && window <= DAY - MINUTE && window <= now
    requires |log| > 0 ==> log[|log| - 1] <= MinuteAt(now)
    ensures Window(log, now, window) == Events(log, MinuteAt(now - window), MinuteAt(now))
  {
    hide RingOf, Total;
    MinuteIs(now);
    MinuteIs(now - window);
    ShortRangeIsExact(log, MinuteAt(now - window), MinuteAt(now));
  }

  /**
   * The day spans 1441 minutes, one more than there are slots, so for events up to now it is exact if and only if
   * the first of them and the last do not both have events.
   */
  lemma DayWindow(log: seq<nat>, now: nat)
    requires Ascending(log) && Countable(log) && DAY <= now
    requires |log| > 0 ==> log[|log| - 1] <= MinuteAt(now)
    ensures Window(log, now, DAY) == Events(log, MinuteAt(now - DAY), MinuteAt(now))
            <==> !(MinuteAt(now - DAY) in log && MinuteAt(now) in log)
  {
    hide RingOf, Total, Slot;
    var lo, hi := MinuteAt(now - DAY), MinuteAt(now);
    MinuteIs(now);
    MinuteIs(now - DAY);
    assert hi == lo + SLOTS;
    RingIsLog(log, lo, hi);
    EdgeSlots(lo);
    if lo in log && hi in log {
      var i :| 0 <= i < |log| && log[i] == lo;
      var j :| 0 <= j < |log| && log[j] == hi;
      assert Reused(log, i, j, lo, hi);
    } else {
      forall i, j | 0 <= i < j < |log| && lo <= log[i] < log[j] ensures Slot(log[i]) != Slot(log[j]) {
        assert log[j] <= log[|log| - 1];
        assert log[i] in log && log[j] in log;
        ApartSlots(log[i], log[j]);
      }
    }
  }

  lemma EdgeSlots(lo: nat)
    ensures Slot(lo) == Slot(lo + SLOTS)
  {
  }

  lemma ApartSlots(a: nat, b: nat)
    requires a < b < a + SLOTS
    ensures Slot(a) != Slot(b)
  {
  }

  // ---- the tracker ----------------------------------------------------------------------

  datatype Counts = Counts(sent: nat, lost: nat)

  class Tracker {
    var lastSent: int
    const sentBuckets: array<nat>
    const lostBuckets: array<nat>
    ghost var sentLog: seq<nat>
    ghost var lostLog: seq<nat>

    ghost predicate Valid()
      reads this, sentBuckets, lostBuckets
    {
      && sentBuckets != lostBuckets
      && sentBuckets[..] == RingOf(sentLog) && lostBuckets[..] == RingOf(lostLog)
    }

    constructor ()
      ensures Valid() && sentLog == [] && lostLog == [] && fresh(sentBuckets) && fresh(lostBuckets)
    {
      lastSent := 0;
      sentBuckets := new nat[SLOTS](_ => 0);
      lostBuckets := new nat[SLOTS](_ => 0);
      sentLog, lostLog := [], [];
    }

    /** Counts one event in the bucket of its minute, starting the bucket afresh for a new minute. */
    static method IncrementBucket(buckets: array<nat>, minute: nat)
      requires buckets.Length == SLOTS
      modifies buckets
      ensures buckets[..] == Bump(old(buckets[..]), minute)
    {
      hide Pack, MinuteOf, CountOf;
      var i := Slot(minute);
      var current := buckets[i];
      if MinuteOf(current) == minute {
        if CountOf(current) == COUNT_LIMIT - 1 {
          assert buckets[..] == old(buckets[..])[i := current];
          return;
        }
        buckets[i] := Pack(minute, CountOf(current) + 1);
      } else {
        buckets[i] := Pack(minute, 1);
      }
    }

    static method CountBucketsInRange(buckets: array<nat>, lo: nat, hi: nat) returns (total: nat)
      ensures total == Total(buckets[..], lo, hi)
    {
      total := 0;
      var i := 0;
      while i < buckets.Length
        invariant i <= buckets.Length && total == Total(buckets[..i], lo, hi)
      {
        assert buckets[..i + 1][..i] == buckets[..i];
        if lo <= MinuteOf(buckets[i]) <= hi {
          total := total + CountOf(buckets[i]);
        }
        i := i + 1;
      }
      assert buckets[..i] == buckets[..];
    }

    method NoteHeartbeatSentAt(now: int)
      requires Valid()
      modifies this, sentBuckets
      ensures Valid() && sentLog == old(sentLog) + [MinuteAt(now)] && lostLog == old(lostLog) && lastSent == now
    {
      lastSent := now;
      IncrementBucket(sentBuckets, MinuteAt(now));
      sentLog := sentLog + [MinuteAt(now)];
      assert sentLog[..|sentLog| - 1] == old(sentLog);
    }

    method NoteHeartbeatLostAt(now: int)
      requires Valid()
      modifies this, lostBuckets
      ensures Valid() && lostLog == old(lostLog) + [MinuteAt(now)]
      ensures sentLog == old(sentLog) && lastSent == old(lastSent)
    {
      IncrementBucket(lostBuckets, MinuteAt(now));
      lostLog := lostLog + [MinuteAt(now)];
      assert lostLog[..|lostLog| - 1] == old(lostLog);
    }

    /** The counts of the last five minutes, hour and day. */
    method SnapshotAt(now: int) returns (m5: Counts, h1: Counts, h24: Counts)
      requires Valid()
      ensures m5 == Counts(Window(sentLog, now, FIVE_MINUTES), Window(lostLog, now, FIVE_MINUTES))
      ensures h1 == Counts(Window(sentLog, now, HOUR), Window(lostLog, now, HOUR))
      ensures h24 == Counts(Window(sentLog, now, DAY), Window(lostLog, now, DAY))
    {
      m5 := Counted(now, FIVE_MINUTES);
      h1 := Counted(now, HOUR);
      h24 := Counted(now, DAY);
    }

    method Counted(now: int, window: nat) returns (c: Counts)
      requires Valid()
      ensures c == Counts(Window(sentLog, now, window), Window(lostLog, now, window))
    {
      var lo, hi := MinuteAt(now - window), MinuteAt(now);
      var sent := CountBucketsInRange(sentBuckets, lo, hi);
      var lost := CountBucketsInRange(lostBuckets, lo, hi);
      c := Counts(sent, lost);
    }
  }
}
