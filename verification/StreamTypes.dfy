/** Frames, segments and the sequence-number space of one TCP stream (src/tcp_stream.go). */
module StreamTypes {
  import opened Bytes

  const INIT_WINDOW := 65536
  const MILLISECOND := 1_000_000
  const SECOND := 1_000_000_000
  const INIT_RTO := SECOND
  const MIN_RTO := 200 * MILLISECOND
  const MAX_RTO := 10 * SECOND

  datatype Kind = Open | Data | Fin | Ack | Rst

  datatype Frame = Frame(
    kind: Kind, fromClient: bool, probe: bool, outOfOrder: bool,
    num: int, ack: int, wnd: int, payload: Bytes)
  {
    predicate Segment() { kind == Open || kind == Data || kind == Fin }
  }

  /** What a sender queues: an OPEN, some bytes, or the FIN. */
  datatype Item = Item(kind: Kind, data: Bytes) {
    function Len(): nat { if kind == Data then |data| else 1 }
  }

  /** A tcpSegment record. */
  datatype Segment = Segment(num: int, kind: Kind, data: Bytes, sentAt: int, retrans: bool) {
    function Len(): nat { if kind == Data then |data| else 1 }
    function End(): int { num + Len() }
  }

  /** Sequence numbers taken by a list of items. */
  function Size(log: seq<Item>): nat {
    if |log| == 0 then 0 else Size(log[..|log| - 1]) + log[|log| - 1].Len()
  }

  /** The sequence number at which item i of the log starts. */
  function Start(log: seq<Item>, i: nat): nat
    requires i <= |log|
  {
    Size(log[..i])
  }

  /** The stream bytes among a list of items. */
  function DataOf(log: seq<Item>): Bytes {
    if |log| == 0 then []
    else DataOf(log[..|log| - 1]) + (if log[|log| - 1].kind == Data then log[|log| - 1].data else [])
  }

  /** Sequence numbers taken by items that carry no stream bytes. */
  function Controls(log: seq<Item>): nat {
    if |log| == 0 then 0
    else Controls(log[..|log| - 1]) + (if log[|log| - 1].kind == Data then 0 else 1)
  }

  ghost predicate Positive(log: seq<Item>) {
    forall i :: 0 <= i < |log| ==> log[i].Len() > 0
  }

  ghost predicate EndsWithFin(log: seq<Item>) {
    |log| > 0 && log[|log| - 1].kind == Fin
  }

  lemma Append(log: seq<Item>, it: Item)
    ensures Size(log + [it]) == Size(log) + it.Len()
    ensures DataOf(log + [it]) == DataOf(log) + (if it.kind == Data then it.data else [])
    ensures Controls(log + [it]) == Controls(log) + (if it.kind == Data then 0 else 1)
  {
    assert (log + [it])[..|log|] == log;
  }

  lemma StartNext(log: seq<Item>, i: nat)
    requires i < |log|
    ensures Start(log, i + 1) == Start(log, i) + log[i].Len()
  {
    assert log[..i + 1][..i] == log[..i];
  }

  lemma StartEnd(log: seq<Item>)
    ensures Start(log, |log|) == Size(log)
    ensures Start(log, 0) == 0
  {
    assert log[..|log|] == log;
  }

  lemma StartPrefix(a: seq<Item>, b: seq<Item>, i: nat)
    requires a <= b && i <= |a|
    ensures Start(a, i) == Start(b, i)
  {
    assert a[..i] == b[..i];
  }

  lemma {:induction false} StartMonotone(log: seq<Item>, i: nat, j: nat)
    requires i <= j <= |log|
    ensures Start(log, i) <= Start(log, j)
    ensures i < j && Positive(log) ==> Start(log, i) < Start(log, j)
    decreases j
  {
    if i < j {
      StartMonotone(log, i, j - 1);
      StartNext(log, j - 1);
    }
  }

  /** Starts identify items: the heart of duplicate detection. */
  lemma StartInjective(log: seq<Item>, i: nat, j: nat)
    requires Positive(log) && i <= |log| && j <= |log|
    ensures Start(log, i) == Start(log, j) <==> i == j
    ensures Start(log, i) < Start(log, j) <==> i < j
  {
    if i < j { StartMonotone(log, i, j); }
    if j < i { StartMonotone(log, j, i); }
  }

  lemma {:induction false} SizeSplits(log: seq<Item>)
    ensures Size(log) == Controls(log) + |DataOf(log)|
  {
    if |log| > 0 { SizeSplits(log[..|log| - 1]); }
  }

  lemma {:induction false} DataOfPrefix(a: seq<Item>, b: seq<Item>)
    requires a <= b
    ensures DataOf(a) <= DataOf(b)
    decreases |b|
  {
    if |a| < |b| {
      DataOfPrefix(a, b[..|b| - 1]);
    } else {
      assert a == b;
    }
  }

  ghost predicate ItemAt(log: seq<Item>, i: int, num: int, kind: Kind, data: Bytes) {
    0 <= i < |log| && num == Start(log, i) && log[i] == Item(kind, data)
  }

  /** Some item of the log starts at num and is exactly (kind, data). */
  ghost predicate Queued(log: seq<Item>, num: int, kind: Kind, data: Bytes) {
    exists i :: ItemAt(log, i, num, kind, data)
  }

  ghost predicate BoundaryAt(log: seq<Item>, k: int, ack: int) {
    0 <= k <= |log| && ack == Start(log, k)
  }

  /** ack falls between two items of the log. */
  ghost predicate Boundary(log: seq<Item>, ack: int) {
    exists k :: BoundaryAt(log, k, ack)
  }

  lemma QueuedGrows(a: seq<Item>, b: seq<Item>, num: int, kind: Kind, data: Bytes)
    requires a <= b && Queued(a, num, kind, data)
    ensures Queued(b, num, kind, data)
  {
    var i :| ItemAt(a, i, num, kind, data);
    StartPrefix(a, b, i);
    assert ItemAt(b, i, num, kind, data);
  }

  lemma BoundaryGrows(a: seq<Item>, b: seq<Item>, ack: int)
    requires a <= b && Boundary(a, ack)
    ensures Boundary(b, ack)
  {
    var k :| BoundaryAt(a, k, ack);
    StartPrefix(a, b, k);
    assert BoundaryAt(b, k, ack);
  }
}
