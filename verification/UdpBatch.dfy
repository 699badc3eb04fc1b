/** Batched UDP sends with GSO and reads with GRO (src/udp_batch.go). */
module UdpBatch {
  import opened Bytes
  import opened Options

  const MAX_SEGS := 64
  const MAX_PAYLOAD := 65000
  const MAX_SEG_SIZE := 1452
  const MIN_SEG_SIZE := 576
  const MAX_SHRINK := 8

  // ---- addresses ------------------------------------------------------------------------

  datatype Addr = Udp(ip: Bytes, port: nat, zone: string) | Other(id: int)

  const MappedPrefix: Bytes := [0, 0, 0, 0, 0, 0, 0, 0, 0, 0, 255, 255]

  /** The IPv4 form of an address that has one. */
  function Plain(ip: Bytes): Bytes { if |ip| == 16 && ip[..12] == MappedPrefix then ip[12..] else ip }

  /** sameUDPAddr: an IPv4 address equals its IPv6 form. */
  predicate SameAddr(a: Addr, b: Addr) {
    a == b || (a.Udp? && b.Udp? && a.port == b.port && Plain(a.ip) == Plain(b.ip) && a.zone == b.zone)
  }

  /** An address in the one form it has for the network: IPv4 in four bytes. */
  function Canonical(a: Addr): Addr {
    match a
    case Udp(ip, port, zone) => Udp(if |ip| == 16 && ip[..12] == MappedPrefix then ip[12..] else ip, port, zone)
    case Other(id) => Other(id)
  }

  /** sameUDPAddr holds of addresses that are the same to the network, and of no others. */
  lemma SameIsCanonical(a: Addr, b: Addr)
    ensures SameAddr(a, b) <==> Canonical(a) == Canonical(b)
  {
  }

  /** Addresses are absent on a connected socket. */
  predicate SameDest(a: Option<Addr>, b: Option<Addr>) {
    if a.Some? && b.Some? then Canonical(a.value) == Canonical(b.value) else a == b
  }

  function DestOf(addrs: Option<seq<Addr>>, i: nat): Option<Addr>
    requires addrs.Some? ==> i < |addrs.value|
  {
    if addrs.Some? then Some(addrs.value[i]) else None
  }

  // ---- messages -------------------------------------------------------------------------

  /** What sendmmsg is given: seg is the segment size of a GSO message, or 0. */
  datatype Message = Message(buffers: seq<Bytes>, addr: Option<Addr>, seg: nat)

  datatype Datagram = Datagram(data: Bytes, addr: Option<Addr>)

  /** A payload in segments, the last one possibly shorter. */
  function Cut(b: Bytes, seg: nat): seq<Bytes>
    requires seg > 0
  {
    if |b| <= seg then [b] else [b[..seg]] + Cut(b[seg..], seg)
  }

  /** The datagrams the kernel makes of a message. */
  function Out(m: Message): seq<Datagram> {
    var pieces := if m.seg > 0 then Cut(Flatten(m.buffers), m.seg) else [Flatten(m.buffers)];
    seq(|pieces|, i requires 0 <= i < |pieces| => Datagram(pieces[i], m.addr))
  }

  function OutAll(msgs: seq<Message>): seq<Datagram> {
    if |msgs| == 0 then [] else OutAll(msgs[..|msgs| - 1]) + Out(msgs[|msgs| - 1])
  }

  /** All datagrams are full segments but for the last, and none is empty. */
  predicate IsRun(buffers: seq<Bytes>, seg: nat) {
    && |buffers| > 0 && 0 < |buffers[|buffers| - 1]| <= seg
    && forall i :: 0 <= i < |buffers| - 1 ==> |buffers[i]| == seg
  }

  /** A message of one datagram, or a GSO run within the kernel's limits. */
  predicate Good(m: Message, gso: bool, maxSeg: nat) {
    || (|m.buffers| == 1 && m.seg == 0)
    || (gso && 1 < |m.buffers| <= MAX_SEGS && m.seg <= maxSeg && |Flatten(m.buffers)| <= MAX_PAYLOAD
        && IsRun(m.buffers, m.seg))
  }

  /** A run put together and cut at its segment size is the run. */
  lemma {:induction false} CutRun(buffers: seq<Bytes>, seg: nat)
    requires IsRun(buffers, seg)
    ensures seg > 0 && Cut(Flatten(buffers), seg) == buffers
  {
    FlattenHead(buffers);
    var first, rest := buffers[0], buffers[1..];
    if |buffers| == 1 {
      FlattenOne(first);
      assert buffers == [first];
    } else {
      assert IsRun(rest, seg);
      FlattenHead(rest);
      CutRun(rest, seg);
      assert (first + Flatten(rest))[..seg] == first && (first + Flatten(rest))[seg..] == Flatten(rest);
      assert buffers == [first] + rest;
    }
  }

  /** The datagram behind a run cannot join it. */
  predicate IsComplete(buffers: seq<Bytes>, next: Bytes, sameDest: bool, gso: bool, maxSeg: nat)
    requires |buffers| > 0
  {
    || !gso || |buffers| == MAX_SEGS || !sameDest
    || |buffers[0]| == 0 || |buffers[0]| > maxSeg || |buffers[|buffers| - 1]| < |buffers[0]|
    || |next| == 0 || |next| > |buffers[0]| || |Flatten(buffers)| + |next| > MAX_PAYLOAD
  }

  /** The kernel makes of a message the datagrams it was built from. */
  lemma OutIsBuffers(m: Message, gso: bool, maxSeg: nat)
    requires Good(m, gso, maxSeg)
    ensures |Out(m)| == |m.buffers|
    ensures forall i :: 0 <= i < |m.buffers| ==> Out(m)[i] == Datagram(m.buffers[i], m.addr)
  {
    if m.seg > 0 {
      CutRun(m.buffers, m.seg);
    } else {
      FlattenHead(m.buffers);
      assert m.buffers[1..] == [];
    }
  }

  /** A message holds datagrams at.. of the batch, all for the same destination. */
  predicate Carries(m: Message, data: seq<Bytes>, addrs: Option<seq<Addr>>, at: nat)
    requires addrs.Some? ==> |addrs.value| == |data|
  {
    && at + |m.buffers| <= |data| && m.buffers == data[at..at + |m.buffers|]
    && forall i :: at <= i < at + |m.buffers| ==> SameDest(m.addr, DestOf(addrs, i))
  }

  /** Where message k starts, or the last one ends. */
  function EndOf(msgs: seq<Message>, starts: seq<nat>, k: nat): nat
    requires k <= |starts| <= |msgs|
  {
    if k == 0 then 0 else starts[k - 1] + |msgs[k - 1].buffers|
  }

  /** The messages hold the first datagrams of the batch, in order and without a gap. */
  ghost predicate Built(msgs: seq<Message>, starts: seq<nat>, data: seq<Bytes>, addrs: Option<seq<Addr>>,
          gso: bool, maxSeg: nat)
    requires addrs.Some? ==> |addrs.value| == |data|
  {
    && |starts| <= |msgs|
    && forall k :: 0 <= k < |starts| ==>
         starts[k] == EndOf(msgs, starts, k) && Good(msgs[k], gso, maxSeg) && Carries(msgs[k], data, addrs, starts[k])
  }

  /** Exactly datagrams 0 to n - 1 went out, each once, in order, each to its own address. */
  ghost predicate Reached(out: seq<Datagram>, data: seq<Bytes>, addrs: Option<seq<Addr>>, n: nat)
    requires addrs.Some? ==> |addrs.value| == |data|
  {
    && |out| == n <= |data|
    && forall i :: 0 <= i < n ==> out[i].data == data[i] && SameDest(out[i].addr, DestOf(addrs, i))
  }

  lemma MessageReaches(out: seq<Datagram>, m: Message, data: seq<Bytes>, addrs: Option<seq<Addr>>, at: nat,
          gso: bool, maxSeg: nat)
    requires addrs.Some? ==> |addrs.value| == |data|
    requires Reached(out, data, addrs, at) && Good(m, gso, maxSeg) && Carries(m, data, addrs, at)
    ensures Reached(out + Out(m), data, addrs, at + |m.buffers|)
  {
    hide Out, Good, SameDest;
    OutIsBuffers(m, gso, maxSeg);
  }

  /** Message k lies within the batch, and has company only with GSO on. */
  lemma BuiltAt(msgs: seq<Message>, starts: seq<nat>, data: seq<Bytes>, addrs: Option<seq<Addr>>, gso: bool,
          maxSeg: nat, k: nat)
    requires addrs.Some? ==> |addrs.value| == |data|
    requires Built(msgs, starts, data, addrs, gso, maxSeg) && k < |starts|
    ensures |starts| <= |msgs| && starts[k] == EndOf(msgs, starts, k)
    ensures EndOf(msgs, starts, k + 1) == starts[k] + |msgs[k].buffers| <= |data| && |msgs[k].buffers| > 0
    ensures Good(msgs[k], gso, maxSeg) && Carries(msgs[k], data, addrs, starts[k])
    ensures |msgs[k].buffers| > 1 ==> gso
  {
  }

  lemma BuiltAppend(msgs: seq<Message>, starts: seq<nat>, data: seq<Bytes>, addrs: Option<seq<Addr>>, gso: bool,
          maxSeg: nat, m: Message)
    requires addrs.Some? ==> |addrs.value| == |data|
    requires Built(msgs, starts, data, addrs, gso, maxSeg) && |starts| < |msgs|
    requires Good(m, gso, maxSeg) && Carries(m, data, addrs, EndOf(msgs, starts, |starts|))
    ensures var msgs', starts' := msgs[|starts| := m], starts + [EndOf(msgs, starts, |starts|)];
            && Built(msgs', starts', data, addrs, gso, maxSeg)
            && EndOf(msgs', starts', |starts'|) == EndOf(msgs, starts, |starts|) + |m.buffers|
  {
    hide Good, Carries;
  }

  lemma {:induction false} MessagesReach(out: seq<Datagram>, msgs: seq<Message>, starts: seq<nat>, data: seq<Bytes>,
                      addrs: Option<seq<Addr>>, a: nat, c: nat, gso: bool, maxSeg: nat)
    requires addrs.Some? ==> |addrs.value| == |data|
    requires Built(msgs, starts, data, addrs, gso, maxSeg) && a + c <= |starts|
    requires Reached(out, data, addrs, EndOf(msgs, starts, a))
    ensures Reached(out + OutAll(msgs[a..a + c]), data, addrs, EndOf(msgs, starts, a + c))
  {
    hide Out, OutAll, Good, Carries, Reached, Built, EndOf;
    BuiltSize(msgs, starts, data, addrs, gso, maxSeg);
    if c == 0 {
      assert msgs[a..a] == [];
      OutNothing(out);
    } else {
      var k := a + c - 1;
      MessagesReach(out, msgs, starts, data, addrs, a, c - 1, gso, maxSeg);
      BuiltAt(msgs, starts, data, addrs, gso, maxSeg, k);
      MessageReaches(out + OutAll(msgs[a..k]), msgs[k], data, addrs, starts[k], gso, maxSeg);
      OutNext(out, msgs[a..k], msgs[k]);
      assert msgs[a..k] + [msgs[k]] == msgs[a..a + c];
    }
  }

  lemma OutNothing(out: seq<Datagram>)
    ensures out + OutAll([]) == out
  {
  }

  lemma OutNext(out: seq<Datagram>, msgs: seq<Message>, m: Message)
    ensures out + OutAll(msgs + [m]) == out + OutAll(msgs) + Out(m)
  {
    hide Out;
    assert (msgs + [m])[..|msgs|] == msgs;
    assert out + OutAll(msgs) + Out(m) == out + (OutAll(msgs) + Out(m));
  }

  /** What a write of the rest reached counts for the whole. */
  lemma RestReaches(out: seq<Datagram>, more: seq<Datagram>, data: seq<Bytes>, addrs: Option<seq<Addr>>, done: nat,
          n: nat)
    requires addrs.Some? ==> |addrs.value| == |data|
    requires done <= |data| && Reached(out, data, addrs, done)
    requires Reached(more, data[done..], From(addrs, done), n)
    ensures Reached(out + more, data, addrs, done + n)
  {
    hide SameDest;
  }

  function From(addrs: Option<seq<Addr>>, done: nat): Option<seq<Addr>>
    requires addrs.Some? ==> done <= |addrs.value|
  {
    if addrs.Some? then Some(addrs.value[done..]) else None
  }

  /** A message the kernel did not take, and why. */
  datatype Refusal = Refusal(m: Message, why: Error)

  predicate Coalesced(m: Message) { |m.buffers| > 1 }

  /** The message that was not taken starts with datagram n. */
  ghost predicate Blames(refused: Message, data: seq<Bytes>, addrs: Option<seq<Addr>>, n: nat)
    requires addrs.Some? ==> |addrs.value| == |data|
  {
    && n < |data| && |refused.buffers| > 0
    && refused.buffers[0] == data[n] && SameDest(refused.addr, DestOf(addrs, n))
  }

  /** The last refusal of a log is why a write gave up at datagram n: no error that speaks against GSO, if coalesced. */
  ghost predicate GaveUp(log: seq<Refusal>, err: Error, data: seq<Bytes>, addrs: Option<seq<Addr>>, n: nat)
    requires addrs.Some? ==> |addrs.value| == |data|
  {
    && |log| > 0 && log[|log| - 1].why == err && Blames(log[|log| - 1].m, data, addrs, n)
    && (err == SizeError || err == GsoError ==> !Coalesced(log[|log| - 1].m))
  }

  /** Refusals a.. to b of a log were of coalesced messages, for reasons that speak against GSO. */
  predicate Retried(log: seq<Refusal>, a: nat, b: nat) {
    forall i :: a <= i < b <= |log| ==> Coalesced(log[i].m) && (log[i].why == SizeError || log[i].why == GsoError)
  }

  /** A refusal after which GSO is given up: not for the size, or with nothing left to make smaller. */
  predicate Final(r: Refusal, shrink: nat) {
    Coalesced(r.m) && (r.why == GsoError || (r.why == SizeError && (shrink == 8 || |r.m.buffers[0]| <= 576)))
  }

  lemma RestGaveUp(log: seq<Refusal>, err: Error, data: seq<Bytes>, addrs: Option<seq<Addr>>, done: nat, n: nat)
    requires addrs.Some? ==> |addrs.value| == |data|
    requires done <= |data| && GaveUp(log, err, data[done..], From(addrs, done), n)
    ensures GaveUp(log, err, data, addrs, done + n)
  {
    hide SameDest;
    RestBlames(log[|log| - 1].m, data, addrs, done, n);
  }

  lemma RestBlames(refused: Message, data: seq<Bytes>, addrs: Option<seq<Addr>>, done: nat, n: nat)
    requires addrs.Some? ==> |addrs.value| == |data|
    requires done <= |data| && Blames(refused, data[done..], From(addrs, done), n)
    ensures Blames(refused, data, addrs, done + n)
  {
    hide SameDest;
  }

  // ---- the kernel -----------------------------------------------------------------------

  /** SizeError: EINVAL or EMSGSIZE. GsoError: the other errors that speak against GSO. */
  datatype Error = Fine | SizeError | GsoError | OtherError | NoProgress

  predicate IsGsoError(err: Error) { err == SizeError || err == GsoError }

  /** A kernel that takes messages from the front, or refuses the first of them. */
  class Kernel {
    ghost var delivered: seq<Datagram>

    // The messages it did not take, and why.
    ghost var refusals: seq<Refusal>

    constructor ()
      ensures delivered == [] && refusals == []
    {
      delivered, refusals := [], [];
    }

    method WriteBatch(msgs: seq<Message>) returns (n: int, err: Error)
      requires |msgs| > 0
      modifies this
      ensures refusals == if err == Fine && n > 0 then old(refusals)
                          else old(refusals) + [Refusal(msgs[0], if err == Fine then NoProgress else err)]
      ensures err != NoProgress
      ensures err != Fine ==> delivered == old(delivered)
      ensures err == Fine ==> n <= |msgs| && delivered == old(delivered) + OutAll(msgs[..Max(n, 0)])
    {
      n := -1;
      if {
        case true =>
          assert 0 <= |msgs|;
          n :| n <= |msgs|;
          delivered := delivered + OutAll(msgs[..Max(n, 0)]);
          err := Fine;
        case true => err := SizeError;
        case true => err := GsoError;
        case true => err := OtherError;
      }
      if err != Fine || n <= 0 {
        refusals := refusals + [Refusal(msgs[0], if err == Fine then NoProgress else err)];
      }
    }

    method Send(d: Bytes, addr: Option<Addr>) returns (err: Error)
      modifies this
      ensures delivered == if err == Fine then old(delivered) + [Datagram(d, addr)] else old(delivered)
      ensures refusals == if err == Fine then old(refusals) else old(refusals) + [Refusal(Message([d], addr, 0), err)]
    {
      if * {
        delivered := delivered + [Datagram(d, addr)];
        err := Fine;
      } else {
        err := OtherError;
        refusals := refusals + [Refusal(Message([d], addr, 0), err)];
      }
    }
  }

  /** What a writer may coalesce. */
  datatype Limits = Limits(gso: bool, maxSeg: nat, shrink: nat)

  // ---- the writer -----------------------------------------------------------------------

  class Writer {
    const kernel: Kernel
    const batched: bool
    const slots: array<Message>
    var gso: bool
    var maxSeg: nat
    var shrink: nat

    predicate Valid()
      reads this
    {
      shrink <= MAX_SHRINK && (batched ==> slots.Length > 0)
    }

    ghost function Now(): Limits
      reads this
    {
      Limits(gso, maxSeg, shrink)
    }

    constructor (kernel: Kernel, batchSize: nat, offload: bool)
      ensures Valid() && this.kernel == kernel && fresh(slots) && gso == offload
    {
      this.kernel := kernel;
      batched := batchSize > 1 || offload;
      slots := new Message[Max(batchSize, 1)](_ => Message([], None, 0));
      gso, maxSeg, shrink := offload, MAX_SEG_SIZE, 0;
    }

    /** After a rejected GSO send: smaller segments, or none. */
    method OnGsoError(segSize: nat, err: Error)
      requires Valid() && gso
      modifies this`gso, this`maxSeg, this`shrink
      ensures Valid()
      ensures if err == SizeError && old(shrink) < MAX_SHRINK && segSize > MIN_SEG_SIZE
              then gso && shrink == old(shrink) + 1 && maxSeg == segSize - 1
              else !gso && shrink == old(shrink) && maxSeg == old(maxSeg)
    {
      if err == SizeError && shrink < MAX_SHRINK && segSize > MIN_SEG_SIZE {
        maxSeg := segSize - 1;
        shrink := shrink + 1;
        return;
      }
      gso := false;
    }

    /** One message: datagram at, and with GSO the run of equal-sized datagrams for the same destination behind it. */
    method BuildOne(data: seq<Bytes>, addrs: Option<seq<Addr>>, at: nat) returns (m: Message)
      requires (addrs.Some? ==> |addrs.value| == |data|) && at < |data|
      ensures Good(m, gso, maxSeg) && Carries(m, data, addrs, at)
      ensures at + |m.buffers| == |data| || IsComplete(m.buffers, data[at + |m.buffers|],
                SameDest(DestOf(addrs, at + |m.buffers|), m.addr), gso, maxSeg)
    {
      hide SameAddr, Canonical, Flatten;
      var buffers := [data[at]];
      var addr := DestOf(addrs, at);
      var segSize, total := |data[at]|, |data[at]|;
      var i := at + 1;
      FlattenOne(data[at]);
      var full := true;
      while full && gso && segSize > 0 && segSize <= maxSeg && i < |data| && |buffers| < MAX_SEGS
        invariant at < i <= |data| && |buffers| == i - at <= MAX_SEGS && buffers == data[at..i]
        invariant total == |Flatten(buffers)| && segSize == |data[at]| && (|buffers| > 1 ==> total <= MAX_PAYLOAD)
        invariant forall k :: at <= k < i ==> SameDest(addr, DestOf(addrs, k))
        invariant |buffers| > 1 ==> gso && segSize <= maxSeg && IsRun(buffers, segSize)
        invariant |buffers[|buffers| - 1]| <= segSize && (full <==> |buffers[|buffers| - 1]| == segSize)
        decreases |data| - i
      {
        var d := data[i];
        if |d| == 0 || |d| > segSize || total + |d| > MAX_PAYLOAD
           || (addrs.Some? && !SameAddr(addrs.value[i], addrs.value[at])) {
          if addrs.Some? { SameIsCanonical(addrs.value[i], addrs.value[at]); }
          break;
        }
        if addrs.Some? { SameIsCanonical(addrs.value[i], addrs.value[at]); }
        SameBothWays(DestOf(addrs, i), addr);
        FlattenAppend(buffers, d);
        buffers := buffers + [d];
        total := total + |d|;
        i := i + 1;
        full := |d| == segSize;
      }
      m := Message(buffers, addr, if |buffers| > 1 then segSize else 0);
    }

    /** One message per datagram or run, for as many as there are slots. */
    method Build(data: seq<Bytes>, addrs: Option<seq<Addr>>) returns (starts: seq<nat>)
      requires Valid() && batched && (addrs.Some? ==> |addrs.value| == |data|)
      modifies slots
      ensures Built(slots[..], starts, data, addrs, gso, maxSeg) && (|data| > 0 ==> |starts| > 0)
      ensures EndOf(slots[..], starts, |starts|) <= |data|
      ensures EndOf(slots[..], starts, |starts|) == |data| || |starts| == slots.Length
    {
      hide Good, Carries, Built;
      starts := [];
      var i := 0;
      assert Built(slots[..], [], data, addrs, gso, maxSeg) by { NothingBuilt(slots[..], data, addrs, gso, maxSeg); }
      while i < |data| && |starts| < slots.Length
        invariant i <= |data| && |starts| <= slots.Length && (i > 0 ==> |starts| > 0)
        invariant Built(slots[..], starts, data, addrs, gso, maxSeg)
        invariant i == EndOf(slots[..], starts, |starts|)
        decreases |data| - i
      {
        var m := BuildOne(data, addrs, i);
        assert 0 < |m.buffers| && i + |m.buffers| <= |data| by { CarriedFits(m, data, addrs, i, gso, maxSeg); }
        ghost var before := slots[..];
        BuiltAppend(before, starts, data, addrs, gso, maxSeg, m);
        slots[|starts|] := m;
        assert slots[..] == before[|starts| := m];
        starts := starts + [i];
        i := i + |m.buffers|;
      }
    }

    /** The loop that hands the messages to the kernel. */
    method SendBuilt(starts: seq<nat>, ghost data: seq<Bytes>, ghost addrs: Option<seq<Addr>>) returns (sent: nat,
            err: Error)
      requires addrs.Some? ==> |addrs.value| == |data|
      requires Built(slots[..], starts, data, addrs, gso, maxSeg)
      modifies kernel
      ensures sent <= |starts| && (err == Fine <==> sent == |starts|)
      ensures kernel.refusals == if err == Fine then old(kernel.refusals)
                                 else old(kernel.refusals) + [Refusal(slots[sent], err)]
      ensures old(kernel.delivered) <= kernel.delivered
      ensures Reached(kernel.delivered[|old(kernel.delivered)|..], data, addrs, EndOf(slots[..], starts, sent))
    {
      hide Good, Carries, Reached, Built, OutAll, EndOf;
      ghost var before := kernel.delivered;
      ghost var out: seq<Datagram> := [];
      sent, err := 0, Fine;
      assert |starts| <= slots.Length && EndOf(slots[..], starts, 0) == 0 && Reached([], data, addrs, 0) by {
        BuiltSize(slots[..], starts, data, addrs, gso, maxSeg);
      }
      while sent < |starts|
        invariant sent <= |starts| && kernel.delivered == before + out && err == Fine
        invariant kernel.refusals == old(kernel.refusals)
        invariant Reached(out, data, addrs, EndOf(slots[..], starts, sent))
        decreases |starts| - sent
      {
        var n;
        n, err := kernel.WriteBatch(slots[sent..|starts|]);
        if err != Fine {
          return;
        }
        if n <= 0 {
          err := NoProgress;
          assert slots[sent..|starts|][..0] == [];
          OutNothing(before + out);
          return;
        }
        MessagesReach(out, slots[..], starts, data, addrs, sent, n, gso, maxSeg);
        SliceOf(slots[..], sent, |starts|, n);
        assert slots[sent..|starts|] == slots[..][sent..|starts|];
        out := out + OutAll(slots[..][sent..sent + n]);
        sent := sent + n;
      }
    }

    /** The path without batching. */
    method SendEach(data: seq<Bytes>, addrs: Option<seq<Addr>>) returns (n: nat, err: Error)
      requires addrs.Some? ==> |addrs.value| == |data|
      modifies kernel
      ensures n <= |data| && (err == Fine <==> n == |data|)
      ensures old(kernel.delivered) <= kernel.delivered
      ensures Reached(kernel.delivered[|old(kernel.delivered)|..], data, addrs, n)
      ensures old(kernel.refusals) <= kernel.refusals
      ensures |kernel.refusals| == |old(kernel.refusals)| + if err == Fine then 0 else 1
      ensures err != Fine ==> GaveUp(kernel.refusals, err, data, addrs, n)
    {
      ghost var before := kernel.delivered;
      n, err := 0, Fine;
      while n < |data|
        invariant n <= |data| && before <= kernel.delivered && err == Fine && kernel.refusals == old(kernel.refusals)
        invariant Reached(kernel.delivered[|before|..], data, addrs, n)
      {
        err := kernel.Send(data[n], DestOf(addrs, n));
        if err != Fine {
          return;
        }
        n := n + 1;
      }
    }

    /**
     * Each datagram goes to its address, or to the connected peer. Whatever the kernel does, this ends, and exactly
     * the first n datagrams reached the kernel, each once, in order and to its own address; all of them if and only
     * if there is no error, and an error is the kernel's answer to a message that starts with datagram n, and never
     * one that speaks against GSO to a coalesced message. Such answers, and they alone, limit GSO or turn it off.
     */
    method Write(data: seq<Bytes>, addrs: Option<seq<Addr>>) returns (n: nat, err: Error)
      requires Valid() && (addrs.Some? ==> |addrs.value| == |data|)
      modifies this`gso, this`maxSeg, this`shrink, kernel, slots
      ensures Valid() && n <= |data| && (err == Fine <==> n == |data|)
      ensures old(kernel.delivered) <= kernel.delivered
      ensures Reached(kernel.delivered[|old(kernel.delivered)|..], data, addrs, n)
      ensures err != Fine ==> GaveUp(kernel.refusals, err, data, addrs, n)
      ensures Adapted(old(kernel.refusals), kernel.refusals, Last(err), old(Now()), Now())
      decreases if gso then 1 else 0, MAX_SHRINK - shrink, |data|
    {
      hide Good, Carries, Reached, Built, Blames, EndOf, Adapted, GaveUp;
      ghost var log0, limits0, before := kernel.refusals, Now(), kernel.delivered;
      if !batched {
        n, err := SendEach(data, addrs);
        NotAdapted(log0, kernel.refusals, Last(err), limits0);
        return;
      }
      var starts := Build(data, addrs);
      var sent;
      sent, err := SendBuilt(starts, data, addrs);
      ghost var out := kernel.delivered[|before|..];
      BuiltSize(slots[..], starts, data, addrs, gso, maxSeg);
      if err != Fine {
        BuiltAt(slots[..], starts, data, addrs, gso, maxSeg, sent);
        n := starts[sent];
        FirstBlamed(slots[sent], data, addrs, n);
        if |slots[sent].buffers| > 1 && IsGsoError(err) {
          CoalescedFits(slots[sent], gso, maxSeg);
          ghost var m, err1 := slots[sent], err;
          OnGsoError(|slots[sent].buffers[0]|, err);
          ghost var log1, limits1 := kernel.refusals, Now();
          OneAdapted(log0, m, err1, limits0, limits1);
          var more;
          more, err := Write(data[n..], From(addrs, n));
          AdaptedChains(log0, log1, kernel.refusals, Last(err), limits0, limits1, Now());
          RestWritten(before, out, kernel.delivered, kernel.refusals, err, data, addrs, n, more);
          n := n + more;
        } else {
          NotAdapted(log0, kernel.refusals, 1, limits0);
          Refused(log0, slots[sent], err, data, addrs, n);
        }
        return;
      }
      NotAdapted(log0, kernel.refusals, 0, limits0);
      if |starts| > 0 {
        BuiltAt(slots[..], starts, data, addrs, gso, maxSeg, |starts| - 1);
        var done := starts[|starts| - 1] + |slots[|starts| - 1].buffers|;
        if done < |data| {
          var more;
          more, err := Write(data[done..], From(addrs, done));
          RestWritten(before, out, kernel.delivered, kernel.refusals, err, data, addrs, done, more);
          n := done + more;
          return;
        }
      }
      n := |data|;
    }
  }

  /** Refusals that a write ends with: the one it gives up at. */
  function Last(err: Error): nat { if err == Fine then 0 else 1 }

  /**
   * Between two moments every refusal, but for the last few, was of a coalesced message for a reason against GSO; GSO
   * is never turned on and segments never grow; both stay as they are without such a refusal, and GSO is turned off
   * only by one that leaves nothing else to try.
   */
  ghost predicate Adapted(log: seq<Refusal>, log': seq<Refusal>, last: nat, a: Limits, b: Limits) {
    && log <= log' && |log| + last <= |log'| && Retried(log', |log|, |log'| - last)
    && (b.gso ==> a.gso) && b.maxSeg <= a.maxSeg && a.shrink <= b.shrink
    && (|log'| == |log| + last || !a.gso ==> b == a)
    && (a.gso && !b.gso ==> exists i :: |log| <= i < |log'| && Final(log'[i], b.shrink))
  }

  lemma NotAdapted(log: seq<Refusal>, log': seq<Refusal>, last: nat, a: Limits)
    requires log <= log' && |log'| == |log| + last
    ensures Adapted(log, log', last, a, a)
  {
  }

  lemma OneAdapted(log: seq<Refusal>, m: Message, err: Error, a: Limits, b: Limits)
    requires Coalesced(m) && (err == SizeError || err == GsoError)
    requires a.gso && |m.buffers[0]| <= a.maxSeg && a.shrink <= 8
    requires b == if err == SizeError && a.shrink < 8 && |m.buffers[0]| > 576
                  then Limits(true, |m.buffers[0]| - 1, a.shrink + 1) else Limits(false, a.maxSeg, a.shrink)
    ensures Adapted(log, log + [Refusal(m, err)], 0, a, b)
  {
    var log' := log + [Refusal(m, err)];
    assert log'[|log|] == Refusal(m, err);
    if !b.gso { assert Final(log'[|log|], b.shrink); }
  }

  lemma AdaptedChains(log: seq<Refusal>, log1: seq<Refusal>, log2: seq<Refusal>, last: nat, a: Limits, b: Limits,
          c: Limits)
    requires Adapted(log, log1, 0, a, b) && |log| < |log1| && a.gso
    requires Adapted(log1, log2, last, b, c)
    ensures Adapted(log, log2, last, a, c)
  {
    if !b.gso {
      var i :| |log| <= i < |log1| && Final(log1[i], b.shrink);
      assert log2[i] == log1[i];
    }
    forall i | |log| <= i < |log2| - last
      ensures Coalesced(log2[i].m) && (log2[i].why == SizeError || log2[i].why == GsoError)
    {
      if i < |log1| { assert log2[i] == log1[i]; }
    }
  }

  /** A write of the rest completes the whole. */
  lemma RestWritten(before: seq<Datagram>, out: seq<Datagram>, delivered: seq<Datagram>, log: seq<Refusal>, err: Error,
          data: seq<Bytes>, addrs: Option<seq<Addr>>, done: nat, more: nat)
    requires addrs.Some? ==> |addrs.value| == |data|
    requires done <= |data| && Reached(out, data, addrs, done) && before + out <= delivered
    requires Reached(delivered[|before + out|..], data[done..], From(addrs, done), more)
    requires err != Fine ==> GaveUp(log, err, data[done..], From(addrs, done), more)
    ensures Reached(delivered[|before|..], data, addrs, done + more)
    ensures err != Fine ==> GaveUp(log, err, data, addrs, done + more)
  {
    hide Reached, GaveUp;
    RestReaches(out, delivered[|before + out|..], data, addrs, done, more);
    if err != Fine { RestGaveUp(log, err, data, addrs, done, more); }
    assert delivered[|before|..] == out + delivered[|before + out|..];
  }

  lemma CoalescedFits(m: Message, gso: bool, maxSeg: nat)
    requires Good(m, gso, maxSeg) && Coalesced(m)
    ensures gso && |m.buffers[0]| <= maxSeg
  {
  }

  lemma Refused(log: seq<Refusal>, m: Message, err: Error, data: seq<Bytes>, addrs: Option<seq<Addr>>, n: nat)
    requires addrs.Some? ==> |addrs.value| == |data|
    requires Blames(m, data, addrs, n) && (Coalesced(m) ==> err != SizeError && err != GsoError)
    ensures GaveUp(log + [Refusal(m, err)], err, data, addrs, n)
  {
  }

  lemma SliceOf(msgs: seq<Message>, a: nat, b: nat, n: nat)
    requires a + n <= b <= |msgs|
    ensures msgs[a..b][..n] == msgs[a..a + n]
  {
  }

  lemma FirstBlamed(m: Message, data: seq<Bytes>, addrs: Option<seq<Addr>>, at: nat)
    requires addrs.Some? ==> |addrs.value| == |data|
    requires Carries(m, data, addrs, at) && |m.buffers| > 0
    ensures Blames(m, data, addrs, at)
  {
  }

  lemma FlattenOne(d: Bytes)
    ensures Flatten([d]) == d
  {
    FlattenAppend([], d);
    assert [] + [d] == [d];
  }

  lemma SameBothWays(a: Option<Addr>, b: Option<Addr>)
    ensures SameDest(a, b) <==> SameDest(b, a)
  {
  }

  lemma CarriedFits(m: Message, data: seq<Bytes>, addrs: Option<seq<Addr>>, at: nat, gso: bool, maxSeg: nat)
    requires addrs.Some? ==> |addrs.value| == |data|
    requires Good(m, gso, maxSeg) && Carries(m, data, addrs, at)
    ensures 0 < |m.buffers| && at + |m.buffers| <= |data|
  {
  }

  lemma NothingBuilt(msgs: seq<Message>, data: seq<Bytes>, addrs: Option<seq<Addr>>, gso: bool, maxSeg: nat)
    requires addrs.Some? ==> |addrs.value| == |data|
    ensures Built(msgs, [], data, addrs, gso, maxSeg)
  {
  }

  lemma BuiltSize(msgs: seq<Message>, starts: seq<nat>, data: seq<Bytes>, addrs: Option<seq<Addr>>, gso: bool,
          maxSeg: nat)
    requires addrs.Some? ==> |addrs.value| == |data|
    requires Built(msgs, starts, data, addrs, gso, maxSeg)
    ensures |starts| <= |msgs| && EndOf(msgs, starts, 0) == 0 && Reached([], data, addrs, 0)
  {
  }
}
