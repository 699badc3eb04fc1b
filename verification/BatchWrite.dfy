/** Writing a batch of packets to the tunnel socket, part by part (writeLoop of src/tcp_tunnel.go). */
module BatchWrite {
  import opened Bytes
  import opened Options

  datatype Outcome = Done | Timeout | Failed

  /** Packet i of the batch was released when written bytes of the batch were on the socket. */
  datatype Release = Release(i: nat, written: nat)

  /** Bytes of the first i packets. */
  function End(all: seq<Bytes>, i: nat): nat
    requires i <= |all|
  {
    |Flatten(all[..i])|
  }

  /** (index, offset) points just past the bytes on the socket. */
  predicate At(all: seq<Bytes>, index: nat, offset: nat, wire: Bytes) {
    && index <= |all| && (if index < |all| then offset <= |all[index]| else offset == 0)
    && wire <= Flatten(all) && |wire| == End(all, index) + offset
  }

  /** Released in order, each after its last byte. */
  predicate InTurn(all: seq<Bytes>, log: seq<Release>, n: nat) {
    && |log| == n <= |all|
    && forall k :: 0 <= k < n ==> log[k].i == k && log[k].written >= End(all, k + 1)
  }

  lemma {:induction false} FlattenPrefix(all: seq<Bytes>, i: nat)
    requires i <= |all|
    ensures Flatten(all[..i]) <= Flatten(all)
  {
    FlattenConcat(all[..i], all[i..]);
    assert all == all[..i] + all[i..];
  }

  lemma EndNext(all: seq<Bytes>, i: nat)
    requires i < |all|
    ensures End(all, i + 1) == End(all, i) + |all[i]| <= |Flatten(all)|
  {
    assert all[..i + 1] == all[..i] + [all[i]];
    FlattenAppend(all[..i], all[i]);
    FlattenPrefix(all, i + 1);
  }

  lemma EndLast(all: seq<Bytes>)
    ensures End(all, |all|) == |Flatten(all)| && End(all, 0) == 0
  {
    assert all[..|all|] == all;
  }

  /** Bytes on the socket and the position determine each other, packet boundaries aside. */
  lemma PositionIsBytes(all: seq<Bytes>, index: nat, offset: nat, wire: Bytes)
    requires At(all, index, offset, wire)
    ensures wire == Flatten(all[..index]) + if index < |all| then all[index][..offset] else []
  {
    if index < |all| {
      EndNext(all, index);
      FlattenPrefix(all, index + 1);
      assert all[..index + 1] == all[..index] + [all[index]];
      FlattenAppend(all[..index], all[index]);
      assert wire == Flatten(all[..index + 1])[..|wire|];
    } else {
      EndLast(all);
      assert all[..index] == all;
    }
  }

  /** What is left of the buffers after n bytes: net.Buffers drops those written, and empty ones behind them. */
  function Consume(buffers: seq<Bytes>, n: nat): seq<Bytes> {
    if |buffers| == 0 then []
    else if |buffers[0]| > n then [buffers[0][n..]] + buffers[1..]
    else Consume(buffers[1..], n - |buffers[0]|)
  }

  lemma {:induction false} ConsumeDrops(buffers: seq<Bytes>, n: nat)
    requires n <= |Flatten(buffers)|
    ensures Flatten(Consume(buffers, n)) == Flatten(buffers)[n..]
  {
    if |buffers| > 0 {
      FlattenHead(buffers);
      if |buffers[0]| > n {
        FlattenHead([buffers[0][n..]] + buffers[1..]);
        assert ([buffers[0][n..]] + buffers[1..])[1..] == buffers[1..];
      } else {
        ConsumeDrops(buffers[1..], n - |buffers[0]|);
      }
    }
  }

  class Writer {
    var batch: seq<Option<Bytes>>
    var buffers: seq<Bytes>
    var index: nat
    var offset: nat

    ghost var all: seq<Bytes>
    ghost var wire: Bytes
    ghost var log: seq<Release>

    // An error after which the batch is given up has occurred.
    ghost var fatal: bool

    /** Packets before the position are released, those from it on are held. */
    ghost predicate Writing(done: Bytes)
      reads this
    {
      && At(all, index, offset, done) && done <= wire
      && |batch| == |all|
      && (forall i :: 0 <= i < index ==> batch[i] == None)
      && (forall i :: index <= i < |all| ==> batch[i] == Some(all[i]))
      && InTurn(all, log, index)
    }

    /** A batch just popped from the queue. */
    constructor (packets: seq<Bytes>)
      ensures Writing([]) && all == packets && wire == [] && log == [] && index == 0 && !fatal
    {
      batch := seq(|packets|, i requires 0 <= i < |packets| => Some(packets[i]));
      buffers, index, offset := [], 0, 0;
      all, wire, log, fatal := packets, [], [], false;
      new;
      EndLast(packets);
    }

    /** Gives back the packet at the position and moves past it. */
    method ReleaseCurrent(ghost done: Bytes)
      requires Writing(done) && index < |all| && offset == |all[index]|
      requires |done| <= |wire|
      modifies this`batch, this`index, this`offset, this`log
      ensures Writing(done) && index == old(index) + 1 && offset == 0
    {
      hide End;
      EndNext(all, index);
      log := log + [Release(index, |wire|)];
      batch := batch[index := None];
      index := index + 1;
      offset := 0;
    }

    /** Moves the position past the bytes just written, releasing each packet that is complete. */
    method Advance(written: nat, ghost done: Bytes)
      requires Writing(done) && wire <= Flatten(all) && |wire| == |done| + written
      modifies this`batch, this`index, this`offset, this`log
      ensures Writing(wire)
    {
      hide End, InTurn, Flatten;
      ghost var d := done;
      var left := written;
      while left > 0 && index < |batch|
        invariant Writing(d) && wire <= Flatten(all) && |wire| == |d| + left
        decreases left, |batch| - index
      {
        if batch[index] == None {
          assert false;
        }
        var packetLen := |batch[index].value| - offset;
        if packetLen <= 0 {
          ReleaseCurrent(d);
          continue;
        }
        EndNext(all, index);
        if left < packetLen {
          offset := offset + left;
          return;
        }
        left := left - packetLen;
        d := wire[..|d| + packetLen];
        offset := offset + packetLen;
        ReleaseCurrent(d);
      }
      EndLast(all);
    }

    /** Releases whatever is still held and forgets the batch. */
    method ReleaseBatch()
      requires Writing(wire)
      modifies this`batch, this`buffers, this`index, this`offset, this`log
      ensures batch == [] && buffers == [] && index == 0 && offset == 0
      ensures |log| == |all| && forall k :: 0 <= k < |all| ==> log[k].i == k
      ensures wire == Flatten(all) ==> forall k :: 0 <= k < |all| ==> log[k].written >= End(all, k + 1)
      ensures forall k :: 0 <= k < |all| ==> log[k].written >= End(all, k + 1) || log[k].written == |wire|
    {
      hide End, Flatten;
      Ends(all);
      var i := 0;
      while i < |batch|
        invariant index == old(index) && |batch| == |all| && i <= |all| && old(log) <= log
        invariant forall j :: i <= j < |all| ==> batch[j] == if j < index then None else Some(all[j])
        invariant |log| == if i <= index then index else i
        invariant forall k :: 0 <= k < |log| ==> log[k].i == k
        invariant forall k :: index <= k < |log| ==> log[k].written == |wire|
      {
        if batch[i] != None {
          log := log + [Release(i, |wire|)];
          batch := batch[i := None];
        }
        i := i + 1;
      }
      batch, buffers, index, offset := [], [], 0, 0;
    }

    /** The kernel takes all bytes, or stops early with an error after any number of them. */
    method WriteTo() returns (n: nat, outcome: Outcome)
      modifies this`buffers, this`wire, this`fatal
      ensures fatal == (old(fatal) || outcome == Failed || (outcome == Timeout && n == 0))
      ensures old(wire) + Flatten(old(buffers)) == wire + Flatten(buffers)
      ensures old(wire) <= wire && |wire| == |old(wire)| + n
      ensures outcome == Done ==> buffers == []
    {
      hide Consume;
      var total := Flatten(buffers);
      if * {
        n, outcome := |total|, Done;
        wire := wire + total;
        buffers := [];
        assert Flatten(buffers) == [];
      } else {
        assert 0 <= |total|;
        n :| n <= |total|;
        ConsumeDrops(buffers, n);
        wire := wire + total[..n];
        buffers := Consume(buffers, n);
        if * { outcome := Timeout; } else { outcome := Failed; }
        fatal := fatal || outcome == Failed || n == 0;
      }
    }

    /** SetWriteDeadline, which may fail. */
    method SetDeadline() returns (failed: bool)
      modifies this`fatal
      ensures fatal == (old(fatal) || failed)
    {
      failed := *;
      fatal := fatal || failed;
    }

    /** The buffers to write: the data of every packet held. */
    method Gather()
      requires Writing([]) && index == 0
      modifies this`buffers
      ensures buffers == all
    {
      buffers := [];
      var i := 0;
      while i < |batch|
        invariant i <= |batch| && buffers == all[..i]
      {
        if batch[i] != None {
          buffers := buffers + [batch[i].value];
        }
        i := i + 1;
      }
    }

    /**
     * sendPacketBatch. Every packet is released exactly once, in order; what is on the socket is a prefix of the
     * batch's bytes, all of them if the batch was sent; a packet is released before its last byte is written only if
     * the batch is abandoned; and it is abandoned exactly on a write error, a timeout without progress, or a deadline
     * that cannot be set.
     */
    method Send(connected: bool) returns (ok: bool)
      requires Writing([]) && wire == [] && index == 0 && log == [] && !fatal
      modifies this
      ensures all == old(all) && wire <= Flatten(all)
      ensures |log| == |all| && forall k :: 0 <= k < |all| ==> log[k].i == k
      ensures connected ==> (ok <==> !fatal)
      ensures ok && connected ==> wire == Flatten(all)
      ensures ok && connected ==> forall k :: 0 <= k < |all| ==> log[k].written >= End(all, k + 1)
      ensures forall k :: 0 <= k < |all| ==> log[k].written >= End(all, k + 1) || log[k].written == |wire|
    {
      hide End, Flatten, At, InTurn;
      AtStart(all, offset);
      if |batch| == 0 {
        NoBytes(all);
        return true;
      }
      if !connected {
        ReleaseBatch();
        return true;
      }
      var failed := SetDeadline();
      if failed {
        ReleaseBatch();
        return false;
      }
      Gather();
      index, offset := 0, 0;
      while |buffers| > 0
        invariant Writing(wire) && wire + Flatten(buffers) == Flatten(all) && all == old(all) && !fatal
        decreases |Flatten(buffers)|, |buffers|
      {
        ghost var before := wire;
        var n, outcome := WriteTo();
        Advance(n, before);
        if outcome == Timeout && n > 0 {
          failed := SetDeadline();
          if failed {
            ReleaseBatch();
            return false;
          }
          continue;
        }
        if outcome != Done {
          ReleaseBatch();
          return false;
        }
      }
      NoBytes(buffers);
      ReleaseBatch();
      ok := true;
    }
  }

  lemma AtStart(all: seq<Bytes>, offset: nat)
    requires At(all, 0, offset, [])
    ensures offset == 0
  {
    EndLast(all);
  }

  lemma Ends(all: seq<Bytes>)
    ensures forall k :: 0 <= k <= |all| ==> End(all, k) <= |Flatten(all)|
  {
    forall k | 0 <= k <= |all| ensures End(all, k) <= |Flatten(all)| { FlattenPrefix(all, k); }
  }

  lemma NoBytes(all: seq<Bytes>)
    requires |all| == 0
    ensures Flatten(all) == []
  {
  }
}
