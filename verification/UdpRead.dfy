/** Splitting what UDP GRO coalesced back into datagrams (Read of src/udp_batch.go). */
module UdpRead {
  import opened Bytes
  import opened UdpBatch

  /** A message of one recvmmsg: seg is the segment size the kernel reported, or 0. */
  datatype Received = Received(payload: Bytes, addr: Addr, seg: nat)

  datatype ReadItem = ReadItem(buf: array<byte>, n: nat, addr: Addr)

  function Truncated(b: Bytes, maxLen: nat): Bytes { if |b| > maxLen then b[..maxLen] else b }

  /** The datagrams of a message: an empty one still is one. */
  function Split(m: Received): seq<Bytes> {
    if |m.payload| == 0 then [[]]
    else Cut(m.payload, if 0 < m.seg < |m.payload| then m.seg else |m.payload|)
  }

  type Piece = (Bytes, Addr)

  /** The pieces, each cut to the buffer size and with its sender. */
  function Items(pieces: seq<Bytes>, from: Addr, maxLen: nat): seq<Piece> {
    if |pieces| == 0 then [] else [(Truncated(pieces[0], maxLen), from)] + Items(pieces[1..], from, maxLen)
  }

  /** What a read makes of one message. */
  function Pieces(m: Received, gro: bool, maxLen: nat): seq<Piece> {
    if gro then Items(Split(m), m.addr, maxLen) else [(m.payload, m.addr)]
  }

  /** And of all messages. */
  function AllPieces(got: seq<Received>, gro: bool, maxLen: nat): seq<Piece> {
    if |got| == 0 then [] else AllPieces(got[..|got| - 1], gro, maxLen) + Pieces(got[|got| - 1], gro, maxLen)
  }

  lemma {:induction false} ItemsExact(pieces: seq<Bytes>, from: Addr, maxLen: nat)
    requires forall i :: 0 <= i < |pieces| ==> |pieces[i]| <= maxLen
    ensures |Items(pieces, from, maxLen)| == |pieces|
    ensures forall i :: 0 <= i < |pieces| ==> Items(pieces, from, maxLen)[i] == (pieces[i], from)
  {
    if |pieces| > 0 { ItemsExact(pieces[1..], from, maxLen); }
  }

  // ---- round trip -----------------------------------------------------------------------

  /**
   * A run built for GSO, received as one coalesced message with its segment size, is read back as exactly the
   * datagrams it was built from, if they fit the buffers.
   */
  lemma GsoGroRoundTrip(m: Message, gso: bool, maxSeg: nat, from: Addr, maxLen: nat)
    requires Good(m, gso, maxSeg) && |m.buffers| > 1
    requires forall i :: 0 <= i < |m.buffers| ==> |m.buffers[i]| <= maxLen
    ensures var read := Pieces(Received(Flatten(m.buffers), from, m.seg), true, maxLen);
            |read| == |m.buffers| && forall i :: 0 <= i < |m.buffers| ==> read[i] == (m.buffers[i], from)
  {
    ItemsExact(m.buffers, from, maxLen);
    CutRun(m.buffers, m.seg);
    LongerThanOne(m.buffers, m.seg);
  }

  lemma LongerThanOne(buffers: seq<Bytes>, seg: nat)
    requires IsRun(buffers, seg) && |buffers| > 1
    ensures |Flatten(buffers)| > seg
  {
    FlattenHead(buffers);
    var rest := buffers[1..];
    assert Flatten(rest) == Flatten(rest[..|rest| - 1]) + buffers[|buffers| - 1];
  }

  /** A datagram that was not coalesced is read as it is, an empty one included. */
  lemma SingleRoundTrip(d: Bytes, from: Addr, seg: nat, maxLen: nat)
    requires |d| <= maxLen && (seg == 0 || seg >= |d|)
    ensures Pieces(Received(d, from, seg), true, maxLen) == [(d, from)]
  {
    ItemsExact([d], from, maxLen);
  }

  /** Cutting loses nothing and makes no piece but the last shorter than the segment. */
  lemma {:induction false} CutKeepsBytes(b: Bytes, seg: nat)
    requires seg > 0
    ensures Flatten(Cut(b, seg)) == b
    ensures forall i :: 0 <= i < |Cut(b, seg)| - 1 ==> |Cut(b, seg)[i]| == seg
    ensures |Cut(b, seg)| > 0 && |Cut(b, seg)[|Cut(b, seg)| - 1]| <= seg
    decreases |b|
  {
    if |b| <= seg {
      FlattenHead([b]);
    } else {
      CutKeepsBytes(b[seg..], seg);
      FlattenHead(Cut(b, seg));
      assert Cut(b, seg)[1..] == Cut(b[seg..], seg);
      assert b == b[..seg] + b[seg..];
    }
  }

  // ---- the reader -----------------------------------------------------------------------

  /** Each item lies in a buffer of its own, shared with no other, at the given offset, and holds its piece. */
  ghost predicate Holds(items: seq<ReadItem>, want: seq<Piece>, off: nat, owned: set<array<byte>>)
    reads owned
  {
    && |items| == |want|
    && (forall i, j :: 0 <= i < j < |items| ==> items[i].buf != items[j].buf)
    && (forall i :: 0 <= i < |items| ==>
          && items[i].buf in owned && off + items[i].n <= items[i].buf.Length && items[i].addr == want[i].1
          && items[i].buf[off..off + items[i].n] == want[i].0)
  }

  lemma HoldsOne(items: seq<ReadItem>, want: seq<Piece>, off: nat, owned: set<array<byte>>, it: ReadItem, w: Piece)
    requires Holds(items, want, off, owned) && off + it.n <= it.buf.Length && it.addr == w.1
    requires it.buf[off..off + it.n] == w.0 && it.buf !in owned
    ensures Holds(items + [it], want + [w], off, owned + {it.buf})
  {
  }

  class Reader {
    const gro: bool
    const off: nat
    const size: nat
    const bufs: array<array<byte>>
    var items: seq<ReadItem>
    ghost var owned: set<array<byte>>

    /** The buffers read into are distinct, and none of them is one that was given away. */
    ghost predicate Valid()
      reads this, bufs
    {
      && (forall k :: 0 <= k < bufs.Length ==> bufs[k] !in owned && (gro || bufs[k].Length == off + size))
      && (forall j, k :: 0 <= j < k < bufs.Length ==> bufs[j] != bufs[k])
    }

    /** Message k, as the kernel left it in its buffer: at the front with GRO, behind the headroom without. */
    ghost predicate Received(k: nat, m: Received)
      requires k < bufs.Length
      reads this, bufs, bufs[k]
    {
      var at := if gro then 0 else off;
      at + |m.payload| <= bufs[k].Length && bufs[k][at..at + |m.payload|] == m.payload
    }

    /** A fresh buffer with a piece behind the headroom. */
    method CopyPiece(src: array<byte>, start: nat, end: nat) returns (buf: array<byte>, n: nat)
      requires start <= end <= src.Length
      ensures fresh(buf) && off + n <= buf.Length && buf[off..off + n] == Truncated(src[start..end], size)
    {
      n := Min(end - start, size);
      buf := new byte[off + size](_ => 0);
      forall i | 0 <= i < n { buf[off + i] := src[start + i]; }
      assert buf[off..off + n] == src[start..start + n];
      assert src[start..end][..n] == src[start..start + n];
    }

    /** Copies one piece of a coalesced message into a buffer of its own. */
    method Append(k: nat, start: nat, end: nat, addr: Addr, ghost want: seq<Piece>)
      requires Valid() && gro && k < bufs.Length && start <= end <= bufs[k].Length
      requires Holds(items, want, off, owned)
      modifies this`items, this`owned
      ensures Valid() && fresh(owned - old(owned))
      ensures |items| == |old(items)| + 1 && old(items) <= items && fresh(items[|old(items)|].buf)
      ensures Holds(items, want + [(Truncated(bufs[k][start..end], size), addr)], off, owned)
    {
      var buf, n := CopyPiece(bufs[k], start, end);
      ghost var piece := Truncated(bufs[k][start..end], size);
      HoldsOne(items, want, off, owned, ReadItem(buf, n, addr), (piece, addr));
      items := items + [ReadItem(buf, n, addr)];
      owned := owned + {buf};
    }

    /** Splits message k of a read. */
    method SplitMessage(k: nat, m: Received, ghost want: seq<Piece>)
      requires Valid() && gro && k < bufs.Length && Received(k, m) && Holds(items, want, off, owned)
      modifies this`items, this`owned
      ensures Valid() && fresh(owned - old(owned))
      ensures old(items) <= items && forall i :: |old(items)| <= i < |items| ==> fresh(items[i].buf)
      ensures Holds(items, want + Pieces(m, true, size), off, owned)
    {
      hide Cut, Items, Truncated, Holds;
      var n := |m.payload|;
      var seg := Max(n, 1);
      if 0 < m.seg < n {
        seg := m.seg;
      }
      SplitIsCut(m, seg);
      var start := 0;
      ghost var w := want;
      ghost var rest := Pieces(m, true, size);
      assert m.payload[0..] == m.payload;
      while start < Max(n, 1)
        invariant Valid() && fresh(owned - old(owned)) && Holds(items, w, off, owned)
        invariant old(items) <= items && forall i :: |old(items)| <= i < |items| ==> fresh(items[i].buf)
        invariant start < Max(n, 1) ==> start <= n && rest == Items(Cut(m.payload[start..], seg), m.addr, size)
        invariant start >= Max(n, 1) ==> rest == []
        invariant w + rest == want + Pieces(m, true, size)
        decreases Max(n, 1) - start
      {
        var end := Min(start + seg, n);
        ghost var piece := Truncated(m.payload[start..end], size);
        assert bufs[k][start..end] == m.payload[start..end];
        Append(k, start, end, m.addr, w);
        CutFirst(m.payload, start, seg, m.addr, size);
        assert rest == [(piece, m.addr)] + rest[1..];
        assert w + [(piece, m.addr)] + rest[1..] == w + rest;
        w := w + [(piece, m.addr)];
        rest := rest[1..];
        start := start + seg;
      }
      assert w == w + rest;
    }

    /** Gives the buffer of message k away and puts a fresh one in its slot. */
    method Handoff(k: nat, m: Received, ghost want: seq<Piece>)
      requires Valid() && !gro && k < bufs.Length && Received(k, m) && Holds(items, want, off, owned)
      modifies this`items, this`owned, bufs
      ensures Valid() && fresh(owned - old(owned) - {old(bufs[k])})
      ensures forall j :: 0 <= j < bufs.Length && j != k ==> bufs[j] == old(bufs[j])
      ensures fresh(bufs[k]) && items == old(items) + [ReadItem(old(bufs[k]), |m.payload|, m.addr)]
      ensures Holds(items, want + [(m.payload, m.addr)], off, owned)
    {
      var it := ReadItem(bufs[k], |m.payload|, m.addr);
      HoldsOne(items, want, off, owned, it, (m.payload, m.addr));
      items := items + [it];
      owned := owned + {bufs[k]};
      bufs[k] := new byte[off + size](_ => 0);
    }

    /**
     * What Read makes of the messages the kernel left in the buffers: one item for each datagram, in order, each in a
     * buffer of its own that the reader will not read into again.
     */
    method Read(got: seq<Received>) returns (n: nat)
      requires Valid() && |got| <= bufs.Length && forall k :: 0 <= k < |got| ==> Received(k, got[k])
      modifies this, bufs
      ensures Valid() && n == |items| && Holds(items, AllPieces(got, gro, size), off, owned)
    {
      hide Pieces, Holds;
      items := [];
      NoneHeld(off, owned);
      var i := 0;
      while i < |got|
        invariant Valid() && i <= |got| && Holds(items, AllPieces(got[..i], gro, size), off, owned)
        invariant forall k :: i <= k < |got| ==> bufs[k] == old(bufs[k]) && Received(k, got[k])
      {
        ghost var want := AllPieces(got[..i], gro, size);
        assert got[..i + 1][..i] == got[..i];
        if gro {
          SplitMessage(i, got[i], want);
        } else {
          Handoff(i, got[i], want);
          assert Pieces(got[i], false, size) == [(got[i].payload, got[i].addr)] by { OnePiece(got[i], size); }
        }
        i := i + 1;
      }
      assert got[..i] == got;
      n := |items|;
      HeldSize(items, AllPieces(got, gro, size), off, owned);
    }
  }

  /** The first piece of what is left of a message, and what is left then. */
  lemma CutFirst(b: Bytes, start: nat, seg: nat, from: Addr, maxLen: nat)
    requires seg > 0 && start <= |b|
    ensures var items := Items(Cut(b[start..], seg), from, maxLen);
            && |items| > 0 && items[0] == (Truncated(b[start..Min(start + seg, |b|)], maxLen), from)
            && items[1..] == if start + seg >= |b| then [] else Items(Cut(b[start + seg..], seg), from, maxLen)
  {
    hide Truncated;
    if start + seg >= |b| {
      assert b[start..|b|] == b[start..];
      assert Cut(b[start..], seg) == [b[start..]];
    } else {
      assert b[start..][..seg] == b[start..start + seg] && b[start..][seg..] == b[start + seg..];
      assert Cut(b[start..], seg) == [b[start..start + seg]] + Cut(b[start + seg..], seg);
      assert Cut(b[start..], seg)[1..] == Cut(b[start + seg..], seg);
    }
  }

  lemma NoneHeld(off: nat, owned: set<array<byte>>)
    ensures Holds([], [], off, owned)
  {
  }

  lemma HeldSize(items: seq<ReadItem>, want: seq<Piece>, off: nat, owned: set<array<byte>>)
    requires Holds(items, want, off, owned)
    ensures |items| == |want|
  {
  }

  lemma OnePiece(m: Received, maxLen: nat)
    ensures Pieces(m, false, maxLen) == [(m.payload, m.addr)]
  {
  }

  lemma SplitIsCut(m: Received, seg: nat)
    requires seg == if 0 < m.seg < |m.payload| then m.seg else Max(|m.payload|, 1)
    ensures Split(m) == Cut(m.payload, seg)
  {
  }
}
