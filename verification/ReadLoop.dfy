/** readLoop of src/tcp_tunnel.go: one reused buffer, proved to handle what Framing.Parse finds in the whole stream. */
module ReadLoop {
  import opened Bytes
  import opened BigEndian
  import opened Framing

  /** A packet handed to the router: its bytes lie in a buffer. */
  datatype Routed = Routed(buf: array<byte>, off: nat, len: nat)

  class TcpTunnelReader {
    const e: Env
    var buffer: array<byte>
    var used: nat
    var expected: nat
    var auth: bool
    var isOpen: bool
    var routed: seq<Routed>

    ghost var msgs: seq<Bytes>
    ghost var data: seq<Bytes>
    ghost var handed: set<array<byte>>

    /** Packets routed still hold the messages they were made from, in buffers the loop no longer writes to. */
    ghost predicate Valid()
      reads this`buffer, this`used, this`routed, this`data, this`handed, buffer, handed
    {
      && e.Valid() && buffer.Length == e.bufferOffset + e.bufferSize
      && used <= e.bufferSize && buffer !in handed
      && Intact(routed, data, handed)
    }

    /** The bytes from processed on that are in the buffer but not yet handled. */
    ghost function Region(processed: nat): Bytes
      requires Valid() && processed <= used
      reads this`buffer, this`used, this`routed, this`data, this`handed, buffer, handed
    {
      buffer[e.bufferOffset + processed..e.bufferOffset + used]
    }

    ghost function View(processed: nat): Conn
      requires Valid() && processed <= used
      reads this, buffer, handed
    {
      Conn(auth, isOpen, msgs, data, Region(processed))
    }

    constructor (e: Env)
      requires e.Valid()
      ensures Valid() && this.e == e && View(0) == Start && expected == 0 && used == 0 && fresh(buffer) && handed == {}
    {
      this.e := e;
      buffer := new byte[e.bufferOffset + e.bufferSize](_ => 0);
      used, expected, auth, isOpen, routed := 0, 0, false, true, [];
      msgs, data, handed := [], [], {};
    }

    /** A packet in a buffer of its own. */
    method CopyOut(processed: nat, total: nat) returns (packet: Routed)
      requires Valid() && processed + total <= used
      ensures fresh(packet.buf) && packet.len == total && packet.off + total <= packet.buf.Length
      ensures packet.buf[packet.off..packet.off + total] == Region(processed)[..total]
    {
      hide Intact;
      var copied := new byte[e.bufferOffset + e.bufferSize](_ => 0);
      forall i | 0 <= i < total {
        copied[e.bufferOffset + i] := buffer[e.bufferOffset + processed + i];
      }
      packet := Routed(copied, e.bufferOffset, total);
    }

    /** A data message becomes a packet: in place when it is the last thing in the buffer, else a copy. */
    method Route(processed: nat, total: nat)
      requires Valid() && HEADER_SIZE <= total && processed + total <= used
      modifies this`buffer, this`routed, this`data, this`handed
      ensures Valid() && data == old(data) + [old(Region(processed)[..total])]
      ensures Region(processed + total) == old(Region(processed + total))
      ensures fresh(handed - old(handed) - {old(buffer)})
      ensures buffer == old(buffer) || fresh(buffer)
    {
      hide Intact;
      ghost var msg := Region(processed)[..total];
      var packet: Routed;
      if used - processed == total {
        packet := Routed(buffer, e.bufferOffset + processed, total);
        buffer := new byte[e.bufferOffset + e.bufferSize](_ => 0);
      } else {
        packet := CopyOut(processed, total);
      }
      IntactAppend(routed, data, handed, packet, msg);
      routed := routed + [packet];
      data := data + [msg];
      handed := handed + {packet.buf};
    }

    /** The part of the buffer that a message takes, and what is behind it. */
    lemma MessageAt(processed: nat, total: nat)
      requires Valid() && processed + total <= used
      ensures var start := e.bufferOffset + processed;
              Region(processed)[..total] == buffer[start..start + total]
              && Region(processed)[total..] == Region(processed + total)
              && |Region(processed)| == used - processed
              && (total > 1 ==> Region(processed)[..total][1] == buffer[start + 1])
    {
      hide Intact;
      SliceOfSlice(buffer[..], e.bufferOffset + processed, e.bufferOffset + used, 0, total);
      SliceOfSlice(buffer[..], e.bufferOffset + processed, e.bufferOffset + used, total, used - processed);
    }

    /** A message on an authenticated connection: data is routed, a disconnect ends it. */
    method HandleAuthed(processed: nat, total: nat)
      requires Valid() && isOpen && auth && processed + total <= used
      requires Look(e, auth, Region(processed)) == Message(total)
      modifies this`buffer, this`routed, this`data, this`handed, this`isOpen, this`msgs
      ensures Valid() && View(processed + total) == Advance(e, old(View(processed)))
      ensures fresh(handed - old(handed) - {old(buffer)})
      ensures buffer == old(buffer) || fresh(buffer)
    {
      hide Get, Intact, Look, Advance, Region;
      AdvanceIs(e, View(processed));
      MessageAt(processed, total);
      var typ := buffer[e.bufferOffset + processed + 1];
      msgs := msgs + [Region(processed)[..total]];
      if typ == DATA {
        Route(processed, total);
      } else if typ == DISCONNECT {
        isOpen := false;
      }
    }

    /** The handshake authenticates the connection or ends it. */
    method HandleHandshake(processed: nat, total: nat)
      requires Valid() && isOpen && !auth && processed + total <= used
      requires Look(e, auth, Region(processed)) == Message(total)
      modifies this`auth, this`isOpen, this`msgs
      ensures Valid() && View(processed + total) == Advance(e, old(View(processed)))
    {
      hide Get, Intact, Look, Advance;
      AdvanceIs(e, View(processed));
      MessageAt(processed, total);
      var start := e.bufferOffset + processed;
      msgs := msgs + [Region(processed)[..total]];
      if Expects(e, buffer[start + 1]) && e.accepts(buffer[start..start + total]) {
        auth := true;
      } else {
        isOpen := false;
      }
    }

    /** One complete message, before or after authentication. */
    method HandleMessage(processed: nat, total: nat)
      requires Valid() && isOpen && processed + total <= used
      requires Look(e, auth, Region(processed)) == Message(total)
      modifies this`buffer, this`routed, this`data, this`handed, this`auth, this`isOpen, this`msgs
      ensures Valid() && View(processed + total) == Advance(e, old(View(processed)))
      ensures fresh(handed - old(handed) - {old(buffer)})
      ensures buffer == old(buffer) || fresh(buffer)
    {
      hide Get, Intact, Look, Advance;
      if auth {
        HandleAuthed(processed, total);
      } else {
        HandleHandshake(processed, total);
      }
    }

    /** Reads the header at processed, if it is there. */
    method Peek(processed: nat) returns (front: Front)
      requires Valid() && processed < used
      modifies this`expected
      ensures front == Look(e, auth, Region(processed))
      ensures !front.Bad? ==> expected == Expected(Region(processed))
      ensures front.Message? ==> front.total == expected && HEADER_SIZE <= expected <= used - processed
    {
      hide Get, Intact;
      ghost var rest := Region(processed);
      if used - processed < HEADER_SIZE {
        expected := 0;
        return More;
      }
      var header := e.bufferOffset + processed;
      var announced := Get(buffer[header + 4..header + 8]);
      SliceOfSlice(buffer[..], header, e.bufferOffset + used, 4, 8);
      assert rest[4..8] == buffer[header + 4..header + 8];
      if (auth && announced > e.bufferSize) || (!auth && announced != HANDSHAKE_SIZE) {
        return Bad;
      }
      expected := HEADER_SIZE + announced;
      return if used - processed < expected then More else Message(expected);
    }

    /** One turn of the inner loop; more is false when it stops, or ends the connection. */
    method ProcessOne(from: nat) returns (processed: nat, more: bool)
      requires Valid() && isOpen && from < used
      modifies this`buffer, this`routed, this`data, this`handed, this`auth, this`isOpen, this`msgs, this`expected
      ensures Valid() && from <= processed <= used && (more ==> isOpen && from < processed && expected == 0)
      ensures Parse(e, View(processed)) == Parse(e, old(View(from)))
      ensures !more ==> Parse(e, View(processed)) == View(processed)
      ensures isOpen && !more ==> expected == Expected(Region(processed))
      ensures fresh(handed - old(handed) - {old(buffer)})
      ensures buffer == old(buffer) || fresh(buffer)
    {
      hide Get, Look, Parse, Advance, Expected, Intact;
      ghost var c := View(from);
      var front := Peek(from);
      processed := from;
      match front {
        case More =>
          more := false;
          ParseMore(e, c);
        case Bad =>
          isOpen, more := false, false;
          ParseBad(e, c);
          ParseClosed(e, View(from));
        case Message(total) =>
          ParseMessage(e, c);
          HandleMessage(from, total);
          processed := from + total;
          more := isOpen;
          if isOpen {
            expected := 0;
          } else {
            ParseClosed(e, View(processed));
          }
      }
    }

    /** The inner loop: handles every complete message in the buffer. */
    method Process() returns (processed: nat)
      requires Valid() && isOpen && (used == 0 ==> expected == 0)
      modifies this`buffer, this`routed, this`data, this`handed, this`auth, this`isOpen, this`msgs, this`expected
      ensures Valid() && processed <= used
      ensures View(processed) == Parse(e, old(View(0)))
      ensures isOpen ==> expected == Expected(Region(processed))
      ensures fresh(handed - old(handed) - {old(buffer)})
      ensures buffer == old(buffer) || fresh(buffer)
    {
      hide Parse, Expected, Intact;
      ghost var final := Parse(e, View(0));
      var more := true;
      processed := 0;
      while more && processed < used
        invariant Valid() && processed <= used && Parse(e, View(processed)) == final
        invariant more ==> isOpen && (processed == used ==> expected == 0)
        invariant !more ==> View(processed) == final && (isOpen ==> expected == Expected(Region(processed)))
        invariant fresh(handed - old(handed) - {old(buffer)})
        invariant buffer == old(buffer) || fresh(buffer)
        decreases used - processed, more
      {
        processed, more := ProcessOne(processed);
      }
      if more {
        ParseNothing(e, View(processed));
        NothingExpected(Region(processed));
      }
    }

    /** Appends n bytes read from the connection. */
    method Fill(bytes: Bytes)
      requires Valid() && used + |bytes| <= e.bufferSize
      modifies this`used, buffer
      ensures Valid() && used == old(used) + |bytes| && Region(0) == old(Region(0)) + bytes
    {
      hide Intact;
      var at := e.bufferOffset + used;
      forall i | 0 <= i < |bytes| { buffer[at + i] := bytes[i]; }
      used := used + |bytes|;
      assert buffer[at..at + |bytes|] == bytes;
      assert buffer[..at] == old(buffer[..at]);
      assert Region(0) == buffer[..at][e.bufferOffset..] + buffer[at..at + |bytes|];
    }

    /** Moves what is left to the front of the buffer. */
    method Shift(processed: nat)
      requires Valid() && processed <= used
      modifies this`used, buffer
      ensures Valid() && used == old(used) - processed && Region(0) == old(Region(processed))
    {
      hide Intact;
      if 0 < processed < used {
        forall i | 0 <= i < used - processed {
          buffer[e.bufferOffset + i] := buffer[e.bufferOffset + processed + i];
        }
      }
      used := used - processed;
    }

    /** Between reads: the buffer holds one incomplete message and knows how long it is, and there is room to read. */
    ghost predicate Ready()
      reads this, buffer, handed
    {
      && Valid()
      && (isOpen ==> used < e.bufferSize && expected == Expected(Region(0)) && Look(e, auth, Region(0)).More?)
    }

    /**
     * One turn of readLoop: takes up to want of the bytes there are, never past the end of the message begun, and
     * handles what is complete. The connection stays open as the parser says, unless the buffer is full.
     */
    method ReadOnce(avail: Bytes, want: nat) returns (n: nat)
      requires Ready() && isOpen
      modifies this, buffer
      ensures Ready() && n <= |avail| && (want > 0 && |avail| > 0 ==> n > 0)
      ensures old(used) + n <= e.bufferSize
      ensures old(|Region(0)|) >= 8 ==> old(used) + n <= 8 + old(Get(Region(0)[4..8]))
      ensures Agrees(Parse(e, Arrive(old(View(0)), avail[..n])))
      ensures old(msgs) <= msgs && AllFit(e, msgs[|old(msgs)|..])
      ensures fresh(handed - old(handed) - {old(buffer)})
      ensures buffer == old(buffer) || fresh(buffer)
    {
      hide Get, Parse, Intact;
      var readSize := e.bufferSize - used;
      if expected > 0 && expected - used < readSize {
        readSize := expected - used;
      }
      n := Min(Min(want, readSize), |avail|);
      Fill(avail[..n]);
      ghost var c := View(0);
      var processed := Process();
      ParseStops(e, c);
      ParsedFit(e, c);
      if !isOpen {
        return;
      }
      Shift(processed);
      if used == e.bufferSize && processed == 0 {
        isOpen := false;
      }
    }

    /** The state is what the parser makes of the stream, and the connection is open while the rest fits the buffer. */
    ghost predicate Agrees(c: Conn)
      requires Valid()
      reads this, buffer, handed
    {
      && auth == c.auth && msgs == c.msgs && data == c.data
      && (isOpen <==> c.open && |c.rest| < e.bufferSize)
      && (isOpen ==> View(0) == c)
    }

    /**
     * For every way of cutting the input into reads, the messages handled and routed are exactly those the parser finds
     * in the n bytes consumed; while the connection is open, every read makes progress.
     */
    method Run(input: Bytes, wants: seq<nat>) returns (n: nat)
      requires Ready() && isOpen
      modifies this, buffer
      ensures Ready() && n <= |input|
      ensures Agrees(Parse(e, Arrive(old(View(0)), input[..n])))
      ensures old(msgs) <= msgs && AllFit(e, msgs[|old(msgs)|..])
      ensures fresh(handed - old(handed) - {old(buffer)}) && (buffer == old(buffer) || fresh(buffer))
      ensures isOpen && (forall i :: 0 <= i < |wants| ==> wants[i] > 0) ==> n == |input| || n >= |wants|
    {
      hide Get, Parse, Intact, Look, Expected, AllFit;
      ghost var c := View(0);
      n := 0;
      assert AllFit(e, msgs[|msgs|..]) by { FitNothing(e, msgs); }
      ParseMore(e, c);
      assert Arrive(c, input[..0]) == c by { assert c.rest + input[..0] == c.rest; }
      var i := 0;
      ghost var handed0, buffer0, msgs0 := handed, buffer, msgs;
      while i < |wants| && isOpen
        invariant Ready() && i <= |wants| && n <= |input|
        invariant fresh(handed - handed0 - {buffer0}) && (buffer == buffer0 || fresh(buffer))
        invariant Agrees(Parse(e, Arrive(c, input[..n])))
        invariant msgs0 <= msgs && AllFit(e, msgs[|msgs0|..])
        invariant (forall i :: 0 <= i < |wants| ==> wants[i] > 0) ==> n == |input| || n >= i
      {
        ghost var msgs1 := msgs;
        var k := ReadOnce(input[n..], wants[i]);
        FitChains(e, msgs0, msgs1, msgs);
        ReadChains(e, c, input, n, k);
        n := n + k;
        i := i + 1;
      }
    }

    /**
     * An authenticated peer writes messages that pass the size check. However the stream is cut into reads, exactly the
     * messages before the first that does not fit the buffer with its header are handled, and the connection is still
     * open at the end exactly if there is no such message.
     */
    method Receive(sent: seq<Bytes>, wants: seq<nat>) returns (n: nat)
      requires Ready() && isOpen && auth && Region(0) == [] && AllWellFormed(e, sent)
      requires |wants| >= |Flatten(sent)| && forall i :: 0 <= i < |wants| ==> wants[i] > 0
      modifies this, buffer
      ensures Ready() && auth && n <= |Flatten(sent)|
      ensures msgs == old(msgs) + sent[..FittingPrefix(e, sent)]
      ensures data == old(data) + DataAmong(sent[..FittingPrefix(e, sent)])
      ensures isOpen <==> AllFit(e, sent)
      ensures isOpen ==> n == |Flatten(sent)| && Region(0) == []
      ensures fresh(handed - old(handed) - {old(buffer)}) && (buffer == old(buffer) || fresh(buffer))
    {
      hide Get, Parse, Intact, Look, Fed, FittingPrefix;
      ghost var c := View(0);
      n := Run(Flatten(sent), wants);
      assert c.msgs == old(msgs) && c.data == old(data);
      ReceivedExactly(e, c, sent, n, Parse(e, Arrive(c, Flatten(sent)[..n])), isOpen);
    }
  }

  /** What a reader that stopped after n bytes has handled. */
  lemma ReceivedExactly(e: Env, c: Conn, sent: seq<Bytes>, n: nat, c1: Conn, open: bool)
    requires e.Valid() && c.auth && c.open && c.rest == [] && AllWellFormed(e, sent) && n <= |Flatten(sent)|
    requires c1 == Parse(e, Arrive(c, Flatten(sent)[..n])) && (open <==> c1.open && |c1.rest| < e.bufferSize)
    requires c.msgs <= c1.msgs && AllFit(e, c1.msgs[|c.msgs|..]) && (open ==> n == |Flatten(sent)|)
    ensures c1.auth && (open <==> AllFit(e, sent)) && (open ==> c1.rest == [])
    ensures c1.msgs == c.msgs + sent[..FittingPrefix(e, sent)]
    ensures c1.data == c.data + DataAmong(sent[..FittingPrefix(e, sent)])
  {
    hide Get, Parse, Look, Fed, FittingPrefix;
    var k := PartParses(e, c, sent, n);
    FedMessages(c, sent[..k]);
    FedState(c, sent[..k]);
    if k == |sent| { assert sent[..k] == sent; }
    assert c1.msgs[|c.msgs|..] == sent[..k];
    FirstOversize(e, sent, k);
  }

  // ---- an example -----------------------------------------------------------------------

  /** A message of a type with a payload of zeros. */
  function Plain(typ: byte, size: nat): Bytes { [0, typ, 0, 0] + Put(4, size) + seq(size, _ => 0) }

  lemma PlainIs(typ: byte, size: nat)
    requires size < Limit(4)
    ensures var m := Plain(typ, size);
            |m| == HEADER_SIZE + size && m[1] == typ && m[4..8] == Put(4, size) && Get(m[4..8]) == size
  {
    GetPut(4, size);
    assert Plain(typ, size)[4..8] == Put(4, size);
  }

  lemma SizesFit()
    ensures 1500 < Limit(4)
  {
    assert Limit(1) == 256 && Limit(2) == 256 * Limit(1) && Limit(3) >= Limit(2) && Limit(4) >= Limit(3);
  }

  /** Any part of a handshake leaves the connection open, all of it authenticates it. */
  lemma HandshakeParses(e: Env, n: nat)
    requires e.listens && e.bufferSize == 1500 && e.accepts(Plain(AUTH_CHALLENGE, HANDSHAKE_SIZE))
    requires n <= HEADER_SIZE + HANDSHAKE_SIZE
    ensures var m := Plain(AUTH_CHALLENGE, HANDSHAKE_SIZE);
            |m| == HEADER_SIZE + HANDSHAKE_SIZE
            && Parse(e, Arrive(Start, m[..n]))
               == if n < |m| then Arrive(Start, m[..n]) else Conn(true, true, [m], [], [])
  {
    SizesFit();
    PlainIs(AUTH_CHALLENGE, HANDSHAKE_SIZE);
    hide Get, Plain;
    var m := Plain(AUTH_CHALLENGE, HANDSHAKE_SIZE);
    assert [] + m[..n] == m[..n];
    if HEADER_SIZE <= n { assert m[..n][4..8] == m[4..8]; }
    if n == |m| {
      assert m[..n] == m && m[n..] == [];
      ParseMessage(e, Arrive(Start, m));
      assert [] + [m] == [m];
      ParseNothing(e, Advance(e, Arrive(Start, m)));
    } else {
      ParseMore(e, Arrive(Start, m[..n]));
    }
  }

  /** With the default buffer of 1500 bytes, a data message of 1500 passes the size check and ends the connection. */
  method OversizeCloses() returns (r: TcpTunnelReader)
    ensures fresh(r) && r.Ready() && r.e.bufferSize == 1500 && r.auth && !r.isOpen && r.data == []
  {
    hide Get, Parse, Look, Intact, Plain, Limit, Flatten, FittingPrefix, AllWellFormed;
    var e := Env(true, 64, 1500, _ => true);
    r := new TcpTunnelReader(e);
    SizesFit();
    PlainIs(AUTH_CHALLENGE, HANDSHAKE_SIZE);
    PlainIs(DATA, 1500);
    var handshake, big := Plain(AUTH_CHALLENGE, HANDSHAKE_SIZE), Plain(DATA, 1500);
    StartReady(e);
    var n := r.Run(handshake, seq(|handshake|, _ => 1));
    HandshakeParses(e, n);
    assert n == |handshake|;
    BigSent(e, big);
    n := r.Receive([big], seq(|big|, _ => 1500));
    NoneFits(e, big);
  }

  lemma StartReady(e: Env)
    ensures Look(e, false, []).More? && Expected([]) == 0 && Arrive(Start, []) == Start
  {
  }

  lemma BigSent(e: Env, m: Bytes)
    requires WellFormed(e, m)
    ensures AllWellFormed(e, [m]) && Flatten([m]) == m
  {
    FlattenAppend([], m);
    assert [] + [m] == [m] && [] + m == m;
  }

  lemma NoneFits(e: Env, m: Bytes)
    requires |m| > e.bufferSize
    ensures FittingPrefix(e, [m]) == 0 && !AllFit(e, [m]) && DataAmong([m][..0]) == []
  {
    assert [m][..0] == [];
    assert [m][0] == m;
  }

  /** Each packet lies in a buffer of its own among those handed over, and still reads as its message. */
  ghost predicate Intact(routed: seq<Routed>, data: seq<Bytes>, handed: set<array<byte>>)
    reads handed
  {
    && |routed| == |data|
    && (forall i, j :: 0 <= i < j < |routed| ==> routed[i].buf != routed[j].buf)
    && (forall i :: 0 <= i < |routed| ==>
          && routed[i].buf in handed && routed[i].off + routed[i].len <= routed[i].buf.Length
          && routed[i].buf[routed[i].off..routed[i].off + routed[i].len] == data[i])
  }

  lemma IntactAppend(routed: seq<Routed>, data: seq<Bytes>, handed: set<array<byte>>, packet: Routed, msg: Bytes)
    requires Intact(routed, data, handed) && packet.off + packet.len <= packet.buf.Length
    requires packet.buf[packet.off..packet.off + packet.len] == msg && packet.buf !in handed
    ensures Intact(routed + [packet], data + [msg], handed + {packet.buf})
  {
  }

  lemma ParseMore(e: Env, c: Conn)
    requires Look(e, c.auth, c.rest).More?
    ensures Parse(e, c) == c
  {
  }

  /** What becomes of a connection by its next message. */
  lemma AdvanceIs(e: Env, c: Conn)
    requires Look(e, c.auth, c.rest).Message?
    ensures HEADER_SIZE <= Look(e, c.auth, c.rest).total <= |c.rest|
    ensures var msg := c.rest[..Look(e, c.auth, c.rest).total];
            var accepted := Expects(e, msg[1]) && e.accepts(msg);
            Advance(e, c)
            == Conn(c.auth || accepted, c.open && if c.auth then msg[1] != DISCONNECT else accepted, c.msgs + [msg],
                    if c.auth && msg[1] == DATA then c.data + [msg] else c.data, c.rest[|msg|..])
  {
  }

  lemma FitNothing(e: Env, msgs: seq<Bytes>)
    ensures AllFit(e, msgs[|msgs|..])
  {
  }

  lemma FitChains(e: Env, a: seq<Bytes>, b: seq<Bytes>, c: seq<Bytes>)
    requires a <= b <= c && AllFit(e, b[|a|..]) && AllFit(e, c[|b|..])
    ensures AllFit(e, c[|a|..])
  {
    assert c[|a|..] == b[|a|..] + c[|b|..];
  }

  /** Reading n bytes and then k more is reading n + k. */
  lemma ReadChains(e: Env, c: Conn, input: Bytes, n: nat, k: nat)
    requires n <= |input| && k <= |input[n..]|
    ensures Parse(e, Arrive(c, input[..n + k])) == Parse(e, Arrive(Parse(e, Arrive(c, input[..n])), input[n..][..k]))
  {
    hide Parse;
    assert input[..n + k] == input[..n] + input[n..][..k];
    ArriveTwice(c, input[..n], input[n..][..k]);
    ParseResumes(e, Arrive(c, input[..n]), input[n..][..k]);
  }

  lemma ArriveTwice(c: Conn, a: Bytes, b: Bytes)
    ensures Arrive(c, a + b) == Arrive(Arrive(c, a), b)
  {
    assert c.rest + (a + b) == c.rest + a + b;
  }

  lemma NothingExpected(rest: Bytes)
    requires rest == []
    ensures Expected(rest) == 0
  {
  }

  lemma ParseNothing(e: Env, c: Conn)
    requires c.rest == []
    ensures Parse(e, c) == c
  {
  }

  lemma ParseBad(e: Env, c: Conn)
    requires c.open && Look(e, c.auth, c.rest).Bad?
    ensures Parse(e, c) == c.(open := false)
  {
  }

  lemma ParseMessage(e: Env, c: Conn)
    requires c.open && Look(e, c.auth, c.rest).Message?
    ensures Parse(e, c) == Parse(e, Advance(e, c))
  {
  }

  lemma ParseClosed(e: Env, c: Conn)
    requires !c.open
    ensures Parse(e, c) == c
  {
  }
}
