/** The length-prefixed messages of a TCP tunnel connection (readLoop of src/tcp_tunnel.go), parsed from a stream. */
module Framing {
  import opened Bytes
  import opened BigEndian

  const HEADER_SIZE := 8
  const HANDSHAKE_SIZE := 88

  const AUTH_CHALLENGE := 1
  const AUTH_RESPONSE := 2
  const DATA := 5
  const DISCONNECT := 6

  /**
   * bufferSize is both the largest payload accepted and the room for one message; accepts is the answer of the
   * authentication code to a handshake message.
   */
  datatype Env = Env(listens: bool, bufferOffset: nat, bufferSize: nat, accepts: Bytes -> bool) {
    predicate Valid() { bufferSize > 0 }
  }

  /** msgs were handled, data are those of them made into packets, rest is not yet parsed. */
  datatype Conn = Conn(auth: bool, open: bool, msgs: seq<Bytes>, data: seq<Bytes>, rest: Bytes)

  /** What is at the front of the unparsed bytes. */
  datatype Front = More | Bad | Message(total: nat)

  /** The payload length a header announces. */
  function Announced(rest: Bytes): nat
    requires |rest| >= HEADER_SIZE
  {
    Get(rest[4..8])
  }

  function Look(e: Env, auth: bool, rest: Bytes): Front {
    if |rest| < HEADER_SIZE then More
    else if auth && Announced(rest) > e.bufferSize then Bad
    else if !auth && Announced(rest) != HANDSHAKE_SIZE then Bad
    else if |rest| < HEADER_SIZE + Announced(rest) then More
    else Message(HEADER_SIZE + Announced(rest))
  }

  /** Bytes the message at the front will take, once its header is there. */
  function Expected(rest: Bytes): nat { if |rest| < HEADER_SIZE then 0 else HEADER_SIZE + Announced(rest) }

  predicate Expects(e: Env, typ: byte) { typ == if e.listens then AUTH_CHALLENGE else AUTH_RESPONSE }

  /** Whether the connection goes on after a message, and what becomes a packet. */
  function Handle(e: Env, c: Conn, msg: Bytes): Conn
    requires |msg| >= HEADER_SIZE
  {
    var c1 := c.(msgs := c.msgs + [msg]);
    if c.auth then
      if msg[1] == DISCONNECT then c1.(open := false)
      else if msg[1] == DATA then c1.(data := c.data + [msg])
      else c1
    else if Expects(e, msg[1]) && e.accepts(msg) then c1.(auth := true)
    else c1.(open := false)
  }

  /** One message handled, and its bytes gone from the front. */
  function Advance(e: Env, c: Conn): Conn
    requires Look(e, c.auth, c.rest).Message?
  {
    var n := Look(e, c.auth, c.rest).total;
    Handle(e, c, c.rest[..n]).(rest := c.rest[n..])
  }

  /** Handles every complete message, until one is incomplete, is refused, or ends the connection. */
  function Parse(e: Env, c: Conn): Conn
    decreases |c.rest|
  {
    if !c.open then c
    else
      match Look(e, c.auth, c.rest)
      case More => c
      case Bad => c.(open := false)
      case Message(n) => Parse(e, Advance(e, c))
  }

  const Start := Conn(false, true, [], [], [])

  function Arrive(c: Conn, bytes: Bytes): Conn { c.(rest := c.rest + bytes) }

  /** A message that can be seen stays the same when more bytes arrive. */
  lemma LookAgain(e: Env, c: Conn, more: Bytes)
    ensures Look(e, c.auth, c.rest).Bad? ==> Look(e, c.auth, c.rest + more).Bad?
    ensures Look(e, c.auth, c.rest).Message? ==>
              && Look(e, c.auth, c.rest + more) == Look(e, c.auth, c.rest)
              && Advance(e, Arrive(c, more)) == Arrive(Advance(e, c), more)
  {
    if |c.rest| >= HEADER_SIZE { assert (c.rest + more)[4..8] == c.rest[4..8]; }
    if Look(e, c.auth, c.rest).Message? {
      var n := Look(e, c.auth, c.rest).total;
      assert (c.rest + more)[..n] == c.rest[..n];
      assert (c.rest + more)[n..] == c.rest[n..] + more;
    }
  }

  /** Parsing in two goes is parsing in one. */
  lemma {:induction false} ParseResumes(e: Env, c: Conn, more: Bytes)
    ensures Parse(e, Arrive(c, more)) == Parse(e, Arrive(Parse(e, c), more))
    decreases |c.rest|
  {
    LookAgain(e, c, more);
    if c.open && Look(e, c.auth, c.rest).Message? {
      ParseResumes(e, Advance(e, c), more);
    }
  }

  /** All bytes of a connection so far. */
  function Stream(c: Conn): Bytes { Flatten(c.msgs) + c.rest }

  lemma AdvanceKeepsBytes(e: Env, c: Conn)
    requires Look(e, c.auth, c.rest).Message?
    ensures Stream(Advance(e, c)) == Stream(c)
  {
    hide Flatten, Get;
    var n := Look(e, c.auth, c.rest).total;
    FlattenAppend(c.msgs, c.rest[..n]);
    assert c.rest == c.rest[..n] + c.rest[n..];
    assert Flatten(c.msgs) + c.rest[..n] + c.rest[n..] == Flatten(c.msgs) + (c.rest[..n] + c.rest[n..]);
  }

  /** No byte is lost, duplicated or moved. */
  lemma {:induction false} ParseKeepsBytes(e: Env, c: Conn)
    ensures Stream(Parse(e, c)) == Stream(c)
    decreases |c.rest|
  {
    hide Stream;
    if c.open && Look(e, c.auth, c.rest).Message? {
      AdvanceKeepsBytes(e, c);
      ParseKeepsBytes(e, Advance(e, c));
    } else {
      assert Stream(c.(open := false)) == Stream(c) by { SameStream(c); }
    }
  }

  lemma SameStream(c: Conn)
    ensures Stream(c.(open := false)) == Stream(c)
  {
  }

  /** Parsing ends at an incomplete message, or with the connection. */
  lemma {:induction false} ParseStops(e: Env, c: Conn)
    ensures Parse(e, c).open ==> Look(e, Parse(e, c).auth, Parse(e, c).rest).More?
    ensures c.auth ==> Parse(e, c).auth
    decreases |c.rest|
  {
    if c.open && Look(e, c.auth, c.rest).Message? { ParseStops(e, Advance(e, c)); }
  }

  /**
   * What the parser leaves fills the buffer only if the message begun is larger than the buffer: an open connection is
   * closed for want of room exactly on messages that announce more than bufferSize - HEADER_SIZE.
   */
  lemma FullOnlyWhenOversize(e: Env, c: Conn)
    requires e.bufferSize >= HEADER_SIZE && Parse(e, c).open && |Parse(e, c).rest| >= e.bufferSize
    ensures Announced(Parse(e, c).rest) > e.bufferSize - HEADER_SIZE
  {
    ParseStops(e, c);
  }

  // ---- what one message does ------------------------------------------------------------

  /** A message whose header announces the bytes behind it. */
  predicate Framed(m: Bytes) { |m| >= 8 && Get(m[4..8]) == |m| - 8 }

  lemma FrontIs(e: Env, c: Conn, m: Bytes, tail: Bytes)
    requires c.rest == [] && Framed(m)
    ensures var rest := Arrive(c, m + tail).rest;
            && rest == m + tail && rest[..|m|] == m && rest[|m|..] == tail && rest[4..8] == m[4..8]
  {
  }

  /**
   * Before authentication, by the header alone: a handshake has 88 bytes of payload, whatever else comes closes the
   * connection before anything is handled. A handshake of the type this side expects that is accepted authenticates;
   * any other ends the connection.
   */
  lemma HandshakeDecides(e: Env, c: Conn, m: Bytes, tail: Bytes)
    requires c.open && !c.auth && c.rest == [] && Framed(m)
    ensures var c' := Parse(e, Arrive(c, m + tail));
            if |m| != 96 then c' == Arrive(c, m + tail).(open := false)
            else if m[1] == (if e.listens then 1 else 2) && e.accepts(m)
            then c' == Parse(e, c.(auth := true, msgs := c.msgs + [m], rest := tail))
            else c' == c.(open := false, msgs := c.msgs + [m], rest := tail)
  {
    hide Get;
    FrontIs(e, c, m, tail);
  }

  /**
   * On an authenticated connection: payloads of up to bufferSize are admitted. Data, type 5, becomes a packet, type 6
   * ends the connection and nothing behind it is looked at, and anything else is passed over.
   */
  lemma MessageDecides(e: Env, c: Conn, m: Bytes, tail: Bytes)
    requires c.open && c.auth && c.rest == [] && Framed(m)
    ensures var c' := Parse(e, Arrive(c, m + tail));
            if |m| - 8 > e.bufferSize then c' == Arrive(c, m + tail).(open := false)
            else if m[1] == 6 then c' == c.(open := false, msgs := c.msgs + [m], rest := tail)
            else c' == Parse(e, c.(msgs := c.msgs + [m], data := if m[1] == 5 then c.data + [m] else c.data,
                                   rest := tail))
  {
    hide Get;
    FrontIs(e, c, m, tail);
  }

  // ---- what a sender writes -------------------------------------------------------------

  /** A message an authenticated peer may send without ending the connection. */
  predicate WellFormed(e: Env, msg: Bytes) {
    && |msg| >= HEADER_SIZE && Get(msg[4..8]) == |msg| - HEADER_SIZE <= e.bufferSize
    && msg[1] != DISCONNECT
  }

  predicate AllWellFormed(e: Env, msgs: seq<Bytes>) { forall i :: 0 <= i < |msgs| ==> WellFormed(e, msgs[i]) }

  function DataAmong(msgs: seq<Bytes>): seq<Bytes> {
    if |msgs| == 0 then []
    else
      var m := msgs[|msgs| - 1];
      if |m| >= HEADER_SIZE && m[1] == DATA then DataAmong(msgs[..|msgs| - 1]) + [m] else DataAmong(msgs[..|msgs| - 1])
  }

  /** A connection that has handled more messages. */
  function Fed(c: Conn, msgs: seq<Bytes>): Conn { c.(msgs := c.msgs + msgs, data := c.data + DataAmong(msgs)) }

  lemma FedOne(c: Conn, msgs: seq<Bytes>, m: Bytes)
    requires |m| >= HEADER_SIZE
    ensures Fed(c, msgs + [m])
            == Fed(c, msgs).(msgs := Fed(c, msgs).msgs + [m],
                             data := if m[1] == DATA then Fed(c, msgs).data + [m] else Fed(c, msgs).data)
  {
    assert (msgs + [m])[..|msgs|] == msgs;
  }

  lemma FedNothing(e: Env, c: Conn)
    requires c.rest == []
    ensures Parse(e, Arrive(c, [])) == Fed(c, []) && Flatten([]) == []
  {
    assert c.msgs + [] == c.msgs && c.data + [] == c.data && Arrive(c, []) == c;
  }

  lemma FedState(c: Conn, msgs: seq<Bytes>)
    ensures Fed(c, msgs).auth == c.auth && Fed(c, msgs).open == c.open && Fed(c, msgs).rest == c.rest
  {
  }

  /** The messages written one after the other are the messages parsed. */
  lemma {:induction false} ParseFlatten(e: Env, c: Conn, msgs: seq<Bytes>)
    requires c.auth && c.open && c.rest == [] && AllWellFormed(e, msgs)
    ensures Parse(e, Arrive(c, Flatten(msgs))) == Fed(c, msgs)
  {
    hide Look, Parse, Fed, DataAmong;
    if |msgs| == 0 {
      FedNothing(e, c);
    } else {
      var init, m := msgs[..|msgs| - 1], msgs[|msgs| - 1];
      assert init + [m] == msgs;
      ParseFlatten(e, c, init);
      var c1 := Fed(c, init);
      ParseResumes(e, Arrive(c, Flatten(init)), m);
      assert Arrive(Arrive(c, Flatten(init)), m) == Arrive(c, Flatten(msgs));
      FedState(c, init);
      ParseOne(e, c1, m);
      FedOne(c, init, m);
    }
  }

  lemma ParseOne(e: Env, c: Conn, m: Bytes)
    requires c.auth && c.open && c.rest == [] && WellFormed(e, m)
    ensures Parse(e, Arrive(c, m))
            == c.(msgs := c.msgs + [m], data := if m[1] == DATA then c.data + [m] else c.data)
  {
    assert [] + m == m && m[..|m|] == m && m[|m|..] == [];
    var c1 := Arrive(c, m);
    assert Look(e, true, c1.rest) == Message(|m|);
    var c2 := Advance(e, c1);
    assert Parse(e, c1) == Parse(e, c2);
  }

  // ---- what fits the buffer -------------------------------------------------------------

  /** Where a part of what a peer wrote ends: after k whole messages, and some of the next. */
  lemma {:induction false} CutOff(msgs: seq<Bytes>, n: nat) returns (k: nat)
    requires n <= |Flatten(msgs)|
    ensures k <= |msgs| && |Flatten(msgs[..k])| <= n && Flatten(msgs[..k]) <= Flatten(msgs)
    ensures k < |msgs| <==> n < |Flatten(msgs)|
    ensures k < |msgs| ==> n < |Flatten(msgs[..k])| + |msgs[k]|
    ensures k < |msgs| ==>
              Flatten(msgs)[..n] == Flatten(msgs[..k]) + msgs[k][..n - |Flatten(msgs[..k])|]
  {
    if n == |Flatten(msgs)| {
      k := |msgs|;
      assert msgs[..k] == msgs;
    } else {
      var init := msgs[..|msgs| - 1];
      if n < |Flatten(init)| {
        k := CutOff(init, n);
        assert init[..k] == msgs[..k];
        assert Flatten(msgs)[..n] == Flatten(init)[..n];
      } else {
        k := |msgs| - 1;
        assert Flatten(msgs)[..n] == Flatten(init) + msgs[k][..n - |Flatten(init)|];
      }
    }
  }

  /** An unfinished message waits, however much of it is there. */
  lemma UnfinishedWaits(e: Env, c: Conn, m: Bytes, n: nat)
    requires c.auth && c.open && c.rest == [] && WellFormed(e, m) && n < |m|
    ensures Parse(e, Arrive(c, m[..n])) == Arrive(c, m[..n]) && Arrive(c, m[..n]).rest == m[..n]
  {
    assert [] + m[..n] == m[..n];
    if n >= HEADER_SIZE { assert m[..n][4..8] == m[4..8]; }
  }

  /** What the parser makes of any part of what a peer wrote: whole messages handled, some of the next left. */
  lemma PartParses(e: Env, c: Conn, msgs: seq<Bytes>, n: nat) returns (k: nat)
    requires c.auth && c.open && c.rest == [] && AllWellFormed(e, msgs) && n <= |Flatten(msgs)|
    ensures k <= |msgs| && |Flatten(msgs[..k])| <= n && (k < |msgs| <==> n < |Flatten(msgs)|)
    ensures var c1 := Parse(e, Arrive(c, Flatten(msgs)[..n]));
            if k < |msgs| then n - |Flatten(msgs[..k])| < |msgs[k]|
                               && c1 == Arrive(Fed(c, msgs[..k]), msgs[k][..n - |Flatten(msgs[..k])|])
                               && c1.rest == msgs[k][..n - |Flatten(msgs[..k])|] && c1.open
            else c1 == Fed(c, msgs) && c1.rest == [] && c1.open
  {
    hide Parse, Look, Fed;
    k := CutOff(msgs, n);
    ParseFlatten(e, c, msgs[..k]);
    FedState(c, msgs[..k]);
    if k < |msgs| {
      var part := msgs[k][..n - |Flatten(msgs[..k])|];
      ParseResumes(e, Arrive(c, Flatten(msgs[..k])), part);
      assert Arrive(Arrive(c, Flatten(msgs[..k])), part) == Arrive(c, Flatten(msgs)[..n]);
      UnfinishedWaits(e, Fed(c, msgs[..k]), msgs[k], |part|);
    } else {
      assert msgs[..k] == msgs && Flatten(msgs)[..n] == Flatten(msgs);
    }
  }

  /** Header and payload lie within the buffer. */
  predicate AllFit(e: Env, msgs: seq<Bytes>) { forall i :: 0 <= i < |msgs| ==> |msgs[i]| <= e.bufferSize }

  /** After any part of what a peer wrote, the connection is open with room to read. */
  ghost predicate AlwaysRoom(e: Env, c: Conn, msgs: seq<Bytes>) {
    forall n :: 0 <= n <= |Flatten(msgs)| ==> RoomAfter(e, c, Flatten(msgs)[..n])
  }

  predicate RoomAfter(e: Env, c: Conn, part: Bytes) {
    Parse(e, Arrive(c, part)).open && |Parse(e, Arrive(c, part)).rest| < e.bufferSize
  }

  /**
   * The size check admits a payload as large as the buffer, but the header needs room too: of the messages that pass
   * the check, an authenticated connection keeps its room exactly if all of them fit the buffer with their headers.
   */
  lemma RoomIsExact(e: Env, c: Conn, msgs: seq<Bytes>)
    requires e.Valid() && c.auth && c.open && c.rest == [] && AllWellFormed(e, msgs)
    ensures AlwaysRoom(e, c, msgs) <==> AllFit(e, msgs)
  {
    hide Parse, Look, Fed;
    if AllFit(e, msgs) {
      forall n | 0 <= n <= |Flatten(msgs)| ensures RoomAfter(e, c, Flatten(msgs)[..n]) {
        var k := PartParses(e, c, msgs, n);
      }
    } else {
      var i :| 0 <= i < |msgs| && |msgs[i]| > e.bufferSize;
      AcceptedButNeverComplete(e, c, msgs, i);
    }
  }

  /** Whole messages and some of the next, as part of the stream. */
  lemma PartOf(msgs: seq<Bytes>, i: nat, n: nat)
    requires i < |msgs| && n <= |msgs[i]|
    ensures |Flatten(msgs[..i])| + n <= |Flatten(msgs)|
    ensures Flatten(msgs)[..|Flatten(msgs[..i])| + n] == Flatten(msgs[..i]) + msgs[i][..n]
  {
    hide Flatten;
    FlattenConcat(msgs[..i + 1], msgs[i + 1..]);
    assert msgs == msgs[..i + 1] + msgs[i + 1..] && msgs[..i + 1] == msgs[..i] + [msgs[i]];
    FlattenAppend(msgs[..i], msgs[i]);
  }

  /** A message that passes the size check and is larger than the buffer fills it before it is complete. */
  lemma AcceptedButNeverComplete(e: Env, c: Conn, msgs: seq<Bytes>, i: nat)
    requires c.auth && c.open && c.rest == [] && AllWellFormed(e, msgs)
    requires i < |msgs| && |msgs[i]| > e.bufferSize
    ensures |Flatten(msgs[..i])| + e.bufferSize <= |Flatten(msgs)|
    ensures var part := Flatten(msgs)[..|Flatten(msgs[..i])| + e.bufferSize];
            !RoomAfter(e, c, part) && Parse(e, Arrive(c, part)).msgs == c.msgs + msgs[..i]
  {
    hide Parse, Look, Fed, Flatten, WellFormed;
    var before, m := msgs[..i], msgs[i];
    var part := m[..e.bufferSize];
    PartOf(msgs, i, e.bufferSize);
    ParseFlatten(e, c, before);
    FedState(c, before);
    ParseResumes(e, Arrive(c, Flatten(before)), part);
    assert Arrive(Arrive(c, Flatten(before)), part) == Arrive(c, Flatten(before) + part);
    UnfinishedWaits(e, Fed(c, before), m, |part|);
    FedMessages(c, before);
  }

  lemma FedMessages(c: Conn, msgs: seq<Bytes>)
    ensures Fed(c, msgs).msgs == c.msgs + msgs && Fed(c, msgs).data == c.data + DataAmong(msgs)
  {
  }

  /** No message is longer than what it was parsed from. */
  lemma {:induction false} ParsedFit(e: Env, c: Conn)
    ensures c.msgs <= Parse(e, c).msgs
    ensures forall i :: |c.msgs| <= i < |Parse(e, c).msgs| ==> |Parse(e, c).msgs[i]| <= |c.rest|
    decreases |c.rest|
  {
    if c.open && Look(e, c.auth, c.rest).Message? { ParsedFit(e, Advance(e, c)); }
  }

  /** The messages before the first that does not fit. */
  function FittingPrefix(e: Env, msgs: seq<Bytes>): (k: nat)
    ensures k <= |msgs| && AllFit(e, msgs[..k]) && (k < |msgs| ==> |msgs[k]| > e.bufferSize)
  {
    if |msgs| == 0 then 0
    else
      var k := FittingPrefix(e, msgs[..|msgs| - 1]);
      assert msgs[..|msgs| - 1][..k] == msgs[..k];
      if k == |msgs| - 1 && |msgs[k]| <= e.bufferSize then k + 1 else k
  }

  lemma FitBelow(e: Env, msgs: seq<Bytes>, k: nat)
    requires k <= |msgs| && AllFit(e, msgs[..k])
    ensures forall i :: 0 <= i < k ==> |msgs[i]| <= e.bufferSize
  {
    forall i | 0 <= i < k ensures |msgs[i]| <= e.bufferSize { assert msgs[..k][i] == msgs[i]; }
  }

  lemma FirstOversize(e: Env, msgs: seq<Bytes>, k: nat)
    requires k <= |msgs| && AllFit(e, msgs[..k]) && (k < |msgs| ==> |msgs[k]| > e.bufferSize)
    ensures FittingPrefix(e, msgs) == k && (k == |msgs| <==> AllFit(e, msgs))
  {
    FitBelow(e, msgs, k);
    FitBelow(e, msgs, FittingPrefix(e, msgs));
    if k == |msgs| { assert msgs[..k] == msgs; }
  }
}
