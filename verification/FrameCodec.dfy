/** The wire form of a stream frame (parseTcpFrame and putTcpFrame of src/tcp_stream.go). */
module FrameCodec {
  import opened Bytes
  import opened BigEndian
  import opened StreamTypes
  import opened Options

  const MAGIC := 0x55585453
  const HEADER := 36

  /** tcpFrame: id is eight bytes, num and ack 64 bits wide, wnd 32. */
  datatype TcpFrame = TcpFrame(typ: byte, flags: byte, id: Bytes, num: nat, ack: nat, wnd: nat, payload: Bytes) {
    predicate Valid() {
      1 <= typ <= 5 && |id| == 8 && num < Limit(8) && ack < Limit(8) && wnd < Limit(4)
    }
  }

  /** The bytes of a frame. */
  function Encode(f: TcpFrame): Bytes
    requires |f.id| == 8
  {
    Header(f) + f.payload
  }

  function Header(f: TcpFrame): (h: Bytes)
    requires |f.id| == 8
    ensures |h| == HEADER
  {
    Put(4, MAGIC) + [f.typ, f.flags, 0, 0] + f.id + Put(8, f.num) + Put(8, f.ack) + Put(4, f.wnd)
  }

  function Parse(b: Bytes): Option<TcpFrame> {
    if |b| < HEADER || Get(b[..4]) != MAGIC || b[4] < 1 || b[4] > 5 then None
    else Some(TcpFrame(b[4], b[5], b[8..16], Get(b[16..24]), Get(b[24..32]), Get(b[32..36]), b[36..]))
  }

  /** Where each field lies. */
  lemma Fields(f: TcpFrame)
    requires |f.id| == 8
    ensures var b := Encode(f);
            && b[..4] == Put(4, MAGIC) && b[4] == f.typ && b[5] == f.flags && b[6] == b[7] == 0
            && b[8..16] == f.id && b[16..24] == Put(8, f.num) && b[24..32] == Put(8, f.ack)
            && b[32..36] == Put(4, f.wnd) && b[36..] == f.payload
  {
    hide Put;
  }

  lemma MagicFits()
    ensures MAGIC < Limit(4)
  {
    assert Limit(1) == 256 && Limit(2) == 256 * Limit(1) && Limit(3) == 256 * Limit(2) && Limit(4) == 256 * Limit(3);
  }

  /** A frame that is sent is the frame that is parsed. */
  lemma ParseEncode(f: TcpFrame)
    requires f.Valid()
    ensures Parse(Encode(f)) == Some(f)
  {
    hide Put, Get, Limit, Encode;
    Fields(f);
    MagicFits();
    GetPut(4, MAGIC);
    GetPut(8, f.num);
    GetPut(8, f.ack);
    GetPut(4, f.wnd);
    assert |Encode(f)| >= HEADER by { Long(f); }
  }

  lemma Long(f: TcpFrame)
    requires |f.id| == 8
    ensures |Encode(f)| == HEADER + |f.payload|
  {
  }

  /** What parses is a valid frame, and its bytes are those parsed but for the two reserved ones. */
  lemma EncodeParse(b: Bytes)
    requires Parse(b).Some?
    ensures Parse(b).value.Valid()
    ensures Encode(Parse(b).value) == b[6 := 0][7 := 0]
  {
    hide Put, Get, Limit, Encode;
    var f := Parse(b).value;
    PutGet(b[..4]);
    PutGet(b[16..24]);
    PutGet(b[24..32]);
    PutGet(b[32..36]);
    GetFits(b[16..24]);
    GetFits(b[24..32]);
    GetFits(b[32..36]);
    Fields(f);
    Long(f);
    Pieces(Encode(f), b[6 := 0][7 := 0]);
  }

  /** Two byte strings that agree field by field are equal. */
  lemma Pieces(a: Bytes, b: Bytes)
    requires |a| == |b| >= HEADER
    requires a[..4] == b[..4] && a[4] == b[4] && a[5] == b[5] && a[6] == b[6] && a[7] == b[7]
    requires a[8..16] == b[8..16] && a[16..24] == b[16..24] && a[24..32] == b[24..32] && a[32..36] == b[32..36]
    requires a[36..] == b[36..]
    ensures a == b
  {
    assert a == a[..4] + [a[4], a[5], a[6], a[7]] + a[8..16] + a[16..24] + a[24..32] + a[32..36] + a[36..];
    assert b == b[..4] + [b[4], b[5], b[6], b[7]] + b[8..16] + b[16..24] + b[24..32] + b[32..36] + b[36..];
  }

  /** Writes bytes at an offset of a buffer, as many as fit, and says how many. */
  method Copy(b: array<byte>, at: nat, src: Bytes) returns (n: nat)
    requires at <= b.Length
    modifies b
    ensures n == Min(|src|, b.Length - at)
    ensures b[..] == old(b[..at]) + src[..n] + old(b[at + n..])
  {
    n := if |src| <= b.Length - at then |src| else b.Length - at;
    forall i | 0 <= i < n { b[at + i] := src[i]; }
  }

  /** What of a frame fits a buffer of so many bytes. */
  function Fitted(f: TcpFrame, room: nat): TcpFrame
    requires room >= HEADER
  {
    f.(payload := f.payload[..Min(|f.payload|, room - HEADER)])
  }

  /** Writes the frame into a buffer, cutting off what payload does not fit. */
  method PutTcpFrame(b: array<byte>, f: TcpFrame) returns (n: nat)
    requires b.Length >= HEADER && |f.id| == 8
    modifies b
    ensures n == HEADER + Min(|f.payload|, b.Length - HEADER)
    ensures b[..n] == Encode(Fitted(f, b.Length))
    ensures b[n..] == old(b[n..])
  {
    var header := Header(f);
    var k := Copy(b, 0, header);
    assert b[..HEADER] == header;
    k := Copy(b, HEADER, f.payload);
    n := HEADER + k;
    assert b[..n] == header + f.payload[..k];
    assert Header(f) == Header(f.(payload := f.payload[..k]));
  }

  /** Bytes left in a buffer for the headers of a tunnel. */
  const WRAP_RESERVE := 64

  /** newTcpStreamEndpoint: the segment size for a buffer size. */
  function Mss(bufferSize: int): nat { Max(bufferSize - WRAP_RESERVE - HEADER, 256) }

  /** No segment is cut in any stream exactly when the buffer has room for the header and the least segment size. */
  lemma SegmentsUncut(bufferSize: nat)
    requires bufferSize >= HEADER
    ensures bufferSize >= HEADER + 256
            <==> forall f: TcpFrame :: |f.payload| <= Mss(bufferSize) ==> Fitted(f, bufferSize) == f
  {
    forall f: TcpFrame | bufferSize >= HEADER + 256 && |f.payload| <= Mss(bufferSize)
      ensures Fitted(f, bufferSize) == f
    {
      assert f.payload[..|f.payload|] == f.payload;
    }
    if bufferSize < HEADER + 256 {
      var f := TcpFrame(2, 0, [], 0, 0, 0, seq(256, _ => 0));
      assert |Fitted(f, bufferSize).payload| < 256;
    }
  }

  // ---- frames of the stream model -------------------------------------------------------

  function TypeOf(kind: Kind): byte {
    match kind
    case Open => 1
    case Data => 2
    case Fin => 3
    case Ack => 4
    case Rst => 5
  }

  function KindOf(typ: byte): Kind
    requires 1 <= typ <= 5
  {
    if typ == 1 then Open else if typ == 2 then Data else if typ == 3 then Fin else if typ == 4 then Ack else Rst
  }

  function Bit(b: bool, v: byte): byte { if b then v else 0 }

  /** The frame as it goes out on stream id. */
  function ToWire(id: Bytes, f: Frame): TcpFrame
    requires f.num >= 0 && f.ack >= 0 && f.wnd >= 0
  {
    var flags := Bit(f.fromClient, 1) + Bit(f.probe, 2) + Bit(f.outOfOrder, 4);
    TcpFrame(TypeOf(f.kind), flags, id, f.num, f.ack, f.wnd, f.payload)
  }

  function FromWire(w: TcpFrame): Frame
    requires 1 <= w.typ <= 5
  {
    Frame(KindOf(w.typ), w.flags % 2 == 1, w.flags / 2 % 2 == 1, w.flags / 4 % 2 == 1, w.num, w.ack, w.wnd, w.payload)
  }

  /** A frame of the stream model survives the wire. */
  lemma FrameRoundTrip(id: Bytes, f: Frame)
    requires |id| == 8 && 0 <= f.num < Limit(8) && 0 <= f.ack < Limit(8) && 0 <= f.wnd < Limit(4)
    ensures var r := Parse(Encode(ToWire(id, f))); r.Some? && r.value.id == id && FromWire(r.value) == f
  {
    hide Limit, Encode;
    ParseEncode(ToWire(id, f));
  }
}
