/** The binary formats of relay-protocol/src/lib.rs: connector frames, rendezvous datagrams and the byte string an
    enrollment signature covers. */
module RelayProtocol {
  import opened Basics
  import opened BigEndian

  datatype ProtocolError = InvalidDataSize | ReasonTooLarge | ZeroStream | InvalidSize | InvalidHeader | InvalidKind

  // ---------- Connector frames ----------

  const MAGIC: seq<byte> := [0x41, 0x54, 0x52, 0x50] // "ATRP"
  const VERSION: byte := 1
  const HEADER_BYTES: nat := 14
  const MAX_DATA_BYTES: nat := 64 * 1024
  const MAX_CLOSE_REASON_BYTES: nat := 1024
  const MAX_FRAME_BYTES: nat := HEADER_BYTES + MAX_DATA_BYTES

  datatype Frame =
    | Open(streamId: u64)
    | Data(streamId: u64, bytes: seq<byte>)
    | Close(streamId: u64, reason: seq<byte>)
    | Ping
    | Pong

  function Layout(kind: byte, streamId: u64, payload: seq<byte>): seq<byte>
  {
    MAGIC + [VERSION, kind] + ToBytes(streamId, 8) + payload
  }

  function Encoded(f: Frame): Result<seq<byte>, ProtocolError>
  {
    match f
    case Open(id) => if id == 0 then Err(ZeroStream) else Ok(Layout(1, id, []))
    case Data(id, bytes) =>
      if bytes == [] || |bytes| > MAX_DATA_BYTES then Err(InvalidDataSize)
      else if id == 0 then Err(ZeroStream) else Ok(Layout(2, id, bytes))
    case Close(id, reason) =>
      if |reason| > MAX_CLOSE_REASON_BYTES then Err(ReasonTooLarge)
      else if id == 0 then Err(ZeroStream) else Ok(Layout(3, id, reason))
    case Ping => Ok(Layout(4, 0, []))
    case Pong => Ok(Layout(5, 0, []))
  }

  method Encode(f: Frame) returns (r: Result<seq<byte>, ProtocolError>)
    ensures r == Encoded(f)
  {
    var kind: byte, streamId: u64, payload: seq<byte> := 1, 0, [];
    match f {
      case Open(id) =>
        streamId := id;
      case Data(id, bytes) =>
        if bytes == [] || |bytes| > MAX_DATA_BYTES {
          return Err(InvalidDataSize);
        }
        kind, streamId, payload := 2, id, bytes;
      case Close(id, reason) =>
        if |reason| > MAX_CLOSE_REASON_BYTES {
          return Err(ReasonTooLarge);
        }
        kind, streamId, payload := 3, id, reason;
      case Ping =>
        kind := 4;
      case Pong =>
        kind := 5;
    }
    if kind <= 3 && streamId == 0 {
      return Err(ZeroStream);
    }
    var out := MAGIC;
    out := out + [VERSION];
    out := out + [kind];
    out := out + ToBytes(streamId, 8);
    out := out + payload;
    assert MAGIC + [VERSION] + [kind] == MAGIC + [VERSION, kind];
    return Ok(out);
  }

  lemma {:induction false} FromBytes64(s: seq<byte>)
    requires |s| == 8
    ensures FromBytes(s) < U64
  {
    ToFrom(s);
    Widths();
  }

  function Decoded(bytes: seq<byte>): Result<Frame, ProtocolError>
  {
    if |bytes| < HEADER_BYTES || |bytes| > MAX_FRAME_BYTES then Err(InvalidSize)
    else if bytes[..4] != MAGIC || bytes[4] != VERSION then Err(InvalidHeader)
    else
      FromBytes64(bytes[6..14]);
      var streamId: u64 := FromBytes(bytes[6..14]);
      var payload := bytes[HEADER_BYTES..];
      var kind := bytes[5];
      if kind == 1 && streamId != 0 && payload == [] then Ok(Open(streamId))
      else if kind == 2 && streamId != 0 && payload != [] && |payload| <= MAX_DATA_BYTES then Ok(Data(streamId, payload))
      else if kind == 3 && streamId != 0 && |payload| <= MAX_CLOSE_REASON_BYTES then Ok(Close(streamId, payload))
      else if kind == 4 && streamId == 0 && payload == [] then Ok(Ping)
      else if kind == 5 && streamId == 0 && payload == [] then Ok(Pong)
      else Err(InvalidKind)
  }

  lemma {:induction false} LayoutParts(kind: byte, streamId: u64, payload: seq<byte>)
    ensures var b := Layout(kind, streamId, payload);
            && |b| == HEADER_BYTES + |payload| && b[..4] == MAGIC && b[4] == VERSION && b[5] == kind
            && b[6..14] == ToBytes(streamId, 8) && b[HEADER_BYTES..] == payload
            && FromBytes(b[6..14]) == streamId
  {
    Widths();
    FromTo(streamId, 8);
  }

  /** Whatever is encoded is read back. */
  lemma {:induction false} DecodeOfEncode(f: Frame)
    requires Encoded(f).Ok?
    ensures Decoded(Encoded(f).value) == Ok(f)
  {
    match f
    case Open(id) => LayoutParts(1, id, []);
    case Data(id, bytes) => LayoutParts(2, id, bytes);
    case Close(id, reason) => LayoutParts(3, id, reason);
    case Ping => LayoutParts(4, 0, []);
    case Pong => LayoutParts(5, 0, []);
  }

  /** Whatever is accepted is the one encoding of the frame read from it. */
  lemma {:induction false} EncodeOfDecode(bytes: seq<byte>)
    requires Decoded(bytes).Ok?
    ensures Encoded(Decoded(bytes).value) == Ok(bytes)
  {
    var id := FromBytes(bytes[6..14]);
    ToFrom(bytes[6..14]);
    FromBytes64(bytes[6..14]);
    assert bytes == Layout(bytes[5], id, bytes[HEADER_BYTES..]);
  }

  // ---------- Rendezvous datagrams ----------

  const DIRECT_MAGIC: seq<byte> := [0x41, 0x54, 0x44, 0x52] // "ATDR"
  const DIRECT_VERSION: byte := 1
  const DIRECT_HEADER_BYTES: nat := 6
  const DIRECT_ID_BYTES: nat := 16
  const DIRECT_COOKIE_BYTES: nat := 32
  const MAX_DIRECT_PACKET_BYTES: nat := DIRECT_HEADER_BYTES + DIRECT_ID_BYTES + DIRECT_COOKIE_BYTES

  type DirectId = s: seq<byte> | |s| == DIRECT_ID_BYTES witness ToBytes(0, 16)
  type DirectCookie = s: seq<byte> | |s| == DIRECT_COOKIE_BYTES witness ToBytes(0, 32)
  type Octets4 = s: seq<byte> | |s| == 4 witness [0, 0, 0, 0]
  type Octets16 = s: seq<byte> | |s| == 16 witness ToBytes(0, 16)

  datatype Ip = V4(octets: Octets4) | V6(octets6: Octets16)

  datatype DirectPacket =
    | BindDesktop(id: DirectId, cookie: DirectCookie)
    | BindPhone(id: DirectId, cookie: DirectCookie)
    | Bound(id: DirectId)
    | Peer(id: DirectId, ip: Ip, port: u16)
    | Probe(id: DirectId)

  function DirectKind(p: DirectPacket): byte
  {
    match p
    case BindDesktop(_, _) => 1
    case BindPhone(_, _) => 2
    case Bound(_) => 3
    case Peer(_, _, _) => 4
    case Probe(_) => 5
  }

  function DirectPayload(p: DirectPacket): seq<byte>
  {
    match p
    case BindDesktop(_, cookie) => cookie
    case BindPhone(_, cookie) => cookie
    case Peer(_, V4(octets), port) => [4] + ToBytes(port, 2) + octets
    case Peer(_, V6(octets), port) => [6] + ToBytes(port, 2) + octets
    case Bound(_) => []
    case Probe(_) => []
  }

  function DirectEncoded(p: DirectPacket): seq<byte>
  {
    DIRECT_MAGIC + [DIRECT_VERSION, DirectKind(p)] + p.id + DirectPayload(p)
  }

  method EncodeDirect(p: DirectPacket) returns (out: seq<byte>)
    ensures out == DirectEncoded(p)
  {
    out := DIRECT_MAGIC;
    out := out + [DIRECT_VERSION];
    out := out + [DirectKind(p)];
    out := out + p.id;
    assert out == DIRECT_MAGIC + [DIRECT_VERSION, DirectKind(p)] + p.id;
    ghost var head := out;
    match p {
      case BindDesktop(_, cookie) => out := out + cookie;
      case BindPhone(_, cookie) => out := out + cookie;
      case Peer(_, ip, port) =>
        match ip {
          case V4(octets) =>
            out := out + [4];
            out := out + ToBytes(port, 2);
            out := out + octets;
          case V6(octets) =>
            out := out + [6];
            out := out + ToBytes(port, 2);
            out := out + octets;
        }
      case Bound(_) =>
      case Probe(_) =>
    }
    assert out == head + DirectPayload(p);
  }

  lemma {:induction false} FromBytes16(s: seq<byte>)
    requires |s| == 2
    ensures FromBytes(s) < U16
  {
    ToFrom(s);
    Widths();
  }

  function DirectDecoded(bytes: seq<byte>): Result<DirectPacket, ProtocolError>
  {
    if |bytes| < DIRECT_HEADER_BYTES + DIRECT_ID_BYTES || |bytes| > MAX_DIRECT_PACKET_BYTES
       || bytes[..4] != DIRECT_MAGIC || bytes[4] != DIRECT_VERSION
    then Err(InvalidHeader)
    else
      var id: DirectId := bytes[DIRECT_HEADER_BYTES..DIRECT_HEADER_BYTES + DIRECT_ID_BYTES];
      var payload := bytes[DIRECT_HEADER_BYTES + DIRECT_ID_BYTES..];
      var kind := bytes[5];
      if (kind == 1 || kind == 2) && |payload| == DIRECT_COOKIE_BYTES then
        Ok(if kind == 1 then BindDesktop(id, payload) else BindPhone(id, payload))
      else if kind == 3 && payload == [] then Ok(Bound(id))
      else if kind == 4 && |payload| == 7 && payload[0] == 4 then
        FromBytes16(payload[1..3]);
        Ok(Peer(id, V4(payload[3..7]), FromBytes(payload[1..3])))
      else if kind == 4 && |payload| == 19 && payload[0] == 6 then
        FromBytes16(payload[1..3]);
        Ok(Peer(id, V6(payload[3..]), FromBytes(payload[1..3])))
      else if kind == 5 && payload == [] then Ok(Probe(id))
      else Err(InvalidKind)
  }

  lemma {:induction false} DirectDecodeOfEncode(p: DirectPacket)
    ensures DirectDecoded(DirectEncoded(p)) == Ok(p)
  {
    var b := DirectEncoded(p);
    assert b[..4] == DIRECT_MAGIC && b[4] == DIRECT_VERSION && b[5] == DirectKind(p);
    assert b[6..22] == p.id;
    assert b[22..] == DirectPayload(p);
    match p
    case Peer(_, ip, port) =>
      Widths();
      FromTo(port, 2);
      var octets := if ip.V4? then ip.octets else ip.octets6;
      assert DirectPayload(p)[1..3] == ToBytes(port, 2);
      assert ip.V4? ==> DirectPayload(p)[3..7] == octets;
      assert DirectPayload(p)[3..] == octets;
    case BindDesktop(_, cookie) => assert DirectDecoded(b).Ok?;
    case BindPhone(_, cookie) => assert DirectDecoded(b).Ok?;
    case Bound(_) =>
    case Probe(_) =>
  }

  lemma {:induction false} DirectEncodeOfDecode(bytes: seq<byte>)
    requires DirectDecoded(bytes).Ok?
    ensures DirectEncoded(DirectDecoded(bytes).value) == bytes
  {
    hide ToBytes, FromBytes;
    var p := DirectDecoded(bytes).value;
    var payload := bytes[22..];
    assert p.id == bytes[6..22];
    if p.Peer? {
      PeerPayload(payload);
    }
    assert DirectPayload(p) == payload && DirectKind(p) == bytes[5];
  }

  lemma {:induction false} PeerPayload(payload: seq<byte>)
    requires |payload| >= 3
    ensures FromBytes(payload[1..3]) < U16
    ensures [payload[0]] + ToBytes(FromBytes(payload[1..3]), 2) + payload[3..] == payload
  {
    Widths();
    ToFrom(payload[1..3]);
    assert payload == [payload[0]] + payload[1..3] + payload[3..];
  }

  // ---------- Frames on the wire ----------

  /** The frames that may be sent. */
  predicate Sendable(f: Frame)
  {
    match f
    case Open(id) => id != 0
    case Data(id, bytes) => id != 0 && 1 <= |bytes| <= 65_536
    case Close(id, reason) => id != 0 && |reason| <= 1024
    case Ping => true
    case Pong => true
  }

  /** "ATRP", version 1, the kind, the stream id in eight bytes and the payload. */
  ghost predicate OnTheWire(b: seq<byte>, kind: byte, id: u64, payload: seq<byte>)
  {
    && |b| == 14 + |payload| && b[14..] == payload
    && b[0] == 65 && b[1] == 84 && b[2] == 82 && b[3] == 80 && b[4] == 1 && b[5] == kind
    && forall k :: 6 <= k < 14 ==> b[k] == id / Pow256(13 - k) % 256
  }

  lemma {:induction false} LayoutOnTheWire(kind: byte, id: u64, payload: seq<byte>)
    ensures OnTheWire(Layout(kind, id, payload), kind, id, payload)
  {
    hide ToBytes, Pow256;
    var b := Layout(kind, id, payload);
    assert b[14..] == payload;
    forall k | 6 <= k < 14
      ensures b[k] == id / Pow256(13 - k) % 256
    {
      ByteAt(id, 8, k - 6);
      assert b[k] == ToBytes(id, 8)[k - 6];
    }
  }

  /** Exactly the sendable frames have an encoding, and this is it. */
  lemma {:induction false} EncodesExactly(f: Frame)
    ensures Encoded(f).Ok? <==> Sendable(f)
    ensures Sendable(f) ==>
              match f
              case Open(id) => OnTheWire(Encoded(f).value, 1, id, [])
              case Data(id, bytes) => OnTheWire(Encoded(f).value, 2, id, bytes)
              case Close(id, reason) => OnTheWire(Encoded(f).value, 3, id, reason)
              case Ping => OnTheWire(Encoded(f).value, 4, 0, [])
              case Pong => OnTheWire(Encoded(f).value, 5, 0, [])
    ensures Encoded(f) == Err(InvalidDataSize) <==> f.Data? && !(1 <= |f.bytes| <= 65_536)
    ensures Encoded(f) == Err(ReasonTooLarge) <==> f.Close? && |f.reason| > 1024
  {
    hide OnTheWire, Layout;
    match f
    case Open(id) => LayoutOnTheWire(1, id, []);
    case Data(id, bytes) => LayoutOnTheWire(2, id, bytes);
    case Close(id, reason) => LayoutOnTheWire(3, id, reason);
    case Ping => LayoutOnTheWire(4, 0, []);
    case Pong => LayoutOnTheWire(5, 0, []);
  }

  /** The bytes accepted as a frame are exactly its encoding. */
  lemma {:induction false} DecodesExactly(bytes: seq<byte>, f: Frame)
    ensures Decoded(bytes) == Ok(f) <==> Encoded(f) == Ok(bytes)
  {
    hide Decoded, Encoded;
    if Encoded(f).Ok? { DecodeOfEncode(f); }
    if Decoded(bytes).Ok? { EncodeOfDecode(bytes); }
  }

  /** The same for datagrams: "ATDR", version 1, the kind, the id; then a cookie, or an address kind, the port and the
      address. */
  lemma {:induction false} PacketOnTheWire(p: DirectPacket)
    ensures var b := DirectEncoded(p);
            && |b| >= 22 && b[0] == 65 && b[1] == 84 && b[2] == 68 && b[3] == 82 && b[4] == 1 && b[6..22] == p.id
            && match p
               case BindDesktop(_, cookie) => b[5] == 1 && b[22..] == cookie
               case BindPhone(_, cookie) => b[5] == 2 && b[22..] == cookie
               case Bound(_) => b[5] == 3 && |b| == 22
               case Peer(_, V4(octets), port) =>
                 b[5] == 4 && |b| == 29 && b[22] == 4 && b[23] == port / 256 && b[24] == port % 256 && b[25..] == octets
               case Peer(_, V6(octets), port) =>
                 b[5] == 4 && |b| == 41 && b[22] == 6 && b[23] == port / 256 && b[24] == port % 256 && b[25..] == octets
               case Probe(_) => b[5] == 5 && |b| == 22
  {
    hide ToBytes;
    var b := DirectEncoded(p);
    assert b[6..22] == p.id && b[22..] == DirectPayload(p);
    if p.Peer? {
      PortBytes(p.port);
      var octets := if p.ip.V4? then p.ip.octets else p.ip.octets6;
      var payload := DirectPayload(p);
      assert payload[1] == ToBytes(p.port, 2)[0] && payload[2] == ToBytes(p.port, 2)[1];
      assert payload[3..] == octets;
      assert b[25..] == b[22..][3..] && b[23] == b[22..][1] && b[24] == b[22..][2];
    }
  }

  lemma {:induction false} PortBytes(port: u16)
    ensures ToBytes(port, 2)[0] == port / 256 && ToBytes(port, 2)[1] == port % 256
  {
    ByteAt(port, 2, 0);
    ByteAt(port, 2, 1);
    assert Pow256(0) == 1 && Pow256(1) == 256;
  }

  lemma {:induction false} PacketsDecodeExactly(bytes: seq<byte>, p: DirectPacket)
    ensures DirectDecoded(bytes) == Ok(p) <==> DirectEncoded(p) == bytes
  {
    hide DirectDecoded, DirectEncoded;
    DirectDecodeOfEncode(p);
    if DirectDecoded(bytes).Ok? { DirectEncodeOfDecode(bytes); }
  }

  // ---------- The bytes an enrollment signature covers ----------

  // "aiterm-relay-enrollment-v1" and a NUL
  const ENROLLMENT_TAG: seq<byte> :=
    [97, 105, 116, 101, 114, 109, 45, 114, 101, 108, 97, 121, 45,
     101, 110, 114, 111, 108, 108, 109, 101, 110, 116, 45, 118, 49, 0]

  function Field(value: seq<byte>): seq<byte>
  {
    ToBytes(|value| % U32, 4) + value
  }

  function EnrollmentBytes(origin: seq<byte>, route: seq<byte>, token: seq<byte>, spki: seq<byte>): seq<byte>
  {
    ENROLLMENT_TAG + (Field(origin) + (Field(route) + (Field(token) + Field(spki))))
  }

  /** The running digest; what it will hash is everything fed to it. */
  class Digest {
    var fed: seq<byte>

    constructor ()
      ensures fed == []
    {
      fed := [];
    }

    method Update(bytes: seq<byte>)
      modifies this
      ensures fed == old(fed) + bytes
    {
      fed := fed + bytes;
    }

    method UpdateField(value: seq<byte>)
      modifies this
      ensures fed == old(fed) + Field(value)
    {
      Update(ToBytes(|value| % U32, 4));
      Update(value);
      assert fed == old(fed) + Field(value);
    }
  }

  method EnrollmentDigest(origin: seq<byte>, route: seq<byte>, token: seq<byte>, spki: seq<byte>) returns (d: Digest)
    ensures fresh(d) && d.fed == EnrollmentBytes(origin, route, token, spki)
  {
    hide Field;
    d := new Digest();
    d.Update(ENROLLMENT_TAG);
    d.UpdateField(origin);
    d.UpdateField(route);
    d.UpdateField(token);
    d.UpdateField(spki);
    Regrouped(ENROLLMENT_TAG, Field(origin), Field(route), Field(token), Field(spki));
  }

  lemma {:induction false} Regrouped(a: seq<byte>, b: seq<byte>, c: seq<byte>, d: seq<byte>, e: seq<byte>)
    ensures [] + a + b + c + d + e == a + (b + (c + (d + e)))
  {
  }

  /** A length-prefixed field can be split off in only one way. */
  lemma {:induction false} FieldSplits(a: seq<byte>, x: seq<byte>, b: seq<byte>, y: seq<byte>)
    requires |a| < U32 && |b| < U32
    requires Field(a) + x == Field(b) + y
    ensures a == b && x == y
  {
    hide ToBytes, FromBytes;
    Widths();
    FromTo(|a|, 4);
    FromTo(|b|, 4);
    var p, q := ToBytes(|a|, 4), ToBytes(|b|, 4);
    assert Field(a) == p + a && Field(b) == q + b;
    assert p + a + x == p + (a + x) && q + b + y == q + (b + y);
    SplitsAt(p, a + x, q, b + y);
    SplitsAt(a, x, b, y);
  }

  lemma {:induction false} SplitsAt(a: seq<byte>, x: seq<byte>, b: seq<byte>, y: seq<byte>)
    requires |a| == |b| && a + x == b + y
    ensures a == b && x == y
  {
    assert (a + x)[..|a|] == a && (b + y)[..|b|] == b;
    assert (a + x)[|a|..] == x && (b + y)[|b|..] == y;
  }

  /** Two enrollments that hash the same bytes are the same enrollment. */
  lemma {:induction false} EnrollmentIsUnambiguous(o1: seq<byte>, r1: seq<byte>, t1: seq<byte>, k1: seq<byte>,
                                o2: seq<byte>, r2: seq<byte>, t2: seq<byte>, k2: seq<byte>)
    requires |o1| < U32 && |r1| < U32 && |t1| < U32 && |k1| < U32
    requires |o2| < U32 && |r2| < U32 && |t2| < U32 && |k2| < U32
    requires EnrollmentBytes(o1, r1, t1, k1) == EnrollmentBytes(o2, r2, t2, k2)
    ensures o1 == o2 && r1 == r2 && t1 == t2 && k1 == k2
  {
    var n := |ENROLLMENT_TAG|;
    assert EnrollmentBytes(o1, r1, t1, k1)[n..] == Field(o1) + (Field(r1) + (Field(t1) + Field(k1)));
    assert EnrollmentBytes(o2, r2, t2, k2)[n..] == Field(o2) + (Field(r2) + (Field(t2) + Field(k2)));
    FieldSplits(o1, Field(r1) + (Field(t1) + Field(k1)), o2, Field(r2) + (Field(t2) + Field(k2)));
    FieldSplits(r1, Field(t1) + Field(k1), r2, Field(t2) + Field(k2));
    FieldSplits(t1, Field(k1), t2, Field(k2));
    assert Field(k1) + [] == Field(k1) && Field(k2) + [] == Field(k2);
    FieldSplits(k1, [], k2, []);
  }

  function Zeros(n: nat): (s: seq<byte>)
    ensures |s| == n && forall k :: 0 <= k < n ==> s[k] == 0
  {
    seq(n, k => 0)
  }

  /** The bound is exact: at 2^32 bytes the length prefix wraps and two different enrollments collide. */
  lemma {:induction false} EnrollmentAmbiguousAt32Bits(token: seq<byte>, spki: seq<byte>) returns (long: seq<byte>)
    ensures |long| == U32 && EnrollmentBytes(long, [], token, spki) == EnrollmentBytes([], long, token, spki)
  {
    long := Zeros(U32);
  }

  datatype Enrollment = Enrollment(origin: seq<byte>, route: seq<byte>, token: seq<byte>, spki: seq<byte>)

  ghost predicate WithinBound(e: Enrollment, bound: nat)
  {
    |e.origin| <= bound && |e.route| <= bound && |e.token| <= bound && |e.spki| <= bound
  }

  function Hashed(e: Enrollment): seq<byte>
  {
    EnrollmentBytes(e.origin, e.route, e.token, e.spki)
  }

  /** For every bound on the field lengths: the hashed bytes determine the enrollment if and only if the bound fits in 32
      bits. */
  lemma {:induction false} UnambiguousExactlyBelow32Bits(bound: nat)
    ensures (forall e, f :: WithinBound(e, bound) && WithinBound(f, bound) && Hashed(e) == Hashed(f) ==> e == f) <==> bound < U32
  {
    hide EnrollmentBytes;
    if bound < U32 {
      forall e, f | WithinBound(e, bound) && WithinBound(f, bound) && Hashed(e) == Hashed(f)
        ensures e == f
      {
        EnrollmentIsUnambiguous(e.origin, e.route, e.token, e.spki, f.origin, f.route, f.token, f.spki);
      }
    } else {
      var long := EnrollmentAmbiguousAt32Bits([], []);
      var e, f := Enrollment(long, [], [], []), Enrollment([], long, [], []);
      assert WithinBound(e, bound) && WithinBound(f, bound) && Hashed(e) == Hashed(f);
      assert |e.origin| != |f.origin|;
    }
  }

  /** At index i stands the length of the value, in four bytes, and then the value. */
  ghost predicate FieldAt(b: seq<byte>, i: nat, value: seq<byte>)
  {
    && i + 4 + |value| <= |b| && b[i + 4..i + 4 + |value|] == value
    && b[i] == |value| / 0x100_0000 % 256 && b[i + 1] == |value| / 0x1_0000 % 256
    && b[i + 2] == |value| / 256 % 256 && b[i + 3] == |value| % 256
  }

  lemma {:induction false} LengthBytes(n: nat)
    ensures ToBytes(n, 4) == [n / 0x100_0000 % 256, n / 0x1_0000 % 256, n / 256 % 256, n % 256]
  {
    hide ToBytes, Pow256;
    ByteAt(n, 4, 0);
    ByteAt(n, 4, 1);
    ByteAt(n, 4, 2);
    ByteAt(n, 4, 3);
    Widths();
    SmallWidths();
  }

  lemma {:induction false} SmallWidths()
    ensures Pow256(0) == 1 && Pow256(1) == 256
  {
  }

  lemma {:induction false} FieldStands(before: seq<byte>, value: seq<byte>, after: seq<byte>)
    requires |value| < U32
    ensures FieldAt(before + (Field(value) + after), |before|, value)
  {
    hide ToBytes;
    var n := |value|;
    LengthBytes(n);
    var b := before + (Field(value) + after);
    var i := |before|;
    assert Field(value) == ToBytes(n, 4) + value;
    assert b[i + 4..i + 4 + n] == value;
    assert forall k :: 0 <= k < 4 ==> b[i + k] == ToBytes(n, 4)[k];
  }

  /** The tag comes first, then origin, route, token hash and desktop key, and nothing else. */
  lemma {:induction false} EnrollmentPositions(e: Enrollment)
    requires WithinBound(e, U32 - 1)
    ensures var b := Hashed(e);
            var i := 27;
            var j := i + 4 + |e.origin|;
            var k := j + 4 + |e.route|;
            var l := k + 4 + |e.token|;
            && |b| == l + 4 + |e.spki| && b[..27] == ENROLLMENT_TAG
            && FieldAt(b, i, e.origin) && FieldAt(b, j, e.route) && FieldAt(b, k, e.token) && FieldAt(b, l, e.spki)
  {
    hide FieldAt, Field;
    var b := Hashed(e);
    var o, r, t, s := Field(e.origin), Field(e.route), Field(e.token), Field(e.spki);
    FieldLength(e.origin);
    FieldLength(e.route);
    FieldLength(e.token);
    FieldLength(e.spki);
    assert b == ENROLLMENT_TAG + (o + (r + (t + s)));
    assert b == (ENROLLMENT_TAG + o) + (r + (t + s));
    assert b == (ENROLLMENT_TAG + o + r) + (t + s);
    assert b == (ENROLLMENT_TAG + o + r + t) + (s + []);
    FieldStands(ENROLLMENT_TAG, e.origin, r + (t + s));
    FieldStands(ENROLLMENT_TAG + o, e.route, t + s);
    FieldStands(ENROLLMENT_TAG + o + r, e.token, s);
    FieldStands(ENROLLMENT_TAG + o + r + t, e.spki, []);
  }

  lemma {:induction false} FieldLength(value: seq<byte>)
    ensures |Field(value)| == 4 + |value|
  {
  }
}
