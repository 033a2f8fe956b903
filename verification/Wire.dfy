/**
 The tunnel's wire format (pkg/remotedialer/message.go): a header of zigzag varints
 (Go's encoding/binary; "Base 128 Varints" and "Signed Integers" of the Protocol Buffers
 encoding specification) followed by the raw payload.
 */
module Wire {
  import opened Text

  const TWO63 := 0x8000_0000_0000_0000
  const TWO41 := 0x200_0000_0000

  predicate Int64(x: int) { -TWO63 <= x < TWO63 }

  // ---------------------------------------------------------------- varints

  function Uvarint(x: nat): (r: Bytes)
    ensures |r| >= 1
  {
    if x < 128 then [x as byte] else [(x % 128 + 128) as byte] + Uvarint(x / 128)
  }

  /** The value and the unread rest; None on end of input or overflow of 64 bits. `i` counts bytes read before. */
  function ReadUvarint(s: Bytes, i: nat): (r: Option<(nat, Bytes)>)
    ensures r.Some? ==> |r.value.1| < |s|
  {
    if s == [] then None
    else if s[0] < 128 then
      if i > 9 || (i == 9 && s[0] > 1) then None else Some((s[0] as nat, s[1..]))
    else
      match ReadUvarint(s[1..], i + 1)
      case None => None
      case Some((high, rest)) => Some((s[0] as nat - 128 + 128 * high, rest))
  }

  function Zigzag(x: int): nat { if x >= 0 then 2 * x else -2 * x - 1 }

  function Unzigzag(u: nat): int { if u % 2 == 0 then u / 2 else -(u / 2) - 1 }

  function Varint(x: int): (r: Bytes) { Uvarint(Zigzag(x)) }

  function ReadVarint(s: Bytes): (r: Option<(int, Bytes)>) {
    match ReadUvarint(s, 0)
    case None => None
    case Some((u, rest)) => Some((Unzigzag(u), rest))
  }

  /** The largest value that may still follow `i` bytes of a 64-bit varint. */
  function Capacity(i: nat): nat { if i == 0 then 2 * TWO63 - 1 else Capacity(i - 1) / 128 }

  lemma LessDivided(x: nat, y: nat)
    requires x <= y
    ensures x / 128 <= y / 128
  {
  }

  lemma CapacityOfTheLast()
    ensures Capacity(9) == 1
  {
    assert Capacity(3) == 0x7ff_ffff_ffff && Capacity(6) == 0x3f_ffff;
  }

  lemma {:induction false} ReadUvarintUndoes(x: nat, rest: Bytes, i: nat)
    requires i <= 9 && x <= Capacity(i) && (i > 0 ==> x > 0)
    ensures ReadUvarint(Uvarint(x) + rest, i) == Some((x, rest))
    decreases x
  {
    CapacityOfTheLast();
    var s := Uvarint(x) + rest;
    if x < 128 {
      assert s[1..] == rest;
    } else {
      assert s[1..] == Uvarint(x / 128) + rest && s[0] as nat == x % 128 + 128;
      assert i < 9 && Capacity(i + 1) == Capacity(i) / 128;
      LessDivided(x, Capacity(i));
      ReadUvarintUndoes(x / 128, rest, i + 1);
    }
  }

  /** Every int64 survives the varint codec, and exactly its bytes are consumed. */
  lemma ReadVarintUndoes(x: int, rest: Bytes)
    requires Int64(x)
    ensures ReadVarint(Varint(x) + rest) == Some((x, rest))
  {
    ReadUvarintUndoes(Zigzag(x), rest, 0);
  }

  function Pow128(n: nat): nat { if n == 0 then 1 else 128 * Pow128(n - 1) }

  /** The number that bytes stand for, seven bits each, the lowest first. */
  function Base128(s: Bytes): nat { if s == [] then 0 else s[0] as nat % 128 + 128 * Base128(s[1..]) }

  /** A varint is the number in base 128: all bytes but the last have the high bit, and the last is not an
      empty one behind others. */
  lemma {:induction false} UvarintIsBase128(x: nat)
    ensures var r := Uvarint(x);
            && Base128(r) == x
            && (forall i :: 0 <= i < |r| ==> (r[i] >= 128 <==> i < |r| - 1))
            && (|r| > 1 ==> r[|r| - 1] != 0)
    decreases x
  {
    var r := Uvarint(x);
    if x < 128 {
      assert r[1..] == [];
    } else {
      UvarintIsBase128(x / 128);
      assert r[1..] == Uvarint(x / 128);
    }
  }

  /** Signed numbers are counted 0, -1, 1, -2, 2 and so on. */
  lemma ZigzagCounts(x: int)
    requires x >= 0
    ensures Zigzag(0) == 0
    ensures Zigzag(-x - 1) == Zigzag(x) + 1 && Zigzag(x + 1) == Zigzag(-x - 1) + 1
    ensures Unzigzag(Zigzag(x)) == x && Unzigzag(Zigzag(-x - 1)) == -x - 1
  {
  }

  lemma {:induction false} UvarintLength(x: nat, n: nat)
    requires n >= 1
    ensures |Uvarint(x)| <= n <==> x < Pow128(n)
    decreases n
  {
    if n > 1 {
      UvarintLength(x / 128, n - 1);
      if x < 128 { UvarintLength(0, n - 1); }
    }
  }

  // --------------------------------------------------------------- messages

  const DATA := 1
  const CONNECT := 2
  const ERROR := 3
  const ADD_CLIENT := 4
  const REMOVE_CLIENT := 5

  const HEADER_SIZE := 24
  const TEXT_LIMIT := 100

  /** An outgoing message: header fields plus the bytes that follow the header. */
  datatype Message = Message(id: int, connID: int, kind: int, deadline: int, bytes: Bytes)

  /** What newServerMessage hands to the session; `body` is what is left to read. */
  datatype Received = Received(id: int, connID: int, kind: int, deadline: int,
                               body: Bytes, proto: Bytes, address: Bytes)

  /** A Go error as the tunnel sees it: io.EOF is recognised, any other error is its text. */
  datatype Error = EOF | Failure(text: Bytes)

  const EOF_TEXT: Bytes := [69, 79, 70]

  function ErrorText(e: Error): Bytes { if e.EOF? then EOF_TEXT else e.text }

  function ErrorFromText(text: Bytes): Error { if text == EOF_TEXT then EOF else Failure(text) }

  /** Go's `/`: truncation toward zero. */
  function Quot(a: int, b: int): int
    requires b > 0
  {
    if a >= 0 then a / b else -((-a) / b)
  }

  function Millis(nanos: int): int { Quot(nanos, 1000000) }

  function NewMessage(id: int, connID: int, deadline: int, bytes: Bytes): Message {
    Message(id, connID, DATA, deadline, bytes)
  }

  function NewConnect(id: int, connID: int, nanos: int, proto: Bytes, address: Bytes): Message {
    Message(id, connID, CONNECT, Millis(nanos), proto + [SLASH] + address)
  }

  function NewErrorMessage(id: int, connID: int, err: Error): Message {
    Message(id, connID, ERROR, 0, ErrorText(err))
  }

  function NewAddClient(id: int, client: Bytes): Message {
    Message(id, 0, ADD_CLIENT, 0, client)
  }

  function NewRemoveClient(id: int, client: Bytes): Message {
    Message(id, 0, REMOVE_CLIENT, 0, client)
  }

  predicate HasDeadline(kind: int) { kind == DATA || kind == CONNECT }

  function HeaderBytes(m: Message): Bytes {
    Varint(m.id) + Varint(m.connID) + Varint(m.kind) +
    (if HasDeadline(m.kind) then Varint(m.deadline) else [])
  }

  function Encode(m: Message): Bytes { HeaderBytes(m) + m.bytes }

  function Limit(s: Bytes): Bytes { if |s| <= TEXT_LIMIT then s else s[..TEXT_LIMIT] }

  function Unread(s: Bytes): Bytes { if |s| <= TEXT_LIMIT then [] else s[TEXT_LIMIT..] }

  function DecodeBody(id: int, connID: int, kind: int, deadline: int, rest: Bytes): Option<Received> {
    if kind == CONNECT then
      match Cut(Limit(rest), [SLASH])
      case None => None
      case Some((proto, address)) =>
        Some(Received(id, connID, kind, deadline, Unread(rest), proto, address))
    else if kind == ADD_CLIENT || kind == REMOVE_CLIENT then
      Some(Received(id, connID, kind, deadline, Unread(rest), [], Limit(rest)))
    else
      Some(Received(id, connID, kind, deadline, rest, [], []))
  }

  /** newServerMessage: None stands for every error return. */
  function Decode(s: Bytes): Option<Received> {
    match ReadVarint(s)
    case None => None
    case Some((id, s1)) =>
      match ReadVarint(s1)
      case None => None
      case Some((connID, s2)) =>
        match ReadVarint(s2)
        case None => None
        case Some((kind, s3)) =>
          if !HasDeadline(kind) then DecodeBody(id, connID, kind, 0, s3)
          else
            match ReadVarint(s3)
            case None => None
            case Some((deadline, s4)) => DecodeBody(id, connID, kind, deadline, s4)
  }

  /** message.Err on a received message. */
  function ReceivedError(r: Received): Error { ErrorFromText(Limit(r.body)) }

  predicate WellSized(m: Message) {
    Int64(m.id) && Int64(m.connID) && Int64(m.kind) && Int64(m.deadline)
  }

  /** The four header fields survive for every int64, whatever follows them. */
  lemma DecodeUndoesHeader(m: Message)
    requires WellSized(m)
    ensures Decode(Encode(m)) ==
            DecodeBody(m.id, m.connID, m.kind, if HasDeadline(m.kind) then m.deadline else 0, m.bytes)
  {
    var dl := if HasDeadline(m.kind) then Varint(m.deadline) else [];
    var s3 := dl + m.bytes;
    var s2 := Varint(m.kind) + s3;
    var s1 := Varint(m.connID) + s2;
    assert Encode(m) == Varint(m.id) + s1;
    ReadVarintUndoes(m.id, s1);
    ReadVarintUndoes(m.connID, s2);
    ReadVarintUndoes(m.kind, s3);
    if HasDeadline(m.kind) {
      ReadVarintUndoes(m.deadline, m.bytes);
    } else {
      assert s3 == m.bytes;
    }
  }

  lemma DataRoundTrip(id: int, connID: int, deadline: int, bytes: Bytes)
    requires Int64(id) && Int64(connID) && Int64(deadline)
    ensures Decode(Encode(NewMessage(id, connID, deadline, bytes)))
         == Some(Received(id, connID, DATA, deadline, bytes, [], []))
  {
    DecodeUndoesHeader(NewMessage(id, connID, deadline, bytes));
  }

  /** Whole milliseconds, cut off toward zero. */
  lemma MillisCutsOff(nanos: int)
    ensures nanos >= 0 ==> 1000000 * Millis(nanos) <= nanos < 1000000 * (Millis(nanos) + 1)
    ensures nanos <= 0 ==> 1000000 * (Millis(nanos) - 1) < nanos <= 1000000 * Millis(nanos)
  {
  }

  /** Small messages, byte by byte: the ID, the connection, the kind, the deadline of those kinds that have
      one, each doubled, and then the payload. */
  lemma BytesOnTheWire(id: nat, connID: nat, ms: nat, bytes: Bytes, proto: Bytes, address: Bytes)
    requires id < 64 && connID < 64 && ms < 64
    ensures var head: Bytes := [(2 * id) as byte, (2 * connID) as byte];
            && Encode(NewMessage(id, connID, ms, bytes)) == head + [2, (2 * ms) as byte] + bytes
            && Encode(NewConnect(id, connID, 1000000 * ms, proto, address))
               == head + [4, (2 * ms) as byte] + proto + [47] + address
            && Encode(NewErrorMessage(id, connID, Failure(bytes))) == head + [6] + bytes
            && Encode(NewErrorMessage(id, connID, EOF)) == head + [6] + [69, 79, 70]
            && Encode(NewAddClient(id, bytes)) == [(2 * id) as byte, 0, 8] + bytes
            && Encode(NewRemoveClient(id, bytes)) == [(2 * id) as byte, 0, 10] + bytes
  {
    assert Millis(1000000 * ms) == ms;
    SmallVarint(id);
    SmallVarint(connID);
    SmallVarint(ms);
    SmallVarint(0);
    SmallVarint(1);
    SmallVarint(2);
    SmallVarint(3);
    SmallVarint(4);
    SmallVarint(5);
  }

  lemma SmallVarint(x: nat)
    requires x < 64
    ensures Varint(x) == [(2 * x) as byte]
  {
  }

  lemma MillisIsInt64(nanos: int)
    requires Int64(nanos)
    ensures Int64(Millis(nanos))
  {}

  /** A dial request survives exactly when the protocol has no slash and the text fits in 100 bytes. */
  lemma ConnectRoundTrip(id: int, connID: int, nanos: int, proto: Bytes, address: Bytes)
    requires Int64(id) && Int64(connID) && Int64(nanos)
    ensures Decode(Encode(NewConnect(id, connID, nanos, proto, address)))
            == Some(Received(id, connID, CONNECT, Millis(nanos), [], proto, address))
       <==> SLASH !in proto && |proto| + 1 + |address| <= 100
  {
    var text := proto + [SLASH] + address;
    MillisIsInt64(nanos);
    DecodeUndoesHeader(NewConnect(id, connID, nanos, proto, address));
    if |text| <= TEXT_LIMIT {
      CutJoinOne(proto, SLASH, address);
    } else {
      var r := Cut(Limit(text), [SLASH]);
      assert r.Some? ==> |r.value.0| + 1 + |r.value.1| == TEXT_LIMIT;
    }
  }

  lemma AddClientRoundTrip(id: int, client: Bytes)
    requires Int64(id)
    ensures Decode(Encode(NewAddClient(id, client)))
            == Some(Received(id, 0, ADD_CLIENT, 0, [], [], client))
       <==> |client| <= 100
  {
    DecodeUndoesHeader(NewAddClient(id, client));
  }

  lemma RemoveClientRoundTrip(id: int, client: Bytes)
    requires Int64(id)
    ensures Decode(Encode(NewRemoveClient(id, client)))
            == Some(Received(id, 0, REMOVE_CLIENT, 0, [], [], client))
       <==> |client| <= 100
  {
    DecodeUndoesHeader(NewRemoveClient(id, client));
  }

  /** Error messages always arrive; the error itself survives up to 100 bytes, and "EOF" becomes io.EOF. */
  lemma ErrorRoundTrip(id: int, connID: int, err: Error)
    requires Int64(id) && Int64(connID)
    ensures var r := Decode(Encode(NewErrorMessage(id, connID, err)));
            && r == Some(Received(id, connID, ERROR, 0, ErrorText(err), [], []))
            && (ReceivedError(r.value) == err <==>
                |ErrorText(err)| <= 100 && err != Failure(EOF_TEXT))
  {
    DecodeUndoesHeader(NewErrorMessage(id, connID, err));
  }

  // ----------------------------------------------------------- peer routing

  /** toDialer: the protocol field of a dial that goes through a peer. */
  function PeerProto(clientKey: Bytes, proto: Bytes): Bytes {
    if clientKey == [] then proto else clientKey + [COLON, COLON] + proto
  }

  /** The routing dialer of a peer session. */
  function SplitPeerProto(network: Bytes): Option<(Bytes, Bytes)> { Cut(network, [COLON, COLON]) }

  predicate RoutableKey(clientKey: Bytes) {
    && clientKey != []
    && !Contains(clientKey, [COLON, COLON])
    && clientKey[|clientKey| - 1] != COLON
  }

  lemma PeerProtoRoundTrip(clientKey: Bytes, proto: Bytes)
    requires clientKey != []
    ensures SplitPeerProto(PeerProto(clientKey, proto)) == Some((clientKey, proto)) <==> RoutableKey(clientKey)
  {
    CutJoinTwice(clientKey, COLON, proto);
  }

  /** End to end: a dial sent through a peer reaches the requested client, protocol and address. */
  lemma PeerDialRoundTrip(id: int, connID: int, nanos: int, clientKey: Bytes, proto: Bytes, address: Bytes)
    requires Int64(id) && Int64(connID) && Int64(nanos)
    requires RoutableKey(clientKey) && SLASH !in clientKey && SLASH !in proto
    requires |clientKey| + 2 + |proto| + 1 + |address| <= 100
    ensures PeerProto(clientKey, proto) == clientKey + [58, 58] + proto
    ensures var r := Decode(Encode(NewConnect(id, connID, nanos, PeerProto(clientKey, proto), address)));
            && r.Some?
            && SplitPeerProto(r.value.proto) == Some((clientKey, proto))
            && r.value.address == address
  {
    ConnectRoundTrip(id, connID, nanos, PeerProto(clientKey, proto), address);
    PeerProtoRoundTrip(clientKey, proto);
  }

  // ----------------------------------------------------- the header's buffer

  /** binary.PutVarint at an offset; None is the out-of-range panic. */
  method PutVarint(buf: array<byte>, offset: nat, x: int) returns (n: Option<nat>)
    requires offset <= buf.Length
    modifies buf
    ensures n == if offset + |Varint(x)| <= buf.Length then Some(|Varint(x)|) else None
    ensures n.Some? ==> buf[..offset + n.value] == old(buf[..offset]) + Varint(x)
  {
    var u, i := Zigzag(x), 0;
    ghost var written: Bytes := [];
    while u >= 128
      invariant |written| == i && offset + i <= buf.Length
      invariant buf[..offset + i] == old(buf[..offset]) + written
      invariant Varint(x) == written + Uvarint(u)
      decreases u
    {
      if offset + i == buf.Length { return None; }
      buf[offset + i] := (u % 128 + 128) as byte;
      written := written + [buf[offset + i]];
      i, u := i + 1, u / 128;
    }
    if offset + i == buf.Length { return None; }
    buf[offset + i] := u as byte;
    n := Some(i + 1);
  }

  /** message.header: the fields written one after the other into a 24-byte buffer. */
  method Header(m: Message) returns (h: Option<Bytes>)
    ensures h == if |HeaderBytes(m)| <= HEADER_SIZE then Some(HeaderBytes(m)) else None
  {
    var buf := new byte[HEADER_SIZE];
    var n1 := PutVarint(buf, 0, m.id);
    if n1.None? { return None; }
    var offset := n1.value;
    assert buf[..offset] == Varint(m.id);
    var n2 := PutVarint(buf, offset, m.connID);
    if n2.None? { return None; }
    offset := offset + n2.value;
    var n3 := PutVarint(buf, offset, m.kind);
    if n3.None? { return None; }
    offset := offset + n3.value;
    assert buf[..offset] == Varint(m.id) + Varint(m.connID) + Varint(m.kind);
    if HasDeadline(m.kind) {
      var n4 := PutVarint(buf, offset, m.deadline);
      if n4.None? { return None; }
      offset := offset + n4.value;
    }
    assert buf[..offset] == HeaderBytes(m);
    h := Some(buf[..offset]);
  }

  lemma VarintLength(x: int, n: nat)
    requires n >= 1
    ensures |Varint(x)| <= n <==> Zigzag(x) < Pow128(n)
  {
    UvarintLength(Zigzag(x), n);
  }

  lemma Pow128Table()
    ensures Pow128(1) == 128 && Pow128(6) == 2 * TWO41 && Pow128(7) == 256 * TWO41
    ensures Pow128(9) == TWO63 && Pow128(10) == 128 * TWO63
  {
    assert Pow128(3) == 0x20_0000;
  }

  predicate Fits(id: int, connID: int, kind: int, nanos: int) {
    |HeaderBytes(Message(id, connID, kind, Millis(nanos), []))| <= HEADER_SIZE
  }

  /** The header never overruns its buffer for any id, any deadline and any connection ID in [-2^41, 2^41). */
  lemma HeaderFits(id: int, connID: int, kind: int, nanos: int)
    requires Int64(id) && Int64(nanos) && -TWO41 <= connID < TWO41 && DATA <= kind <= REMOVE_CLIENT
    ensures Fits(id, connID, kind, nanos)
  {
    Pow128Table();
    VarintLength(id, 10);
    VarintLength(connID, 6);
    VarintLength(kind, 1);
    VarintLength(Millis(nanos), 7);
  }

  /** ... and outside that range some id and deadline do overrun it: the bound is exact. */
  lemma HeaderBoundIsExact(connID: int, kind: int)
    requires HasDeadline(kind)
    ensures (forall id, nanos :: Int64(id) && Int64(nanos) ==> Fits(id, connID, kind, nanos))
       <==> -TWO41 <= connID < TWO41
  {
    if -TWO41 <= connID < TWO41 {
      forall id, nanos | Int64(id) && Int64(nanos)
        ensures Fits(id, connID, kind, nanos)
      {
        HeaderFits(id, connID, kind, nanos);
      }
    } else {
      Pow128Table();
      var id, nanos := -TWO63, -TWO63;
      VarintLength(id, 9);
      VarintLength(connID, 6);
      VarintLength(Millis(nanos), 6);
      assert !Fits(id, connID, kind, nanos);
    }
  }
}
