/** WebSocket frames (rest/websocket.go): the reader of masked client frames and the writer of server frames, against the
    frame format of sections 5.2 and 5.3 of RFC 6455. */
module WebSocket {
  import opened GoStrings

  type Byte = x: int | 0 <= x < 256
  type Bytes = seq<Byte>

  const MAX_INT64 := 0x7fff_ffff_ffff_ffff

  // ------------------------------------------------------------ bytes

  function Pow2(k: nat): nat {
    if k == 0 then 1 else 2 * Pow2(k - 1)
  }

  /** The exclusive or of the low `bits` bits. */
  function Xor(a: nat, b: nat, bits: nat): nat
    decreases bits
  {
    if bits == 0 then 0 else (a % 2 + b % 2) % 2 + 2 * Xor(a / 2, b / 2, bits - 1)
  }

  lemma LowBit(low: nat, high: nat)
    requires low < 2
    ensures (low + 2 * high) / 2 == high && (low + 2 * high) % 2 == low
  {
  }

  lemma BitTwice(x: nat, y: nat)
    ensures ((x % 2 + y % 2) % 2 + y % 2) % 2 == x % 2
  {
  }

  lemma {:induction false} XorTwice(a: nat, b: nat, bits: nat)
    requires a < Pow2(bits)
    ensures Xor(a, b, bits) < Pow2(bits) && Xor(Xor(a, b, bits), b, bits) == a
    decreases bits
  {
    if bits != 0 {
      XorTwice(a / 2, b / 2, bits - 1);
      LowBit((a % 2 + b % 2) % 2, Xor(a / 2, b / 2, bits - 1));
      BitTwice(a, b);
    }
  }

  function XorByte(a: Byte, b: Byte): Byte {
    assert Pow2(8) == 256;
    XorTwice(a, b, 8);
    Xor(a, b, 8)
  }

  lemma XorByteTwice(a: Byte, b: Byte)
    ensures XorByte(XorByte(a, b), b) == a
  {
    assert Pow2(8) == 256;
    XorTwice(a, b, 8);
  }

  function Pow256(k: nat): nat {
    if k == 0 then 1 else 256 * Pow256(k - 1)
  }

  function BigEndian(bytes: Bytes): nat {
    if bytes == [] then 0 else 256 * BigEndian(bytes[..|bytes| - 1]) + bytes[|bytes| - 1]
  }

  function PutBigEndian(n: nat, k: nat): Bytes {
    if k == 0 then [] else PutBigEndian(n / 256, k - 1) + [n % 256]
  }

  lemma {:induction false} BigEndianReadsBack(n: nat, k: nat)
    requires n < Pow256(k)
    ensures |PutBigEndian(n, k)| == k && BigEndian(PutBigEndian(n, k)) == n
  {
    if k != 0 {
      BigEndianReadsBack(n / 256, k - 1);
      var head := PutBigEndian(n / 256, k - 1);
      assert PutBigEndian(n, k)[..|head|] == head;
    }
  }

  lemma {:induction false} BigEndianWritesBack(bytes: Bytes)
    ensures BigEndian(bytes) < Pow256(|bytes|) && PutBigEndian(BigEndian(bytes), |bytes|) == bytes
  {
    if bytes != [] {
      var head, last := bytes[..|bytes| - 1], bytes[|bytes| - 1];
      BigEndianWritesBack(head);
      assert bytes == head + [last];
      assert (256 * BigEndian(head) + last) / 256 == BigEndian(head);
    }
  }

  lemma Powers()
    ensures Pow256(2) == 0x1_0000 && Pow256(8) == 0x1_0000_0000_0000_0000
  {
    assert Pow256(1) == 256;
    assert Pow256(4) == 0x1_0000_0000 by { assert Pow256(3) == 0x100_0000; }
    assert Pow256(6) == 0x1_0000_0000_0000 by { assert Pow256(5) == 0x100_0000_0000; }
  }

  // ------------------------------------------------ frames, as the RFC has them

  /** The three ways to write a payload length. */
  datatype Form = Short | Medium | Long

  predicate Fits(form: Form, n: nat) {
    match form
    case Short => n < 126
    case Medium => n < 0x1_0000
    case Long => n < 0x1_0000_0000_0000_0000
  }

  function Masked(payload: Bytes, mask: Bytes): Bytes
    requires |mask| == 4
  {
    seq(|payload|, i requires 0 <= i < |payload| => XorByte(payload[i], mask[i % 4]))
  }

  lemma MaskedTwice(payload: Bytes, mask: Bytes)
    requires |mask| == 4
    ensures Masked(Masked(payload, mask), mask) == payload
  {
    forall i | 0 <= i < |payload| ensures Masked(Masked(payload, mask), mask)[i] == payload[i] {
      XorByteTwice(payload[i], mask[i % 4]);
    }
  }

  /** A final masked frame from a client, with any reserved bits and any length form that fits. */
  datatype ClientFrame = ClientFrame(rsv: int, opcode: int, form: Form, mask: Bytes, payload: Bytes) {
    predicate Valid() {
      0 <= rsv < 8 && 0 <= opcode < 16 && |mask| == 4 && Fits(form, |payload|)
    }
  }

  /** The length byte, with the mask bit given, and the extended length. */
  function LengthBytes(maskBit: int, form: Form, n: nat): Bytes
    requires Fits(form, n) && (maskBit == 0 || maskBit == 128)
  {
    match form
    case Short => [maskBit + n]
    case Medium => [maskBit + 126] + PutBigEndian(n, 2)
    case Long => [maskBit + 127] + PutBigEndian(n, 8)
  }

  function Encode(f: ClientFrame): Bytes
    requires f.Valid()
  {
    [128 + 16 * f.rsv + f.opcode] + LengthBytes(128, f.form, |f.payload|) + f.mask + Masked(f.payload, f.mask)
  }

  // ------------------------------------------------------------ the reader

  datatype ReadError = Eof | UnexpectedEof | BadFlags | TooBig

  datatype Message = Message(opcode: int, payload: Bytes)

  /** What a read yields and what it leaves in the stream. */
  datatype Read<T> = Read(result: Result<T, ReadError>, rest: Bytes)

  /** `io.ReadFull` for `n` bytes. */
  function Take(stream: Bytes, n: nat): Read<Bytes> {
    if n <= |stream| then Read(Ok(stream[..n]), stream[n..])
    else Read(Err(if stream == [] then Eof else UnexpectedEof), [])
  }

  function ExtendedBytes(len7: nat): nat {
    if len7 == 126 then 2 else if len7 == 127 then 8 else 0
  }

  function PayloadLength(len7: nat, extended: Bytes): nat {
    if len7 == 126 || len7 == 127 then BigEndian(extended) else len7
  }

  function ReadBody(stream: Bytes, opcode: int, n: nat): Read<Message> {
    var mask := Take(stream, 4);
    if mask.result.Err? then Read(Err(mask.result.error), mask.rest)
    else
      var body := Take(mask.rest, n);
      if body.result.Err? then Read(Err(body.result.error), body.rest)
      else Read(Ok(Message(opcode, Masked(body.result.value, mask.result.value))), body.rest)
  }

  predicate WithinLimit(n: nat, max: int) {
    max > 0 && n <= MAX_INT64 && n <= max
  }

  function ReadLength(stream: Bytes, len7: nat): Read<nat> {
    var extended := Take(stream, ExtendedBytes(len7));
    if extended.result.Err? then Read(Err(extended.result.error), extended.rest)
    else Read(Ok(PayloadLength(len7, extended.result.value)), extended.rest)
  }

  /** One call of `readFrame`. */
  function ReadFrame(stream: Bytes, max: int): Read<Message> {
    var header := Take(stream, 2);
    if header.result.Err? then Read(Err(header.result.error), header.rest)
    else
      var h := header.result.value;
      if h[0] < 128 || h[1] < 128 then Read(Err(BadFlags), header.rest)
      else
        var length := ReadLength(header.rest, h[1] % 128);
        if length.result.Err? then Read(Err(length.result.error), length.rest)
        else if !WithinLimit(length.result.value, max) then Read(Err(TooBig), length.rest)
        else ReadBody(length.rest, h[0] % 16, length.result.value)
  }

  // ----------------------------------------------------- frames read back

  lemma Regroup<T>(a: T, length: seq<T>, mask: seq<T>, body: seq<T>, rest: seq<T>)
    requires length != []
    ensures [a] + length + mask + body + rest == [a, length[0]] + (length[1..] + (mask + body + rest))
  {
    assert length == [length[0]] + length[1..];
  }

  lemma Associates<T>(a: seq<T>, b: seq<T>, c: seq<T>)
    ensures (a + b) + c == a + (b + c)
  {
  }

  lemma ExtendedReadsBack(len7: nat, n: nat, k: nat, rest: Bytes)
    requires (len7 == 126 && k == 2 && n < 0x1_0000) || (len7 == 127 && k == 8 && n < 0x1_0000_0000_0000_0000)
    ensures ReadLength(PutBigEndian(n, k) + rest, len7) == Read(Ok(n), rest)
  {
    Powers();
    BigEndianReadsBack(n, k);
  }

  lemma ShortReadsBack(n: nat, rest: Bytes)
    requires n < 126
    ensures ReadLength(rest, n) == Read(Ok(n), rest)
  {
    assert rest[..0] == [] && rest[0..] == rest;
  }

  lemma LengthByte(maskBit: int, len7: nat)
    requires len7 < 128 && (maskBit == 0 || maskBit == 128)
    ensures (maskBit + len7) % 128 == len7 && (maskBit + len7 < 128 <==> maskBit == 0)
  {
  }

  lemma ExtendedLength(maskBit: int, len7: nat, n: nat, k: nat, rest: Bytes)
    requires (len7 == 126 && k == 2 && n < 0x1_0000) || (len7 == 127 && k == 8 && n < 0x1_0000_0000_0000_0000)
    requires maskBit == 0 || maskBit == 128
    ensures var b: Bytes := [maskBit + len7] + PutBigEndian(n, k);
            (b[0] < 128 <==> maskBit == 0) && ReadLength(b[1..] + rest, b[0] % 128) == Read(Ok(n), rest)
  {
    LengthByte(maskBit, len7);
    assert ([maskBit + len7] + PutBigEndian(n, k))[1..] == PutBigEndian(n, k);
    ExtendedReadsBack(len7, n, k, rest);
  }

  /** The length byte and the extended length give the length back, whichever form was used. */
  lemma LengthReadsBack(maskBit: int, form: Form, n: nat, rest: Bytes)
    requires Fits(form, n) && (maskBit == 0 || maskBit == 128)
    ensures var b := LengthBytes(maskBit, form, n);
            b != [] && (b[0] < 128 <==> maskBit == 0) && ReadLength(b[1..] + rest, b[0] % 128) == Read(Ok(n), rest)
  {
    match form
    case Short =>
      LengthByte(maskBit, n);
      assert LengthBytes(maskBit, form, n)[1..] + rest == rest;
      ShortReadsBack(n, rest);
    case Medium => ExtendedLength(maskBit, 126, n, 2, rest);
    case Long => ExtendedLength(maskBit, 127, n, 8, rest);
  }

  lemma BodyReadsBack(mask: Bytes, payload: Bytes, opcode: int, rest: Bytes)
    requires |mask| == 4
    ensures ReadBody(mask + Masked(payload, mask) + rest, opcode, |payload|) == Read(Ok(Message(opcode, payload)), rest)
  {
    var body := Masked(payload, mask);
    assert mask + body + rest == mask + (body + rest);
    MaskedTwice(payload, mask);
  }

  lemma HeaderReads(b: Byte, l: Byte, following: Bytes, n: nat, tail: Bytes, max: int)
    requires b >= 128 && l >= 128 && ReadLength(following, l % 128) == Read(Ok(n), tail)
    ensures ReadFrame([b, l] + following, max) == if WithinLimit(n, max) then ReadBody(tail, b % 16, n) else Read(Err(TooBig), tail)
  {
  }

  lemma FirstByteBits(rsv: int, opcode: int)
    requires 0 <= rsv && 0 <= opcode < 16
    ensures (128 + 16 * rsv + opcode) % 16 == opcode
  {
  }

  /** Reading a frame comes down to reading its mask and body. */
  lemma HeaderOfFrameReads(f: ClientFrame, tail: Bytes, rest: Bytes, max: int)
    requires f.Valid() && tail == f.mask + Masked(f.payload, f.mask) + rest
    ensures ReadFrame(Encode(f) + rest, max) ==
            if WithinLimit(|f.payload|, max) then ReadBody(tail, f.opcode, |f.payload|) else Read(Err(TooBig), tail)
  {
    var n, first, length := |f.payload|, 128 + 16 * f.rsv + f.opcode, LengthBytes(128, f.form, |f.payload|);
    FirstByteBits(f.rsv, f.opcode);
    LengthReadsBack(128, f.form, n, tail);
    Regroup(first, length, f.mask, Masked(f.payload, f.mask), rest);
    HeaderReads(first, length[0], length[1..] + tail, n, tail, max);
  }

  /** A final masked frame is read back with its opcode and payload, and what follows it stays in the stream; over the
      limit it is refused. */
  lemma FrameReadsBack(f: ClientFrame, rest: Bytes, max: int)
    requires f.Valid()
    ensures WithinLimit(|f.payload|, max) ==> ReadFrame(Encode(f) + rest, max) == Read(Ok(Message(f.opcode, f.payload)), rest)
    ensures !WithinLimit(|f.payload|, max) ==> ReadFrame(Encode(f) + rest, max).result == Err(TooBig)
  {
    HeaderOfFrameReads(f, f.mask + Masked(f.payload, f.mask) + rest, rest, max);
    BodyReadsBack(f.mask, f.payload, f.opcode, rest);
  }

  function EncodeAll(frames: seq<ClientFrame>): Bytes
    requires forall i :: 0 <= i < |frames| ==> frames[i].Valid()
  {
    if frames == [] then [] else Encode(frames[0]) + EncodeAll(frames[1..])
  }

  /** `n` calls of `readFrame`, one after the other. */
  function ReadFrames(stream: Bytes, max: int, n: nat): (seq<Result<Message, ReadError>>, Bytes)
    decreases n
  {
    if n == 0 then ([], stream)
    else
      var first := ReadFrame(stream, max);
      var others := ReadFrames(first.rest, max, n - 1);
      ([first.result] + others.0, others.1)
  }

  function MessagesOf(frames: seq<ClientFrame>): seq<Result<Message, ReadError>> {
    if frames == [] then [] else [Ok(Message(frames[0].opcode, frames[0].payload))] + MessagesOf(frames[1..])
  }

  lemma FirstReadsBack(f: ClientFrame, others: Bytes, max: int, n: nat)
    requires f.Valid() && WithinLimit(|f.payload|, max) && n > 0
    ensures var tail := ReadFrames(others, max, n - 1);
            ReadFrames(Encode(f) + others, max, n) == ([Ok(Message(f.opcode, f.payload))] + tail.0, tail.1)
  {
    FrameReadsBack(f, others, max);
  }

  /** Any sequence of final masked frames within the limit is read back frame by frame, and the rest of the stream is
      untouched. */
  lemma {:induction false} StreamReadsBack(frames: seq<ClientFrame>, rest: Bytes, max: int)
    requires forall i :: 0 <= i < |frames| ==> frames[i].Valid() && WithinLimit(|frames[i].payload|, max)
    ensures ReadFrames(EncodeAll(frames) + rest, max, |frames|) == (MessagesOf(frames), rest)
  {
    if frames == [] {
      assert EncodeAll(frames) + rest == rest;
    } else {
      var first, others := Encode(frames[0]), EncodeAll(frames[1..]);
      assert first + others + rest == first + (others + rest);
      FirstReadsBack(frames[0], others + rest, max, |frames|);
      StreamReadsBack(frames[1..], rest, max);
    }
  }

  // ------------------------------------------------ nothing else is accepted

  /** The length form that the length byte announces. */
  function FormOf(len7: nat): Form {
    if len7 == 126 then Medium else if len7 == 127 then Long else Short
  }

  lemma LengthWritesBack(l: Byte, stream: Bytes)
    requires l >= 128 && ReadLength(stream, l - 128).result.Ok?
    ensures var length := ReadLength(stream, l - 128); var n := length.result.value;
            Fits(FormOf(l - 128), n) && [l] + stream == LengthBytes(128, FormOf(l - 128), n) + length.rest
  {
    Powers();
    var k := ExtendedBytes(l - 128);
    BigEndianWritesBack(stream[..k]);
    assert [l] + stream == [l] + stream[..k] + stream[k..];
  }

  lemma BodyWritesBack(stream: Bytes, opcode: int, n: nat)
    requires ReadBody(stream, opcode, n).result.Ok?
    ensures var body := ReadBody(stream, opcode, n); var payload := body.result.value.payload;
            |stream| >= 4 && |payload| == n && stream == stream[..4] + Masked(payload, stream[..4]) + body.rest
  {
    var mask := stream[..4];
    MaskedTwice(stream[4..][..n], mask);
    assert stream == mask + stream[4..][..n] + stream[4..][n..];
  }

  /** The steps of a read that succeeded. */
  lemma AcceptedSteps(stream: Bytes, max: int)
    requires ReadFrame(stream, max).result.Ok?
    ensures |stream| >= 2 && stream[0] >= 128 && stream[1] >= 128
    ensures var length := ReadLength(stream[2..], stream[1] - 128);
            length.result.Ok? && WithinLimit(length.result.value, max)
            && ReadFrame(stream, max) == ReadBody(length.rest, stream[0] % 16, length.result.value)
  {
    var b, l := stream[0], stream[1];
    assert stream[..2] == [b, l];
    assert l >= 128 ==> l % 128 == l - 128;
  }

  /** Only such frames are accepted: a message comes from a final masked frame at the head of the stream, within the
      limit, and the reader takes exactly that frame. */
  lemma AcceptedIsFrame(stream: Bytes, max: int) returns (f: ClientFrame)
    requires ReadFrame(stream, max).result.Ok?
    ensures f.Valid() && WithinLimit(|f.payload|, max)
    ensures stream == Encode(f) + ReadFrame(stream, max).rest
    ensures ReadFrame(stream, max).result == Ok(Message(f.opcode, f.payload))
  {
    AcceptedSteps(stream, max);
    f := FrameAt(stream, ReadLength(stream[2..], stream[1] - 128));
  }

  lemma FrameAt(stream: Bytes, length: Read<nat>) returns (f: ClientFrame)
    requires |stream| >= 2 && stream[0] >= 128 && stream[1] >= 128
    requires length == ReadLength(stream[2..], stream[1] - 128) && length.result.Ok?
    requires ReadBody(length.rest, stream[0] % 16, length.result.value).result.Ok?
    ensures var body := ReadBody(length.rest, stream[0] % 16, length.result.value);
            && f.Valid() && |f.payload| == length.result.value
            && stream == Encode(f) + body.rest && body.result == Ok(Message(f.opcode, f.payload))
  {
    LengthWritesBack(stream[1], stream[2..]);
    BodyWritesBack(length.rest, stream[0] % 16, length.result.value);
    f := Assemble(stream, FormOf(stream[1] - 128), length.rest, ReadBody(length.rest, stream[0] % 16, length.result.value));
  }

  lemma FirstByte(b: Byte)
    requires b >= 128
    ensures 0 <= (b - 128) / 16 < 8 && b == 128 + 16 * ((b - 128) / 16) + b % 16
  {
  }

  lemma Assemble(stream: Bytes, form: Form, tail: Bytes, body: Read<Message>) returns (f: ClientFrame)
    requires |stream| >= 2 && stream[0] >= 128 && body.result.Ok? && |tail| >= 4
    requires Fits(form, |body.result.value.payload|)
    requires [stream[1]] + stream[2..] == LengthBytes(128, form, |body.result.value.payload|) + tail
    requires tail == tail[..4] + Masked(body.result.value.payload, tail[..4]) + body.rest
    ensures f.Valid() && f.opcode == stream[0] % 16 && f.payload == body.result.value.payload
    ensures stream == Encode(f) + body.rest
  {
    var b := stream[0];
    f := ClientFrame((b - 128) / 16, b % 16, form, tail[..4], body.result.value.payload);
    FirstByte(b);
    Rejoin(stream, LengthBytes(128, form, |f.payload|), f.mask, Masked(f.payload, f.mask), body.rest);
  }

  lemma Rejoin<T>(stream: seq<T>, length: seq<T>, mask: seq<T>, body: seq<T>, rest: seq<T>)
    requires |stream| >= 2 && [stream[1]] + stream[2..] == length + (mask + body + rest)
    ensures stream == [stream[0]] + length + mask + body + rest
  {
    assert stream == [stream[0]] + ([stream[1]] + stream[2..]);
  }

  /** Bytes that arrive later do not change a message that was read. */
  lemma LaterBytesDoNotMatter(stream: Bytes, more: Bytes, max: int)
    requires ReadFrame(stream, max).result.Ok?
    ensures ReadFrame(stream + more, max) == Read(ReadFrame(stream, max).result, ReadFrame(stream, max).rest + more)
  {
    var f := AcceptedIsFrame(stream, max);
    Associates(Encode(f), ReadFrame(stream, max).rest, more);
    FrameReadsBack(f, ReadFrame(stream, max).rest + more, max);
  }

  // ------------------------------------------------------------ the writer

  function ShortestForm(n: nat): Form {
    if n < 126 then Short else if n <= 65535 then Medium else Long
  }

  /** The first byte is the type with the final bit set, which for a type of 128 or more is set already. */
  function ServerBytes(messageType: int, payload: Bytes): Bytes
    requires 0 <= messageType <= 255 && |payload| <= MAX_INT64
  {
    [128 + messageType % 128] + LengthBytes(0, ShortestForm(|payload|), |payload|) + payload
  }

  /** A server frame as a client decodes it: unmasked, with the length in its shortest form. */
  datatype ServerFrame = ServerFrame(fin: bool, rsv: int, opcode: int, payload: Bytes, rest: Bytes)

  function DecodeServer(stream: Bytes): Option<ServerFrame> {
    if |stream| < 2 || stream[1] >= 128 then None
    else
      var length := ReadLength(stream[2..], stream[1]);
      if length.result.Err? then None
      else
        var n := length.result.value;
        if n > MAX_INT64 || FormOf(stream[1]) != ShortestForm(n) || n > |length.rest| then None
        else Some(ServerFrame(stream[0] >= 128, stream[0] % 128 / 16, stream[0] % 16, length.rest[..n], length.rest[n..]))
  }

  lemma TypeBits(t: int)
    requires 0 <= t <= 255
    ensures var b := 128 + t % 128; b >= 128 && b % 128 / 16 == t % 128 / 16 && b % 16 == t % 16
  {
  }

  /** Server frames use the shortest length form and decode back to their payload, whatever follows. */
  lemma ServerFrameDecodes(messageType: int, payload: Bytes, rest: Bytes)
    requires 0 <= messageType <= 255 && |payload| <= MAX_INT64
    ensures DecodeServer(ServerBytes(messageType, payload) + rest) ==
            Some(ServerFrame(true, messageType % 128 / 16, messageType % 16, payload, rest))
  {
    var n, form, first := |payload|, ShortestForm(|payload|), 128 + messageType % 128;
    var length := LengthBytes(0, form, n);
    LengthReadsBack(0, form, n, payload + rest);
    Regroup(first, length, payload, rest, []);
    assert [first] + length + payload + rest + [] == [first] + length + payload + rest;
    assert payload + rest + [] == payload + rest;
    TypeBits(messageType);
  }

  /** The opcode a client sees is the message type exactly when the type is below 16; a larger type spills into the
      reserved bits. */
  lemma OpcodeIsTypeExactly(messageType: int, payload: Bytes)
    requires 0 <= messageType <= 255 && |payload| <= MAX_INT64
    ensures var frame := DecodeServer(ServerBytes(messageType, payload));
            frame.Some? && (frame.value.opcode == messageType <==> messageType < 16)
  {
    ServerFrameDecodes(messageType, payload, []);
    assert ServerBytes(messageType, payload) + [] == ServerBytes(messageType, payload);
  }

  /** The types that messages may be written with: text, binary, close, ping and pong. */
  predicate IsMessageType(messageType: int) {
    messageType in {1, 2, 8, 9, 10}
  }

  /** So the frame of every message that can be written has its type as opcode and no reserved bits. */
  lemma MessageTypeIsOpcode(messageType: int, payload: Bytes, rest: Bytes)
    requires IsMessageType(messageType) && |payload| <= MAX_INT64
    ensures DecodeServer(ServerBytes(messageType, payload) + rest) == Some(ServerFrame(true, 0, messageType, payload, rest))
  {
    ServerFrameDecodes(messageType, payload, rest);
  }

  // -------------------------------------------------------- the connection

  /** The unmasking loop. */
  method Unmask(payload: array<Byte>, mask: Bytes)
    requires |mask| == 4
    modifies payload
    ensures payload[..] == Masked(old(payload[..]), mask)
  {
    for i := 0 to payload.Length
      invariant forall k :: 0 <= k < i ==> payload[k] == XorByte(old(payload[k]), mask[k % 4])
      invariant forall k :: i <= k < payload.Length ==> payload[k] == old(payload[k])
    {
      payload[i] := XorByte(payload[i], mask[i % 4]);
    }
  }

  /** A connection: the bytes not yet read and the bytes written so far. */
  class WebSocketConn {
    var stream: Bytes
    var written: Bytes
    const maxMessageBytes: int

    constructor (stream: Bytes, maxMessageBytes: int)
      ensures this.stream == stream && this.maxMessageBytes == maxMessageBytes && written == []
    {
      this.stream := stream;
      this.maxMessageBytes := maxMessageBytes;
      written := [];
    }

    method ReadFull(n: nat) returns (r: Result<Bytes, ReadError>)
      modifies this`stream
      ensures Read(r, stream) == Take(old(stream), n)
    {
      if n <= |stream| {
        r := Ok(stream[..n]);
        stream := stream[n..];
      } else {
        r := Err(if stream == [] then Eof else UnexpectedEof);
        stream := [];
      }
    }

    method ReadPayload(opcode: int, n: nat) returns (r: Result<Message, ReadError>)
      modifies this`stream
      ensures Read(r, stream) == ReadBody(old(stream), opcode, n)
    {
      var mask := ReadFull(4);
      if mask.Err? {
        return Err(mask.error);
      }
      var body := ReadFull(n);
      if body.Err? {
        return Err(body.error);
      }
      var payload := new Byte[n](i requires 0 <= i < n => body.value[i]);
      assert payload[..] == body.value;
      Unmask(payload, mask.value);
      r := Ok(Message(opcode, payload[..]));
    }

    method ReadLengthField(len7: nat) returns (r: Result<nat, ReadError>)
      modifies this`stream
      ensures Read(r, stream) == ReadLength(old(stream), len7)
    {
      if len7 == 126 || len7 == 127 {
        var extended := ReadFull(if len7 == 126 then 2 else 8);
        if extended.Err? {
          return Err(extended.error);
        }
        r := Ok(BigEndian(extended.value));
      } else {
        assert stream[..0] == [] && stream[0..] == stream;
        r := Ok(len7);
      }
    }

    method ReadNextFrame() returns (r: Result<Message, ReadError>)
      modifies this`stream
      ensures Read(r, stream) == ReadFrame(old(stream), maxMessageBytes)
    {
      var header := ReadFull(2);
      if header.Err? {
        return Err(header.error);
      }
      var fin, masked := header.value[0] >= 128, header.value[1] >= 128;
      if !fin || !masked {
        return Err(BadFlags);
      }
      var length := ReadLengthField(header.value[1] % 128);
      if length.Err? {
        return Err(length.error);
      }
      if maxMessageBytes <= 0 || length.value > MAX_INT64 || length.value > maxMessageBytes {
        return Err(TooBig);
      }
      r := ReadPayload(header.value[0] % 16, length.value);
    }

    method WriteLength(length: nat)
      requires length <= MAX_INT64
      modifies this`written
      ensures written == old(written) + LengthBytes(0, ShortestForm(length), length)
    {
      if length < 126 {
        written := written + [length];
      } else if length <= 65535 {
        written := written + [126];
        written := written + PutBigEndian(length, 2);
      } else {
        written := written + [127];
        written := written + PutBigEndian(length, 8);
      }
    }

    /** `writeWebSocketFrame` on a writer that does not fail. */
    method WriteFrame(messageType: int, payload: Bytes) returns (ok: bool)
      requires |payload| <= MAX_INT64
      modifies this`written
      ensures ok <==> 0 <= messageType <= 255
      ensures written == if ok then old(written) + ServerBytes(messageType, payload) else old(written)
    {
      if messageType < 0 || messageType > 255 {
        return false;
      }
      ok := true;
      ghost var before := written;
      var first := 128 + messageType % 128;
      written := written + [first];
      WriteLength(|payload|);
      written := written + payload;
    }

    /** `WriteMessage`: what is written decodes to the message, whatever is written after it, and nothing is written for
        a type that messages may not have. */
    method WriteMessage(messageType: int, payload: Bytes) returns (ok: bool)
      requires |payload| <= MAX_INT64
      modifies this`written
      ensures ok <==> IsMessageType(messageType)
      ensures !ok ==> written == old(written)
      ensures ok ==>
                && old(written) <= written
                && DecodeServer(written[|old(written)|..]) == Some(ServerFrame(true, 0, messageType, payload, []))
    {
      if messageType != 1 && messageType != 2 && messageType != 8 && messageType != 9 && messageType != 10 {
        return false;
      }
      ok := WriteFrame(messageType, payload);
      MessageTypeIsOpcode(messageType, payload, []);
      assert ServerBytes(messageType, payload) + [] == written[|old(written)|..];
    }
  }
}
