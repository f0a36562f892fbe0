/** Frames byte by byte (rest/websocket.go), in the terms of sections 5.2 and 5.3 of RFC 6455: which byte holds what, which bits
    masking changes, and when reading fails. */
module WebSocketBytes {
  import opened GoStrings
  import opened WebSocket

  // ---------------------------------------------------------------- masking

  /** Bit `k` of a number. */
  function Bit(n: nat, k: nat): nat {
    if k == 0 then n % 2 else Bit(n / 2, k - 1)
  }

  lemma {:induction false} XorFlipsBits(a: nat, b: nat, bits: nat, k: nat)
    requires k < bits
    ensures Bit(Xor(a, b, bits), k) == if Bit(b, k) == 1 then 1 - Bit(a, k) else Bit(a, k)
    ensures Bit(a, k) <= 1 && Bit(b, k) <= 1
    decreases bits
  {
    LowBit((a % 2 + b % 2) % 2, Xor(a / 2, b / 2, bits - 1));
    if k > 0 {
      XorFlipsBits(a / 2, b / 2, bits - 1, k - 1);
    }
  }

  /** Byte `i` of a payload goes over the wire with those bits flipped that are set in byte `i` modulo 4 of the mask. */
  lemma MaskFlipsBits(payload: Bytes, mask: Bytes, i: nat, k: nat)
    requires |mask| == 4 && i < |payload| && k < 8
    ensures |Masked(payload, mask)| == |payload|
    ensures Bit(Masked(payload, mask)[i], k) == if Bit(mask[i % 4], k) == 1 then 1 - Bit(payload[i], k) else Bit(payload[i], k)
  {
    XorFlipsBits(payload[i], mask[i % 4], 8, k);
  }

  // ---------------------------------------------------------------- lengths

  /** The first byte counts most. */
  lemma {:induction false} FirstByteCountsMost(first: Byte, rest: Bytes)
    ensures BigEndian([first] + rest) == first * Pow256(|rest|) + BigEndian(rest)
    decreases |rest|
  {
    var all := [first] + rest;
    if rest == [] {
      assert all[..0] == [];
      assert all == [first];
    } else {
      var n := |rest| - 1;
      assert all[..|all| - 1] == [first] + rest[..n];
      FirstByteCountsMost(first, rest[..n]);
      assert 256 * (first * Pow256(n)) == first * Pow256(n + 1);
    }
  }

  lemma TwoBytes(n: nat)
    requires n < 0x1_0000
    ensures PutBigEndian(n, 2) == [n / 256, n % 256]
  {
    Powers();
    BigEndianReadsBack(n, 2);
    var b := PutBigEndian(n, 2);
    assert b == [b[0]] + [b[1]];
    FirstByteCountsMost(b[0], [b[1]]);
    FirstByteCountsMost(b[1], []);
    assert [b[1]] + [] == [b[1]];
    assert Pow256(1) == 256 && Pow256(0) == 1;
  }

  /** The length of a payload as it is written: seven bits up to 125; 126 and two bytes; 127 and eight bytes. */
  ghost predicate IsLength(b: Bytes, maskBit: int, n: nat) {
    || (n < 126 && b == [maskBit + n])
    || (n < 0x1_0000 && |b| == 3 && b[0] == maskBit + 126 && n == 256 * (b[1] as int) + (b[2] as int))
    || (n < 0x1_0000_0000_0000_0000 && |b| == 9 && b[0] == maskBit + 127 && n == BigEndian(b[1..]))
  }

  lemma LengthIsWritten(maskBit: int, form: Form, n: nat)
    requires Fits(form, n) && (maskBit == 0 || maskBit == 128)
    ensures IsLength(LengthBytes(maskBit, form, n), maskBit, n)
    ensures |LengthBytes(maskBit, form, n)| == match form case Short => 1 case Medium => 3 case Long => 9
  {
    match form
    case Short =>
    case Medium => TwoBytes(n);
    case Long =>
      Powers();
      BigEndianReadsBack(n, 8);
      assert LengthBytes(maskBit, form, n)[1..] == PutBigEndian(n, 8);
  }

  // ------------------------------------------------------------- whole frames

  /** A client frame, byte by byte: final bit, reserved bits and opcode; mask bit and length; mask; and the payload with the
      bits of the mask flipped. */
  lemma ClientFrameOnTheWire(f: ClientFrame) returns (length: Bytes)
    requires f.Valid()
    ensures IsLength(length, 128, |f.payload|) && |length| == match f.form case Short => 1 case Medium => 3 case Long => 9
    ensures Encode(f) == [128 + 16 * f.rsv + f.opcode] + length + f.mask + Masked(f.payload, f.mask)
  {
    length := LengthBytes(128, f.form, |f.payload|);
    LengthIsWritten(128, f.form, |f.payload|);
  }

  /** A message that the server writes, byte by byte: the final bit and the type; the length, with no mask bit and in as few
      bytes as hold it; and the payload as it is. */
  lemma ServerMessageOnTheWire(messageType: int, payload: Bytes) returns (length: Bytes)
    requires IsMessageType(messageType) && |payload| <= MAX_INT64
    ensures IsLength(length, 0, |payload|)
    ensures |length| == if |payload| <= 125 then 1 else if |payload| <= 65535 then 3 else 9
    ensures ServerBytes(messageType, payload) == [128 + messageType] + length + payload
  {
    length := LengthBytes(0, ShortestForm(|payload|), |payload|);
    LengthIsWritten(0, ShortestForm(|payload|), |payload|);
  }

  // ------------------------------------------------------------ failing reads

  /** A frame that is not final or not masked is refused, and so is a stream that ends within the first two bytes. */
  lemma HeaderIsRefusedExactly(stream: Bytes, max: int)
    ensures stream == [] ==> ReadFrame(stream, max).result == Err(Eof)
    ensures |stream| == 1 ==> ReadFrame(stream, max).result == Err(UnexpectedEof)
    ensures |stream| >= 2 ==> (ReadFrame(stream, max).result == Err(BadFlags) <==> stream[0] < 128 || stream[1] < 128)
  {
  }

  /** A frame that is cut short anywhere is not read. */
  lemma CutFrameIsNotRead(f: ClientFrame, n: nat, max: int)
    requires f.Valid() && WithinLimit(|f.payload|, max) && n < |Encode(f)|
    ensures ReadFrame(Encode(f)[..n], max).result.Err?
  {
    var cut, more := Encode(f)[..n], Encode(f)[n..];
    assert cut + more == Encode(f) && Encode(f) + [] == Encode(f);
    FrameReadsBack(f, [], max);
    if ReadFrame(cut, max).result.Ok? {
      LaterBytesDoNotMatter(cut, more, max);
    }
  }

  /** The limit: a frame is read exactly when the limit is positive and the payload is not longer. */
  lemma LimitIsExact(f: ClientFrame, rest: Bytes, max: int)
    requires f.Valid() && |f.payload| < 0x8000_0000_0000_0000
    ensures ReadFrame(Encode(f) + rest, max).result.Ok? <==> max > 0 && |f.payload| <= max
    ensures ReadFrame(Encode(f) + rest, max).result.Err? ==> ReadFrame(Encode(f) + rest, max).result == Err(TooBig)
  {
    FrameReadsBack(f, rest, max);
  }
}
