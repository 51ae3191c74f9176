/** The BMB1 message codec (`pico/bmcu_binary.py`). */
module Bmb1Codec {
  import opened Options
  import opened Bytes

  const MAGIC: seq<byte> := [0x42, 0x4D, 0x42, 0x31]
  const VERSION: byte := 1
  const HEADER_SIZE: nat := 32
  const GLOBAL_SCOPE: byte := 0xFF
  const MAX_PAYLOAD_SIZE: nat := 4096
  const MAX_MESSAGE_SIZE: nat := HEADER_SIZE + MAX_PAYLOAD_SIZE
  const BMCU_FRAME: byte := 0x10
  const LINK_STATE: byte := 0x11
  const TRANSPORT_DROP: byte := 0x12
  const FLAG_REPLAY: nat := 1
  const FLAG_CRITICAL: nat := 2
  const KNOWN_FLAGS: nat := 0x1F
  const DROP_RAM_QUEUE_FULL: byte := 1
  const DROP_JOURNAL_CORRUPT: byte := 3

  /** What a writer does: bytes in the buffer, `CodecError`, or a field `struct` cannot hold. */
  datatype Encoded = Encoded(bytes: seq<byte>) | CodecError | PackError

  /** A parsed message; the payload is the view the parser hands out. */
  datatype Message = Message(kind: byte, flags: nat, sequence: nat, boot: nat, link: byte, payload: seq<byte>)

  /** The messages the wire can carry: every field fits its place. */
  predicate Representable(m: Message) {
    && m.flags < MASK16 && m.sequence < MASK64 && m.boot < MASK64
    && |m.payload| <= MAX_PAYLOAD_SIZE
  }

  function Header(m: Message): (h: seq<byte>)
    requires Representable(m)
    ensures |h| == HEADER_SIZE
  {
    FieldWidths();
    MAGIC + [VERSION, m.kind] + BE(m.flags, 2) + BE(|m.payload|, 4)
    + BE(m.sequence, 8) + BE(m.boot, 8) + [m.link, 0, 0, 0]
  }

  function Encode(m: Message): (bytes: seq<byte>)
    requires Representable(m)
    ensures |bytes| == HEADER_SIZE + |m.payload|
  {
    Header(m) + m.payload
  }

  /** `write_message` into a buffer of MAX_MESSAGE_SIZE bytes; `link` is the caller's integer. */
  function WriteMessage(kind: byte, flags: nat, sequence: nat, boot: nat, link: int, payload: seq<byte>): (written: Encoded)
    ensures written.Encoded? ==> |written.bytes| == HEADER_SIZE + |payload|
  {
    if |payload| > MAX_PAYLOAD_SIZE then CodecError
    else if flags > KNOWN_FLAGS then CodecError
    else if link < 0 || link > 0xFF then CodecError
    else if sequence >= MASK64 || boot >= MASK64 then PackError
    else Encoded(Encode(Message(kind, flags, sequence, boot, link, payload)))
  }

  function WriteBmcuFrame(flags: nat, sequence: nat, boot: nat, link: int, receivedAt: nat, wire: seq<byte>): Encoded {
    if |wire| + 10 > MAX_PAYLOAD_SIZE then CodecError
    else if receivedAt >= MASK64 then PackError
    else
      FieldWidths();
      WriteMessage(BMCU_FRAME, flags, sequence, boot, link, BE(receivedAt, 8) + BE(|wire|, 2) + wire)
  }

  function DropPayload(observedAt: nat, first: nat, last: nat, count: nat, reason: byte): (p: seq<byte>)
    requires observedAt < MASK64 && first < MASK64 && last < MASK64 && count < MASK32
    ensures |p| == 32
  {
    FieldWidths();
    BE(observedAt, 8) + BE(first, 8) + BE(last, 8) + BE(count, 4) + [reason, 0, 0, 0]
  }

  function WriteTransportDrop(flags: nat, sequence: nat, boot: nat, observedAt: nat,
                              first: nat, last: nat, count: nat, reason: byte): (written: Encoded)
    ensures written.Encoded? ==> |written.bytes| == HEADER_SIZE + 32
  {
    if first == 0 || last < first || count != last - first + 1 then CodecError
    else if flags > KNOWN_FLAGS then CodecError
    else if observedAt >= MASK64 || last >= MASK64 || count >= MASK32 then PackError
    else WriteMessage(TRANSPORT_DROP, flags, sequence, boot, GLOBAL_SCOPE,
                      DropPayload(observedAt, first, last, count, reason))
  }

  // ----- Reading a message back -----

  datatype Parsed = NeedMore | Invalid | Parsed(message: Message, size: nat)

  /** One step of `StreamParser.next_message` on the buffered bytes. */
  function ParseNext(s: seq<byte>): (r: Parsed)
    ensures r.Parsed? ==> HEADER_SIZE <= r.size <= |s| && r.size == HEADER_SIZE + |r.message.payload|
  {
    if |s| < HEADER_SIZE then NeedMore
    else if s[..4] != MAGIC || s[4] != VERSION then Invalid
    else
      var payloadLength := FromBE(s[8..12]);
      if payloadLength > MAX_PAYLOAD_SIZE then Invalid
      else if |s| < HEADER_SIZE + payloadLength then NeedMore
      else
        var total := HEADER_SIZE + payloadLength;
        Parsed(Message(s[5], FromBE(s[6..8]), FromBE(s[12..20]), FromBE(s[20..28]), s[28], s[HEADER_SIZE..total]), total)
  }

  lemma Middle(a: seq<byte>, b: seq<byte>, c: seq<byte>)
    ensures (a + b + c)[|a|..|a| + |b|] == b
  {
  }

  lemma HeaderFields(m: Message, s: seq<byte>)
    requires Representable(m) && HEADER_SIZE <= |s| && s[..HEADER_SIZE] == Header(m)
    ensures s[..4] == MAGIC && s[4] == VERSION && s[5] == m.kind && s[28] == m.link
    ensures FromBE(s[6..8]) == m.flags && FromBE(s[8..12]) == |m.payload|
    ensures FromBE(s[12..20]) == m.sequence && FromBE(s[20..28]) == m.boot && s[29..32] == [0, 0, 0]
  {
    FieldWidths();
    var h := Header(m);
    var flags, size, sequence, boot := BE(m.flags, 2), BE(|m.payload|, 4), BE(m.sequence, 8), BE(m.boot, 8);
    var front := MAGIC + [VERSION, m.kind];
    assert h[6..8] == flags by { Middle(front, flags, size + sequence + boot + [m.link, 0, 0, 0]); }
    assert h[8..12] == size by { Middle(front + flags, size, sequence + boot + [m.link, 0, 0, 0]); }
    assert h[12..20] == sequence by { Middle(front + flags + size, sequence, boot + [m.link, 0, 0, 0]); }
    assert h[20..28] == boot by { Middle(front + flags + size + sequence, boot, [m.link, 0, 0, 0]); }
    assert s[6..8] == h[6..8] && s[8..12] == h[8..12] && s[12..20] == h[12..20] && s[20..28] == h[20..28];
    assert h[29..32] == [0, 0, 0] && s[29..32] == h[29..32];
    assert s[..4] == h[..4] && s[4] == h[4] && s[5] == h[5] && s[28] == h[28];
    FromBEofBE(m.flags, 2);
    FromBEofBE(|m.payload|, 4);
    FromBEofBE(m.sequence, 8);
    FromBEofBE(m.boot, 8);
  }

  /** A complete message at the front of the buffer is recognised whatever follows it. */
  lemma ParseEncoded(m: Message, tail: seq<byte>)
    requires Representable(m)
    ensures ParseNext(Encode(m) + tail) == Parsed(m, HEADER_SIZE + |m.payload|)
  {
    var s := Encode(m) + tail;
    assert s[..HEADER_SIZE] == Header(m);
    HeaderFields(m, s);
    assert s[HEADER_SIZE..HEADER_SIZE + |m.payload|] == m.payload;
  }

  /** A proper prefix of a message is never reported, neither as a message nor as an error. */
  lemma ParsePartial(m: Message, n: nat)
    requires Representable(m) && n < HEADER_SIZE + |m.payload|
    ensures ParseNext(Encode(m)[..n]) == NeedMore
  {
    if n >= HEADER_SIZE {
      var s := Encode(m)[..n];
      assert s[..HEADER_SIZE] == Header(m);
      HeaderFields(m, s);
    }
  }

  /** The range of sequences a stored message accounts for: a loss marker's range, else its own. */
  function Span(sequence: nat, bytes: seq<byte>): (nat, nat) {
    if |bytes| >= 56 && bytes[5] == TRANSPORT_DROP then (FromBE(bytes[40..48]), FromBE(bytes[48..56]))
    else (sequence, sequence)
  }

  /** The fields `parse_transport_drop` returns. */
  datatype Drop = Drop(observedAt: nat, first: nat, last: nat, count: nat, reason: byte)

  function ParseTransportDrop(m: Message): Option<Drop> {
    if m.kind != TRANSPORT_DROP || |m.payload| != 32 then None
    else
      var p := m.payload;
      var observedAt, first, last, count := FromBE(p[0..8]), FromBE(p[8..16]), FromBE(p[16..24]), FromBE(p[24..28]);
      if p[29..32] != [0, 0, 0] || first == 0 || last < first || count != last - first + 1 then None
      else Some(Drop(observedAt, first, last, count, p[28]))
  }

  lemma DropFields(observedAt: nat, first: nat, last: nat, count: nat, reason: byte)
    requires observedAt < MASK64 && first < MASK64 && last < MASK64 && count < MASK32
    ensures var p := DropPayload(observedAt, first, last, count, reason);
            && FromBE(p[0..8]) == observedAt && FromBE(p[8..16]) == first && FromBE(p[16..24]) == last
            && FromBE(p[24..28]) == count && p[28] == reason && p[29..32] == [0, 0, 0]
  {
    FieldWidths();
    var p := DropPayload(observedAt, first, last, count, reason);
    var a, b, c, d, e := BE(observedAt, 8), BE(first, 8), BE(last, 8), BE(count, 4), [reason, 0, 0, 0];
    assert p[0..8] == a by { Middle([], a, b + c + d + e); }
    assert p[8..16] == b by { Middle(a, b, c + d + e); }
    assert p[16..24] == c by { Middle(a + b, c, d + e); }
    assert p[24..28] == d by { Middle(a + b + c, d, e); }
    FromBEofBE(observedAt, 8);
    FromBEofBE(first, 8);
    FromBEofBE(last, 8);
    FromBEofBE(count, 4);
  }

  /**
   `parse_transport_drop` inverts `write_transport_drop`, and the stored bytes of the
   marker span exactly the range it declares.
   */
  lemma DropRoundTrip(flags: nat, sequence: nat, boot: nat, observedAt: nat,
                      first: nat, last: nat, count: nat, reason: byte)
    requires WriteTransportDrop(flags, sequence, boot, observedAt, first, last, count, reason).Encoded?
    ensures var bytes := WriteTransportDrop(flags, sequence, boot, observedAt, first, last, count, reason).bytes;
            var parsed := ParseNext(bytes);
            && |bytes| == 64 && parsed.Parsed? && parsed.size == 64
            && parsed.message.sequence == sequence && parsed.message.boot == boot
            && ParseTransportDrop(parsed.message) == Some(Drop(observedAt, first, last, count, reason))
            && Span(sequence, bytes) == (first, last)
  {
    var payload := DropPayload(observedAt, first, last, count, reason);
    var m := Message(TRANSPORT_DROP, flags, sequence, boot, GLOBAL_SCOPE, payload);
    var bytes := Encode(m);
    ParseEncoded(m, []);
    assert bytes + [] == bytes;
    DropFields(observedAt, first, last, count, reason);
    HeaderFields(m, bytes);
    assert bytes[40..48] == payload[8..16] && bytes[48..56] == payload[16..24];
  }

  // ----- What the payloads mean -----

  /** The bytes are exactly this message. */
  predicate Reads(bytes: seq<byte>, m: Message) { ParseNext(bytes) == Parsed(m, |bytes|) }

  lemma WrittenReads(kind: byte, flags: nat, sequence: nat, boot: nat, link: int, payload: seq<byte>)
    requires WriteMessage(kind, flags, sequence, boot, link, payload).Encoded?
    ensures Reads(WriteMessage(kind, flags, sequence, boot, link, payload).bytes,
                  Message(kind, flags, sequence, boot, link, payload))
  {
    var m := Message(kind, flags, sequence, boot, link, payload);
    ParseEncoded(m, []);
    assert Encode(m) + [] == Encode(m);
  }

  /** The fields `parse_bmcu_frame` returns. */
  datatype Frame = Frame(receivedAt: nat, wire: seq<byte>)

  function ParseBmcuFrame(m: Message): Option<Frame> {
    if m.kind != BMCU_FRAME || |m.payload| < 10 then None
    else if |m.payload| != 10 + FromBE(m.payload[8..10]) then None
    else Some(Frame(FromBE(m.payload[0..8]), m.payload[10..]))
  }

  lemma FrameFields(receivedAt: u64, wire: seq<byte>)
    requires |wire| < MASK16
    ensures receivedAt < Pow256(8) && |wire| < Pow256(2)
    ensures var p := BE(receivedAt, 8) + BE(|wire|, 2) + wire;
            FromBE(p[0..8]) == receivedAt && FromBE(p[8..10]) == |wire| && p[10..] == wire
  {
    FieldWidths();
    FromBEofBE(receivedAt, 8);
    FromBEofBE(|wire|, 2);
    hide BE, FromBE, Pow256;
    FrameSlices(BE(receivedAt, 8), BE(|wire|, 2), wire);
  }

  lemma FrameSlices(at: seq<byte>, size: seq<byte>, wire: seq<byte>)
    requires |at| == 8 && |size| == 2
    ensures var p := at + size + wire; p[0..8] == at && p[8..10] == size && p[10..] == wire
  {
  }

  /** `parse_bmcu_frame` inverts `write_bmcu_frame`: the peer reads the time and the wire bytes of the caller. */
  lemma FrameRoundTrip(flags: nat, sequence: nat, boot: nat, link: int, receivedAt: nat, wire: seq<byte>)
    requires WriteBmcuFrame(flags, sequence, boot, link, receivedAt, wire).Encoded?
    ensures var bytes := WriteBmcuFrame(flags, sequence, boot, link, receivedAt, wire).bytes;
            var parsed := ParseNext(bytes);
            && parsed.Parsed? && parsed.size == |bytes| == HEADER_SIZE + 10 + |wire|
            && parsed.message.kind == BMCU_FRAME && parsed.message.flags == flags && parsed.message.sequence == sequence
            && parsed.message.boot == boot && parsed.message.link as int == link
            && ParseBmcuFrame(parsed.message) == Some(Frame(receivedAt, wire))
  {
    FrameFields(receivedAt, wire);
    hide BE, FromBE, ParseNext;
    WrittenReads(BMCU_FRAME, flags, sequence, boot, link, BE(receivedAt, 8) + BE(|wire|, 2) + wire);
  }

  /** An accepted frame has exactly one payload. */
  lemma FrameInverts(m: Message)
    requires ParseBmcuFrame(m).Some?
    ensures var f := ParseBmcuFrame(m).value;
            |f.wire| < Pow256(2) && f.receivedAt < Pow256(8) && m.payload == BE(f.receivedAt, 8) + BE(|f.wire|, 2) + f.wire
  {
    var p := m.payload;
    BEofFromBE(p[0..8]);
    BEofFromBE(p[8..10]);
    hide BE, FromBE, Pow256;
    assert p == p[0..8] + p[8..10] + p[10..];
  }

  function LinkStatePayload(at: u64, state: byte, reason: byte): (p: seq<byte>)
    ensures |p| == 12
  {
    FieldWidths();
    BE(at, 8) + [state, reason, 0, 0]
  }

  /** The fields `parse_link_state` returns. */
  datatype LinkState = LinkState(observedAt: nat, state: byte, reason: byte)

  function ParseLinkState(m: Message): Option<LinkState> {
    if m.kind != LINK_STATE || |m.payload| != 12 || FromBE(m.payload[10..12]) != 0 then None
    else Some(LinkState(FromBE(m.payload[0..8]), m.payload[8], m.payload[9]))
  }

  /** `parse_link_state` inverts the payload of `write_link_state`. */
  lemma LinkStateReads(m: Message, at: u64, state: byte, reason: byte)
    requires m.kind == LINK_STATE && m.payload == LinkStatePayload(at, state, reason)
    ensures ParseLinkState(m) == Some(LinkState(at, state, reason))
  {
    FieldWidths();
    var time := BE(at, 8);
    assert m.payload[0..8] == time && m.payload[10..12] == [0, 0];
    FromBEofBE(at, 8);
    assert [0, 0][..1] == [0] && [0][..0] == [];
  }
}
