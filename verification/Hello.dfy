/**
 The HELLO payload, its authenticated transcript, and diagnostic TLVs
 (`pico/bmcu_binary.py`, `pico/bambuddy_binary_tcp.py`).
 */
module HelloCodec {
  import opened Options
  import opened Bytes
  import opened Bmb1Codec

  const HELLO: byte := 0x02
  const MAX_DEVICE_ID: nat := 63
  const MAX_FIRMWARE: nat := 63
  const MAX_LINKS: nat := 2
  const MAX_LINK_ID: nat := 31
  const MAX_RANGES: nat := 8
  const HMAC_SIZE: nat := 32
  const RANGE_SIZE: nat := 24

  datatype Link = Link(index: int, id: seq<byte>)

  datatype Range = Range(boot: u64, oldest: u64, newest: u64)

  datatype Hello = Hello(device: seq<byte>, firmware: seq<byte>, links: seq<Link>, ranges: seq<Range>, hmac: seq<byte>)

  // ----- Writing -----

  /** What the writer can put down: every length and index in one byte. */
  predicate Writable(h: Hello) {
    |h.device| < 256 && |h.firmware| < 256 && |h.links| < 256 && ByteLinks(h.links) && |h.ranges| < 256
  }

  predicate ByteLinks(links: seq<Link>) { forall l :: l in links ==> 0 <= l.index < 256 && |l.id| < 256 }

  /** What the wire form can carry and the parser accepts. */
  predicate WellSized(h: Hello) {
    && |h.device| <= MAX_DEVICE_ID && |h.firmware| <= MAX_FIRMWARE
    && |h.links| <= MAX_LINKS && SizedLinks(h.links)
    && 1 <= |h.ranges| <= MAX_RANGES && |h.hmac| == HMAC_SIZE
  }

  predicate SizedLinks(links: seq<Link>) {
    forall l :: l in links ==> 0 <= l.index < 256 && |l.id| <= MAX_LINK_ID
  }

  /** The checks of `write_hello`. */
  predicate Acceptable(h: Hello, boot: nat) {
    WellSized(h) && h.ranges[0].boot == boot && forall l :: l in h.links ==> l.index < MAX_LINKS
  }

  function FieldBytes(s: seq<byte>): seq<byte>
    requires |s| < 256
  {
    [|s|] + s
  }

  function LinkBytes(links: seq<Link>): seq<byte>
    requires ByteLinks(links)
  {
    if links == [] then [] else [links[0].index] + FieldBytes(links[0].id) + LinkBytes(links[1..])
  }

  function RangeField(r: Range): (b: seq<byte>)
    ensures |b| == RANGE_SIZE
  {
    FieldWidths();
    BE(r.boot, 8) + BE(r.oldest, 8) + BE(r.newest, 8)
  }

  function RangeBytes(ranges: seq<Range>): (b: seq<byte>)
    ensures |b| == RANGE_SIZE * |ranges|
  {
    if ranges == [] then [] else RangeField(ranges[0]) + RangeBytes(ranges[1..])
  }

  /** Everything but the HMAC. */
  function Signed(h: Hello): seq<byte>
    requires Writable(h)
  {
    FieldBytes(h.device) + (FieldBytes(h.firmware) + ([|h.links|] + (LinkBytes(h.links) + ([|h.ranges|] + RangeBytes(h.ranges)))))
  }

  function Payload(h: Hello): seq<byte>
    requires Writable(h)
  {
    Signed(h) + h.hmac
  }

  // ----- Reading -----

  /** A length byte and that many bytes; the second part is what follows. */
  function Field(p: seq<byte>, maximum: nat): Option<(seq<byte>, seq<byte>)> {
    if p == [] then None
    else
      var size := p[0];
      if size > maximum || size > |p| - 1 then None else Some((p[1..1 + size], p[1 + size..]))
  }

  function ParseLinks(p: seq<byte>, n: nat): Option<(seq<Link>, seq<byte>)> {
    if n == 0 then Some(([], p))
    else if p == [] then None
    else
      match Field(p[1..], MAX_LINK_ID)
      case None => None
      case Some((id, rest)) =>
        match ParseLinks(rest, n - 1)
        case None => None
        case Some((links, last)) => Some(([Link(p[0], id)] + links, last))
  }

  function ParseRanges(p: seq<byte>, n: nat): (r: seq<Range>)
    requires |p| >= RANGE_SIZE * n
    ensures |r| == n
  {
    if n == 0 then []
    else
      FieldWidths();
      [Range(FromBE(p[..8]), FromBE(p[8..16]), FromBE(p[16..24]))] + ParseRanges(p[RANGE_SIZE..], n - 1)
  }

  function ParseTables(device: seq<byte>, firmware: seq<byte>, p: seq<byte>): Option<Hello> {
    if p == [] || p[0] > MAX_LINKS then None
    else
      match ParseLinks(p[1..], p[0])
      case None => None
      case Some((links, table)) =>
        if table == [] then None
        else
          var count, rest := table[0], table[1..];
          if count == 0 || count > MAX_RANGES || |rest| != count * RANGE_SIZE + HMAC_SIZE then None
          else Some(Hello(device, firmware, links, ParseRanges(rest, count), rest[count * RANGE_SIZE..]))
  }

  /** `parse_hello` on the payload; None stands for each `CodecError`. */
  function ParsePayload(p: seq<byte>): Option<Hello> {
    match Field(p, MAX_DEVICE_ID)
    case None => None
    case Some((device, afterDevice)) =>
      match Field(afterDevice, MAX_FIRMWARE)
      case None => None
      case Some((firmware, rest)) => ParseTables(device, firmware, rest)
  }

  function ParseHello(m: Message): Option<Hello> {
    if m.kind != HELLO then None else ParsePayload(m.payload)
  }

  // ----- The two are inverse -----

  lemma FieldRoundTrip(s: seq<byte>, tail: seq<byte>, maximum: nat)
    requires |s| <= maximum < 256
    ensures Field(FieldBytes(s) + tail, maximum) == Some((s, tail))
  {
    var p := FieldBytes(s) + tail;
    assert p[1..1 + |s|] == s && p[1 + |s|..] == tail;
  }

  lemma FieldInverts(p: seq<byte>, maximum: nat)
    requires Field(p, maximum).Some? && maximum < 256
    ensures var (s, tail) := Field(p, maximum).value; |s| <= maximum && p == FieldBytes(s) + tail
  {
  }

  lemma LinkInFront(l: Link, more: seq<Link>)
    requires ByteLinks(more) && 0 <= l.index < 256 && |l.id| < 256
    ensures ByteLinks([l] + more) && LinkBytes([l] + more) == [l.index] + FieldBytes(l.id) + LinkBytes(more)
    ensures SizedLinks(more) && |l.id| <= MAX_LINK_ID ==> SizedLinks([l] + more)
  {
    hide FieldBytes;
    assert ([l] + more)[1..] == more;
  }

  lemma {:induction false} LinksRoundTrip(links: seq<Link>, tail: seq<byte>)
    requires SizedLinks(links)
    ensures ParseLinks(LinkBytes(links) + tail, |links|) == Some((links, tail))
  {
    hide Field, FieldBytes;
    if links == [] {
      assert LinkBytes(links) + tail == tail;
    } else {
      hide LinkBytes;
      var l, more := links[0], links[1..];
      var rest := LinkBytes(more) + tail;
      assert links == [l] + more;
      LinkInFront(l, more);
      var p := LinkBytes(links) + tail;
      assert p == [l.index] + (FieldBytes(l.id) + rest);
      assert p[0] == l.index && p[1..] == FieldBytes(l.id) + rest;
      FieldRoundTrip(l.id, rest, MAX_LINK_ID);
      LinksRoundTrip(more, tail);
    }
  }

  lemma {:induction false} LinksInvert(p: seq<byte>, n: nat)
    requires ParseLinks(p, n).Some?
    ensures var (links, tail) := ParseLinks(p, n).value;
            |links| == n && SizedLinks(links) && p == LinkBytes(links) + tail
    decreases n
  {
    hide Field, FieldBytes;
    if n > 0 {
      hide LinkBytes;
      var (id, rest) := Field(p[1..], MAX_LINK_ID).value;
      FieldInverts(p[1..], MAX_LINK_ID);
      LinksInvert(rest, n - 1);
      var (more, tail) := ParseLinks(rest, n - 1).value;
      LinkInFront(Link(p[0], id), more);
      assert p == [p[0]] + p[1..];
      assert p == [p[0]] + FieldBytes(id) + LinkBytes(more) + tail;
    }
  }

  lemma RangeRoundTrip(r: Range, tail: seq<byte>)
    ensures var p := RangeField(r) + tail;
            FromBE(p[..8]) == r.boot && FromBE(p[8..16]) == r.oldest && FromBE(p[16..24]) == r.newest && p[24..] == tail
  {
    hide BE, FromBE;
    FieldWidths();
    var p := RangeField(r) + tail;
    assert p[..8] == BE(r.boot, 8);
    assert p[8..16] == BE(r.oldest, 8);
    assert p[16..24] == BE(r.newest, 8);
    FromBEofBE(r.boot, 8);
    FromBEofBE(r.oldest, 8);
    FromBEofBE(r.newest, 8);
  }

  lemma {:induction false} RangesRoundTrip(ranges: seq<Range>, tail: seq<byte>)
    ensures ParseRanges(RangeBytes(ranges) + tail, |ranges|) == ranges
  {
    hide RangeField, BE, FromBE;
    if ranges != [] {
      var rest := RangeBytes(ranges[1..]) + tail;
      assert RangeBytes(ranges) + tail == RangeField(ranges[0]) + rest;
      RangeRoundTrip(ranges[0], rest);
      RangesRoundTrip(ranges[1..], tail);
      assert ranges == [ranges[0]] + ranges[1..];
    }
  }

  lemma {:induction false} RangesInvert(p: seq<byte>, n: nat)
    requires |p| >= RANGE_SIZE * n
    ensures RangeBytes(ParseRanges(p, n)) == p[..RANGE_SIZE * n]
  {
    hide BE, FromBE;
    FieldWidths();
    if n > 0 {
      BEofFromBE(p[..8]);
      BEofFromBE(p[8..16]);
      BEofFromBE(p[16..24]);
      RangesInvert(p[RANGE_SIZE..], n - 1);
      var ranges := ParseRanges(p, n);
      assert ranges[1..] == ParseRanges(p[RANGE_SIZE..], n - 1);
      assert RangeField(ranges[0]) == p[..RANGE_SIZE];
      assert p[..RANGE_SIZE * n] == p[..RANGE_SIZE] + p[RANGE_SIZE..][..RANGE_SIZE * (n - 1)];
    }
  }

  lemma TablesRoundTrip(h: Hello)
    requires WellSized(h)
    ensures ParseTables(h.device, h.firmware,
                        [|h.links|] + (LinkBytes(h.links) + ([|h.ranges|] + RangeBytes(h.ranges))) + h.hmac) == Some(h)
  {
    hide ParseLinks, ParseRanges, LinkBytes, RangeBytes;
    var rest := RangeBytes(h.ranges) + h.hmac;
    var table := [|h.ranges|] + rest;
    var p := [|h.links|] + (LinkBytes(h.links) + ([|h.ranges|] + RangeBytes(h.ranges))) + h.hmac;
    assert p[1..] == LinkBytes(h.links) + table;
    LinksRoundTrip(h.links, table);
    assert table[1..] == rest;
    RangesRoundTrip(h.ranges, h.hmac);
    assert rest[|h.ranges| * RANGE_SIZE..] == h.hmac;
  }

  /** What is written parses back. */
  lemma HelloRoundTrip(h: Hello)
    requires WellSized(h)
    ensures ParsePayload(Payload(h)) == Some(h)
  {
    hide ParseTables, FieldBytes, Field, LinkBytes, RangeBytes;
    var tables := [|h.links|] + (LinkBytes(h.links) + ([|h.ranges|] + RangeBytes(h.ranges)));
    var middle := FieldBytes(h.firmware) + (tables + h.hmac);
    assert Payload(h) == FieldBytes(h.device) + middle;
    FieldRoundTrip(h.device, middle, MAX_DEVICE_ID);
    FieldRoundTrip(h.firmware, tables + h.hmac, MAX_FIRMWARE);
    TablesRoundTrip(h);
  }

  lemma TablesInvert(device: seq<byte>, firmware: seq<byte>, p: seq<byte>)
    requires ParseTables(device, firmware, p).Some?
    ensures var h := ParseTables(device, firmware, p).value;
            && h.device == device && h.firmware == firmware
            && |h.links| <= MAX_LINKS && SizedLinks(h.links) && 1 <= |h.ranges| <= MAX_RANGES && |h.hmac| == HMAC_SIZE
            && p == [|h.links|] + (LinkBytes(h.links) + ([|h.ranges|] + RangeBytes(h.ranges))) + h.hmac
  {
    hide ParseLinks, ParseRanges, LinkBytes, RangeBytes;
    var h := ParseTables(device, firmware, p).value;
    LinksInvert(p[1..], p[0]);
    var (links, table) := ParseLinks(p[1..], p[0]).value;
    var count, rest := table[0], table[1..];
    RangesInvert(rest, count);
    assert rest == RangeBytes(h.ranges) + h.hmac;
    assert table == [count] + rest;
    assert p == [p[0]] + (LinkBytes(links) + table);
  }

  /** And what parses is exactly what would be written: no two payloads mean the same HELLO. */
  lemma HelloInverts(p: seq<byte>)
    requires ParsePayload(p).Some?
    ensures var h := ParsePayload(p).value; WellSized(h) && Payload(h) == p
  {
    hide ParseTables, FieldBytes, Field, LinkBytes, RangeBytes;
    FieldInverts(p, MAX_DEVICE_ID);
    var (device, afterDevice) := Field(p, MAX_DEVICE_ID).value;
    FieldInverts(afterDevice, MAX_FIRMWARE);
    var (firmware, rest) := Field(afterDevice, MAX_FIRMWARE).value;
    TablesInvert(device, firmware, rest);
    var h := ParsePayload(p).value;
    var tables := [|h.links|] + (LinkBytes(h.links) + ([|h.ranges|] + RangeBytes(h.ranges)));
    assert p == FieldBytes(device) + (FieldBytes(firmware) + (tables + h.hmac));
  }

  /** The message that `write_hello` puts on the wire reads back as the same HELLO, whatever follows it. */
  lemma HelloMessageRoundTrip(flags: nat, boot: u64, h: Hello, tail: seq<byte>)
    requires Acceptable(h, boot) && flags <= KNOWN_FLAGS
    ensures var written := WriteMessage(HELLO, flags, 0, boot, GLOBAL_SCOPE as int, Payload(h));
            && written.Encoded?
            && ParseNext(written.bytes + tail).Parsed?
            && ParseHello(ParseNext(written.bytes + tail).message) == Some(h)
  {
    hide ParseNext, ParsePayload, Payload, Encode;
    PayloadIsShort(h);
    HelloRoundTrip(h);
    ParseEncoded(Message(HELLO, flags, 0, boot, GLOBAL_SCOPE, Payload(h)), tail);
  }

  // ----- The writers' own form -----

  method Put(out: array<byte>, at: nat, data: seq<byte>)
    requires at + |data| <= out.Length
    modifies out
    ensures out[..at + |data|] == old(out[..at]) + data && out[at + |data|..] == old(out[at + |data|..])
  {
    forall i | 0 <= i < |data| {
      out[at + i] := data[i];
    }
  }

  lemma {:induction false} LinkBytesAppend(links: seq<Link>, l: Link)
    requires ByteLinks(links + [l]) && ByteLinks(links)
    ensures LinkBytes(links + [l]) == LinkBytes(links) + ([l.index] + FieldBytes(l.id))
  {
    hide FieldBytes;
    if links == [] {
      assert [l][1..] == [] && links + [l] == [l];
      assert LinkBytes([l]) == [l.index] + FieldBytes(l.id) + [];
    } else {
      assert (links + [l])[1..] == links[1..] + [l];
      LinkBytesAppend(links[1..], l);
    }
  }

  lemma {:induction false} RangeBytesAppend(ranges: seq<Range>, r: Range)
    ensures RangeBytes(ranges + [r]) == RangeBytes(ranges) + RangeField(r)
  {
    hide RangeField;
    if ranges == [] {
      assert [r][1..] == [] && ranges + [r] == [r];
      assert RangeBytes([r]) == RangeField(r) + [];
    } else {
      assert (ranges + [r])[1..] == ranges[1..] + [r];
      RangeBytesAppend(ranges[1..], r);
    }
  }

  method PutField(out: array<byte>, at: nat, s: seq<byte>) returns (pos: nat)
    requires |s| < 256 && at + 1 + |s| <= out.Length
    modifies out
    ensures pos == at + |FieldBytes(s)| && pos <= out.Length && out[..pos] == old(out[..at]) + FieldBytes(s)
  {
    out[at] := |s|;
    assert out[..at + 1] == old(out[..at]) + [|s|];
    Put(out, at + 1, s);
    pos := at + 1 + |s|;
  }

  method PutLinks(out: array<byte>, at: nat, links: seq<Link>) returns (pos: nat)
    requires ByteLinks(links) && at + |LinkBytes(links)| <= out.Length
    modifies out
    ensures pos == at + |LinkBytes(links)| && out[..pos] == old(out[..at]) + LinkBytes(links)
  {
    hide FieldBytes, LinkBytes;
    pos := at;
    ghost var before := out[..at];
    NoLinkBytes();
    assert links[..0] == [];
    for k := 0 to |links|
      invariant ByteLinks(links[..k]) && pos == at + |LinkBytes(links[..k])| <= out.Length
      invariant out[..pos] == before + LinkBytes(links[..k])
    {
      var l := links[k];
      assert links[..k + 1] == links[..k] + [l];
      LinkBytesAppend(links[..k], l);
      LinkBytesShorter(links, k + 1);
      FieldLength(l.id);
      out[pos] := l.index;
      assert out[..pos + 1] == before + LinkBytes(links[..k]) + [l.index];
      pos := PutField(out, pos + 1, l.id);
    }
    assert links[..|links|] == links;
  }

  lemma NoLinkBytes()
    ensures ByteLinks([]) && LinkBytes([]) == []
  {
  }

  lemma FieldLength(s: seq<byte>)
    requires |s| < 256
    ensures |FieldBytes(s)| == |s| + 1
  {
  }

  lemma {:induction false} LinkBytesShorter(links: seq<Link>, k: nat)
    requires ByteLinks(links) && k <= |links|
    ensures ByteLinks(links[..k]) && |LinkBytes(links[..k])| <= |LinkBytes(links)|
  {
    if k > 0 {
      LinkBytesShorter(links[1..], k - 1);
      assert links[..k][1..] == links[1..][..k - 1];
    }
  }

  method PutRanges(out: array<byte>, at: nat, ranges: seq<Range>) returns (pos: nat)
    requires at + RANGE_SIZE * |ranges| <= out.Length
    modifies out
    ensures pos == at + RANGE_SIZE * |ranges| && out[..pos] == old(out[..at]) + RangeBytes(ranges)
  {
    hide RangeField;
    pos := at;
    ghost var before := out[..at];
    for k := 0 to |ranges|
      invariant pos == at + RANGE_SIZE * k
      invariant out[..pos] == before + RangeBytes(ranges[..k])
    {
      assert ranges[..k + 1] == ranges[..k] + [ranges[k]];
      RangeBytesAppend(ranges[..k], ranges[k]);
      Put(out, pos, RangeField(ranges[k]));
      pos := pos + RANGE_SIZE;
    }
    assert ranges[..|ranges|] == ranges;
  }

  /** The signed part, as its fields one after the other; and how long it is. */
  lemma SignedIsChain(h: Hello, front: seq<byte>)
    requires Writable(h)
    ensures |FieldBytes(h.device)| == |h.device| + 1 && |FieldBytes(h.firmware)| == |h.firmware| + 1
    ensures |Payload(h)| == |h.device| + 1 + |h.firmware| + 1 + 1 + |LinkBytes(h.links)| + 1 + RANGE_SIZE * |h.ranges| + |h.hmac|
    ensures front + FieldBytes(h.device) + FieldBytes(h.firmware) + [|h.links|]
            + LinkBytes(h.links) + [|h.ranges|] + RangeBytes(h.ranges) + h.hmac
         == front + Payload(h)
  {
    hide LinkBytes, RangeBytes;
  }

  /**
   `hello_transcript`: what is authenticated is the HELLO payload without its last 32 bytes,
   whatever those will be.
   */
  method HelloTranscript(h: Hello, out: array<byte>) returns (pos: nat)
    requires Writable(h) && |Signed(h)| <= out.Length
    modifies out
    ensures pos <= out.Length && pos == |Signed(h)| && out[..pos] == Signed(h)
    ensures |h.hmac| == HMAC_SIZE ==> pos == |Payload(h)| - HMAC_SIZE && out[..pos] == Payload(h)[..pos]
  {
    assert Payload(h) == Signed(h) + h.hmac;
    hide LinkBytes, RangeBytes, RangeField, FieldBytes, Signed, Payload;
    ghost var device, firmware, links := FieldBytes(h.device), FieldBytes(h.firmware), LinkBytes(h.links);
    SignedIsChain(h, []);
    pos := PutField(out, 0, h.device);
    pos := PutField(out, pos, h.firmware);
    assert out[..pos] == [] + device + firmware;
    Put(out, pos, [|h.links|]);
    pos := PutLinks(out, pos + 1, h.links);
    assert out[..pos] == [] + device + firmware + [|h.links|] + links;
    Put(out, pos, [|h.ranges|]);
    pos := PutRanges(out, pos + 1, h.ranges);
    assert out[..pos] + h.hmac == [] + Payload(h) == Payload(h);
    assert (out[..pos] + h.hmac)[..pos] == out[..pos];
    assert (Signed(h) + h.hmac)[..pos] == Signed(h);
  }

  /** The part of `write_hello` behind the header. */
  method WritePayload(h: Hello, out: array<byte>, at: nat) returns (pos: nat)
    requires Writable(h) && |h.hmac| == HMAC_SIZE && at + |Payload(h)| <= out.Length
    modifies out
    ensures pos == at + |Payload(h)| && pos <= out.Length && out[..pos] == old(out[..at]) + Payload(h)
  {
    hide LinkBytes, RangeBytes, RangeField, FieldBytes, Signed, Payload;
    ghost var front, device, firmware, links := out[..at], FieldBytes(h.device), FieldBytes(h.firmware), LinkBytes(h.links);
    SignedIsChain(h, front);
    pos := PutField(out, at, h.device);
    pos := PutField(out, pos, h.firmware);
    assert out[..pos] == front + device + firmware;
    Put(out, pos, [|h.links|]);
    pos := PutLinks(out, pos + 1, h.links);
    assert out[..pos] == front + device + firmware + [|h.links|] + links;
    Put(out, pos, [|h.ranges|]);
    pos := PutRanges(out, pos + 1, h.ranges);
    Put(out, pos, h.hmac);
    pos := pos + HMAC_SIZE;
  }

  /** `write_hello`: None is the `CodecError`, and the buffer is then untouched. */
  method WriteHello(flags: nat, boot: u64, h: Hello, out: array<byte>) returns (size: Option<nat>)
    modifies out
    ensures size.Some? <==> Acceptable(h, boot) && flags <= KNOWN_FLAGS && HEADER_SIZE + |Payload(h)| <= out.Length
    ensures size.None? ==> out[..] == old(out[..])
    ensures size.Some? ==> size.value <= out.Length
    ensures size.Some? ==> WriteMessage(HELLO, flags, 0, boot, GLOBAL_SCOPE as int, Payload(h)) == Encoded(out[..size.value])
  {
    hide Payload, Header;
    if !Acceptable(h, boot) || flags > KNOWN_FLAGS || HEADER_SIZE + |Payload(h)| > out.Length {
      return None;
    }
    PayloadIsShort(h);
    var header := Header(Message(HELLO, flags, 0, boot, GLOBAL_SCOPE, Payload(h)));
    Put(out, 0, header);
    assert out[..HEADER_SIZE] == header;
    var pos := WritePayload(h, out, HEADER_SIZE);
    return Some(pos);
  }

  lemma PayloadIsShort(h: Hello)
    requires WellSized(h)
    ensures |Payload(h)| <= MAX_PAYLOAD_SIZE
  {
    hide RangeBytes;
    LinksAreShort(h.links);
  }

  lemma {:induction false} LinksAreShort(links: seq<Link>)
    requires SizedLinks(links)
    ensures |LinkBytes(links)| <= 33 * |links|
  {
    if links != [] {
      LinksAreShort(links[1..]);
    }
  }

  // ----- Diagnostic TLVs -----

  datatype Tlv = Tlv(tag: byte, kind: byte, value: seq<byte>)

  predicate Sized(t: Tlv) { |t.value| < MASK16 }

  predicate AllSized(ts: seq<Tlv>) { forall t :: t in ts ==> Sized(t) }

  function TlvBytes(t: Tlv): (b: seq<byte>)
    requires Sized(t)
    ensures |b| == 4 + |t.value|
  {
    FieldWidths();
    [t.tag, t.kind] + BE(|t.value|, 2) + t.value
  }

  function TlvsBytes(ts: seq<Tlv>): seq<byte>
    requires AllSized(ts)
  {
    if ts == [] then [] else TlvBytes(ts[0]) + TlvsBytes(ts[1..])
  }

  /** What `parse_tlvs` yields, and whether it reaches the end without a `CodecError`. */
  function ParseTlvs(p: seq<byte>): (seq<Tlv>, bool)
    decreases |p|
  {
    if p == [] then ([], true)
    else if |p| < 4 then ([], false)
    else
      var size := FromBE(p[2..4]);
      if size > |p| - 4 then ([], false)
      else
        var (more, clean) := ParseTlvs(p[4 + size..]);
        ([Tlv(p[0], p[1], p[4..4 + size])] + more, clean)
  }

  lemma {:induction false} TlvsRoundTrip(ts: seq<Tlv>)
    requires AllSized(ts)
    ensures ParseTlvs(TlvsBytes(ts)) == (ts, true)
  {
    hide BE, FromBE;
    if ts != [] {
      FieldWidths();
      var t, p, tail := ts[0], TlvsBytes(ts), TlvsBytes(ts[1..]);
      assert Sized(t);
      FromBEofBE(|t.value|, 2);
      assert p[2..4] == BE(|t.value|, 2);
      assert p[4..4 + |t.value|] == t.value && p[4 + |t.value|..] == tail;
      TlvsRoundTrip(ts[1..]);
      assert ts == [t] + ts[1..];
    }
  }

  /** A clean parse accounts for every byte; one cut short accounts for a prefix. */
  lemma {:induction false} TlvsInvert(p: seq<byte>)
    ensures var (ts, clean) := ParseTlvs(p);
            AllSized(ts) && TlvsBytes(ts) <= p && (clean <==> TlvsBytes(ts) == p)
    decreases |p|
  {
    hide BE, FromBE;
    if |p| >= 4 && FromBE(p[2..4]) <= |p| - 4 {
      var size := FromBE(p[2..4]);
      var t, rest := Tlv(p[0], p[1], p[4..4 + size]), p[4 + size..];
      TlvReads(p, size);
      TlvsInvert(rest);
      var (more, clean) := ParseTlvs(rest);
      assert ParseTlvs(p) == ([t] + more, clean);
      hide ParseTlvs, TlvBytes;
      TlvInFront(t, more);
      assert p == TlvBytes(t) + rest;
    }
  }

  lemma TlvReads(p: seq<byte>, size: nat)
    requires 4 <= |p| && size == FromBE(p[2..4]) <= |p| - 4
    ensures var t := Tlv(p[0], p[1], p[4..4 + size]); Sized(t) && TlvBytes(t) == p[..4 + size]
  {
    hide BE, FromBE;
    FieldWidths();
    BEofFromBE(p[2..4]);
  }

  lemma TlvInFront(t: Tlv, more: seq<Tlv>)
    requires Sized(t) && AllSized(more)
    ensures AllSized([t] + more) && TlvsBytes([t] + more) == TlvBytes(t) + TlvsBytes(more)
  {
    hide TlvBytes;
    assert ([t] + more)[1..] == more;
  }
}
