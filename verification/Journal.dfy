/**
 The append-only journal (`pico/bmcu_journal.py`): record and segment codec, recovery of a
 torn file, and the bounded stager in front of the flash.  CRC-32 is any function of bytes.
 */
module Journal {
  import opened Options
  import opened Bytes
  import opened ByteRings

  const RECORD_HEADER_SIZE: nat := 24
  const RECORD_MIN_SIZE: nat := 28
  const MAX_PAYLOAD_SIZE: nat := 4096
  const RECORD_MAX_SIZE: nat := RECORD_HEADER_SIZE + MAX_PAYLOAD_SIZE + 4
  const SEGMENT_HEADER_SIZE: nat := 32
  const MAGIC: seq<byte> := [0x42, 0x4D, 0x4A, 0x31]
  const VERSION: byte := 1

  // ----- One record -----

  datatype Entry = Entry(kind: byte, flags: byte, link: byte, sequence: u64, received: u64, payload: seq<byte>)

  predicate Fits(e: Entry) { |e.payload| <= MAX_PAYLOAD_SIZE }

  function Size(e: Entry): (n: nat) { RECORD_HEADER_SIZE + |e.payload| + 4 }

  function Head(e: Entry): (h: seq<byte>)
    requires Fits(e)
    ensures |h| == RECORD_HEADER_SIZE
  {
    FieldWidths();
    BE(Size(e), 2) + [e.kind, e.flags, e.link, 0, 0, 0] + BE(e.sequence, 8) + BE(e.received, 8)
  }

  function Encode(crc: seq<byte> -> u32, e: Entry): (bytes: seq<byte>)
    requires Fits(e)
    ensures |bytes| == Size(e)
  {
    FieldWidths();
    var checked := Head(e) + e.payload;
    checked + BE(crc(checked), 4)
  }

  /** `parse_record`: nothing yet, a `JournalError`, or a record and its size. */
  datatype Parsed = Truncated | Corrupt | Record(total: nat, entry: Entry)

  function Parse(crc: seq<byte> -> u32, d: seq<byte>): (p: Parsed)
    ensures p.Record? ==> RECORD_MIN_SIZE <= p.total <= |d| && Fits(p.entry) && p.total == Size(p.entry)
  {
    if |d| < 2 then Truncated
    else
      var total := FromBE(d[..2]);
      if total < RECORD_MIN_SIZE || total > RECORD_MAX_SIZE then Corrupt
      else if |d| < total then Truncated
      else if d[5..8] != [0, 0, 0] then Corrupt
      else if crc(d[..total - 4]) != FromBE(d[total - 4..total]) then Corrupt
      else
        FieldWidths();
        Record(total, Entry(d[2], d[3], d[4], FromBE(d[8..16]), FromBE(d[16..24]), d[24..total - 4]))
  }

  lemma HeadFields(e: Entry, d: seq<byte>)
    requires Fits(e) && |d| >= RECORD_HEADER_SIZE && d[..RECORD_HEADER_SIZE] == Head(e)
    ensures FromBE(d[..2]) == Size(e) && d[2] == e.kind && d[3] == e.flags && d[4] == e.link && d[5..8] == [0, 0, 0]
    ensures FromBE(d[8..16]) == e.sequence && FromBE(d[16..24]) == e.received
  {
    hide BE, FromBE;
    FieldWidths();
    var h := d[..RECORD_HEADER_SIZE];
    FromBEofBE(Size(e), 2);
    FromBEofBE(e.sequence, 8);
    FromBEofBE(e.received, 8);
    assert d[..2] == h[..2] == BE(Size(e), 2);
    assert d[8..16] == h[8..16] == BE(e.sequence, 8);
    assert d[16..24] == h[16..24] == BE(e.received, 8);
    assert d[2] == h[2] && d[3] == h[3] && d[4] == h[4] && d[5] == h[5] && d[6] == h[6] && d[7] == h[7];
  }

  /** A written record reads back, whatever follows it. */
  lemma ParseEncoded(crc: seq<byte> -> u32, e: Entry, tail: seq<byte>)
    requires Fits(e)
    ensures Parse(crc, Encode(crc, e) + tail) == Record(Size(e), e)
  {
    FieldWidths();
    var d, total := Encode(crc, e) + tail, Size(e);
    var checked := Head(e) + e.payload;
    assert d[..RECORD_HEADER_SIZE] == Head(e);
    HeadFields(e, d);
    assert d[..total - 4] == checked;
    assert d[total - 4..total] == BE(crc(checked), 4);
    FromBEofBE(crc(checked), 4);
    assert d[24..total - 4] == e.payload;
  }

  /** And what is read as a record is, byte for byte, the record written. */
  lemma ParseInverts(crc: seq<byte> -> u32, d: seq<byte>)
    requires Parse(crc, d).Record?
    ensures var p := Parse(crc, d); d[..p.total] == Encode(crc, p.entry)
  {
    FieldWidths();
    var total, e := Parse(crc, d).total, Parse(crc, d).entry;
    BEofFromBE(d[..2]);
    BEofFromBE(d[8..16]);
    BEofFromBE(d[16..24]);
    BEofFromBE(d[total - 4..total]);
    assert d[..RECORD_HEADER_SIZE] == Head(e) by {
      assert d[..RECORD_HEADER_SIZE] == d[..2] + [d[2], d[3], d[4]] + d[5..8] + d[8..16] + d[16..24];
    }
    assert d[..total - 4] == Head(e) + e.payload;
    assert d[..total] == d[..total - 4] + d[total - 4..total];
  }

  /** A cut-off record is never reported, neither as a record nor as an error. */
  lemma ParseCut(crc: seq<byte> -> u32, e: Entry, n: nat)
    requires Fits(e) && n < Size(e)
    ensures Parse(crc, Encode(crc, e)[..n]) == Truncated
  {
    if n >= 2 {
      var d := Encode(crc, e);
      assert d[..RECORD_HEADER_SIZE] == Head(e);
      HeadFields(e, d);
      assert d[..n][..2] == d[..2];
    }
  }

  /** Only the bytes of the record itself decide. */
  lemma ParseLocal(crc: seq<byte> -> u32, d: seq<byte>, total: nat)
    requires |d| >= 2 && total == FromBE(d[..2]) && RECORD_MIN_SIZE <= total <= |d|
    ensures Parse(crc, d[..total]) == Parse(crc, d)
  {
    var s := d[..total];
    assert s[..2] == d[..2] && s[5..8] == d[5..8] && s[8..16] == d[8..16] && s[16..24] == d[16..24];
    assert s[..total - 4] == d[..total - 4] && s[total - 4..total] == d[total - 4..total] && s[24..total - 4] == d[24..total - 4];
  }

  /** `write_record` into the caller's buffer; false is the `JournalError`. */
  method WriteRecord(crc: seq<byte> -> u32, out: array<byte>, e: Entry) returns (ok: bool)
    modifies out
    ensures ok <==> Fits(e) && Size(e) <= out.Length
    ensures ok ==> out[..Size(e)] == Encode(crc, e) && out[Size(e)..] == old(out[Size(e)..])
    ensures !ok ==> out[..] == old(out[..])
  {
    var total := RECORD_HEADER_SIZE + |e.payload| + 4;
    if total > RECORD_MAX_SIZE || total > out.Length {
      return false;
    }
    FieldWidths();
    var head := BE(total, 2) + [e.kind, e.flags, e.link, 0, 0, 0] + BE(e.sequence, 8) + BE(e.received, 8);
    forall i | 0 <= i < RECORD_HEADER_SIZE {
      out[i] := head[i];
    }
    forall i | 0 <= i < |e.payload| {
      out[RECORD_HEADER_SIZE + i] := e.payload[i];
    }
    assert out[..total - 4] == Head(e) + e.payload;
    var check := BE(crc(out[..total - 4]), 4);
    forall i | 0 <= i < 4 {
      out[total - 4 + i] := check[i];
    }
    assert out[..total] == Head(e) + e.payload + check;
    return true;
  }

  // ----- One segment -----

  datatype SegmentHeader = SegmentHeader(boot: u64, sequence: u32, created: u64)

  function HeaderBytes(crc: seq<byte> -> u32, h: SegmentHeader): (bytes: seq<byte>)
    ensures |bytes| == SEGMENT_HEADER_SIZE
  {
    FieldWidths();
    var checked := MAGIC + [VERSION, 0, 0, 0] + BE(h.boot, 8) + BE(h.sequence, 4) + BE(h.created, 8);
    checked + BE(crc(checked), 4)
  }

  /** `parse_segment_header`; None is the `JournalError`. */
  function ParseHeader(crc: seq<byte> -> u32, d: seq<byte>): Option<SegmentHeader> {
    if |d| < SEGMENT_HEADER_SIZE then None
    else if d[..4] != MAGIC || d[4] != VERSION || d[5..8] != [0, 0, 0] then None
    else if crc(d[..28]) != FromBE(d[28..32]) then None
    else
      FieldWidths();
      Some(SegmentHeader(FromBE(d[8..16]), FromBE(d[16..20]), FromBE(d[20..28])))
  }

  lemma HeaderRoundTrip(crc: seq<byte> -> u32, h: SegmentHeader, tail: seq<byte>)
    ensures ParseHeader(crc, HeaderBytes(crc, h) + tail) == Some(h)
  {
    hide BE, FromBE;
    FieldWidths();
    var d := HeaderBytes(crc, h) + tail;
    FromBEofBE(h.boot, 8);
    FromBEofBE(h.sequence, 4);
    FromBEofBE(h.created, 8);
    var checked := MAGIC + [VERSION, 0, 0, 0] + BE(h.boot, 8) + BE(h.sequence, 4) + BE(h.created, 8);
    FromBEofBE(crc(checked), 4);
    assert |checked| == 28 && HeaderBytes(crc, h) == checked + BE(crc(checked), 4);
    assert d[..28] == checked;
    assert d[28..32] == BE(crc(checked), 4);
    assert d[..4] == MAGIC && d[5..8] == [0, 0, 0];
    assert d[8..16] == BE(h.boot, 8) && d[16..20] == BE(h.sequence, 4) && d[20..28] == BE(h.created, 8);
  }

  predicate AllFit(es: seq<Entry>) { forall e :: e in es ==> Fits(e) }

  /** What a run of writes puts behind the segment header. */
  function Body(crc: seq<byte> -> u32, es: seq<Entry>): seq<byte>
    requires AllFit(es)
  {
    if es == [] then [] else Encode(crc, es[0]) + Body(crc, es[1..])
  }

  function Segment(crc: seq<byte> -> u32, h: SegmentHeader, es: seq<Entry>): seq<byte>
    requires AllFit(es)
  {
    HeaderBytes(crc, h) + Body(crc, es)
  }

  // ----- Recovery -----

  /** The records at the front of the bytes, up to the first that is torn or corrupt. */
  function Recovered(crc: seq<byte> -> u32, b: seq<byte>): (es: seq<Entry>)
    ensures AllFit(es)
  {
    var p := Parse(crc, b);
    if p.Record? then [p.entry] + Recovered(crc, b[p.total..]) else []
  }

  /** How many of the records end within the first `cut` bytes. */
  function WholeBefore(es: seq<Entry>, cut: nat): (k: nat)
    ensures k <= |es|
  {
    if es == [] || Size(es[0]) > cut then 0 else 1 + WholeBefore(es[1..], cut - Size(es[0]))
  }

  lemma {:induction false} BodyAppends(crc: seq<byte> -> u32, a: seq<Entry>, b: seq<Entry>)
    requires AllFit(a) && AllFit(b)
    ensures AllFit(a + b) && Body(crc, a + b) == Body(crc, a) + Body(crc, b)
  {
    hide Encode;
    assert AllFit(a + b);
    if a == [] {
      assert a + b == b;
    } else {
      BodyAppends(crc, a[1..], b);
      assert (a + b)[1..] == a[1..] + b;
      assert Body(crc, a + b) == Encode(crc, a[0]) + (Body(crc, a[1..]) + Body(crc, b));
    }
  }

  /** The count is the longest prefix of records that lies wholly before the cut. */
  lemma {:induction false} WholeBeforeIsLongest(crc: seq<byte> -> u32, es: seq<Entry>, cut: nat)
    requires AllFit(es)
    ensures var k := WholeBefore(es, cut);
            && |Body(crc, es[..k])| <= cut
            && (k < |es| ==> cut < |Body(crc, es[..k + 1])|)
  {
    if es != [] {
      var n := Size(es[0]);
      if n <= cut {
        WholeBeforeIsLongest(crc, es[1..], cut - n);
        var k := WholeBefore(es, cut);
        assert es[..k][1..] == es[1..][..k - 1];
        if k < |es| {
          assert es[..k + 1][1..] == es[1..][..k];
        }
      } else {
        assert es[..1] == [es[0]] && es[..1][1..] == [];
        assert |Body(crc, es[..1])| == n;
      }
    }
  }

  /**
   A file cut at any byte yields exactly the records that lie wholly before the cut, and
   bytes appended behind the cut remove or alter none of them.
   */
  lemma {:induction false} TornTail(crc: seq<byte> -> u32, es: seq<Entry>, cut: nat, garbage: seq<byte>)
    requires AllFit(es) && cut <= |Body(crc, es)|
    ensures var kept, torn := es[..WholeBefore(es, cut)], Body(crc, es)[..cut];
            && Recovered(crc, torn) == kept
            && kept <= Recovered(crc, torn + garbage)
            && (cut == |Body(crc, es)| ==> kept == es && Recovered(crc, torn + garbage) == es + Recovered(crc, garbage))
    decreases es
  {
    hide Encode, Recovered;
    var torn := Body(crc, es)[..cut];
    if es == [] {
      assert torn == [] && torn + garbage == garbage;
      CutRecovers(crc, torn);
    } else {
      var e, rest := es[0], es[1..];
      var n, body := Size(e), Body(crc, rest);
      if n <= cut {
        var part := body[..cut - n];
        assert torn == Encode(crc, e) + part;
        assert torn + garbage == Encode(crc, e) + (part + garbage);
        WholeRecovers(crc, e, part);
        WholeRecovers(crc, e, part + garbage);
        TornTail(crc, rest, cut - n, garbage);
        var k := WholeBefore(rest, cut - n);
        assert es[..k + 1] == [e] + rest[..k];
        assert es == [e] + rest;
      } else {
        assert torn == Encode(crc, e)[..cut];
        ParseCut(crc, e, cut);
        CutRecovers(crc, torn);
      }
    }
  }

  lemma WholeRecovers(crc: seq<byte> -> u32, e: Entry, tail: seq<byte>)
    requires Fits(e)
    ensures Recovered(crc, Encode(crc, e) + tail) == [e] + Recovered(crc, tail)
  {
    hide Parse, Encode;
    ParseEncoded(crc, e, tail);
    assert (Encode(crc, e) + tail)[Size(e)..] == tail;
  }

  lemma CutRecovers(crc: seq<byte> -> u32, b: seq<byte>)
    requires b == [] || Parse(crc, b) == Truncated
    ensures Recovered(crc, b) == []
  {
  }

  /** Recovery invents nothing: what it yields is what the file starts with. */
  lemma {:induction false} RecoveredIsWritten(crc: seq<byte> -> u32, b: seq<byte>)
    ensures Body(crc, Recovered(crc, b)) <= b
    decreases b
  {
    var p := Parse(crc, b);
    if p.Record? {
      ParseInverts(crc, b);
      RecoveredIsWritten(crc, b[p.total..]);
      assert Recovered(crc, b)[1..] == Recovered(crc, b[p.total..]);
      assert b == b[..p.total] + b[p.total..];
    }
  }

  /** What `recover_records` yields for a whole file; None is the `JournalError` of the header. */
  function RecoverFile(crc: seq<byte> -> u32, file: seq<byte>): Option<(SegmentHeader, seq<Entry>)> {
    match ParseHeader(crc, file)
    case None => None
    case Some(h) => Some((h, Recovered(crc, file[SEGMENT_HEADER_SIZE..])))
  }

  /** A segment cut anywhere: an unreadable header, or exactly the whole records before the cut. */
  lemma SegmentTornTail(crc: seq<byte> -> u32, h: SegmentHeader, es: seq<Entry>, cut: nat, garbage: seq<byte>)
    requires AllFit(es) && cut <= |Segment(crc, h, es)|
    ensures var torn := Segment(crc, h, es)[..cut];
            if cut < SEGMENT_HEADER_SIZE then RecoverFile(crc, torn) == None
            else
              var kept := es[..WholeBefore(es, cut - SEGMENT_HEADER_SIZE)];
              && RecoverFile(crc, torn) == Some((h, kept))
              && RecoverFile(crc, torn + garbage).Some?
              && RecoverFile(crc, torn + garbage).value.0 == h
              && kept <= RecoverFile(crc, torn + garbage).value.1
  {
    if cut >= SEGMENT_HEADER_SIZE {
      hide ParseHeader, HeaderBytes, Recovered, Body, WholeBefore;
      var n, body := cut - SEGMENT_HEADER_SIZE, Body(crc, es);
      var torn := Segment(crc, h, es)[..cut];
      assert torn == HeaderBytes(crc, h) + body[..n];
      assert torn + garbage == HeaderBytes(crc, h) + (body[..n] + garbage);
      HeaderRoundTrip(crc, h, body[..n]);
      HeaderRoundTrip(crc, h, body[..n] + garbage);
      TornTail(crc, es, n, garbage);
      assert torn[SEGMENT_HEADER_SIZE..] == body[..n];
      assert (torn + garbage)[SEGMENT_HEADER_SIZE..] == body[..n] + garbage;
    }
  }

  /** `file.read(n)`: fewer bytes only at the end of the file. */
  function Read(file: seq<byte>, at: nat, n: nat): seq<byte>
    requires at <= |file|
  {
    file[at..if at + n <= |file| then at + n else |file|]
  }

  /** `recover_records`, reading the file two bytes and then one record at a time. */
  method RecoverRecords(crc: seq<byte> -> u32, file: seq<byte>, scratch: array<byte>)
    returns (r: Option<(SegmentHeader, seq<Entry>)>)
    requires scratch.Length >= RECORD_MAX_SIZE
    modifies scratch
    ensures r == RecoverFile(crc, file)
  {
    hide Parse, ParseHeader, Recovered;
    HeaderIsLocal(crc, file);
    var header := ParseHeader(crc, Read(file, 0, SEGMENT_HEADER_SIZE));
    if header.None? {
      return None;
    }
    HeaderIsLong(crc, file);
    hide Read;
    var at, es := SEGMENT_HEADER_SIZE, [];
    while true
      invariant SEGMENT_HEADER_SIZE <= at <= |file|
      invariant Recovered(crc, file[SEGMENT_HEADER_SIZE..]) == es + Recovered(crc, file[at..])
      decreases |file| - at
    {
      ghost var rest := file[at..];
      OneStep(crc, rest);
      var record := ReadRecord(crc, file, at, scratch);
      if !record.Record? {
        break;
      }
      assert rest[record.total..] == file[at + record.total..];
      es := es + [record.entry];
      at := at + record.total;
    }
    assert es + [] == es;
    return Some((header.value, es));
  }

  /** One turn of the loop: two bytes, then the rest of the record, then the parse. */
  method ReadRecord(crc: seq<byte> -> u32, file: seq<byte>, at: nat, scratch: array<byte>) returns (record: Parsed)
    requires scratch.Length >= RECORD_MAX_SIZE && at <= |file|
    modifies scratch
    ensures record.Record? <==> Parse(crc, file[at..]).Record?
    ensures record.Record? ==> record == Parse(crc, file[at..])
  {
    hide Parse;
    ghost var rest := file[at..];
    OneStep(crc, rest);
    var prefix := Read(file, at, 2);
    if |prefix| != 2 {
      return Truncated;
    }
    assert prefix == rest[..2];
    var total := FromBE(prefix);
    if total < RECORD_MIN_SIZE || total > RECORD_MAX_SIZE {
      return Corrupt;
    }
    var remaining := Read(file, at + 2, total - 2);
    if |remaining| != total - 2 {
      return Truncated;
    }
    forall i | 0 <= i < total {
      scratch[i] := if i < 2 then prefix[i] else remaining[i - 2];
    }
    assert scratch[..total] == rest[..total];
    ParseLocal(crc, rest, total);
    record := Parse(crc, scratch[..total]);
  }

  lemma HeaderIsLocal(crc: seq<byte> -> u32, file: seq<byte>)
    ensures ParseHeader(crc, Read(file, 0, SEGMENT_HEADER_SIZE)) == ParseHeader(crc, file)
  {
    if |file| >= SEGMENT_HEADER_SIZE {
      var d := Read(file, 0, SEGMENT_HEADER_SIZE);
      assert d[..4] == file[..4] && d[5..8] == file[5..8] && d[..28] == file[..28] && d[28..32] == file[28..32];
      assert d[8..16] == file[8..16] && d[16..20] == file[16..20] && d[20..28] == file[20..28];
    }
  }

  lemma HeaderIsLong(crc: seq<byte> -> u32, file: seq<byte>)
    requires ParseHeader(crc, file).Some?
    ensures |file| >= SEGMENT_HEADER_SIZE
  {
  }

  /** One unfolding of recovery, and the record size it rests on. */
  lemma OneStep(crc: seq<byte> -> u32, b: seq<byte>)
    ensures var p := Parse(crc, b);
            if p.Record? then
              && |b| >= 2 && p.total == FromBE(b[..2]) && p.total <= |b| && RECORD_MIN_SIZE <= p.total <= RECORD_MAX_SIZE
              && Recovered(crc, b) == [p.entry] + Recovered(crc, b[p.total..])
            else Recovered(crc, b) == []
  {
  }

  // ----- Staging -----

  const FLAG_CRITICAL: nat := 2

  predicate Critical(e: Entry) { (e.flags / FLAG_CRITICAL) % 2 == 1 }

  datatype Staging = Staged | CriticalReserve | NoSlot | Oversize

  datatype Flush = Nothing | Flushed(written: nat) | PartialWrite

  class JournalStager {
    const crc: seq<byte> -> u32
    const ring: ByteRing
    const scratch: array<byte>
    var nextLocalSequence: nat
    /** Every record accepted so far, and how many of them have been flushed whole. */
    ghost var accepted: seq<Entry>
    ghost var flushed: nat

    ghost predicate Valid()
      reads this, ring, ring.Repr, scratch
    {
      && ring.Valid() && ring.slotSize == RECORD_MAX_SIZE
      && scratch.Length == RECORD_MAX_SIZE && scratch !in ring.Repr && this !in ring.Repr
      && nextLocalSequence == |accepted| + 1 && Waiting(crc, ring.Contents(), accepted, flushed)
    }

    constructor (crc: seq<byte> -> u32, slots: nat)
      requires slots > 0
      ensures Valid() && accepted == [] && flushed == 0 && ring.capacity == slots && this.crc == crc
      ensures fresh(ring.Repr) && fresh(scratch)
    {
      this.crc := crc;
      var store := new ByteRing(slots, RECORD_MAX_SIZE);
      ring := store;
      scratch := new byte[RECORD_MAX_SIZE](_ => 0);
      nextLocalSequence, accepted, flushed := 1, [], 0;
    }

    /** `stage`: an ordinary record never takes the last slot. */
    method Stage(e: Entry) returns (outcome: Staging)
      requires Valid()
      modifies this, ring.Repr, scratch
      ensures Valid() && flushed == old(flushed)
      ensures accepted == if outcome == Staged then old(accepted) + [e] else old(accepted)
      ensures outcome ==
              (if ring.capacity > 1 && !Critical(e) && old(ring.count) + 1 >= ring.capacity then CriticalReserve
               else if !Fits(e) then Oversize
               else if old(ring.count) >= ring.capacity then NoSlot
               else Staged)
    {
      hide ByteRing.Valid, ByteRing.Shaped, ByteRing.Contents, Encode, Waiting;
      if ring.capacity > 1 && !Critical(e) && ring.count + 1 >= ring.capacity {
        return CriticalReserve;
      }
      ghost var q := ring.Contents();
      var ok := WriteRecord(crc, scratch, e);
      assert ring.Contents() == q;
      if !ok {
        return Oversize;
      }
      var placed := ring.Append(nextLocalSequence, scratch[..RECORD_HEADER_SIZE + |e.payload| + 4], true, -1);
      if placed == Full {
        return NoSlot;
      }
      StagingWaits(crc, q, accepted, flushed, e);
      nextLocalSequence := nextLocalSequence + 1;
      accepted := accepted + [e];
      return Staged;
    }

    /** The size of the record to flush next, or 0. */
    method NextSize() returns (size: nat)
      requires Valid()
      ensures flushed <= |accepted| && AllFit(accepted)
      ensures size == if flushed < |accepted| then Size(accepted[flushed]) else 0
    {
      hide ByteRing.Valid, ByteRing.Shaped, ByteRing.Contents, Encode, Waiting;
      HeadReleases(crc, ring.Contents(), accepted, flushed);
      var current := ring.Peek();
      return if current.None? then 0 else |current.value.data|;
    }

    /**
     `flush_one`; `taken` is how many bytes the file accepted.  The file grows by the oldest
     staged record, which is released only if all of it went out.
     */
    method FlushOne(file: seq<byte>, taken: nat) returns (outcome: Flush, file': seq<byte>)
      requires Valid()
      modifies this, ring.Repr
      ensures Valid() && accepted == old(accepted)
      ensures outcome == Nothing <==> old(flushed) == |accepted|
      ensures outcome == Nothing ==> file' == file && flushed == old(flushed)
      ensures old(flushed) < |accepted| ==>
                var record := Encode(crc, accepted[old(flushed)]);
                if taken < |record| then outcome == PartialWrite && file' == file + record[..taken] && flushed == old(flushed)
                else outcome == Flushed(|record|) && file' == file + record && flushed == old(flushed) + 1
    {
      hide ByteRing.Valid, ByteRing.Shaped, ByteRing.Contents, Encode, Waiting;
      ghost var q := ring.Contents();
      HeadReleases(crc, q, accepted, flushed);
      var current := ring.Peek();
      if current.None? {
        return Nothing, file;
      }
      var record := current.value.data;
      if taken < |record| {
        return PartialWrite, file + record[..taken];
      }
      var released := ring.ReleaseThrough(current.value.sequence);
      flushed := flushed + 1;
      return Flushed(|record|), file + record;
    }
  }

  function StagedRec(crc: seq<byte> -> u32, accepted: seq<Entry>, k: nat): Rec
    requires AllFit(accepted) && k < |accepted|
  {
    Rec(k + 1, Encode(crc, accepted[k]), true, -1)
  }

  /** The ring holds exactly the accepted records not flushed yet, in order. */
  ghost predicate Waiting(crc: seq<byte> -> u32, q: seq<Rec>, accepted: seq<Entry>, flushed: nat) {
    && AllFit(accepted) && flushed + |q| == |accepted|
    && forall k :: 0 <= k < |q| ==> q[k] == StagedRec(crc, accepted, flushed + k)
  }

  lemma StagingWaits(crc: seq<byte> -> u32, q: seq<Rec>, accepted: seq<Entry>, flushed: nat, e: Entry)
    requires Waiting(crc, q, accepted, flushed) && Fits(e)
    ensures Waiting(crc, q + [Rec(|accepted| + 1, Encode(crc, e), true, -1)], accepted + [e], flushed)
  {
    hide Encode;
  }

  lemma HeadReleases(crc: seq<byte> -> u32, q: seq<Rec>, accepted: seq<Entry>, flushed: nat)
    requires Waiting(crc, q, accepted, flushed)
    ensures AllFit(accepted) && flushed + |q| == |accepted|
    ensures q != [] ==>
              && q[0].data == Encode(crc, accepted[flushed])
              && ReleaseQueue(q, q[0].sequence) == q[1..] && Waiting(crc, q[1..], accepted, flushed + 1)
  {
    hide Encode;
    if q != [] {
      assert q[0] == StagedRec(crc, accepted, flushed + 0);
      if |q| > 1 {
        assert q[1..][0] == q[1] == StagedRec(crc, accepted, flushed + 1);
      }
      forall k: nat | k < |q| - 1
        ensures q[1..][k] == StagedRec(crc, accepted, flushed + 1 + k)
      {
        assert q[k + 1] == StagedRec(crc, accepted, flushed + (k + 1));
      }
    }
  }

  /**
   If every flush so far went out whole, the file is exactly the flushed records, and one more
   that stops at any byte costs no record but its own.  What a power loss takes of a file that
   was written but not committed is the subject of module JournalStore.
   */
  lemma TornWriteCostsItsRecord(crc: seq<byte> -> u32, h: SegmentHeader, accepted: seq<Entry>, flushed: nat, taken: nat)
    requires AllFit(accepted) && flushed < |accepted| && taken <= Size(accepted[flushed])
    ensures AllFit(accepted[..flushed])
    ensures var file := Segment(crc, h, accepted[..flushed]) + Encode(crc, accepted[flushed])[..taken];
            RecoverFile(crc, file) == Some((h, accepted[..if taken == Size(accepted[flushed]) then flushed + 1 else flushed]))
  {
    hide RecoverFile, Encode, HeaderBytes, Body, WholeBefore, Size;
    var done, next := accepted[..flushed], accepted[flushed];
    var all := accepted[..flushed + 1];
    assert all == done + [next];
    BodyAppends(crc, done, [next]);
    SingleBody(crc, next);
    var cut := SEGMENT_HEADER_SIZE + |Body(crc, done)| + taken;
    assert Segment(crc, h, all)[..cut] == Segment(crc, h, done) + Encode(crc, next)[..taken];
    SegmentTornTail(crc, h, all, cut, []);
    WholeBeforeSums(crc, done, next, taken);
    assert all[..flushed] == done && all[..flushed + 1] == all;
  }

  /** The bytes start with what passes for a record: a length in range, zero reserved bytes, a matching checksum. */
  predicate Completes(crc: seq<byte> -> u32, b: seq<byte>) {
    |b| >= 2 &&
    var n := FromBE(b[..2]);
    RECORD_MIN_SIZE <= n <= RECORD_MAX_SIZE && n <= |b| && b[5..8] == [0, 0, 0] && crc(b[..n - 4]) == FromBE(b[n - 4..n])
  }

  /**
   After a partial write the record stays staged and is written again behind its own
   beginning.  The records before it are safe.  Anything at all is recovered behind them if and
   only if the torn beginning and later bytes pass together for a record; that record is then
   what comes back, not the one written again.
   */
  lemma PartialFlushHidesTheRest(crc: seq<byte> -> u32, h: SegmentHeader, done: seq<Entry>, e: Entry, taken: nat, later: seq<byte>)
    requires AllFit(done) && Fits(e) && 1 <= taken < Size(e)
    ensures var rest := Encode(crc, e)[..taken] + later;
            var r := RecoverFile(crc, Segment(crc, h, done) + rest);
            && r.Some? && r.value.0 == h && done <= r.value.1
            && (r.value.1 == done <==> !Completes(crc, rest))
            && (r.value.1 != done ==> Encode(crc, r.value.1[|done|]) == rest[..FromBE(rest[..2])])
    ensures taken >= 2 ==> FromBE((Encode(crc, e)[..taken] + later)[..2]) == Size(e)
  {
    hide Encode, HeaderBytes, ParseHeader, Recovered, FromBE, Head;
    var torn, body := Encode(crc, e)[..taken], Body(crc, done);
    var rest := torn + later;
    var file := Segment(crc, h, done) + rest;
    assert file == HeaderBytes(crc, h) + (body + rest);
    HeaderRoundTrip(crc, h, body + rest);
    assert file[SEGMENT_HEADER_SIZE..] == body + rest;
    assert body[..|body|] == body;
    TornTail(crc, done, |body|, rest);
    if taken >= 2 {
      TornLength(crc, e, taken, later);
    }
    FirstOrNone(crc, rest);
  }

  /** Such a case for every checksum: a write cut after the length field, then the retry of a flagged or linked record. */
  lemma RetryIsLost(crc: seq<byte> -> u32, h: SegmentHeader, done: seq<Entry>, e: Entry, more: seq<byte>)
    requires AllFit(done) && Fits(e) && (e.flags != 0 || e.link != 0)
    ensures RecoverFile(crc, Segment(crc, h, done) + (Encode(crc, e)[..2] + (Encode(crc, e) + more))) == Some((h, done))
  {
    hide RecoverFile, Encode, Segment, Head, FromBE;
    RetryBytes(crc, e, more);
    PartialFlushHidesTheRest(crc, h, done, e, 2, Encode(crc, e) + more);
  }

  lemma RetryBytes(crc: seq<byte> -> u32, e: Entry, more: seq<byte>)
    requires Fits(e)
    ensures var rest := Encode(crc, e)[..2] + (Encode(crc, e) + more);
            rest[5] == e.flags && rest[6] == e.link
  {
    var d := Encode(crc, e);
    assert d[..RECORD_HEADER_SIZE] == Head(e);
    HeadFields(e, d);
  }

  lemma TornLength(crc: seq<byte> -> u32, e: Entry, taken: nat, later: seq<byte>)
    requires Fits(e) && 2 <= taken < Size(e)
    ensures FromBE((Encode(crc, e)[..taken] + later)[..2]) == Size(e)
  {
    var d := Encode(crc, e);
    assert d[..RECORD_HEADER_SIZE] == Head(e);
    HeadFields(e, d);
    assert (d[..taken] + later)[..2] == d[..2];
  }

  lemma FirstOrNone(crc: seq<byte> -> u32, b: seq<byte>)
    ensures Recovered(crc, b) == [] <==> !Completes(crc, b)
    ensures var es := Recovered(crc, b);
            es != [] ==> |b| >= 2 && FromBE(b[..2]) <= |b| && Encode(crc, es[0]) == b[..FromBE(b[..2])]
  {
    if Completes(crc, b) {
      ParseInverts(crc, b);
    }
  }

  lemma SingleBody(crc: seq<byte> -> u32, e: Entry)
    requires Fits(e)
    ensures Body(crc, [e]) == Encode(crc, e)
  {
    hide Encode;
    assert [e][1..] == [];
    assert Body(crc, [e]) == Encode(crc, e) + [];
  }

  lemma {:induction false} WholeBeforeSums(crc: seq<byte> -> u32, done: seq<Entry>, next: Entry, taken: nat)
    requires AllFit(done) && Fits(next) && taken <= Size(next)
    ensures WholeBefore(done + [next], |Body(crc, done)| + taken) == if taken == Size(next) then |done| + 1 else |done|
  {
    if done == [] {
      assert [next][1..] == [];
    } else {
      WholeBeforeSums(crc, done[1..], next, taken);
      assert (done + [next])[1..] == done[1..] + [next];
    }
  }
}
