/**
 Paging journalled history back into RAM (`JournalReplayCursor` in `pico/bmcu_journal.py`,
 `BMB1Outbox.restore`).  A cursor walks the recovered records in file order and fills every
 hole in a boot's sequence with a synthesized loss marker.
 */
module Replay {
  import opened Options
  import opened Bytes
  import opened Bmb1Codec
  import opened ByteRings

  /** A recovered journal record: the fields `parse_record` returned plus its segment's boot. */
  datatype JournalRecord = JournalRecord(boot: u64, kind: byte, flags: byte, link: byte,
                                         sequence: u64, received: u64, payload: seq<byte>)

  /** One `restore` call; it accounts for the header sequences first..last. */
  datatype Item = Item(record: JournalRecord, first: nat, last: nat)

  datatype Cursor = Cursor(pending: Option<JournalRecord>, remaining: seq<JournalRecord>, next: map<nat, nat>)

  const REPLAY_SLOTS: nat := 1
  const LARGE_SLOT_SIZE: nat := MAX_MESSAGE_SIZE

  // ----- Restoring one record into the replay ring -----

  function WithReplayFlag(flags: nat): nat { if flags % 2 == 0 then flags + FLAG_REPLAY else flags }

  function RestoredMessage(j: JournalRecord): Encoded {
    WriteMessage(j.kind, WithReplayFlag(j.flags), j.sequence, j.boot, j.link, j.payload)
  }

  function RestoredRec(j: JournalRecord): Rec
    requires RestoredMessage(j).Encoded?
  {
    Rec(j.sequence, RestoredMessage(j).bytes, true, -1)
  }

  predicate CanRestore(q: seq<Rec>, slots: nat, j: JournalRecord) {
    RestoredMessage(j).Encoded? && |q| < slots
  }

  // ----- One boot's expected sequence, and the item that continues it -----

  function Expected(c: Cursor, j: JournalRecord): nat {
    if j.boot in c.next then c.next[j.boot] else j.sequence
  }

  /** Fetch records until one is pending that is not behind its boot's expectation. */
  function Settle(c: Cursor): Cursor
    decreases |c.remaining|, if c.pending.Some? then 1 else 0
  {
    match c.pending
    case None =>
      if c.remaining == [] then c
      else Settle(c.(pending := Some(c.remaining[0]), remaining := c.remaining[1..]))
    case Some(j) =>
      if j.sequence < Expected(c, j) then Settle(c.(pending := None)) else c
  }

  /** The last sequence a marker may cover so that its 32-bit count still fits. */
  function HoleEnd(sequence: nat, expected: nat): (last: nat)
    requires expected < sequence
    ensures expected <= last < sequence && last - expected + 1 < MASK32
  {
    if sequence - 1 <= expected + 0xFFFF_FFFF - 1 then sequence - 1 else expected + 0xFFFF_FFFF - 1
  }

  function HoleRecord(j: JournalRecord, first: u64, last: u64): JournalRecord
    requires last - first + 1 < MASK32 && first <= last
  {
    JournalRecord(j.boot, TRANSPORT_DROP, FLAG_CRITICAL, GLOBAL_SCOPE, first, j.received,
                  DropPayload(j.received, first, last, last - first + 1, DROP_JOURNAL_CORRUPT))
  }

  /** The item a settled cursor restores next. */
  function Emits(c: Cursor): Item
    requires c.pending.Some? && c.pending.value.sequence >= Expected(c, c.pending.value)
  {
    var j := c.pending.value;
    var expected := Expected(c, j);
    if j.sequence > expected then
      var last := HoleEnd(j.sequence, expected);
      Item(HoleRecord(j, expected, last), expected, last)
    else Item(j, j.sequence, j.sequence)
  }

  function AfterEmit(c: Cursor): Cursor
    requires c.pending.Some? && c.pending.value.sequence >= Expected(c, c.pending.value)
  {
    var j := c.pending.value;
    var expected := Expected(c, j);
    if j.sequence > expected then c.(next := c.next[j.boot := HoleEnd(j.sequence, expected) + 1])
    else Cursor(None, c.remaining, c.next[j.boot := j.sequence + 1])
  }

  /** Work left: records to fetch, then sequences still to cover before the pending one. */
  function Left(c: Cursor): nat { 2 * |c.remaining| + if c.pending.Some? then 1 else 0 }

  function Gap(c: Cursor): nat {
    if c.pending.Some? && c.pending.value.sequence >= Expected(c, c.pending.value)
    then c.pending.value.sequence - Expected(c, c.pending.value) else 0
  }

  lemma SettleShrinks(c: Cursor)
    ensures Left(Settle(c)) <= Left(c)
    ensures Settle(c).next == c.next
    ensures Settle(Settle(c)) == Settle(c)
    ensures Settle(c) != c ==> Left(Settle(c)) < Left(c)
    ensures var s := Settle(c);
            if s.pending.None? then s.remaining == []
            else s.pending.value.sequence >= Expected(s, s.pending.value)
    decreases |c.remaining|, if c.pending.Some? then 1 else 0
  {
  }

  /** Everything the cursor will ever restore, in order. */
  ghost function Items(c: Cursor): seq<Item>
    decreases Left(c), Gap(c)
  {
    SettleShrinks(c);
    var s := Settle(c);
    if s.pending.None? then []
    else [Emits(s)] + Items(AfterEmit(s))
  }

  lemma ItemsStep(c: Cursor)
    ensures Items(Settle(c)) == Items(c)
    ensures Settle(c).pending.None? ==> Items(c) == []
    ensures var s := Settle(c);
            s.pending.Some? ==>
              && s.pending.value.sequence >= Expected(s, s.pending.value)
              && Items(c) == [Emits(s)] + Items(AfterEmit(s))
              && Items(c)[1..] == Items(AfterEmit(s)) && Items(c)[0] == Emits(s)
              && (Left(AfterEmit(s)) < Left(c) || (Left(AfterEmit(s)) == Left(c) && s == c && Gap(AfterEmit(s)) < Gap(c)))
  {
    SettleShrinks(c);
  }

  /** `page_into`: restore up to `limit` items, stopping at the first that does not fit. */
  function PageInto(c: Cursor, q: seq<Rec>, slots: nat, limit: nat): (Cursor, seq<Rec>)
    decreases limit
  {
    if limit == 0 then (c, q)
    else
      SettleShrinks(c);
      var s := Settle(c);
      if s.pending.None? then (s, q)
      else
        var item := Emits(s);
        if CanRestore(q, slots, item.record) then PageInto(AfterEmit(s), q + [RestoredRec(item.record)], slots, limit - 1)
        else (s, q)
  }

  /** One turn of the paging loop. */
  lemma PageStep(c: Cursor, q: seq<Rec>, slots: nat, limit: nat)
    requires limit > 0
    ensures var s := Settle(c);
            if s.pending.None? then PageInto(c, q, slots, limit) == (s, q)
            else
              && s.pending.value.sequence >= Expected(s, s.pending.value)
              && PageInto(c, q, slots, limit) ==
                 if CanRestore(q, slots, Emits(s).record)
                 then PageInto(AfterEmit(s), q + [RestoredRec(Emits(s).record)], slots, limit - 1)
                 else (s, q)
  {
    SettleShrinks(c);
  }

  // ----- The holes are filled exactly -----

  /** The items of one boot. */
  ghost function OfBoot(items: seq<Item>, boot: nat): seq<Item> {
    if items == [] then []
    else (if items[0].record.boot == boot then [items[0]] else []) + OfBoot(items[1..], boot)
  }

  /** Consecutive ranges that cover from..to-1 with no gap and no overlap. */
  ghost predicate Tiles(items: seq<Item>, from: nat, to: nat) {
    if items == [] then from == to
    else items[0].first == from <= items[0].last && Tiles(items[1..], items[0].last + 1, to)
  }

  /** Where the tiling of a boot ends: one past the last thing restored for it. */
  ghost function EndOf(items: seq<Item>, from: nat): nat {
    if items == [] then from else EndOf(items[1..], items[0].last + 1)
  }

  /**
   For every journal and every boot with a known start, the restored records and the
   synthesized markers tile the boot's sequences from that start on.
   */
  lemma {:induction false} ReplayTiles(c: Cursor, boot: nat)
    requires boot in c.next
    ensures var items := OfBoot(Items(c), boot);
            Tiles(items, c.next[boot], EndOf(items, c.next[boot]))
    decreases Left(c), Gap(c)
  {
    SettleShrinks(c);
    var s := Settle(c);
    if s.pending.Some? {
      var rest := AfterEmit(s);
      ReplayTiles(rest, boot);
      assert Items(c) == [Emits(s)] + Items(rest);
      assert Items(c)[1..] == Items(rest);
      if s.pending.value.boot == boot {
        assert OfBoot(Items(c), boot)[1..] == OfBoot(Items(rest), boot);
      } else {
        assert OfBoot(Items(c), boot) == OfBoot(Items(rest), boot);
      }
    }
  }

  ghost predicate Holds(c: Cursor, j: JournalRecord) {
    c.pending == Some(j) || j in c.remaining
  }

  /** The item is a record of the journal, unchanged. */
  ghost predicate Plain(c: Cursor, i: Item) {
    Holds(c, i.record) && i.first == i.last == i.record.sequence
  }

  /** The item is the loss marker of a hole below the journal record j, down to its last byte, and it fills all its count can. */
  predicate Fills(i: Item, j: JournalRecord) {
    && i.first <= i.last < j.sequence && i.last - i.first + 1 < MASK32
    && (i.last == j.sequence - 1 || i.last - i.first + 1 == 0xFFFF_FFFF)
    && i.record == HoleRecord(j, i.first, i.last)
  }

  ghost predicate Synthesized(c: Cursor, i: Item) {
    exists j :: Holds(c, j) && Fills(i, j)
  }

  lemma {:induction false} SettleHoldsLess(c: Cursor, j: JournalRecord)
    requires Holds(Settle(c), j)
    ensures Holds(c, j)
    decreases |c.remaining|, if c.pending.Some? then 1 else 0
  {
    match c.pending {
      case None =>
        if c.remaining != [] {
          SettleHoldsLess(c.(pending := Some(c.remaining[0]), remaining := c.remaining[1..]), j);
        }
      case Some(p) =>
        if p.sequence < Expected(c, p) {
          SettleHoldsLess(c.(pending := None), j);
        }
    }
  }

  /** Everything restored is a record of the journal or the exact marker of a hole below one. */
  lemma {:induction false} MarkersAreExact(c: Cursor)
    ensures forall i :: i in Items(c) ==> Plain(c, i) || Synthesized(c, i)
    decreases Left(c), Gap(c)
  {
    hide Items, Settle, HoleRecord;
    SettleShrinks(c);
    ItemsStep(c);
    var s := Settle(c);
    if s.pending.Some? {
      var rest, j := AfterEmit(s), s.pending.value;
      MarkersAreExact(rest);
      SettleHoldsLess(c, j);
      forall i | i in Items(c)
        ensures Plain(c, i) || Synthesized(c, i)
      {
        if i == Emits(s) {
          EmitsIsExact(s);
        } else {
          assert i in Items(rest);
          if Plain(rest, i) {
            SettleHoldsLess(c, i.record);
          } else {
            var k :| Holds(rest, k) && Fills(i, k);
            SettleHoldsLess(c, k);
          }
        }
      }
    }
  }

  lemma EmitsIsExact(s: Cursor)
    requires s.pending.Some? && s.pending.value.sequence >= Expected(s, s.pending.value)
    ensures Plain(s, Emits(s)) || Fills(Emits(s), s.pending.value)
  {
    hide HoleRecord;
  }

  /** What the peer reads from such a marker: its own range, its count, and why. */
  lemma FilledHoleReads(i: Item, j: JournalRecord)
    requires Fills(i, j)
    ensures i.record.kind == TRANSPORT_DROP && i.record.sequence == i.first && i.record.boot == j.boot
    ensures i.record.flags == 2 && i.record.link == 0xFF && i.record.received == j.received
    ensures var p := i.record.payload;
            && |p| == 32 && FromBE(p[8..16]) == i.first && FromBE(p[16..24]) == i.last
            && FromBE(p[24..28]) == i.last - i.first + 1 && p[28] == DROP_JOURNAL_CORRUPT
  {
    hide FromBE, BE, DropPayload;
    DropFields(j.received, i.first, i.last, i.last - i.first + 1, DROP_JOURNAL_CORRUPT);
  }

  /**
   A page moves a prefix of what is left into the ring and leaves the rest to come; it
   moves nothing only when the next item does not fit.
   */
  lemma {:induction false} PageMovesPrefix(c: Cursor, q: seq<Rec>, slots: nat, limit: nat) returns (n: nat)
    ensures n <= limit && n <= |Items(c)|
    ensures var (c', q') := PageInto(c, q, slots, limit);
            && Items(c') == Items(c)[n..] && |q'| == |q| + n && q'[..|q|] == q
            && (forall k :: 0 <= k < n ==>
                 var j := Items(c)[k].record;
                 RestoredMessage(j).Encoded? && q'[|q| + k] == RestoredRec(j))
    ensures limit > 0 && n == 0 && Items(c) != [] ==> !CanRestore(q, slots, Items(c)[0].record)
    decreases limit
  {
    hide Items, Settle, Emits, AfterEmit, RestoredMessage;
    n := 0;
    if limit > 0 {
      SettleShrinks(c);
      ItemsStep(c);
      var s := Settle(c);
      if s.pending.Some? && CanRestore(q, slots, Emits(s).record) {
        var rest, q1 := AfterEmit(s), q + [RestoredRec(Emits(s).record)];
        var m := PageMovesPrefix(rest, q1, slots, limit - 1);
        n := m + 1;
        var q' := PageInto(rest, q1, slots, limit - 1).1;
        assert q'[|q|] == q'[..|q1|][|q|] && q'[..|q|] == q'[..|q1|][..|q|];
        assert Items(c)[n..] == Items(rest)[m..];
      }
    }
  }

  // ----- No journalled record is left uncovered -----

  lemma {:induction false} SettleOnlySkipsCovered(c: Cursor, j: JournalRecord)
    requires Holds(c, j) && j.boot in c.next
    ensures Holds(Settle(c), j) || j.sequence < c.next[j.boot]
    decreases |c.remaining|, if c.pending.Some? then 1 else 0
  {
    match c.pending {
      case None =>
        if c.remaining != [] {
          SettleOnlySkipsCovered(c.(pending := Some(c.remaining[0]), remaining := c.remaining[1..]), j);
        }
      case Some(p) =>
        if p.sequence < Expected(c, p) && j in c.remaining {
          SettleOnlySkipsCovered(c.(pending := None), j);
        }
    }
  }

  lemma {:induction false} EndGrows(items: seq<Item>, from: nat)
    requires Tiles(items, from, EndOf(items, from))
    ensures from <= EndOf(items, from)
    ensures forall i :: i in items ==> from <= i.first <= i.last < EndOf(items, from)
    decreases |items|
  {
    if items != [] {
      EndGrows(items[1..], items[0].last + 1);
    }
  }

  /** Restoring one item does not move the end of any boot's tiling. */
  lemma EndStep(c: Cursor, s: Cursor, boot: nat)
    requires boot in c.next && s == Settle(c) && s.pending.Some?
    requires s.pending.value.sequence >= Expected(s, s.pending.value)
    ensures var rest := AfterEmit(s);
            && boot in rest.next
            && EndOf(OfBoot(Items(c), boot), c.next[boot]) == EndOf(OfBoot(Items(rest), boot), rest.next[boot])
  {
    hide Items, Settle;
    ItemsStep(c);
    SettleShrinks(c);
    if s.pending.value.boot == boot {
      assert OfBoot(Items(c), boot)[1..] == OfBoot(Items(AfterEmit(s)), boot);
    } else {
      assert OfBoot(Items(c), boot) == OfBoot(Items(AfterEmit(s)), boot);
    }
  }

  /** The tiling of a boot reaches past every record the cursor holds for it. */
  lemma {:induction false} ReplayCovers(c: Cursor, j: JournalRecord)
    requires Holds(c, j) && j.boot in c.next
    ensures j.sequence < EndOf(OfBoot(Items(c), j.boot), c.next[j.boot])
    decreases Left(c), Gap(c)
  {
    hide Items, Settle, OfBoot, EndOf, Tiles, Left, Gap;
    ReplayTiles(c, j.boot);
    EndGrows(OfBoot(Items(c), j.boot), c.next[j.boot]);
    SettleOnlySkipsCovered(c, j);
    SettleShrinks(c);
    var s := Settle(c);
    if Holds(s, j) {
      ItemsStep(c);
      EndStep(c, s, j.boot);
      var rest := AfterEmit(s);
      if Holds(rest, j) {
        ReplayCovers(rest, j);
      } else {
        ReplayTiles(rest, j.boot);
        EndGrows(OfBoot(Items(rest), j.boot), rest.next[j.boot]);
      }
    }
  }

  // ----- Where a cursor starts -----

  datatype BootRange = BootRange(boot: nat, oldest: nat, newest: nat)

  const MAX_REPLAY_BOOT_RANGES: nat := 8

  function Watermark(acked: map<nat, nat>, boot: nat): nat { if boot in acked then acked[boot] else 0 }

  function Widen(ranges: seq<BootRange>, j: JournalRecord): seq<BootRange> {
    if ranges == [] then [BootRange(j.boot, j.sequence, j.sequence)]
    else if ranges[0].boot == j.boot then
      [BootRange(j.boot, if j.sequence < ranges[0].oldest then j.sequence else ranges[0].oldest,
                 if j.sequence > ranges[0].newest then j.sequence else ranges[0].newest)] + ranges[1..]
    else [ranges[0]] + Widen(ranges[1..], j)
  }

  /** `scan_available_ranges`: one range per boot with unacknowledged history, in scan order. */
  function ScanRanges(records: seq<JournalRecord>, acked: map<nat, nat>): seq<BootRange> {
    if records == [] then []
    else
      var j := records[|records| - 1];
      var ranges := ScanRanges(records[..|records| - 1], acked);
      if j.sequence <= Watermark(acked, j.boot) then ranges else Widen(ranges, j)
  }

  function LastRanges(ranges: seq<BootRange>): seq<BootRange> {
    if |ranges| <= MAX_REPLAY_BOOT_RANGES - 1 then ranges else ranges[|ranges| - (MAX_REPLAY_BOOT_RANGES - 1)..]
  }

  function Max(a: nat, b: nat): nat { if a >= b then a else b }

  function StartMap(ranges: seq<BootRange>, acked: map<nat, nat>): map<nat, nat> {
    if ranges == [] then map[]
    else
      var r := ranges[0];
      StartMap(ranges[1..], acked)[r.boot := Max(Watermark(acked, r.boot) + 1, r.oldest)]
  }

  function Unacked(records: seq<JournalRecord>, acked: map<nat, nat>, allowed: set<nat>): seq<JournalRecord> {
    if records == [] then []
    else
      var j := records[0];
      (if j.boot in allowed && j.sequence > Watermark(acked, j.boot) then [j] else [])
      + Unacked(records[1..], acked, allowed)
  }

  /** `JournalReplayCursor.__init__` over the records recovered from the journal directory. */
  function Open(records: seq<JournalRecord>, acked: map<nat, nat>): Cursor {
    var next := StartMap(LastRanges(ScanRanges(records, acked)), acked);
    Cursor(None, Unacked(records, acked, next.Keys), next)
  }

  ghost function Boots(ranges: seq<BootRange>): set<nat> {
    if ranges == [] then {} else {ranges[0].boot} + Boots(ranges[1..])
  }

  ghost predicate DistinctBoots(ranges: seq<BootRange>) {
    ranges != [] ==> ranges[0].boot !in Boots(ranges[1..]) && DistinctBoots(ranges[1..])
  }

  lemma {:induction false} BootsOfMembers(ranges: seq<BootRange>)
    ensures forall r :: r in ranges ==> r.boot in Boots(ranges)
    ensures forall b :: b in Boots(ranges) ==> exists r :: r in ranges && r.boot == b
  {
    if ranges != [] {
      assert ranges == [ranges[0]] + ranges[1..];
      BootsOfMembers(ranges[1..]);
    }
  }

  lemma {:induction false} WidenBoots(ranges: seq<BootRange>, j: JournalRecord)
    requires DistinctBoots(ranges)
    ensures DistinctBoots(Widen(ranges, j))
    ensures Boots(Widen(ranges, j)) == Boots(ranges) + {j.boot}
  {
    if ranges != [] {
      if ranges[0].boot == j.boot {
        assert Widen(ranges, j)[1..] == ranges[1..];
      } else {
        WidenBoots(ranges[1..], j);
        assert Widen(ranges, j)[1..] == Widen(ranges[1..], j);
      }
    }
  }

  /** What a widened list says of one of its ranges. */
  ghost predicate Widened(r: BootRange, ranges: seq<BootRange>, j: JournalRecord) {
    if r.boot != j.boot then r in ranges
    else
      && r.oldest <= j.sequence <= r.newest
      && (forall o :: o in ranges && o.boot == j.boot ==> r.oldest <= o.oldest && o.newest <= r.newest)
      && (r.oldest == j.sequence || exists o :: o in ranges && o.boot == j.boot && o.oldest == r.oldest)
      && (r.newest == j.sequence || exists o :: o in ranges && o.boot == j.boot && o.newest == r.newest)
  }

  lemma {:induction false} WidenRange(ranges: seq<BootRange>, j: JournalRecord)
    requires DistinctBoots(ranges)
    ensures forall r :: r in Widen(ranges, j) ==> Widened(r, ranges, j)
  {
    if ranges != [] {
      var head, tail := ranges[0], ranges[1..];
      BootsOfMembers(tail);
      assert ranges == [head] + tail;
      if head.boot == j.boot {
        assert forall o :: o in ranges && o.boot == j.boot ==> o == head;
      } else {
        WidenRange(tail, j);
        forall r | r in Widen(tail, j)
          ensures Widened(r, ranges, j)
        {
          assert Widened(r, tail, j);
        }
      }
    }
  }

  ghost predicate Unreleased(j: JournalRecord, records: seq<JournalRecord>, acked: map<nat, nat>, boot: nat) {
    j in records && j.boot == boot && j.sequence > Watermark(acked, j.boot)
  }

  /** The least and the greatest unacknowledged sequence of a boot. */
  ghost predicate Tight(r: BootRange, records: seq<JournalRecord>, acked: map<nat, nat>) {
    && (exists j :: Unreleased(j, records, acked, r.boot) && j.sequence == r.oldest)
    && (exists j :: Unreleased(j, records, acked, r.boot) && j.sequence == r.newest)
    && (forall j :: j in records && j.boot == r.boot && j.sequence > Watermark(acked, j.boot)
          ==> r.oldest <= j.sequence <= r.newest)
  }

  /** Every range runs from the least to the greatest unacknowledged sequence of its boot. */
  lemma {:induction false} RangesAreTight(records: seq<JournalRecord>, acked: map<nat, nat>)
    ensures DistinctBoots(ScanRanges(records, acked))
    ensures forall r :: r in ScanRanges(records, acked) ==> Tight(r, records, acked)
    ensures forall j :: j in records && j.sequence > Watermark(acked, j.boot) ==> j.boot in Boots(ScanRanges(records, acked))
  {
    if records != [] {
      var init, j := records[..|records| - 1], records[|records| - 1];
      assert records == init + [j];
      RangesAreTight(init, acked);
      var before, after := ScanRanges(init, acked), ScanRanges(records, acked);
      BootsOfMembers(before);
      if j.sequence > Watermark(acked, j.boot) {
        WidenBoots(before, j);
        WidenRange(before, j);
      }
      forall r | r in after
        ensures Tight(r, records, acked)
      {
        TightAfter(r, before, init, j, acked);
      }
    }
  }

  lemma TightAfter(r: BootRange, before: seq<BootRange>, init: seq<JournalRecord>, j: JournalRecord, acked: map<nat, nat>)
    requires forall o :: o in before ==> Tight(o, init, acked)
    requires forall i :: i in init && i.sequence > Watermark(acked, i.boot) ==> i.boot in Boots(before)
    requires if j.sequence > Watermark(acked, j.boot) then Widened(r, before, j) else r in before
    ensures Tight(r, init + [j], acked)
  {
    hide Watermark;
    if j.sequence > Watermark(acked, j.boot) && r.boot == j.boot {
      WidenedEnds(r, before, init, j, acked);
      forall i | i in init && i.boot == r.boot && i.sequence > Watermark(acked, i.boot)
        ensures r.oldest <= i.sequence <= r.newest
      {
        BootsOfMembers(before);
        var o :| o in before && o.boot == i.boot;
        assert Tight(o, init, acked);
      }
    } else {
      assert Tight(r, init, acked);
      StillUnreleased(init, j, acked, r.boot);
    }
  }

  lemma StillUnreleased(init: seq<JournalRecord>, j: JournalRecord, acked: map<nat, nat>, boot: nat)
    ensures forall i :: Unreleased(i, init, acked, boot) ==> Unreleased(i, init + [j], acked, boot)
  {
  }

  /** Both ends of the widened range are attained. */
  lemma WidenedEnds(r: BootRange, before: seq<BootRange>, init: seq<JournalRecord>, j: JournalRecord, acked: map<nat, nat>)
    requires forall o :: o in before ==> Tight(o, init, acked)
    requires j.sequence > Watermark(acked, j.boot) && r.boot == j.boot && Widened(r, before, j)
    ensures exists i :: Unreleased(i, init + [j], acked, r.boot) && i.sequence == r.oldest
    ensures exists i :: Unreleased(i, init + [j], acked, r.boot) && i.sequence == r.newest
  {
    StillUnreleased(init, j, acked, r.boot);
    assert Unreleased(j, init + [j], acked, r.boot);
    hide Watermark, Unreleased;
    if r.oldest != j.sequence {
      var o :| o in before && o.boot == j.boot && o.oldest == r.oldest;
      assert Tight(o, init, acked);
    }
    if r.newest != j.sequence {
      var o :| o in before && o.boot == j.boot && o.newest == r.newest;
      assert Tight(o, init, acked);
    }
  }

  lemma {:induction false} DistinctSuffix(ranges: seq<BootRange>, n: nat)
    requires DistinctBoots(ranges) && n <= |ranges|
    ensures DistinctBoots(ranges[n..])
  {
    if n > 0 {
      DistinctSuffix(ranges[1..], n - 1);
      assert ranges[1..][n - 1..] == ranges[n..];
    }
  }

  lemma {:induction false} StartMapValue(ranges: seq<BootRange>, acked: map<nat, nat>, r: BootRange)
    requires DistinctBoots(ranges) && r in ranges
    ensures r.boot in StartMap(ranges, acked)
    ensures StartMap(ranges, acked)[r.boot] == Max(Watermark(acked, r.boot) + 1, r.oldest)
  {
    BootsOfMembers(ranges);
    if ranges[0] != r {
      StartMapValue(ranges[1..], acked, r);
      BootsOfMembers(ranges[1..]);
    }
  }

  lemma {:induction false} UnackedHolds(records: seq<JournalRecord>, acked: map<nat, nat>, allowed: set<nat>)
    ensures forall j :: j in Unacked(records, acked, allowed) <==>
              j in records && j.boot in allowed && j.sequence > Watermark(acked, j.boot)
  {
    if records != [] {
      assert records == [records[0]] + records[1..];
      UnackedHolds(records[1..], acked, allowed);
    }
  }

  lemma StartsAbove(r: BootRange, records: seq<JournalRecord>, acked: map<nat, nat>)
    requires Tight(r, records, acked)
    ensures Watermark(acked, r.boot) < r.oldest
  {
  }

  lemma OpenStarts(records: seq<JournalRecord>, acked: map<nat, nat>, r: BootRange)
    requires r in LastRanges(ScanRanges(records, acked))
    ensures var c := Open(records, acked); r.boot in c.next && c.next[r.boot] == r.oldest
    ensures Watermark(acked, r.boot) < r.oldest && Tight(r, records, acked)
  {
    hide Tight, Watermark, ScanRanges;
    RangesAreTight(records, acked);
    var all := ScanRanges(records, acked);
    DistinctSuffix(all, |all| - |LastRanges(all)|);
    assert r in all;
    StartsAbove(r, records, acked);
    StartMapValue(LastRanges(all), acked, r);
  }

  /**
   The whole replay of one retained boot: it starts at the boot's oldest unacknowledged
   record, tiles without gap or overlap, stays above the acknowledged watermark, covers every
   journalled record that is still unacknowledged and ends with the newest of them.
   */
  lemma ReplayOfBoot(records: seq<JournalRecord>, acked: map<nat, nat>, r: BootRange)
    requires r in LastRanges(ScanRanges(records, acked))
    ensures var items := OfBoot(Items(Open(records, acked)), r.boot);
            && Tiles(items, r.oldest, EndOf(items, r.oldest)) && EndOf(items, r.oldest) == r.newest + 1
            && Watermark(acked, r.boot) < r.oldest
            && (forall j :: j in records && j.boot == r.boot && j.sequence > Watermark(acked, j.boot)
                  ==> r.oldest <= j.sequence < EndOf(items, r.oldest))
  {
    var c := Open(records, acked);
    OpenStarts(records, acked, r);
    ReplayTiles(c, r.boot);
    UnackedHolds(records, acked, c.next.Keys);
    hide Items, OfBoot, EndOf, Tiles;
    forall j | j in records && j.boot == r.boot && j.sequence > Watermark(acked, j.boot)
      ensures r.oldest <= j.sequence < EndOf(OfBoot(Items(c), r.boot), r.oldest)
    {
      assert Holds(c, j);
      ReplayCovers(c, j);
    }
    assert Tight(r, records, acked);
    EndsByNewest(c, r.boot, r.newest);
  }

  /**
   Segments may be pruned while the cursor still has to read them.  Whatever part `left` of the
   records it then finds, the tiling starts where it was announced and covers what is left: what
   is missing before that is inside markers, and only numbers behind the last of it are uncovered.
   */
  lemma ReplayAfterPruning(records: seq<JournalRecord>, acked: map<nat, nat>, r: BootRange, left: seq<JournalRecord>, top: nat)
    requires r in LastRanges(ScanRanges(records, acked)) && r.oldest <= top + 1
    requires forall j :: j in left && j.boot == r.boot ==> j.sequence <= top
    ensures var items := OfBoot(Items(Open(records, acked).(remaining := left)), r.boot);
            && Tiles(items, r.oldest, EndOf(items, r.oldest)) && EndOf(items, r.oldest) <= top + 1
            && (forall j :: j in left && j.boot == r.boot && r.oldest <= j.sequence ==> j.sequence < EndOf(items, r.oldest))
  {
    var c := Open(records, acked).(remaining := left);
    OpenStarts(records, acked, r);
    ReplayTiles(c, r.boot);
    hide Items, OfBoot, EndOf, Tiles;
    forall j | j in left && j.boot == r.boot && r.oldest <= j.sequence
      ensures j.sequence < EndOf(OfBoot(Items(c), r.boot), r.oldest)
    {
      assert Holds(c, j);
      ReplayCovers(c, j);
    }
    EndsByNewest(c, r.boot, top);
  }

  /** Nothing is restored beyond the records of a boot. */
  lemma {:induction false} EndsByNewest(c: Cursor, boot: nat, top: nat)
    requires boot in c.next && c.next[boot] <= top + 1
    requires forall j :: Holds(c, j) && j.boot == boot ==> j.sequence <= top
    ensures EndOf(OfBoot(Items(c), boot), c.next[boot]) <= top + 1
    decreases Left(c), Gap(c)
  {
    hide Items, Settle;
    SettleShrinks(c);
    ItemsStep(c);
    var s := Settle(c);
    if s.pending.Some? {
      EndStep(c, s, boot);
      forall j | Holds(s, j)
        ensures Holds(c, j)
      {
        SettleHoldsLess(c, j);
      }
      EndsByNewest(AfterEmit(s), boot, top);
    }
  }

  // ----- What is acknowledged is not replayed -----

  lemma {:induction false} OfBootMember(items: seq<Item>, i: Item)
    requires i in items
    ensures i in OfBoot(items, i.record.boot)
  {
    if items[0] != i {
      assert items == [items[0]] + items[1..];
      OfBootMember(items[1..], i);
    }
  }

  lemma {:induction false} StartMapKeys(ranges: seq<BootRange>, acked: map<nat, nat>)
    ensures StartMap(ranges, acked).Keys == Boots(ranges)
  {
    if ranges != [] {
      StartMapKeys(ranges[1..], acked);
    }
  }

  lemma {:induction false} BootsDiffer(ranges: seq<BootRange>, i: nat, j: nat)
    requires DistinctBoots(ranges) && i < j < |ranges|
    ensures ranges[i].boot != ranges[j].boot
  {
    BootsOfMembers(ranges[1..]);
    if i == 0 {
      assert ranges[j] == ranges[1..][j - 1];
    } else {
      BootsDiffer(ranges[1..], i - 1, j - 1);
    }
  }

  /** Of the boots with unacknowledged history the cursor takes exactly the last seven in the journal. */
  lemma LastSevenAreReplayed(records: seq<JournalRecord>, acked: map<nat, nat>, k: nat)
    requires k < |ScanRanges(records, acked)|
    ensures ScanRanges(records, acked)[k].boot in Open(records, acked).next <==> k + 7 >= |ScanRanges(records, acked)|
  {
    var all := ScanRanges(records, acked);
    var last := LastRanges(all);
    RangesAreTight(records, acked);
    StartMapKeys(last, acked);
    BootsOfMembers(last);
    hide ScanRanges, StartMap, Unacked, DistinctBoots, Tight, Boots;
    var first := |all| - |last|;
    if k + 7 >= |all| {
      assert all[k] == last[k - first];
    } else if all[k].boot in Open(records, acked).next {
      var r :| r in last && r.boot == all[k].boot;
      var j :| 0 <= j < |last| && last[j] == r;
      BootsDiffer(all, k, first + j);
      assert false;
    }
  }

  /** Every item is of a boot the cursor announced. */
  lemma ItemsAreAnnounced(records: seq<JournalRecord>, acked: map<nat, nat>, i: Item)
    requires i in Items(Open(records, acked))
    ensures i.record.boot in Open(records, acked).next
  {
    var c := Open(records, acked);
    MarkersAreExact(c);
    UnackedHolds(records, acked, c.next.Keys);
    hide Items, StartMap, Unacked;
    if Plain(c, i) {
      assert i.record in c.remaining;
    } else {
      var j :| Holds(c, j) && Fills(i, j);
    }
  }

  /** The cursor restores nothing at or below a watermark on file. */
  lemma AckedIsNotReplayed(records: seq<JournalRecord>, acked: map<nat, nat>, i: Item)
    requires i in Items(Open(records, acked))
    ensures i.first > Watermark(acked, i.record.boot)
  {
    var c, ranges, boot := Open(records, acked), LastRanges(ScanRanges(records, acked)), i.record.boot;
    ItemsAreAnnounced(records, acked, i);
    StartMapKeys(ranges, acked);
    BootsOfMembers(ranges);
    var r :| r in ranges && r.boot == boot;
    OpenStarts(records, acked, r);
    ReplayTiles(c, boot);
    OfBootMember(Items(c), i);
    hide Items, Open, ScanRanges, Tight;
    EndGrows(OfBoot(Items(c), boot), c.next[boot]);
  }

  // ----- A boot whose records ascend is replayed record by record -----

  /** The records of one boot stand in ascending order. */
  ghost predicate Ascends(records: seq<JournalRecord>, boot: nat) {
    records != [] ==>
      && (records[0].boot == boot ==> forall j :: j in records[1..] && j.boot == boot ==> records[0].sequence < j.sequence)
      && Ascends(records[1..], boot)
  }

  /** What the cursor still has of the boot ascends, from the number it expects. */
  ghost predicate Rising(c: Cursor, boot: nat) {
    && boot in c.next && Ascends(c.remaining, boot)
    && (forall j :: Holds(c, j) && j.boot == boot ==> c.next[boot] <= j.sequence)
    && (c.pending.Some? && c.pending.value.boot == boot ==>
          forall j :: j in c.remaining && j.boot == boot ==> c.pending.value.sequence < j.sequence)
  }

  lemma {:induction false} SettleKeepsRising(c: Cursor, boot: nat)
    requires Rising(c, boot)
    ensures Rising(Settle(c), boot)
    ensures forall j :: Holds(c, j) && j.boot == boot ==> Holds(Settle(c), j)
    decreases |c.remaining|, if c.pending.Some? then 1 else 0
  {
    match c.pending {
      case None =>
        if c.remaining != [] {
          assert c.remaining == [c.remaining[0]] + c.remaining[1..];
          SettleKeepsRising(c.(pending := Some(c.remaining[0]), remaining := c.remaining[1..]), boot);
        }
      case Some(p) =>
        if p.sequence < Expected(c, p) {
          assert p.boot != boot by {
            assert Holds(c, p);
          }
          SettleKeepsRising(c.(pending := None), boot);
        }
    }
  }

  lemma EmitKeepsRising(s: Cursor, boot: nat)
    requires Rising(s, boot) && s.pending.Some? && s.pending.value.sequence >= Expected(s, s.pending.value)
    ensures Rising(AfterEmit(s), boot)
  {
    assert Holds(s, s.pending.value);
    forall j | Holds(AfterEmit(s), j) && j.boot == boot
      ensures AfterEmit(s).next[boot] <= j.sequence
    {
      assert Holds(s, j);
    }
  }

  /** Every such record is restored as it stands. */
  lemma {:induction false} EmitsEvery(c: Cursor, boot: nat, j: JournalRecord)
    requires Rising(c, boot) && Holds(c, j) && j.boot == boot
    ensures Item(j, j.sequence, j.sequence) in Items(c)
    decreases Left(c), Gap(c)
  {
    hide Items, Settle;
    SettleShrinks(c);
    ItemsStep(c);
    SettleKeepsRising(c, boot);
    var s := Settle(c);
    assert Holds(s, j);
    assert s.pending.Some?;
    var p := s.pending.value;
    EmitKeepsRising(s, boot);
    hide Rising;
    if p == j && p.sequence == Expected(s, p) {
      assert Items(c)[0] == Item(j, j.sequence, j.sequence);
    } else {
      EmitsEvery(AfterEmit(s), boot, j);
    }
  }

  lemma {:induction false} UnackedAscends(records: seq<JournalRecord>, acked: map<nat, nat>, allowed: set<nat>, boot: nat)
    requires Ascends(records, boot)
    ensures Ascends(Unacked(records, acked, allowed), boot)
    decreases records
  {
    if records != [] {
      var rest := Unacked(records[1..], acked, allowed);
      UnackedAscends(records[1..], acked, allowed, boot);
      UnackedHolds(records[1..], acked, allowed);
      assert ([records[0]] + rest)[1..] == rest && [] + rest == rest;
    }
  }

  lemma {:induction false} WidenLast(ranges: seq<BootRange>, j: JournalRecord)
    requires ranges != [] ==> ranges[|ranges| - 1].boot == j.boot || j.boot !in Boots(ranges)
    ensures var w := Widen(ranges, j); w != [] && w[|w| - 1].boot == j.boot
    decreases ranges
  {
    if ranges != [] && ranges[0].boot != j.boot {
      if |ranges| > 1 {
        assert ranges[1..][|ranges| - 2] == ranges[|ranges| - 1];
      }
      WidenLast(ranges[1..], j);
    }
  }

  lemma UnknownBoot(a: seq<JournalRecord>, acked: map<nat, nat>, boot: nat)
    requires forall j :: j in a ==> j.boot != boot
    ensures boot !in Boots(ScanRanges(a, acked))
  {
    hide ScanRanges, Watermark;
    RangesAreTight(a, acked);
    BootsOfMembers(ScanRanges(a, acked));
  }

  lemma ScanSnoc(records: seq<JournalRecord>, j: JournalRecord, acked: map<nat, nat>)
    ensures ScanRanges(records + [j], acked) ==
            if j.sequence <= Watermark(acked, j.boot) then ScanRanges(records, acked) else Widen(ScanRanges(records, acked), j)
  {
    hide Watermark;
    assert (records + [j])[..|records|] == records;
  }

  ghost predicate SomeAbove(b: seq<JournalRecord>, watermark: nat) { exists j :: j in b && j.sequence > watermark }

  lemma SomeAboveSnoc(init: seq<JournalRecord>, j: JournalRecord, watermark: nat)
    ensures SomeAbove(init + [j], watermark) <==> SomeAbove(init, watermark) || j.sequence > watermark
  {
    if j.sequence > watermark {
      assert j in init + [j];
    } else if SomeAbove(init, watermark) {
      var x :| x in init && x.sequence > watermark;
      assert x in init + [j];
    }
  }

  /** The boot's range is the last, if it has one. */
  ghost predicate ComesLast(ranges: seq<BootRange>, boot: nat, known: bool) {
    if known then ranges != [] && ranges[|ranges| - 1].boot == boot else boot !in Boots(ranges)
  }

  lemma WidenComesLast(ranges: seq<BootRange>, j: JournalRecord, known: bool)
    requires ComesLast(ranges, j.boot, known)
    ensures ComesLast(Widen(ranges, j), j.boot, true)
  {
    WidenLast(ranges, j);
  }

  /** A boot that comes last in the journal comes last in the scan. */
  lemma {:induction false} LastBootIsLast(a: seq<JournalRecord>, b: seq<JournalRecord>, acked: map<nat, nat>, boot: nat)
    requires (forall j :: j in a ==> j.boot != boot) && (forall j :: j in b ==> j.boot == boot)
    ensures ComesLast(ScanRanges(a + b, acked), boot, SomeAbove(b, Watermark(acked, boot)))
    decreases b
  {
    if b == [] {
      assert a + b == a;
      UnknownBoot(a, acked, boot);
    } else {
      hide Watermark, ScanRanges, Widen, SomeAbove, ComesLast;
      var n := |b| - 1;
      var j, init := b[n], b[..n];
      assert b == init + [j] && j in b;
      assert a + b == (a + init) + [j];
      LastBootIsLast(a, init, acked, boot);
      ScanSnoc(a + init, j, acked);
      SomeAboveSnoc(init, j, Watermark(acked, boot));
      if j.sequence > Watermark(acked, boot) {
        WidenComesLast(ScanRanges(a + init, acked), j, SomeAbove(init, Watermark(acked, boot)));
      }
    }
  }

  /**
   If a boot's records come last in the journal, in ascending order, then the next boot restores
   every one of them above the watermark on file, as it stands.
   */
  lemma LastBootIsReplayed(a: seq<JournalRecord>, b: seq<JournalRecord>, acked: map<nat, nat>, boot: nat, j: JournalRecord)
    requires (forall x :: x in a ==> x.boot != boot) && (forall x :: x in b ==> x.boot == boot) && Ascends(b, boot)
    requires j in b && j.sequence > Watermark(acked, boot)
    ensures Item(j, j.sequence, j.sequence) in Items(Open(a + b, acked))
  {
    OpenRises(a, b, acked, boot, j);
    hide Open, Items, Rising;
    EmitsEvery(Open(a + b, acked), boot, j);
  }

  lemma OpenRises(a: seq<JournalRecord>, b: seq<JournalRecord>, acked: map<nat, nat>, boot: nat, j: JournalRecord)
    requires (forall x :: x in a ==> x.boot != boot) && (forall x :: x in b ==> x.boot == boot) && Ascends(b, boot)
    requires j in b && j.sequence > Watermark(acked, j.boot)
    ensures Rising(Open(a + b, acked), boot) && Holds(Open(a + b, acked), j)
  {
    var records, ranges, c := a + b, ScanRanges(a + b, acked), Open(a + b, acked);
    assert SomeAbove(b, Watermark(acked, boot));
    LastBootIsLast(a, b, acked, boot);
    var r := ranges[|ranges| - 1];
    LastIsKept(ranges);
    hide ScanRanges, LastRanges, Unacked, Ascends, Watermark;
    OpenStarts(records, acked, r);
    AscendsAfterOthers(a, b, boot);
    UnackedAscends(records, acked, c.next.Keys, boot);
    UnackedHolds(records, acked, c.next.Keys);
    assert j in records;
    forall x | Holds(c, x) && x.boot == boot
      ensures c.next[boot] <= x.sequence
    {
      assert x in records && x.sequence > Watermark(acked, x.boot);
    }
  }

  lemma LastIsKept(ranges: seq<BootRange>)
    requires ranges != []
    ensures ranges[|ranges| - 1] in LastRanges(ranges)
  {
    assert LastRanges(ranges)[|LastRanges(ranges)| - 1] == ranges[|ranges| - 1];
  }

  lemma {:induction false} AscendsAfterOthers(a: seq<JournalRecord>, b: seq<JournalRecord>, boot: nat)
    requires (forall x :: x in a ==> x.boot != boot) && Ascends(b, boot)
    ensures Ascends(a + b, boot)
    decreases a
  {
    if a == [] {
      assert a + b == b;
    } else {
      AscendsAfterOthers(a[1..], b, boot);
      assert (a + b)[1..] == a[1..] + b && (a + b)[0] == a[0];
    }
  }
}
