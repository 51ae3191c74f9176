/**
 `BMJ1Journal` of `pico/bmcu_journal.py`: segments that rotate and are pruned, writes that only
 a commit makes durable, and what a power loss leaves of them.
 */
module JournalStore {
  import opened Bytes
  import opened ByteRings
  import opened Journal
  import opened Replay

  /** Staging slots, the segment size, how many segments to keep (0 for all), bytes between commits. */
  datatype Config = Config(slots: nat, segmentSize: nat, maxSegments: nat, commitBytes: nat)

  /** A segment this boot writes; `tail` holds every byte from the first partial write on. */
  datatype Segm = Segm(header: SegmentHeader, entries: seq<Entry>, tail: seq<byte>)

  /**
   `waiting` are the staged records, `older` the files of earlier boots, `durable` the length of
   the open file at its last commit and `safe` how many of its records that covers; `marks` are
   the watermarks in memory and `saved` those on file.
   */
  datatype Store = Store(
    boot: u64, waiting: seq<Entry>, older: seq<seq<byte>>, closed: seq<Segm>, open: Segm,
    durable: nat, safe: nat, uncommitted: nat, marks: map<nat, nat>, saved: map<nat, nat>, dirty: bool)

  predicate AllSegmsFit(segms: seq<Segm>) { forall s :: s in segms ==> AllFit(s.entries) }

  /** Every record has a size the codec takes. */
  predicate Sized(w: Store) { AllFit(w.waiting) && AllSegmsFit(w.closed) && AllFit(w.open.entries) }

  function File(crc: seq<byte> -> u32, s: Segm): seq<byte>
    requires AllFit(s.entries)
  {
    Segment(crc, s.header, s.entries) + s.tail
  }

  // ----- The operations -----

  predicate Accepts(w: Store, c: Config, e: Entry) {
    && !(c.slots > 1 && !Critical(e) && |w.waiting| + 1 >= c.slots)
    && Fits(e) && |w.waiting| < c.slots
  }

  function StageStep(w: Store, c: Config, e: Entry): Store {
    if Accepts(w, c, e) then w.(waiting := w.waiting + [e]) else w
  }

  function AckStep(w: Store, boot: nat, watermark: nat): Store {
    if watermark > Watermark(w.marks, boot) then w.(marks := w.marks[boot := watermark], dirty := true) else w
  }

  function Higher(boots: set<nat>, b: nat): set<nat> { set o | o in boots && o > b }

  /** The watermarks of the highest boot numbers, as many as the file holds. */
  function Newest(marks: map<nat, nat>): map<nat, nat> {
    map b | b in marks && |Higher(marks.Keys, b)| < MAX_REPLAY_BOOT_RANGES :: marks[b]
  }

  /** `commit`, and whether it raised; `syncs` and `saves` tell whether the two writes go through. */
  function CommitStep(crc: seq<byte> -> u32, w: Store, syncs: bool, saves: bool): (Store, bool)
    requires Sized(w)
  {
    if w.uncommitted == 0 && !w.dirty then (w, false)
    else if w.uncommitted > 0 && !syncs then (w, true)
    else
      var synced := if w.uncommitted == 0 then w
                    else w.(durable := |File(crc, w.open)|, safe := |w.open.entries|, uncommitted := 0);
      if !w.dirty then (synced, false)
      else if !saves then (synced, true)
      else (synced.(saved := Newest(w.marks), dirty := false), false)
  }

  /** `_prune_segments` beside the open file. */
  function Pruned(older: seq<seq<byte>>, closed: seq<Segm>, keep: nat): (seq<seq<byte>>, seq<Segm>) {
    var excess := |older| + |closed| + 1 - keep;
    if keep == 0 || excess <= 0 then (older, closed)
    else if excess <= |older| then (older[excess..], closed)
    else ([], closed[excess - |older|..])
  }

  /** The same on the names of the files that may go. */
  function Trimmed(names: seq<seq<byte>>, keep: nat): seq<seq<byte>> {
    var excess := |names| + 1 - keep;
    if keep == 0 || excess <= 0 then names else names[excess..]
  }

  /** Close the segment, which makes it durable, and open the next. */
  function Rotated(w: Store, c: Config, created: u64): Store {
    var (older, closed) := Pruned(w.older, w.closed + [w.open], c.maxSegments);
    var header := SegmentHeader(w.boot, (w.open.header.sequence + 1) % MASK32, created);
    w.(older := older, closed := closed, open := Segm(header, [], []), durable := 0, safe := 0, uncommitted := 0)
  }

  /** The segment for the next record. */
  function RoomFor(crc: seq<byte> -> u32, w: Store, c: Config, created: u64): Store
    requires Sized(w) && w.waiting != []
  {
    if |File(crc, w.open)| + Size(w.waiting[0]) > c.segmentSize then Rotated(w, c, created) else w
  }

  function Written(crc: seq<byte> -> u32, s: Segm, e: Entry): Segm
    requires Fits(e)
  {
    if s.tail == [] then s.(entries := s.entries + [e]) else s.(tail := s.tail + Encode(crc, e))
  }

  /** The oldest staged record, written whole. */
  function WroteWhole(crc: seq<byte> -> u32, w: Store): Store
    requires Sized(w) && w.waiting != []
  {
    var e := w.waiting[0];
    w.(waiting := w.waiting[1..], open := Written(crc, w.open, e), uncommitted := w.uncommitted + Size(e))
  }

  /** Only its first bytes, and it stays staged. */
  function WrotePart(crc: seq<byte> -> u32, w: Store, taken: nat): Store
    requires Sized(w) && w.waiting != [] && taken < Size(w.waiting[0])
  {
    w.(open := w.open.(tail := w.open.tail + Encode(crc, w.waiting[0])[..taken]))
  }

  /** `flush_one`, and whether it raised; `taken` is how many bytes the file accepts. */
  function FlushStep(crc: seq<byte> -> u32, w: Store, c: Config, taken: nat, created: u64, syncs: bool, saves: bool): (Store, bool)
    requires Sized(w)
  {
    if w.waiting == [] then (w, false)
    else
      RoomSized(crc, w, c, created);
      var v := RoomFor(crc, w, c, created);
      if taken < Size(v.waiting[0]) then (WrotePart(crc, v, taken), true)
      else
        WholeSized(crc, v);
        var x := WroteWhole(crc, v);
        if x.uncommitted >= c.commitBytes then CommitStep(crc, x, syncs, saves) else (x, false)
  }

  lemma RoomSized(crc: seq<byte> -> u32, w: Store, c: Config, created: u64)
    requires Sized(w) && w.waiting != []
    ensures Sized(RoomFor(crc, w, c, created)) && RoomFor(crc, w, c, created).waiting == w.waiting
  {
    PrunedMembers(w.older, w.closed + [w.open], c.maxSegments);
  }

  lemma WholeSized(crc: seq<byte> -> u32, w: Store)
    requires Sized(w) && w.waiting != []
    ensures Sized(WroteWhole(crc, w))
  {
  }

  /** A journal just opened over the files that were there; its header is on flash. */
  function Opened(boot: u64, sequence: u32, created: u64, files: seq<seq<byte>>, marks: map<nat, nat>, c: Config): Store {
    var (older, none) := Pruned(files, [], c.maxSegments);
    Store(boot, [], older, [], Segm(SegmentHeader(boot, sequence, created), [], []), SEGMENT_HEADER_SIZE, 0, 0, marks, marks, false)
  }

  // ----- Who is staged -----

  /** A record is staged exactly if its payload fits and a slot is free; the last of several slots is for critical records. */
  lemma StagedIff(w: Store, c: Config, e: Entry)
    ensures Accepts(w, c, e) <==>
              && |e.payload| <= 4096
              && (if c.slots > 1 && e.flags / 2 % 2 == 0 then |w.waiting| < c.slots - 1 else |w.waiting| < c.slots)
    ensures StageStep(w, c, e).waiting == if Accepts(w, c, e) then w.waiting + [e] else w.waiting
  {
  }

  /** If the slots are full, a critical record is among them. */
  ghost predicate ReserveIsCritical(w: Store, c: Config) {
    |w.waiting| <= c.slots && (c.slots > 1 && |w.waiting| == c.slots ==> exists e :: e in w.waiting && e.flags / 2 % 2 == 1)
  }

  lemma StagingKeepsReserve(w: Store, c: Config, e: Entry)
    requires ReserveIsCritical(w, c)
    ensures ReserveIsCritical(StageStep(w, c, e), c)
  {
    StagedIff(w, c, e);
    if Accepts(w, c, e) {
      assert e in w.waiting + [e];
    }
  }

  /** Flushing only empties slots. */
  lemma FlushKeepsReserve(crc: seq<byte> -> u32, w: Store, c: Config, taken: nat, created: u64, syncs: bool, saves: bool)
    requires Inv(crc, w) && ReserveIsCritical(w, c)
    ensures var v := FlushStep(crc, w, c, taken, created, syncs, saves).0;
            && ReserveIsCritical(v, c)
            && (v.waiting == w.waiting || (w.waiting != [] && v.waiting == w.waiting[1..]))
  {
    if w.waiting != [] {
      FlushParts(crc, w, c, taken, created, syncs, saves);
      hide RoomFor, Inv, FlushStep, File, Newest, Written;
    }
  }

  /** A commit raises exactly if one of its two writes is needed and fails, and does nothing if none is needed. */
  lemma CommitRaisesIff(crc: seq<byte> -> u32, w: Store, syncs: bool, saves: bool)
    requires Sized(w)
    ensures CommitStep(crc, w, syncs, saves).1 <==> (w.uncommitted > 0 && !syncs) || (w.dirty && !saves)
    ensures w.uncommitted == 0 && !w.dirty ==> CommitStep(crc, w, syncs, saves).0 == w
    ensures !CommitStep(crc, w, syncs, saves).1 && w.uncommitted > 0 ==>
              CommitStep(crc, w, syncs, saves).0.safe == |w.open.entries|
  {
    hide File, Newest;
  }

  // ----- The watermarks on file -----

  /** What is on file is what is in memory, and a boot is left out only for eight higher ones. */
  ghost predicate Kept(saved: map<nat, nat>, marks: map<nat, nat>) {
    && (forall b :: b in saved ==> b in marks && saved[b] == marks[b])
    && (forall b :: b in marks && b !in saved ==> |Higher(saved.Keys, b)| >= 8)
  }

  ghost function Highest(boots: set<nat>, k: nat): set<nat> { set b | b in boots && |Higher(boots, b)| < k }

  lemma Lowest(boots: set<nat>) returns (m: nat)
    requires boots != {}
    ensures m in boots && forall b :: b in boots ==> m <= b
    decreases |boots|
  {
    m :| m in boots;
    if b :| b in boots && b < m {
      var rest := boots - {m};
      assert b in rest;
      var n := Lowest(rest);
      assert forall x :: x in boots ==> x in rest || x == m;
      m := n;
    }
  }

  /** The k highest are k, or all there are. */
  lemma {:induction false} HighestCount(boots: set<nat>, k: nat)
    ensures |Highest(boots, k)| == if |boots| < k then |boots| else k
    decreases |boots|
  {
    if boots == {} {
      assert Highest(boots, k) == {};
    } else {
      var m := Lowest(boots);
      var rest := boots - {m};
      HighestCount(rest, k);
      forall b | b in rest
        ensures Higher(boots, b) == Higher(rest, b)
      {
      }
      assert Higher(boots, m) == rest;
      assert Highest(boots, k) == if |rest| < k then Highest(rest, k) + {m} else Highest(rest, k);
    }
  }

  lemma SubsetCount(a: set<nat>, b: set<nat>)
    requires a <= b
    ensures |a| <= |b|
  {
    assert b == a + (b - a);
  }

  /** Writing the watermarks keeps them, at most eight, and all of them if there are no more. */
  lemma NewestKeeps(marks: map<nat, nat>)
    ensures Kept(Newest(marks), marks) && |Newest(marks)| <= 8
    ensures |marks| <= 8 ==> Newest(marks) == marks
  {
    var boots, saved := marks.Keys, Newest(marks);
    assert saved.Keys == Highest(boots, 8);
    HighestCount(boots, 8);
    forall b | b in marks && b !in saved
      ensures |Higher(saved.Keys, b)| >= 8
    {
      var above := Higher(boots, b);
      HighestCount(above, 8);
      forall o | o in above
        ensures Higher(above, o) == Higher(boots, o)
      {
      }
      assert Highest(above, 8) <= Higher(saved.Keys, b);
      SubsetCount(Highest(above, 8), Higher(saved.Keys, b));
    }
    AllKept(marks);
  }

  lemma AllKept(marks: map<nat, nat>)
    ensures |marks| <= 8 ==> Newest(marks) == marks
  {
    if |marks| <= 8 {
      forall b | b in marks
        ensures |Higher(marks.Keys, b)| < 8
      {
        SubsetCount(Higher(marks.Keys, b), marks.Keys - {b});
      }
    }
  }

  /** Nothing waits to be written, so the file holds the watermarks. */
  ghost predicate CleanIsSaved(w: Store) { !w.dirty ==> Kept(w.saved, w.marks) }

  lemma OpenedIsSaved(boot: u64, sequence: u32, created: u64, files: seq<seq<byte>>, marks: map<nat, nat>, c: Config)
    ensures var w := Opened(boot, sequence, created, files, marks, c);
            CleanIsSaved(w) && !w.dirty && w.uncommitted == 0 && w.waiting == []
  {
  }

  lemma TellingIsSaved(w: Store, c: Config, e: Entry, boot: nat, watermark: nat)
    requires CleanIsSaved(w)
    ensures CleanIsSaved(StageStep(w, c, e)) && CleanIsSaved(AckStep(w, boot, watermark))
  {
  }

  /** After a commit that does not raise, the watermarks are on file. */
  lemma CommitIsSaved(crc: seq<byte> -> u32, w: Store, syncs: bool, saves: bool)
    requires Sized(w) && CleanIsSaved(w)
    ensures var (v, raised) := CommitStep(crc, w, syncs, saves);
            CleanIsSaved(v) && v.marks == w.marks && (!raised ==> Kept(v.saved, w.marks))
  {
    NewestKeeps(w.marks);
    hide Newest, Kept, File;
  }

  lemma FlushIsSaved(crc: seq<byte> -> u32, w: Store, c: Config, taken: nat, created: u64, syncs: bool, saves: bool)
    requires Inv(crc, w) && CleanIsSaved(w)
    ensures CleanIsSaved(FlushStep(crc, w, c, taken, created, syncs, saves).0)
  {
    if w.waiting != [] {
      FlushParts(crc, w, c, taken, created, syncs, saves);
      var v := RoomFor(crc, w, c, created);
      WritingIsSaved(crc, w, c, taken, created);
      hide CleanIsSaved, CommitStep, FlushStep, RoomFor, WrotePart, Inv;
      if taken >= Size(w.waiting[0]) {
        SizedByInv(crc, WroteWhole(crc, v));
        CommitIsSaved(crc, WroteWhole(crc, v), syncs, saves);
      }
    }
  }

  lemma SizedByInv(crc: seq<byte> -> u32, w: Store)
    requires Inv(crc, w)
    ensures Sized(w)
  {
  }

  lemma WritingIsSaved(crc: seq<byte> -> u32, w: Store, c: Config, taken: nat, created: u64)
    requires Inv(crc, w) && CleanIsSaved(w) && w.waiting != []
    requires Inv(crc, RoomFor(crc, w, c, created)) && RoomFor(crc, w, c, created).waiting == w.waiting
    ensures var v := RoomFor(crc, w, c, created);
            if taken < Size(w.waiting[0]) then CleanIsSaved(WrotePart(crc, v, taken)) else CleanIsSaved(WroteWhole(crc, v))
  {
    hide Kept, File, Pruned;
  }

  // ----- What is durable, and what is not yet -----

  predicate Inv(crc: seq<byte> -> u32, w: Store) {
    && Sized(w)
    && w.open.header.boot == w.boot && (forall s :: s in w.closed ==> s.header.boot == w.boot)
    && w.safe <= |w.open.entries| && w.durable <= |File(crc, w.open)|
    && (w.durable == 0 ==> w.safe == 0)
    && (w.durable != 0 ==> w.durable >= SEGMENT_HEADER_SIZE + |Body(crc, w.open.entries[..w.safe])|)
    && (w.durable != 0 && w.safe < |w.open.entries| ==>
          w.durable == SEGMENT_HEADER_SIZE + |Body(crc, w.open.entries[..w.safe])|)
    && (w.open.tail == [] ==> w.uncommitted == |Body(crc, w.open.entries)| - |Body(crc, w.open.entries[..w.safe])|)
  }

  lemma OpenedInv(crc: seq<byte> -> u32, boot: u64, sequence: u32, created: u64, files: seq<seq<byte>>, marks: map<nat, nat>, c: Config)
    ensures Inv(crc, Opened(boot, sequence, created, files, marks, c))
  {
  }

  lemma PrunedMembers(older: seq<seq<byte>>, closed: seq<Segm>, keep: nat)
    ensures var (o, s) := Pruned(older, closed, keep);
            && (forall f :: f in o ==> f in older) && (forall x :: x in s ==> x in closed)
            && |s| <= |closed| && s == closed[|closed| - |s|..]
            && (keep > 0 ==> |o| + |s| + 1 <= keep || |o| + |s| == 0)
  {
  }

  lemma RoomInv(crc: seq<byte> -> u32, w: Store, c: Config, created: u64)
    requires Inv(crc, w) && w.waiting != []
    ensures Inv(crc, RoomFor(crc, w, c, created)) && RoomFor(crc, w, c, created).waiting == w.waiting
    ensures RoomFor(crc, w, c, created).uncommitted <= w.uncommitted
  {
    PrunedMembers(w.older, w.closed + [w.open], c.maxSegments);
  }

  lemma WholeInv(crc: seq<byte> -> u32, v: Store)
    requires Inv(crc, v) && v.waiting != []
    ensures Inv(crc, WroteWhole(crc, v))
  {
    hide Encode, HeaderBytes;
    var es, e := v.open.entries, v.waiting[0];
    if v.open.tail == [] {
      BodyAppends(crc, es, [e]);
      SingleBody(crc, e);
      assert (es + [e])[..v.safe] == es[..v.safe];
      if v.safe == |es| {
        assert es[..v.safe] == es;
      }
    }
  }

  lemma CommitInv(crc: seq<byte> -> u32, w: Store, syncs: bool, saves: bool)
    requires Inv(crc, w)
    ensures Inv(crc, CommitStep(crc, w, syncs, saves).0)
    ensures CommitStep(crc, w, syncs, saves).0.uncommitted == (if syncs then 0 else w.uncommitted)
    ensures !CommitStep(crc, w, syncs, saves).1 ==> CommitStep(crc, w, syncs, saves).0.uncommitted == 0
  {
    hide HeaderBytes, Newest;
    assert w.open.entries[..|w.open.entries|] == w.open.entries;
  }

  lemma PartInv(crc: seq<byte> -> u32, v: Store, taken: nat)
    requires Inv(crc, v) && v.waiting != [] && taken < Size(v.waiting[0])
    ensures Inv(crc, WrotePart(crc, v, taken))
  {
    hide HeaderBytes, Body, Encode;
  }

  /** Whether the flush completes a record and with it the bytes a commit waits for. */
  predicate NeedsCommit(crc: seq<byte> -> u32, w: Store, c: Config, taken: nat, created: u64)
    requires Sized(w)
  {
    && w.waiting != [] && taken >= Size(w.waiting[0])
    && RoomFor(crc, w, c, created).uncommitted + Size(w.waiting[0]) >= c.commitBytes
  }

  lemma FlushParts(crc: seq<byte> -> u32, w: Store, c: Config, taken: nat, created: u64, syncs: bool, saves: bool)
    requires Inv(crc, w) && w.waiting != []
    ensures var v := RoomFor(crc, w, c, created);
            && Inv(crc, v) && v.waiting == w.waiting
            && (taken < Size(w.waiting[0]) ==>
                  && Inv(crc, WrotePart(crc, v, taken))
                  && FlushStep(crc, w, c, taken, created, syncs, saves) == (WrotePart(crc, v, taken), true))
            && (taken >= Size(w.waiting[0]) ==>
                  && Inv(crc, WroteWhole(crc, v)) && WroteWhole(crc, v).uncommitted == v.uncommitted + Size(w.waiting[0])
                  && FlushStep(crc, w, c, taken, created, syncs, saves) ==
                     if NeedsCommit(crc, w, c, taken, created) then CommitStep(crc, WroteWhole(crc, v), syncs, saves)
                     else (WroteWhole(crc, v), false))
  {
    RoomInv(crc, w, c, created);
    hide RoomFor, CommitStep, Written, Inv;
    if taken >= Size(w.waiting[0]) {
      WholeInv(crc, RoomFor(crc, w, c, created));
    } else {
      PartInv(crc, RoomFor(crc, w, c, created), taken);
    }
  }

  lemma PartLeaves(crc: seq<byte> -> u32, v: Store, taken: nat)
    requires Sized(v) && v.waiting != [] && taken < Size(v.waiting[0])
    ensures WrotePart(crc, v, taken).uncommitted == v.uncommitted
  {
  }

  /**
   A flush leaves fewer than `commitBytes` bytes uncommitted if and only if the commit goes
   through in case it needs one; if the call does not raise, it did.
   */
  lemma FlushStaysCommitted(crc: seq<byte> -> u32, w: Store, c: Config, taken: nat, created: u64, syncs: bool, saves: bool)
    requires Inv(crc, w) && w.uncommitted < c.commitBytes
    ensures var (after, raised) := FlushStep(crc, w, c, taken, created, syncs, saves);
            && Inv(crc, after)
            && (after.uncommitted < c.commitBytes <==> syncs || !NeedsCommit(crc, w, c, taken, created))
            && (!raised ==> after.uncommitted < c.commitBytes)
  {
    if w.waiting != [] {
      var v := RoomFor(crc, w, c, created);
      RoomInv(crc, w, c, created);
      FlushParts(crc, w, c, taken, created, syncs, saves);
      hide RoomFor, CommitStep, Inv, FlushStep, WroteWhole, WrotePart;
      if taken < Size(w.waiting[0]) {
        PartLeaves(crc, v, taken);
      } else {
        CommitInv(crc, WroteWhole(crc, v), syncs, saves);
      }
    }
  }

  // ----- What a power loss leaves -----

  function AsRecords(boot: u64, es: seq<Entry>): (records: seq<JournalRecord>)
    ensures |records| == |es|
    ensures forall i :: 0 <= i < |es| ==>
              records[i] == JournalRecord(boot, es[i].kind, es[i].flags, es[i].link, es[i].sequence, es[i].received, es[i].payload)
  {
    if es == [] then []
    else
      var e := es[0];
      [JournalRecord(boot, e.kind, e.flags, e.link, e.sequence, e.received, e.payload)] + AsRecords(boot, es[1..])
  }

  /** `recover_records` on one file; a header that does not parse gives nothing. */
  function HistoryOf(crc: seq<byte> -> u32, file: seq<byte>): seq<JournalRecord> {
    match RecoverFile(crc, file)
    case None => []
    case Some((h, es)) => AsRecords(h.boot, es)
  }

  /** What the cursor and the scan read: the files in name order. */
  function History(crc: seq<byte> -> u32, files: seq<seq<byte>>): seq<JournalRecord> {
    if files == [] then [] else HistoryOf(crc, files[0]) + History(crc, files[1..])
  }

  function Files(crc: seq<byte> -> u32, segms: seq<Segm>): seq<seq<byte>>
    requires AllSegmsFit(segms)
  {
    if segms == [] then [] else [File(crc, segms[0])] + Files(crc, segms[1..])
  }

  /** The files after a power loss that keeps `cut` bytes of the open one: all that is durable, and no more than was written. */
  function Crash(crc: seq<byte> -> u32, w: Store, cut: nat): seq<seq<byte>>
    requires Sized(w) && w.durable <= cut <= |File(crc, w.open)|
  {
    w.older + Files(crc, w.closed) + [File(crc, w.open)[..cut]]
  }

  /** What follows a partial write does not pass for a record. */
  predicate Quiet(crc: seq<byte> -> u32, s: Segm) { !Completes(crc, s.tail) }

  predicate AllQuiet(crc: seq<byte> -> u32, w: Store) { Quiet(crc, w.open) && forall s :: s in w.closed ==> Quiet(crc, s) }

  function KeptBy(s: Segm, cut: nat): (k: nat)
    ensures k <= |s.entries|
  {
    if cut < SEGMENT_HEADER_SIZE then 0 else WholeBefore(s.entries, cut - SEGMENT_HEADER_SIZE)
  }

  lemma PrefixCompletes(crc: seq<byte> -> u32, b: seq<byte>, n: nat)
    requires n <= |b| && Completes(crc, b[..n])
    ensures Completes(crc, b)
  {
    var total := FromBE(b[..n][..2]);
    assert b[..n][..2] == b[..2] && b[..n][5..8] == b[5..8];
    assert b[..n][..total - 4] == b[..total - 4] && b[..n][total - 4..total] == b[total - 4..total];
  }

  lemma PrefixStaysQuiet(crc: seq<byte> -> u32, b: seq<byte>, n: nat)
    requires n <= |b| && !Completes(crc, b)
    ensures Recovered(crc, b[..n]) == []
  {
    hide Completes;
    FirstOrNone(crc, b[..n]);
    if Completes(crc, b[..n]) {
      PrefixCompletes(crc, b, n);
    }
  }

  /** Cut anywhere, a quiet segment gives exactly the records that lie wholly before the cut. */
  lemma CutHistory(crc: seq<byte> -> u32, s: Segm, cut: nat)
    requires AllFit(s.entries) && Quiet(crc, s) && cut <= |File(crc, s)|
    ensures HistoryOf(crc, File(crc, s)[..cut]) == AsRecords(s.header.boot, s.entries[..KeptBy(s, cut)])
  {
    hide HeaderBytes, Body, WholeBefore, Recovered, Completes, ParseHeader;
    var es := s.entries;
    var all, body := SEGMENT_HEADER_SIZE + |Body(crc, es)|, Body(crc, es);
    if cut <= all {
      assert File(crc, s)[..cut] == Segment(crc, s.header, es)[..cut];
      SegmentTornTail(crc, s.header, es, cut, []);
    } else {
      var part := s.tail[..cut - all];
      assert File(crc, s)[..cut] == HeaderBytes(crc, s.header) + (body + part);
      HeaderRoundTrip(crc, s.header, body + part);
      assert (HeaderBytes(crc, s.header) + (body + part))[SEGMENT_HEADER_SIZE..] == body + part;
      assert body[..|body|] == body;
      TornTail(crc, es, |body|, part);
      PrefixStaysQuiet(crc, s.tail, cut - all);
      AllBefore(crc, es, cut - SEGMENT_HEADER_SIZE);
      assert es + [] == es && es[..|es|] == es;
    }
  }

  lemma {:induction false} AllBefore(crc: seq<byte> -> u32, es: seq<Entry>, cut: nat)
    requires AllFit(es) && |Body(crc, es)| <= cut
    ensures WholeBefore(es, cut) == |es|
    decreases es
  {
    hide Encode;
    if es != [] {
      AllBefore(crc, es[1..], cut - Size(es[0]));
    }
  }

  /** The cut at the last commit keeps exactly the committed records. */
  lemma SafeIsKept(crc: seq<byte> -> u32, w: Store)
    requires Inv(crc, w)
    ensures KeptBy(w.open, w.durable) == w.safe
  {
    hide Encode, HeaderBytes;
    var es := w.open.entries;
    if w.durable >= SEGMENT_HEADER_SIZE {
      if w.safe == |es| {
        assert es[..w.safe] == es;
        AllBefore(crc, es, w.durable - SEGMENT_HEADER_SIZE);
      } else {
        ExactlyBefore(crc, es, w.safe);
      }
    }
  }

  lemma {:induction false} ExactlyBefore(crc: seq<byte> -> u32, es: seq<Entry>, k: nat)
    requires AllFit(es) && k <= |es|
    ensures WholeBefore(es, |Body(crc, es[..k])|) == k
    decreases es
  {
    hide Encode;
    if k > 0 {
      assert es[..k][0] == es[0] && es[..k][1..] == es[1..][..k - 1];
      ExactlyBefore(crc, es[1..], k - 1);
    } else {
      assert es[..0] == [];
    }
  }

  lemma {:induction false} WholeBeforeGrows(es: seq<Entry>, a: nat, b: nat)
    requires a <= b
    ensures WholeBefore(es, a) <= WholeBefore(es, b)
    decreases es
  {
    if es != [] && Size(es[0]) <= a {
      WholeBeforeGrows(es[1..], a - Size(es[0]), b - Size(es[0]));
    }
  }

  function Entries(segms: seq<Segm>): seq<Entry> {
    if segms == [] then [] else segms[0].entries + Entries(segms[1..])
  }

  lemma {:induction false} HistoryAppends(crc: seq<byte> -> u32, a: seq<seq<byte>>, b: seq<seq<byte>>)
    ensures History(crc, a + b) == History(crc, a) + History(crc, b)
    decreases a
  {
    hide HistoryOf;
    if a == [] {
      assert a + b == b;
    } else {
      HistoryAppends(crc, a[1..], b);
      assert (a + b)[1..] == a[1..] + b;
    }
  }

  lemma LastFile(crc: seq<byte> -> u32, file: seq<byte>)
    ensures History(crc, [file]) == HistoryOf(crc, file)
  {
    hide HistoryOf;
    var files: seq<seq<byte>> := [file];
    assert History(crc, files) == HistoryOf(crc, file) + History(crc, files[1..]);
  }

  lemma RecordsAppend(boot: u64, a: seq<Entry>, b: seq<Entry>)
    ensures AsRecords(boot, a + b) == AsRecords(boot, a) + AsRecords(boot, b)
  {
  }

  lemma {:induction false} ClosedHistory(crc: seq<byte> -> u32, boot: u64, segms: seq<Segm>)
    requires AllSegmsFit(segms) && forall s :: s in segms ==> s.header.boot == boot && Quiet(crc, s)
    ensures History(crc, Files(crc, segms)) == AsRecords(boot, Entries(segms))
    decreases segms
  {
    hide HistoryOf, File, Quiet;
    if segms != [] {
      var s, rest := segms[0], segms[1..];
      ClosedHistory(crc, boot, rest);
      CutHistory(crc, s, |File(crc, s)|);
      assert File(crc, s)[..|File(crc, s)|] == File(crc, s);
      WholeFile(crc, s);
      assert s.entries[..|s.entries|] == s.entries;
      RecordsAppend(boot, s.entries, Entries(rest));
    }
  }

  lemma WholeFile(crc: seq<byte> -> u32, s: Segm)
    requires AllFit(s.entries)
    ensures KeptBy(s, |File(crc, s)|) == |s.entries|
  {
    hide HeaderBytes, Body;
    AllBefore(crc, s.entries, |File(crc, s)| - SEGMENT_HEADER_SIZE);
  }

  /** The records of this boot that no power loss can take: those of closed segments and the committed ones. */
  function Secured(w: Store): seq<Entry>
    requires w.safe <= |w.open.entries|
  {
    Entries(w.closed) + w.open.entries[..w.safe]
  }

  /**
   After a power loss at any byte between the last commit and the last write, the next boot finds
   the history of earlier boots and, of this boot, every closed segment and the first `k` records
   of the open one: at least the committed, at most the written, and exactly the committed if
   nothing behind the last commit survives.  The records at risk take exactly the uncommitted bytes.
   */
  lemma CrashKeepsCommitted(crc: seq<byte> -> u32, w: Store, cut: nat) returns (k: nat)
    requires Inv(crc, w) && AllQuiet(crc, w) && w.durable <= cut <= |File(crc, w.open)|
    ensures w.safe <= k <= |w.open.entries|
    ensures History(crc, Crash(crc, w, cut)) ==
            History(crc, w.older) + AsRecords(w.boot, Entries(w.closed) + w.open.entries[..k])
    ensures cut == w.durable ==> k == w.safe
    ensures w.open.tail == [] ==> |Body(crc, w.open.entries)| - |Body(crc, w.open.entries[..w.safe])| == w.uncommitted
  {
    SafeIsKept(crc, w);
    hide Body, Quiet, File, HistoryOf;
    KeptGrows(w.open, w.durable, cut);
    k := KeptBy(w.open, cut);
    CutHistory(crc, w.open, cut);
    ClosedHistory(crc, w.boot, w.closed);
    hide Inv, AllQuiet, Sized, KeptBy;
    FilesHistory(crc, w.older, Files(crc, w.closed), File(crc, w.open)[..cut]);
    RecordsAppend(w.boot, Entries(w.closed), w.open.entries[..k]);
  }

  lemma KeptGrows(s: Segm, a: nat, b: nat)
    requires a <= b
    ensures KeptBy(s, a) <= KeptBy(s, b)
  {
    if a >= SEGMENT_HEADER_SIZE {
      WholeBeforeGrows(s.entries, a - SEGMENT_HEADER_SIZE, b - SEGMENT_HEADER_SIZE);
    }
  }

  lemma FilesHistory(crc: seq<byte> -> u32, older: seq<seq<byte>>, closed: seq<seq<byte>>, last: seq<byte>)
    ensures History(crc, older + closed + [last]) == History(crc, older) + (History(crc, closed) + HistoryOf(crc, last))
  {
    hide HistoryOf, History;
    HistoryAppends(crc, older + closed, [last]);
    HistoryAppends(crc, older, closed);
    LastFile(crc, last);
  }

  /** A record written whole is not durable yet: staged and flushed into a fresh segment, a power loss can still take it. */
  lemma FlushedCanBeLost(crc: seq<byte> -> u32, boot: u64, sequence: u32, created: u64, files: seq<seq<byte>>, marks: map<nat, nat>,
                         c: Config, e: Entry)
    requires Fits(e) && c.slots > 1 && c.maxSegments == 0
    requires SEGMENT_HEADER_SIZE + Size(e) <= c.segmentSize && Size(e) < c.commitBytes
    ensures var w := FlushStep(crc, StageStep(Opened(boot, sequence, created, files, marks, c), c, e), c, Size(e), created, true, true);
            && !w.1 && w.0.waiting == [] && w.0.open.entries == [e] && Inv(crc, w.0)
            && History(crc, Crash(crc, w.0, w.0.durable)) == History(crc, files)
  {
    hide Encode, HeaderBytes, History, Completes;
    var start := Opened(boot, sequence, created, files, marks, c);
    var staged := StageStep(start, c, e);
    assert staged.waiting == [e];
    OpenedInv(crc, boot, sequence, created, files, marks, c);
    FlushParts(crc, staged, c, Size(e), created, true, true);
    var w := FlushStep(crc, staged, c, Size(e), created, true, true).0;
    assert w.open.entries == [e] && w.closed == [] && w.safe == 0 && w.older == files;
    NothingCompletes(crc);
    var k := CrashKeepsCommitted(crc, w, w.durable);
    assert Entries(w.closed) + w.open.entries[..0] == [];
    assert History(crc, files) + [] == History(crc, files);
  }

  lemma StageKeeps(crc: seq<byte> -> u32, w: Store, c: Config, e: Entry)
    requires Inv(crc, w)
    ensures Inv(crc, StageStep(w, c, e))
  {
  }

  lemma {:induction false} FilesAppend(crc: seq<byte> -> u32, a: seq<Segm>, b: seq<Segm>)
    requires AllSegmsFit(a) && AllSegmsFit(b)
    ensures AllSegmsFit(a + b) && Files(crc, a + b) == Files(crc, a) + Files(crc, b)
    decreases a
  {
    hide File;
    if a == [] {
      assert a + b == b;
    } else {
      FilesAppend(crc, a[1..], b);
      assert (a + b)[0] == a[0] && (a + b)[1..] == a[1..] + b;
      var first, more, last := [File(crc, a[0])], Files(crc, a[1..]), Files(crc, b);
      assert first + (more + last) == first + more + last;
    }
  }

  lemma {:induction false} FilesCount(crc: seq<byte> -> u32, a: seq<Segm>)
    requires AllSegmsFit(a)
    ensures |Files(crc, a)| == |a|
    decreases a
  {
    if a != [] {
      FilesCount(crc, a[1..]);
    }
  }

  lemma FilesSuffix(crc: seq<byte> -> u32, all: seq<Segm>, n: nat)
    requires AllSegmsFit(all) && n <= |all|
    ensures AllSegmsFit(all[n..]) && |Files(crc, all)| == |all| && Files(crc, all[n..]) == Files(crc, all)[n..]
  {
    hide Files, File;
    assert all == all[..n] + all[n..];
    FilesAppend(crc, all[..n], all[n..]);
    FilesCount(crc, all[..n]);
    FilesCount(crc, all);
  }

  /** Dropping the oldest names is pruning. */
  lemma PrunedFiles(crc: seq<byte> -> u32, older: seq<seq<byte>>, all: seq<Segm>, keep: nat)
    requires AllSegmsFit(all)
    ensures AllSegmsFit(Pruned(older, all, keep).1)
    ensures Pruned(older, all, keep).0 + Files(crc, Pruned(older, all, keep).1) == Trimmed(older + Files(crc, all), keep)
  {
    hide Files, AllSegmsFit;
    FilesCount(crc, all);
    var excess, files := |older| + |all| + 1 - keep, Files(crc, all);
    if keep > 0 && excess > 0 {
      DropFront(older, files, excess);
      if excess > |older| {
        FilesSuffix(crc, all, excess - |older|);
      }
    }
  }

  lemma DropFront(a: seq<seq<byte>>, b: seq<seq<byte>>, n: nat)
    requires n <= |a| + |b|
    ensures n <= |a| ==> (a + b)[n..] == a[n..] + b
    ensures n > |a| ==> (a + b)[n..] == [] + b[n - |a|..]
  {
  }

  lemma FilesWithOpen(crc: seq<byte> -> u32, older: seq<seq<byte>>, closed: seq<Segm>, open: Segm)
    requires AllSegmsFit(closed) && AllFit(open.entries)
    ensures AllSegmsFit(closed + [open])
    ensures older + Files(crc, closed) + [File(crc, open)] == older + Files(crc, closed + [open])
  {
    hide Files, File;
    FileOfOne(crc, open);
    FilesAppend(crc, closed, [open]);
  }

  lemma FileOfOne(crc: seq<byte> -> u32, s: Segm)
    requires AllFit(s.entries)
    ensures AllSegmsFit([s]) && Files(crc, [s]) == [File(crc, s)]
  {
    hide File;
    var segms := [s];
    assert segms[1..] == [];
  }

  /** What rotation does to the files. */
  lemma RotatedFiles(crc: seq<byte> -> u32, w: Store, c: Config, created: u64)
    requires Inv(crc, w)
    ensures var v, removable := Rotated(w, c, created), w.older + Files(crc, w.closed) + [File(crc, w.open)];
            && Inv(crc, v) && v.waiting == w.waiting && v.boot == w.boot && v.uncommitted == 0
            && v.marks == w.marks && v.saved == w.saved && v.dirty == w.dirty
            && v.open.header == SegmentHeader(w.boot, (w.open.header.sequence + 1) % MASK32, created)
            && File(crc, v.open) == HeaderBytes(crc, v.open.header)
            && v.older + Files(crc, v.closed) == Trimmed(removable, c.maxSegments)
  {
    FilesWithOpen(crc, w.older, w.closed, w.open);
    PrunedFiles(crc, w.older, w.closed + [w.open], c.maxSegments);
    RotatedInv(crc, w, c, created);
    EmptyFile(crc, Rotated(w, c, created).open.header);
    hide Inv, File, Files, Pruned, HeaderBytes;
  }

  lemma RotatedInv(crc: seq<byte> -> u32, w: Store, c: Config, created: u64)
    requires Inv(crc, w)
    ensures Inv(crc, Rotated(w, c, created)) && Rotated(w, c, created).waiting == w.waiting
  {
    PrunedMembers(w.older, w.closed + [w.open], c.maxSegments);
    hide Pruned, HeaderBytes;
  }

  /** What a write adds to the file. */
  lemma WrittenFile(crc: seq<byte> -> u32, s: Segm, e: Entry, taken: nat)
    requires AllFit(s.entries) && Fits(e)
    ensures AllFit(Written(crc, s, e).entries) && File(crc, Written(crc, s, e)) == File(crc, s) + Encode(crc, e)
    ensures taken < Size(e) ==> File(crc, s.(tail := s.tail + Encode(crc, e)[..taken])) == File(crc, s) + Encode(crc, e)[..taken]
  {
    hide Encode, HeaderBytes, Body;
    BodyAppends(crc, s.entries, [e]);
    SingleBody(crc, e);
  }

  lemma EmptyFile(crc: seq<byte> -> u32, h: SegmentHeader)
    ensures File(crc, Segm(h, [], [])) == HeaderBytes(crc, h)
  {
    hide HeaderBytes;
  }

  lemma NothingCompletes(crc: seq<byte> -> u32)
    ensures !Completes(crc, [])
  {
  }

  // ----- The journal's own form -----

  class BMJ1Journal {
    const crc: seq<byte> -> u32
    const config: Config
    const picoBootId: u64
    const stager: JournalStager
    /** The segments that may be pruned, in name order, and the open one. */
    var files: seq<seq<byte>>
    var file: seq<byte>
    var segmentSequence: u32
    var uncommittedBytes: nat
    var watermarks: map<nat, nat>
    var savedWatermarks: map<nat, nat>
    var checkpointDirty: bool
    ghost var store: Store

    ghost predicate Valid()
      reads this, stager, stager.ring, stager.ring.Repr, stager.scratch
    {
      && this !in stager.ring.Repr && stager.Valid() && stager.crc == crc && stager.ring.capacity == config.slots
      && Inv(crc, store) && CleanIsSaved(store) && store.boot == picoBootId
      && stager.flushed <= |stager.accepted| && store.waiting == stager.accepted[stager.flushed..]
      && files == store.older + Files(crc, store.closed) && file == File(crc, store.open)
      && segmentSequence == store.open.header.sequence && uncommittedBytes == store.uncommitted
      && watermarks == store.marks && savedWatermarks == store.saved && checkpointDirty == store.dirty
    }

    constructor (crc: seq<byte> -> u32, bootId: u64, sequence: u32, created: u64, existing: seq<seq<byte>>,
                 marks: map<nat, nat>, config: Config)
      requires config.slots > 0
      ensures Valid() && store == Opened(bootId, sequence, created, existing, marks, config)
      ensures this.crc == crc && this.config == config && fresh(stager) && fresh(stager.ring.Repr) && fresh(stager.scratch)
    {
      hide ByteRing.Valid, ByteRing.Shaped, ByteRing.Contents, HeaderBytes, Inv;
      this.crc, this.config, picoBootId := crc, config, bootId;
      var s := new JournalStager(crc, config.slots);
      stager := s;
      segmentSequence, uncommittedBytes, watermarks, savedWatermarks, checkpointDirty := sequence, 0, marks, marks, false;
      files := Trimmed(existing, config.maxSegments);
      file := HeaderBytes(crc, SegmentHeader(bootId, sequence, created));
      store := Opened(bootId, sequence, created, existing, marks, config);
      new;
      OpenedInv(crc, bootId, sequence, created, existing, marks, config);
      OpenedIsSaved(bootId, sequence, created, existing, marks, config);
    }

    /** `stage`. */
    method Stage(e: Entry) returns (outcome: Staging)
      requires Valid()
      modifies this, stager, stager.ring.Repr, stager.scratch
      ensures Valid() && store == StageStep(old(store), config, e)
      ensures (outcome == Staged) == Accepts(old(store), config, e)
    {
      hide ByteRing.Valid, ByteRing.Shaped, Inv, Files, File;
      StagedCount();
      outcome := stager.Stage(e);
      StageKeeps(crc, store, config, e);
      TellingIsSaved(store, config, e, 0, 0);
      store := StageStep(store, config, e);
    }

    lemma StagedCount()
      requires Valid()
      ensures stager.ring.count == |store.waiting|
    {
      hide ByteRing.Valid, ByteRing.Shaped;
    }

    /** `record_ack`. */
    method RecordAck(bootId: nat, watermark: nat)
      requires Valid()
      modifies this
      ensures Valid() && store == AckStep(old(store), bootId, watermark)
    {
      hide ByteRing.Valid, ByteRing.Shaped, ByteRing.Contents, Files, File, Body;
      if watermark > Watermark(watermarks, bootId) {
        watermarks, checkpointDirty := watermarks[bootId := watermark], true;
      }
      TellingIsSaved(store, config, Entry(0, 0, 0, 0, 0, []), bootId, watermark);
      store := AckStep(store, bootId, watermark);
    }

    /** `commit`; `syncs` and `saves` tell whether the two writes go through. */
    method Commit(syncs: bool, saves: bool) returns (raised: bool, pending: nat)
      requires Valid()
      modifies this
      ensures Valid() && (store, raised) == CommitStep(crc, old(store), syncs, saves)
      ensures pending == if raised then 0 else old(uncommittedBytes)
      ensures watermarks == old(watermarks) && (!raised ==> Kept(savedWatermarks, watermarks))
    {
      hide ByteRing.Valid, ByteRing.Shaped, ByteRing.Contents, Files, File, Newest;
      CommitInv(crc, store, syncs, saves);
      CommitIsSaved(crc, store, syncs, saves);
      hide Inv, CleanIsSaved, Kept;
      var step := CommitStep(crc, store, syncs, saves);
      if uncommittedBytes == 0 && !checkpointDirty {
        return false, 0;
      }
      pending := uncommittedBytes;
      if pending > 0 && !syncs {
        return true, 0;
      }
      uncommittedBytes := 0;
      store := step.0;
      if checkpointDirty {
        if !saves {
          return true, 0;
        }
        savedWatermarks := Newest(watermarks);
        checkpointDirty := false;
      }
      return false, pending;
    }

    /** Close the full segment, open the next and prune. */
    method Rotate(created: u64)
      requires Valid()
      modifies this
      ensures Valid() && store == Rotated(old(store), config, created)
    {
      hide ByteRing.Valid, ByteRing.Shaped, ByteRing.Contents, HeaderBytes, Body;
      RotatedFiles(crc, store, config, created);
      hide Inv, File, Files, Rotated;
      files := Trimmed(files + [file], config.maxSegments);
      segmentSequence := (segmentSequence + 1) % MASK32;
      file := HeaderBytes(crc, SegmentHeader(picoBootId, segmentSequence, created));
      uncommittedBytes := 0;
      store := Rotated(store, config, created);
    }

    /** Write the oldest staged record, as far as the file accepts it. */
    method WriteNext(taken: nat) returns (whole: bool, size: nat)
      requires Valid() && store.waiting != []
      modifies this, stager, stager.ring.Repr
      ensures Valid() && size == Size(old(store).waiting[0]) && whole == (taken >= size)
      ensures whole ==> store == WroteWhole(crc, old(store))
      ensures !whole ==> store == WrotePart(crc, old(store), taken)
    {
      hide ByteRing.Valid, ByteRing.Shaped, ByteRing.Contents, Encode, Body, Files, Kept;
      ghost var w := store;
      ghost var e := w.waiting[0];
      assert e == stager.accepted[stager.flushed];
      WholeInv(crc, w);
      if taken < Size(e) {
        PartInv(crc, w, taken);
      }
      WrittenFile(crc, w.open, e, taken);
      hide Inv, File, Written;
      size := stager.NextSize();
      var outcome, grown := stager.FlushOne(file, taken);
      file := grown;
      whole := outcome != PartialWrite;
      if whole {
        uncommittedBytes := uncommittedBytes + size;
        store := WroteWhole(crc, w);
      } else {
        store := WrotePart(crc, w, taken);
      }
    }

    /** `flush_one`; `taken` is how many bytes the file accepts. */
    method FlushOne(taken: nat, created: u64, syncs: bool, saves: bool) returns (raised: bool, written: nat)
      requires Valid()
      modifies this, stager, stager.ring.Repr
      ensures Valid() && (store, raised) == FlushStep(crc, old(store), config, taken, created, syncs, saves)
      ensures written == if !raised && old(store).waiting != [] then Size(old(store).waiting[0]) else 0
    {
      hide ByteRing.Valid, ByteRing.Shaped, ByteRing.Contents, Encode, Body, Files, Pruned, Newest, File;
      ghost var w := store;
      var current := stager.NextSize();
      if current == 0 {
        assert w.waiting == [];
        return false, 0;
      }
      assert w.waiting[0] == stager.accepted[stager.flushed];
      FlushParts(crc, w, config, taken, created, syncs, saves);
      hide Inv, FlushStep, CommitStep, WroteWhole, WrotePart;
      if |file| + current > config.segmentSize {
        Rotate(created);
      }
      assert store == RoomFor(crc, w, config, created);
      var whole, size := WriteNext(taken);
      if !whole {
        return true, 0;
      }
      raised := false;
      if uncommittedBytes >= config.commitBytes {
        var pending: nat;
        raised, pending := Commit(syncs, saves);
      }
      written := if raised then 0 else size;
    }
  }
}
