/** The outbox never deadlocks: alternating peek and ACK empties it in a counted number of steps. */
module OutboxDrain {
  import opened Options
  import opened Bytes
  import opened Bmb1Codec
  import opened ByteRings
  import opened Replay
  import opened OutboxModel
  import opened OutboxTiling

  // ----- What is left to deliver -----

  /** Messages the peer has not seen: live, pending loss, coalesced STATUS, replay and journal. */
  ghost function Work(b: Box): nat {
    |Live(b)| + (if b.count > 0 then 1 else 0) + (if b.latest != [] then 1 else 0) + |b.replay| + |Items(b.cursor)|
  }

  /** History that can be replayed: known flags, and an earlier boot than the current one. */
  ghost predicate Replayable(j: JournalRecord, boot: nat) {
    j.flags <= KNOWN_FLAGS && |j.payload| <= MAX_PAYLOAD_SIZE && j.boot != boot
  }

  ghost predicate CleanHistory(b: Box) {
    && |b.replay| <= REPLAY_SLOTS
    && (forall r :: r in b.replay ==> HeaderBoot(r.data) != b.boot)
    && (forall i :: i in Items(b.cursor) ==> Replayable(i.record, b.boot))
  }

  /** Sequence numbers and loss counts that still fit their wire fields. */
  predicate RoomLeft(b: Box) {
    b.next < MASK64 - 1 && b.count < MASK32
  }

  lemma RestoredFacts(j: JournalRecord, boot: nat)
    requires Replayable(j, boot)
    ensures RestoredMessage(j).Encoded? && HeaderBoot(RestoredRec(j).data) == j.boot
  {
    EncodedFacts(j.kind, WithReplayFlag(j.flags), j.sequence, j.boot, j.link, j.payload);
  }

  /** Paging moves history into RAM; it never loses any, and an empty ring does not stay empty. */
  lemma PageKeepsWork(b: Box)
    requires CleanHistory(b)
    ensures CleanHistory(Page(b)) && Work(Page(b)) == Work(b)
    ensures Page(b).replay == [] ==> Items(Page(b).cursor) == []
    ensures b.replay != [] ==> Page(b).replay[..|b.replay|] == b.replay
  {
    var n := PageMovesPrefix(b.cursor, b.replay, REPLAY_SLOTS, PAGE_LIMIT);
    var items, after := Items(b.cursor), Page(b);
    assert items == items[..n] + items[n..];
    PageCapacity(b.cursor, b.replay, REPLAY_SLOTS, PAGE_LIMIT);
    if n == 0 && items != [] {
      assert items[0] in items;
      RestoredFacts(items[0].record, b.boot);
    }
    forall r | r in after.replay
      ensures HeaderBoot(r.data) != b.boot
    {
      var k :| 0 <= k < |after.replay| && after.replay[k] == r;
      if k < |b.replay| {
        assert r == after.replay[..|b.replay|][k];
      } else {
        var i := k - |b.replay|;
        assert items[i] in items && after.replay[|b.replay| + i] == r;
        RestoredFacts(items[i].record, b.boot);
      }
    }
  }

  lemma {:induction false} PageCapacity(c: Cursor, q: seq<Rec>, slots: nat, limit: nat)
    requires |q| <= slots
    ensures |PageInto(c, q, slots, limit).1| <= slots
    decreases limit
  {
    hide Settle, Emits, AfterEmit, RestoredMessage;
    if limit > 0 {
      SettleShrinks(c);
      var s := Settle(c);
      if s.pending.Some? && CanRestore(q, slots, Emits(s).record) {
        PageCapacity(AfterEmit(s), q + [RestoredRec(Emits(s).record)], slots, limit - 1);
      }
    }
  }

  // ----- Peek -----

  lemma DropKeepsWork(b: Box, lim: Limits, released: nat)
    requires Sound(b, lim, released) && ValidLimits(lim) && CleanHistory(b) && RoomLeft(b)
    ensures MaterializeDrop(b, lim).Some?
    ensures var after := MaterializeDrop(b, lim).value;
            && Sound(after, lim, released) && CleanHistory(after) && Work(after) == Work(b)
            && after.boot == b.boot && after.next == b.next && after.latest == b.latest && after.count <= b.count
            && (after.count > 0 ==> after.durable != [])
  {
    hide Live, Chain, Items;
    MaterializeDropTiles(b, lim, released);
  }

  lemma StatusKeepsWork(b: Box, lim: Limits, released: nat)
    requires Sound(b, lim, released) && ValidLimits(lim) && CleanHistory(b) && b.next < MASK64
    ensures !MaterializeStatus(b, lim).1
    ensures var after := MaterializeStatus(b, lim).0;
            && Sound(after, lim, released) && CleanHistory(after) && Work(after) == Work(b)
            && after.boot == b.boot && after.count == b.count && after.replay == b.replay && after.cursor == b.cursor
            && (if StatusReady(b) then after.next == b.next + 1 && after.latest == []
                else after == b)
  {
    hide Chain, Items;
    MaterializeStatusTiles(b, lim, released);
  }

  lemma PeekKeepsWork(b: Box, lim: Limits, released: nat)
    requires Sound(b, lim, released) && ValidLimits(lim) && CleanHistory(b) && RoomLeft(b)
    ensures var (after, offer) := Peek(b, lim);
            && Sound(after, lim, released) && CleanHistory(after) && Work(after) == Work(b)
            && after.boot == b.boot && offer == NextHead(after)
            && (offer.Nothing? ==> Work(b) == 0)
            && after.count <= b.count
            && (if after.next == b.next then after.latest == b.latest else after.next == b.next + 1 && after.latest == [])
            && (b.latest == [] ==> after.latest == [] && after.next == b.next)
  {
    DropKeepsWork(b, lim, released);
    var announced := MaterializeDrop(b, lim).value;
    PageKeepsWork(announced);
    PageTiles(announced, lim, released);
    StatusKeepsWork(Page(announced), lim, released);
    hide Chain, Items, PageInto, MaterializeDrop, MaterializeStatus, Merge;
    var after := Peek(b, lim).0;
  }

  /** The next item of history is one the outbox refuses. */
  ghost predicate Blocked(c: Cursor) {
    Items(c) != [] && !RestoredMessage(Items(c)[0].record).Encoded?
  }

  lemma PageFindsHistory(b: Box)
    requires |b.replay| <= REPLAY_SLOTS
    ensures Page(b).replay == [] <==> b.replay == [] && (Items(b.cursor) == [] || Blocked(b.cursor))
  {
    var n := PageMovesPrefix(b.cursor, b.replay, REPLAY_SLOTS, PAGE_LIMIT);
    hide PageInto, Items, RestoredRec;
    var items := Items(b.cursor);
    if n > 0 {
      var j := items[0].record;
      assert RestoredMessage(j).Encoded? && Page(b).replay[|b.replay| + 0] == RestoredRec(j);
    }
  }

  lemma StatusFindsHead(b: Box, lim: Limits, released: nat)
    requires Sound(b, lim, released) && ValidLimits(lim) && b.next < MASK64 && (b.count > 0 ==> Live(b) != [])
    ensures !MaterializeStatus(b, lim).1
    ensures var after := MaterializeStatus(b, lim).0;
            after.replay == b.replay && (Live(after) == [] <==> Live(b) == [] && b.latest == [])
  {
    hide Chain, WriteMessage, Merge;
    MaterializeStatusTiles(b, lim, released);
    if Live(b) == [] {
      assert b.durable == [] && b.large == [] by { MergeEmpty(b.durable, b.large); }
    }
  }

  lemma MergeEmpty(d: seq<Rec>, l: seq<Rec>)
    ensures Merge(d, l) == [] <==> d == [] && l == []
  {
  }

  /**
   Whatever the history holds: `peek` returns nothing exactly when no live record, pending
   loss or coalesced STATUS remains and replay has ended or is blocked.
   */
  lemma PeekNothingIff(b: Box, lim: Limits, released: nat)
    requires Sound(b, lim, released) && ValidLimits(lim) && RoomLeft(b) && |b.replay| <= REPLAY_SLOTS
    ensures Peek(b, lim).1 != Failed
    ensures Peek(b, lim).1 == Nothing <==>
              && Live(b) == [] && b.count == 0 && b.latest == [] && b.replay == []
              && (Items(b.cursor) == [] || Blocked(b.cursor))
  {
    hide Chain, Items, WriteTransportDrop, WriteMessage, Merge, PageInto, RestoredMessage, MaterializeStatus;
    MaterializeDropTiles(b, lim, released);
    var announced := MaterializeDrop(b, lim).value;
    MergeEmpty(b.durable, b.large);
    PageFindsHistory(announced);
    PageTiles(announced, lim, released);
    assert announced.latest == b.latest && announced.replay == b.replay && announced.cursor == b.cursor && announced.next == b.next;
    assert Live(Page(announced)) == Live(announced) && Page(announced).count == announced.count && Page(announced).latest == b.latest;
    StatusFindsHead(Page(announced), lim, released);
  }

  /**
   `peek` returns nothing exactly when no live record, pending loss, coalesced STATUS or
   replayable history remains.
   */
  lemma PeekNothingMeansEmpty(b: Box, lim: Limits, released: nat)
    requires Sound(b, lim, released) && ValidLimits(lim) && CleanHistory(b) && RoomLeft(b)
    ensures Peek(b, lim).1 != Failed
    ensures Peek(b, lim).1 == Nothing <==> Work(b) == 0
  {
    PeekKeepsWork(b, lim, released);
    var after := Peek(b, lim).0;
    if Work(after) == 0 {
      assert Live(after) == [] && after.replay == [];
    }
  }

  // ----- One delivery: peek, then ACK what was offered -----

  ghost function Deliver(b: Box, lim: Limits): Box {
    var (after, offer) := Peek(b, lim);
    if offer.Head? then Acknowledge(after, HeaderBoot(offer.rec.data), offer.rec.sequence) else after
  }

  lemma AckOfLiveHead(b: Box, lim: Limits, released: nat)
    requires Sound(b, lim, released) && CleanHistory(b) && Live(b) != []
    ensures var head := NextHead(b).rec;
            && HeaderBoot(head.data) == b.boot
            && var after := Acknowledge(b, b.boot, head.sequence);
               Work(after) == Work(b) - 1 && CleanHistory(after)
  {
    var m, head := Live(b), NextHead(b).rec;
    ReleaseLiveIsAbove(b, head.sequence);
    assert Above(m, head.sequence) == m[1..] by {
      if |m| > 1 {
        ChainAscends(m, b.boot, released, Top(b), 0, 1);
      }
    }
    var r := Release(b, b.boot, head.sequence);
    PageKeepsWork(r.(lastAck := Max(b.lastAck, head.sequence)));
  }

  lemma AckOfReplayHead(b: Box)
    requires CleanHistory(b) && Live(b) == [] && b.replay != []
    ensures var head := b.replay[0];
            var after := Acknowledge(b, HeaderBoot(head.data), head.sequence);
            Work(after) == Work(b) - 1 && CleanHistory(after)
  {
    var head := b.replay[0];
    var r := Release(b, HeaderBoot(head.data), head.sequence);
    assert forall x :: x in r.replay ==> x in b.replay;
    PageKeepsWork(r);
  }

  /** Each delivery removes exactly one message from what is left, and nothing else moves. */
  lemma DeliverMakesProgress(b: Box, lim: Limits, released: nat) returns (frontier: nat)
    requires Sound(b, lim, released) && ValidLimits(lim) && CleanHistory(b) && RoomLeft(b) && Work(b) > 0
    ensures var after := Deliver(b, lim);
            && Work(after) == Work(b) - 1
            && Sound(after, lim, frontier) && CleanHistory(after)
            && after.count <= b.count
            && (if after.next == b.next then after.latest == b.latest || after.latest == []
                else after.next == b.next + 1 && after.latest == [])
            && (b.latest == [] ==> after.latest == [] && after.next == b.next)
    ensures released <= frontier
  {
    PeekKeepsWork(b, lim, released);
    var (ready, offer) := Peek(b, lim);
    var boot, sequence := HeaderBoot(offer.rec.data), offer.rec.sequence;
    frontier := Frontier(ready, released, AckOp(boot, sequence));
    AckTiles(ready, lim, released, boot, sequence);
    FrontierGrows(ready, lim, released, AckOp(boot, sequence));
    ReleaseLiveIsAbove(ready, sequence);
    if Live(ready) != [] {
      AckOfLiveHead(ready, lim, released);
    } else {
      AckOfReplayHead(ready);
    }
  }

  ghost function Drain(b: Box, lim: Limits, n: nat): Box
    decreases n
  {
    if n == 0 then b else Drain(Deliver(b, lim), lim, n - 1)
  }

  /** No new input: after exactly Work(b) deliveries nothing is left. */
  lemma {:induction false} Drains(b: Box, lim: Limits, released: nat)
    requires Sound(b, lim, released) && ValidLimits(lim) && CleanHistory(b) && b.count < MASK32
    requires b.next < (if b.latest == [] then MASK64 - 1 else MASK64 - 2)
    ensures Work(Drain(b, lim, Work(b))) == 0
    decreases Work(b)
  {
    if Work(b) > 0 {
      var frontier := DeliverMakesProgress(b, lim, released);
      Drains(Deliver(b, lim), lim, frontier);
    }
  }

  // ----- The reserved slot -----

  /**
   A pending loss is announced by the very next peek if and only if the durable ring has a
   free slot; with more than one slot, only a loss marker still queued can fill the last.
   */
  lemma LossIsAnnounced(b: Box, lim: Limits, released: nat)
    requires Sound(b, lim, released) && ValidLimits(lim)
    requires b.count > 0 && b.count < MASK32 && b.last < MASK64
    ensures var after := Peek(b, lim).0;
            && after.next == b.next
            && (after.count == 0 <==> |b.durable| < lim.durable)
            && (|b.durable| < lim.durable ==>
                  exists r :: r in after.durable && Span(r.sequence, r.data) == (b.first, b.next - 1))
    ensures lim.durable > 1 && (forall r :: r in b.durable ==> !IsMarker(r)) ==> |b.durable| < lim.durable
  {
    hide WriteTransportDrop, ParseNext, ParseTransportDrop, Span, Chain, Live, PageInto, IsMarker, Merge, WriteMessage;
    MaterializeDropTiles(b, lim, released);
    if |b.durable| < lim.durable {
      DropRoundTrip(FLAG_CRITICAL, b.first, b.boot, b.observedAt, b.first, b.last, b.count, DROP_RAM_QUEUE_FULL);
      var announced := MaterializeDrop(b, lim).value;
      var r := announced.durable[|b.durable|];
      assert r in announced.durable;
      assert !StatusReady(Page(announced));
    }
  }

  // ----- Histories the drain does not reach, and why the conditions are needed -----

  /** A replayed record of the current boot can never be released: no ACK reaches it. */
  lemma OwnBootReplayIsStuck(b: Box, lim: Limits, op: Op)
    requires |b.replay| == REPLAY_SLOTS && HeaderBoot(b.replay[0].data) == b.boot
    ensures Apply(b, lim, op).replay == b.replay
  {
    hide WriteMessage, WriteBmcuFrame, WriteTransportDrop, Merge, AppendQueue, FindKey, ReleaseQueue;
    match op {
      case AckOp(boot, watermark) =>
        ReleaseLiveIsAbove(b, watermark);
        FullRingTakesNothing(Release(b, boot, watermark));
      case PeekOp =>
        var announced := MaterializeDrop(b, lim);
        if announced.Some? {
          FullRingTakesNothing(announced.value);
        }
      case _ =>
    }
  }

  lemma FullRingTakesNothing(b: Box)
    requires |b.replay| >= REPLAY_SLOTS
    ensures Page(b).replay == b.replay
  {
  }

  /** A journal record with an unknown flag bit stops the cursor for good. */
  lemma UnknownFlagIsStuck(c: Cursor, q: seq<Rec>, slots: nat, limit: nat)
    requires c.pending.Some? && c.pending.value.flags > KNOWN_FLAGS
    requires c.pending.value.sequence == Expected(c, c.pending.value)
    ensures PageInto(c, q, slots, limit) == (c, q)
  {
  }

  /** A record of the journal, read back by a new outbox of boot `boot`, alone and unacknowledged. */
  ghost function BoxWithHistory(boot: u64, j: JournalRecord): Box {
    NewBox(boot, Open([j], map[]))
  }

  lemma OpensOne(j: JournalRecord)
    requires j.sequence > 0
    ensures Items(Open([j], map[])) == [Item(j, j.sequence, j.sequence)]
  {
    var none: map<nat, nat> := map[];
    var records, r := [j], BootRange(j.boot, j.sequence, j.sequence);
    assert records[..0] == [] && ScanRanges([], none) == [];
    assert ScanRanges(records, none) == [r] == LastRanges([r]);
    assert [r][1..] == [] && StartMap([r], none) == map[j.boot := j.sequence];
    assert records[1..] == [] && Unacked([], none, {j.boot}) == [];
    var c := Open(records, none);
    assert c.next.Keys == {j.boot} && c.remaining == [j];
    var p := Cursor(Some(j), [], c.next);
    assert [j][1..] == [] && Settle(c) == p;
    ItemsStep(c);
    ItemsStep(AfterEmit(p));
  }

  /** One journal record with a reserved flag bit, and the outbox never drains. */
  lemma ReservedFlagStalls(boot: u64, lim: Limits, n: nat)
    requires ValidLimits(lim) && boot != 7
    ensures Work(Drain(BoxWithHistory(boot, JournalRecord(7, BMCU_FRAME, 0x20, 0, 1, 0, [])), lim, n)) > 0
  {
    var j := JournalRecord(7, BMCU_FRAME, 0x20, 0, 1, 0, []);
    OpensOne(j);
    var b := BoxWithHistory(boot, j);
    assert Item(j, 1, 1) in Items(b.cursor) && !Replayable(j, boot);
    UncleanNeverDrains(b, lim, n);
  }

  /**
   One intact record under the boot number the outbox itself runs with.  The cursor opens
   before this boot writes its journal, so such a record comes from an earlier run with the
   same number: after both boot files were lost, the number is drawn at random.
   */
  lemma ReusedBootStalls(boot: u64, lim: Limits, n: nat)
    requires ValidLimits(lim)
    ensures Work(Drain(BoxWithHistory(boot, JournalRecord(boot, BMCU_FRAME, 0, 0, 1, 0, [])), lim, n)) > 0
  {
    var j := JournalRecord(boot, BMCU_FRAME, 0, 0, 1, 0, []);
    OpensOne(j);
    var b := BoxWithHistory(boot, j);
    assert Item(j, 1, 1) in Items(b.cursor) && !Replayable(j, boot);
    UncleanNeverDrains(b, lim, n);
  }

  /** Paging never cleans a history. */
  lemma PageStaysUnclean(b: Box)
    requires |b.replay| <= REPLAY_SLOTS && !CleanHistory(b)
    ensures |Page(b).replay| <= REPLAY_SLOTS && !CleanHistory(Page(b))
  {
    var n := PageMovesPrefix(b.cursor, b.replay, REPLAY_SLOTS, PAGE_LIMIT);
    PageCapacity(b.cursor, b.replay, REPLAY_SLOTS, PAGE_LIMIT);
    hide PageInto, Items, RestoredRec, HeaderBoot;
    var items, after := Items(b.cursor), Page(b);
    if r :| r in b.replay && HeaderBoot(r.data) == b.boot {
      var k :| 0 <= k < |b.replay| && b.replay[k] == r;
      assert after.replay[k] == after.replay[..|b.replay|][k] == r;
    } else {
      var i :| i in items && !Replayable(i.record, b.boot);
      var k :| 0 <= k < |items| && items[k] == i;
      if k >= n {
        assert items[n..][k - n] == i;
      } else {
        EncodedBoot(i.record);
        assert after.replay[|b.replay| + k] == RestoredRec(i.record);
      }
    }
  }

  lemma EncodedBoot(j: JournalRecord)
    requires RestoredMessage(j).Encoded?
    ensures HeaderBoot(RestoredRec(j).data) == j.boot && j.flags <= KNOWN_FLAGS && |j.payload| <= MAX_PAYLOAD_SIZE
  {
    EncodedFacts(j.kind, WithReplayFlag(j.flags), j.sequence, j.boot, j.link, j.payload);
  }

  /** No ACK removes a record of the current boot from the replay slot. */
  lemma ReleaseStaysUnclean(b: Box, boot: nat, watermark: nat)
    requires |b.replay| <= REPLAY_SLOTS && !CleanHistory(b)
    ensures var r := Release(b, boot, watermark); |r.replay| <= REPLAY_SLOTS && r.boot == b.boot && !CleanHistory(r)
  {
    ReleaseLiveIsAbove(b, watermark);
    hide ReleaseLive, Items, HeaderBoot, Replayable;
  }

  lemma PeekStaysUnclean(b: Box, lim: Limits)
    requires |b.replay| <= REPLAY_SLOTS && !CleanHistory(b)
    ensures var r := Peek(b, lim).0; |r.replay| <= REPLAY_SLOTS && r.boot == b.boot && !CleanHistory(r)
  {
    hide Items, HeaderBoot, Replayable, WriteTransportDrop, WriteMessage, ReleaseQueue, PageInto, Merge;
    var announced := MaterializeDrop(b, lim);
    if announced.Some? {
      assert announced.value.replay == b.replay && announced.value.cursor == b.cursor && announced.value.boot == b.boot;
      assert !CleanHistory(announced.value);
      PageStaysUnclean(announced.value);
    }
  }

  lemma DeliverStaysUnclean(b: Box, lim: Limits)
    requires |b.replay| <= REPLAY_SLOTS && !CleanHistory(b)
    ensures |Deliver(b, lim).replay| <= REPLAY_SLOTS && !CleanHistory(Deliver(b, lim))
  {
    hide Peek, Release, PageInto, Items, HeaderBoot, Replayable;
    PeekStaysUnclean(b, lim);
    var (after, offer) := Peek(b, lim);
    if offer.Head? {
      var boot, watermark := HeaderBoot(offer.rec.data), offer.rec.sequence;
      ReleaseStaysUnclean(after, boot, watermark);
      var r := Release(after, boot, watermark);
      var noted := if boot == after.boot then r.(lastAck := Max(after.lastAck, watermark)) else r;
      assert !CleanHistory(noted);
      PageStaysUnclean(noted);
    }
  }

  lemma UncleanHasWork(b: Box)
    requires |b.replay| <= REPLAY_SLOTS && !CleanHistory(b)
    ensures Work(b) > 0
  {
  }

  lemma {:induction false} UncleanNeverDrains(b: Box, lim: Limits, n: nat)
    requires |b.replay| <= REPLAY_SLOTS && !CleanHistory(b)
    ensures Work(Drain(b, lim, n)) > 0
    decreases n
  {
    hide Work, CleanHistory, Deliver;
    if n == 0 {
      UncleanHasWork(b);
    } else {
      DeliverStaysUnclean(b, lim);
      UncleanNeverDrains(Deliver(b, lim), lim, n - 1);
    }
  }

  /** Repeating peek and ACK drains everything if and only if the history is clean. */
  lemma DrainsIffClean(b: Box, lim: Limits, released: nat)
    requires Sound(b, lim, released) && ValidLimits(lim) && |b.replay| <= REPLAY_SLOTS && b.count < MASK32
    requires b.next < (if b.latest == [] then MASK64 - 1 else MASK64 - 2)
    ensures (exists n: nat :: Work(Drain(b, lim, n)) == 0) <==> CleanHistory(b)
  {
    hide Work, CleanHistory, Deliver, Sound, Drain;
    if CleanHistory(b) {
      Drains(b, lim, released);
    } else {
      forall n: nat
        ensures Work(Drain(b, lim, n)) > 0
      {
        UncleanNeverDrains(b, lim, n);
      }
    }
  }
}
