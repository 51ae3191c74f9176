/**
 What the peer reads: every message the outbox ever offers, live or replayed, parses to the
 content of a call or of a journal record, and a parked STATUS is the newest of its link.
 */
module OutboxContent {
  import opened Options
  import opened Bytes
  import opened Bmb1Codec
  import opened ByteRings
  import opened Replay
  import opened OutboxModel
  import opened OutboxTiling
  import opened OutboxJournal

  /** The message says what the call was asked to tell the peer; a peek tells of a loss. */
  predicate Says(op: Op, m: Message) {
    match op
    case Raw(link, at, wire, kind) =>
      && m.kind == BMCU_FRAME && m.link as int == link && m.flags == (if kind == EVENT_KIND then 2 else 0)
      && ParseBmcuFrame(m) == Some(Frame(at, wire))
    case State(link, at, state, reason) =>
      && m.kind == LINK_STATE && m.link as int == link && m.flags == (if state in {4, 5} then 2 else 0)
      && ParseLinkState(m) == Some(LinkState(at, state, reason))
    case Payload(recordType, flags, link, _, payload, _) =>
      m.kind == recordType && m.link as int == link && m.flags == flags && m.payload == payload
    case PeekOp =>
      var drop := ParseTransportDrop(m);
      m.link == 0xFF && m.flags == 2 && drop.Some? && drop.value.first == m.sequence && drop.value.reason == 1
    case AckOp(_, _) => false
  }

  /** The record is one whole message of this boot under the record's own number, with known flags. */
  predicate IsMessage(r: Rec, boot: nat) {
    var p := ParseNext(r.data);
    p.Parsed? && p.size == |r.data| && p.message.sequence == r.sequence && p.message.boot == boot && p.message.flags <= 0x1F
  }

  predicate SaidBy(r: Rec, op: Op) { ParseNext(r.data).Parsed? && Says(op, ParseNext(r.data).message) }

  /** The record says what a call was asked to say. */
  ghost predicate Genuine(boot: nat, past: seq<Op>, r: Rec) {
    IsMessage(r, boot) && exists k :: 0 <= k < |past| && SaidBy(r, past[k])
  }

  // ----- Coalesced STATUS: the newest of each link -----

  /** A STATUS of this link that is short enough to be parked. */
  predicate IsStatus(op: Op, link: int) {
    op.Raw? && op.kind == STATUS_KIND && op.link == link && |op.wire| + 10 <= STATUS_SLOT_SIZE
  }

  /** The k-th call is the newest STATUS of this link. */
  ghost predicate NewestStatus(past: seq<Op>, k: nat, link: int) {
    k < |past| && IsStatus(past[k], link) && forall j :: k < j < |past| ==> !IsStatus(past[j], link)
  }

  /** As the payload of a frame, the bytes read as the time and the wire of this call. */
  predicate CarriesStatus(bytes: seq<byte>, op: Op) {
    op.Raw? && ParseBmcuFrame(Message(BMCU_FRAME, 0, 0, 0, 0, bytes)) == Some(Frame(op.at, op.wire))
  }

  /** The parked payload reads as the newest STATUS of its link. */
  ghost predicate ParkedNewest(past: seq<Op>, r: Rec) {
    0 <= r.key <= 0xFF && r.sequence == 0 && exists k: nat :: NewestStatus(past, k, r.key) && CarriesStatus(r.data, past[k])
  }

  /** The snapshot's message reads as the newest STATUS of its link. */
  ghost predicate SnapshotNewest(boot: nat, past: seq<Op>, r: Rec) {
    && IsMessage(r, boot) && r.sequence == 0
    && exists k: nat :: NewestStatus(past, k, r.key) && SaidBy(r, past[k])
  }

  // ----- Replayed history -----

  /** The record reads as the journal record with the REPLAY flag, and nothing else changed. */
  predicate ReadsBack(r: Rec, j: JournalRecord) {
    && IsMessage(r, j.boot) && r.sequence == j.sequence && r.guarded
    && var m := ParseNext(r.data).message;
       && m.kind == j.kind && m.link == j.link && m.payload == j.payload
       && m.flags % 2 == 1 && m.flags / 2 == j.flags / 2
  }

  ghost predicate Historical(history: seq<Item>, r: Rec) { exists i :: i in history && ReadsBack(r, i.record) }

  /** Whatever `restore` stores reads back so; it stores exactly what the codec takes. */
  lemma RestoredReads(j: JournalRecord)
    ensures RestoredMessage(j).Encoded? <==> j.flags <= 0x1F && |j.payload| <= 4096
    ensures RestoredMessage(j).Encoded? ==> ReadsBack(RestoredRec(j), j)
  {
    hide ParseNext, Encode;
    if RestoredMessage(j).Encoded? {
      WrittenReads(j.kind, WithReplayFlag(j.flags), j.sequence, j.boot, j.link, j.payload);
    }
  }

  /** The record reads as the other message with the REPLAY flag set. */
  predicate ReadsAgain(again: Rec, r: Rec) {
    && IsMessage(again, HeaderBoot(r.data)) && ParseNext(r.data).Parsed?
    && var m, n := ParseNext(r.data).message, ParseNext(again.data).message;
       && n.kind == m.kind && n.sequence == m.sequence && n.boot == m.boot && n.link == m.link && n.payload == m.payload
       && n.flags % 2 == 1 && n.flags / 2 == m.flags / 2
  }

  /** A page adds only records that read as the items that were next, in their order. */
  lemma PagedRecordsRead(c: Cursor, q: seq<Rec>, slots: nat, limit: nat) returns (n: nat)
    ensures var (c', q') := PageInto(c, q, slots, limit);
            && n <= |Items(c)| && Items(c') == Items(c)[n..] && |q'| == |q| + n && q'[..|q|] == q
            && forall k :: 0 <= k < n ==> ReadsBack(q'[|q| + k], Items(c)[k].record)
  {
    n := PageMovesPrefix(c, q, slots, limit);
    hide Items, PageInto, RestoredRec, ReadsBack;
    var q' := PageInto(c, q, slots, limit).1;
    forall k | 0 <= k < n
      ensures ReadsBack(q'[|q| + k], Items(c)[k].record)
    {
      RestoredReads(Items(c)[k].record);
    }
  }

  // ----- One call leaves the rest as it was -----

  lemma StillGenuine(boot: nat, past: seq<Op>, op: Op, r: Rec)
    requires Genuine(boot, past, r)
    ensures Genuine(boot, past + [op], r)
  {
    hide IsMessage, SaidBy;
    var k :| 0 <= k < |past| && SaidBy(r, past[k]);
    assert (past + [op])[k] == past[k];
  }

  lemma StillNewest(past: seq<Op>, op: Op, k: nat, link: int)
    requires NewestStatus(past, k, link) && !IsStatus(op, link)
    ensures NewestStatus(past + [op], k, link) && (past + [op])[k] == past[k]
  {
  }

  lemma StillParked(past: seq<Op>, op: Op, r: Rec)
    requires ParkedNewest(past, r) && !IsStatus(op, r.key)
    ensures ParkedNewest(past + [op], r)
  {
    hide IsStatus, CarriesStatus;
    var k: nat :| NewestStatus(past, k, r.key) && CarriesStatus(r.data, past[k]);
    StillNewest(past, op, k, r.key);
  }

  lemma StillSnapshot(boot: nat, past: seq<Op>, op: Op, r: Rec)
    requires SnapshotNewest(boot, past, r) && !IsStatus(op, r.key)
    ensures SnapshotNewest(boot, past + [op], r)
  {
    hide IsStatus, IsMessage, SaidBy;
    var k: nat :| NewestStatus(past, k, r.key) && SaidBy(r, past[k]);
    StillNewest(past, op, k, r.key);
  }

  lemma WrittenIsSaid(op: Op, kind: byte, flags: nat, sequence: nat, boot: nat, link: int, payload: seq<byte>, isGuarded: bool, key: int)
    requires WriteMessage(kind, flags, sequence, boot, link, payload).Encoded?
    requires Says(op, Message(kind, flags, sequence, boot, link, payload))
    ensures var r := Rec(sequence, WriteMessage(kind, flags, sequence, boot, link, payload).bytes, isGuarded, key);
            IsMessage(r, boot) && SaidBy(r, op)
  {
    hide Says, ParseNext;
    WrittenReads(kind, flags, sequence, boot, link, payload);
  }

  lemma NowGenuine(boot: nat, past: seq<Op>, op: Op, r: Rec)
    requires IsMessage(r, boot) && SaidBy(r, op)
    ensures Genuine(boot, past + [op], r)
  {
    hide IsMessage, SaidBy;
    assert (past + [op])[|past|] == op;
  }

  // ----- One call -----

  /** What a producer adds to the rings says what it was asked to say. */
  lemma AdmitSays(b: Box, lim: Limits, op: Op, kind: byte, flags: nat, link: int, payload: seq<byte>,
                  at: u64, isGuarded: bool, drops: bool, r: Rec)
    requires var after := Admit(b, lim, WriteMessage(kind, flags, b.next, b.boot, link, payload), at, isGuarded, drops).0;
             Queued(after, r) && !Queued(b, r)
    requires WriteMessage(kind, flags, b.next, b.boot, link, payload).Encoded? ==>
               Says(op, Message(kind, flags, b.next, b.boot, link, payload))
    ensures IsMessage(r, b.boot) && SaidBy(r, op) && r.guarded == isGuarded
  {
    hide Says, Encode, IsMessage, SaidBy;
    if WriteMessage(kind, flags, b.next, b.boot, link, payload).Encoded? {
      WrittenIsSaid(op, kind, flags, b.next, b.boot, link, payload, isGuarded, -1);
    }
  }

  lemma RawSays(b: Box, lim: Limits, link: int, at: u64, wire: seq<byte>, kind: nat, r: Rec)
    requires Queued(EnqueueRaw(b, lim, link, at, wire, kind).0, r) && !Queued(b, r)
    ensures IsMessage(r, b.boot) && SaidBy(r, Raw(link, at, wire, kind)) && kind != STATUS_KIND && r.guarded == (kind == EVENT_KIND)
  {
    hide Admit, WriteMessage, AppendQueue, AppendOutcome, IsMessage, SaidBy, Queued, BE, FromBE;
    hide WriteBmcuFrame;
    if kind == STATUS_KIND {
      StatusKeepsRings(b, lim, link, at, wire, r);
    } else if b.count == 0 {
      var flags := if kind == EVENT_KIND then FLAG_CRITICAL else 0;
      FrameWrites(flags, b.next, b.boot, link, at, wire);
      if |wire| + 10 <= MAX_PAYLOAD_SIZE {
        FrameFields(at, wire);
        AdmitSays(b, lim, Raw(link, at, wire, kind), BMCU_FRAME, flags, link, BE(at, 8) + BE(|wire|, 2) + wire,
                  at, kind == EVENT_KIND, false, r);
      } else {
        NothingAdmitted(b, lim, at, kind == EVENT_KIND, false, r);
      }
    } else {
      ReserveKeepsRings(b, at, r);
    }
  }

  lemma FrameWrites(flags: nat, sequence: nat, boot: nat, link: int, at: u64, wire: seq<byte>)
    ensures |wire| + 10 > MAX_PAYLOAD_SIZE ==> WriteBmcuFrame(flags, sequence, boot, link, at, wire) == CodecError
    ensures |wire| + 10 <= MAX_PAYLOAD_SIZE ==>
              && at < Pow256(8) && |wire| < Pow256(2)
              && WriteBmcuFrame(flags, sequence, boot, link, at, wire) ==
                 WriteMessage(BMCU_FRAME, flags, sequence, boot, link, BE(at, 8) + BE(|wire|, 2) + wire)
  {
    FieldWidths();
    hide BE, WriteMessage;
  }

  lemma StatusKeepsRings(b: Box, lim: Limits, link: int, at: u64, wire: seq<byte>, r: Rec)
    ensures Queued(EnqueueStatus(b, lim, link, at, wire).0, r) <==> Queued(b, r)
  {
    hide AppendQueue, AppendOutcome, WriteBmcuFrame, StatusRec;
  }

  lemma ReserveKeepsRings(b: Box, at: u64, r: Rec)
    ensures Queued(ReserveDrop(b, at), r) <==> Queued(b, r)
  {
  }

  lemma NothingAdmitted(b: Box, lim: Limits, at: u64, isGuarded: bool, drops: bool, r: Rec)
    ensures Queued(Admit(b, lim, CodecError, at, isGuarded, drops).0, r) <==> Queued(b, r)
  {
  }

  lemma StateSays(b: Box, lim: Limits, link: int, at: u64, state: byte, reason: byte, r: Rec)
    requires Queued(EnqueueLinkState(b, lim, link, at, state, reason).0, r) && !Queued(b, r)
    ensures IsMessage(r, b.boot) && SaidBy(r, State(link, at, state, reason)) && r.guarded
  {
    hide Admit, WriteMessage, IsMessage, SaidBy, Queued, LinkStatePayload, ParseLinkState;
    if b.count == 0 {
      var flags := if state == LINK_OFFLINE || state == LINK_INCOMPATIBLE then FLAG_CRITICAL else 0;
      var payload, op := LinkStatePayload(at, state, reason), State(link, at, state, reason);
      if 0 <= link <= 0xFF {
        LinkStateReads(Message(LINK_STATE, flags, b.next, b.boot, link, payload), at, state, reason);
      }
      LinkInRange(LINK_STATE, flags, b.next, b.boot, link, payload);
      AdmitSays(b, lim, op, LINK_STATE, flags, link, payload, at, true, false, r);
    } else {
      ReserveKeepsRings(b, at, r);
    }
  }

  lemma LinkInRange(kind: byte, flags: nat, sequence: nat, boot: nat, link: int, payload: seq<byte>)
    ensures WriteMessage(kind, flags, sequence, boot, link, payload).Encoded? ==> 0 <= link <= 0xFF
  {
    hide Encode;
  }

  lemma PayloadSays(b: Box, lim: Limits, kind: byte, flags: nat, link: int, at: u64, payload: seq<byte>, kept: bool, r: Rec)
    requires Queued(EnqueuePayload(b, lim, kind, flags, link, at, payload).0, r) && !Queued(b, r)
    ensures IsMessage(r, b.boot) && SaidBy(r, Payload(kind, flags, link, at, payload, kept)) && r.guarded == (flags / 2 % 2 == 1)
  {
    hide Admit, WriteMessage, IsMessage, SaidBy, Queued;
    if b.count == 0 {
      LinkInRange(kind, flags, b.next, b.boot, link, payload);
      AdmitSays(b, lim, Payload(kind, flags, link, at, payload, kept), kind, flags, link, payload, at, (flags / 2) % 2 == 1, true, r);
    } else {
      ReserveKeepsRings(b, at, r);
    }
  }

  /** The marker a peek stores tells of exactly the pending loss, at the time of its latest. */
  lemma DropSays(b: Box, lim: Limits, r: Rec)
    requires MaterializeDrop(b, lim).Some? && Queued(MaterializeDrop(b, lim).value, r) && !Queued(b, r)
    ensures IsMessage(r, b.boot) && SaidBy(r, PeekOp) && r.guarded
    ensures ParseTransportDrop(ParseNext(r.data).message) == Some(Drop(b.observedAt, b.first, b.last, b.count, 1))
  {
    hide Encode, DropPayload, ParseNext, ParseTransportDrop, Span;
    DropRoundTrip(FLAG_CRITICAL, b.first, b.boot, b.observedAt, b.first, b.last, b.count, DROP_RAM_QUEUE_FULL);
    var payload := DropPayload(b.observedAt, b.first, b.last, b.count, DROP_RAM_QUEUE_FULL);
    WrittenReads(TRANSPORT_DROP, FLAG_CRITICAL, b.first, b.boot, GLOBAL_SCOPE as int, payload);
  }

  /** The STATUS that a peek numbers says what the newest call for its link said. */
  lemma StatusSays(b: Box, lim: Limits, past: seq<Op>, r: Rec)
    requires Queued(MaterializeStatus(b, lim).0, r) && !Queued(b, r)
    requires forall x :: x in b.latest ==> ParkedNewest(past, x)
    ensures b.latest != [] && IsMessage(r, b.boot)
    ensures exists k: nat :: k < |past| && NewestStatus(past, k, b.latest[0].key) && SaidBy(r, past[k])
  {
    assert StatusReady(b);
    var parked := b.latest[0];
    assert parked in b.latest;
    hide Fits;
    hide NewestStatus, CarriesStatus, ParseNext, IsMessage, SaidBy, Encode, WriteMessage;
    var k: nat :| NewestStatus(past, k, parked.key) && CarriesStatus(parked.data, past[k]);
    ParkedSays(b.next, b.boot, past, k, parked);
    WrittenIsSaid(past[k], BMCU_FRAME, 0, b.next, b.boot, parked.key, parked.data, false, -1);
  }

  lemma ParkedSays(sequence: nat, boot: nat, past: seq<Op>, k: nat, parked: Rec)
    requires NewestStatus(past, k, parked.key) && CarriesStatus(parked.data, past[k]) && 0 <= parked.key <= 0xFF
    ensures Says(past[k], Message(BMCU_FRAME, 0, sequence, boot, parked.key, parked.data))
  {
    hide FromBE;
  }

  /** Every record in the rings after a call was there before, or says what this call or the newest STATUS asked for. */
  lemma QueuedStep(boot: nat, past: seq<Op>, b: Box, lim: Limits, op: Op, r: Rec)
    requires b.boot == boot && (forall x :: Queued(b, x) ==> Genuine(boot, past, x))
    requires forall x :: x in b.latest ==> ParkedNewest(past, x)
    requires Queued(Apply(b, lim, op), r)
    ensures Genuine(boot, past + [op], r)
  {
    hide Genuine, ParkedNewest, EnqueueRaw, EnqueueLinkState, EnqueuePayload, MaterializeDrop, PageInto, MaterializeStatus, ReleaseLive;
    hide IsMessage, SaidBy, NewestStatus;
    if Queued(b, r) {
      StillGenuine(boot, past, op, r);
    } else {
      match op {
        case Raw(link, at, wire, kind) => RawSays(b, lim, link, at, wire, kind, r); NowGenuine(boot, past, op, r);
        case State(link, at, state, reason) => StateSays(b, lim, link, at, state, reason, r); NowGenuine(boot, past, op, r);
        case Payload(kind, flags, link, at, payload, kept) =>
          PayloadSays(b, lim, kind, flags, link, at, payload, kept, r);
          NowGenuine(boot, past, op, r);
        case PeekOp =>
          var announced := MaterializeDrop(b, lim).value;
          DropKeeps(b, lim);
          if Queued(announced, r) {
            DropSays(b, lim, r);
            NowGenuine(boot, past, op, r);
          } else {
            StatusSays(Page(announced), lim, past, r);
            var k: nat :| k < |past| && NewestStatus(past, k, b.latest[0].key) && SaidBy(r, past[k]);
            GenuineAt(boot, past, k, r);
            StillGenuine(boot, past, op, r);
          }
        case AckOp(ackBoot, watermark) =>
          if ackBoot == b.boot {
            ReleaseTakesOnly(b, watermark, r);
          }
      }
    }
  }

  lemma GenuineAt(boot: nat, past: seq<Op>, k: nat, r: Rec)
    requires IsMessage(r, boot) && k < |past| && SaidBy(r, past[k])
    ensures Genuine(boot, past, r)
  {
  }

  lemma DropKeeps(b: Box, lim: Limits)
    ensures MaterializeDrop(b, lim).Some? ==>
              var after := MaterializeDrop(b, lim).value;
              && after.latest == b.latest && after.current == b.current && after.replay == b.replay
              && after.cursor == b.cursor && after.boot == b.boot
  {
    hide WriteTransportDrop;
  }

  // ----- The coalesced queues -----

  /** Storing the STATUS of a link leaves it as the newest, and the other links theirs. */
  lemma ParkingStep(past: seq<Op>, q: seq<Rec>, slots: nat, op: Op, r: Rec)
    requires DistinctKeys(q) && forall x :: x in q ==> ParkedNewest(past, x)
    requires IsStatus(op, r.key) && 0 <= r.key <= 0xFF && r.sequence == 0 && CarriesStatus(r.data, op)
    requires AppendOutcome(q, slots, STATUS_SLOT_SIZE, r) != TooLarge
    ensures var q' := AppendQueue(q, slots, STATUS_SLOT_SIZE, r);
            DistinctKeys(q') && forall x :: x in q' ==> ParkedNewest(past + [op], x)
  {
    hide CarriesStatus;
    var q' := AppendQueue(q, slots, STATUS_SLOT_SIZE, r);
    AppendKeepsKeysDistinct(q, slots, STATUS_SLOT_SIZE, r);
    if AppendOutcome(q, slots, STATUS_SLOT_SIZE, r) != Full {
      LatestPerKey(q, slots, STATUS_SLOT_SIZE, r);
    }
    hide DistinctKeys, AppendQueue;
    forall x | x in q'
      ensures ParkedNewest(past + [op], x)
    {
      if x == r {
        assert NewestStatus(past + [op], |past|, r.key) && (past + [op])[|past|] == op;
      } else {
        assert x in q && x.key != r.key;
        StillParked(past, op, x);
      }
    }
  }

  lemma SnapshotStep(boot: nat, past: seq<Op>, q: seq<Rec>, slots: nat, op: Op, r: Rec)
    requires DistinctKeys(q) && forall x :: x in q ==> SnapshotNewest(boot, past, x)
    requires IsStatus(op, r.key) && r.key >= 0 && r.sequence == 0 && IsMessage(r, boot) && SaidBy(r, op)
    requires AppendOutcome(q, slots, DELIVERY_SLOT_SIZE, r) != TooLarge
    ensures var q' := AppendQueue(q, slots, DELIVERY_SLOT_SIZE, r);
            DistinctKeys(q') && forall x :: x in q' ==> SnapshotNewest(boot, past + [op], x)
  {
    hide IsMessage, SaidBy;
    var q' := AppendQueue(q, slots, DELIVERY_SLOT_SIZE, r);
    AppendKeepsKeysDistinct(q, slots, DELIVERY_SLOT_SIZE, r);
    if AppendOutcome(q, slots, DELIVERY_SLOT_SIZE, r) != Full {
      LatestPerKey(q, slots, DELIVERY_SLOT_SIZE, r);
    }
    hide DistinctKeys, AppendQueue;
    forall x | x in q'
      ensures SnapshotNewest(boot, past + [op], x)
    {
      if x == r {
        assert NewestStatus(past + [op], |past|, r.key) && (past + [op])[|past|] == op;
      } else {
        assert x in q && x.key != r.key;
        StillSnapshot(boot, past, op, x);
      }
    }
  }

  lemma StatusFits(b: Box, link: int, at: u64, wire: seq<byte>)
    requires |wire| + 10 <= STATUS_SLOT_SIZE && 0 <= link <= 0xFF
    ensures var op, r := Raw(link, at, wire, STATUS_KIND), StatusRec(link, at, wire);
            IsStatus(op, link) && r.key == link && r.sequence == 0 && |r.data| <= STATUS_SLOT_SIZE && CarriesStatus(r.data, op)
    ensures var frame := WriteBmcuFrame(0, 0, b.boot, link, at, wire);
            && frame.Encoded? && |frame.bytes| <= DELIVERY_SLOT_SIZE
            && IsMessage(Rec(0, frame.bytes, false, link), b.boot)
            && SaidBy(Rec(0, frame.bytes, false, link), Raw(link, at, wire, STATUS_KIND))
  {
    FrameFields(at, wire);
    FieldWidths();
    hide BE, FromBE, ParseNext, Encode;
    FrameRoundTrip(0, 0, b.boot, link, at, wire);
  }

  /** The queue keeps what the call does not touch. */
  lemma UntouchedParked(past: seq<Op>, op: Op, q: seq<Rec>)
    requires (forall x :: x in q ==> ParkedNewest(past, x)) && forall x :: x in q ==> !IsStatus(op, x.key)
    ensures forall x :: x in q ==> ParkedNewest(past + [op], x)
  {
    hide ParkedNewest, IsStatus;
    forall x | x in q
      ensures ParkedNewest(past + [op], x)
    {
      StillParked(past, op, x);
    }
  }

  lemma UntouchedSnapshot(boot: nat, past: seq<Op>, op: Op, q: seq<Rec>)
    requires (forall x :: x in q ==> SnapshotNewest(boot, past, x)) && forall x :: x in q ==> !IsStatus(op, x.key)
    ensures forall x :: x in q ==> SnapshotNewest(boot, past + [op], x)
  {
    hide SnapshotNewest, IsStatus;
    forall x | x in q
      ensures SnapshotNewest(boot, past + [op], x)
    {
      StillSnapshot(boot, past, op, x);
    }
  }

  // ----- Room for every link -----

  ghost function Keys(q: seq<Rec>): set<int> {
    if q == [] then {} else Keys(q[1..]) + {q[0].key}
  }

  lemma {:induction false} KeysCount(q: seq<Rec>)
    requires DistinctKeys(q) && forall x :: x in q ==> x.key >= 0
    ensures |Keys(q)| == |q| && forall k :: k in Keys(q) ==> exists x :: x in q && x.key == k
    decreases q
  {
    if q != [] {
      assert q == [q[0]] + q[1..];
      assert DistinctKeys(q[1..]);
      KeysCount(q[1..]);
    }
  }

  ghost function Below(n: nat): (s: set<int>)
    ensures |s| == n && forall k :: k in s <==> 0 <= k < n
  {
    if n == 0 then {} else Below(n - 1) + {n - 1}
  }

  lemma SubsetCount(a: set<int>, b: set<int>)
    requires a <= b
    ensures |a| <= |b|
  {
    assert b == a + (b - a);
  }

  /** A link that is not yet queued still finds a slot. */
  lemma LinkHasRoom(q: seq<Rec>, links: nat, link: nat)
    requires DistinctKeys(q) && (forall x :: x in q ==> 0 <= x.key < links) && link < links
    ensures |q| < links || exists x :: x in q && x.key == link
  {
    KeysCount(q);
    if forall x :: x in q ==> x.key != link {
      assert Keys(q) <= Below(links) - {link as int};
      SubsetCount(Keys(q), Below(links) - {link as int});
    }
  }

  ghost predicate OfLinks(q: seq<Rec>, links: nat) { DistinctKeys(q) && forall r :: r in q ==> 0 <= r.key < links }

  /** The two coalesced queues hold the newest STATUS of each of their links. */
  ghost predicate Coalesced(past: seq<Op>, b: Box, links: nat) {
    && OfLinks(b.latest, links) && OfLinks(b.current, links)
    && (forall r :: r in b.latest ==> ParkedNewest(past, r))
    && (forall r :: r in b.current ==> SnapshotNewest(b.boot, past, r))
  }

  lemma AppendOfLinks(q: seq<Rec>, links: nat, slotSize: nat, r: Rec)
    requires OfLinks(q, links) && 0 <= r.key < links
    ensures OfLinks(AppendQueue(q, links, slotSize, r), links)
    ensures |r.data| <= slotSize ==> AppendOutcome(q, links, slotSize, r) in {Appended, Replaced}
  {
    AppendKeepsKeysDistinct(q, links, slotSize, r);
    LinkHasRoom(q, links, r.key);
  }

  lemma StatusStep(past: seq<Op>, b: Box, lim: Limits, link: int, at: u64, wire: seq<byte>)
    requires Coalesced(past, b, lim.links) && 0 <= link < lim.links && link <= 0xFF
    ensures Coalesced(past + [Raw(link, at, wire, STATUS_KIND)], EnqueueStatus(b, lim, link, at, wire).0, lim.links)
    ensures EnqueueStatus(b, lim, link, at, wire).1 == Done(0)
  {
    var op := Raw(link, at, wire, STATUS_KIND);
    if |wire| + 10 > STATUS_SLOT_SIZE {
      UntouchedParked(past, op, b.latest);
      UntouchedSnapshot(b.boot, past, op, b.current);
    } else {
      StatusFits(b, link, at, wire);
      var r, c := StatusRec(link, at, wire), Rec(0, WriteBmcuFrame(0, 0, b.boot, link, at, wire).bytes, false, link);
      hide WriteBmcuFrame, StatusRec, ParkedNewest, SnapshotNewest, IsMessage, SaidBy, CarriesStatus, AppendQueue, AppendOutcome;
      AppendOfLinks(b.latest, lim.links, STATUS_SLOT_SIZE, r);
      AppendOfLinks(b.current, lim.links, DELIVERY_SLOT_SIZE, c);
      ParkingStep(past, b.latest, lim.links, op, r);
      SnapshotStep(b.boot, past, b.current, lim.links, op, c);
    }
  }

  /** A STATUS comes from one of the links the outbox was made for. */
  predicate FromLink(op: Op, links: nat) {
    op.Raw? && op.kind == STATUS_KIND ==> 0 <= op.link < links && op.link <= 0xFF
  }

  lemma QueuesAfter(b: Box, lim: Limits, op: Op)
    requires !(op.Raw? && op.kind == STATUS_KIND)
    ensures var after := Apply(b, lim, op);
            && after.boot == b.boot && after.current == b.current
            && (after.latest == b.latest || (op.PeekOp? && after.latest == ReleaseQueue(b.latest, 0)))
  {
    hide WriteMessage, WriteBmcuFrame, PageInto, ReleaseQueue, Merge, Fits;
    match op {
      case PeekOp => DropKeeps(b, lim);
      case AckOp(boot, watermark) => ReleaseLiveIsAbove(b, watermark);
      case _ =>
    }
  }

  lemma ReleasedOfLinks(q: seq<Rec>, links: nat)
    requires OfLinks(q, links)
    ensures var rest := ReleaseQueue(q, 0); OfLinks(rest, links) && forall x :: x in rest ==> x in q
  {
    ReleasesPrefix(q, 0);
  }

  lemma CoalescedStep(past: seq<Op>, b: Box, lim: Limits, op: Op)
    requires Coalesced(past, b, lim.links) && FromLink(op, lim.links)
    ensures Coalesced(past + [op], Apply(b, lim, op), lim.links)
  {
    if op.Raw? && op.kind == STATUS_KIND {
      StatusStep(past, b, lim, op.link, op.at, op.wire);
    } else {
      QueuesAfter(b, lim, op);
      ReleasedOfLinks(b.latest, lim.links);
      UntouchedParked(past, op, b.latest);
      UntouchedSnapshot(b.boot, past, op, b.current);
      hide Apply, ParkedNewest, SnapshotNewest, OfLinks, ReleaseQueue;
    }
  }

  // ----- Replay -----

  /** What the replay slot holds, and what is still to come, is history. */
  ghost predicate FromHistory(history: seq<Item>, b: Box) {
    && (forall r :: r in b.replay ==> Historical(history, r))
    && (forall i :: i in Items(b.cursor) ==> i in history)
  }

  lemma PageFromHistory(history: seq<Item>, b: Box)
    requires FromHistory(history, b)
    ensures FromHistory(history, Page(b))
  {
    var n := PagedRecordsRead(b.cursor, b.replay, REPLAY_SLOTS, PAGE_LIMIT);
    hide Items, PageInto, ReadsBack;
    var items, after := Items(b.cursor), Page(b);
    forall r | r in after.replay
      ensures Historical(history, r)
    {
      var k :| 0 <= k < |after.replay| && after.replay[k] == r;
      if k < |b.replay| {
        assert r == after.replay[..|b.replay|][k];
      } else {
        assert items[k - |b.replay|] in items && after.replay[|b.replay| + (k - |b.replay|)] == r;
      }
    }
    forall i | i in Items(after.cursor)
      ensures i in history
    {
      assert i in items[n..];
    }
  }

  lemma ReplayStep(history: seq<Item>, b: Box, lim: Limits, op: Op)
    requires FromHistory(history, b)
    ensures FromHistory(history, Apply(b, lim, op))
  {
    hide WriteMessage, WriteBmcuFrame, PageInto, ReleaseQueue, Merge, Fits, Items, Historical, AppendQueue, AppendOutcome;
    match op {
      case PeekOp =>
        DropKeeps(b, lim);
        if MaterializeDrop(b, lim).Some? {
          PageFromHistory(history, MaterializeDrop(b, lim).value);
        }
      case AckOp(boot, watermark) =>
        ReleaseLiveIsAbove(b, watermark);
        var r := Release(b, boot, watermark);
        PageFromHistory(history, if boot == b.boot then r.(lastAck := Max(b.lastAck, watermark)) else r);
      case _ =>
    }
  }

  // ----- Every run -----

  /** Live records say what calls asked for, coalesced STATUS is the newest, replay is history. */
  ghost predicate Content(boot: nat, history: seq<Item>, past: seq<Op>, b: Box, links: nat) {
    && b.boot == boot && (forall r :: Queued(b, r) ==> Genuine(boot, past, r))
    && Coalesced(past, b, links) && FromHistory(history, b)
  }

  lemma ContentStep(boot: nat, history: seq<Item>, past: seq<Op>, b: Box, lim: Limits, op: Op)
    requires Content(boot, history, past, b, lim.links) && FromLink(op, lim.links)
    ensures Content(boot, history, past + [op], Apply(b, lim, op), lim.links)
  {
    OneSequencePerCall(b, lim, op);
    CoalescedStep(past, b, lim, op);
    ReplayStep(history, b, lim, op);
    hide Apply, Genuine, ParkedNewest, SnapshotNewest, OfLinks, FromHistory, Queued;
    forall r | Queued(Apply(b, lim, op), r)
      ensures Genuine(boot, past + [op], r)
    {
      QueuedStep(boot, past, b, lim, op, r);
    }
  }

  predicate AllFromLinks(ops: seq<Op>, links: nat) { forall op :: op in ops ==> FromLink(op, links) }

  lemma {:induction false} ContentRun(boot: nat, history: seq<Item>, past: seq<Op>, b: Box, lim: Limits, ops: seq<Op>)
    requires Content(boot, history, past, b, lim.links) && AllFromLinks(ops, lim.links)
    ensures Content(boot, history, past + ops, Run(b, lim, ops), lim.links)
    decreases ops
  {
    hide Content, Apply, FromLink;
    if ops == [] {
      assert past + ops == past;
    } else {
      var op := ops[0];
      assert op in ops;
      ContentStep(boot, history, past, b, lim, op);
      assert past + [op] + ops[1..] == past + ops;
      ContentRun(boot, history, past + [op], Apply(b, lim, op), lim, ops[1..]);
    }
  }

  /**
   From a new outbox, after any run: what the next peek offers is one whole message of this boot
   that says what a call of the run asked for, or one that reads as a record of the history with
   the REPLAY flag set; and each parked STATUS and snapshot reads as the newest of its link.
   */
  lemma EveryOfferIsGenuine(boot: u64, cursor: Cursor, lim: Limits, ops: seq<Op>)
    requires AllFromLinks(ops, lim.links)
    ensures var b := Run(NewBox(boot, cursor), lim, ops);
            && Coalesced(ops, b, lim.links)
            && var offer := Peek(b, lim).1;
               offer.Head? ==> Genuine(boot, ops + [PeekOp], offer.rec) || Historical(Items(cursor), offer.rec)
  {
    var start, history := NewBox(boot, cursor), Items(cursor);
    assert Content(boot, history, [], start, lim.links);
    ContentRun(boot, history, [], start, lim, ops);
    var b := Run(start, lim, ops);
    assert [] + ops == ops;
    ContentStep(boot, history, ops, b, lim, PeekOp);
    OfferIsHeld(b, lim);
    hide Genuine, ParkedNewest, SnapshotNewest, OfLinks, Historical, Items, Run, Peek;
  }

  lemma OfferIsHeld(b: Box, lim: Limits)
    ensures var (after, offer) := Peek(b, lim);
            after == Apply(b, lim, PeekOp) && (offer.Head? ==> Queued(after, offer.rec) || offer.rec in after.replay)
  {
    var after := Peek(b, lim).0;
    MergeMembers(after.durable, after.large);
    hide WriteMessage, WriteBmcuFrame, PageInto, ReleaseQueue, Merge;
    if Live(after) != [] {
      assert Live(after)[0] in Live(after);
    }
  }

  // ----- When a record is queued, and what the caller and the journal are told -----

  /** Room for a message of this size that is not a loss marker. */
  predicate HasRoom(b: Box, lim: Limits, size: nat) {
    if size <= 128 then |b.durable| < (if lim.durable > 1 then lim.durable - 1 else lim.durable)
    else size <= 4128 && |b.large| < lim.large
  }

  /** The call stored the record, at the end of its ring and under the number it returns. */
  ghost predicate Queues(b: Box, after: Box, reply: Reply, op: Op, r: Rec) {
    && TookIn(b, after, r) && r.sequence == b.next && IsMessage(r, b.boot) && SaidBy(r, op)
    && reply == Done(b.next) && after.next == b.next + 1 && after.count == 0
  }

  /** The call gave its number to a loss that started with it. */
  predicate Drops(b: Box, after: Box, reply: Reply, at: u64) {
    && after.durable == b.durable && after.large == b.large && reply == Done(0) && after.next == b.next + 1
    && after.count == 1 && after.first == after.last == b.next && after.observedAt == at
  }

  lemma AdmittedOrDropped(b: Box, lim: Limits, op: Op, kind: byte, flags: nat, link: int, payload: seq<byte>,
                          at: u64, isGuarded: bool, drops: bool) returns (r: Rec)
    requires b.count == 0
    requires WriteMessage(kind, flags, b.next, b.boot, link, payload).Encoded? ==>
               Says(op, Message(kind, flags, b.next, b.boot, link, payload))
    ensures var message := WriteMessage(kind, flags, b.next, b.boot, link, payload);
            var (after, reply) := Admit(b, lim, message, at, isGuarded, drops);
            && (message.Encoded? && HasRoom(b, lim, 32 + |payload|) ==>
                  Queues(b, after, reply, op, r) && r.guarded == isGuarded)
            && (message.Encoded? && !HasRoom(b, lim, 32 + |payload|) ==> Drops(b, after, reply, at))
            && (message.CodecError? && drops ==> Drops(b, after, reply, at))
            && (reply == Raised <==> message.PackError? || (message.CodecError? && !drops))
  {
    var message := WriteMessage(kind, flags, b.next, b.boot, link, payload);
    hide Says, Encode, IsMessage, SaidBy;
    if message.Encoded? {
      r := Rec(b.next, message.bytes, isGuarded, -1);
      WrittenIsSaid(op, kind, flags, b.next, b.boot, link, payload, isGuarded, -1);
    } else {
      r := Rec(0, [], false, -1);
    }
  }

  /**
   `enqueue_raw` with an event or other frame and no loss pending: the frame is queued as what
   the caller gave, or becomes a loss, or the call raises, exactly by its sizes and the room left.
   */
  lemma RawIsQueuedIff(b: Box, lim: Limits, link: int, at: u64, wire: seq<byte>, kind: nat) returns (r: Rec)
    requires b.count == 0 && kind != STATUS_KIND
    ensures var (after, reply) := EnqueueRaw(b, lim, link, at, wire, kind);
            var writable := 0 <= link <= 255 && |wire| <= 4086 && b.next < MASK64;
            && (writable && HasRoom(b, lim, 42 + |wire|) ==>
                  Queues(b, after, reply, Raw(link, at, wire, kind), r) && r.guarded == (kind == EVENT_KIND))
            && (writable && !HasRoom(b, lim, 42 + |wire|) ==> Drops(b, after, reply, at))
            && (reply == Raised <==> !writable)
  {
    var flags, op := if kind == EVENT_KIND then FLAG_CRITICAL else 0, Raw(link, at, wire, kind);
    hide WriteBmcuFrame, BE, FromBE, Queues, Drops, HasRoom, Encode;
    FrameWrites(flags, b.next, b.boot, link, at, wire);
    if |wire| + 10 <= MAX_PAYLOAD_SIZE {
      FrameFields(at, wire);
      r := AdmittedOrDropped(b, lim, op, BMCU_FRAME, flags, link, BE(at, 8) + BE(|wire|, 2) + wire, at, kind == EVENT_KIND, false);
    } else {
      r := Rec(0, [], false, -1);
    }
  }

  /** The same for `enqueue_link_state`, always protected. */
  lemma StateIsQueuedIff(b: Box, lim: Limits, link: int, at: u64, state: byte, reason: byte) returns (r: Rec)
    requires b.count == 0
    ensures var (after, reply) := EnqueueLinkState(b, lim, link, at, state, reason);
            var writable := 0 <= link <= 255 && b.next < MASK64;
            && (writable && HasRoom(b, lim, 44) ==> Queues(b, after, reply, State(link, at, state, reason), r) && r.guarded)
            && (writable && !HasRoom(b, lim, 44) ==> Drops(b, after, reply, at))
            && (reply == Raised <==> !writable)
  {
    var flags := if state == LINK_OFFLINE || state == LINK_INCOMPATIBLE then FLAG_CRITICAL else 0;
    var payload, op := LinkStatePayload(at, state, reason), State(link, at, state, reason);
    hide Queues, Drops, HasRoom, Encode, LinkStatePayload, ParseLinkState;
    if 0 <= link <= 0xFF {
      LinkStateReads(Message(LINK_STATE, flags, b.next, b.boot, link, payload), at, state, reason);
    }
    r := AdmittedOrDropped(b, lim, op, LINK_STATE, flags, link, payload, at, true, false);
  }

  /** And for `enqueue_payload`, which turns its own encoding errors into a loss. */
  lemma PayloadIsQueuedIff(b: Box, lim: Limits, kind: byte, flags: nat, link: int, at: u64, payload: seq<byte>, kept: bool) returns (r: Rec)
    requires b.count == 0
    ensures var (after, reply) := EnqueuePayload(b, lim, kind, flags, link, at, payload);
            var writable := 0 <= link <= 255 && flags <= 0x1F && |payload| <= 4096;
            && (writable && b.next < MASK64 && HasRoom(b, lim, 32 + |payload|) ==>
                  Queues(b, after, reply, Payload(kind, flags, link, at, payload, kept), r) && r.guarded == (flags / 2 % 2 == 1))
            && (!writable || (b.next < MASK64 && !HasRoom(b, lim, 32 + |payload|)) ==> Drops(b, after, reply, at))
            && (reply == Raised <==> writable && b.next >= MASK64)
  {
    hide Queues, Drops, HasRoom, Encode;
    r := AdmittedOrDropped(b, lim, Payload(kind, flags, link, at, payload, kept), kind, flags, link, payload,
                           at, (flags / 2) % 2 == 1, true);
  }

  /** While a loss is pending every producer but STATUS extends it by its own number and time. */
  lemma PendingLossGrows(b: Box, lim: Limits, op: Op)
    requires b.count > 0 && (op.Raw? || op.State? || op.Payload?) && !(op.Raw? && op.kind == STATUS_KIND)
    ensures var after := Apply(b, lim, op);
            && after.durable == b.durable && after.large == b.large && after.next == b.next + 1
            && after.first == b.first && after.last == b.next && after.count == b.count + 1 && after.observedAt == op.at
            && Calls(b, lim, op) == []
  {
  }

  /** What is staged says what the call asked for; a staged loss is the pending one. */
  lemma StagedSays(b: Box, lim: Limits, op: Op)
    ensures |Calls(b, lim, op)| <= 1
    ensures forall call :: call in Calls(b, lim, op) && call.Stage? ==>
              && 0 <= call.link <= 0xFF
              && Says(op, Message(call.kind, call.flags, call.sequence, b.boot, call.link, call.payload))
              && call.at == (if op.PeekOp? then b.observedAt else if op.AckOp? then 0 else op.at)
              && call.sequence == (if op.PeekOp? then b.first else b.next)
    ensures forall call :: call in Calls(b, lim, op) && call.RecordAck? ==> op == AckOp(call.boot, call.watermark)
  {
    hide Encode, WriteMessage, Fits, DropPayload, BE, FromBE, LinkStatePayload;
    match op {
      case Raw(link, at, wire, kind) =>
        var flags := if kind == EVENT_KIND then FLAG_CRITICAL else 0;
        FrameWrites(flags, b.next, b.boot, link, at, wire);
        if |wire| + 10 <= MAX_PAYLOAD_SIZE {
          FrameFields(at, wire);
          PayloadOf(BMCU_FRAME, flags, b.next, b.boot, link, BE(at, 8) + BE(|wire|, 2) + wire);
        }
      case State(link, at, state, reason) =>
        var flags := if state == LINK_OFFLINE || state == LINK_INCOMPATIBLE then FLAG_CRITICAL else 0;
        var payload := LinkStatePayload(at, state, reason);
        PayloadOf(LINK_STATE, flags, b.next, b.boot, link, payload);
        if 0 <= link <= 0xFF {
          LinkStateReads(Message(LINK_STATE, flags, b.next, b.boot, link, payload), at, state, reason);
        }
      case Payload(kind, flags, link, at, payload, kept) => PayloadOf(kind, flags, b.next, b.boot, link, payload);
      case PeekOp => StagedDropSays(b, lim);
      case AckOp(boot, watermark) =>
    }
  }

  lemma PayloadOf(kind: byte, flags: nat, sequence: nat, boot: nat, link: int, payload: seq<byte>)
    ensures WriteMessage(kind, flags, sequence, boot, link, payload).Encoded? ==>
              && 0 <= link <= 0xFF && |WriteMessage(kind, flags, sequence, boot, link, payload).bytes| >= HEADER_SIZE
              && WriteMessage(kind, flags, sequence, boot, link, payload).bytes[HEADER_SIZE..] == payload
  {
  }

  lemma StagedDropSays(b: Box, lim: Limits)
    ensures forall call :: call in DropCalls(b, lim) ==>
              && call.Stage? && call.link == 0xFF && call.at == b.observedAt && call.sequence == b.first
              && Says(PeekOp, Message(call.kind, call.flags, call.sequence, b.boot, call.link, call.payload))
  {
    hide Encode, DropPayload, Span, Fits;
    var marker := WriteTransportDrop(FLAG_CRITICAL, b.first, b.boot, b.observedAt, b.first, b.last, b.count, DROP_RAM_QUEUE_FULL);
    if marker.Encoded? {
      var payload := DropPayload(b.observedAt, b.first, b.last, b.count, DROP_RAM_QUEUE_FULL);
      DropRoundTrip(FLAG_CRITICAL, b.first, b.boot, b.observedAt, b.first, b.last, b.count, DROP_RAM_QUEUE_FULL);
      WrittenReads(TRANSPORT_DROP, FLAG_CRITICAL, b.first, b.boot, GLOBAL_SCOPE as int, payload);
      PayloadOf(TRANSPORT_DROP, FLAG_CRITICAL, b.first, b.boot, GLOBAL_SCOPE as int, payload);
    }
  }

  /** A parked STATUS is counted as replaced exactly if its link had one waiting. */
  lemma ReplacementsCount(b: Box, lim: Limits, link: int, at: u64, wire: seq<byte>)
    requires OfLinks(b.latest, lim.links) && 0 <= link < lim.links
    ensures EnqueueStatus(b, lim, link, at, wire).0.replacements == b.replacements +
            if |wire| <= 70 && exists r :: r in b.latest && r.key == link then 1 else 0
  {
    LinkHasRoom(b.latest, lim.links, link);
    hide WriteBmcuFrame;
  }

  /** The watermark the outbox reports is the largest ACK for its own boot. */
  lemma {:induction false} LastAckIsMaximum(b: Box, lim: Limits, ops: seq<Op>)
    ensures var last := Run(b, lim, ops).lastAck;
            && b.lastAck <= last
            && (forall op :: op in ops && op.AckOp? && op.boot == b.boot ==> op.watermark <= last)
            && (last == b.lastAck || exists op :: op in ops && op.AckOp? && op.boot == b.boot && op.watermark == last)
    decreases ops
  {
    if ops != [] {
      LastAckStep(b, lim, ops[0]);
      OneSequencePerCall(b, lim, ops[0]);
      hide Apply;
      LastAckIsMaximum(Apply(b, lim, ops[0]), lim, ops[1..]);
      assert ops == [ops[0]] + ops[1..];
    }
  }

  lemma LastAckStep(b: Box, lim: Limits, op: Op)
    ensures Apply(b, lim, op).lastAck ==
            if op.AckOp? && op.boot == b.boot && op.watermark > b.lastAck then op.watermark else b.lastAck
  {
    hide WriteMessage, WriteBmcuFrame, WriteTransportDrop, PageInto, ReleaseQueue, Merge, AppendQueue, AppendOutcome;
    match op {
      case AckOp(boot, watermark) => ReleaseLiveIsAbove(b, watermark);
      case _ =>
    }
  }
}
