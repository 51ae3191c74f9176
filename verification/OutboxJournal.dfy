/**
 What the outbox tells the journal: every record it stores is staged once, with the fields its
 bytes carry, in the order of the sequences.
 */
module OutboxJournal {
  import opened Bytes
  import opened Bmb1Codec
  import opened ByteRings
  import opened Replay
  import opened OutboxModel
  import opened OutboxTiling

  /** The call stages exactly the fields that the record's bytes carry. */
  predicate Stages(call: JournalCall, r: Rec) {
    && call.Stage? && |r.data| >= HEADER_SIZE
    && r.data[5] == call.kind && FromBE(r.data[6..8]) == call.flags && r.data[28] as int == call.link
    && FromBE(r.data[12..20]) == call.sequence == r.sequence && r.data[HEADER_SIZE..] == call.payload
  }

  /** One of the two live rings took the record, nothing else moved. */
  predicate TookIn(b: Box, after: Box, r: Rec) {
    || (after.durable == b.durable + [r] && after.large == b.large)
    || (after.durable == b.durable && after.large == b.large + [r])
  }

  lemma WrittenIsStaged(kind: byte, flags: nat, sequence: nat, boot: nat, link: int, at: u64, payload: seq<byte>, isGuarded: bool)
    requires WriteMessage(kind, flags, sequence, boot, link, payload).Encoded?
    ensures var bytes := WriteMessage(kind, flags, sequence, boot, link, payload).bytes;
            && |bytes| >= HEADER_SIZE && bytes[HEADER_SIZE..] == payload
            && Stages(Stage(kind, flags, link, sequence, at, payload), Rec(sequence, bytes, isGuarded, -1))
  {
    var m := Message(kind, flags, sequence, boot, link, payload);
    HeaderFields(m, Encode(m));
  }

  /** What a producer's call, or the marker a peek announces, adds to the rings and to the journal. */
  ghost predicate InStep(b: Box, after: Box, calls: seq<JournalCall>, at: u64) {
    || (calls == [] && after.durable == b.durable && after.large == b.large)
    || (|calls| == 1 && calls[0].Stage? && calls[0].at == at && exists r :: TookIn(b, after, r) && Stages(calls[0], r))
  }

  lemma StoreIsStaged(b: Box, after: Box, kind: byte, flags: nat, sequence: nat, link: int, at: u64, payload: seq<byte>, isGuarded: bool)
    requires WriteMessage(kind, flags, sequence, b.boot, link, payload).Encoded?
    requires var bytes := WriteMessage(kind, flags, sequence, b.boot, link, payload).bytes;
             after.durable == Store(b, sequence, bytes, isGuarded).durable && after.large == Store(b, sequence, bytes, isGuarded).large
    ensures InStep(b, after, [Stage(kind, flags, link, sequence, at, payload)], at)
  {
    hide Stages;
    WrittenIsStaged(kind, flags, sequence, b.boot, link, at, payload, isGuarded);
    var bytes := WriteMessage(kind, flags, sequence, b.boot, link, payload).bytes;
    assert TookIn(b, after, Rec(sequence, bytes, isGuarded, -1));
  }

  /** A record enters the rings exactly when the journal is told, and with the same content. */
  lemma RawInStep(b: Box, lim: Limits, link: int, at: u64, wire: seq<byte>, kind: nat)
    ensures InStep(b, EnqueueRaw(b, lim, link, at, wire, kind).0, RawCalls(b, lim, link, at, wire, kind), at)
  {
    hide InStep, Encode, FindKey, AppendQueue, AppendOutcome;
    var flags := if kind == EVENT_KIND then FLAG_CRITICAL else 0;
    var message := WriteBmcuFrame(flags, b.next, b.boot, link, at, wire);
    if kind != STATUS_KIND && b.count == 0 && Stores(b, lim, message) {
      FieldWidths();
      var payload := BE(at, 8) + BE(|wire|, 2) + wire;
      WrittenIsStaged(BMCU_FRAME, flags, b.next, b.boot, link, at, payload, kind == EVENT_KIND);
      StoreIsStaged(b, EnqueueRaw(b, lim, link, at, wire, kind).0, BMCU_FRAME, flags, b.next, link, at, payload, kind == EVENT_KIND);
    } else {
      NothingIn(b, EnqueueRaw(b, lim, link, at, wire, kind).0, at);
    }
  }

  lemma NothingIn(b: Box, after: Box, at: u64)
    requires after.durable == b.durable && after.large == b.large
    ensures InStep(b, after, [], at)
  {
  }

  lemma StateInStep(b: Box, lim: Limits, link: int, at: u64, state: byte, reason: byte)
    ensures InStep(b, EnqueueLinkState(b, lim, link, at, state, reason).0, StateCalls(b, lim, link, at, state, reason), at)
  {
    hide InStep, Encode;
    var flags := if state == LINK_OFFLINE || state == LINK_INCOMPATIBLE then FLAG_CRITICAL else 0;
    var payload := LinkStatePayload(at, state, reason);
    var message := WriteMessage(LINK_STATE, flags, b.next, b.boot, link, payload);
    if b.count == 0 && Stores(b, lim, message) {
      WrittenIsStaged(LINK_STATE, flags, b.next, b.boot, link, at, payload, true);
      StoreIsStaged(b, EnqueueLinkState(b, lim, link, at, state, reason).0, LINK_STATE, flags, b.next, link, at, payload, true);
    } else {
      NothingIn(b, EnqueueLinkState(b, lim, link, at, state, reason).0, at);
    }
  }

  lemma PayloadInStep(b: Box, lim: Limits, kind: byte, flags: nat, link: int, at: u64, payload: seq<byte>)
    ensures InStep(b, EnqueuePayload(b, lim, kind, flags, link, at, payload).0,
                   PayloadCalls(b, lim, kind, flags, link, at, payload, true), at)
    ensures PayloadCalls(b, lim, kind, flags, link, at, payload, false) == []
  {
    hide InStep, Encode;
    var message := WriteMessage(kind, flags, b.next, b.boot, link, payload);
    if b.count == 0 && Stores(b, lim, message) {
      var after := EnqueuePayload(b, lim, kind, flags, link, at, payload).0;
      StoreIsStaged(b, after, kind, flags, b.next, link, at, payload, (flags / 2) % 2 == 1);
    } else {
      NothingIn(b, EnqueuePayload(b, lim, kind, flags, link, at, payload).0, at);
    }
  }

  lemma DropInStep(b: Box, lim: Limits)
    ensures MaterializeDrop(b, lim).None? ==> DropCalls(b, lim) == []
    ensures MaterializeDrop(b, lim).Some? ==> InStep(b, MaterializeDrop(b, lim).value, DropCalls(b, lim), b.observedAt)
  {
    hide InStep, Encode, DropPayload;
    if b.count > 0 && |b.durable| != lim.durable {
      var marker := WriteTransportDrop(FLAG_CRITICAL, b.first, b.boot, b.observedAt, b.first, b.last, b.count, DROP_RAM_QUEUE_FULL);
      if marker.Encoded? && Fits(b, lim, |marker.bytes|, true) {
        var payload := DropPayload(b.observedAt, b.first, b.last, b.count, DROP_RAM_QUEUE_FULL);
        WrittenIsStaged(TRANSPORT_DROP, FLAG_CRITICAL, b.first, b.boot, GLOBAL_SCOPE as int, b.observedAt, payload, true);
        StoreIsStaged(b, MaterializeDrop(b, lim).value, TRANSPORT_DROP, FLAG_CRITICAL, b.first,
                      GLOBAL_SCOPE as int, b.observedAt, payload, true);
      } else if marker.Encoded? {
        NothingIn(b, MaterializeDrop(b, lim).value, b.observedAt);
      }
    } else {
      NothingIn(b, b, b.observedAt);
    }
  }

  // ----- Runs -----

  ghost predicate Queued(b: Box, r: Rec) { r in b.durable || r in b.large }

  ghost predicate StagedIn(calls: seq<JournalCall>, r: Rec) { exists i :: 0 <= i < |calls| && Stages(calls[i], r) }

  /** Numbers of records the journal is not meant to keep: a STATUS, and a payload sent without `journal_record`. */
  ghost function Unkept(b: Box, op: Op): set<nat> {
    match op
    case Payload(_, _, _, _, _, journalRecord) => if journalRecord then {} else {b.next}
    case PeekOp => if StatusReady(b) then {b.next} else {}
    case _ => {}
  }

  ghost function RunCalls(b: Box, lim: Limits, ops: seq<Op>): seq<JournalCall>
    decreases ops
  {
    if ops == [] then [] else Calls(b, lim, ops[0]) + RunCalls(Apply(b, lim, ops[0]), lim, ops[1..])
  }

  ghost function RunUnkept(b: Box, lim: Limits, ops: seq<Op>): set<nat>
    decreases ops
  {
    if ops == [] then {} else Unkept(b, ops[0]) + RunUnkept(Apply(b, lim, ops[0]), lim, ops[1..])
  }

  lemma InStepStages(b: Box, after: Box, calls: seq<JournalCall>, at: u64, r: Rec)
    requires InStep(b, after, calls, at) && Queued(after, r)
    ensures Queued(b, r) || StagedIn(calls, r)
  {
    hide Stages;
  }

  lemma {:induction false} ReleaseTakesOnly(b: Box, watermark: nat, r: Rec)
    requires Queued(ReleaseLive(b, watermark), r)
    ensures Queued(b, r)
    decreases |Live(b)|
  {
    if Live(b) != [] && Live(b)[0].sequence <= watermark {
      PopLiveIsTail(b);
      ReleaseTakesOnly(PopLive(b), watermark, r);
    }
  }

  lemma StatusStep(b: Box, lim: Limits, r: Rec)
    requires Queued(MaterializeStatus(b, lim).0, r)
    ensures Queued(b, r) || (StatusReady(b) && r.sequence == b.next)
  {
  }

  /** After a call, a queued record was there before, carries a number not to be kept, or was just staged. */
  lemma StepStages(b: Box, lim: Limits, op: Op, r: Rec)
    requires Queued(Apply(b, lim, op), r)
    ensures Queued(b, r) || r.sequence in Unkept(b, op) || StagedIn(Calls(b, lim, op), r)
  {
    hide Stages, Merge, Encode, WriteMessage, WriteBmcuFrame, WriteTransportDrop, PageInto, InStep, StagedIn;
    match op {
      case Raw(link, at, wire, kind) =>
        RawInStep(b, lim, link, at, wire, kind);
        InStepStages(b, Apply(b, lim, op), Calls(b, lim, op), at, r);
      case State(link, at, state, reason) =>
        StateInStep(b, lim, link, at, state, reason);
        InStepStages(b, Apply(b, lim, op), Calls(b, lim, op), at, r);
      case Payload(kind, flags, link, at, payload, journalRecord) =>
        if journalRecord {
          PayloadInStep(b, lim, kind, flags, link, at, payload);
          InStepStages(b, Apply(b, lim, op), Calls(b, lim, op), at, r);
        }
      case PeekOp =>
        DropInStep(b, lim);
        if MaterializeDrop(b, lim).Some? {
          var announced := MaterializeDrop(b, lim).value;
          StatusStep(Page(announced), lim, r);
          if Queued(announced, r) {
            InStepStages(b, announced, DropCalls(b, lim), b.observedAt, r);
          }
        }
      case AckOp(boot, watermark) =>
        if boot == b.boot {
          ReleaseTakesOnly(b, watermark, r);
        }
    }
  }

  /** Every record queued at the end of a run was there at the start, is not to be kept, or was staged. */
  lemma {:induction false} EveryRecordIsStaged(b: Box, lim: Limits, ops: seq<Op>, r: Rec)
    requires Queued(Run(b, lim, ops), r)
    ensures Queued(b, r) || r.sequence in RunUnkept(b, lim, ops) || StagedIn(RunCalls(b, lim, ops), r)
    decreases ops
  {
    hide Stages, Queued, Apply, Calls, Unkept;
    if ops != [] {
      var op := ops[0];
      var after, here := Apply(b, lim, op), Calls(b, lim, op);
      var rest := RunCalls(after, lim, ops[1..]);
      EveryRecordIsStaged(after, lim, ops[1..], r);
      if StagedIn(rest, r) {
        var i :| 0 <= i < |rest| && Stages(rest[i], r);
        assert (here + rest)[|here| + i] == rest[i];
      } else if Queued(after, r) {
        StepStages(b, lim, op, r);
        if StagedIn(here, r) {
          var i :| 0 <= i < |here| && Stages(here[i], r);
          assert (here + rest)[i] == here[i];
        }
      }
    }
  }

  /** The staged numbers ascend within from..to-1. */
  ghost predicate Ascending(calls: seq<JournalCall>, from: nat, to: nat) {
    && (forall i :: 0 <= i < |calls| && calls[i].Stage? ==> from <= calls[i].sequence < to)
    && (forall i, j :: 0 <= i < j < |calls| && calls[i].Stage? && calls[j].Stage? ==> calls[i].sequence < calls[j].sequence)
  }

  /** A call stages only numbers that the tiling gains with it. */
  lemma StepAscends(b: Box, lim: Limits, released: nat, op: Op)
    requires Sound(b, lim, released) && Sound(Apply(b, lim, op), lim, Frontier(b, released, op))
    ensures Ascending(Calls(b, lim, op), Top(b), Top(Apply(b, lim, op))) && Top(b) <= Top(Apply(b, lim, op))
  {
    hide Merge, Chain, Encode, WriteMessage, WriteBmcuFrame, WriteTransportDrop, PageInto, ReleaseQueue, AppendQueue, FindKey, StatusSlots;
    match op {
      case AckOp(boot, watermark) => ReleaseLiveIsAbove(b, watermark);
      case _ =>
    }
  }

  /** Over a run no number is staged twice, and the journal sees the numbers in order. */
  lemma {:induction false} RunAscends(b: Box, lim: Limits, released: nat, ops: seq<Op>)
    requires Sound(b, lim, released) && ValidLimits(lim) && b.next + |ops| <= MASK64 && AllWellFormed(ops)
    ensures Ascending(RunCalls(b, lim, ops), Top(b), Top(Run(b, lim, ops))) && Top(b) <= Top(Run(b, lim, ops))
    decreases ops
  {
    if ops != [] {
      var op := ops[0];
      assert op in ops;
      StepTiles(b, lim, released, op);
      OneSequencePerCall(b, lim, op);
      assert Accounted(b, lim, op);
      StepAscends(b, lim, released, op);
      hide Sound, Apply, Frontier, Calls, Top;
      RunAscends(Apply(b, lim, op), lim, Frontier(b, released, op), ops[1..]);
    }
  }

  /**
   From a new outbox, after any run: a queued record whose number is to be kept was staged by
   exactly one call, with the content of its bytes.
   */
  lemma StagedExactlyOnce(boot: u64, cursor: Cursor, lim: Limits, ops: seq<Op>, r: Rec)
    requires ValidLimits(lim) && 1 + |ops| <= MASK64 && AllWellFormed(ops)
    requires Queued(Run(NewBox(boot, cursor), lim, ops), r) && r.sequence !in RunUnkept(NewBox(boot, cursor), lim, ops)
    ensures var calls := RunCalls(NewBox(boot, cursor), lim, ops);
            exists i :: 0 <= i < |calls| && Stages(calls[i], r)
                     && forall j :: 0 <= j < |calls| && calls[j].Stage? && calls[j].sequence == r.sequence ==> j == i
  {
    var start := NewBox(boot, cursor);
    InitiallySound(boot, cursor, lim);
    RunAscends(start, lim, 1, ops);
    EveryRecordIsStaged(start, lim, ops, r);
    var calls := RunCalls(start, lim, ops);
    var i :| 0 <= i < |calls| && Stages(calls[i], r);
  }

  // ----- Acknowledgements on record -----

  /** `record_ack`: a watermark only ever rises. */
  function Marked(acked: map<nat, nat>, calls: seq<JournalCall>): map<nat, nat>
    decreases |calls|
  {
    if calls == [] then acked
    else
      var call := calls[0];
      Marked(if call.RecordAck? && call.watermark > Watermark(acked, call.boot) then acked[call.boot := call.watermark] else acked,
             calls[1..])
  }

  /** The recorded watermark of a boot is the largest of its ACKs, or what was on record before. */
  lemma {:induction false} MarkIsMaximum(acked: map<nat, nat>, calls: seq<JournalCall>, boot: nat)
    ensures var mark := Watermark(Marked(acked, calls), boot);
            && Watermark(acked, boot) <= mark
            && (forall i :: 0 <= i < |calls| && calls[i].RecordAck? && calls[i].boot == boot ==> calls[i].watermark <= mark)
            && (mark == Watermark(acked, boot)
                || exists i :: 0 <= i < |calls| && calls[i].RecordAck? && calls[i].boot == boot && calls[i].watermark == mark)
    decreases |calls|
  {
    if calls != [] {
      var call := calls[0];
      var next := if call.RecordAck? && call.watermark > Watermark(acked, call.boot) then acked[call.boot := call.watermark] else acked;
      MarkIsMaximum(next, calls[1..], boot);
      var mark := Watermark(Marked(next, calls[1..]), boot);
      if i :| 0 <= i < |calls| - 1 && calls[1..][i].RecordAck? && calls[1..][i].boot == boot && calls[1..][i].watermark == mark {
        assert calls[i + 1] == calls[1..][i];
      }
      forall i | 0 <= i < |calls| && calls[i].RecordAck? && calls[i].boot == boot
        ensures calls[i].watermark <= mark
      {
        if i > 0 {
          assert calls[i] == calls[1..][i - 1];
        }
      }
    }
  }

  lemma {:induction false} MarkedSplits(acked: map<nat, nat>, a: seq<JournalCall>, c: seq<JournalCall>)
    ensures Marked(acked, a + c) == Marked(Marked(acked, a), c)
    decreases |a|
  {
    if a == [] {
      assert a + c == c;
    } else {
      assert (a + c)[1..] == a[1..] + c;
      var call := a[0];
      MarkedSplits(if call.RecordAck? && call.watermark > Watermark(acked, call.boot) then acked[call.boot := call.watermark] else acked,
                   a[1..], c);
    }
  }

  /** The record on file is behind everything queued and everything still to be queued. */
  ghost predicate Behind(acked: map<nat, nat>, b: Box) {
    Watermark(acked, b.boot) < Top(b) && forall r :: Queued(b, r) ==> Watermark(acked, b.boot) < r.sequence
  }

  /** An ACK for numbers that no queued record has had yet. */
  predicate EarlyAck(b: Box, op: Op) { op.AckOp? && op.boot == b.boot && op.watermark >= Top(b) }

  lemma AckMoves(b: Box, lim: Limits, released: nat, boot: nat, watermark: nat)
    requires Sound(b, lim, released)
    ensures Top(Acknowledge(b, boot, watermark)) == Top(b)
    ensures forall r :: Queued(Acknowledge(b, boot, watermark), r) <==> Queued(b, r) && (boot == b.boot ==> r.sequence > watermark)
  {
    hide Chain, Merge, PageInto, ReleaseLive;
    if boot == b.boot {
      AckIsExact(b, lim, released, watermark);
      ReleaseLiveIsAbove(b, watermark);
    }
  }

  lemma OnlyStages(b: Box, lim: Limits, released: nat, op: Op)
    requires Sound(b, lim, released) && !op.AckOp?
    ensures forall i :: 0 <= i < |Calls(b, lim, op)| ==> Calls(b, lim, op)[i].Stage?
    ensures forall n :: n in Unkept(b, op) ==> Top(b) <= n
  {
    hide Chain, Encode, WriteMessage, WriteBmcuFrame, WriteTransportDrop, Fits;
  }

  /** Queued records stay above the recorded watermark, so that a reboot does not take them for acknowledged, exactly until an early ACK. */
  lemma StepStaysBehind(b: Box, lim: Limits, released: nat, op: Op, acked: map<nat, nat>)
    requires Sound(b, lim, released) && ValidLimits(lim) && Accounted(b, lim, op) && Behind(acked, b)
    ensures Behind(Marked(acked, Calls(b, lim, op)), Apply(b, lim, op)) <==> !EarlyAck(b, op)
  {
    hide Sound, Accounted, Frontier, Stages, Top, Queued, Acknowledge;
    var after, calls := Apply(b, lim, op), Calls(b, lim, op);
    OneSequencePerCall(b, lim, op);
    MarkIsMaximum(acked, calls, b.boot);
    if op.AckOp? {
      AckMoves(b, lim, released, op.boot, op.watermark);
    } else {
      hide Apply, Calls, Marked, Unkept;
      StepTiles(b, lim, released, op);
      StepAscends(b, lim, released, op);
      OnlyStages(b, lim, released, op);
      forall r | Queued(after, r)
        ensures Watermark(acked, b.boot) < r.sequence
      {
        StepStages(b, lim, op, r);
        if StagedIn(calls, r) {
          StagedNumber(calls, r);
        }
      }
    }
  }

  lemma StagedNumber(calls: seq<JournalCall>, r: Rec)
    requires StagedIn(calls, r)
    ensures exists i :: 0 <= i < |calls| && calls[i].Stage? && calls[i].sequence == r.sequence
  {
  }

  ghost predicate NoEarlyAck(b: Box, lim: Limits, ops: seq<Op>)
    decreases ops
  {
    ops == [] || (!EarlyAck(b, ops[0]) && NoEarlyAck(Apply(b, lim, ops[0]), lim, ops[1..]))
  }

  lemma {:induction false} RunStaysBehind(b: Box, lim: Limits, released: nat, ops: seq<Op>, acked: map<nat, nat>)
    requires Sound(b, lim, released) && ValidLimits(lim) && b.next + |ops| <= MASK64 && AllWellFormed(ops)
    requires Behind(acked, b) && NoEarlyAck(b, lim, ops)
    ensures Behind(Marked(acked, RunCalls(b, lim, ops)), Run(b, lim, ops))
    decreases ops
  {
    if ops != [] {
      var op := ops[0];
      assert op in ops;
      StepTiles(b, lim, released, op);
      OneSequencePerCall(b, lim, op);
      assert Accounted(b, lim, op);
      StepStaysBehind(b, lim, released, op, acked);
      hide Sound, Apply, Frontier, Calls, Behind, EarlyAck;
      var here := Calls(b, lim, op);
      RunStaysBehind(Apply(b, lim, op), lim, Frontier(b, released, op), ops[1..], Marked(acked, here));
      MarkedSplits(acked, here, RunCalls(Apply(b, lim, op), lim, ops[1..]));
    }
  }

  /**
   At the end of any run in which the peer acknowledged only what it was sent, a queued record
   to be kept was offered to the journal exactly once, and no recorded watermark reaches it.
   Module Survival says when it then outlives a power loss.
   */
  lemma QueuedStaysUnacked(boot: u64, cursor: Cursor, lim: Limits, ops: seq<Op>, acked: map<nat, nat>, r: Rec)
    requires ValidLimits(lim) && 1 + |ops| <= MASK64 && AllWellFormed(ops)
    requires Watermark(acked, boot) == 0 && NoEarlyAck(NewBox(boot, cursor), lim, ops)
    requires Queued(Run(NewBox(boot, cursor), lim, ops), r) && r.sequence !in RunUnkept(NewBox(boot, cursor), lim, ops)
    ensures var calls := RunCalls(NewBox(boot, cursor), lim, ops);
            && Watermark(Marked(acked, calls), boot) < r.sequence
            && exists i :: 0 <= i < |calls| && Stages(calls[i], r)
                        && forall j :: 0 <= j < |calls| && calls[j].Stage? && calls[j].sequence == r.sequence ==> j == i
  {
    var start := NewBox(boot, cursor);
    InitiallySound(boot, cursor, lim);
    RunsTile(start, lim, 1, ops);
    RunStaysBehind(start, lim, 1, ops, acked);
    RunBoot(start, lim, ops);
    StagedExactlyOnce(boot, cursor, lim, ops, r);
  }

  lemma {:induction false} RunBoot(b: Box, lim: Limits, ops: seq<Op>)
    ensures Run(b, lim, ops).boot == b.boot
    decreases ops
  {
    if ops != [] {
      OneSequencePerCall(b, lim, ops[0]);
      RunBoot(Apply(b, lim, ops[0]), lim, ops[1..]);
    }
  }

  /**
   The peer's HELLO answer names the highest number it holds for this boot.  If the random
   boot number repeats an earlier one, that is an early ACK: the first record of the session
   is queued and staged, and a reboot would take it for acknowledged.
   */
  lemma RepeatedBootHidesRecord(boot: u64, cursor: Cursor, lim: Limits, held: nat, at: u64, acked: map<nat, nat>)
    requires ValidLimits(lim) && lim.durable > 1 && held > 0
    ensures var ops := [AckOp(boot, held), State(0, at, LINK_OFFLINE, 0)];
            var b, calls := Run(NewBox(boot, cursor), lim, ops), RunCalls(NewBox(boot, cursor), lim, ops);
            && |b.durable| == 1 && b.durable[0].sequence == 1 <= Watermark(Marked(acked, calls), boot)
            && |calls| == 2 && Stages(calls[1], b.durable[0])
  {
    hide PageInto, Encode, Stages, Marked;
    var start, first, second := NewBox(boot, cursor), AckOp(boot, held), State(0, at, LINK_OFFLINE, 0);
    var ops := [first, second];
    var after := Apply(start, lim, first);
    assert Live(start) == [] && after.next == 1 && after.durable == [] && after.large == [] && after.count == 0 && after.boot == boot;
    var payload := LinkStatePayload(at, LINK_OFFLINE, 0);
    WrittenIsStaged(LINK_STATE, FLAG_CRITICAL, 1, boot, 0, at, payload, true);
    RunOfTwo(start, lim, first, second);
    var calls := RunCalls(start, lim, ops);
    assert calls[0] == RecordAck(boot, held);
    MarkIsMaximum(acked, calls, boot);
  }

  lemma RunOfTwo(b: Box, lim: Limits, first: Op, second: Op)
    ensures Run(b, lim, [first, second]) == Apply(Apply(b, lim, first), lim, second)
    ensures RunCalls(b, lim, [first, second]) == Calls(b, lim, first) + Calls(Apply(b, lim, first), lim, second)
  {
    hide Apply, Calls;
    var after := Apply(b, lim, first);
    var there := Apply(after, lim, second);
    assert [first, second][1..] == [second] && [second][1..] == [];
    assert Run(after, lim, [second]) == Run(there, lim, []) == there;
    assert RunCalls(after, lim, [second]) == Calls(after, lim, second) + RunCalls(there, lim, []);
  }
}
