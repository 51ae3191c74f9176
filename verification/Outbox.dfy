/** `BMB1Outbox` and `JournalReplayCursor` in the source's own form, over real byte rings. */
module Outboxes {
  import opened Options
  import opened Bytes
  import opened Bmb1Codec
  import opened ByteRings
  import opened Replay
  import opened OutboxContent
  import opened OutboxModel

  class JournalReplayCursor {
    var pending: Option<JournalRecord>
    var records: seq<JournalRecord>
    var nextSequences: map<nat, nat>

    ghost function View(): Cursor
      reads this
    {
      Cursor(pending, records, nextSequences)
    }

    /** Over the records recovered from the journal, in file order. */
    constructor (history: seq<JournalRecord>, watermarks: map<nat, nat>)
      ensures View() == Open(history, watermarks)
    {
      var start := Open(history, watermarks);
      pending, records, nextSequences := start.pending, start.remaining, start.next;
    }

    /** The fetching half of the loop: pull records until one is due. */
    static method Fetch(pending: Option<JournalRecord>, records: seq<JournalRecord>, starts: map<nat, nat>)
      returns (next: Option<JournalRecord>, rest: seq<JournalRecord>)
      ensures Cursor(next, rest, starts) == Settle(Cursor(pending, records, starts))
    {
      next, rest := pending, records;
      while true
        invariant Settle(Cursor(next, rest, starts)) == Settle(Cursor(pending, records, starts))
        decreases Left(Cursor(next, rest, starts))
      {
        if next == None {
          if rest == [] {
            return;
          }
          next, rest := Some(rest[0]), rest[1..];
        } else {
          var j := next.value;
          var expected := if j.boot in starts then starts[j.boot] else j.sequence;
          if j.sequence >= expected {
            return;
          }
          next := None;
        }
      }
    }

    method PageInto(outbox: Outbox, limit: nat) returns (loaded: nat)
      requires outbox.Valid() && outbox.replay.Valid() && outbox.pager == this
      modifies this, outbox.replay.Repr
      ensures outbox.Valid() && outbox.replay.Valid()
      ensures (View(), outbox.replay.Contents())
           == Replay.PageInto(old(View()), old(outbox.replay.Contents()), outbox.replay.capacity, limit)
      ensures loaded == |outbox.replay.Contents()| - old(|outbox.replay.Contents()|)
    {
      hide RestoredMessage, HoleEnd, Settle, ByteRing.Valid, ByteRing.Shaped, ByteRing.Contents, ReadsBack, HoleRecord, RestoredRec, IsMessage;
      loaded := 0;
      // the fields are worked on as locals and stored back on exit
      var next, rest := pending, records;
      var starts: map<nat, nat> := nextSequences;
      ghost var before := (View(), outbox.replay.Contents());
      ghost var size := |outbox.replay.Contents()|;
      while loaded < limit
        invariant loaded <= limit && outbox.Valid() && outbox.replay.Valid() && unchanged(this)
        invariant |outbox.replay.Contents()| == size + loaded
        invariant Replay.PageInto(Cursor(next, rest, starts), outbox.replay.Contents(), outbox.replay.capacity, limit - loaded)
               == Replay.PageInto(before.0, before.1, outbox.replay.capacity, limit)
      {
        hide Outbox.Valid, Replay.PageInto;
        PageStep(Cursor(next, rest, starts), outbox.replay.Contents(), outbox.replay.capacity, limit - loaded);
        next, rest := Fetch(next, rest, starts);
        if next == None {
          break;
        }
        var j := next.value;
        var expected := if j.boot in starts then starts[j.boot] else j.sequence;
        var hole := j.sequence > expected;
        var ok := outbox.Restore(if hole then HoleRecord(j, expected, HoleEnd(j.sequence, expected)) else j);
        if !ok {
          break;
        }
        loaded := loaded + 1;
        if hole {
          starts := starts[j.boot := HoleEnd(j.sequence, expected) + 1];
        } else {
          starts := starts[j.boot := j.sequence + 1];
          next := None;
        }
      }
      pending, records, nextSequences := next, rest, starts;
    }
  }

  class Outbox {
    const picoBootId: u64
    const durable: ByteRing
    const large: ByteRing
    const replay: ByteRing
    const latestStatus: ByteRing
    const currentStatus: ByteRing
    const pager: JournalReplayCursor
    const hasJournal: bool
    ghost const Repr: set<object>
    var nextSequence: nat
    var forcedDropFirst: nat
    var forcedDropLast: nat
    var forcedDropCount: nat
    var forcedDropObservedAt: u64
    var statusReplacements: nat
    var lastAckWatermark: nat
    var journalFailureCount: nat
    /** The calls made on the journal so far. */
    ghost var calls: seq<JournalCall>

    ghost predicate Valid()
      reads this, Repr - {pager}
    {
      && {this, pager, durable, large, replay, latestStatus, currentStatus} <= Repr
      && durable.Repr <= Repr && large.Repr <= Repr && replay.Repr <= Repr
      && latestStatus.Repr <= Repr && currentStatus.Repr <= Repr
      && this !in durable.Repr && this !in large.Repr && this !in replay.Repr
      && this !in latestStatus.Repr && this !in currentStatus.Repr
      && pager !in durable.Repr && pager !in large.Repr && pager !in replay.Repr
      && pager !in latestStatus.Repr && pager !in currentStatus.Repr
      && durable.Repr !! large.Repr && durable.Repr !! replay.Repr && durable.Repr !! latestStatus.Repr
      && durable.Repr !! currentStatus.Repr && large.Repr !! replay.Repr && large.Repr !! latestStatus.Repr
      && large.Repr !! currentStatus.Repr && replay.Repr !! latestStatus.Repr
      && replay.Repr !! currentStatus.Repr && latestStatus.Repr !! currentStatus.Repr
      && durable.Valid() && large.Valid() && replay.Valid() && latestStatus.Valid() && currentStatus.Valid()
      && durable.slotSize == DELIVERY_SLOT_SIZE && large.slotSize == LARGE_SLOT_SIZE
      && replay.slotSize == LARGE_SLOT_SIZE && replay.capacity == REPLAY_SLOTS
      && latestStatus.slotSize == STATUS_SLOT_SIZE && currentStatus.slotSize == DELIVERY_SLOT_SIZE
      && latestStatus.capacity == currentStatus.capacity
    }

    ghost function Caps(): Limits { Limits(durable.capacity, large.capacity, latestStatus.capacity) }

    ghost function View(): Box
      requires Valid()
      reads this, Repr
    {
      Box(picoBootId, nextSequence, forcedDropFirst, forcedDropLast, forcedDropCount, forcedDropObservedAt,
          durable.Contents(), large.Contents(), replay.Contents(), latestStatus.Contents(), currentStatus.Contents(),
          pager.View(), statusReplacements, lastAckWatermark)
    }

    /** What reaches the journal, if there is one. */
    ghost function Told(more: seq<JournalCall>): seq<JournalCall> { if hasJournal then more else [] }

    static method DeliveryRings(durableSlots: nat, largeSlots: nat) returns (d: ByteRing, l: ByteRing, r: ByteRing)
      requires 0 < durableSlots && 0 < largeSlots
      ensures d.Valid() && l.Valid() && r.Valid() && fresh(d.Repr + l.Repr + r.Repr)
      ensures d.Repr !! l.Repr && d.Repr !! r.Repr && l.Repr !! r.Repr
      ensures d.Contents() == [] && d.capacity == durableSlots && d.slotSize == DELIVERY_SLOT_SIZE
      ensures l.Contents() == [] && l.capacity == largeSlots && l.slotSize == LARGE_SLOT_SIZE
      ensures r.Contents() == [] && r.capacity == REPLAY_SLOTS && r.slotSize == LARGE_SLOT_SIZE
    {
      hide ByteRing.Valid, ByteRing.Shaped, ByteRing.Contents;
      d := new ByteRing(durableSlots, DELIVERY_SLOT_SIZE);
      l := new ByteRing(largeSlots, LARGE_SLOT_SIZE);
      r := new ByteRing(REPLAY_SLOTS, LARGE_SLOT_SIZE);
    }

    constructor (bootId: u64, linkCount: nat, durableSlots: nat, largeSlots: nat, withJournal: bool, cursor: JournalReplayCursor)
      requires 0 < linkCount && 0 < durableSlots && 0 < largeSlots
      ensures Valid() && fresh(Repr - {cursor})
      ensures View() == NewBox(bootId, cursor.View())
      ensures Caps() == Limits(durableSlots, largeSlots, linkCount)
      ensures hasJournal == withJournal && calls == [] && journalFailureCount == 0
    {
      hide ByteRing.Valid, ByteRing.Shaped, ByteRing.Contents;
      var d, l, r := DeliveryRings(durableSlots, largeSlots);
      var s := new ByteRing(linkCount, STATUS_SLOT_SIZE);
      var c := new ByteRing(linkCount, DELIVERY_SLOT_SIZE);
      picoBootId, pager, hasJournal := bootId, cursor, withJournal;
      durable, large, replay, latestStatus, currentStatus := d, l, r, s, c;
      nextSequence, forcedDropFirst, forcedDropLast, forcedDropCount, forcedDropObservedAt := 1, 0, 0, 0, 0;
      statusReplacements, lastAckWatermark, journalFailureCount, calls := 0, 0, 0, [];
      Repr := {this, cursor} + d.Repr + l.Repr + r.Repr + s.Repr + c.Repr;
      new;
      assert durable.Valid() && large.Valid() && replay.Valid() && latestStatus.Valid() && currentStatus.Valid();
    }

    /** `restore`: re-encode a journal record with the REPLAY flag. */
    method Restore(j: JournalRecord) returns (ok: bool)
      requires Valid()
      modifies replay.Repr
      ensures Valid() && replay.Valid() && ok == CanRestore(old(replay.Contents()), replay.capacity, j)
      ensures replay.Contents() == if ok then old(replay.Contents()) + [RestoredRec(j)] else old(replay.Contents())
      ensures ok <==> j.flags <= 0x1F && |j.payload| <= 4096 && |old(replay.Contents())| < replay.capacity
      ensures ok ==> ReadsBack(replay.Contents()[|old(replay.Contents())|], j)
    {
      hide ByteRing.Valid, ByteRing.Shaped, ByteRing.Contents, ReadsBack;
      RestoredReads(j);
      var message := WriteMessage(j.kind, WithReplayFlag(j.flags), j.sequence, j.boot, j.link, j.payload);
      if !message.Encoded? {
        return false;
      }
      var outcome := replay.Append(j.sequence, message.bytes, true, -1);
      ok := outcome == Appended;
    }

    method ReserveDrop(at: u64)
      requires Valid()
      modifies this
      ensures Valid() && View() == OutboxModel.ReserveDrop(old(View()), at)
      ensures unchanged(`calls, `journalFailureCount)
    {
      hide ByteRing.Valid, ByteRing.Shaped, ByteRing.Contents;
      if forcedDropCount == 0 {
        forcedDropFirst := nextSequence;
      }
      forcedDropLast := nextSequence;
      nextSequence := nextSequence + 1;
      forcedDropCount := forcedDropCount + 1;
      forcedDropObservedAt := at;
    }

    /** `journal.stage`; `accepts` is false when the journal raises for want of room. */
    method StageRecord(kind: byte, flags: nat, link: int, sequence: nat, at: u64, payload: seq<byte>, accepts: bool)
      modifies `calls, `journalFailureCount
      ensures calls == old(calls) + Told([Stage(kind, flags, link, sequence, at, payload)])
      ensures journalFailureCount == old(journalFailureCount) + (if hasJournal && !accepts then 1 else 0)
    {
      if hasJournal {
        calls := calls + [Stage(kind, flags, link, sequence, at, payload)];
        if !accepts {
          journalFailureCount := journalFailureCount + 1;
        }
      }
    }

    /** `_append_message`: choose the ring by size, keeping the reserve slot for markers. */
    method AppendMessage(sequence: nat, message: seq<byte>, isGuarded: bool, useReserve: bool) returns (ok: bool)
      requires Valid()
      modifies durable.Repr, large.Repr
      ensures Valid() && ok == Fits(old(View()), Caps(), |message|, useReserve)
      ensures View() == if ok then Store(old(View()), sequence, message, isGuarded) else old(View())
    {
      hide ByteRing.Valid, ByteRing.Shaped, ByteRing.Contents;
      if |message| <= DELIVERY_SLOT_SIZE {
        var limit := durable.capacity;
        if durable.capacity > 1 && !useReserve {
          limit := limit - 1;
        }
        if durable.count >= limit {
          return false;
        }
        var outcome := durable.Append(sequence, message, isGuarded, -1);
        ok := outcome == Appended;
      } else if |message| <= LARGE_SLOT_SIZE {
        if large.count >= large.capacity {
          return false;
        }
        var outcome := large.Append(sequence, message, isGuarded, -1);
        ok := outcome == Appended;
      } else {
        ok := false;
      }
    }

    /** The common tail of the producers: allocate, encode, store or start a loss. */
    method AdmitMessage(message: Encoded, at: u64, isGuarded: bool, codecErrorDrops: bool) returns (reply: Reply, stored: bool)
      requires Valid()
      modifies this, durable.Repr, large.Repr
      ensures Valid() && (View(), reply) == Admit(old(View()), Caps(), message, at, isGuarded, codecErrorDrops)
      ensures stored == Stores(old(View()), Caps(), message)
      ensures unchanged(`calls, `journalFailureCount)
    {
      hide ByteRing.Valid, ByteRing.Shaped, ByteRing.Contents, Fits, Store;
      var sequence := nextSequence;
      nextSequence := nextSequence + 1;
      var ok := false;
      match message {
        case PackError => return Raised, false;
        case CodecError =>
          if !codecErrorDrops {
            return Raised, false;
          }
        case Encoded(bytes) =>
          ok := AppendMessage(sequence, bytes, isGuarded, false);
      }
      if ok {
        return Done(sequence), true;
      }
      forcedDropFirst, forcedDropLast, forcedDropCount, forcedDropObservedAt := sequence, sequence, 1, at;
      return Done(0), false;
    }

    method EnqueueStatus(link: int, at: u64, wire: seq<byte>) returns (reply: Reply)
      requires Valid()
      modifies Repr
      ensures Valid() && (View(), reply) == OutboxModel.EnqueueStatus(old(View()), Caps(), link, at, wire)
      ensures unchanged(`calls, `journalFailureCount)
    {
      hide ByteRing.Valid, ByteRing.Shaped, ByteRing.Contents;
      if |wire| + 10 > STATUS_SLOT_SIZE {
        ReserveDrop(at);
        return Done(0);
      }
      FieldWidths();
      var outcome := latestStatus.Append(0, BE(at, 8) + BE(|wire|, 2) + wire, false, link);
      if outcome == Full {
        return Raised;
      }
      if outcome == Replaced {
        statusReplacements := statusReplacements + 1;
      }
      var frame := WriteBmcuFrame(0, 0, picoBootId, link, at, wire);
      if !frame.Encoded? {
        return Raised;
      }
      outcome := currentStatus.Append(0, frame.bytes, false, link);
      return if outcome == Full then Raised else Done(0);
    }

    method EnqueueRaw(link: int, at: u64, wire: seq<byte>, kind: nat, accepts: bool) returns (reply: Reply)
      requires Valid()
      modifies Repr
      ensures Valid() && (View(), reply) == OutboxModel.EnqueueRaw(old(View()), Caps(), link, at, wire, kind)
      ensures var more := Told(RawCalls(old(View()), Caps(), link, at, wire, kind));
              calls == old(calls) + more && journalFailureCount == old(journalFailureCount) + (if accepts then 0 else |more|)
    {
      hide ByteRing.Valid, ByteRing.Shaped, ByteRing.Contents;
      if kind == STATUS_KIND {
        reply := EnqueueStatus(link, at, wire);
      } else if forcedDropCount > 0 {
        ReserveDrop(at);
        reply := Done(0);
      } else {
        var flags := if kind == EVENT_KIND then FLAG_CRITICAL else 0;
        var message := WriteBmcuFrame(flags, nextSequence, picoBootId, link, at, wire);
        var stored: bool;
        reply, stored := AdmitMessage(message, at, kind == EVENT_KIND, false);
        if stored {
          StageRecord(BMCU_FRAME, flags, link, reply.sequence, at, message.bytes[HEADER_SIZE..], accepts);
        }
      }
    }

    method EnqueueLinkState(link: int, at: u64, state: byte, reason: byte, accepts: bool) returns (reply: Reply)
      requires Valid()
      modifies Repr
      ensures Valid() && (View(), reply) == OutboxModel.EnqueueLinkState(old(View()), Caps(), link, at, state, reason)
      ensures var more := Told(StateCalls(old(View()), Caps(), link, at, state, reason));
              calls == old(calls) + more && journalFailureCount == old(journalFailureCount) + (if accepts then 0 else |more|)
    {
      hide ByteRing.Valid, ByteRing.Shaped, ByteRing.Contents;
      if forcedDropCount > 0 {
        ReserveDrop(at);
        return Done(0);
      }
      var flags := if state == LINK_OFFLINE || state == LINK_INCOMPATIBLE then FLAG_CRITICAL else 0;
      var message := WriteMessage(LINK_STATE, flags, nextSequence, picoBootId, link, LinkStatePayload(at, state, reason));
      var stored: bool;
      reply, stored := AdmitMessage(message, at, true, false);
      if stored {
        StageRecord(LINK_STATE, flags, link, reply.sequence, at, message.bytes[HEADER_SIZE..], accepts);
      }
    }

    method EnqueuePayload(recordType: byte, flags: nat, link: int, at: u64, payload: seq<byte>,
                          journalRecord: bool, accepts: bool) returns (reply: Reply)
      requires Valid()
      modifies Repr
      ensures Valid() && (View(), reply) == OutboxModel.EnqueuePayload(old(View()), Caps(), recordType, flags, link, at, payload)
      ensures var more := Told(PayloadCalls(old(View()), Caps(), recordType, flags, link, at, payload, journalRecord));
              calls == old(calls) + more && journalFailureCount == old(journalFailureCount) + (if accepts then 0 else |more|)
    {
      hide ByteRing.Valid, ByteRing.Shaped, ByteRing.Contents;
      if forcedDropCount > 0 {
        ReserveDrop(at);
        return Done(0);
      }
      var message := WriteMessage(recordType, flags, nextSequence, picoBootId, link, payload);
      var stored: bool;
      reply, stored := AdmitMessage(message, at, (flags / 2) % 2 == 1, true);
      if stored && journalRecord {
        StageRecord(recordType, flags, link, reply.sequence, at, payload, accepts);
      }
    }

    /** Whether a marker was stored, unless writing it raises. */
    method MaterializeDrop(accepts: bool) returns (fine: bool, stored: bool)
      requires Valid()
      modifies Repr
      ensures Valid()
      ensures fine == OutboxModel.MaterializeDrop(old(View()), Caps()).Some?
      ensures View() == if fine then OutboxModel.MaterializeDrop(old(View()), Caps()).value else old(View())
      ensures stored <==> old(View()).count > 0 && View().count == 0
      ensures var more := Told(DropCalls(old(View()), Caps()));
              calls == old(calls) + more && journalFailureCount == old(journalFailureCount) + (if accepts then 0 else |more|)
    {
      hide ByteRing.Valid, ByteRing.Shaped, ByteRing.Contents, WriteTransportDrop, Fits, Store;
      if forcedDropCount == 0 || durable.count == durable.capacity {
        return true, false;
      }
      var marker := WriteTransportDrop(FLAG_CRITICAL, forcedDropFirst, picoBootId, forcedDropObservedAt,
                                       forcedDropFirst, forcedDropLast, forcedDropCount, DROP_RAM_QUEUE_FULL);
      if !marker.Encoded? {
        return false, false;
      }
      stored := AppendMessage(forcedDropFirst, marker.bytes, true, true);
      if stored {
        StageRecord(TRANSPORT_DROP, FLAG_CRITICAL, GLOBAL_SCOPE as int, forcedDropFirst, forcedDropObservedAt,
                    marker.bytes[HEADER_SIZE..], accepts);
        forcedDropFirst, forcedDropLast, forcedDropCount, forcedDropObservedAt := 0, 0, 0, 0;
      }
      return true, stored;
    }

    method MaterializeStatus() returns (raised: bool)
      requires Valid()
      modifies Repr
      ensures Valid() && (View(), raised) == OutboxModel.MaterializeStatus(old(View()), Caps())
      ensures unchanged(`calls, `journalFailureCount)
    {
      hide ByteRing.Valid, ByteRing.Shaped, ByteRing.Contents;
      if forcedDropCount > 0 || durable.count > 0 || large.count > 0 || latestStatus.count == 0 {
        return false;
      }
      var head := latestStatus.Peek();
      var sequence := nextSequence;
      nextSequence := nextSequence + 1;
      var message := WriteMessage(BMCU_FRAME, 0, sequence, picoBootId, head.value.key, head.value.data);
      if !message.Encoded? {
        return true;
      }
      var ok := AppendMessage(sequence, message.bytes, false, false);
      if !ok {
        assert false; // both rings are empty and the message fits a slot: the fallback is dead
      }
      var released := latestStatus.ReleaseThrough(0);
      return false;
    }

    /** `_next_live_head`: the ring to serve, and its head. */
    method NextLiveHead() returns (fromDurable: bool, head: Option<Rec>)
      requires Valid()
      ensures head == if Live(View()) == [] then None else Some(Live(View())[0])
      ensures head.Some? ==>
                if fromDurable then durable.Contents() != [] && PopLive(View()) == View().(durable := durable.Contents()[1..])
                else large.Contents() != [] && PopLive(View()) == View().(large := large.Contents()[1..])
    {
      hide ByteRing.Valid, ByteRing.Shaped, ByteRing.Contents;
      var left := durable.Peek();
      var right := large.Peek();
      if left == None {
        return false, right;
      }
      if right == None || left.value.sequence <= right.value.sequence {
        return true, left;
      }
      return false, right;
    }

    method PageReplay()
      requires Valid()
      modifies pager, replay.Repr
      ensures Valid() && View() == Page(old(View()))
    {
      hide ByteRing.Valid, ByteRing.Shaped, ByteRing.Contents;
      var loaded := pager.PageInto(this, PAGE_LIMIT);
    }

    method Peek(accepts: bool) returns (offer: Offer)
      requires Valid()
      modifies Repr
      ensures Valid() && (View(), offer) == OutboxModel.Peek(old(View()), Caps())
      ensures var more := Told(DropCalls(old(View()), Caps()));
              calls == old(calls) + more && journalFailureCount == old(journalFailureCount) + (if accepts then 0 else |more|)
    {
      hide ByteRing.Valid, ByteRing.Shaped, ByteRing.Contents;
      var fine, stored := MaterializeDrop(accepts);
      if !fine {
        return Failed;
      }
      PageReplay();
      var raised := MaterializeStatus();
      if raised {
        return Failed;
      }
      var fromDurable, head := NextLiveHead();
      if head == None {
        head := replay.Peek();
      }
      return if head == None then Nothing else Head(head.value);
    }

    /** Step over the merged head that `_next_live_head` found. */
    method PopLiveHead(fromDurable: bool)
      requires Valid() && Live(View()) != []
      requires if fromDurable then durable.Contents() != [] && PopLive(View()) == View().(durable := durable.Contents()[1..])
               else large.Contents() != [] && PopLive(View()) == View().(large := large.Contents()[1..])
      modifies durable.Repr, large.Repr
      ensures Valid() && View() == PopLive(old(View()))
    {
      hide ByteRing.Valid, ByteRing.Shaped, ByteRing.Contents;
      hide Merge, PopLive;
      if fromDurable {
        var ok := durable.ReleaseOne();
      } else {
        var ok := large.ReleaseOne();
      }
    }

    method ReleaseLiveThrough(watermark: nat) returns (released: nat)
      requires Valid()
      modifies durable.Repr, large.Repr
      ensures Valid() && View() == ReleaseLive(old(View()), watermark)
      ensures released == |Live(old(View()))| - |Live(View())|
    {
      hide ByteRing.Valid, ByteRing.Shaped, ByteRing.Contents, Valid, View, Merge, PopLive;
      released := 0;
      while true
        invariant Valid()
        invariant ReleaseLive(View(), watermark) == ReleaseLive(old(View()), watermark)
        invariant released == |Live(old(View()))| - |Live(View())|
        decreases |Live(View())|
      {
        var fromDurable, head := NextLiveHead();
        if head == None || head.value.sequence > watermark {
          break;
        }
        PopLiveShrinks(View());
        PopLiveHead(fromDurable);
        released := released + 1;
      }
    }

    method ReleaseAcked(bootId: nat, watermark: nat) returns (released: nat)
      requires Valid()
      modifies durable.Repr, large.Repr, replay.Repr
      ensures Valid() && View() == Release(old(View()), bootId, watermark)
      ensures released == Released(old(View()), bootId, watermark)
    {
      hide ByteRing.Valid, ByteRing.Shaped, ByteRing.Contents, ReleaseLive;
      released := 0;
      if bootId == picoBootId {
        released := ReleaseLiveThrough(watermark);
      } else {
        var head := replay.Peek();
        if head.Some? && HeaderBoot(head.value.data) == bootId && head.value.sequence <= watermark {
          var ok := replay.ReleaseOne();
          released := 1;
        }
      }
    }

    method Acknowledge(bootId: nat, watermark: nat) returns (released: nat)
      requires Valid()
      modifies Repr
      ensures Valid() && View() == OutboxModel.Acknowledge(old(View()), bootId, watermark)
      ensures released == Released(old(View()), bootId, watermark)
      ensures calls == old(calls) + Told([RecordAck(bootId, watermark)]) && unchanged(`journalFailureCount)
    {
      hide ByteRing.Valid, ByteRing.Shaped, ByteRing.Contents, Release, Page;
      released := ReleaseAcked(bootId, watermark);
      if hasJournal {
        calls := calls + [RecordAck(bootId, watermark)];
      }
      if bootId == picoBootId {
        lastAckWatermark := Max(lastAckWatermark, watermark);
      }
      PageReplay();
    }
  }

  lemma PopLiveShrinks(b: Box)
    requires Live(b) != []
    ensures |Live(PopLive(b))| == |Live(b)| - 1
  {
  }
}
