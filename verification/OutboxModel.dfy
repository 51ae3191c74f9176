/**
 The delivery outbox of `pico/bmcu_binary_outbox.py` as a state machine on values: what each
 operation does to the rings, the pending loss range and the sequence counter.  The class in
 module Outboxes is proved to perform exactly these steps.
 */
module OutboxModel {
  import opened Options
  import opened Bytes
  import opened Bmb1Codec
  import opened ByteRings
  import opened Replay

  const STATUS_KIND: nat := 2
  const EVENT_KIND: nat := 3
  const DELIVERY_SLOT_SIZE: nat := 128
  const STATUS_SLOT_SIZE: nat := 80
  const PAGE_LIMIT: nat := 16
  const LINK_OFFLINE: byte := 4
  const LINK_INCOMPATIBLE: byte := 5

  /** Slot counts of the rings. */
  datatype Limits = Limits(durable: nat, large: nat, links: nat)

  datatype Box = Box(
    boot: u64, next: nat,
    first: nat, last: nat, count: nat, observedAt: u64,
    durable: seq<Rec>, large: seq<Rec>, replay: seq<Rec>, latest: seq<Rec>, current: seq<Rec>,
    cursor: Cursor, replacements: nat, lastAck: nat)

  /** A sequence (or 0), or an exception that left the call. */
  datatype Reply = Done(sequence: nat) | Raised

  datatype Offer = Head(rec: Rec) | Nothing | Failed

  function NewBox(boot: u64, cursor: Cursor): Box {
    Box(boot, 1, 0, 0, 0, 0, [], [], [], [], [], cursor, 0, 0)
  }

  // ----- Losses -----

  function ReserveDrop(b: Box, at: u64): Box {
    if b.count == 0 then b.(first := b.next, last := b.next, count := 1, next := b.next + 1, observedAt := at)
    else b.(last := b.next, count := b.count + 1, next := b.next + 1, observedAt := at)
  }

  /** The just-allocated sequence becomes the start of a loss range. */
  function Forced(b: Box, sequence: nat, at: u64): Box {
    b.(first := sequence, last := sequence, count := 1, observedAt := at)
  }

  // ----- Storing one encoded message -----

  function DurableLimit(lim: Limits, useReserve: bool): nat {
    if lim.durable > 1 && !useReserve then lim.durable - 1 else lim.durable
  }

  predicate Fits(b: Box, lim: Limits, size: nat, useReserve: bool) {
    if size <= DELIVERY_SLOT_SIZE then |b.durable| < DurableLimit(lim, useReserve)
    else size <= LARGE_SLOT_SIZE && |b.large| < lim.large
  }

  /** Whether this message is stored in a ring rather than refused or lost; its number is taken first. */
  predicate Stores(b: Box, lim: Limits, message: Encoded) {
    message.Encoded? && Fits(b.(next := b.next + 1), lim, |message.bytes|, false)
  }

  function Store(b: Box, sequence: nat, bytes: seq<byte>, isGuarded: bool): Box {
    if |bytes| <= DELIVERY_SLOT_SIZE then b.(durable := b.durable + [Rec(sequence, bytes, isGuarded, -1)])
    else b.(large := b.large + [Rec(sequence, bytes, isGuarded, -1)])
  }

  /** Allocate, encode, store; a message that does not fit turns into a loss. */
  function Admit(b: Box, lim: Limits, message: Encoded, at: u64, isGuarded: bool, codecErrorDrops: bool): (Box, Reply) {
    var taken := b.(next := b.next + 1);
    match message
    case PackError => (taken, Raised)
    case CodecError => if codecErrorDrops then (Forced(taken, b.next, at), Done(0)) else (taken, Raised)
    case Encoded(bytes) =>
      if Fits(taken, lim, |bytes|, false) then (Store(taken, b.next, bytes, isGuarded), Done(b.next))
      else (Forced(taken, b.next, at), Done(0))
  }

  // ----- Producers -----

  function StatusRec(link: int, at: u64, wire: seq<byte>): Rec
    requires |wire| + 10 <= STATUS_SLOT_SIZE
  {
    FieldWidths();
    Rec(0, BE(at, 8) + BE(|wire|, 2) + wire, false, link)
  }

  function EnqueueStatus(b: Box, lim: Limits, link: int, at: u64, wire: seq<byte>): (Box, Reply) {
    if |wire| + 10 > STATUS_SLOT_SIZE then (ReserveDrop(b, at), Done(0))
    else
      var r := StatusRec(link, at, wire);
      var outcome := AppendOutcome(b.latest, lim.links, STATUS_SLOT_SIZE, r);
      if outcome == Full then (b, Raised)
      else
        var stored := b.(latest := AppendQueue(b.latest, lim.links, STATUS_SLOT_SIZE, r),
                         replacements := if outcome == Replaced then b.replacements + 1 else b.replacements);
        var frame := WriteBmcuFrame(0, 0, b.boot, link, at, wire);
        if !frame.Encoded? then (stored, Raised)
        else
          var c := Rec(0, frame.bytes, false, link);
          (stored.(current := AppendQueue(b.current, lim.links, DELIVERY_SLOT_SIZE, c)),
           if AppendOutcome(b.current, lim.links, DELIVERY_SLOT_SIZE, c) == Full then Raised else Done(0))
  }

  function EnqueueRaw(b: Box, lim: Limits, link: int, at: u64, wire: seq<byte>, kind: nat): (Box, Reply) {
    if kind == STATUS_KIND then EnqueueStatus(b, lim, link, at, wire)
    else if b.count > 0 then (ReserveDrop(b, at), Done(0))
    else
      var flags := if kind == EVENT_KIND then FLAG_CRITICAL else 0;
      Admit(b, lim, WriteBmcuFrame(flags, b.next, b.boot, link, at, wire), at, kind == EVENT_KIND, false)
  }

  function EnqueueLinkState(b: Box, lim: Limits, link: int, at: u64, state: byte, reason: byte): (Box, Reply) {
    if b.count > 0 then (ReserveDrop(b, at), Done(0))
    else
      var flags := if state == LINK_OFFLINE || state == LINK_INCOMPATIBLE then FLAG_CRITICAL else 0;
      Admit(b, lim, WriteMessage(LINK_STATE, flags, b.next, b.boot, link, LinkStatePayload(at, state, reason)), at, true, false)
  }

  function EnqueuePayload(b: Box, lim: Limits, kind: byte, flags: nat, link: int, at: u64, payload: seq<byte>): (Box, Reply) {
    if b.count > 0 then (ReserveDrop(b, at), Done(0))
    else Admit(b, lim, WriteMessage(kind, flags, b.next, b.boot, link, payload), at, (flags / 2) % 2 == 1, true)
  }

  // ----- The consumer -----

  /** The two rings merged as `_next_live_head` walks them. */
  function Merge(d: seq<Rec>, l: seq<Rec>): (m: seq<Rec>)
    ensures |m| == |d| + |l|
  {
    if d == [] then l
    else if l == [] || d[0].sequence <= l[0].sequence then [d[0]] + Merge(d[1..], l)
    else [l[0]] + Merge(d, l[1..])
  }

  function Live(b: Box): seq<Rec> { Merge(b.durable, b.large) }

  function PopLive(b: Box): Box
    requires Live(b) != []
  {
    if b.durable == [] then b.(large := b.large[1..])
    else if b.large == [] || b.durable[0].sequence <= b.large[0].sequence then b.(durable := b.durable[1..])
    else b.(large := b.large[1..])
  }

  /** `materialize_drop`; None when writing the marker raises. */
  function MaterializeDrop(b: Box, lim: Limits): Option<Box> {
    if b.count == 0 || |b.durable| == lim.durable then Some(b)
    else
      var marker := WriteTransportDrop(FLAG_CRITICAL, b.first, b.boot, b.observedAt, b.first, b.last, b.count, DROP_RAM_QUEUE_FULL);
      if !marker.Encoded? then None
      else if !Fits(b, lim, |marker.bytes|, true) then Some(b)
      else Some(Store(b, b.first, marker.bytes, true).(first := 0, last := 0, count := 0, observedAt := 0))
  }

  predicate StatusReady(b: Box) {
    b.count == 0 && b.durable == [] && b.large == [] && b.latest != []
  }

  /** `materialize_status`: the box, and whether the call raised. */
  function MaterializeStatus(b: Box, lim: Limits): (Box, bool) {
    if !StatusReady(b) then (b, false)
    else
      var taken := b.(next := b.next + 1);
      var message := WriteMessage(BMCU_FRAME, 0, b.next, b.boot, b.latest[0].key, b.latest[0].data);
      if !message.Encoded? then (taken, true)
      else if !Fits(taken, lim, |message.bytes|, false) then
        (taken.(first := b.next, last := b.next, count := 1), false)
      else (Store(taken, b.next, message.bytes, false).(latest := ReleaseQueue(b.latest, 0)), false)
  }

  function Page(b: Box): Box {
    var (c, q) := PageInto(b.cursor, b.replay, REPLAY_SLOTS, PAGE_LIMIT);
    b.(cursor := c, replay := q)
  }

  function NextHead(b: Box): Offer {
    if Live(b) != [] then Head(Live(b)[0])
    else if b.replay != [] then Head(b.replay[0])
    else Nothing
  }

  function Peek(b: Box, lim: Limits): (Box, Offer) {
    match MaterializeDrop(b, lim)
    case None => (b, Failed)
    case Some(announced) =>
      var (ready, raised) := MaterializeStatus(Page(announced), lim);
      (ready, if raised then Failed else NextHead(ready))
  }

  function HeaderBoot(bytes: seq<byte>): nat { if |bytes| >= 28 then FromBE(bytes[20..28]) else 0 }

  function ReleaseLive(b: Box, watermark: nat): Box
    decreases |Live(b)|
  {
    if Live(b) == [] || Live(b)[0].sequence > watermark then b else ReleaseLive(PopLive(b), watermark)
  }

  function Release(b: Box, boot: nat, watermark: nat): Box {
    if boot == b.boot then ReleaseLive(b, watermark)
    else if b.replay != [] && HeaderBoot(b.replay[0].data) == boot && b.replay[0].sequence <= watermark
    then b.(replay := b.replay[1..])
    else b
  }

  /** `acknowledge`: release, remember the watermark, page. */
  function Acknowledge(b: Box, boot: nat, watermark: nat): Box {
    var r := Release(b, boot, watermark);
    Page(if boot == b.boot then r.(lastAck := Max(b.lastAck, watermark)) else r)
  }

  /** How many records the ACK releases. */
  function Released(b: Box, boot: nat, watermark: nat): int {
    var r := Release(b, boot, watermark);
    |Live(b)| + |b.replay| - |Live(r)| - |r.replay|
  }

  // ----- One call, and a run of calls -----

  datatype Op =
    | Raw(link: int, at: u64, wire: seq<byte>, kind: nat)
    | State(link: int, at: u64, state: byte, reason: byte)
    | Payload(recordType: byte, flags: nat, link: int, at: u64, payload: seq<byte>, journalRecord: bool)
    | PeekOp
    | AckOp(boot: nat, watermark: nat)

  function Apply(b: Box, lim: Limits, op: Op): Box {
    match op
    case Raw(link, at, wire, kind) => EnqueueRaw(b, lim, link, at, wire, kind).0
    case State(link, at, state, reason) => EnqueueLinkState(b, lim, link, at, state, reason).0
    case Payload(recordType, flags, link, at, payload, _) => EnqueuePayload(b, lim, recordType, flags, link, at, payload).0
    case PeekOp => Peek(b, lim).0
    case AckOp(boot, watermark) => Acknowledge(b, boot, watermark)
  }

  // ----- What the journal is told -----

  datatype JournalCall =
    | Stage(kind: byte, flags: nat, link: int, sequence: nat, at: u64, payload: seq<byte>)
    | RecordAck(boot: nat, watermark: nat)

  /** A stored message is staged with what stands behind its header. */
  function StageStored(b: Box, lim: Limits, kind: byte, flags: nat, link: int, at: u64, message: Encoded): seq<JournalCall>
    requires message.Encoded? ==> |message.bytes| >= HEADER_SIZE
  {
    if Stores(b, lim, message) then [Stage(kind, flags, link, b.next, at, message.bytes[HEADER_SIZE..])] else []
  }

  function RawCalls(b: Box, lim: Limits, link: int, at: u64, wire: seq<byte>, kind: nat): seq<JournalCall> {
    if kind == STATUS_KIND || b.count > 0 then []
    else
      var flags := if kind == EVENT_KIND then FLAG_CRITICAL else 0;
      StageStored(b, lim, BMCU_FRAME, flags, link, at, WriteBmcuFrame(flags, b.next, b.boot, link, at, wire))
  }

  function StateCalls(b: Box, lim: Limits, link: int, at: u64, state: byte, reason: byte): seq<JournalCall> {
    if b.count > 0 then []
    else
      var flags := if state == LINK_OFFLINE || state == LINK_INCOMPATIBLE then FLAG_CRITICAL else 0;
      StageStored(b, lim, LINK_STATE, flags, link, at,
                  WriteMessage(LINK_STATE, flags, b.next, b.boot, link, LinkStatePayload(at, state, reason)))
  }

  function PayloadCalls(b: Box, lim: Limits, kind: byte, flags: nat, link: int, at: u64, payload: seq<byte>,
                        journalRecord: bool): seq<JournalCall> {
    if b.count > 0 || !journalRecord || !Stores(b, lim, WriteMessage(kind, flags, b.next, b.boot, link, payload)) then []
    else [Stage(kind, flags, link, b.next, at, payload)]
  }

  function DropCalls(b: Box, lim: Limits): seq<JournalCall> {
    if b.count == 0 || |b.durable| == lim.durable then []
    else
      var marker := WriteTransportDrop(FLAG_CRITICAL, b.first, b.boot, b.observedAt, b.first, b.last, b.count, DROP_RAM_QUEUE_FULL);
      if !marker.Encoded? || !Fits(b, lim, |marker.bytes|, true) then []
      else [Stage(TRANSPORT_DROP, FLAG_CRITICAL, GLOBAL_SCOPE as int, b.first, b.observedAt, marker.bytes[HEADER_SIZE..])]
  }

  /** The calls on the journal that one call on the outbox makes, in order. */
  function Calls(b: Box, lim: Limits, op: Op): seq<JournalCall> {
    match op
    case Raw(link, at, wire, kind) => RawCalls(b, lim, link, at, wire, kind)
    case State(link, at, state, reason) => StateCalls(b, lim, link, at, state, reason)
    case Payload(recordType, flags, link, at, payload, journalRecord) =>
      PayloadCalls(b, lim, recordType, flags, link, at, payload, journalRecord)
    case PeekOp => DropCalls(b, lim)
    case AckOp(boot, watermark) => [RecordAck(boot, watermark)]
  }
}
