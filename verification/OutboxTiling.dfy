/**
 Every sequence the outbox ever allocated is released, queued exactly once, or inside
 exactly one loss range: the invariant behind the peer's contiguous ACK.
 */
module OutboxTiling {
  import opened Bytes
  import opened Bmb1Codec
  import opened ByteRings
  import opened Replay
  import opened OutboxModel

  // ----- The invariant -----

  /** The live records, in merged order, cover from..to-1 with no gap and no overlap. */
  ghost predicate Chain(m: seq<Rec>, boot: nat, from: nat, to: nat) {
    if m == [] then from == to
    else
      var (first, last) := Span(m[0].sequence, m[0].data);
      && m[0].sequence == from == first <= last
      && HeaderBoot(m[0].data) == boot
      && Chain(m[1..], boot, last + 1, to)
  }

  /** Where the chain of live records must end. */
  function Top(b: Box): nat { if b.count > 0 then b.first else b.next }

  predicate IsMarker(r: Rec) { |r.data| >= 56 && r.data[5] == TRANSPORT_DROP }

  ghost predicate StatusSlots(q: seq<Rec>) {
    forall r :: r in q ==> r.sequence == 0 && |r.data| <= STATUS_SLOT_SIZE && 0 <= r.key <= 0xFF
  }

  /**
   `released` is the least sequence not yet released.  A pending loss is the exact range
   first..next-1, so the bounds check of `write_transport_drop` cannot fire; the last
   durable slot only ever holds a marker.
   */
  ghost predicate Sound(b: Box, lim: Limits, released: nat) {
    && 1 <= released && 1 <= b.next
    && Chain(Live(b), b.boot, released, Top(b))
    && (b.count > 0 ==> 1 <= b.first <= b.last && b.last == b.next - 1 && b.count == b.last - b.first + 1)
    && |b.durable| <= lim.durable && |b.large| <= lim.large
    && StatusSlots(b.latest)
    && (lim.durable > 1 && |b.durable| == lim.durable ==> exists r :: r in b.durable && IsMarker(r))
  }

  ghost predicate ValidLimits(lim: Limits) { 0 < lim.durable && 0 < lim.large && 0 < lim.links }

  lemma InitiallySound(boot: u64, cursor: Cursor, lim: Limits)
    requires ValidLimits(lim)
    ensures Sound(NewBox(boot, cursor), lim, 1)
  {
  }

  // ----- Merging -----

  lemma {:induction false} MergeMembers(d: seq<Rec>, l: seq<Rec>)
    ensures forall r :: r in Merge(d, l) <==> r in d || r in l
    decreases |d| + |l|
  {
    if d == [] {
    } else if l == [] || d[0].sequence <= l[0].sequence {
      MergeMembers(d[1..], l);
      assert d == [d[0]] + d[1..];
    } else {
      MergeMembers(d, l[1..]);
      assert l == [l[0]] + l[1..];
    }
  }

  lemma HeadCounts(r: Rec, rest: seq<Rec>)
    ensures multiset([r] + rest) == multiset{r} + multiset(rest)
  {
  }

  /** Merging neither drops nor duplicates a record. */
  lemma {:induction false} MergeCounts(d: seq<Rec>, l: seq<Rec>)
    ensures multiset(Merge(d, l)) == multiset(d) + multiset(l)
    decreases |d| + |l|
  {
    if d == [] {
      assert multiset(d) == multiset{};
    } else if l == [] || d[0].sequence <= l[0].sequence {
      MergeCounts(d[1..], l);
      HeadCounts(d[0], d[1..]);
      HeadCounts(d[0], Merge(d[1..], l));
      assert d == [d[0]] + d[1..];
    } else {
      MergeCounts(d, l[1..]);
      HeadCounts(l[0], l[1..]);
      HeadCounts(l[0], Merge(d, l[1..]));
      assert l == [l[0]] + l[1..];
    }
  }

  /** A record above everything queued goes to the end, whichever ring it enters. */
  lemma {:induction false} MergeSnocLeft(d: seq<Rec>, l: seq<Rec>, r: Rec)
    requires forall x :: x in l ==> x.sequence < r.sequence
    ensures Merge(d + [r], l) == Merge(d, l) + [r]
    decreases |d| + |l|
  {
    if d == [] {
      if l != [] {
        MergeSnocLeft(d, l[1..], r);
      }
    } else if l == [] || d[0].sequence <= l[0].sequence {
      MergeSnocLeft(d[1..], l, r);
      assert (d + [r])[1..] == d[1..] + [r];
    } else {
      MergeSnocLeft(d, l[1..], r);
    }
  }

  lemma {:induction false} MergeSnocRight(d: seq<Rec>, l: seq<Rec>, r: Rec)
    requires forall x :: x in d ==> x.sequence < r.sequence
    ensures Merge(d, l + [r]) == Merge(d, l) + [r]
    decreases |d| + |l|
  {
    if d == [] {
    } else if l == [] || d[0].sequence <= l[0].sequence {
      MergeSnocRight(d[1..], l, r);
    } else {
      MergeSnocRight(d, l[1..], r);
      assert (l + [r])[1..] == l[1..] + [r];
    }
  }

  lemma PopLiveIsTail(b: Box)
    requires Live(b) != []
    ensures Live(PopLive(b)) == Live(b)[1..]
  {
  }

  // ----- Chains -----

  lemma {:induction false} ChainBounds(m: seq<Rec>, boot: nat, from: nat, to: nat)
    requires Chain(m, boot, from, to)
    ensures from <= to
    ensures forall r :: r in m ==> from <= r.sequence < to
    decreases |m|
  {
    if m != [] {
      ChainBounds(m[1..], boot, Span(m[0].sequence, m[0].data).1 + 1, to);
    }
  }

  lemma {:induction false} ChainSnoc(m: seq<Rec>, boot: nat, from: nat, to: nat, r: Rec)
    requires Chain(m, boot, from, to)
    requires r.sequence == to && Span(r.sequence, r.data).0 == to <= Span(r.sequence, r.data).1
    requires HeaderBoot(r.data) == boot
    ensures Chain(m + [r], boot, from, Span(r.sequence, r.data).1 + 1)
    decreases |m|
  {
    if m == [] {
      assert (m + [r])[1..] == [];
    } else {
      assert (m + [r])[1..] == m[1..] + [r];
      ChainSnoc(m[1..], boot, Span(m[0].sequence, m[0].data).1 + 1, to, r);
    }
  }

  /** The merged order is the order of sequences. */
  lemma {:induction false} ChainAscends(m: seq<Rec>, boot: nat, from: nat, to: nat, i: nat, j: nat)
    requires Chain(m, boot, from, to) && i < j < |m|
    ensures m[i].sequence <= Span(m[i].sequence, m[i].data).1 < m[j].sequence
    decreases |m|
  {
    var rest := Span(m[0].sequence, m[0].data).1 + 1;
    if i == 0 {
      ChainBounds(m[1..], boot, rest, to);
      assert m[j] == m[1..][j - 1];
    } else {
      ChainAscends(m[1..], boot, rest, to, i - 1, j - 1);
    }
  }

  /** Every number of the chain is inside exactly one record's range. */
  lemma {:induction false} ChainPartitions(m: seq<Rec>, boot: nat, from: nat, to: nat, n: nat)
    requires Chain(m, boot, from, to) && from <= n < to
    ensures exists i :: 0 <= i < |m| && Owns(m[i], n) && forall j :: 0 <= j < |m| && Owns(m[j], n) ==> j == i
    decreases |m|
  {
    var last := Span(m[0].sequence, m[0].data).1;
    if n <= last {
      assert Owns(m[0], n);
      forall j | 0 < j < |m|
        ensures !Owns(m[j], n)
      {
        ChainAscends(m, boot, from, to, 0, j);
        ChainSpan(m, boot, from, to, j);
      }
    } else {
      ChainPartitions(m[1..], boot, last + 1, to, n);
      var i :| 0 <= i < |m| - 1 && Owns(m[1..][i], n) && forall j :: 0 <= j < |m| - 1 && Owns(m[1..][j], n) ==> j == i;
      forall j | 0 <= j < |m| && Owns(m[j], n)
        ensures j == i + 1
      {
        assert j > 0 && m[j] == m[1..][j - 1];
      }
      assert Owns(m[i + 1], n);
    }
  }

  lemma {:induction false} ChainSpan(m: seq<Rec>, boot: nat, from: nat, to: nat, j: nat)
    requires Chain(m, boot, from, to) && j < |m|
    ensures Span(m[j].sequence, m[j].data).0 == m[j].sequence
    decreases |m|
  {
    if j > 0 {
      ChainSpan(m[1..], boot, Span(m[0].sequence, m[0].data).1 + 1, to, j - 1);
    }
  }

  predicate Owns(r: Rec, n: nat) {
    var (first, last) := Span(r.sequence, r.data);
    first <= n <= last
  }

  // ----- Storing a message extends the chain -----

  /** A stored message becomes the last live record, whichever ring takes it. */
  lemma StoreAppends(b: Box, released: nat, sequence: nat, bytes: seq<byte>, isGuarded: bool)
    requires Chain(Live(b), b.boot, released, sequence)
    ensures Live(Store(b, sequence, bytes, isGuarded)) == Live(b) + [Rec(sequence, bytes, isGuarded, -1)]
  {
    hide Merge, Chain;
    var r := Rec(sequence, bytes, isGuarded, -1);
    ChainBounds(Live(b), b.boot, released, sequence);
    MergeMembers(b.durable, b.large);
    MergeSnocLeft(b.durable, b.large, r);
    MergeSnocRight(b.durable, b.large, r);
  }

  lemma StoreExtends(b: Box, lim: Limits, released: nat, sequence: nat, bytes: seq<byte>, isGuarded: bool, useReserve: bool)
    requires Chain(Live(b), b.boot, released, sequence)
    requires Span(sequence, bytes).0 == sequence <= Span(sequence, bytes).1 && HeaderBoot(bytes) == b.boot
    requires Fits(b, lim, |bytes|, useReserve)
    ensures Chain(Live(Store(b, sequence, bytes, isGuarded)), b.boot, released, Span(sequence, bytes).1 + 1)
    ensures Live(Store(b, sequence, bytes, isGuarded)) == Live(b) + [Rec(sequence, bytes, isGuarded, -1)]
  {
    hide Live, Chain, Span, HeaderBoot;
    StoreAppends(b, released, sequence, bytes, isGuarded);
    ChainSnoc(Live(b), b.boot, released, sequence, Rec(sequence, bytes, isGuarded, -1));
  }

  /** A chain can be continued by a record only if the record's own range does. */
  lemma {:induction false} ChainSnocOnly(m: seq<Rec>, boot: nat, from: nat, to: nat, r: Rec, end: nat)
    requires Chain(m, boot, from, to) && Chain(m + [r], boot, from, end)
    ensures Span(r.sequence, r.data).0 == to && Span(r.sequence, r.data).1 + 1 == end
    decreases |m|
  {
    if m == [] {
      assert (m + [r])[1..] == [];
    } else {
      assert (m + [r])[1..] == m[1..] + [r];
      ChainSnocOnly(m[1..], boot, Span(m[0].sequence, m[0].data).1 + 1, to, r, end);
    }
  }

  lemma EncodedFacts(kind: byte, flags: nat, sequence: nat, boot: nat, link: int, payload: seq<byte>)
    requires WriteMessage(kind, flags, sequence, boot, link, payload).Encoded?
    ensures var bytes := WriteMessage(kind, flags, sequence, boot, link, payload).bytes;
            && |bytes| == HEADER_SIZE + |payload| && HeaderBoot(bytes) == boot
            && bytes[5] == kind
            && Span(sequence, bytes) == Declared(kind, sequence, payload)
  {
    var m := Message(kind, flags, sequence, boot, link, payload);
    var bytes := Encode(m);
    HeaderFields(m, bytes);
    if |payload| >= 24 {
      assert bytes[40..48] == payload[8..16] && bytes[48..56] == payload[16..24];
    }
  }

  /** The range a message of this kind claims: its own number, or what a loss marker's payload says. */
  function Declared(kind: byte, sequence: nat, payload: seq<byte>): (nat, nat) {
    if kind == TRANSPORT_DROP && |payload| >= 24 then (FromBE(payload[8..16]), FromBE(payload[16..24]))
    else (sequence, sequence)
  }

  /** A sequence that is allocated but not stored leaves the chain one short. */
  lemma {:induction false} ChainEndsOnce(m: seq<Rec>, boot: nat, from: nat, to: nat)
    requires Chain(m, boot, from, to)
    ensures !Chain(m, boot, from, to + 1)
    decreases |m|
  {
    if m != [] {
      ChainEndsOnce(m[1..], boot, Span(m[0].sequence, m[0].data).1 + 1, to);
    }
  }

  // ----- Producers -----

  lemma ReserveTiles(b: Box, lim: Limits, released: nat, at: u64)
    requires Sound(b, lim, released)
    ensures Sound(ReserveDrop(b, at), lim, released)
  {
  }

  /**
   A message numbered `next` keeps the tiling exactly when the call does not raise and a
   stored message claims no other number than its own.
   */
  lemma AdmitTiles(b: Box, lim: Limits, released: nat, message: Encoded, at: u64, isGuarded: bool, codecErrorDrops: bool)
    requires Sound(b, lim, released) && b.count == 0 && ValidLimits(lim)
    requires message.Encoded? ==> HeaderBoot(message.bytes) == b.boot
    ensures var (after, reply) := Admit(b, lim, message, at, isGuarded, codecErrorDrops);
            Sound(after, lim, released) <==>
              !reply.Raised? && (Stores(b, lim, message) ==> Span(b.next, message.bytes) == (b.next, b.next))
  {
    var (after, reply) := Admit(b, lim, message, at, isGuarded, codecErrorDrops);
    var taken := b.(next := b.next + 1);
    if reply.Raised? {
      ChainEndsOnce(Live(b), b.boot, released, b.next);
    } else if Stores(b, lim, message) {
      StoreKeepsReserve(taken, lim, b.next, message.bytes, isGuarded);
      StoreAppends(taken, released, b.next, message.bytes, isGuarded);
      StoredTiles(b, lim, released, message.bytes, isGuarded);
    }
  }

  lemma StoredTiles(b: Box, lim: Limits, released: nat, bytes: seq<byte>, isGuarded: bool)
    requires Sound(b, lim, released) && b.count == 0 && HeaderBoot(bytes) == b.boot && Fits(b, lim, |bytes|, false)
    ensures var after := Store(b.(next := b.next + 1), b.next, bytes, isGuarded);
            Chain(Live(after), b.boot, released, b.next + 1) <==> Span(b.next, bytes) == (b.next, b.next)
  {
    hide Merge, Chain, Span, HeaderBoot, ReserveKept, StatusSlots;
    var taken, r := b.(next := b.next + 1), Rec(b.next, bytes, isGuarded, -1);
    var after := Store(taken, b.next, bytes, isGuarded);
    StoreAppends(taken, released, b.next, bytes, isGuarded);
    if Span(b.next, bytes) == (b.next, b.next) {
      StoreExtends(taken, lim, released, b.next, bytes, isGuarded, false);
    } else if Chain(Live(after), b.boot, released, b.next + 1) {
      ChainSnocOnly(Live(b), b.boot, released, b.next, r, b.next + 1);
    }
  }

  ghost predicate ReserveKept(b: Box, lim: Limits) {
    && |b.durable| <= lim.durable && |b.large| <= lim.large
    && (lim.durable > 1 && |b.durable| == lim.durable ==> exists r :: r in b.durable && IsMarker(r))
  }

  lemma StoreKeepsReserve(b: Box, lim: Limits, sequence: nat, bytes: seq<byte>, isGuarded: bool)
    requires ReserveKept(b, lim) && Fits(b, lim, |bytes|, false)
    ensures ReserveKept(Store(b, sequence, bytes, isGuarded), lim)
  {
  }

  predicate LinkOk(link: int) { 0 <= link <= 0xFF }

  /**
   When a call keeps the books: an explicit condition on its arguments.  It fails when a
   sequence is allocated and the message then cannot be written, when a STATUS is parked
   under a link index that can never be written, or when a caller stores a loss marker of its
   own that claims other numbers.
   */
  predicate Accounted(b: Box, lim: Limits, op: Op) {
    match op
    case Raw(link, at, wire, kind) =>
      if kind == STATUS_KIND then
        || |wire| + 10 > STATUS_SLOT_SIZE
        || LinkOk(link)
        || (|b.latest| >= lim.links && (link < 0 || FindKey(b.latest, link) == |b.latest|))
      else b.count > 0 || (LinkOk(link) && |wire| + 10 <= MAX_PAYLOAD_SIZE && b.next < MASK64)
    case State(link, at, state, reason) => b.count > 0 || (LinkOk(link) && b.next < MASK64)
    case Payload(recordType, flags, link, at, payload, _) =>
      || b.count > 0
      || |payload| > MAX_PAYLOAD_SIZE || flags > KNOWN_FLAGS || !LinkOk(link)
      || (b.next < MASK64 && (Declared(recordType, b.next, payload) == (b.next, b.next)
                              || !Fits(b, lim, HEADER_SIZE + |payload|, false)))
    case PeekOp => b.next < MASK64 || b.count > 0 || b.durable != [] || b.large != [] || b.latest == []
    case AckOp(_, _) => true
  }

  lemma StatusTiles(b: Box, lim: Limits, released: nat, link: int, at: u64, wire: seq<byte>)
    requires Sound(b, lim, released) && ValidLimits(lim)
    ensures Sound(EnqueueStatus(b, lim, link, at, wire).0, lim, released) <==> Accounted(b, lim, Raw(link, at, wire, STATUS_KIND))
  {
    hide Merge, Chain, WriteMessage;
    if |wire| + 10 > STATUS_SLOT_SIZE {
      ReserveTiles(b, lim, released, at);
    } else {
      var r := StatusRec(link, at, wire);
      if AppendOutcome(b.latest, lim.links, STATUS_SLOT_SIZE, r) != Full {
        StatusSlotsAfter(b.latest, lim.links, r);
      }
    }
  }

  lemma StatusSlotsAfter(q: seq<Rec>, slots: nat, r: Rec)
    requires StatusSlots(q) && r.sequence == 0 && |r.data| <= STATUS_SLOT_SIZE
    requires AppendOutcome(q, slots, STATUS_SLOT_SIZE, r) != Full
    ensures StatusSlots(AppendQueue(q, slots, STATUS_SLOT_SIZE, r)) <==> LinkOk(r.key)
  {
    var q' := AppendQueue(q, slots, STATUS_SLOT_SIZE, r);
    assert r in q' by {
      if AppendOutcome(q, slots, STATUS_SLOT_SIZE, r) == Replaced {
        assert q'[FindKey(q, r.key)] == r;
      } else {
        assert q'[|q|] == r;
      }
    }
    assert forall x :: x in q' ==> x == r || x in q;
  }

  lemma RawTiles(b: Box, lim: Limits, released: nat, link: int, at: u64, wire: seq<byte>, kind: nat)
    requires Sound(b, lim, released) && ValidLimits(lim)
    ensures Sound(EnqueueRaw(b, lim, link, at, wire, kind).0, lim, released) <==> Accounted(b, lim, Raw(link, at, wire, kind))
  {
    if kind == STATUS_KIND {
      StatusTiles(b, lim, released, link, at, wire);
    } else if b.count > 0 {
      ReserveTiles(b, lim, released, at);
    } else {
      var flags := if kind == EVENT_KIND then FLAG_CRITICAL else 0;
      var message := WriteBmcuFrame(flags, b.next, b.boot, link, at, wire);
      if message.Encoded? {
        FieldWidths();
        EncodedFacts(BMCU_FRAME, flags, b.next, b.boot, link, BE(at, 8) + BE(|wire|, 2) + wire);
      }
      AdmitTiles(b, lim, released, message, at, kind == EVENT_KIND, false);
    }
  }

  lemma StateTiles(b: Box, lim: Limits, released: nat, link: int, at: u64, state: byte, reason: byte)
    requires Sound(b, lim, released) && ValidLimits(lim)
    ensures Sound(EnqueueLinkState(b, lim, link, at, state, reason).0, lim, released) <==> Accounted(b, lim, State(link, at, state, reason))
  {
    if b.count > 0 {
      ReserveTiles(b, lim, released, at);
    } else {
      var flags := if state == LINK_OFFLINE || state == LINK_INCOMPATIBLE then FLAG_CRITICAL else 0;
      var payload := LinkStatePayload(at, state, reason);
      var message := WriteMessage(LINK_STATE, flags, b.next, b.boot, link, payload);
      if message.Encoded? {
        EncodedFacts(LINK_STATE, flags, b.next, b.boot, link, payload);
      }
      AdmitTiles(b, lim, released, message, at, true, false);
    }
  }

  lemma PayloadTiles(b: Box, lim: Limits, released: nat, recordType: byte, flags: nat, link: int, at: u64, payload: seq<byte>,
                     journalRecord: bool)
    requires Sound(b, lim, released) && ValidLimits(lim)
    ensures Sound(EnqueuePayload(b, lim, recordType, flags, link, at, payload).0, lim, released)
       <==> Accounted(b, lim, Payload(recordType, flags, link, at, payload, journalRecord))
  {
    if b.count > 0 {
      ReserveTiles(b, lim, released, at);
    } else {
      var message := WriteMessage(recordType, flags, b.next, b.boot, link, payload);
      if message.Encoded? {
        EncodedFacts(recordType, flags, b.next, b.boot, link, payload);
      }
      AdmitTiles(b, lim, released, message, at, (flags / 2) % 2 == 1, true);
    }
  }

  // ----- The consumer -----

  /** Writing the marker fails only when the range no longer fits the wire's fields. */
  lemma DropWritable(b: Box, lim: Limits, released: nat)
    requires Sound(b, lim, released) && b.count > 0
    ensures WriteTransportDrop(FLAG_CRITICAL, b.first, b.boot, b.observedAt, b.first, b.last, b.count, DROP_RAM_QUEUE_FULL).Encoded?
       <==> b.last < MASK64 && b.count < MASK32
    ensures WriteTransportDrop(FLAG_CRITICAL, b.first, b.boot, b.observedAt, b.first, b.last, b.count, DROP_RAM_QUEUE_FULL) != CodecError
  {
  }

  lemma MaterializeDropTiles(b: Box, lim: Limits, released: nat)
    requires Sound(b, lim, released) && ValidLimits(lim)
    ensures MaterializeDrop(b, lim).Some? ==> Sound(MaterializeDrop(b, lim).value, lim, released)
    ensures MaterializeDrop(b, lim).None? <==> b.count > 0 && |b.durable| < lim.durable && (b.last >= MASK64 || b.count >= MASK32)
    ensures MaterializeDrop(b, lim).Some? && b.count > 0 && |b.durable| < lim.durable ==>
              var after := MaterializeDrop(b, lim).value;
              after.count == 0 && |Live(after)| == |Live(b)| + 1
  {
    hide DropPayload, ParseNext, ParseTransportDrop, Chain, Merge, Span, Declared, HeaderBoot, Encode;
    if b.count > 0 && |b.durable| < lim.durable {
      DropWritable(b, lim, released);
      if MaterializeDrop(b, lim).Some? {
        var payload := DropPayload(b.observedAt, b.first, b.last, b.count, DROP_RAM_QUEUE_FULL);
        var bytes := WriteMessage(TRANSPORT_DROP, FLAG_CRITICAL, b.first, b.boot, GLOBAL_SCOPE, payload).bytes;
        DropRoundTrip(FLAG_CRITICAL, b.first, b.boot, b.observedAt, b.first, b.last, b.count, DROP_RAM_QUEUE_FULL);
        EncodedFacts(TRANSPORT_DROP, FLAG_CRITICAL, b.first, b.boot, GLOBAL_SCOPE, payload);
        StoreExtends(b, lim, released, b.first, bytes, true, true);
        var r := Rec(b.first, bytes, true, -1);
        assert Store(b, b.first, bytes, true).durable == b.durable + [r];
        assert (b.durable + [r])[|b.durable|] == r && IsMarker(r);
      }
    }
  }

  lemma MaterializeStatusTiles(b: Box, lim: Limits, released: nat)
    requires Sound(b, lim, released) && ValidLimits(lim)
    ensures Sound(MaterializeStatus(b, lim).0, lim, released) <==> !MaterializeStatus(b, lim).1
    ensures MaterializeStatus(b, lim).1 <==> StatusReady(b) && b.next >= MASK64
    ensures StatusReady(b) && b.next < MASK64 ==>
              var after := MaterializeStatus(b, lim).0;
              after.latest == [] && after.count == 0 && |Live(after)| == 1
  {
    if StatusReady(b) {
      var taken := b.(next := b.next + 1);
      assert b.latest[0] in b.latest;
      var message := WriteMessage(BMCU_FRAME, 0, b.next, b.boot, b.latest[0].key, b.latest[0].data);
      if message.Encoded? {
        EncodedFacts(BMCU_FRAME, 0, b.next, b.boot, b.latest[0].key, b.latest[0].data);
        StoreExtends(taken, lim, released, b.next, message.bytes, false, false);
        StoreKeepsReserve(taken, lim, b.next, message.bytes, false);
        AllStatusReleased(b.latest);
      } else {
        ChainEndsOnce(Live(b), b.boot, released, b.next);
      }
    }
  }

  lemma {:induction false} AllStatusReleased(q: seq<Rec>)
    requires StatusSlots(q)
    ensures ReleaseQueue(q, 0) == []
  {
    if q != [] {
      assert q[0] in q;
      AllStatusReleased(q[1..]);
    }
  }

  lemma PageTiles(b: Box, lim: Limits, released: nat)
    ensures Sound(Page(b), lim, released) <==> Sound(b, lim, released)
  {
  }

  lemma PeekTiles(b: Box, lim: Limits, released: nat)
    requires Sound(b, lim, released) && ValidLimits(lim)
    ensures Sound(Peek(b, lim).0, lim, released) <==> Accounted(b, lim, PeekOp)
  {
    MaterializeDropTiles(b, lim, released);
    if MaterializeDrop(b, lim).Some? {
      var announced := MaterializeDrop(b, lim).value;
      PageTiles(announced, lim, released);
      MaterializeStatusTiles(Page(announced), lim, released);
    }
  }

  /** `peek` raises exactly for a loss or a STATUS that no longer fits the fields of the wire. */
  lemma PeekRaisesIff(b: Box, lim: Limits, released: nat)
    requires Sound(b, lim, released) && ValidLimits(lim)
    ensures Peek(b, lim).1 == Failed <==>
              || (b.count > 0 && |b.durable| < lim.durable && (b.last >= MASK64 || b.count >= MASK32))
              || (b.count == 0 && b.durable == [] && b.large == [] && b.latest != [] && b.next >= MASK64)
  {
    MaterializeDropTiles(b, lim, released);
    hide Chain, Merge, WriteTransportDrop, WriteMessage, PageInto, StatusSlots;
    if MaterializeDrop(b, lim).Some? {
      var announced := MaterializeDrop(b, lim).value;
      PageTiles(announced, lim, released);
      MaterializeStatusTiles(Page(announced), lim, released);
    }
  }

  /** `peek` hands out the least live sequence. */
  lemma PeekIsLeast(b: Box, lim: Limits, released: nat)
    requires Sound(b, lim, released) && Live(b) != []
    ensures NextHead(b).Head? && NextHead(b).rec in b.durable + b.large
    ensures forall r :: r in b.durable || r in b.large ==> NextHead(b).rec.sequence <= r.sequence
  {
    MergeMembers(b.durable, b.large);
    ChainBounds(Live(b), b.boot, released, Top(b));
    assert Live(b)[0] in Live(b);
  }

  /** What `acknowledge` leaves of the merged queue. */
  ghost function Above(m: seq<Rec>, watermark: nat): seq<Rec> {
    if m != [] && m[0].sequence <= watermark then Above(m[1..], watermark) else m
  }

  lemma {:induction false} ReleaseLiveIsAbove(b: Box, watermark: nat)
    ensures Live(ReleaseLive(b, watermark)) == Above(Live(b), watermark)
    ensures ReleaseLive(b, watermark) == b.(durable := ReleaseLive(b, watermark).durable, large := ReleaseLive(b, watermark).large)
    ensures ReleaseLive(b, watermark).durable == b.durable || |ReleaseLive(b, watermark).durable| < |b.durable|
    ensures |ReleaseLive(b, watermark).large| <= |b.large|
    decreases |Live(b)|
  {
    if Live(b) != [] && Live(b)[0].sequence <= watermark {
      PopLiveIsTail(b);
      ReleaseLiveIsAbove(PopLive(b), watermark);
    }
  }

  /** Where the chain starts after dropping everything at or below the watermark. */
  ghost function NextReleased(m: seq<Rec>, watermark: nat, from: nat): nat
    decreases |m|
  {
    if m != [] && m[0].sequence <= watermark
    then NextReleased(m[1..], watermark, Span(m[0].sequence, m[0].data).1 + 1) else from
  }

  lemma {:induction false} AboveIsChain(m: seq<Rec>, boot: nat, from: nat, to: nat, watermark: nat)
    requires Chain(m, boot, from, to)
    ensures Chain(Above(m, watermark), boot, NextReleased(m, watermark, from), to)
    ensures from <= NextReleased(m, watermark, from)
    ensures forall r :: r in Above(m, watermark) <==> r in m && r.sequence > watermark
    ensures |Above(m, watermark)| <= |m| && Above(m, watermark) == m[|m| - |Above(m, watermark)|..]
    decreases |m|
  {
    if m != [] {
      var rest := Span(m[0].sequence, m[0].data).1 + 1;
      assert m == [m[0]] + m[1..];
      ChainBounds(m[1..], boot, rest, to);
      if m[0].sequence <= watermark {
        AboveIsChain(m[1..], boot, rest, to, watermark);
      }
    }
  }

  /**
   A cumulative ACK for the current boot removes exactly the live records at or below the
   watermark, from both rings, and keeps the others in order.
   */
  lemma AckIsExact(b: Box, lim: Limits, released: nat, watermark: nat)
    requires Sound(b, lim, released)
    ensures var after := Acknowledge(b, b.boot, watermark);
            && |Live(after)| <= |Live(b)| && Live(after) == Live(b)[|Live(b)| - |Live(after)|..]
            && (forall r :: (r in after.durable || r in after.large) <==> (r in b.durable || r in b.large) && r.sequence > watermark)
            && after.next == b.next && after.count == b.count && after.latest == b.latest
  {
    ReleaseLiveIsAbove(b, watermark);
    AboveIsChain(Live(b), b.boot, released, Top(b), watermark);
    MergeMembers(b.durable, b.large);
    var after := Acknowledge(b, b.boot, watermark);
    MergeMembers(after.durable, after.large);
  }

  /** The released frontier after a call: only an ACK for the current boot moves it. */
  ghost function Frontier(b: Box, released: nat, op: Op): nat {
    if op.AckOp? && op.boot == b.boot then NextReleased(Live(b), op.watermark, released) else released
  }

  lemma AckTiles(b: Box, lim: Limits, released: nat, boot: nat, watermark: nat)
    requires Sound(b, lim, released) && ValidLimits(lim)
    ensures Sound(Acknowledge(b, boot, watermark), lim, Frontier(b, released, AckOp(boot, watermark)))
  {
    if boot == b.boot {
      ReleaseLiveIsAbove(b, watermark);
      AboveIsChain(Live(b), b.boot, released, Top(b), watermark);
    }
  }

  // ----- One step, and every run -----

  /** One call keeps the tiling if and only if it is accounted for. */
  lemma StepTiles(b: Box, lim: Limits, released: nat, op: Op)
    requires Sound(b, lim, released) && ValidLimits(lim)
    ensures Sound(Apply(b, lim, op), lim, Frontier(b, released, op)) <==> Accounted(b, lim, op)
  {
    match op {
      case Raw(link, at, wire, kind) => RawTiles(b, lim, released, link, at, wire, kind);
      case State(link, at, state, reason) => StateTiles(b, lim, released, link, at, state, reason);
      case Payload(recordType, flags, link, at, payload, journalRecord) =>
        PayloadTiles(b, lim, released, recordType, flags, link, at, payload, journalRecord);
      case PeekOp => PeekTiles(b, lim, released);
      case AckOp(boot, watermark) => AckTiles(b, lim, released, boot, watermark);
    }
  }

  lemma OneSequencePerCall(b: Box, lim: Limits, op: Op)
    ensures b.next <= Apply(b, lim, op).next <= b.next + 1
    ensures Apply(b, lim, op).boot == b.boot
  {
    hide WriteMessage, WriteBmcuFrame, WriteTransportDrop, Merge, AppendQueue, FindKey, PageInto, ReleaseQueue;
    match op {
      case AckOp(boot, watermark) => ReleaseLiveIsAbove(b, watermark);
      case _ =>
    }
  }

  /** Arguments the link layer produces: a link index in range and a wire frame that fits. */
  predicate WellFormed(op: Op) {
    match op
    case Raw(link, _, wire, _) => LinkOk(link) && |wire| + 10 <= MAX_PAYLOAD_SIZE
    case State(link, _, _, _) => LinkOk(link)
    case Payload(recordType, _, _, _, _, _) => recordType != TRANSPORT_DROP
    case _ => true
  }

  ghost function Run(b: Box, lim: Limits, ops: seq<Op>): Box
    decreases ops
  {
    if ops == [] then b else Run(Apply(b, lim, ops[0]), lim, ops[1..])
  }

  /** The released frontier after a run: folded over its calls. */
  ghost function RunFrontier(b: Box, lim: Limits, released: nat, ops: seq<Op>): nat
    decreases ops
  {
    if ops == [] then released
    else RunFrontier(Apply(b, lim, ops[0]), lim, Frontier(b, released, ops[0]), ops[1..])
  }

  predicate AllWellFormed(ops: seq<Op>) { forall op :: op in ops ==> WellFormed(op) }

  /**
   After any run of producer calls, peeks and ACKs that stays within the 64-bit sequence
   space, the live records and the pending loss account for every sequence from the
   released frontier to the counter exactly once.
   */
  lemma {:induction false} RunsTile(b: Box, lim: Limits, released: nat, ops: seq<Op>)
    requires Sound(b, lim, released) && ValidLimits(lim) && b.next + |ops| <= MASK64 && AllWellFormed(ops)
    ensures released <= RunFrontier(b, lim, released, ops)
    ensures Sound(Run(b, lim, ops), lim, RunFrontier(b, lim, released, ops))
    decreases ops
  {
    if ops != [] {
      var op := ops[0];
      assert op in ops;
      StepTiles(b, lim, released, op);
      OneSequencePerCall(b, lim, op);
      assert Accounted(b, lim, op);
      FrontierGrows(b, lim, released, op);
      hide Sound, Apply, Frontier;
      RunsTile(Apply(b, lim, op), lim, Frontier(b, released, op), ops[1..]);
    }
  }

  /** The k-th call acknowledges the record that owns n, from the queue as it is then. */
  ghost predicate AckedAt(b: Box, lim: Limits, ops: seq<Op>, k: nat, n: nat) {
    && k < |ops| && ops[k].AckOp? && ops[k].boot == b.boot
    && exists r :: r in Live(Run(b, lim, ops[..k])) && Owns(r, n) && r.sequence <= ops[k].watermark
  }

  /** What an ACK releases was live, and at or below its watermark. */
  lemma {:induction false} ReleasedIsOwned(m: seq<Rec>, boot: nat, from: nat, to: nat, watermark: nat, n: nat)
    requires Chain(m, boot, from, to) && from <= n < NextReleased(m, watermark, from)
    ensures exists r :: r in m && Owns(r, n) && r.sequence <= watermark
    decreases |m|
  {
    var last := Span(m[0].sequence, m[0].data).1;
    if n <= last {
      assert Owns(m[0], n);
    } else {
      ReleasedIsOwned(m[1..], boot, last + 1, to, watermark, n);
      var r :| r in m[1..] && Owns(r, n) && r.sequence <= watermark;
      assert r in m;
    }
  }

  /**
   The frontier moves only through ACKs: every number released in a run was owned by a live
   record that a call of the run acknowledged, for the current boot.
   */
  lemma {:induction false} ReleasedWasAcked(b: Box, lim: Limits, released: nat, ops: seq<Op>, n: nat) returns (k: nat)
    requires Sound(b, lim, released) && ValidLimits(lim) && b.next + |ops| <= MASK64 && AllWellFormed(ops)
    requires released <= n < RunFrontier(b, lim, released, ops)
    ensures AckedAt(b, lim, ops, k, n)
    decreases ops
  {
    var op := ops[0];
    assert op in ops;
    if n < Frontier(b, released, op) {
      k := 0;
      ReleasedIsOwned(Live(b), b.boot, released, Top(b), op.watermark, n);
      assert ops[..0] == [];
    } else {
      StepTiles(b, lim, released, op);
      OneSequencePerCall(b, lim, op);
      hide Sound, Apply, Frontier;
      var j := ReleasedWasAcked(Apply(b, lim, op), lim, Frontier(b, released, op), ops[1..], n);
      k := j + 1;
      assert ops[..k][1..] == ops[1..][..j];
    }
  }

  /** An ACK moves the frontier no further than one past its watermark, unless it falls inside a loss marker's range. */
  lemma {:induction false} FrontierStopsAtWatermark(m: seq<Rec>, boot: nat, from: nat, to: nat, watermark: nat)
    requires Chain(m, boot, from, to)
    ensures var next := NextReleased(m, watermark, from);
            next > from && next > watermark + 1 ==>
              exists r :: r in m && IsMarker(r) && r.sequence <= watermark < Span(r.sequence, r.data).1
                       && next == Span(r.sequence, r.data).1 + 1
    decreases |m|
  {
    if m != [] && m[0].sequence <= watermark {
      var last := Span(m[0].sequence, m[0].data).1;
      FrontierStopsAtWatermark(m[1..], boot, last + 1, to, watermark);
      if NextReleased(m[1..], watermark, last + 1) == last + 1 {
        assert m[0] in m;
      }
      assert forall r :: r in m[1..] ==> r in m;
    }
  }

  /** With no such ACK in the run nothing is released. */
  lemma NoAckNoRelease(b: Box, lim: Limits, released: nat, ops: seq<Op>)
    requires Sound(b, lim, released) && ValidLimits(lim) && b.next + |ops| <= MASK64 && AllWellFormed(ops)
    requires forall k :: 0 <= k < |ops| && ops[k].AckOp? ==> ops[k].boot != b.boot
    ensures RunFrontier(b, lim, released, ops) == released
  {
    RunsTile(b, lim, released, ops);
    if released < RunFrontier(b, lim, released, ops) {
      var k := ReleasedWasAcked(b, lim, released, ops, released);
    }
  }

  /**
   From a new outbox, after any run: every number ever allocated was acknowledged by a call
   of the run, is inside the pending loss, or is owned by exactly one live record.
   */
  lemma NothingIsLostSilently(boot: u64, cursor: Cursor, lim: Limits, ops: seq<Op>, n: nat)
    requires ValidLimits(lim) && 1 + |ops| <= MASK64 && AllWellFormed(ops)
    requires 1 <= n < Run(NewBox(boot, cursor), lim, ops).next
    ensures var b, m := Run(NewBox(boot, cursor), lim, ops), Live(Run(NewBox(boot, cursor), lim, ops));
            || (exists k :: AckedAt(NewBox(boot, cursor), lim, ops, k, n))
            || (b.count > 0 && b.first <= n <= b.last && forall r :: r in m ==> !Owns(r, n))
            || (!(b.count > 0 && b.first <= n <= b.last)
                && exists i :: 0 <= i < |m| && Owns(m[i], n) && forall j :: 0 <= j < |m| && Owns(m[j], n) ==> j == i)
  {
    var start := NewBox(boot, cursor);
    InitiallySound(boot, cursor, lim);
    RunsTile(start, lim, 1, ops);
    assert start.next == 1;
    hide Run, Sound, AckedAt, RunFrontier;
    if n < RunFrontier(start, lim, 1, ops) {
      var k := ReleasedWasAcked(start, lim, 1, ops, n);
    } else {
      EveryNumberAccounted(Run(start, lim, ops), lim, RunFrontier(start, lim, 1, ops), n);
    }
  }

  lemma FrontierGrows(b: Box, lim: Limits, released: nat, op: Op)
    requires Sound(b, lim, released)
    ensures released <= Frontier(b, released, op)
  {
    if op.AckOp? {
      AboveIsChain(Live(b), b.boot, released, Top(b), op.watermark);
    }
  }

  /** Each allocated number is released, owned by exactly one live record, or pending loss. */
  lemma EveryNumberAccounted(b: Box, lim: Limits, released: nat, n: nat)
    requires Sound(b, lim, released) && 1 <= n < b.next
    ensures n < released
         || (b.count > 0 && b.first <= n <= b.last && forall r :: r in Live(b) ==> !Owns(r, n))
         || (!(b.count > 0 && b.first <= n <= b.last)
             && exists i :: 0 <= i < |Live(b)| && Owns(Live(b)[i], n) && forall j :: 0 <= j < |Live(b)| && Owns(Live(b)[j], n) ==> j == i)
  {
    if released <= n < Top(b) {
      ChainPartitions(Live(b), b.boot, released, Top(b), n);
    } else if released <= n {
      forall r | r in Live(b)
        ensures !Owns(r, n)
      {
        ChainOwns(Live(b), b.boot, released, Top(b), r);
      }
    }
  }

  lemma {:induction false} ChainOwns(m: seq<Rec>, boot: nat, from: nat, to: nat, r: Rec)
    requires Chain(m, boot, from, to) && r in m
    ensures Span(r.sequence, r.data).1 < to
    decreases |m|
  {
    var rest := Span(m[0].sequence, m[0].data).1 + 1;
    ChainBounds(m[1..], boot, rest, to);
    if r in m[1..] {
      ChainOwns(m[1..], boot, rest, to, r);
    }
  }

  // ----- Where a number goes missing -----

  /** No live record and no pending loss accounts for the number. */
  ghost predicate Nowhere(b: Box, n: nat) {
    && (forall r :: r in Live(b) ==> !Owns(r, n))
    && !(b.count > 0 && b.first <= n <= b.last)
  }

  /** An event frame from a link whose index does not fit a byte: number 1 is taken, and is nowhere. */
  lemma WideLinkLosesNumber(boot: u64, cursor: Cursor, lim: Limits, at: u64, wire: seq<byte>)
    requires ValidLimits(lim)
    ensures var b := Apply(NewBox(boot, cursor), lim, Raw(256, at, wire, EVENT_KIND));
            && b.next == 2 && Live(b) == [] && b.count == 0 && Nowhere(b, 1)
            && EnqueueRaw(NewBox(boot, cursor), lim, 256, at, wire, EVENT_KIND).1 == Raised
  {
  }

  /** A frame longer than a payload does the same from any link. */
  lemma LongFrameLosesNumber(boot: u64, cursor: Cursor, lim: Limits, link: int, at: u64, wire: seq<byte>)
    requires ValidLimits(lim) && |wire| > 4086
    ensures var b := Apply(NewBox(boot, cursor), lim, Raw(link, at, wire, EVENT_KIND));
            b.next == 2 && Live(b) == [] && b.count == 0 && Nowhere(b, 1)
  {
  }

  /** A short STATUS from such a link raises too, but only after it was parked, so the next peek takes a number and raises. */
  lemma ParkedStatusLosesNumber(boot: u64, cursor: Cursor, lim: Limits, at: u64, wire: seq<byte>)
    requires ValidLimits(lim) && |wire| + 10 <= STATUS_SLOT_SIZE
    ensures var parked := EnqueueRaw(NewBox(boot, cursor), lim, 256, at, wire, STATUS_KIND);
            && parked.1 == Raised && parked.0.next == 1 && |parked.0.latest| == 1
            && var (b, offer) := Peek(parked.0, lim);
               offer == Failed && b.next == 2 && Live(b) == [] && b.count == 0 && Nowhere(b, 1)
  {
    hide PageInto;
    var parked := EnqueueRaw(NewBox(boot, cursor), lim, 256, at, wire, STATUS_KIND).0;
    assert parked.latest == [StatusRec(256, at, wire)];
  }
}
