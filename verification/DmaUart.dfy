/**
 The DMA ring behind a UART link (`pico/uart_dma_rx.py`): the hardware writes round and round,
 the reader follows, counts what it lost, and re-arms before the transfer count runs out.
 */
module DmaUart {
  import opened Options
  import opened Bytes
  import opened Arithmetic

  datatype Config = Config(ringBytes: nat, initialCount: nat, rearmThreshold: nat, criticalCount: nat)

  /** `written` is what the DMA has stored since it was armed, `left` its transfer count. */
  datatype Reader = Reader(written: seq<byte>, consumed: nat, left: nat, lost: nat, overflows: nat, rearms: nat)

  predicate Sound(r: Reader, c: Config) {
    c.ringBytes > 0 && r.consumed <= |r.written| && |r.written| + r.left == c.initialCount
  }

  function Fresh(c: Config): Reader { Reader([], 0, c.initialCount, 0, 0, 0) }

  /** One byte from the line: stored, unless the transfer count is used up. */
  function Receive(r: Reader, b: byte): Reader {
    if r.left == 0 then r else r.(written := r.written + [b], left := r.left - 1)
  }

  function Pending(r: Reader): int { |r.written| - r.consumed }

  /** `any`: step over what the ring has already overwritten. */
  function Any(r: Reader, c: Config): Reader {
    if Pending(r) > c.ringBytes
    then r.(overflows := r.overflows + 1, lost := r.lost + (Pending(r) - c.ringBytes), consumed := |r.written| - c.ringBytes)
    else r
  }

  function Rearm(r: Reader, c: Config): Reader {
    r.(rearms := r.rearms + 1, consumed := 0, written := [], left := c.initialCount)
  }

  function Amount(r: Reader, limit: Option<int>): int {
    if limit.Some? && limit.value < Pending(r) then limit.value else Pending(r)
  }

  /** `read`: the next bytes still resident, and a lossless re-arm after a full drain. */
  function Read(r: Reader, c: Config, limit: Option<int>): (Reader, Option<seq<byte>>)
    requires Sound(r, c)
  {
    var a := Any(r, c);
    var n := Amount(a, limit);
    if n <= 0 then (a, None)
    else
      var data := a.written[a.consumed..a.consumed + n];
      var d := a.(consumed := a.consumed + n);
      (if d.left <= c.rearmThreshold && d.consumed == |d.written| then Rearm(d, c) else d, Some(data))
  }

  /** `service`: re-arm before the count runs out, counting the unread rest as lost. */
  function Service(r: Reader, c: Config): (Reader, bool) {
    if r.left > c.criticalCount then (r, false)
    else (Rearm(if Pending(r) > 0 then r.(lost := r.lost + Pending(r)) else r, c), true)
  }

  // ----- Runs, and the whole stream behind them -----

  datatype Op = Line(b: byte) | Look | Take(limit: Option<int>) | Serve

  /** Every byte ever stored, and for each byte delivered its value and its place in that stream. */
  datatype History = History(stream: seq<byte>, delivered: seq<byte>, places: seq<nat>)

  function Step(r: Reader, c: Config, op: Op): Reader
    requires Sound(r, c)
  {
    match op
    case Line(b) => Receive(r, b)
    case Look => Any(r, c)
    case Take(limit) => Read(r, c, limit).0
    case Serve => Service(r, c).0
  }

  /** The place in the stream of the next byte the reader will look at. */
  function Cursor(h: History, r: Reader): int { |h.stream| - Pending(r) }

  function Record(h: History, r: Reader, c: Config, op: Op): History
    requires Sound(r, c) && Pending(r) <= |h.stream|
  {
    match op
    case Line(b) => if r.left == 0 then h else h.(stream := h.stream + [b])
    case Take(limit) =>
      (match Read(r, c, limit).1
       case None => h
       case Some(data) =>
         var at := Cursor(h, Any(r, c));
         h.(delivered := h.delivered + data, places := h.places + seq(|data|, i requires 0 <= i < |data| => at + i)))
    case _ => h
  }

  /**
   Every byte delivered is a byte of the stream, in order and at most once; every stored byte
   is delivered, counted as lost or still pending.
   */
  ghost predicate Faithful(h: History, r: Reader, c: Config) {
    && Sound(r, c) && |r.written| <= |h.stream| && h.stream[|h.stream| - |r.written|..] == r.written
    && |h.delivered| == |h.places|
    && |h.stream| == |h.delivered| + r.lost + Pending(r)
    && (forall i :: 0 <= i < |h.places| ==> h.places[i] < Cursor(h, r) && h.delivered[i] == h.stream[h.places[i]])
    && (forall i, j :: 0 <= i < j < |h.places| ==> h.places[i] < h.places[j])
  }

  lemma LineIsFaithful(h: History, r: Reader, c: Config, b: byte)
    requires Faithful(h, r, c)
    ensures Faithful(Record(h, r, c, Line(b)), Step(r, c, Line(b)), c)
  {
    if r.left > 0 {
      var s, w := h.stream + [b], r.written + [b];
      assert s[|s| - |w|..] == h.stream[|h.stream| - |r.written|..] + [b];
    }
  }

  lemma LookIsFaithful(h: History, r: Reader, c: Config)
    requires Faithful(h, r, c)
    ensures Faithful(h, Any(r, c), c)
  {
  }

  lemma RearmIsFaithful(h: History, r: Reader, c: Config)
    requires Faithful(h, r, c) && Pending(r) == 0
    ensures Faithful(h, Rearm(r, c), c)
  {
    assert h.stream[|h.stream|..] == [];
  }

  /** A read returns exactly the next resident slice of the stream. */
  lemma ReadIsNextSlice(h: History, r: Reader, c: Config, limit: Option<int>)
    requires Faithful(h, r, c)
    ensures var a := Any(r, c);
            var n := Amount(a, limit);
            && (Read(r, c, limit).1 == None <==> n <= 0)
            && (n > 0 ==>
                  && 0 <= Cursor(h, a) <= Cursor(h, a) + n <= |h.stream|
                  && Read(r, c, limit).1 == Some(h.stream[Cursor(h, a)..Cursor(h, a) + n]))
            && Pending(a) <= c.ringBytes && a.lost - r.lost == Cursor(h, a) - Cursor(h, r)
            && (Pending(r) <= c.ringBytes ==> a == r)
  {
    var a := Any(r, c);
    var n := Amount(a, limit);
    LookIsFaithful(h, r, c);
    if n > 0 {
      var base := |h.stream| - |a.written|;
      assert a.written[a.consumed..a.consumed + n] == h.stream[base..][a.consumed..a.consumed + n];
      assert h.stream[base..][a.consumed..a.consumed + n] == h.stream[base + a.consumed..base + a.consumed + n];
    }
  }

  lemma FaithfulFacts(h: History, r: Reader, c: Config)
    requires Faithful(h, r, c)
    ensures Sound(r, c) && Pending(r) <= |h.stream|
  {
  }

  lemma TakeIsFaithful(h: History, r: Reader, c: Config, limit: Option<int>)
    requires Faithful(h, r, c)
    ensures Faithful(Record(h, r, c, Take(limit)), Step(r, c, Take(limit)), c)
  {
    hide Faithful;
    FaithfulFacts(h, r, c);
    var a := Any(r, c);
    var n := Amount(a, limit);
    LookIsFaithful(h, r, c);
    FaithfulFacts(h, a, c);
    ReadIsNextSlice(h, r, c, limit);
    if n > 0 {
      var at, d, k := Cursor(h, a), a.(consumed := a.consumed + n), Record(h, r, c, Take(limit));
      DeliveredIsFaithful(h, a, c, n, k);
      if d.consumed == |d.written| {
        RearmIsFaithful(k, d, c);
      }
    }
  }

  lemma DeliveredIsFaithful(h: History, a: Reader, c: Config, n: nat, k: History)
    requires Faithful(h, a, c) && 0 < n <= Pending(a)
    requires var at := Cursor(h, a);
             && 0 <= at && k.stream == h.stream
             && k.delivered == h.delivered + h.stream[at..at + n]
             && k.places == h.places + seq(n, i requires 0 <= i < n => at + i)
    ensures Faithful(k, a.(consumed := a.consumed + n), c)
  {
    var at, d := Cursor(h, a), a.(consumed := a.consumed + n);
    assert Cursor(k, d) == at + n;
    forall i: nat | i < |k.places|
      ensures k.places[i] < at + n && k.delivered[i] == k.stream[k.places[i]]
      ensures i < |h.places| ==> k.places[i] == h.places[i]
      ensures i >= |h.places| ==> k.places[i] == at + (i - |h.places|)
    {
    }
  }

  lemma ServeIsFaithful(h: History, r: Reader, c: Config)
    requires Faithful(h, r, c)
    ensures Faithful(h, Service(r, c).0, c)
  {
    assert h.stream[|h.stream|..] == [];
  }

  function Run(r: Reader, c: Config, ops: seq<Op>): Reader
    requires Sound(r, c)
    decreases ops
  {
    if ops == [] then r else Run(Step(r, c, ops[0]), c, ops[1..])
  }

  ghost function Tell(h: History, r: Reader, c: Config, ops: seq<Op>): History
    requires Faithful(h, r, c)
    decreases ops
  {
    if ops == [] then h
    else
      StepIsFaithful(h, r, c, ops[0]);
      Tell(Record(h, r, c, ops[0]), Step(r, c, ops[0]), c, ops[1..])
  }

  lemma StepIsFaithful(h: History, r: Reader, c: Config, op: Op)
    requires Faithful(h, r, c)
    ensures Faithful(Record(h, r, c, op), Step(r, c, op), c)
  {
    match op
    case Line(b) => LineIsFaithful(h, r, c, b);
    case Look => LookIsFaithful(h, r, c);
    case Take(limit) => TakeIsFaithful(h, r, c, limit);
    case Serve => ServeIsFaithful(h, r, c);
  }

  /** Conservation and order over every interleaving of line bytes and calls. */
  lemma {:induction false} NothingGoesMissing(h: History, r: Reader, c: Config, ops: seq<Op>)
    requires Faithful(h, r, c)
    ensures Faithful(Tell(h, r, c, ops), Run(r, c, ops), c)
    decreases ops
  {
    if ops != [] {
      hide Record, Step;
      StepIsFaithful(h, r, c, ops[0]);
      NothingGoesMissing(Record(h, r, c, ops[0]), Step(r, c, ops[0]), c, ops[1..]);
    }
  }

  lemma StartIsFaithful(c: Config)
    requires c.ringBytes > 0
    ensures Faithful(History([], [], []), Fresh(c), c)
  {
  }

  // ----- What the counters tell -----

  /** A re-arm after a read: bytes were taken, none is left, and the count has run down to the threshold. */
  predicate DrainRearms(r: Reader, c: Config, op: Op) {
    && op.Take? && r.left <= c.rearmThreshold && |r.written| > r.consumed
    && (if op.limit == None then true else op.limit.value >= if Pending(r) > c.ringBytes then c.ringBytes else Pending(r))
  }

  /**
   One call counts an overflow exactly if it looks at a ring that was overwritten, a re-arm exactly
   after a full drain or a service that comes late, and the bytes lost to either; a drain loses none.
   */
  lemma CountersTell(r: Reader, c: Config, op: Op)
    requires Sound(r, c)
    ensures var s := Step(r, c, op);
            var overwritten := (op.Look? || op.Take?) && Pending(r) > c.ringBytes;
            var late := op.Serve? && r.left <= c.criticalCount;
            && s.overflows == r.overflows + (if overwritten then 1 else 0)
            && s.rearms == r.rearms + (if late || DrainRearms(r, c, op) then 1 else 0)
            && s.lost == r.lost + (if overwritten then Pending(r) - c.ringBytes else if late then Pending(r) else 0)
            && (late || DrainRearms(r, c, op) ==> s.left == c.initialCount && s.consumed == 0 && s.written == [])
            && (op.Serve? ==> Service(r, c).1 == late)
  {
  }

  // ----- The DMA never stops -----

  /** No more line bytes than the critical count between two services. */
  predicate Serviced(ops: seq<Op>, quota: nat, c: Config)
    decreases ops
  {
    ops != [] ==>
      match ops[0]
      case Line(_) => quota > 0 && Serviced(ops[1..], quota - 1, c)
      case Serve => Serviced(ops[1..], c.criticalCount, c)
      case _ => Serviced(ops[1..], quota, c)
  }

  /** Then every byte of the line is stored: the transfer count never reaches zero first. */
  lemma {:induction false} ServiceKeepsItRunning(r: Reader, c: Config, ops: seq<Op>, quota: nat)
    requires Sound(r, c) && c.initialCount > c.criticalCount && Serviced(ops, quota, c) && r.left >= quota
    ensures Stored(r, c, ops) == Lines(ops)
    decreases ops
  {
    if ops != [] {
      match ops[0]
      case Line(b) => ServiceKeepsItRunning(Step(r, c, ops[0]), c, ops[1..], quota - 1);
      case Serve => ServiceKeepsItRunning(Step(r, c, ops[0]), c, ops[1..], c.criticalCount);
      case Look => ServiceKeepsItRunning(Step(r, c, ops[0]), c, ops[1..], quota);
      case Take(_) => ServiceKeepsItRunning(Step(r, c, ops[0]), c, ops[1..], quota);
    }
  }

  function Lines(ops: seq<Op>): seq<byte> {
    if ops == [] then [] else (if ops[0].Line? then [ops[0].b] else []) + Lines(ops[1..])
  }

  /** The line bytes the DMA still had count for. */
  function Stored(r: Reader, c: Config, ops: seq<Op>): seq<byte>
    requires Sound(r, c)
    decreases ops
  {
    if ops == [] then [] else (if ops[0].Line? && r.left > 0 then [ops[0].b] else []) + Stored(Step(r, c, ops[0]), c, ops[1..])
  }

  // ----- The driver's own form -----

  class DmaUartReader {
    const config: Config
    const ring: array<byte>
    /** The DMA's transfer count register. */
    var count: nat
    var countBase: nat
    var consumed: nat
    var lostBytes: nat
    var overflowCount: nat
    var rearmCount: nat
    ghost var written: seq<byte>

    ghost predicate Valid()
      reads this, ring
    {
      && ring.Length == config.ringBytes && countBase == config.initialCount
      && Sound(View(), config)
      && Resident(ring[..], written)
    }

    ghost function View(): Reader
      reads this
    {
      Reader(written, consumed, count, lostBytes, overflowCount, rearmCount)
    }

    constructor (config: Config)
      requires config.ringBytes > 0
      ensures Valid() && View() == Fresh(config) && this.config == config && fresh(ring)
    {
      this.config := config;
      ring := new byte[config.ringBytes](_ => 0);
      count, countBase, consumed, lostBytes, overflowCount, rearmCount := config.initialCount, config.initialCount, 0, 0, 0, 0;
      written := [];
    }

    /** The hardware: one transfer into the self-wrapping ring. */
    method Transfer(b: byte)
      requires Valid()
      modifies this`count, this`written, ring
      ensures Valid() && View() == Receive(old(View()), b)
    {
      if count > 0 {
        ghost var old_ := ring[..];
        ring[(countBase - count) % config.ringBytes] := b;
        assert ring[..] == old_[|written| % config.ringBytes := b];
        ResidentAfter(old_, written, b);
        written := written + [b];
        count := count - 1;
      }
    }

    /** `_produced`. */
    method Produced() returns (n: nat)
      requires Valid()
      ensures n == |written|
    {
      n := countBase - count;
    }

    method AnyAvailable() returns (available: nat)
      requires Valid()
      modifies this`overflowCount, this`lostBytes, this`consumed
      ensures Valid() && View() == Any(old(View()), config) && available == Pending(View())
    {
      var produced := Produced();
      available := produced - consumed;
      if available > config.ringBytes {
        overflowCount := overflowCount + 1;
        lostBytes := lostBytes + (available - config.ringBytes);
        consumed := produced - config.ringBytes;
        available := config.ringBytes;
      }
    }

    method RearmDma()
      requires Valid()
      modifies this
      ensures Valid() && View() == Rearm(old(View()), config)
    {
      rearmCount := rearmCount + 1;
      consumed := 0;
      count := config.initialCount;
      countBase := config.initialCount;
      written := [];
    }

    method ReadBytes(limit: Option<int>) returns (data: Option<seq<byte>>)
      requires Valid()
      modifies this
      ensures Valid() && (View(), data) == Read(old(View()), config, limit)
    {
      var available: int := AnyAvailable();
      if limit.Some? && limit.value < available {
        available := limit.value;
      }
      if available <= 0 {
        return None;
      }
      var start := consumed % config.ringBytes;
      var end := start + available;
      SliceIsResident(ring[..], written, consumed, available);
      if end <= config.ringBytes {
        data := Some(ring[start..end]);
      } else {
        data := Some(ring[start..] + ring[..available - (config.ringBytes - start)]);
      }
      consumed := consumed + available;
      if count <= config.rearmThreshold {
        var produced := Produced();
        if consumed == produced {
          RearmDma();
        }
      }
    }

    method ServiceCount() returns (rearmed: bool)
      requires Valid()
      modifies this
      ensures Valid() && (View(), rearmed) == Service(old(View()), config)
    {
      if count > config.criticalCount {
        return false;
      }
      var produced := Produced();
      var pending := produced - consumed;
      if pending > 0 {
        lostBytes := lostBytes + pending;
      }
      RearmDma();
      return true;
    }
  }

  /** The ring holds the last bytes written, each at its position modulo the size. */
  ghost predicate Resident(ring: seq<byte>, written: seq<byte>) {
    |ring| > 0 && forall k :: 0 <= k < |written| && |written| - |ring| <= k ==> ring[k % |ring|] == written[k]
  }

  lemma ModDistinct(k: nat, n: nat, size: nat)
    requires 0 < size && n - size < k < n
    ensures k % size != n % size
  {
    PlacesWrap(k, n - k, size);
    WrapIndex(k % size + (n - k), size);
  }

  lemma ResidentAfter(ring: seq<byte>, written: seq<byte>, b: byte)
    requires Resident(ring, written)
    ensures Resident(ring[|written| % |ring| := b], written + [b])
  {
    var r, w := ring[|written| % |ring| := b], written + [b];
    forall k: nat | k < |w| && |w| - |r| <= k
      ensures r[k % |r|] == w[k]
    {
      if k < |written| {
        ModDistinct(k, |written|, |ring|);
        assert ring[k % |ring|] == written[k];
      }
    }
  }

  /** Reading across the ring edge gives the contiguous slice of what was written. */
  lemma SliceIsResident(ring: seq<byte>, written: seq<byte>, from: nat, n: nat)
    requires Resident(ring, written) && from + n <= |written| <= from + |ring| && n > 0
    ensures var start := from % |ring|;
            && (start + n <= |ring| ==> ring[start..start + n] == written[from..from + n])
            && (start + n > |ring| ==> ring[start..] + ring[..n - (|ring| - start)] == written[from..from + n])
  {
    var size, start := |ring|, from % |ring|;
    if start + n <= size {
      StretchIsResident(ring, written, from, 0, start, n);
    } else {
      var m := size - start;
      StretchIsResident(ring, written, from, 0, start, m);
      StretchIsResident(ring, written, from, m, 0, n - m);
      assert written[from..from + n] == written[from..from + m] + written[from + m..from + n];
      assert ring[start..] == ring[start..size] && ring[..n - m] == ring[0..n - m];
    }
  }

  /** One unbroken stretch of the ring, from its position `at`, holds the bytes from + i onwards. */
  lemma StretchIsResident(ring: seq<byte>, written: seq<byte>, from: nat, i: nat, at: nat, n: nat)
    requires Resident(ring, written) && from + i + n <= |written| <= from + |ring| && at + n <= |ring|
    requires at == from % |ring| + i || at == from % |ring| + i - |ring|
    ensures ring[at..at + n] == written[from + i..from + i + n]
  {
    forall k: nat | at <= k < at + n
      ensures ring[k] == written[from + i + (k - at)]
    {
      ByteIsResident(ring, written, from, i + (k - at));
    }
  }

  lemma ByteIsResident(ring: seq<byte>, written: seq<byte>, from: nat, i: nat)
    requires Resident(ring, written) && from + i < |written| <= from + |ring| && i < |ring|
    ensures var start := from % |ring|;
            ring[if start + i < |ring| then start + i else start + i - |ring|] == written[from + i]
  {
    PlacesWrap(from, i, |ring|);
    WrapIndex(from % |ring| + i, |ring|);
    assert ring[(from + i) % |ring|] == written[from + i];
  }

  lemma PlacesWrap(from: nat, i: nat, size: nat)
    requires 0 < size
    ensures (from % size + i) % size == (from + i) % size
  {
    var q, r := from / size, from % size;
    var d, e := (r + i) / size, (r + i) % size;
    assert size * (q + d) == size * q + size * d;
    DivisionIsUnique(from + i, size, q + d, e);
  }
}
