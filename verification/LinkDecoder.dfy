/**
 The BMCU Link frame decoder (`FrameDecoder` and `encode_frame` in `pico/bmcu_link.py`):
 an incremental, resynchronising parser of a noisy byte stream.
 */
module LinkDecoder {
  import opened Bytes
  import opened Crc

  const SYNC0: byte := 0xA5
  const SYNC1: byte := 0x5A
  const MAX_PAYLOAD: nat := 57
  const MAX_DECODER_BUFFER: nat := 128
  const VERSION_ALPHA3: byte := 0x83
  /** Longest legal frame: two sync bytes, five header bytes, the payload, two CRC bytes. */
  const MAX_WIRE: nat := MAX_PAYLOAD + 9

  // ----- What the bytes at one position are -----

  datatype Verdict =
    | Wait                 // not enough bytes to tell
    | Noise                // no sync pattern here
    | BadLength
    | BadCrc
    | Frame(size: nat)

  /** The judgement of position p, from the bytes at and after it. */
  function Judge(s: seq<byte>, p: nat): (v: Verdict)
    requires p < |s|
    ensures v.Frame? ==> 9 <= v.size <= MAX_WIRE && p + v.size <= |s|
    ensures v.Wait? ==> |s| - p < MAX_WIRE
  {
    if s[p] != SYNC0 then Noise
    else if p + 1 == |s| then Wait
    else if s[p + 1] != SYNC1 then Noise
    else if |s| - p < 7 then Wait
    else if s[p + 6] > MAX_PAYLOAD then BadLength
    else
      var size := s[p + 6] as int + 9;
      if |s| - p < size then Wait
      else if LinkCrc(s[p + 2..p + size - 2]) != FromLE16(s[p + size - 2], s[p + size - 1]) then BadCrc
      else Frame(size)
  }

  /** A frame of `size` bytes at position p: what the wire format calls valid. */
  predicate FrameAt(s: seq<byte>, p: nat, size: nat) {
    && 9 <= size <= MAX_WIRE && p + size <= |s|
    && s[p] == SYNC0 && s[p + 1] == SYNC1 && s[p + 6] as int + 9 == size
    && LinkCrc(s[p + 2..p + size - 2]) == FromLE16(s[p + size - 2], s[p + size - 1])
  }

  lemma FramesAreJudgedFrames(s: seq<byte>, p: nat, size: nat)
    requires p < |s|
    ensures Judge(s, p) == Frame(size) <==> FrameAt(s, p, size)
  {
  }

  // ----- The greedy scan: the reference meaning of decoding a whole stream -----

  datatype Span = Span(at: nat, size: nat)

  datatype Scan = Scan(frames: seq<Span>, crcErrors: nat, lengthErrors: nat, stop: nat)

  function Sweep(s: seq<byte>, p: nat): (r: Scan)
    requires p <= |s|
    ensures p <= r.stop <= |s|
    decreases |s| - p
  {
    if p == |s| then Scan([], 0, 0, p)
    else match Judge(s, p)
      case Wait => Scan([], 0, 0, p)
      case Noise => Sweep(s, p + 1)
      case BadLength => var r := Sweep(s, p + 1); r.(lengthErrors := r.lengthErrors + 1)
      case BadCrc => var r := Sweep(s, p + 1); r.(crcErrors := r.crcErrors + 1)
      case Frame(size) => var r := Sweep(s, p + size); r.(frames := [Span(p, size)] + r.frames)
  }

  function Plus(a: Scan, b: Scan): Scan {
    Scan(a.frames + b.frames, a.crcErrors + b.crcErrors, a.lengthErrors + b.lengthErrors, b.stop)
  }

  /** The bytes of the frames a scan found. */
  function Wires(s: seq<byte>, frames: seq<Span>): (w: seq<seq<byte>>)
    ensures |w| == |frames|
  {
    if frames == [] then []
    else
      var f := frames[0];
      [if f.at + f.size <= |s| then s[f.at..f.at + f.size] else []] + Wires(s, frames[1..])
  }

  // ----- Chunk independence -----

  /** Once a position is judged, later bytes do not change the judgement. */
  lemma JudgeStable(a: seq<byte>, b: seq<byte>, p: nat)
    requires p < |a| && !Judge(a, p).Wait?
    ensures Judge(a + b, p) == Judge(a, p)
  {
    var s := a + b;
    if p + 6 < |a| && a[p] == SYNC0 && a[p + 1] == SYNC1 && a[p + 6] <= MAX_PAYLOAD {
      var size := a[p + 6] as int + 9;
      assert s[p + 2..p + size - 2] == a[p + 2..p + size - 2];
    }
  }

  /** Scanning a + b is scanning a and then continuing from where that stopped. */
  lemma {:induction false} SweepSplits(a: seq<byte>, b: seq<byte>, p: nat)
    requires p <= |a|
    ensures Sweep(a + b, p) == Plus(Sweep(a, p), Sweep(a + b, Sweep(a, p).stop))
    decreases |a| - p
  {
    hide Judge;
    if p < |a| && !Judge(a, p).Wait? {
      JudgeStable(a, b, p);
      match Judge(a, p) {
        case Frame(size) =>
          SweepSplits(a, b, p + size);
        case Wait =>
        case Noise => SweepSplits(a, b, p + 1);
        case BadLength => SweepSplits(a, b, p + 1);
        case BadCrc => SweepSplits(a, b, p + 1);
      }
    }
  }

  lemma {:induction false} SweepInside(s: seq<byte>, p: nat)
    requires p <= |s|
    ensures var r := Sweep(s, p);
            && (forall f :: f in r.frames ==> p <= f.at && f.at + f.size <= r.stop && FrameAt(s, f.at, f.size))
            && |s| - r.stop < MAX_WIRE
    decreases |s| - p
  {
    hide Judge, FrameAt;
    if p < |s| {
      match Judge(s, p) {
        case Wait =>
        case Frame(size) =>
          SweepInside(s, p + size);
          FramesAreJudgedFrames(s, p, size);
        case _ => SweepInside(s, p + 1);
      }
    }
  }

  // ----- Completeness -----

  predicate Overlaps(f: Span, p: nat) { f.at < p < f.at + f.size }

  ghost predicate EmittedOrOverlapped(frames: seq<Span>, p: nat, size: nat) {
    Span(p, size) in frames || exists f :: f in frames && Overlaps(f, p)
  }

  lemma OneMoreFrame(first: Span, frames: seq<Span>, p: nat, size: nat)
    requires first == Span(p, size) || Overlaps(first, p) || EmittedOrOverlapped(frames, p, size)
    ensures EmittedOrOverlapped([first] + frames, p, size)
  {
    var all := [first] + frames;
    assert all[0] == first;
    if f :| f in frames && Overlaps(f, p) {
      assert f in all;
    }
  }

  /**
   Every valid frame that starts in the consumed part is emitted, unless a frame emitted
   earlier overlaps its first byte.
   */
  lemma {:induction false} SweepIsComplete(s: seq<byte>, from: nat, p: nat, size: nat)
    requires from <= |s| && from <= p < Sweep(s, from).stop && FrameAt(s, p, size)
    ensures EmittedOrOverlapped(Sweep(s, from).frames, p, size)
    decreases |s| - from
  {
    hide Judge, FrameAt, EmittedOrOverlapped, Sweep;
    SweepStep(s, from);
    if from < p {
      match Judge(s, from) {
        case Frame(n) =>
          if p >= from + n {
            SweepIsComplete(s, from + n, p, size);
          }
          OneMoreFrame(Span(from, n), Sweep(s, from + n).frames, p, size);
        case Wait =>
        case Noise => SweepIsComplete(s, from + 1, p, size);
        case BadLength => SweepIsComplete(s, from + 1, p, size);
        case BadCrc => SweepIsComplete(s, from + 1, p, size);
      }
    } else {
      FramesAreJudgedFrames(s, p, size);
      OneMoreFrame(Span(p, size), Sweep(s, from + size).frames, p, size);
    }
  }

  /** What one position contributes to the scan from it. */
  lemma SweepStep(s: seq<byte>, p: nat)
    requires p < |s|
    ensures var r := Sweep(s, p);
            match Judge(s, p)
            case Frame(n) => p + n <= |s| && r.frames == [Span(p, n)] + Sweep(s, p + n).frames && r.stop == Sweep(s, p + n).stop
            case Wait => r.stop == p
            case _ => r.frames == Sweep(s, p + 1).frames && r.stop == Sweep(s, p + 1).stop
  {
    hide Judge;
  }

  /** Emitted frames never overlap: they come in stream order, back to back at the closest. */
  lemma {:induction false} SweepIsDisjoint(s: seq<byte>, from: nat, i: nat, j: nat)
    requires from <= |s| && i < j < |Sweep(s, from).frames|
    ensures Sweep(s, from).frames[i].at + Sweep(s, from).frames[i].size <= Sweep(s, from).frames[j].at
    decreases |s| - from
  {
    hide Judge, FrameAt;
    match Judge(s, from) {
      case Frame(n) =>
        if i == 0 {
          SweepInside(s, from + n);
          assert Sweep(s, from).frames[j] in Sweep(s, from + n).frames;
        } else {
          SweepIsDisjoint(s, from + n, i - 1, j - 1);
        }
      case Wait =>
      case Noise => SweepIsDisjoint(s, from + 1, i, j);
      case BadLength => SweepIsDisjoint(s, from + 1, i, j);
      case BadCrc => SweepIsDisjoint(s, from + 1, i, j);
    }
  }

  // ----- Encoding -----

  datatype Message = Message(kind: byte, sequence: nat, payload: seq<byte>)

  function Body(m: Message): seq<byte>
    requires |m.payload| <= MAX_PAYLOAD
  {
    [VERSION_ALPHA3, m.kind, m.sequence % 256, (m.sequence / 256) % 256, |m.payload|] + m.payload
  }

  /** `encode_frame`; a longer payload raises ValueError there. */
  function EncodeFrame(m: Message): (w: seq<byte>)
    requires |m.payload| <= MAX_PAYLOAD
    ensures |w| == |m.payload| + 9
  {
    var crc := LinkCrc(Body(m));
    [SYNC0, SYNC1] + Body(m) + [crc % 256, crc / 256]
  }

  /** The dictionary the decoder builds from a frame's bytes. */
  datatype Decoded = Decoded(version: byte, kind: byte, sequence: nat, payload: seq<byte>)

  function Decode(wire: seq<byte>): Decoded
    requires |wire| >= 9
  {
    Decoded(wire[2], wire[3], FromLE16(wire[4], wire[5]), wire[7..|wire| - 2])
  }

  lemma EncodedIsFrame(m: Message, head: seq<byte>, tail: seq<byte>)
    requires |m.payload| <= MAX_PAYLOAD
    ensures FrameAt(head + EncodeFrame(m) + tail, |head|, |m.payload| + 9)
  {
    hide LinkCrc;
    var s, p, size, w := head + EncodeFrame(m) + tail, |head|, |m.payload| + 9, EncodeFrame(m);
    assert s[p..p + size] == w;
    assert forall i :: 0 <= i < size ==> s[p + i] == w[i];
    assert s[p + 2..p + size - 2] == w[2..size - 2] == Body(m);
  }

  /** Where everything stands on the wire. */
  lemma WireLayout(m: Message)
    requires |m.payload| <= MAX_PAYLOAD
    ensures var w, n := EncodeFrame(m), |m.payload|;
            && |w| == 9 + n && w[..3] == [0xA5, 0x5A, 0x83] && w[3] == m.kind
            && w[4] == m.sequence % 256 && w[5] == m.sequence / 256 % 256 && w[6] == n && w[7..7 + n] == m.payload
            && FromLE16(w[7 + n], w[8 + n]) == LinkCrc(w[2..7 + n]) == w[7 + n] as int + 256 * w[8 + n] as int
  {
    hide LinkCrc;
    var w, n := EncodeFrame(m), |m.payload|;
    assert w[2..7 + n] == Body(m);
  }

  /** The decoder's dictionary inverts the encoder; the sequence is kept modulo 65536. */
  lemma DecodeEncode(m: Message)
    requires |m.payload| <= MAX_PAYLOAD
    ensures Decode(EncodeFrame(m)) == Decoded(VERSION_ALPHA3, m.kind, m.sequence % MASK16, m.payload)
  {
    hide LinkCrc;
    var w := EncodeFrame(m);
    assert w[7..|w| - 2] == m.payload;
  }

  predicate Sendable(messages: seq<Message>) {
    messages == [] || (|messages[0].payload| <= MAX_PAYLOAD && Sendable(messages[1..]))
  }

  function EncodeAll(messages: seq<Message>): seq<byte>
    requires Sendable(messages)
  {
    if messages == [] then [] else EncodeFrame(messages[0]) + EncodeAll(messages[1..])
  }

  function EncodeEach(messages: seq<Message>): seq<seq<byte>>
    requires Sendable(messages)
  {
    if messages == [] then [] else [EncodeFrame(messages[0])] + EncodeEach(messages[1..])
  }

  lemma FrameStep(s: seq<byte>, p: nat, size: nat)
    requires p < |s| && Judge(s, p) == Frame(size)
    ensures var r := Sweep(s, p + size);
            && Sweep(s, p) == r.(frames := [Span(p, size)] + r.frames)
            && Wires(s, Sweep(s, p).frames) == [s[p..p + size]] + Wires(s, r.frames)
  {
    hide Judge;
    assert Sweep(s, p).frames[1..] == Sweep(s, p + size).frames;
  }

  lemma FrameAtStep(s: seq<byte>, p: nat, size: nat)
    requires FrameAt(s, p, size)
    ensures var r := Sweep(s, p + size);
            && Sweep(s, p) == r.(frames := [Span(p, size)] + r.frames)
            && Wires(s, Sweep(s, p).frames) == [s[p..p + size]] + Wires(s, r.frames)
  {
    FramesAreJudgedFrames(s, p, size);
    FrameStep(s, p, size);
  }

  lemma OtherStep(s: seq<byte>, p: nat)
    requires p < |s|
    ensures Judge(s, p) == Wait ==> Sweep(s, p) == Scan([], 0, 0, p)
    ensures Judge(s, p) == BadLength ==> Sweep(s, p) == Sweep(s, p + 1).(lengthErrors := Sweep(s, p + 1).lengthErrors + 1)
    ensures Judge(s, p) == BadCrc ==> Sweep(s, p) == Sweep(s, p + 1).(crcErrors := Sweep(s, p + 1).crcErrors + 1)
  {
    hide Judge;
  }

  /** The judgement of a position with a sync pattern, read off the buffered bytes. */
  lemma JudgeBuffered(s: seq<byte>, p: nat, b: seq<byte>)
    requires p < |s| && b == s[p..] && SyncAt(b, 0)
    ensures |b| < 7 ==> Judge(s, p) == Wait
    ensures |b| >= 7 && b[6] > MAX_PAYLOAD ==> Judge(s, p) == BadLength
    ensures |b| >= 7 && b[6] <= MAX_PAYLOAD ==>
              var size := b[6] as int + 9;
              if |b| < size then Judge(s, p) == Wait
              else Judge(s, p) == if LinkCrc(b[2..size - 2]) != FromLE16(b[size - 2], b[size - 1]) then BadCrc else Frame(size)
  {
    hide LinkCrc;
    if |b| >= 7 && b[6] as int + 9 <= |b| {
      var size := b[6] as int + 9;
      assert b[2..size - 2] == s[p + 2..p + size - 2];
    }
  }

  lemma FrontFrame(head: seq<byte>, w: seq<byte>, rest: seq<byte>)
    requires FrameAt(head + w + rest, |head|, |w|)
    ensures var s := head + w + rest;
            var r := Sweep(s, |head + w|);
            && Sweep(s, |head|) == r.(frames := [Span(|head|, |w|)] + r.frames)
            && Wires(s, Sweep(s, |head|).frames) == [w] + Wires(s, r.frames)
  {
    hide LinkCrc, Judge, FrameAt, Sweep, Wires;
    var s := head + w + rest;
    FrameAtStep(s, |head|, |w|);
    assert s[|head|..|head| + |w|] == w;
  }

  /** What the round trip says of the messages that follow `head`. */
  ghost predicate Decodes(head: seq<byte>, messages: seq<Message>)
    requires Sendable(messages)
  {
    var s := head + EncodeAll(messages);
    var r := Sweep(s, |head|);
    && r.stop == |s| && r.crcErrors == 0 && r.lengthErrors == 0
    && Wires(s, r.frames) == EncodeEach(messages)
  }

  lemma DecodesOneMore(head: seq<byte>, messages: seq<Message>)
    requires Sendable(messages) && messages != []
    requires Decodes(head + EncodeFrame(messages[0]), messages[1..])
    ensures Decodes(head, messages)
  {
    hide LinkCrc, Judge, EncodeFrame, FrameAt, Sweep, Wires;
    var w, rest := EncodeFrame(messages[0]), EncodeAll(messages[1..]);
    assert head + EncodeAll(messages) == head + w + rest;
    EncodedIsFrame(messages[0], head, rest);
    FrontFrame(head, w, rest);
  }

  /** A clean stream of encoded frames decodes to exactly those frames, with no error. */
  lemma {:induction false} RoundTrip(head: seq<byte>, messages: seq<Message>)
    requires Sendable(messages)
    ensures Decodes(head, messages)
    decreases messages
  {
    if messages != [] {
      hide Decodes, EncodeFrame, EncodeAll;
      RoundTrip(head + EncodeFrame(messages[0]), messages[1..]);
      DecodesOneMore(head, messages);
    }
  }

  // ----- The incremental decoder -----

  predicate SyncAt(s: seq<byte>, p: nat) { p + 1 < |s| && s[p] == SYNC0 && s[p + 1] == SYNC1 }

  /** Positions without the sync pattern do not matter to the scan. */
  lemma {:induction false} SkipNoise(s: seq<byte>, p: nat, q: nat)
    requires p <= q < |s| && forall k :: p <= k < q ==> !SyncAt(s, k)
    ensures Sweep(s, p) == Sweep(s, q)
    decreases q - p
  {
    if p < q {
      assert !SyncAt(s, p);
      SkipNoise(s, p + 1, q);
    }
  }

  /** Scanning from p is handing out `wires`, counting the errors, and scanning on from q. */
  ghost predicate Continues(s: seq<byte>, p: nat, q: nat, wires: seq<seq<byte>>, crcErrors: int, lengthErrors: int)
    requires p <= |s| && q <= |s|
  {
    var r, rest := Sweep(s, p), Sweep(s, q);
    && r.stop == rest.stop
    && Wires(s, r.frames) == wires + Wires(s, rest.frames)
    && r.crcErrors == crcErrors + rest.crcErrors && r.lengthErrors == lengthErrors + rest.lengthErrors
  }

  /** No sync pattern in the buffered bytes is none in the stream. */
  lemma NoSyncBefore(s: seq<byte>, p: nat, n: nat)
    requires p <= |s| && forall k :: 0 <= k < n ==> !SyncAt(s[p..], k)
    ensures forall k :: p <= k < p + n ==> !SyncAt(s, k)
  {
    forall k | p <= k < p + n
      ensures !SyncAt(s, k)
    {
      assert !SyncAt(s[p..], k - p);
    }
  }

  lemma LastByte(s: seq<byte>)
    requires s != []
    ensures Sweep(s, |s| - 1) == if s[|s| - 1] == SYNC0 then Scan([], 0, 0, |s| - 1) else Sweep(s, |s|)
  {
  }

  lemma EndOfSweep(s: seq<byte>)
    ensures Sweep(s, |s|) == Scan([], 0, 0, |s|) && Wires(s, []) == []
  {
  }

  class FrameDecoder {
    var buffer: seq<byte>
    var crcErrors: nat
    var frameErrors: nat
    var discardedBytes: nat
    /** Every byte ever fed, and every frame ever handed out. */
    ghost var stream: seq<byte>
    ghost var emitted: seq<seq<byte>>

    /** The whole state is a function of the stream, whatever chunks it arrived in. */
    ghost predicate Valid()
      reads this
    {
      var r := Sweep(stream, 0);
      && buffer == stream[r.stop..] && emitted == Wires(stream, r.frames)
      && crcErrors == r.crcErrors && frameErrors == r.lengthErrors && discardedBytes == 0
    }

    constructor ()
      ensures Valid() && stream == [] && emitted == []
    {
      buffer, crcErrors, frameErrors, discardedBytes := [], 0, 0, 0;
      stream, emitted := [], [];
    }

    /** `bytearray.find(SYNC)`: the first sync pattern, or -1. */
    static method FindSync(data: seq<byte>) returns (i: int)
      ensures i < 0 ==> forall k: nat :: !SyncAt(data, k)
      ensures i >= 0 ==> SyncAt(data, i) && forall k :: 0 <= k < i ==> !SyncAt(data, k)
    {
      i := 0;
      while i + 1 < |data|
        invariant 0 <= i
        invariant forall k :: 0 <= k < i ==> !SyncAt(data, k)
      {
        if data[i] == SYNC0 && data[i + 1] == SYNC1 {
          return;
        }
        i := i + 1;
      }
      i := -1;
    }

    /** Drop what precedes the first sync pattern; keep a trailing half pattern if there is none. */
    method DropNoise(ghost p: nat) returns (found: bool, ghost q: nat)
      requires p <= |stream| && buffer == stream[p..]
      modifies this`buffer
      ensures p <= q <= |stream| && buffer == stream[q..] && Sweep(stream, p) == Sweep(stream, q)
      ensures if found then SyncAt(buffer, 0) else Sweep(stream, q) == Scan([], 0, 0, q)
    {
      hide LinkCrc, Judge, Sweep;
      var start := FindSync(buffer);
      ghost var s := stream;
      if start >= 0 {
        NoSyncBefore(s, p, start);
        SkipNoise(s, p, p + start);
        buffer := buffer[start..];
        return true, p + start;
      }
      NoSyncBefore(s, p, |buffer|);
      EndOfSweep(s);
      if buffer == [] {
        return false, p;
      }
      SkipNoise(s, p, |s| - 1);
      LastByte(s);
      if buffer[|buffer| - 1] == SYNC0 {
        buffer := buffer[|buffer| - 1..];
        return false, |s| - 1;
      }
      buffer := [];
      return false, |s|;
    }

    /** One candidate at the front of the buffer; `more` is false when it is incomplete. */
    method TakeCandidate(ghost p: nat) returns (more: bool, wires: seq<seq<byte>>, ghost q: nat)
      requires p <= |stream| && buffer == stream[p..] && SyncAt(buffer, 0)
      modifies this`buffer, this`crcErrors, this`frameErrors
      ensures p <= q <= |stream| && buffer == stream[q..] && (more ==> p < q)
      ensures Continues(stream, p, q, wires, crcErrors - old(crcErrors), frameErrors - old(frameErrors))
      ensures !more ==> Sweep(stream, q) == Scan([], 0, 0, q)
    {
      hide LinkCrc, Judge, Sweep, Wires;
      JudgeBuffered(stream, p, buffer);
      OtherStep(stream, p);
      if |buffer| < 7 {
        return false, [], p;
      }
      if buffer[6] > MAX_PAYLOAD {
        frameErrors := frameErrors + 1;
        buffer := buffer[1..];
        return true, [], p + 1;
      }
      var size := buffer[6] as int + 9;
      if |buffer| < size {
        return false, [], p;
      }
      if LinkCrc(buffer[2..size - 2]) != FromLE16(buffer[size - 2], buffer[size - 1]) {
        crcErrors := crcErrors + 1;
        buffer := buffer[1..];
        return true, [], p + 1;
      }
      FrameStep(stream, p, size);
      assert buffer[..size] == stream[p..p + size];
      wires := [buffer[..size]];
      buffer := buffer[size..];
      return true, wires, p + size;
    }

    /** `_parse`: consume every judged position of the buffered bytes. */
    method Parse(ghost from: nat) returns (wires: seq<seq<byte>>)
      requires from <= |stream| && buffer == stream[from..]
      modifies this`buffer, this`crcErrors, this`frameErrors
      ensures var r := Sweep(stream, from);
              && wires == Wires(stream, r.frames)
              && buffer == stream[r.stop..]
              && crcErrors == old(crcErrors) + r.crcErrors && frameErrors == old(frameErrors) + r.lengthErrors
    {
      hide LinkCrc, Judge, Sweep, Wires;
      wires := [];
      ghost var p := from;
      EndOfSweep(stream);
      while true
        invariant p <= |stream| && buffer == stream[p..]
        invariant Continues(stream, from, p, wires, crcErrors - old(crcErrors), frameErrors - old(frameErrors))
        decreases |stream| - p
      {
        var found;
        found, p := DropNoise(p);
        if !found {
          break;
        }
        var more, taken;
        more, taken, p := TakeCandidate(p);
        wires := wires + taken;
        if !more {
          break;
        }
      }
    }

    /**
     `feed`: whatever the chunking, the frames handed out are the ones the whole stream
     contains beyond those already handed out.
     */
    method Feed(data: seq<byte>) returns (wires: seq<seq<byte>>)
      requires Valid()
      modifies this
      ensures Valid() && stream == old(stream) + data && emitted == old(emitted) + wires
    {
      hide Valid;
      wires := [];
      var start := 0;
      ghost var before := stream;
      assert data[..0] == [];
      while true
        invariant 0 <= start <= |data| && Valid() && stream == before + data[..start]
        invariant emitted == old(emitted) + wires
        decreases |data| - start
      {
        var end := if start + MAX_DECODER_BUFFER < |data| then start + MAX_DECODER_BUFFER else |data|;
        var more := FeedSlice(data[start..end]);
        wires := wires + more;
        assert data[..start] + data[start..end] == data[..end];
        start := end;
        if start >= |data| {
          assert data[..start] == data;
          break;
        }
      }
    }

    method FeedSlice(slice: seq<byte>) returns (wires: seq<seq<byte>>)
      requires Valid()
      modifies this
      ensures Valid() && stream == old(stream) + slice && emitted == old(emitted) + wires
    {
      hide Sweep, Wires;
      ghost var a, stop := stream, Sweep(stream, 0).stop;
      SliceAdds(a, slice);
      buffer := buffer + slice;
      stream := stream + slice;
      assert buffer == stream[stop..];
      wires := Parse(stop);
      emitted := emitted + wires;
      if |buffer| > MAX_DECODER_BUFFER {
        assert false; // at most one incomplete frame is left over
      }
    }
  }

  /** What a longer stream adds: the frames found from where the shorter scan stopped. */
  lemma SliceAdds(a: seq<byte>, slice: seq<byte>)
    ensures var s, stop := a + slice, Sweep(a, 0).stop;
            var before, more, whole := Sweep(a, 0), Sweep(s, stop), Sweep(s, 0);
            && Wires(s, whole.frames) == Wires(a, before.frames) + Wires(s, more.frames)
            && whole.stop == more.stop && |s| - whole.stop < MAX_WIRE
            && whole.crcErrors == before.crcErrors + more.crcErrors && whole.lengthErrors == before.lengthErrors + more.lengthErrors
  {
    hide Judge, Sweep, Wires;
    var s, stop := a + slice, Sweep(a, 0).stop;
    SweepSplits(a, slice, 0);
    SweepInside(a, 0);
    SweepInside(s, 0);
    WiresAppend(s, Sweep(a, 0).frames, Sweep(s, stop).frames);
    WiresOfPrefix(a, slice, Sweep(a, 0).frames);
  }

  lemma {:induction false} WiresAppend(s: seq<byte>, f: seq<Span>, g: seq<Span>)
    ensures Wires(s, f + g) == Wires(s, f) + Wires(s, g)
  {
    if f == [] {
      assert f + g == g;
    } else {
      WiresAppend(s, f[1..], g);
      assert (f + g)[1..] == f[1..] + g;
    }
  }

  lemma {:induction false} WiresOfPrefix(a: seq<byte>, b: seq<byte>, f: seq<Span>)
    requires forall x :: x in f ==> x.at + x.size <= |a|
    ensures Wires(a + b, f) == Wires(a, f)
  {
    if f != [] {
      assert f[0] in f;
      WiresOfPrefix(a, b, f[1..]);
      assert (a + b)[f[0].at..f[0].at + f[0].size] == a[f[0].at..f[0].at + f[0].size];
    }
  }

  /** Any two ways of cutting the same stream give the same frames, counters and remainder. */
  lemma ChunkIndependence(a: FrameDecoder, b: FrameDecoder)
    requires a.Valid() && b.Valid() && a.stream == b.stream
    ensures a.emitted == b.emitted
    ensures a.buffer == b.buffer && a.crcErrors == b.crcErrors && a.frameErrors == b.frameErrors
    ensures |a.buffer| < MAX_WIRE && a.discardedBytes == 0
  {
    SweepInside(a.stream, 0);
  }
}
