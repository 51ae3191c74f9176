/**
 The two parsers of the printer bus: `PrinterRxFramer` (`src/printer_rx_framer.cpp`) and the
 interrupt parser it replaced, `_bus_port_deal::irq` (`src/_bus_hardware.h`).  Both are
 proved to report what one reference scanner reports, byte for byte.
 */
module PrinterParsers {
  import opened Bytes
  import opened Crc

  const BAMBU_SYNC: byte := 0x3D
  const AHUB_SYNC: byte := 0x33
  const MAX_FRAME_LENGTH: nat := 1280

  datatype Event =
    | Quiet
    | Started(kind: byte)
    | Complete(length: nat, kind: byte)
    | Heartbeat(length: nat, kind: byte)
    | BadLength(kind: byte)
    | HeaderCrcError(kind: byte)

  // ----- The frame format -----

  predicate IsSync(b: byte) { b == BAMBU_SYNC || b == AHUB_SYNC }

  /** Short headers have the top bit of the second byte set. */
  predicate Short(f: seq<byte>) { |f| > 1 && f[1] >= 0x80 }

  function LengthIndex(f: seq<byte>): nat
    requires f != []
  {
    if Short(f) then 2 else if f[0] == BAMBU_SYNC then 5 else 4
  }

  function CrcIndex(f: seq<byte>): nat { if Short(f) then 3 else 6 }

  function DeclaredLength(f: seq<byte>): nat
    requires f != [] && |f| > LengthIndex(f)
  {
    if f[0] == BAMBU_SYNC then (if Short(f) then f[2] else FromLE16(f[4], f[5]))
    else 4 * (f[LengthIndex(f)] as int) + 12
  }

  predicate LengthOk(f: seq<byte>)
    requires f != [] && |f| > LengthIndex(f)
  {
    CrcIndex(f) < DeclaredLength(f) <= MAX_FRAME_LENGTH
  }

  predicate IsHeartbeat(f: seq<byte>) {
    |f| >= 6 && f[0] == BAMBU_SYNC && f[1] == 0xC5 && f[4] == 0x20
  }

  /** A complete frame: sync, honest length, checked header CRC. */
  predicate WellFormed(f: seq<byte>) {
    && f != [] && IsSync(f[0])
    && |f| > CrcIndex(f) && |f| > LengthIndex(f)
    && DeclaredLength(f) == |f| <= MAX_FRAME_LENGTH
    && f[CrcIndex(f)] == HeaderCrc(f[..CrcIndex(f)])
  }

  /** The format in the numbers of the bus: where the length and the header checksum stand, and what they count. */
  lemma FrameFormat(f: seq<byte>)
    ensures WellFormed(f) <==>
              && |f| > 3 && f[0] in {0x3D, 0x33} && |f| <= 1280
              && if f[1] >= 0x80 then
                   f[3] == HeaderCrc(f[..3]) && |f| == if f[0] == 0x3D then f[2] else 4 * f[2] as int + 12
                 else
                   && |f| > 6 && f[6] == HeaderCrc(f[..6])
                   && |f| == if f[0] == 0x3D then f[4] as int + 256 * f[5] as int else 4 * f[4] as int + 12
    ensures IsHeartbeat(f) <==> |f| >= 6 && f[0] == 0x3D && f[1] == 0xC5 && f[4] == 0x20
  {
    hide HeaderCrc;
  }

  /** The bytes of a frame whose end has not been seen: every check so far has passed. */
  predicate Partial(f: seq<byte>) {
    && f != [] && IsSync(f[0])
    && (|f| > LengthIndex(f) ==> LengthOk(f) && |f| < DeclaredLength(f))
    && (|f| > CrcIndex(f) ==> f[CrcIndex(f)] == HeaderCrc(f[..CrcIndex(f)]))
  }

  // ----- The reference scanner: its state is the bytes of the current frame -----

  function Verdict(f: seq<byte>): (r: (seq<byte>, Event))
    requires |f| > 1
  {
    var at := |f| - 1;
    if at == LengthIndex(f) && !LengthOk(f) then ([], BadLength(f[0]))
    else if at == CrcIndex(f) && f[at] != HeaderCrc(f[..at]) then ([], HeaderCrcError(f[0]))
    else if at < LengthIndex(f) || |f| < DeclaredLength(f) then (f, Quiet)
    else ([], if IsHeartbeat(f) then Heartbeat(|f|, f[0]) else Complete(|f|, f[0]))
  }

  function Scan(f: seq<byte>, b: byte): (seq<byte>, Event) {
    if f == [] then (if IsSync(b) then ([b], Started(b)) else ([], Quiet))
    else Verdict(f + [b])
  }

  /** The events of a whole stream, one per byte. */
  function Trace(f: seq<byte>, stream: seq<byte>): (events: seq<Event>)
    ensures |events| == |stream|
    decreases stream
  {
    if stream == [] then []
    else [Scan(f, stream[0]).1] + Trace(Scan(f, stream[0]).0, stream[1..])
  }

  lemma ScanKeepsPartial(f: seq<byte>, b: byte)
    requires f == [] || Partial(f)
    ensures Scan(f, b).0 == [] || Partial(Scan(f, b).0)
  {
    hide HeaderCrc;
    var g := f + [b];
    if |f| > 1 && Scan(f, b).0 != [] {
      SameHeader(f, b);
      if |f| > CrcIndex(g) {
        assert g[..CrcIndex(g)] == f[..CrcIndex(f)];
      }
    }
  }

  /** Once the second byte is in, later bytes do not move the header positions. */
  lemma SameHeader(f: seq<byte>, b: byte)
    requires |f| > 1
    ensures LengthIndex(f + [b]) == LengthIndex(f) && CrcIndex(f + [b]) == CrcIndex(f)
    ensures |f| > LengthIndex(f) ==> DeclaredLength(f + [b]) == DeclaredLength(f)
  {
  }

  /** A frame is given up exactly at the byte that shows a length out of range, or a wrong header checksum. */
  lemma RejectedIff(f: seq<byte>, b: byte)
    requires Partial(f)
    ensures var g, e := f + [b], Scan(f, b).1;
            var short := |g| > 1 && g[1] >= 0x80;
            var lengthAt, checkAt := if short then 2 else if g[0] == 0x3D then 5 else 4, if short then 3 else 6;
            && (e.BadLength? <==>
                  && |g| == lengthAt + 1
                  && var length := if g[0] != 0x3D then 4 * b as int + 12 else if short then b as int else g[4] as int + 256 * b as int;
                     length <= checkAt || length > 1280)
            && (e.HeaderCrcError? <==> |g| == checkAt + 1 && b != HeaderCrc(f))
            && (e.BadLength? || e.HeaderCrcError? ==> Scan(f, b).0 == [] && e.kind == f[0])
  {
    hide HeaderCrc;
    assert (f + [b])[..|f|] == f;
  }

  // ----- What the scanner recognises -----

  /** A reported frame is well-formed: in particular its header CRC byte was checked. */
  lemma ReportedFramesAreChecked(f: seq<byte>, b: byte)
    requires f == [] || Partial(f)
    requires Scan(f, b).1.Complete? || Scan(f, b).1.Heartbeat?
    ensures var g, e := f + [b], Scan(f, b).1;
            WellFormed(g) && e.length == |g| && e.kind == g[0] && (e.Heartbeat? <==> IsHeartbeat(g)) && Scan(f, b).0 == []
  {
    hide HeaderCrc;
    var g := f + [b];
    if |f| > 1 {
      SameHeader(f, b);
      if |f| > CrcIndex(g) {
        assert g[..CrcIndex(g)] == f[..CrcIndex(f)];
      }
    }
  }

  lemma PrefixHeader(f: seq<byte>, n: nat)
    requires 1 < n <= |f|
    ensures LengthIndex(f[..n]) == LengthIndex(f) && CrcIndex(f[..n]) == CrcIndex(f)
    ensures n > LengthIndex(f) ==> DeclaredLength(f[..n]) == DeclaredLength(f)
  {
  }

  /** The scanner follows a well-formed frame to its end in silence, then reports it. */
  lemma FrameByte(f: seq<byte>, n: nat)
    requires WellFormed(f) && n < |f|
    ensures var (g, e) := Scan(f[..n], f[n]);
            if n == 0 then g == f[..1] && e == Started(f[0])
            else if n + 1 < |f| then g == f[..n + 1] && e == Quiet
            else g == [] && e == if IsHeartbeat(f) then Heartbeat(|f|, f[0]) else Complete(|f|, f[0])
  {
    hide HeaderCrc;
    assert f[..n] + [f[n]] == f[..n + 1];
    if n > 0 {
      PrefixHeader(f, n + 1);
      if n + 1 > CrcIndex(f) {
        assert f[..n + 1][..CrcIndex(f)] == f[..CrcIndex(f)];
      }
      assert f[..|f|] == f;
    }
  }

  lemma TraceStep(f: seq<byte>, b: byte, rest: seq<byte>)
    ensures Trace(f, [b] + rest) == [Scan(f, b).1] + Trace(Scan(f, b).0, rest)
  {
    hide Scan;
    assert ([b] + rest)[1..] == rest;
  }

  /** What the n-th byte of a well-formed frame raises. */
  function FrameEvent(f: seq<byte>, n: nat): Event
    requires n < |f|
  {
    if n + 1 == |f| then (if IsHeartbeat(f) then Heartbeat(|f|, f[0]) else Complete(|f|, f[0]))
    else if n == 0 then Started(f[0]) else Quiet
  }

  /** The events of a well-formed frame from its n-th byte on. */
  function FrameEvents(f: seq<byte>, n: nat): seq<Event>
    requires n <= |f|
    decreases |f| - n
  {
    if n == |f| then [] else [FrameEvent(f, n)] + FrameEvents(f, n + 1)
  }

  lemma WellFormedIsLong(f: seq<byte>)
    requires WellFormed(f)
    ensures |f| >= 4
  {
  }

  lemma FrameStep(f: seq<byte>, n: nat, rest: seq<byte>)
    requires WellFormed(f) && n < |f|
    ensures Trace(f[..n], f[n..] + rest)
         == [FrameEvent(f, n)] + Trace(if n + 1 < |f| then f[..n + 1] else [], f[n + 1..] + rest)
  {
    WellFormedIsLong(f);
    hide HeaderCrc, WellFormed, Scan, IsHeartbeat, Trace;
    FrameByte(f, n);
    assert f[n..] + rest == [f[n]] + (f[n + 1..] + rest);
    TraceStep(f[..n], f[n], f[n + 1..] + rest);
  }

  /** Every well-formed frame that starts while the scanner is idle is reported at its last byte. */
  lemma {:induction false} FrameRecognised(f: seq<byte>, n: nat, rest: seq<byte>)
    requires WellFormed(f) && n < |f|
    ensures Trace(f[..n], f[n..] + rest) == FrameEvents(f, n) + Trace([], rest)
    decreases |f| - n
  {
    hide WellFormed, Scan, FrameEvent, Trace;
    FrameStep(f, n, rest);
    if n + 1 < |f| {
      FrameRecognised(f, n + 1, rest);
    } else {
      assert f[n + 1..] + rest == rest;
    }
  }

  /** The header of a heartbeat, as far as the interrupt parser looks before skipping the rest. */
  predicate HeartbeatHeader(f: seq<byte>) {
    |f| >= 5 && f[0] == BAMBU_SYNC && f[1] == 0xC5 && f[4] == 0x20 && DeclaredLength(f) >= 6
  }

  /** What one more byte does to a partial frame. */
  lemma NextByte(f: seq<byte>, b: byte)
    requires Partial(f)
    ensures var g := f + [b];
            && IsSync(g[0]) && |f| < MAX_FRAME_LENGTH
            && (Scan(f, b).0 != [] ==> Scan(f, b).0 == g && Partial(g))
            && (|f| > 1 ==> LengthIndex(g) == LengthIndex(f) && CrcIndex(g) == CrcIndex(f))
            && (|f| > LengthIndex(g) ==> DeclaredLength(g) == DeclaredLength(f) && |g| <= DeclaredLength(g) <= MAX_FRAME_LENGTH)
            && (|f| > 4 ==> (HeartbeatHeader(g) <==> HeartbeatHeader(f)))
  {
    hide HeaderCrc;
    ScanKeepsPartial(f, b);
    if |f| > 1 {
      SameHeader(f, b);
    }
  }

  /** The four outcomes of one more byte. */
  lemma Outcomes(f: seq<byte>, b: byte)
    requires Partial(f)
    ensures var g, at := f + [b], |f|;
            && g[0] == f[0]
            && (at == LengthIndex(g) && !LengthOk(g) ==> Scan(f, b) == ([], BadLength(g[0])))
            && (at == LengthIndex(g) ==> at < CrcIndex(g) <= 6)
            && (!(at == LengthIndex(g) && !LengthOk(g)) ==>
                 if at == CrcIndex(g) && b != HeaderCrc(g[..at]) then Scan(f, b) == ([], HeaderCrcError(g[0]))
                 else if at < LengthIndex(g) || |g| < DeclaredLength(g) then Scan(f, b) == (g, Quiet)
                 else Scan(f, b) == ([], if IsHeartbeat(g) then Heartbeat(|g|, g[0]) else Complete(|g|, g[0])))
            && (at == LengthIndex(g) && LengthOk(g) ==> |g| < DeclaredLength(g) <= MAX_FRAME_LENGTH)
  {
    hide HeaderCrc;
  }

  // ----- The DMA framer -----

  class PrinterRxFramer {
    var index: nat
    var expectedLength: nat
    var dataLengthIndex: nat
    var crc8Index: nat
    var packageType: byte
    const header: array<byte>
    var active: bool
    /** The bytes of the frame being received. */
    ghost var received: seq<byte>

    ghost predicate Valid()
      reads this, header
    {
      && header.Length == 7
      && (active <==> received != [])
      && (active ==>
           && Partial(received)
           && index == |received| && packageType == received[0]
           && (forall k :: 0 <= k < 7 && k < index ==> header[k] == received[k])
           && (index > 1 ==> dataLengthIndex == LengthIndex(received) && crc8Index == CrcIndex(received))
           && expectedLength == if index > 1 && index > LengthIndex(received) then DeclaredLength(received) else 999)
    }

    constructor ()
      ensures Valid() && received == [] && fresh(header)
    {
      header := new byte[7](_ => 0);
      index, expectedLength, dataLengthIndex, crc8Index, packageType, active := 0, 999, 0, 0, 0, false;
      received := [];
    }

    method Reset()
      modifies this
      ensures !active && received == []
    {
      index, expectedLength, dataLengthIndex, crc8Index, packageType, active := 0, 999, 0, 0, 0, false;
      received := [];
    }

    /** A byte outside any frame. */
    method Begin(value: byte) returns (event: Event)
      requires Valid() && !active
      modifies this, header
      ensures Valid() && (received, event) == Scan(old(received), value)
    {
      hide HeaderCrc;
      if value != BAMBU_SYNC && value != AHUB_SYNC {
        return Quiet;
      }
      active := true;
      index, expectedLength, dataLengthIndex, crc8Index, packageType := 1, 999, 4, 6, value;
      header[0] := value;
      received := [value];
      return Started(value);
    }

    /** Update the header positions and the length; false if the length is out of range. */
    method TrackHeader(value: byte, ghost g: seq<byte>) returns (ok: bool)
      requires |g| == index + 1 > 1 && g[index] == value && packageType == g[0] && IsSync(g[0])
      requires header.Length == 7 && forall k :: 0 <= k < 7 && k < |g| ==> header[k] == g[k]
      requires index > 1 ==> dataLengthIndex == LengthIndex(g) && crc8Index == CrcIndex(g)
      requires expectedLength == if index > 1 && index > LengthIndex(g) then DeclaredLength(g) else 999
      modifies this`dataLengthIndex, this`crc8Index, this`expectedLength
      ensures dataLengthIndex == LengthIndex(g) && crc8Index == CrcIndex(g)
      ensures expectedLength == if index >= LengthIndex(g) then DeclaredLength(g) else 999
      ensures ok <==> (index == LengthIndex(g) ==> LengthOk(g))
    {
      if index == 1 {
        if value >= 0x80 {
          dataLengthIndex, crc8Index := 2, 3;
        } else {
          crc8Index := 6;
          dataLengthIndex := if packageType == BAMBU_SYNC then 5 else 4;
        }
      }
      if index == dataLengthIndex {
        if packageType == BAMBU_SYNC {
          expectedLength := if dataLengthIndex == 2 then value else FromLE16(header[4], value);
        } else {
          expectedLength := 4 * (value as int) + 12;
        }
        return expectedLength > crc8Index && expectedLength <= MAX_FRAME_LENGTH;
      }
      return true;
    }

    method Push(value: byte) returns (event: Event)
      requires Valid()
      modifies this, header
      ensures Valid() && (received, event) == Scan(old(received), value)
    {
      hide HeaderCrc;
      if !active {
        event := Begin(value);
        return;
      }
      ghost var g := received + [value];
      NextByte(received, value);
      Outcomes(received, value);
      hide Partial, Scan, Verdict, LengthOk;
      if index < header.Length {
        header[index] := value;
      }
      var ok := TrackHeader(value, g);
      if !ok {
        var kind := packageType;
        Reset();
        return BadLength(kind);
      }
      if index == crc8Index {
        assert header[..crc8Index] == g[..crc8Index];
        if value != HeaderCrc(header[..crc8Index]) {
          var kind := packageType;
          Reset();
          return HeaderCrcError(kind);
        }
      }
      index := index + 1;
      received := g;
      if index < expectedLength {
        return Quiet;
      }
      var length, kind := expectedLength, packageType;
      var heartbeat := kind == BAMBU_SYNC && length >= 6 && header[1] == 0xC5 && header[4] == 0x20;
      Reset();
      return if heartbeat then Heartbeat(length, kind) else Complete(length, kind);
    }
  }

  // ----- The interrupt parser -----

  /** The interrupt parser does not announce the start of a frame. */
  function Report(e: Event): Event { if e.Started? then Quiet else e }

  function Up(counter: nat): nat { if counter != 0xFFFF_FFFF then counter + 1 else counter }

  /** A saturating counter of what happened. */
  function SatInc(counter: nat, happened: bool): nat { if happened then Up(counter) else counter }

  /** Over any run such a counter is the number of its events, up to the largest 32-bit number. */
  lemma {:induction false} CounterCounts(counter: nat, happened: seq<bool>)
    requires counter <= 0xFFFF_FFFF
    ensures CountAll(counter, happened) ==
            if counter + Happened(happened) > 0xFFFF_FFFF then 0xFFFF_FFFF else counter + Happened(happened)
    decreases happened
  {
    if happened != [] {
      CounterCounts(SatInc(counter, happened[0]), happened[1..]);
    }
  }

  function CountAll(counter: nat, happened: seq<bool>): nat
    decreases happened
  {
    if happened == [] then counter else CountAll(SatInc(counter, happened[0]), happened[1..])
  }

  function Happened(happened: seq<bool>): nat {
    if happened == [] then 0 else (if happened[0] then 1 else 0) + Happened(happened[1..])
  }

  lemma ScanFromIdle(b: byte)
    ensures Scan([], b) == if IsSync(b) then ([b], Started(b)) else ([], Quiet)
    ensures IsSync(b) ==> Partial([b]) && !HeartbeatHeader([b]) && LengthIndex([b]) >= 1
  {
  }

  class BusPort {
    /** The two receive buffers; one and the same in the DMA build. */
    const bufferA: array<byte>
    const bufferB: array<byte>
    const dmaBuild: bool
    var irqData: array<byte>
    var recvData: array<byte>
    var index: nat
    var length: nat
    var dataLengthIndex: nat
    var dataCrc8Index: nat
    var packageType: byte
    var dropBytes: nat
    var recvDataLen: nat
    var recvType: byte
    var framesValid: nat
    var badLengths: nat
    var headerCrcErrors: nat
    var resyncBytes: nat
    var publishDrops: nat
    var heartbeatsSeen: nat
    var rxBytes: nat
    var compatCopies: nat
    var lastActivity: nat
    ghost var received: seq<byte>

    ghost predicate Valid()
      reads this, bufferA, bufferB
    {
      && bufferA.Length == bufferB.Length == MAX_FRAME_LENGTH
      && ((irqData == bufferA && recvData == bufferB) || (irqData == bufferB && recvData == bufferA))
      && (received != [] ==> Partial(received))
      && if dropBytes > 0 then
           index == 0 && HeartbeatHeader(received) && length == DeclaredLength(received) == |received| + dropBytes
         else
           && index == |received|
           && (index > 0 ==>
                && index < MAX_FRAME_LENGTH && irqData[..index] == received && packageType == received[0]
                && (index > 1 ==> dataLengthIndex == LengthIndex(received) && dataCrc8Index == CrcIndex(received))
                && length == (if index > 1 && index > LengthIndex(received) then DeclaredLength(received) else 6)
                && !HeartbeatHeader(received))
    }

    constructor (dmaBuild: bool)
      ensures Valid() && received == [] && recvDataLen == 0
      ensures fresh(bufferA) && fresh(bufferB)
    {
      var a := new byte[MAX_FRAME_LENGTH](_ => 0);
      var b := a;
      if !dmaBuild {
        b := new byte[MAX_FRAME_LENGTH](_ => 0);
      }
      bufferA, bufferB, irqData, recvData, this.dmaBuild := a, b, a, b, dmaBuild;
      index, length, dataLengthIndex, dataCrc8Index, packageType, dropBytes := 0, 999, 0, 0, 0, 0;
      recvDataLen, recvType := 0, 0;
      framesValid, badLengths, headerCrcErrors, resyncBytes, publishDrops, heartbeatsSeen := 0, 0, 0, 0, 0, 0;
      rxBytes, compatCopies, lastActivity := 0, 0, 0;
      received := [];
    }

    method ReleaseRecvFrame()
      requires Valid()
      modifies this`recvDataLen, this`recvType
      ensures Valid() && recvDataLen == 0
    {
      recvDataLen, recvType := 0, 0;
    }

    /** Hand a finished frame to the main loop, or count it as dropped. */
    method Publish(size: nat)
      requires irqData.Length == MAX_FRAME_LENGTH && size <= MAX_FRAME_LENGTH
      modifies this`irqData, this`recvData, this`recvDataLen, this`recvType, this`framesValid, this`compatCopies, this`publishDrops
      ensures compatCopies == SatInc(old(compatCopies), dmaBuild)
      ensures framesValid == SatInc(old(framesValid), true)
      ensures publishDrops == SatInc(old(publishDrops), old(recvDataLen) != 0)
      ensures if old(recvDataLen) == 0
              then irqData == old(recvData) && recvData == old(irqData) && recvDataLen == size && recvType == packageType
              else irqData == old(irqData) && recvData == old(recvData) && recvDataLen == old(recvDataLen) && recvType == old(recvType)
    {
      framesValid := SatInc(framesValid, true);
      compatCopies := SatInc(compatCopies, dmaBuild);
      if recvDataLen == 0 {
        irqData, recvData := recvData, irqData;
        recvType := packageType;
        recvDataLen := size;
      } else {
        publishDrops := SatInc(publishDrops, true);
      }
    }

    /** The counters after a byte that fired `event`. */
    twostate predicate Counted(event: Event, resync: bool)
      reads this
    {
      && framesValid == SatInc(old(framesValid), event.Complete?)
      && compatCopies == SatInc(old(compatCopies), event.Complete? && dmaBuild)
      && publishDrops == SatInc(old(publishDrops), event.Complete? && old(recvDataLen) != 0)
      && badLengths == SatInc(old(badLengths), event.BadLength?)
      && headerCrcErrors == SatInc(old(headerCrcErrors), event.HeaderCrcError?)
      && heartbeatsSeen == old(heartbeatsSeen) + (if event.Heartbeat? then 1 else 0)
      && resyncBytes == SatInc(old(resyncBytes), resync)
    }

    /** A completed frame is handed over if the receive slot is free, and nothing else is. */
    twostate predicate Published(event: Event, frame: seq<byte>)
      reads this, bufferA, bufferB
    {
      if event.Complete? && old(recvDataLen) == 0 then
        && recvDataLen == event.length == |frame| && recvType == event.kind
        && recvDataLen <= recvData.Length && (recvData == bufferA || recvData == bufferB)
        && recvData[..recvDataLen] == frame
      else recvDataLen == old(recvDataLen) && recvType == old(recvType)
    }

    /** A byte of a heartbeat that is being skipped. */
    method SkipByte(data: byte) returns (event: Event)
      requires Valid() && dropBytes > 0
      modifies this
      ensures unchanged(`rxBytes, `lastActivity)
      ensures Valid() && received == Scan(old(received), data).0 && event == Report(Scan(old(received), data).1)
      ensures Counted(event, false) && !event.Complete? && recvDataLen == old(recvDataLen) && recvType == old(recvType)
    {
      hide HeaderCrc;
      ScanKeepsPartial(received, data);
      SameHeader(received, data);
      received := Scan(received, data).0;
      dropBytes := dropBytes - 1;
      if dropBytes == 0 {
        heartbeatsSeen := heartbeatsSeen + 1;
        return Heartbeat(length, BAMBU_SYNC);
      }
      return Quiet;
    }

    /** A byte outside any frame. */
    method IdleByte(data: byte) returns (event: Event)
      requires Valid() && dropBytes == 0 && index == 0
      modifies this, irqData
      ensures unchanged(`rxBytes, `lastActivity)
      ensures Valid() && received == Scan(old(received), data).0 && event == Report(Scan(old(received), data).1)
      ensures unchanged(`framesValid, `badLengths, `headerCrcErrors, `heartbeatsSeen, `compatCopies, `publishDrops)
      ensures resyncBytes == SatInc(old(resyncBytes), !IsSync(data))
      ensures event == Quiet && recvDataLen == old(recvDataLen) && recvType == old(recvType)
    {
      hide HeaderCrc, Scan, Partial, HeartbeatHeader, DeclaredLength, LengthIndex, CrcIndex, Up;
      ScanFromIdle(data);
      if data == BAMBU_SYNC || data == AHUB_SYNC {
        StartFrame(data);
      } else {
        resyncBytes := SatInc(resyncBytes, true);
      }
      return Quiet;
    }

    method StartFrame(data: byte)
      requires Valid() && dropBytes == 0 && index == 0 && IsSync(data)
      modifies this`dataLengthIndex, this`length, this`dataCrc8Index, this`index, this`packageType, this`received, irqData
      ensures Valid() && received == [data]
    {
      hide HeaderCrc, Scan, Partial, HeartbeatHeader, DeclaredLength, LengthIndex, CrcIndex;
      ScanFromIdle(data);
      irqData[0] := data;
      dataLengthIndex, length, dataCrc8Index, index, packageType := 4, 6, 6, 1, data;
      received := [data];
    }

    /** Update the header positions and the length; false if the length is out of range. */
    method NoteHeader(data: byte, ghost g: seq<byte>) returns (ok: bool)
      requires |g| == index + 1 > 1 && g[index] == data && packageType == g[0] && IsSync(g[0])
      requires |g| <= irqData.Length && irqData[..|g|] == g
      requires index > 1 ==> dataLengthIndex == LengthIndex(g) && dataCrc8Index == CrcIndex(g)
      requires length == if index > LengthIndex(g) then DeclaredLength(g) else 6
      modifies this`dataLengthIndex, this`dataCrc8Index, this`length
      ensures dataLengthIndex == LengthIndex(g) && dataCrc8Index == CrcIndex(g)
      ensures length == if index >= LengthIndex(g) then DeclaredLength(g) else 6
      ensures ok <==> (index == LengthIndex(g) ==> LengthOk(g))
    {
      if index == 1 {
        if data >= 0x80 {
          dataLengthIndex, dataCrc8Index := 2, 3;
        } else {
          dataCrc8Index := 6;
          dataLengthIndex := if packageType == BAMBU_SYNC then 5 else 4;
        }
      }
      if index == dataLengthIndex {
        assert irqData[4 % |g|] == g[4 % |g|];
        if packageType == BAMBU_SYNC {
          length := if dataLengthIndex == 2 then data else FromLE16(irqData[4], data);
        } else {
          length := 4 * (data as int) + 12;
        }
        return length > dataCrc8Index && length <= MAX_FRAME_LENGTH;
      }
      return true;
    }

    /** The byte is stored and the header positions are those of `g`, the frame so far. */
    ghost predicate Staged(g: seq<byte>)
      reads this, bufferA, bufferB
    {
      && bufferA.Length == bufferB.Length == MAX_FRAME_LENGTH
      && ((irqData == bufferA && recvData == bufferB) || (irqData == bufferB && recvData == bufferA))
      && |g| == index + 1 > 1 && packageType == g[0]
      && |g| <= MAX_FRAME_LENGTH && irqData[..|g|] == g && dropBytes == 0
      && dataLengthIndex == LengthIndex(g) && dataCrc8Index == CrcIndex(g)
      && length == if index >= LengthIndex(g) then DeclaredLength(g) else 6
    }

    method Stage(data: byte, ghost g: seq<byte>) returns (ok: bool)
      requires Valid() && dropBytes == 0 && index > 0 && g == received + [data]
      modifies this`dataLengthIndex, this`dataCrc8Index, this`length, irqData
      ensures Staged(g) && (ok <==> (index == LengthIndex(g) ==> LengthOk(g)))
    {
      NextByte(received, data);
      irqData[index] := data;
      assert irqData[..index + 1] == g;
      hide Partial, HeartbeatHeader, LengthOk, DeclaredLength;
      ok := NoteHeader(data, g);
    }

    method HeaderCrcFails(data: byte, ghost g: seq<byte>) returns (bad: bool)
      requires Staged(g)
      ensures bad <==> index == CrcIndex(g) && data != HeaderCrc(g[..index])
    {
      hide HeaderCrc;
      if index == dataCrc8Index {
        assert irqData[..dataCrc8Index] == g[..index];
        return data != HeaderCrc(irqData[..dataCrc8Index]);
      }
      return false;
    }

    /** The byte passed its checks: skip a heartbeat, publish a finished frame, or go on. */
    method Accept(data: byte, ghost g: seq<byte>) returns (event: Event)
      requires Staged(g) && g[index] == data
      requires |g| > LengthIndex(g) ==> |g| <= DeclaredLength(g) <= MAX_FRAME_LENGTH
      requires |g| <= LengthIndex(g) || |g| < DeclaredLength(g) ==> Partial(g)
      requires |g| > 5 ==> !HeartbeatHeader(g)
      modifies this
      ensures unchanged(`rxBytes, `lastActivity)
      ensures Valid()
      ensures if |g| <= LengthIndex(g) || |g| < DeclaredLength(g) then received == g && event == Quiet
              else received == [] && event == Complete(|g|, g[0]) && !IsHeartbeat(g)
      ensures Counted(event, false) && Published(event, g)
    {
      hide HeaderCrc, Partial, Up;
      assert irqData[1] == g[1];
      if packageType == BAMBU_SYNC && index == 4 && dataLengthIndex == 2 && length >= 6 && irqData[1] == 0xC5 && data == 0x20 {
        index := 0;
        dropBytes := length - 5;
        received := g;
        return Quiet;
      }
      if index + 1 >= length {
        index, received := 0, [];
        var kind, size := packageType, length;
        Publish(size);
        return Complete(size, kind);
      }
      index := index + 1;
      received := g;
      return Quiet;
    }

    lemma InFrame()
      requires Valid() && dropBytes == 0 && index > 0
      ensures Partial(received) && index == |received| && (index > 4 ==> !HeartbeatHeader(received))
    {
    }

    /** Give up the current frame. */
    method Abandon(ghost g: seq<byte>)
      requires Staged(g)
      modifies this`index, this`received
      ensures Valid() && received == []
    {
      index, received := 0, [];
    }

    /** A byte inside a frame. */
    method FrameByte(data: byte) returns (event: Event)
      requires Valid() && dropBytes == 0 && index > 0
      modifies this, irqData
      ensures unchanged(`rxBytes, `lastActivity)
      ensures Valid() && received == Scan(old(received), data).0 && event == Report(Scan(old(received), data).1)
      ensures Counted(event, false) && Published(event, old(received) + [data])
    {
      hide HeaderCrc, Partial, HeartbeatHeader, IsHeartbeat, LengthOk, DeclaredLength, Scan, LengthIndex, CrcIndex, BusPort.Valid, Up;
      ghost var g := received + [data];
      InFrame();
      NextByte(received, data);
      Outcomes(received, data);
      var ok := Stage(data, g);
      if !ok {
        badLengths := SatInc(badLengths, true);
        Abandon(g);
        return BadLength(packageType);
      }
      var bad := HeaderCrcFails(data, g);
      if bad {
        headerCrcErrors := SatInc(headerCrcErrors, true);
        Abandon(g);
        return HeaderCrcError(packageType);
      }
      event := Accept(data, g);
    }

    /** `irq`; the out-parameter names the counter or callback the byte fired. */
    method Irq(data: byte, now: nat) returns (event: Event)
      requires Valid()
      modifies this, bufferA, bufferB
      ensures Valid() && received == Scan(old(received), data).0 && event == Report(Scan(old(received), data).1)
      ensures Counted(event, old(received) == [] && !IsSync(data)) && Published(event, old(received) + [data])
      ensures rxBytes == SatInc(old(rxBytes), true) && lastActivity == now
    {
      hide Scan, Report;
      lastActivity := now;
      rxBytes := SatInc(rxBytes, true);
      if dropBytes > 0 {
        event := SkipByte(data);
      } else if index == 0 {
        event := IdleByte(data);
      } else {
        event := FrameByte(data);
      }
    }
  }

  /**
   On every stream, with each frame released before the next completes, the two parsers
   report the same frames, heartbeats, bad lengths and header CRC errors at the same byte.
   */
  method Bisimulation(stream: seq<byte>, dmaBuild: bool, ticks: nat -> nat) returns (framer: seq<Event>, port: seq<Event>)
    ensures framer == Trace([], stream)
    ensures |port| == |framer| && forall i :: 0 <= i < |framer| ==> port[i] == Report(framer[i])
  {
    hide PrinterRxFramer.Valid, BusPort.Valid, BusPort.Counted, BusPort.Published, Scan, Trace;
    var a := new PrinterRxFramer();
    var b := new BusPort(dmaBuild);
    framer, port := [], [];
    var i := 0;
    assert stream[0..] == stream;
    assert Trace([], stream[|stream|..]) == [];
    while i < |stream|
      invariant 0 <= i <= |stream| && |port| == |framer| == i
      invariant a.Valid() && b.Valid() && a.received == b.received && b.recvDataLen == 0
      invariant fresh(a) && fresh(a.header) && fresh(b) && fresh(b.bufferA) && fresh(b.bufferB)
      invariant a.header != b.bufferA && a.header != b.bufferB
      invariant framer + Trace(a.received, stream[i..]) == Trace([], stream)
      invariant forall k :: 0 <= k < i ==> port[k] == Report(framer[k])
    {
      assert stream[i..] == [stream[i]] + stream[i + 1..];
      TraceStep(a.received, stream[i], stream[i + 1..]);
      var x := a.Push(stream[i]);
      var y := b.Irq(stream[i], ticks(i));
      b.ReleaseRecvFrame();
      framer, port := framer + [x], port + [y];
      i := i + 1;
    }
  }
}
