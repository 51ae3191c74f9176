/**
 Outbox, journal and replay together: which queued records a power loss cannot take, over every
 run of calls, flushes and commits.
 */
module Survival {
  import opened Bytes
  import opened Bmb1Codec
  import opened ByteRings
  import opened Replay
  import opened OutboxModel
  import opened OutboxTiling
  import opened OutboxContent
  import opened OutboxJournal
  import opened JournalStore
  import Journal

  datatype Event =
    | Call(op: Op)
    | Flush(taken: nat, created: u64, syncs: bool, saves: bool)
    | Commit(syncs: bool, saves: bool)

  datatype System = System(box: Box, store: Store)

  /** Fields the journal's record has room for; the message codec has checked them before. */
  predicate InRange(call: JournalCall) {
    call.Stage? && call.flags < 256 && 0 <= call.link < 256 && call.sequence < MASK64
  }

  function EntryOf(call: JournalCall): Journal.Entry
    requires InRange(call)
  {
    Journal.Entry(call.kind, call.flags, call.link, call.sequence, call.at, call.payload)
  }

  /** One call on the journal. */
  function Tell(w: Store, c: Config, call: JournalCall): Store {
    match call
    case Stage(_, _, _, _, _, _) => if InRange(call) then StageStep(w, c, EntryOf(call)) else w
    case RecordAck(boot, watermark) => AckStep(w, boot, watermark)
  }

  function TellAll(w: Store, c: Config, calls: seq<JournalCall>): Store
    decreases |calls|
  {
    if calls == [] then w else TellAll(Tell(w, c, calls[0]), c, calls[1..])
  }

  ghost function SystemStep(crc: seq<byte> -> u32, s: System, lim: Limits, c: Config, e: Event): System
    requires Sized(s.store)
  {
    match e
    case Call(op) => System(Apply(s.box, lim, op), TellAll(s.store, c, Calls(s.box, lim, op)))
    case Flush(taken, created, syncs, saves) => s.(store := FlushStep(crc, s.store, c, taken, created, syncs, saves).0)
    case Commit(syncs, saves) => s.(store := CommitStep(crc, s.store, syncs, saves).0)
  }

  lemma TellKeeps(crc: seq<byte> -> u32, w: Store, c: Config, call: JournalCall)
    requires Inv(crc, w)
    ensures Inv(crc, Tell(w, c, call))
  {
  }

  lemma {:induction false} TellAllKeeps(crc: seq<byte> -> u32, w: Store, c: Config, calls: seq<JournalCall>)
    requires Inv(crc, w)
    ensures Inv(crc, TellAll(w, c, calls))
    decreases |calls|
  {
    if calls != [] {
      hide Inv, Tell;
      TellKeeps(crc, w, c, calls[0]);
      TellAllKeeps(crc, Tell(w, c, calls[0]), c, calls[1..]);
    }
  }

  lemma FlushKeeps(crc: seq<byte> -> u32, w: Store, c: Config, taken: nat, created: u64, syncs: bool, saves: bool)
    requires Inv(crc, w)
    ensures Inv(crc, FlushStep(crc, w, c, taken, created, syncs, saves).0)
  {
    if w.waiting != [] {
      FlushParts(crc, w, c, taken, created, syncs, saves);
      hide RoomFor, CommitStep, Inv, FlushStep, WroteWhole, WrotePart;
      if taken >= Journal.Size(w.waiting[0]) {
        CommitInv(crc, WroteWhole(crc, RoomFor(crc, w, c, created)), syncs, saves);
      }
    }
  }

  lemma SystemKeeps(crc: seq<byte> -> u32, s: System, lim: Limits, c: Config, e: Event)
    requires Inv(crc, s.store)
    ensures Inv(crc, SystemStep(crc, s, lim, c, e).store)
  {
    hide Inv, Apply, Calls, FlushStep, CommitStep, TellAll;
    match e {
      case Call(op) => TellAllKeeps(crc, s.store, c, Calls(s.box, lim, op));
      case Flush(taken, created, syncs, saves) => FlushKeeps(crc, s.store, c, taken, created, syncs, saves);
      case Commit(syncs, saves) => CommitInv(crc, s.store, syncs, saves);
    }
  }

  ghost function SystemRun(crc: seq<byte> -> u32, s: System, lim: Limits, c: Config, events: seq<Event>): System
    requires Inv(crc, s.store)
    decreases events
  {
    if events == [] then s
    else
      SystemKeeps(crc, s, lim, c, events[0]);
      SystemRun(crc, SystemStep(crc, s, lim, c, events[0]), lim, c, events[1..])
  }

  /** The calls among the events. */
  function Ops(events: seq<Event>): (ops: seq<Op>)
    ensures |ops| <= |events|
  {
    if events == [] then []
    else (if events[0].Call? then [events[0].op] else []) + Ops(events[1..])
  }

  lemma {:induction false} BoxOfRun(crc: seq<byte> -> u32, s: System, lim: Limits, c: Config, events: seq<Event>)
    requires Inv(crc, s.store)
    ensures SystemRun(crc, s, lim, c, events).box == Run(s.box, lim, Ops(events))
    ensures Inv(crc, SystemRun(crc, s, lim, c, events).store)
    decreases events
  {
    if events != [] {
      hide Inv, Apply, Calls, FlushStep, CommitStep, TellAll;
      var e := events[0];
      SystemKeeps(crc, s, lim, c, e);
      BoxOfRun(crc, SystemStep(crc, s, lim, c, e), lim, c, events[1..]);
      if e.Call? {
        assert Ops(events)[1..] == Ops(events[1..]) && Ops(events)[0] == e.op;
      } else {
        assert Ops(events) == Ops(events[1..]);
      }
    }
  }

  // ----- How much is at risk -----

  /** Every commit that an event may need goes through. */
  predicate AllSync(events: seq<Event>) { forall e :: e in events ==> (e.Flush? ==> e.syncs) && (e.Commit? ==> e.syncs) }

  lemma {:induction false} TellAllRisks(w: Store, c: Config, calls: seq<JournalCall>)
    ensures TellAll(w, c, calls).uncommitted == w.uncommitted
    decreases |calls|
  {
    if calls != [] {
      TellAllRisks(Tell(w, c, calls[0]), c, calls[1..]);
    }
  }

  /** Over any run in which commits go through, fewer than `commitBytes` bytes are ever uncommitted. */
  lemma {:induction false} RunStaysCommitted(crc: seq<byte> -> u32, s: System, lim: Limits, c: Config, events: seq<Event>)
    requires Inv(crc, s.store) && s.store.uncommitted < c.commitBytes && AllSync(events)
    ensures SystemRun(crc, s, lim, c, events).store.uncommitted < c.commitBytes
    decreases events
  {
    if events != [] {
      var e := events[0];
      assert e in events;
      SystemKeeps(crc, s, lim, c, e);
      SizedByInv(crc, s.store);
      match e {
        case Call(op) => TellAllRisks(s.store, c, Calls(s.box, lim, op));
        case Flush(taken, created, syncs, saves) => FlushStaysCommitted(crc, s.store, c, taken, created, syncs, saves);
        case Commit(syncs, saves) => CommitInv(crc, s.store, syncs, saves);
      }
      assert SystemStep(crc, s, lim, c, e).store.uncommitted < c.commitBytes;
      hide Inv, SystemStep;
      RunStaysCommitted(crc, SystemStep(crc, s, lim, c, e), lim, c, events[1..]);
    }
  }

  // ----- What the journal holds is what it was told, in order -----

  /** Every record of this boot still held, oldest first: closed, open, waiting. */
  function Held(w: Store): seq<Journal.Entry> { Entries(w.closed) + w.open.entries + w.waiting }

  ghost predicate Rises(es: seq<Journal.Entry>, top: nat) {
    && (forall i :: 0 <= i < |es| ==> es[i].sequence < top)
    && (forall i, j :: 0 <= i < j < |es| ==> es[i].sequence < es[j].sequence)
  }

  /** The records come from the calls. */
  ghost predicate Told(es: seq<Journal.Entry>, calls: seq<JournalCall>) {
    forall e :: e in es ==> exists i :: 0 <= i < |calls| && InRange(calls[i]) && EntryOf(calls[i]) == e
  }

  /** `less` is what is left of `more` when some records are lost. */
  ghost predicate Thinned(less: seq<Journal.Entry>, more: seq<Journal.Entry>) {
    && (forall e :: e in less ==> e in more)
    && (forall top :: Rises(more, top) ==> Rises(less, top))
  }

  lemma SuffixThins(more: seq<Journal.Entry>, n: nat)
    requires n <= |more|
    ensures Thinned(more[n..], more)
  {
  }

  lemma CutOutThins(a: seq<Journal.Entry>, e: Journal.Entry, b: seq<Journal.Entry>)
    ensures Thinned(a + b, a + [e] + b)
  {
    var more := a + [e] + b;
    forall top | Rises(more, top)
      ensures Rises(a + b, top)
    {
      forall i | 0 <= i < |a + b|
        ensures (a + b)[i] == more[if i < |a| then i else i + 1]
      {
      }
    }
  }

  lemma ThinnedChains(a: seq<Journal.Entry>, b: seq<Journal.Entry>, c: seq<Journal.Entry>)
    requires Thinned(a, b) && Thinned(b, c)
    ensures Thinned(a, c)
  {
  }

  lemma {:induction false} EntriesAppend(a: seq<Segm>, b: seq<Segm>)
    ensures Entries(a + b) == Entries(a) + Entries(b)
    decreases a
  {
    if a == [] {
      assert a + b == b;
    } else {
      EntriesAppend(a[1..], b);
      assert (a + b)[0] == a[0] && (a + b)[1..] == a[1..] + b;
      var first, more, last := a[0].entries, Entries(a[1..]), Entries(b);
      assert first + (more + last) == first + more + last;
    }
  }

  lemma EntriesOfOne(s: Segm)
    ensures Entries([s]) == s.entries
  {
    var segms := [s];
    assert segms[1..] == [];
  }

  lemma RotationThins(w: Store, c: Config, created: u64)
    ensures Thinned(Held(Rotated(w, c, created)), Held(w)) && Rotated(w, c, created).waiting == w.waiting
  {
    var all, v := w.closed + [w.open], Rotated(w, c, created);
    PrunedMembers(w.older, all, c.maxSegments);
    hide Pruned;
    var n := |all| - |v.closed|;
    EntriesAppend(w.closed, [w.open]);
    EntriesOfOne(w.open);
    EntriesAppend(all[..n], v.closed);
    assert all == all[..n] + v.closed;
    SuffixThins(Held(w), |Entries(all[..n])|);
    assert Held(w) == Entries(all) + w.waiting;
    assert Held(v) == Held(w)[|Entries(all[..n])|..];
  }

  lemma CommitHolds(crc: seq<byte> -> u32, w: Store, syncs: bool, saves: bool)
    requires Sized(w)
    ensures var v := CommitStep(crc, w, syncs, saves).0;
            Held(v) == Held(w) && v.marks == w.marks && (v.saved == w.saved || v.saved == Newest(w.marks))
            && v.older == w.older && v.boot == w.boot
  {
    hide Newest;
  }

  lemma AllThin(w: Store)
    ensures Thinned(Held(w), Held(w))
  {
    SuffixThins(Held(w), 0);
    assert Held(w)[0..] == Held(w);
  }

  lemma RoomThins(crc: seq<byte> -> u32, w: Store, c: Config, created: u64)
    requires Sized(w) && w.waiting != []
    ensures var v := RoomFor(crc, w, c, created);
            Thinned(Held(v), Held(w)) && v.waiting == w.waiting && v.marks == w.marks && v.saved == w.saved
  {
    RotationThins(w, c, created);
    AllThin(w);
    hide Thinned, Held, Pruned;
  }

  lemma WritingThins(crc: seq<byte> -> u32, v: Store)
    requires Sized(v) && v.waiting != []
    ensures var x := WroteWhole(crc, v); Thinned(Held(x), Held(v)) && x.marks == v.marks && x.saved == v.saved
  {
    var e, rest, x := v.waiting[0], v.waiting[1..], WroteWhole(crc, v);
    var front := Entries(v.closed) + v.open.entries;
    assert v.waiting == [e] + rest;
    assert Held(v) == front + [e] + rest;
    if v.open.tail == [] {
      assert Held(x) == Held(v);
      AllThin(v);
    } else {
      assert Held(x) == front + rest;
      CutOutThins(front, e, rest);
    }
  }

  lemma PartHolds(crc: seq<byte> -> u32, v: Store, taken: nat)
    requires Sized(v) && v.waiting != [] && taken < Journal.Size(v.waiting[0])
    ensures var x := WrotePart(crc, v, taken); Held(x) == Held(v) && x.marks == v.marks && x.saved == v.saved
  {
  }

  /** A flush may lose records, to pruning or behind a torn write, but never reorders or adds any. */
  lemma FlushThins(crc: seq<byte> -> u32, w: Store, c: Config, taken: nat, created: u64, syncs: bool, saves: bool)
    requires Inv(crc, w)
    ensures var v := FlushStep(crc, w, c, taken, created, syncs, saves).0;
            Thinned(Held(v), Held(w)) && v.marks == w.marks && (v.saved == w.saved || v.saved == Newest(w.marks))
  {
    AllThin(w);
    if w.waiting != [] {
      var v := RoomFor(crc, w, c, created);
      RoomThins(crc, w, c, created);
      FlushParts(crc, w, c, taken, created, syncs, saves);
      SizedByInv(crc, v);
      hide RoomFor, CommitStep, FlushStep, Thinned, Newest, Inv, Held, Sized, WroteWhole, WrotePart;
      if taken >= Journal.Size(w.waiting[0]) {
        WritingThins(crc, v);
        ThinnedChains(Held(WroteWhole(crc, v)), Held(v), Held(w));
        SizedByInv(crc, WroteWhole(crc, v));
        CommitHolds(crc, WroteWhole(crc, v), syncs, saves);
      } else {
        PartHolds(crc, v, taken);
      }
    }
  }

  /** No record in the file is of this boot. */
  ghost predicate Foreign(crc: seq<byte> -> u32, file: seq<byte>, boot: nat) {
    forall j :: j in HistoryOf(crc, file) ==> j.boot != boot
  }

  ghost predicate AllForeign(crc: seq<byte> -> u32, files: seq<seq<byte>>, boot: nat) {
    forall f :: f in files ==> Foreign(crc, f, boot)
  }

  /**
   The journal against the calls it got: its records come from them and ascend below the numbers
   still to come, its watermarks are those of the ACKs, and what is on file is no further.
   */
  ghost predicate Linked(crc: seq<byte> -> u32, s: System, acked: map<nat, nat>, calls: seq<JournalCall>) {
    var w := s.store;
    && w.boot == s.box.boot && AllForeign(crc, w.older, w.boot)
    && Rises(Held(w), Top(s.box)) && Told(Held(w), calls)
    && w.marks == Marked(acked, calls) && Watermark(w.saved, w.boot) <= Watermark(w.marks, w.boot)
  }

  lemma OneCallPerOp(b: Box, lim: Limits, op: Op)
    ensures |Calls(b, lim, op)| <= 1
    ensures forall i :: 0 <= i < |Calls(b, lim, op)| && Calls(b, lim, op)[i].RecordAck? ==> op.AckOp?
  {
    hide Encode, WriteMessage, WriteBmcuFrame, WriteTransportDrop, Fits;
  }

  lemma ToldMore(es: seq<Journal.Entry>, calls: seq<JournalCall>, more: seq<JournalCall>)
    requires Told(es, calls)
    ensures Told(es, calls + more)
  {
    forall e | e in es
      ensures exists i :: 0 <= i < |calls + more| && InRange((calls + more)[i]) && EntryOf((calls + more)[i]) == e
    {
      var i :| 0 <= i < |calls| && InRange(calls[i]) && EntryOf(calls[i]) == e;
      assert (calls + more)[i] == calls[i];
    }
  }

  lemma StagingLinks(es: seq<Journal.Entry>, calls: seq<JournalCall>, call: JournalCall, from: nat, to: nat)
    requires Rises(es, from) && Told(es, calls) && InRange(call) && from <= call.sequence < to
    ensures Rises(es + [EntryOf(call)], to) && Told(es + [EntryOf(call)], calls + [call])
  {
    ToldMore(es, calls, [call]);
    assert (calls + [call])[|calls|] == call;
  }

  lemma TellLinks(w: Store, c: Config, acked: map<nat, nat>, calls: seq<JournalCall>, call: JournalCall, from: nat, to: nat)
    requires Rises(Held(w), from) && Told(Held(w), calls) && from <= to && w.marks == Marked(acked, calls)
    requires Watermark(w.saved, w.boot) <= Watermark(w.marks, w.boot)
    requires call.Stage? ==> from <= call.sequence < to
    ensures var v := Tell(w, c, call);
            && Rises(Held(v), to) && Told(Held(v), calls + [call])
            && v.marks == Marked(acked, calls + [call]) && Watermark(v.saved, v.boot) <= Watermark(v.marks, v.boot)
            && v.boot == w.boot && v.older == w.older
  {
    hide Rises, Told;
    var v := Tell(w, c, call);
    RisesHigher(Held(w), from, to);
    ToldMore(Held(w), calls, [call]);
    MarkedSplits(acked, calls, [call]);
    MarkedByOne(w.marks, call);
    if InRange(call) && Accepts(w, c, EntryOf(call)) {
      StagingLinks(Held(w), calls, call, from, to);
      assert Held(v) == Held(w) + [EntryOf(call)];
    }
  }

  lemma MarkedByOne(acked: map<nat, nat>, call: JournalCall)
    ensures Marked(acked, [call]) ==
            if call.RecordAck? && call.watermark > Watermark(acked, call.boot) then acked[call.boot := call.watermark] else acked
  {
    var calls := [call];
    assert calls[1..] == [];
  }

  lemma RisesHigher(es: seq<Journal.Entry>, from: nat, to: nat)
    requires Rises(es, from) && from <= to
    ensures Rises(es, to)
  {
  }

  lemma ThinnedIsTold(less: seq<Journal.Entry>, more: seq<Journal.Entry>, calls: seq<JournalCall>)
    requires Thinned(less, more) && Told(more, calls)
    ensures Told(less, calls)
  {
  }

  lemma NewestIsLess(marks: map<nat, nat>, boot: nat)
    ensures Watermark(Newest(marks), boot) <= Watermark(marks, boot)
  {
  }

  lemma FlushOlder(crc: seq<byte> -> u32, w: Store, c: Config, taken: nat, created: u64, syncs: bool, saves: bool)
    requires Sized(w)
    ensures var v := FlushStep(crc, w, c, taken, created, syncs, saves).0;
            v.boot == w.boot && forall f :: f in v.older ==> f in w.older
  {
    PrunedMembers(w.older, w.closed + [w.open], c.maxSegments);
    hide Newest, Pruned, File;
  }

  lemma StepLinks(crc: seq<byte> -> u32, s: System, lim: Limits, c: Config, e: Event, released: nat,
                  acked: map<nat, nat>, calls: seq<JournalCall>)
    requires Inv(crc, s.store) && Linked(crc, s, acked, calls)
    requires e.Call? ==> Sound(s.box, lim, released) && Sound(Apply(s.box, lim, e.op), lim, Frontier(s.box, released, e.op))
    ensures Linked(crc, SystemStep(crc, s, lim, c, e), acked, calls + if e.Call? then Calls(s.box, lim, e.op) else [])
  {
    hide Sound, Apply, Calls, Frontier, Top, Rises, Told, Thinned, Foreign, Newest, Tell, FlushStep, CommitStep, Inv, Marked;
    var w := s.store;
    match e {
      case Call(op) =>
        var more, after := Calls(s.box, lim, op), Apply(s.box, lim, op);
        StepAscends(s.box, lim, released, op);
        OneSequencePerCall(s.box, lim, op);
        OneCallPerOp(s.box, lim, op);
        if more == [] {
          assert calls + more == calls;
          RisesHigher(Held(w), Top(s.box), Top(after));
        } else {
          assert more == [more[0]] && more[1..] == [];
          TellLinks(w, c, acked, calls, more[0], Top(s.box), Top(after));
          assert TellAll(w, c, more) == Tell(w, c, more[0]);
        }
      case Flush(taken, created, syncs, saves) =>
        SizedByInv(crc, w);
        FlushThins(crc, w, c, taken, created, syncs, saves);
        FlushOlder(crc, w, c, taken, created, syncs, saves);
        var v := FlushStep(crc, w, c, taken, created, syncs, saves).0;
        ThinnedIsTold(Held(v), Held(w), calls);
        ThinnedRises(Held(v), Held(w), Top(s.box));
        NewestIsLess(w.marks, w.boot);
        assert calls + [] == calls;
      case Commit(syncs, saves) =>
        SizedByInv(crc, w);
        CommitHolds(crc, w, syncs, saves);
        NewestIsLess(w.marks, w.boot);
        assert calls + [] == calls;
    }
  }

  lemma ThinnedRises(less: seq<Journal.Entry>, more: seq<Journal.Entry>, top: nat)
    requires Thinned(less, more) && Rises(more, top)
    ensures Rises(less, top)
  {
  }

  /** The released frontier after an event. */
  ghost function FrontierAfter(b: Box, released: nat, e: Event): nat { if e.Call? then Frontier(b, released, e.op) else released }

  ghost function CallsOf(b: Box, lim: Limits, e: Event): seq<JournalCall> { if e.Call? then Calls(b, lim, e.op) else [] }

  lemma EventLinks(crc: seq<byte> -> u32, s: System, lim: Limits, c: Config, e: Event, released: nat,
                   acked: map<nat, nat>, calls: seq<JournalCall>)
    requires Inv(crc, s.store) && Linked(crc, s, acked, calls)
    requires Sound(s.box, lim, released) && ValidLimits(lim) && s.box.next < MASK64 && (e.Call? ==> WellFormed(e.op))
    ensures var t := SystemStep(crc, s, lim, c, e);
            && Inv(crc, t.store) && Linked(crc, t, acked, calls + CallsOf(s.box, lim, e))
            && Sound(t.box, lim, FrontierAfter(s.box, released, e)) && t.box.next <= s.box.next + 1
  {
    SystemKeeps(crc, s, lim, c, e);
    if e.Call? {
      StepTiles(s.box, lim, released, e.op);
      OneSequencePerCall(s.box, lim, e.op);
      assert Accounted(s.box, lim, e.op);
    }
    hide Sound, Apply, Calls, Frontier, Linked, Inv, TellAll, FlushStep, CommitStep, WellFormed, Accounted;
    StepLinks(crc, s, lim, c, e, released, acked, calls);
  }

  lemma {:induction false} RunLinks(crc: seq<byte> -> u32, s: System, lim: Limits, c: Config, events: seq<Event>, released: nat,
                                    acked: map<nat, nat>, calls: seq<JournalCall>)
    requires Inv(crc, s.store) && Linked(crc, s, acked, calls)
    requires Sound(s.box, lim, released) && ValidLimits(lim) && s.box.next + |events| <= MASK64 && AllWellFormed(Ops(events))
    ensures Linked(crc, SystemRun(crc, s, lim, c, events), acked, calls + RunCalls(s.box, lim, Ops(events)))
    decreases events
  {
    SizedByInv(crc, s.store);
    hide Sound, Apply, Calls, Frontier, Linked, Inv, Sized, WellFormed, ValidLimits, SystemStep, FrontierAfter, CallsOf;
    if events == [] {
      assert calls + [] == calls;
    } else {
      var e := events[0];
      var t, more := SystemStep(crc, s, lim, c, e), CallsOf(s.box, lim, e);
      OpsStep(events);
      EventLinks(crc, s, lim, c, e, released, acked, calls);
      CallsStep(crc, s, lim, c, events);
      hide Ops, RunCalls, AllWellFormed;
      Associates(calls, more, RunCalls(t.box, lim, Ops(events[1..])));
      RunLinks(crc, t, lim, c, events[1..], FrontierAfter(s.box, released, e), acked, calls + more);
    }
  }

  lemma Associates(a: seq<JournalCall>, b: seq<JournalCall>, c: seq<JournalCall>)
    ensures a + b + c == a + (b + c)
  {
  }

  lemma CallsStep(crc: seq<byte> -> u32, s: System, lim: Limits, c: Config, events: seq<Event>)
    requires Sized(s.store) && events != []
    ensures RunCalls(s.box, lim, Ops(events)) ==
            CallsOf(s.box, lim, events[0]) + RunCalls(SystemStep(crc, s, lim, c, events[0]).box, lim, Ops(events[1..]))
  {
    hide Apply, Calls, FlushStep, CommitStep, TellAll, Sized;
    var ops, rest := Ops(events), Ops(events[1..]);
    if events[0].Call? {
      assert ops == [events[0].op] + rest;
      hide Ops;
      assert ops[1..] == rest && ops[0] == events[0].op;
    } else {
      assert ops == rest;
      assert RunCalls(s.box, lim, ops) == [] + RunCalls(s.box, lim, rest);
    }
  }

  lemma OpsStep(events: seq<Event>)
    requires events != [] && AllWellFormed(Ops(events))
    ensures AllWellFormed(Ops(events[1..]))
    ensures events[0].Call? ==> WellFormed(events[0].op) && Ops(events) != []
    ensures events[0].Call? ==> Ops(events)[0] == events[0].op && Ops(events)[1..] == Ops(events[1..])
    ensures !events[0].Call? ==> Ops(events) == Ops(events[1..])
  {
    if events[0].Call? {
      assert Ops(events) == [events[0].op] + Ops(events[1..]);
      assert events[0].op in Ops(events);
    }
  }

  // ----- What survives -----

  /** The outbox and the journal as `pico/main.py` starts them, over the files and watermarks it finds. */
  function Started(boot: u64, cursor: Cursor, sequence: u32, created: u64, files: seq<seq<byte>>, acked: map<nat, nat>, c: Config): System {
    System(NewBox(boot, cursor), Opened(boot, sequence, created, files, acked, c))
  }

  /** A record with this number was staged, flushed whole and committed, and its segment is still there. */
  ghost predicate Committed(w: Store, n: nat)
    requires w.safe <= |w.open.entries|
  {
    exists e :: e in Secured(w) && e.sequence == n
  }

  /** The journal record has the content of the queued record's bytes. */
  predicate Returns(j: JournalRecord, r: Rec) {
    && |r.data| >= HEADER_SIZE
    && j.kind == r.data[5] && j.flags == FromBE(r.data[6..8]) && j.link == r.data[28]
    && j.sequence == r.sequence && j.payload == r.data[HEADER_SIZE..]
  }

  /** After this power loss the next boot finds the queued record and restores it. */
  ghost predicate Restores(crc: seq<byte> -> u32, w: Store, cut: nat, r: Rec)
    requires Sized(w) && w.durable <= cut <= |File(crc, w.open)|
  {
    var history := History(crc, Crash(crc, w, cut));
    exists j :: j in history && j.boot == w.boot && Returns(j, r) && Item(j, j.sequence, j.sequence) in Items(Open(history, w.saved))
  }

  lemma {:induction false} ForeignHistory(crc: seq<byte> -> u32, files: seq<seq<byte>>, boot: nat)
    requires AllForeign(crc, files, boot)
    ensures forall j :: j in History(crc, files) ==> j.boot != boot
    decreases files
  {
    hide HistoryOf;
    if files != [] {
      assert Foreign(crc, files[0], boot);
      ForeignHistory(crc, files[1..], boot);
    }
  }

  lemma {:induction false} RecordsAscend(boot: u64, es: seq<Journal.Entry>, top: nat)
    requires Rises(es, top)
    ensures Ascends(AsRecords(boot, es), boot)
    decreases es
  {
    if es != [] {
      assert AsRecords(boot, es)[1..] == AsRecords(boot, es[1..]);
      assert Rises(es[1..], top);
      RecordsAscend(boot, es[1..], top);
    }
  }

  lemma PrefixRises(a: seq<Journal.Entry>, b: seq<Journal.Entry>, top: nat)
    requires Rises(a + b, top)
    ensures Rises(a, top)
  {
    forall i | 0 <= i < |a|
      ensures a[i] == (a + b)[i]
    {
    }
  }

  /** The records found are a beginning of those held, so they ascend. */
  lemma FoundRises(w: Store, k: nat, top: nat)
    requires Rises(Held(w), top) && k <= |w.open.entries|
    ensures Rises(Entries(w.closed) + w.open.entries[..k], top)
  {
    var found := Entries(w.closed) + w.open.entries[..k];
    assert Held(w) == found + (w.open.entries[k..] + w.waiting);
    PrefixRises(found, w.open.entries[k..] + w.waiting, top);
  }

  /** A committed record is restored after every power loss, if the watermark on file is below it. */
  lemma CommittedIsRestored(crc: seq<byte> -> u32, s: System, acked: map<nat, nat>, calls: seq<JournalCall>, r: Rec, cut: nat, i: nat)
    requires Inv(crc, s.store) && AllQuiet(crc, s.store) && Linked(crc, s, acked, calls)
    requires s.store.durable <= cut <= |File(crc, s.store.open)|
    requires Committed(s.store, r.sequence) && Watermark(s.store.saved, s.store.boot) < r.sequence
    requires i < |calls| && Stages(calls[i], r)
    requires forall j :: 0 <= j < |calls| && calls[j].Stage? && calls[j].sequence == r.sequence ==> j == i
    ensures Restores(crc, s.store, cut, r)
  {
    var w := s.store;
    var k := CrashKeepsCommitted(crc, w, cut);
    var found := Entries(w.closed) + w.open.entries[..k];
    var e := CommittedIsFound(w, r.sequence, k);
    FoundRises(w, k, Top(s.box));
    hide Rises, Told, Inv, AllQuiet, Foreign, Marked, Stages, Top, Crash, Matches, Committed;
    EntryReturns(e, calls, r, i, Held(w));
    RecordsAscend(w.boot, found, Top(s.box));
    ForeignHistory(crc, w.older, w.boot);
    FoundIsRestored(crc, w, cut, r, found, e);
  }

  lemma CommittedIsFound(w: Store, n: nat, k: nat) returns (e: Journal.Entry)
    requires w.safe <= k <= |w.open.entries| && Committed(w, n)
    ensures e.sequence == n && e in Entries(w.closed) + w.open.entries[..k] && e in Held(w)
  {
    e :| e in Secured(w) && e.sequence == n;
    assert w.open.entries[..k][..w.safe] == w.open.entries[..w.safe];
  }

  lemma FoundIsRestored(crc: seq<byte> -> u32, w: Store, cut: nat, r: Rec, found: seq<Journal.Entry>, e: Journal.Entry)
    requires Sized(w) && w.durable <= cut <= |File(crc, w.open)|
    requires History(crc, Crash(crc, w, cut)) == History(crc, w.older) + AsRecords(w.boot, found)
    requires (forall j :: j in History(crc, w.older) ==> j.boot != w.boot) && Ascends(AsRecords(w.boot, found), w.boot)
    requires e in found && Matches(e, r) && Watermark(w.saved, w.boot) < r.sequence
    ensures Restores(crc, w, cut, r)
  {
    hide Ascends, Items, Open, History, Crash, File, Sized;
    var m :| 0 <= m < |found| && found[m] == e;
    var older, mine := History(crc, w.older), AsRecords(w.boot, found);
    var j := mine[m];
    LastBootIsReplayed(older, mine, w.saved, w.boot, j);
    ReturnsByEntry(w.boot, e, r, j);
    assert j in older + mine;
  }

  /** What was staged for the queued record is what is held under its number. */
  predicate Matches(e: Journal.Entry, r: Rec) {
    && |r.data| >= HEADER_SIZE
    && e.kind == r.data[5] && e.flags == FromBE(r.data[6..8]) && e.link == r.data[28]
    && e.sequence == r.sequence && e.payload == r.data[HEADER_SIZE..]
  }

  lemma EntryReturns(e: Journal.Entry, calls: seq<JournalCall>, r: Rec, i: nat, held: seq<Journal.Entry>)
    requires Told(held, calls) && e in held && e.sequence == r.sequence && i < |calls| && Stages(calls[i], r)
    requires forall j :: 0 <= j < |calls| && calls[j].Stage? && calls[j].sequence == r.sequence ==> j == i
    ensures Matches(e, r)
  {
    var k :| 0 <= k < |calls| && InRange(calls[k]) && EntryOf(calls[k]) == e;
  }

  lemma ReturnsByEntry(boot: u64, e: Journal.Entry, r: Rec, j: JournalRecord)
    requires Matches(e, r) && j == JournalRecord(boot, e.kind, e.flags, e.link, e.sequence, e.received, e.payload)
    ensures Returns(j, r)
  {
  }

  /** A record that is not committed is gone if the power loss takes everything behind the last commit. */
  lemma UncommittedIsLost(crc: seq<byte> -> u32, w: Store, r: Rec)
    requires Inv(crc, w) && AllQuiet(crc, w) && AllForeign(crc, w.older, w.boot) && !Committed(w, r.sequence)
    ensures !Restores(crc, w, w.durable, r)
  {
    var k := CrashKeepsCommitted(crc, w, w.durable);
    ForeignHistory(crc, w.older, w.boot);
    hide Inv, AllQuiet, Items, Open, Foreign;
    forall j | j in History(crc, Crash(crc, w, w.durable)) && j.boot == w.boot
      ensures j.sequence != r.sequence
    {
      assert j in AsRecords(w.boot, Secured(w));
      var m :| 0 <= m < |Secured(w)| && AsRecords(w.boot, Secured(w))[m] == j;
      assert Secured(w)[m] in Secured(w);
    }
  }

  /**
   After any run of calls, flushes and commits, with any partial writes and failed commits, in
   which the peer acknowledged only what it was sent: a queued record to be kept is restored by
   the next boot after every possible power loss if and only if it was committed.
   */
  lemma QueuedOutlivesPower(crc: seq<byte> -> u32, s: System, lim: Limits, c: Config, events: seq<Event>, acked: map<nat, nat>, r: Rec,
                            cursor: Cursor, sequence: u32, created: u64, files: seq<seq<byte>>)
    requires s == Started(s.box.boot, cursor, sequence, created, files, acked, c)
    requires ValidLimits(lim) && 1 + |events| <= MASK64 && AllWellFormed(Ops(events)) && NoEarlyAck(s.box, lim, Ops(events))
    requires AllForeign(crc, files, s.box.boot) && Watermark(acked, s.box.boot) == 0
    requires Inv(crc, s.store) && AllQuiet(crc, SystemRun(crc, s, lim, c, events).store)
    requires Queued(SystemRun(crc, s, lim, c, events).box, r) && r.sequence !in RunUnkept(s.box, lim, Ops(events))
    ensures var w := SystemRun(crc, s, lim, c, events).store;
            && Inv(crc, w)
            && (Committed(w, r.sequence) <==> forall cut :: w.durable <= cut <= |File(crc, w.open)| ==> Restores(crc, w, cut, r))
  {
    var boot, ops, after := s.box.boot, Ops(events), SystemRun(crc, s, lim, c, events);
    var w, calls := after.store, RunCalls(s.box, lim, ops);
    BoxOfRun(crc, s, lim, c, events);
    InitiallySound(boot, cursor, lim);
    StartLinks(crc, s, files, acked, cursor, sequence, created, c);
    RunLinks(crc, s, lim, c, events, 1, acked, []);
    assert [] + calls == calls;
    OutboxJournal.QueuedStaysUnacked(boot, cursor, lim, ops, acked, r);
    RunBoot(s.box, lim, ops);
    var i :| 0 <= i < |calls| && Stages(calls[i], r)
             && forall j :: 0 <= j < |calls| && calls[j].Stage? && calls[j].sequence == r.sequence ==> j == i;
    LinkedFacts(crc, after, acked, calls);
    hide Inv, AllQuiet, Linked, SystemRun, RunCalls, Run, Sound, NoEarlyAck, AllForeign, Restores, Committed, File;
    if Committed(w, r.sequence) {
      forall cut | w.durable <= cut <= |File(crc, w.open)|
        ensures Restores(crc, w, cut, r)
      {
        CommittedIsRestored(crc, after, acked, calls, r, cut, i);
      }
    } else {
      UncommittedIsLost(crc, w, r);
    }
  }

  lemma LinkedFacts(crc: seq<byte> -> u32, s: System, acked: map<nat, nat>, calls: seq<JournalCall>)
    requires Linked(crc, s, acked, calls)
    ensures s.store.boot == s.box.boot && AllForeign(crc, s.store.older, s.store.boot)
    ensures Watermark(s.store.saved, s.store.boot) <= Watermark(Marked(acked, calls), s.store.boot)
  {
  }

  lemma StartLinks(crc: seq<byte> -> u32, s: System, files: seq<seq<byte>>, acked: map<nat, nat>,
                   cursor: Cursor, sequence: u32, created: u64, c: Config)
    requires s == Started(s.box.boot, cursor, sequence, created, files, acked, c) && AllForeign(crc, files, s.box.boot)
    ensures Linked(crc, s, acked, [])
  {
    PrunedMembers(files, [], c.maxSegments);
    hide Foreign, Pruned;
    assert Held(s.store) == [];
  }

  // ----- And what is acknowledged does not come back -----

  lemma TellAllIsSaved(w: Store, c: Config, calls: seq<JournalCall>)
    requires CleanIsSaved(w)
    ensures CleanIsSaved(TellAll(w, c, calls))
    decreases |calls|
  {
    if calls != [] {
      var call, none := calls[0], Journal.Entry(0, 0, 0, 0, 0, []);
      match call {
        case Stage(_, _, _, _, _, _) => TellingIsSaved(w, c, if InRange(call) then EntryOf(call) else none, 0, 0);
        case RecordAck(boot, watermark) => TellingIsSaved(w, c, none, boot, watermark);
      }
      hide CleanIsSaved;
      TellAllIsSaved(Tell(w, c, call), c, calls[1..]);
    }
  }

  lemma EventIsSaved(crc: seq<byte> -> u32, s: System, lim: Limits, c: Config, e: Event)
    requires Inv(crc, s.store) && CleanIsSaved(s.store)
    ensures Sized(s.store) && CleanIsSaved(SystemStep(crc, s, lim, c, e).store)
  {
    SizedByInv(crc, s.store);
    hide Inv, CleanIsSaved, Apply, Calls, FlushStep, CommitStep, TellAll, Sized;
    match e {
      case Call(op) => TellAllIsSaved(s.store, c, Calls(s.box, lim, op));
      case Flush(taken, created, syncs, saves) => FlushIsSaved(crc, s.store, c, taken, created, syncs, saves);
      case Commit(syncs, saves) => CommitIsSaved(crc, s.store, syncs, saves);
    }
  }

  /** The file makes the next boot pass over this number, or was full of higher boots. */
  ghost predicate Covers(saved: map<nat, nat>, boot: nat, watermark: nat) {
    Watermark(saved, boot) >= watermark || |Higher(saved.Keys, boot)| >= 8
  }

  lemma KeptCovers(saved: map<nat, nat>, marks: map<nat, nat>, boot: nat, watermark: nat)
    requires Kept(saved, marks) && Watermark(marks, boot) >= watermark
    ensures Covers(saved, boot, watermark)
  {
  }

  lemma {:induction false} TellAllMarks(w: Store, c: Config, calls: seq<JournalCall>, boot: nat)
    ensures var v := TellAll(w, c, calls);
            && v.saved == w.saved && Watermark(v.marks, boot) >= Watermark(w.marks, boot)
            && forall call :: call in calls && call.RecordAck? && call.boot == boot ==> Watermark(v.marks, boot) >= call.watermark
    decreases |calls|
  {
    if calls != [] {
      assert calls == [calls[0]] + calls[1..];
      TellAllMarks(Tell(w, c, calls[0]), c, calls[1..], boot);
    }
  }

  /** Watermarks in memory only rise, and the file is only ever written from them. */
  lemma EventMarks(crc: seq<byte> -> u32, s: System, lim: Limits, c: Config, e: Event, boot: nat)
    requires Inv(crc, s.store)
    ensures Sized(s.store)
    ensures var v := SystemStep(crc, s, lim, c, e).store;
            && Watermark(v.marks, boot) >= Watermark(s.store.marks, boot)
            && (v.saved == s.store.saved || Kept(v.saved, v.marks))
            && (e.Call? && e.op.AckOp? && e.op.boot == boot ==> Watermark(v.marks, boot) >= e.op.watermark)
  {
    SizedByInv(crc, s.store);
    NewestKeeps(s.store.marks);
    hide Inv, Apply, FlushStep, CommitStep, TellAll, Sized, Kept, Newest, Held, Thinned;
    match e {
      case Call(op) =>
        TellAllMarks(s.store, c, Calls(s.box, lim, op), boot);
        if op.AckOp? {
          assert RecordAck(op.boot, op.watermark) in Calls(s.box, lim, op);
        }
      case Flush(taken, created, syncs, saves) => FlushThins(crc, s.store, c, taken, created, syncs, saves);
      case Commit(syncs, saves) => CommitHolds(crc, s.store, syncs, saves);
    }
  }

  /** Once the file covers an acknowledged number, it covers it at every later time. */
  lemma {:induction false} StaysCovered(crc: seq<byte> -> u32, s: System, lim: Limits, c: Config, events: seq<Event>,
                                        boot: nat, watermark: nat)
    requires Inv(crc, s.store) && Watermark(s.store.marks, boot) >= watermark && Covers(s.store.saved, boot, watermark)
    ensures Covers(SystemRun(crc, s, lim, c, events).store.saved, boot, watermark)
    decreases events
  {
    if events != [] {
      SystemKeeps(crc, s, lim, c, events[0]);
      EventMarks(crc, s, lim, c, events[0], boot);
      var t := SystemStep(crc, s, lim, c, events[0]);
      hide Inv, SystemStep, Covers, Kept;
      if t.store.saved != s.store.saved {
        KeptCovers(t.store.saved, t.store.marks, boot, watermark);
      }
      StaysCovered(crc, t, lim, c, events[1..], boot, watermark);
    }
  }

  /** An ACK leaves its mark in memory for the rest of the run. */
  lemma {:induction false} AckIsMarked(crc: seq<byte> -> u32, s: System, lim: Limits, c: Config, events: seq<Event>,
                                       boot: nat, watermark: nat)
    requires Inv(crc, s.store) && CleanIsSaved(s.store)
    requires Call(AckOp(boot, watermark)) in events || Watermark(s.store.marks, boot) >= watermark
    ensures var w := SystemRun(crc, s, lim, c, events).store;
            Inv(crc, w) && CleanIsSaved(w) && Watermark(w.marks, boot) >= watermark
    decreases events
  {
    hide Inv, SystemStep, CleanIsSaved, Sized;
    if events != [] {
      SystemKeeps(crc, s, lim, c, events[0]);
      EventMarks(crc, s, lim, c, events[0], boot);
      EventIsSaved(crc, s, lim, c, events[0]);
      assert events == [events[0]] + events[1..];
      AckIsMarked(crc, SystemStep(crc, s, lim, c, events[0]), lim, c, events[1..], boot, watermark);
    }
  }

  /**
   What the peer acknowledged before a commit that went through is gone for good: after any later
   run and any power loss, the next boot replays nothing at or below that number, unless eight
   higher boots have their watermarks on file.
   */
  lemma AckedStaysGone(crc: seq<byte> -> u32, s: System, lim: Limits, c: Config, before: seq<Event>, syncs: bool, saves: bool,
                       later: seq<Event>, boot: nat, watermark: nat)
    requires Inv(crc, s.store) && CleanIsSaved(s.store) && Call(AckOp(boot, watermark)) in before
    ensures Inv(crc, SystemRun(crc, s, lim, c, before).store) && Sized(SystemRun(crc, s, lim, c, before).store)
    ensures var mid := SystemRun(crc, s, lim, c, before);
            var (saved, raised) := CommitStep(crc, mid.store, syncs, saves);
            && Inv(crc, saved)
            && var w := SystemRun(crc, mid.(store := saved), lim, c, later).store;
               && Inv(crc, w)
               && (!raised && |Higher(w.saved.Keys, boot)| < 8 ==>
                     forall cut, i :: w.durable <= cut <= |File(crc, w.open)|
                                   && i in Items(Open(History(crc, Crash(crc, w, cut)), w.saved)) && i.record.boot == boot
                                   ==> i.first > watermark)
  {
    AckIsMarked(crc, s, lim, c, before, boot, watermark);
    var mid := SystemRun(crc, s, lim, c, before);
    SizedByInv(crc, mid.store);
    CommitInv(crc, mid.store, syncs, saves);
    CommitIsSaved(crc, mid.store, syncs, saves);
    var (v, raised) := CommitStep(crc, mid.store, syncs, saves);
    hide Inv, Kept, SystemRun, CommitStep, Items, Open, History, Crash, File, CleanIsSaved;
    BoxOfRun(crc, mid.(store := v), lim, c, later);
    var w := SystemRun(crc, mid.(store := v), lim, c, later).store;
    SizedByInv(crc, w);
    if !raised && |Higher(w.saved.Keys, boot)| < 8 {
      KeptCovers(v.saved, v.marks, boot, watermark);
      StaysCovered(crc, mid.(store := v), lim, c, later, boot, watermark);
      forall cut, i | w.durable <= cut <= |File(crc, w.open)|
                   && i in Items(Open(History(crc, Crash(crc, w, cut)), w.saved)) && i.record.boot == boot
        ensures i.first > watermark
      {
        AckedIsNotReplayed(History(crc, Crash(crc, w, cut)), w.saved, i);
      }
    }
  }

  // ----- And is offered again -----

  /** The journal record of a queued message is restored as that message with the REPLAY flag. */
  lemma ReturnsReadsAgain(j: JournalRecord, r: Rec, boot: nat)
    requires Returns(j, r) && j.boot == boot && IsMessage(r, boot)
    ensures RestoredMessage(j).Encoded? && ReadsAgain(RestoredRec(j), r)
  {
    hide FromBE, RestoredMessage, RestoredRec;
    assert ParseNext(r.data).message.payload == r.data[HEADER_SIZE..];
    RestoredReads(j);
  }

  /** After this power loss the next boot has the message in its replay again, under its own number, marked as replayed. */
  ghost predicate OffersAgain(crc: seq<byte> -> u32, w: Store, cut: nat, r: Rec)
    requires Sized(w) && w.durable <= cut <= |File(crc, w.open)|
  {
    exists i :: i in Items(Open(History(crc, Crash(crc, w, cut)), w.saved)) && i.first == i.last == r.sequence
             && RestoredMessage(i.record).Encoded? && ReadsAgain(RestoredRec(i.record), r)
  }

  lemma RestoresOffersAgain(crc: seq<byte> -> u32, w: Store, cut: nat, r: Rec)
    requires Sized(w) && w.durable <= cut <= |File(crc, w.open)| && IsMessage(r, w.boot)
    requires Restores(crc, w, cut, r)
    ensures OffersAgain(crc, w, cut, r)
  {
    hide Returns, IsMessage, ReadsAgain, Items, Open, History, Crash, RestoredMessage, RestoredRec, Sized;
    var history := History(crc, Crash(crc, w, cut));
    var j :| j in history && j.boot == w.boot && Returns(j, r) && Item(j, j.sequence, j.sequence) in Items(Open(history, w.saved));
    ReturnsReadsAgain(j, r, w.boot);
    assert j.sequence == r.sequence by {
      ReturnsNumber(j, r);
    }
  }

  lemma ReturnsNumber(j: JournalRecord, r: Rec)
    requires Returns(j, r)
    ensures j.sequence == r.sequence
  {
  }

  /**
   From a producer's call to the next boot: a queued record to be kept says what a call of the
   run asked for, and once it is committed every possible power loss leaves the same message in
   the replay of the next boot, with the REPLAY flag and nothing else changed.
   */
  lemma CommittedIsOfferedAgain(crc: seq<byte> -> u32, s: System, lim: Limits, c: Config, events: seq<Event>, acked: map<nat, nat>,
                                r: Rec, cursor: Cursor, sequence: u32, created: u64, files: seq<seq<byte>>)
    requires s == Started(s.box.boot, cursor, sequence, created, files, acked, c)
    requires ValidLimits(lim) && 1 + |events| <= MASK64 && AllWellFormed(Ops(events)) && NoEarlyAck(s.box, lim, Ops(events))
    requires AllFromLinks(Ops(events), lim.links)
    requires AllForeign(crc, files, s.box.boot) && Watermark(acked, s.box.boot) == 0
    requires Inv(crc, s.store) && AllQuiet(crc, SystemRun(crc, s, lim, c, events).store)
    requires Queued(SystemRun(crc, s, lim, c, events).box, r) && r.sequence !in RunUnkept(s.box, lim, Ops(events))
    ensures Genuine(s.box.boot, Ops(events), r)
    ensures var w := SystemRun(crc, s, lim, c, events).store;
            && Inv(crc, w)
            && (Committed(w, r.sequence) ==>
                  forall cut :: w.durable <= cut <= |File(crc, w.open)| ==> OffersAgain(crc, w, cut, r))
  {
    var boot, ops, history := s.box.boot, Ops(events), Items(cursor);
    var w := SystemRun(crc, s, lim, c, events).store;
    BoxOfRun(crc, s, lim, c, events);
    StartsWithContent(boot, cursor, lim.links);
    ContentRun(boot, history, [], s.box, lim, ops);
    assert [] + ops == ops;
    QueuedOutlivesPower(crc, s, lim, c, events, acked, r, cursor, sequence, created, files);
    StoreBoot(crc, s, lim, c, events);
    GenuineIsMessage(boot, ops, r);
    SizedByInv(crc, w);
    hide Inv, AllQuiet, SystemRun, Run, NoEarlyAck, AllForeign, Restores, OffersAgain, Committed, File, Content, Genuine, IsMessage, Sized;
    if Committed(w, r.sequence) {
      forall cut | w.durable <= cut <= |File(crc, w.open)|
        ensures OffersAgain(crc, w, cut, r)
      {
        RestoresOffersAgain(crc, w, cut, r);
      }
    }
  }

  lemma StartsWithContent(boot: u64, cursor: Cursor, links: nat)
    ensures Content(boot, Items(cursor), [], NewBox(boot, cursor), links)
  {
    hide Items;
  }

  lemma GenuineIsMessage(boot: nat, past: seq<Op>, r: Rec)
    requires Genuine(boot, past, r)
    ensures IsMessage(r, boot)
  {
  }

  lemma {:induction false} StoreBoot(crc: seq<byte> -> u32, s: System, lim: Limits, c: Config, events: seq<Event>)
    requires Inv(crc, s.store)
    ensures SystemRun(crc, s, lim, c, events).store.boot == s.store.boot
    decreases events
  {
    if events != [] {
      SystemKeeps(crc, s, lim, c, events[0]);
      SizedByInv(crc, s.store);
      StoreBootStep(crc, s, lim, c, events[0]);
      hide Inv, SystemStep;
      StoreBoot(crc, SystemStep(crc, s, lim, c, events[0]), lim, c, events[1..]);
    }
  }

  lemma StoreBootStep(crc: seq<byte> -> u32, s: System, lim: Limits, c: Config, e: Event)
    requires Sized(s.store)
    ensures SystemStep(crc, s, lim, c, e).store.boot == s.store.boot
  {
    match e {
      case Call(op) => TellAllBoot(s.store, c, Calls(s.box, lim, op));
      case Flush(taken, created, syncs, saves) => FlushOlder(crc, s.store, c, taken, created, syncs, saves);
      case Commit(syncs, saves) => CommitHolds(crc, s.store, syncs, saves);
    }
  }

  lemma {:induction false} TellAllBoot(w: Store, c: Config, calls: seq<JournalCall>)
    ensures TellAll(w, c, calls).boot == w.boot
    decreases |calls|
  {
    if calls != [] {
      TellAllBoot(Tell(w, c, calls[0]), c, calls[1..]);
    }
  }
}
