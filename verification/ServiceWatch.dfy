/**
 The service-gap instrumentation of `src/bmcu_ams_service_watch.h`: millisecond registers
 accumulated from a wrapping 32-bit tick, specified against one ideal millisecond clock.
 */
module ServiceWatch {
  import opened Bytes
  import opened Arithmetic

  const REOFFER_AGE_MS: nat := 3000
  const REOFFER_GAP_MS: nat := 1500
  const GAP_EVENT_MS: nat := 5000
  const KINDS: nat := 3
  const MAX32: nat := 0xFFFF_FFFF
  const MAX16: nat := 0xFFFF

  datatype Watch = Watch(
    lastPoll: u32, remainder: u32, gapNow: u32, gapMax: u32, gapMaxSession: u32, sinceConfirm: u32,
    services: seq<nat>, queries: nat, wouldReoffer: nat, confirms: nat, resets: nat,
    initialized: bool, haveService: bool, registered: bool, confirmSeen: bool,
    gapLatched: bool, reofferLatched: bool)

  const ZERO: Watch := Watch(0, 0, 0, 0, 0, 0, [0, 0, 0], 0, 0, 0, 0, false, false, false, false, false, false)

  /** The edges one entry point reports. */
  datatype Edges = Edges(gap: bool, reoffer: bool, gapMs: u32)

  const QUIET: Edges := Edges(false, false, 0)

  function SatAdd(base: u32, delta: u32): u32 {
    var sum := (base + delta) % MASK32;
    if sum < base then MAX32 else sum
  }

  function SatInc(counter: nat): nat { if counter != MAX16 then counter + 1 else counter }

  function Sat(ms: nat): u32 { if ms > MAX32 then MAX32 else ms }

  function Max(a: u32, b: u32): u32 { if a > b then a else b }

  function Min(a: u32, b: u32): u32 { if a < b then a else b }

  predicate Armed(w: Watch) {
    w.registered && w.confirmSeen && w.sinceConfirm >= REOFFER_AGE_MS && w.gapNow >= REOFFER_GAP_MS
  }

  // ----- The entry points -----

  lemma QuotientFits(a: nat, tpm: nat)
    requires tpm > 0
    ensures a / tpm <= a && a % tpm <= a
  {
    var q := a / tpm;
    Grows(q, 0, tpm);
    assert q * tpm == a - a % tpm;
  }

  /** Ticks since the last poll become milliseconds, the rest is carried. */
  function Elapse(last: u32, remainder: u32, now: u32, tpm: u32): (u32, u32)
    requires tpm > 0
  {
    var elapsed := (now - last) % MASK32;
    var total := (elapsed + remainder) % MASK32;
    QuotientFits(total, tpm);
    QuotientFits(MAX32, tpm);
    if total < elapsed then (MAX32 / tpm, 0) else (total / tpm, total % tpm)
  }

  function Accrue(w: Watch, now: u32, tpm: u32): Watch
    requires tpm > 0
  {
    var (ms, rest) := Elapse(w.lastPoll, w.remainder, now, tpm);
    var gap, age := SatAdd(w.gapNow, ms), if w.confirmSeen then SatAdd(w.sinceConfirm, ms) else w.sinceConfirm;
    w.(lastPoll := now, remainder := rest, gapNow := gap, sinceConfirm := age,
       gapMax := if w.haveService then Max(w.gapMax, gap) else w.gapMax,
       gapMaxSession := if w.confirmSeen then Max(w.gapMaxSession, Min(gap, age)) else w.gapMaxSession)
  }

  function Report(w: Watch, report: bool): (Watch, Edges) {
    var w := if Armed(w) then w else w.(reofferLatched := false);
    if !report then (w, QUIET)
    else
      var gap, reoffer := w.haveService && w.gapNow >= GAP_EVENT_MS && !w.gapLatched, Armed(w) && !w.reofferLatched;
      (w.(gapLatched := w.gapLatched || gap, reofferLatched := w.reofferLatched || reoffer),
       Edges(gap, reoffer, if gap || reoffer then w.gapNow else 0))
  }

  /** `poll`; `report` is whether the caller passed an event record. */
  function Poll(w: Watch, now: u32, tpm: u32, report: bool): (Watch, Edges) {
    if !w.initialized then (w.(initialized := true, lastPoll := now), QUIET)
    else if tpm == 0 then (w, QUIET)
    else Report(Accrue(w, now, tpm), report)
  }

  datatype Op = Look | Served(kind: nat) | Asked | Confirmed | Lapsed

  datatype Timed = Timed(op: Op, at: nat, report: bool)

  /** What each entry point does after its poll. */
  function Note(w: Watch, op: Op): Watch
    requires |w.services| == KINDS && (op.Served? ==> op.kind < KINDS)
  {
    match op
    case Look => w
    case Served(kind) => w.(services := w.services[kind := SatInc(w.services[kind])], gapNow := 0, gapLatched := false, haveService := true)
    case Asked => w.(queries := SatInc(w.queries), wouldReoffer := if Armed(w) then SatInc(w.wouldReoffer) else w.wouldReoffer)
    case Confirmed =>
      w.(registered := true, confirmSeen := true, confirms := SatInc(w.confirms),
         sinceConfirm := 0, gapMaxSession := 0, reofferLatched := false)
    case Lapsed => if w.registered then w.(registered := false, resets := SatInc(w.resets)) else w
  }

  function Step(w: Watch, t: Timed, tpm: u32): (Watch, Edges)
    requires |w.services| == KINDS
  {
    if t.op.Served? && t.op.kind >= KINDS then (w, QUIET)
    else
      var (polled, edges) := Poll(w, t.at % MASK32, tpm, t.report);
      (Note(polled, t.op), edges)
  }

  // ----- What every run keeps, however the ticks come -----

  predicate Inv(w: Watch) {
    && |w.services| == KINDS
    && (w.confirmSeen ==> w.gapMaxSession <= w.sinceConfirm)
    && (w.haveService ==> w.gapNow <= w.gapMax)
    && (w.gapLatched ==> w.haveService && w.gapNow >= GAP_EVENT_MS)
    && (w.reofferLatched ==> w.sinceConfirm >= REOFFER_AGE_MS)
  }

  lemma SatAddSaturates(base: u32, delta: u32)
    ensures SatAdd(base, delta) == Sat(base + delta)
  {
  }

  lemma PollKeeps(w: Watch, now: u32, tpm: u32, report: bool)
    requires Inv(w)
    ensures Inv(Poll(w, now, tpm, report).0)
  {
    if tpm > 0 && w.initialized {
      var ms := Elapse(w.lastPoll, w.remainder, now, tpm).0;
      SatAddSaturates(w.gapNow, ms);
      SatAddSaturates(w.sinceConfirm, ms);
      hide Elapse, SatAdd;
    }
  }

  lemma NoteKeeps(w: Watch, op: Op)
    requires Inv(w) && (op.Served? ==> op.kind < KINDS)
    ensures Inv(Note(w, op))
  {
  }

  lemma StepKeeps(w: Watch, t: Timed, tpm: u32)
    requires Inv(w)
    ensures Inv(Step(w, t, tpm).0)
  {
    hide Poll, Note;
    PollKeeps(w, t.at % MASK32, tpm, t.report);
    if !(t.op.Served? && t.op.kind >= KINDS) {
      NoteKeeps(Poll(w, t.at % MASK32, tpm, t.report).0, t.op);
    }
  }

  function Run(w: Watch, run: seq<Timed>, tpm: u32): Watch
    requires Inv(w)
    decreases run
  {
    if run == [] then w
    else
      StepKeeps(w, run[0], tpm);
      Run(Step(w, run[0], tpm).0, run[1..], tpm)
  }

  lemma {:induction false} RegistersStayOrdered(w: Watch, run: seq<Timed>, tpm: u32)
    requires Inv(w)
    ensures Inv(Run(w, run, tpm))
    decreases run
  {
    if run != [] {
      StepKeeps(w, run[0], tpm);
      hide Inv, Step;
      RegistersStayOrdered(Step(w, run[0], tpm).0, run[1..], tpm);
    }
  }

  // ----- Gap events: one for each silence -----

  function GapEvents(w: Watch, run: seq<Timed>, tpm: u32): nat
    requires Inv(w)
    decreases run
  {
    if run == [] then 0
    else
      StepKeeps(w, run[0], tpm);
      (if Step(w, run[0], tpm).1.gap then 1 else 0) + GapEvents(Step(w, run[0], tpm).0, run[1..], tpm)
  }

  function Services(run: seq<Timed>): nat {
    if run == [] then 0 else (if run[0].op.Served? && run[0].op.kind < KINDS then 1 else 0) + Services(run[1..])
  }

  lemma AccrueKeepsFlags(w: Watch, now: u32, tpm: u32)
    requires tpm > 0
    ensures var a := Accrue(w, now, tpm);
            a.services == w.services && a.gapLatched == w.gapLatched && a.haveService == w.haveService
  {
    hide Elapse, SatAdd, Max, Min;
  }

  lemma GapEventStep(w: Watch, t: Timed, tpm: u32)
    requires Inv(w)
    ensures var (r, edges) := Step(w, t, tpm);
            && (edges.gap ==> !w.gapLatched && w.haveService && edges.gapMs >= GAP_EVENT_MS)
            && (!(t.op.Served? && t.op.kind < KINDS) ==> r.gapLatched == (w.gapLatched || edges.gap))
            && (!t.report ==> !edges.gap)
  {
    hide Poll, Note;
    if !(t.op.Served? && t.op.kind >= KINDS) {
      PollGap(w, t.at % MASK32, tpm, t.report);
      PollKeeps(w, t.at % MASK32, tpm, t.report);
      NoteGap(Poll(w, t.at % MASK32, tpm, t.report).0, t.op);
    }
  }

  lemma PollGap(w: Watch, now: u32, tpm: u32, report: bool)
    ensures var (p, edges) := Poll(w, now, tpm, report);
            && (edges.gap ==> !w.gapLatched && w.haveService && edges.gapMs >= GAP_EVENT_MS)
            && p.gapLatched == (w.gapLatched || edges.gap) && (!report ==> !edges.gap)
  {
    hide Accrue, Armed;
    if tpm > 0 {
      AccrueKeepsFlags(w, now, tpm);
    }
  }

  lemma NoteGap(w: Watch, op: Op)
    requires |w.services| == KINDS && (op.Served? ==> op.kind < KINDS)
    ensures !op.Served? ==> Note(w, op).gapLatched == w.gapLatched
  {
    hide Armed, SatInc;
  }

  /** At most one event for each silence: the one running, and one behind each service frame. */
  lemma {:induction false} OneEventPerSilence(w: Watch, run: seq<Timed>, tpm: u32)
    requires Inv(w)
    ensures GapEvents(w, run, tpm) <= Services(run) + if w.gapLatched then 0 else 1
    decreases run
  {
    if run != [] {
      StepKeeps(w, run[0], tpm);
      GapEventStep(w, run[0], tpm);
      hide Inv, Step;
      OneEventPerSilence(Step(w, run[0], tpm).0, run[1..], tpm);
    }
  }

  /** An unreported poll swallows nothing: a reported one with no service frame between still fires. */
  lemma LongSilenceIsReported(w: Watch, t: Timed, tpm: u32)
    requires Inv(w) && w.initialized && tpm > 0 && w.haveService && !w.gapLatched
    requires t.report && !(t.op.Served? && t.op.kind >= KINDS)
    ensures Step(w, t, tpm).1.gap <==> Accrue(w, t.at % MASK32, tpm).gapNow >= GAP_EVENT_MS
  {
    hide Elapse, SatAdd;
  }

  // ----- No drift: one ideal millisecond clock -----

  /** Milliseconds an ideal clock started at `origin` shows at tick `t`. */
  function Ms(origin: nat, t: nat, tpm: nat): nat
    requires origin <= t && tpm > 0
  {
    (t - origin) / tpm
  }

  /** True ticks of the first call, the latest service frame and confirm, and the longest silences so far. */
  datatype Truth = Truth(origin: nat, service: nat, confirm: nat, longest: nat, longestSession: nat, clock: nat)

  predicate Placed(g: Truth) { g.origin <= g.service <= g.clock && g.origin <= g.confirm <= g.clock }

  function Later(a: nat, b: nat): nat { if a > b then a else b }

  /** The observer's step; `served` and `seen` say whether a service frame and a confirm came before. */
  function Observe(g: Truth, t: Timed, tpm: nat, served: bool, seen: bool): (r: Truth)
    requires Placed(g) && g.clock <= t.at && tpm > 0
    ensures Placed(r)
  {
    if t.op.Served? && t.op.kind >= KINDS then g
    else
      var silence := Ms(g.origin, t.at, tpm) - Ms(g.origin, g.service, tpm);
      var within := Ms(g.origin, t.at, tpm) - Ms(g.origin, Later(g.service, g.confirm), tpm);
      MsGrows(g.origin, g.service, t.at, tpm);
      MsGrows(g.origin, Later(g.service, g.confirm), t.at, tpm);
      var g := g.(clock := t.at,
                  longest := if served then Later(g.longest, silence) else g.longest,
                  longestSession := if seen then Later(g.longestSession, within) else g.longestSession);
      match t.op
      case Served(_) => g.(service := t.at)
      case Confirmed => g.(confirm := t.at, longestSession := 0)
      case _ => g
  }

  lemma MsGrows(origin: nat, a: nat, b: nat, tpm: nat)
    requires origin <= a <= b && tpm > 0
    ensures Ms(origin, a, tpm) <= Ms(origin, b, tpm)
  {
    if Ms(origin, a, tpm) > Ms(origin, b, tpm) {
      Grows(tpm, Ms(origin, b, tpm), Ms(origin, a, tpm));
    }
  }

  /** Every register is what the ideal clock says, cut off at 32 bits. */
  predicate Accurate(w: Watch, g: Truth, tpm: u32)
    requires tpm > 0
  {
    && w.initialized && Placed(g) && Inv(w)
    && w.lastPoll == g.clock % MASK32 && w.remainder == (g.clock - g.origin) % tpm
    && IsMs(w.gapNow, g, g.service, tpm)
    && (w.confirmSeen ==> IsMs(w.sinceConfirm, g, g.confirm, tpm))
    && w.gapMax == Sat(g.longest) && (w.confirmSeen ==> w.gapMaxSession == Sat(g.longestSession))
  }

  /** The register shows the time since `from`. */
  predicate IsMs(register: u32, g: Truth, from: nat, tpm: nat)
    requires tpm > 0
  {
    g.origin <= from <= g.clock && Ms(g.origin, from, tpm) <= Ms(g.origin, g.clock, tpm)
    && register == Sat(Ms(g.origin, g.clock, tpm) - Ms(g.origin, from, tpm))
  }

  /** Adding a tick span to the carry gives exactly the clock's next reading. */
  lemma CarryIsExact(origin: nat, clock: nat, at: nat, tpm: nat)
    requires origin <= clock <= at && tpm > 0
    ensures var total := at - clock + (clock - origin) % tpm;
            Ms(origin, at, tpm) == Ms(origin, clock, tpm) + total / tpm && (at - origin) % tpm == total % tpm
  {
    var total := at - clock + (clock - origin) % tpm;
    var q, d := (clock - origin) / tpm, total / tpm;
    assert tpm * (q + d) == tpm * q + tpm * d;
    DivisionIsUnique(at - origin, tpm, q + d, total % tpm);
  }

  lemma ElapseSums(last: u32, remainder: u32, now: u32, tpm: u32, elapsed: nat)
    requires tpm > 0 && elapsed == (now - last) % MASK32 && elapsed + remainder < MASK32
    ensures Elapse(last, remainder, now, tpm) == ((elapsed + remainder) / tpm, (elapsed + remainder) % tpm)
  {
  }

  /** What a poll adds never exceeds 32 bits of ticks. */
  lemma ElapseIsBounded(last: u32, remainder: u32, now: u32, tpm: u32)
    requires tpm > 0
    ensures var (ms, rest) := Elapse(last, remainder, now, tpm); ms * tpm + rest <= MAX32 && rest < tpm
  {
    var total := ((now - last) % MASK32 + remainder) % MASK32;
    Quotient(total, tpm);
    Quotient(MAX32, tpm);
  }

  lemma Quotient(a: nat, tpm: nat)
    requires tpm > 0
    ensures (a / tpm) * tpm + a % tpm == a
  {
  }

  /**
   One poll is exact, milliseconds and carry together, if and only if the ticks since the
   last poll and the carry stay below 2^32.
   */
  lemma PollIsExactIff(w: Watch, clock: nat, at: nat, tpm: u32)
    requires tpm > 0 && w.lastPoll == clock % MASK32 && w.remainder < tpm && clock <= at
    ensures var (ms, rest) := Elapse(w.lastPoll, w.remainder, at % MASK32, tpm);
            ms * tpm + rest == at - clock + w.remainder <==> at - clock + w.remainder < MASK32
  {
    hide Elapse;
    ElapseIsBounded(w.lastPoll, w.remainder, at % MASK32, tpm);
    if at - clock + w.remainder < MASK32 {
      WrappedDifference(clock, at);
      ElapseSums(w.lastPoll, w.remainder, at % MASK32, tpm, at - clock);
      Quotient(at - clock + w.remainder, tpm);
    }
  }

  /** One saturated register follows the clock over one poll. */
  lemma RegisterFollows(register: u32, g: Truth, from: nat, at: nat, ms: u32, tpm: nat)
    requires tpm > 0 && IsMs(register, g, from, tpm) && g.clock <= at
    requires Ms(g.origin, at, tpm) == Ms(g.origin, g.clock, tpm) + ms
    ensures IsMs(SatAdd(register, ms), g.(clock := at), from, tpm)
  {
    SatAddSaturates(register, ms);
    hide Ms, SatAdd;
  }

  lemma LaterReads(g: Truth, at: nat, tpm: nat)
    requires Placed(g) && tpm > 0 && g.clock <= at
    ensures Ms(g.origin, Later(g.service, g.confirm), tpm)
         == Later(Ms(g.origin, g.service, tpm), Ms(g.origin, g.confirm, tpm))
  {
    if g.service <= g.confirm {
      MsGrows(g.origin, g.service, g.confirm, tpm);
    } else {
      MsGrows(g.origin, g.confirm, g.service, tpm);
    }
  }

  /** The maximum registers follow the longest silences. */
  lemma MaximaFollow(gapMax: u32, longest: nat, gap: u32, silence: nat)
    requires gapMax == Sat(longest) && gap == Sat(silence)
    ensures Max(gapMax, gap) == Sat(Later(longest, silence))
  {
  }

  lemma MinimumFollows(g: Truth, gap: u32, age: u32, tpm: nat)
    requires Placed(g) && tpm > 0 && IsMs(gap, g, g.service, tpm) && IsMs(age, g, g.confirm, tpm)
    ensures IsMs(Min(gap, age), g, Later(g.service, g.confirm), tpm)
  {
    LaterReads(g, g.clock, tpm);
    hide Ms;
  }

  function Looked(g: Truth, w: Watch, at: nat, tpm: nat): Truth
    requires Placed(g) && g.clock <= at && tpm > 0
  {
    Observe(g, Timed(Look, at, false), tpm, w.haveService, w.confirmSeen)
  }

  lemma IsMsReads(register: u32, g: Truth, from: nat, tpm: nat)
    requires tpm > 0 && IsMs(register, g, from, tpm)
    ensures g.origin <= from <= g.clock && Ms(g.origin, from, tpm) <= Ms(g.origin, g.clock, tpm)
    ensures register == Sat(Ms(g.origin, g.clock, tpm) - Ms(g.origin, from, tpm))
  {
  }

  /** The ticks up to the next poll and the carry stay below 2^32: a condition on the poll times alone. */
  predicate Fits(g: Truth, at: nat, tpm: nat)
    requires Placed(g) && tpm > 0
  {
    g.clock <= at && at - g.clock + (g.clock - g.origin) % tpm < MASK32
  }

  lemma ElapseIsExact(w: Watch, g: Truth, at: nat, tpm: u32)
    requires tpm > 0 && Accurate(w, g, tpm) && Fits(g, at, tpm)
    ensures var (ms, rest) := Elapse(w.lastPoll, w.remainder, at % MASK32, tpm);
            Ms(g.origin, at, tpm) == Ms(g.origin, g.clock, tpm) + ms && rest == (at - g.origin) % tpm
  {
    hide Ms, Inv, IsMs, Elapse;
    CarryIsExact(g.origin, g.clock, at, tpm);
    ElapseOf(w, g.clock, at, tpm);
  }

  lemma ElapseOf(w: Watch, clock: nat, at: nat, tpm: u32)
    requires tpm > 0 && w.lastPoll == clock % MASK32 && clock <= at && at - clock + w.remainder < MASK32
    ensures var total := at - clock + w.remainder; Elapse(w.lastPoll, w.remainder, at % MASK32, tpm) == (total / tpm, total % tpm)
  {
    hide Elapse;
    WrappedDifference(clock, at);
    ElapseSums(w.lastPoll, w.remainder, at % MASK32, tpm, at - clock);
  }

  lemma AccrueIsAccurate(w: Watch, g: Truth, at: nat, tpm: u32)
    requires tpm > 0 && Accurate(w, g, tpm) && Fits(g, at, tpm)
    ensures Accurate(Accrue(w, at % MASK32, tpm), Looked(g, w, at, tpm), tpm)
  {
    hide Elapse, SatAdd, Inv, Ms, Sat, Max, Min, Later;
    ElapseIsExact(w, g, at, tpm);
    var (ms, rest) := Elapse(w.lastPoll, w.remainder, at % MASK32, tpm);
    AccrueKeeps(w, at % MASK32, tpm);
    IsMsReads(w.gapNow, g, g.service, tpm);
    var h := g.(clock := at);
    RegisterFollows(w.gapNow, g, g.service, at, ms, tpm);
    var gap := SatAdd(w.gapNow, ms);
    IsMsReads(gap, h, h.service, tpm);
    MaximaFollow(w.gapMax, g.longest, gap, Ms(g.origin, at, tpm) - Ms(g.origin, g.service, tpm));
    if w.confirmSeen {
      RegisterFollows(w.sinceConfirm, g, g.confirm, at, ms, tpm);
      var age := SatAdd(w.sinceConfirm, ms);
      MinimumFollows(h, gap, age, tpm);
      IsMsReads(Min(gap, age), h, Later(g.service, g.confirm), tpm);
      MaximaFollow(w.gapMaxSession, g.longestSession, Min(gap, age),
                   Ms(g.origin, at, tpm) - Ms(g.origin, Later(g.service, g.confirm), tpm));
    }
  }

  lemma AccrueKeeps(w: Watch, now: u32, tpm: u32)
    requires Inv(w) && tpm > 0
    ensures Inv(Accrue(w, now, tpm))
  {
    var ms := Elapse(w.lastPoll, w.remainder, now, tpm).0;
    SatAddSaturates(w.gapNow, ms);
    SatAddSaturates(w.sinceConfirm, ms);
    hide Elapse, SatAdd;
  }

  lemma ReportIsAccurate(w: Watch, g: Truth, report: bool, tpm: u32)
    requires tpm > 0 && Accurate(w, g, tpm)
    ensures Accurate(Report(w, report).0, g, tpm)
    ensures var r := Report(w, report).0; r.haveService == w.haveService && r.confirmSeen == w.confirmSeen
  {
    hide IsMs, Sat;
  }

  lemma NoteIsAccurate(w: Watch, g: Truth, op: Op, tpm: u32)
    requires tpm > 0 && Accurate(w, g, tpm) && (op.Served? ==> op.kind < KINDS)
    ensures var h := if op.Served? then g.(service := g.clock)
                     else if op.Confirmed? then g.(confirm := g.clock, longestSession := 0) else g;
            Accurate(Note(w, op), h, tpm)
  {
    NoteKeeps(w, op);
    hide Inv, Ms;
  }

  lemma StepIsAccurate(w: Watch, g: Truth, t: Timed, tpm: u32)
    requires tpm > 0 && Accurate(w, g, tpm) && g.clock <= t.at && (Ignored(t.op) || Fits(g, t.at, tpm))
    ensures Accurate(Step(w, t, tpm).0, Observe(g, t, tpm, w.haveService, w.confirmSeen), tpm)
  {
    hide Accrue, Report, Note, Accurate, Inv, Ms, Step, Observe, Fits;
    AccurateFacts(w, g, tpm);
    if t.op.Served? && t.op.kind >= KINDS {
      IgnoredKind(w, g, t, tpm);
    } else {
      AccrueIsAccurate(w, g, t.at, tpm);
      var a, h := Accrue(w, t.at % MASK32, tpm), Looked(g, w, t.at, tpm);
      ReportIsAccurate(a, h, t.report, tpm);
      NoteIsAccurate(Report(a, t.report).0, h, t.op, tpm);
      StepSplits(w, g, t, tpm);
    }
  }

  lemma AccurateFacts(w: Watch, g: Truth, tpm: u32)
    requires tpm > 0 && Accurate(w, g, tpm)
    ensures w.initialized && Placed(g) && Inv(w) && |w.services| == KINDS
  {
  }

  lemma IgnoredKind(w: Watch, g: Truth, t: Timed, tpm: u32)
    requires tpm > 0 && |w.services| == KINDS && Placed(g) && g.clock <= t.at && t.op.Served? && t.op.kind >= KINDS
    ensures Step(w, t, tpm).0 == w && Observe(g, t, tpm, w.haveService, w.confirmSeen) == g
  {
  }

  /** A call is its poll followed by its note, for the watch and for the observer. */
  lemma StepSplits(w: Watch, g: Truth, t: Timed, tpm: u32)
    requires tpm > 0 && Inv(w) && w.initialized && Placed(g) && g.clock <= t.at && (t.op.Served? ==> t.op.kind < KINDS)
    ensures |w.services| == KINDS && Step(w, t, tpm).0 == Note(Report(Accrue(w, t.at % MASK32, tpm), t.report).0, t.op)
    ensures var h := Looked(g, w, t.at, tpm);
            Observe(g, t, tpm, w.haveService, w.confirmSeen) ==
              if t.op.Served? then h.(service := h.clock)
              else if t.op.Confirmed? then h.(confirm := h.clock, longestSession := 0) else h
  {
    hide Accrue, Report, Note, Ms;
    PollKeepsServices(w, t.at % MASK32, tpm, t.report);
  }

  lemma PollKeepsServices(w: Watch, now: u32, tpm: u32, report: bool)
    requires tpm > 0
    ensures Report(Accrue(w, now, tpm), report).0.services == w.services
  {
    hide Accrue, Armed;
    AccrueKeepsFlags(w, now, tpm);
  }

  /** A call with a service kind that does not exist does nothing. */
  predicate Ignored(op: Op) { op.Served? && op.kind >= KINDS }

  predicate Ordered(run: seq<Timed>, from: nat) {
    run != [] ==> from <= run[0].at && Ordered(run[1..], if Ignored(run[0].op) then from else run[0].at)
  }

  /** Every poll of the run comes in time. */
  predicate InTime(g: Truth, run: seq<Timed>, tpm: nat)
    requires Placed(g) && Ordered(run, g.clock) && tpm > 0
    decreases run
  {
    run != [] ==>
      if Ignored(run[0].op) then InTime(g, run[1..], tpm)
      else Fits(g, run[0].at, tpm) && InTime(g.(clock := run[0].at), run[1..], tpm)
  }

  function WatchTruth(w: Watch, g: Truth, run: seq<Timed>, tpm: u32): Truth
    requires tpm > 0 && Inv(w) && Placed(g) && Ordered(run, g.clock)
    decreases run
  {
    if run == [] then g
    else
      StepKeeps(w, run[0], tpm);
      WatchTruth(Step(w, run[0], tpm).0, Observe(g, run[0], tpm, w.haveService, w.confirmSeen), run[1..], tpm)
  }

  /** The observer's origin stays, so the later polls are judged the same. */
  lemma {:induction false} InTimeByTimes(g: Truth, h: Truth, run: seq<Timed>, tpm: nat)
    requires Placed(g) && Placed(h) && g.origin == h.origin && g.clock == h.clock && Ordered(run, g.clock) && tpm > 0
    ensures InTime(g, run, tpm) <==> InTime(h, run, tpm)
    decreases run
  {
    if run != [] {
      if Ignored(run[0].op) {
        InTimeByTimes(g, h, run[1..], tpm);
      } else {
        InTimeByTimes(g.(clock := run[0].at), h.(clock := run[0].at), run[1..], tpm);
      }
    }
  }

  lemma ObserveMoves(g: Truth, t: Timed, tpm: nat, served: bool, seen: bool)
    requires Placed(g) && g.clock <= t.at && tpm > 0
    ensures var h := Observe(g, t, tpm, served, seen);
            h.origin == g.origin && h.clock == (if Ignored(t.op) then g.clock else t.at) && (Ignored(t.op) ==> h == g)
  {
    hide Ms;
  }

  /**
   After any run of calls, whatever service frames, confirms and resets it holds and however
   often the tick wrapped, every register is the difference of two readings of one clock, if
   every poll comes in time.
   */
  lemma {:induction false} NeverDrifts(w: Watch, g: Truth, run: seq<Timed>, tpm: u32)
    requires tpm > 0 && Accurate(w, g, tpm) && Ordered(run, g.clock) && InTime(g, run, tpm)
    ensures Accurate(Run(w, run, tpm), WatchTruth(w, g, run, tpm), tpm)
    decreases run
  {
    if run != [] {
      var t := run[0];
      StepKeeps(w, t, tpm);
      StepIsAccurate(w, g, t, tpm);
      ObserveMoves(g, t, tpm, w.haveService, w.confirmSeen);
      var h := Observe(g, t, tpm, w.haveService, w.confirmSeen);
      hide Accurate, Step, Observe, Fits;
      InTimeByTimes(if Ignored(t.op) then g else g.(clock := t.at), h, run[1..], tpm);
      NeverDrifts(Step(w, t, tpm).0, h, run[1..], tpm);
    }
  }

  /** The poll adds exactly what the ideal clock gained, and carries exactly its rest. */
  predicate PollExact(w: Watch, g: Truth, at: nat, tpm: u32)
    requires tpm > 0 && Placed(g) && g.clock <= at
  {
    var (ms, rest) := Elapse(w.lastPoll, w.remainder, at % MASK32, tpm);
    Ms(g.origin, at, tpm) == Ms(g.origin, g.clock, tpm) + ms && rest == (at - g.origin) % tpm
  }

  lemma PollExactIff(w: Watch, g: Truth, at: nat, tpm: u32)
    requires tpm > 0 && Accurate(w, g, tpm) && g.clock <= at
    ensures PollExact(w, g, at, tpm) <==> Fits(g, at, tpm)
  {
    hide IsMs, Inv, Elapse, Ms;
    PollIsExactIff(w, g.clock, at, tpm);
    CarryIsExact(g.origin, g.clock, at, tpm);
    ElapseIsBounded(w.lastPoll, w.remainder, at % MASK32, tpm);
    var (ms, rest) := Elapse(w.lastPoll, w.remainder, at % MASK32, tpm);
    SplitIff(at - g.clock + w.remainder, ms, rest, tpm);
  }

  lemma SplitIff(total: nat, ms: nat, rest: nat, tpm: nat)
    requires tpm > 0 && rest < tpm
    ensures ms * tpm + rest == total <==> ms == total / tpm && rest == total % tpm
  {
    Quotient(total, tpm);
    if ms * tpm + rest == total {
      assert tpm * ms == ms * tpm;
      DivisionIsUnique(total, tpm, ms, rest);
    }
  }

  /** Every poll of the run is exact, as long as those before it were. */
  predicate AlwaysExact(w: Watch, g: Truth, run: seq<Timed>, tpm: u32)
    requires tpm > 0 && Inv(w) && Placed(g) && Ordered(run, g.clock)
    decreases run
  {
    run != [] ==>
      && (Ignored(run[0].op) || PollExact(w, g, run[0].at, tpm))
      && (StepKeeps(w, run[0], tpm);
          AlwaysExact(Step(w, run[0], tpm).0, Observe(g, run[0], tpm, w.haveService, w.confirmSeen), run[1..], tpm))
  }

  /** No poll of a run ever gains or loses time if and only if every poll comes in time. */
  lemma {:induction false} RunIsExactIff(w: Watch, g: Truth, run: seq<Timed>, tpm: u32)
    requires tpm > 0 && Accurate(w, g, tpm) && Ordered(run, g.clock)
    ensures AlwaysExact(w, g, run, tpm) <==> InTime(g, run, tpm)
    decreases run
  {
    if run != [] {
      var t := run[0];
      StepKeeps(w, t, tpm);
      PollExactIff(w, g, t.at, tpm);
      if Ignored(t.op) || Fits(g, t.at, tpm) {
        StepIsAccurate(w, g, t, tpm);
        ObserveMoves(g, t, tpm, w.haveService, w.confirmSeen);
        var h := Observe(g, t, tpm, w.haveService, w.confirmSeen);
        hide Accurate, Step, Observe, Fits, PollExact;
        InTimeByTimes(if Ignored(t.op) then g else g.(clock := t.at), h, run[1..], tpm);
        RunIsExactIff(Step(w, t, tpm).0, h, run[1..], tpm);
      }
    }
  }

  /** A watch that is polled again only after a tick wrap counts no time for it. */
  lemma LatePollLosesTime(tpm: u32)
    requires tpm > 0
    ensures var w := Step(ZERO, Timed(Look, 0, false), tpm).0;
            var late := Step(w, Timed(Look, MASK32, false), tpm).0;
            late.gapNow == 0 && late.remainder == 0 && Ms(0, MASK32, tpm) > 0
  {
    Quotient(MASK32, tpm);
  }

  /** The first call starts the clock. */
  lemma FirstCallIsAccurate(t: Timed, tpm: u32)
    requires tpm > 0 && !(t.op.Served? && t.op.kind >= KINDS)
    ensures Accurate(Step(ZERO, t, tpm).0, Truth(t.at, t.at, t.at, 0, 0, t.at), tpm)
  {
  }

  // ----- The counters -----

  /** A 16-bit counter after n more events. */
  function Counted(counter: nat, n: nat): nat { if counter + n > MAX16 then MAX16 else counter + n }

  predicate IsQuery(t: Timed) { t.op == Asked }

  predicate IsConfirm(t: Timed) { t.op == Confirmed }

  function Queries(run: seq<Timed>): nat { if run == [] then 0 else (if IsQuery(run[0]) then 1 else 0) + Queries(run[1..]) }

  function Confirms(run: seq<Timed>): nat { if run == [] then 0 else (if IsConfirm(run[0]) then 1 else 0) + Confirms(run[1..]) }

  function ServicesOf(run: seq<Timed>, kind: nat): nat {
    if run == [] then 0 else (if run[0].op == Served(kind) then 1 else 0) + ServicesOf(run[1..], kind)
  }

  /** Losses of a registration: a reset counts only if a confirm came since the one before. */
  function Losses(run: seq<Timed>, registered: bool): nat {
    if run == [] then 0
    else if run[0].op == Lapsed then (if registered then 1 else 0) + Losses(run[1..], false)
    else Losses(run[1..], registered || run[0].op == Confirmed)
  }

  predicate Fits16(w: Watch) {
    && |w.services| == KINDS && (forall k :: 0 <= k < KINDS ==> w.services[k] <= MAX16)
    && w.queries <= MAX16 && w.confirms <= MAX16 && w.resets <= MAX16 && w.wouldReoffer <= MAX16
  }

  lemma PollKeepsCounters(w: Watch, now: u32, tpm: u32, report: bool)
    ensures var p := Poll(w, now, tpm, report).0;
            && p.services == w.services && p.queries == w.queries && p.confirms == w.confirms && p.resets == w.resets
            && p.registered == w.registered && p.wouldReoffer == w.wouldReoffer
  {
    hide Armed, Accrue;
    if tpm > 0 {
      AccrueKeepsCounters(w, now, tpm);
    }
  }

  lemma AccrueKeepsCounters(w: Watch, now: u32, tpm: u32)
    requires tpm > 0
    ensures var p := Accrue(w, now, tpm);
            && p.services == w.services && p.queries == w.queries && p.confirms == w.confirms && p.resets == w.resets
            && p.registered == w.registered && p.wouldReoffer == w.wouldReoffer
  {
    hide Elapse, SatAdd, Max, Min;
  }

  lemma IncCounts(counter: nat)
    requires counter <= MAX16
    ensures SatInc(counter) == Counted(counter, 1) <= MAX16 && Counted(counter, 0) == counter
  {
  }

  lemma NoteCounts(w: Watch, op: Op)
    requires Fits16(w) && (op.Served? ==> op.kind < KINDS)
    ensures var r := Note(w, op);
            && |r.services| == KINDS
            && r.queries == (if op == Asked then SatInc(w.queries) else w.queries)
            && r.confirms == (if op == Confirmed then SatInc(w.confirms) else w.confirms)
            && (forall k :: 0 <= k < KINDS ==> r.services[k] == if op == Served(k) then SatInc(w.services[k]) else w.services[k])
            && r.resets == (if op == Lapsed && w.registered then SatInc(w.resets) else w.resets)
            && r.registered == (op == Confirmed || (w.registered && op != Lapsed))
            && (r.wouldReoffer == w.wouldReoffer || r.wouldReoffer == SatInc(w.wouldReoffer))
  {
    hide Armed, SatInc;
  }

  /** The counters and the registration after one call. */
  ghost predicate CountedBy(w: Watch, t: Timed, r: Watch) {
    && Fits16(w) && Fits16(r)
    && r.queries == Counted(w.queries, if IsQuery(t) then 1 else 0)
    && r.confirms == Counted(w.confirms, if IsConfirm(t) then 1 else 0)
    && (forall k :: 0 <= k < KINDS ==> r.services[k] == Counted(w.services[k], if t.op == Served(k) then 1 else 0))
    && r.resets == Counted(w.resets, if t.op == Lapsed && w.registered then 1 else 0)
    && r.registered == (t.op == Confirmed || (w.registered && t.op != Lapsed))
  }

  lemma NoteIsCounted(w: Watch, t: Timed)
    requires Fits16(w) && (t.op.Served? ==> t.op.kind < KINDS)
    ensures CountedBy(w, t, Note(w, t.op))
  {
    NoteCounts(w, t.op);
    hide Note, SatInc;
    IncCounts(w.queries);
    IncCounts(w.confirms);
    IncCounts(w.resets);
    IncCounts(w.wouldReoffer);
    forall k: nat | k < KINDS
      ensures SatInc(w.services[k]) == Counted(w.services[k], 1) <= MAX16 && Counted(w.services[k], 0) == w.services[k]
    {
      IncCounts(w.services[k]);
    }
  }

  lemma CounterStep(w: Watch, t: Timed, tpm: u32)
    requires Fits16(w)
    ensures CountedBy(w, t, Step(w, t, tpm).0)
  {
    if t.op.Served? && t.op.kind >= KINDS {
      hide Poll, Note;
    } else {
      hide Poll, Note;
      PollKeepsCounters(w, t.at % MASK32, tpm, t.report);
      NoteIsCounted(Poll(w, t.at % MASK32, tpm, t.report).0, t);
    }
  }

  /** Every counter is the number of its events, up to the largest 16-bit number. */
  lemma {:induction false} CountersCount(w: Watch, run: seq<Timed>, tpm: u32)
    requires Inv(w) && Fits16(w)
    ensures var r := Run(w, run, tpm);
            && Fits16(r)
            && r.queries == Counted(w.queries, Queries(run)) && r.confirms == Counted(w.confirms, Confirms(run))
            && (forall k :: 0 <= k < KINDS ==> r.services[k] == Counted(w.services[k], ServicesOf(run, k)))
            && r.resets == Counted(w.resets, Losses(run, w.registered))
    decreases run
  {
    if run != [] {
      StepKeeps(w, run[0], tpm);
      CounterStep(w, run[0], tpm);
      hide Inv, Step;
      CountersCount(Step(w, run[0], tpm).0, run[1..], tpm);
    }
  }

  // ----- The offer the unit would repeat -----

  /** Milliseconds on the ideal clock since an earlier tick. */
  function Since(g: Truth, from: nat, at: nat, tpm: nat): nat
    requires g.origin <= from <= at && tpm > 0
  {
    MsGrows(g.origin, from, at, tpm);
    Ms(g.origin, at, tpm) - Ms(g.origin, from, tpm)
  }

  /** Registered, confirmed 3 s ago or more, and silent for 1.5 s or more, on the ideal clock. */
  predicate Due(w: Watch, g: Truth, at: nat, tpm: nat)
    requires Placed(g) && g.clock <= at && tpm > 0
  {
    w.registered && w.confirmSeen && Since(g, g.confirm, at, tpm) >= 3000 && Since(g, g.service, at, tpm) >= 1500
  }

  lemma RegistersAreSince(w: Watch, g: Truth, at: nat, tpm: u32)
    requires tpm > 0 && Accurate(w, g, tpm) && Fits(g, at, tpm)
    ensures Placed(g) && g.clock <= at
    ensures var a := Accrue(w, at % MASK32, tpm);
            && a.gapNow == Sat(Since(g, g.service, at, tpm))
            && (w.confirmSeen ==> a.sinceConfirm == Sat(Since(g, g.confirm, at, tpm)))
  {
    hide Elapse, SatAdd, Inv, Ms, Max, Min, Later, Sat;
    ElapseIsExact(w, g, at, tpm);
    var (ms, rest) := Elapse(w.lastPoll, w.remainder, at % MASK32, tpm);
    var h := g.(clock := at);
    RegisterFollows(w.gapNow, g, g.service, at, ms, tpm);
    IsMsReads(SatAdd(w.gapNow, ms), h, h.service, tpm);
    if w.confirmSeen {
      RegisterFollows(w.sinceConfirm, g, g.confirm, at, ms, tpm);
      IsMsReads(SatAdd(w.sinceConfirm, ms), h, h.confirm, tpm);
    }
  }

  lemma AccrueKeepsLatches(w: Watch, now: u32, tpm: u32)
    requires tpm > 0
    ensures var a := Accrue(w, now, tpm);
            && a.reofferLatched == w.reofferLatched && a.gapLatched == w.gapLatched && a.haveService == w.haveService
            && a.registered == w.registered && a.confirmSeen == w.confirmSeen
  {
    hide Elapse, SatAdd, Max, Min;
  }

  lemma ArmedIsDue(w: Watch, g: Truth, at: nat, tpm: u32)
    requires tpm > 0 && Accurate(w, g, tpm) && Fits(g, at, tpm)
    ensures Placed(g) && g.clock <= at
    ensures var a := Accrue(w, at % MASK32, tpm);
            (Armed(a) <==> Due(w, g, at, tpm)) && a.gapNow == Sat(Since(g, g.service, at, tpm))
  {
    RegistersAreSince(w, g, at, tpm);
    AccrueKeepsLatches(w, at % MASK32, tpm);
    hide Accrue, Accurate, Inv, Fits, Since;
  }

  /** A query counts as a repeated offer exactly if one is due in true time. */
  lemma QueryCountsIffDue(w: Watch, g: Truth, t: Timed, tpm: u32)
    requires tpm > 0 && Accurate(w, g, tpm) && Fits(g, t.at, tpm) && t.op == Asked
    ensures Placed(g) && g.clock <= t.at && |w.services| == KINDS
    ensures Step(w, t, tpm).0.wouldReoffer ==
            if Due(w, g, t.at, tpm) && w.wouldReoffer != 65535 then w.wouldReoffer + 1 else w.wouldReoffer
  {
    ArmedIsDue(w, g, t.at, tpm);
    AccurateFacts(w, g, tpm);
    AccrueKeepsCounters(w, t.at % MASK32, tpm);
    hide Accurate, Accrue, Due, Inv, Fits;
  }

  /**
   What a reported poll tells: a silence of 5 s once, a due offer once, each with the true silence
   of that moment; an unreported poll tells nothing.
   */
  lemma EdgesTellTrueSilence(w: Watch, g: Truth, t: Timed, tpm: u32)
    requires tpm > 0 && Accurate(w, g, tpm) && Fits(g, t.at, tpm) && !Ignored(t.op)
    ensures Placed(g) && g.clock <= t.at && |w.services| == KINDS
    ensures var edges, silence := Step(w, t, tpm).1, Since(g, g.service, t.at, tpm);
            && (edges.gap <==> t.report && w.haveService && !w.gapLatched && silence >= 5000)
            && (edges.reoffer <==> t.report && Due(w, g, t.at, tpm) && !w.reofferLatched)
            && edges.gapMs == if edges.gap || edges.reoffer then Sat(silence) else 0
  {
    ArmedIsDue(w, g, t.at, tpm);
    AccurateFacts(w, g, tpm);
    AccrueKeepsLatches(w, t.at % MASK32, tpm);
    hide Accurate, Accrue, Due, Inv, Fits, Note, Armed, Since;
  }

  /** Whether an offer could still be told before anything ends the wait for it. */
  function Credit(w: Watch): nat { if w.reofferLatched && Armed(w) then 0 else 1 }

  function Reoffers(w: Watch, run: seq<Timed>, tpm: u32): nat
    requires Inv(w)
    decreases run
  {
    if run == [] then 0
    else
      StepKeeps(w, run[0], tpm);
      (if Step(w, run[0], tpm).1.reoffer then 1 else 0) + Reoffers(Step(w, run[0], tpm).0, run[1..], tpm)
  }

  /** A service frame, a confirm or a reset ends a wait. */
  predicate Ends(t: Timed) { (t.op.Served? && t.op.kind < KINDS) || t.op == Confirmed || t.op == Lapsed }

  function Endings(run: seq<Timed>): nat { if run == [] then 0 else (if Ends(run[0]) then 1 else 0) + Endings(run[1..]) }

  lemma AccrueStaysArmed(w: Watch, now: u32, tpm: u32)
    requires tpm > 0
    ensures Armed(w) ==> Armed(Accrue(w, now, tpm))
    ensures Accrue(w, now, tpm).reofferLatched == w.reofferLatched
  {
    var ms := Elapse(w.lastPoll, w.remainder, now, tpm).0;
    SatAddSaturates(w.gapNow, ms);
    SatAddSaturates(w.sinceConfirm, ms);
    hide Elapse, SatAdd, Max, Min;
  }

  lemma PollCredit(w: Watch, now: u32, tpm: u32, report: bool)
    ensures var (p, edges) := Poll(w, now, tpm, report);
            (if edges.reoffer then 1 else 0) + Credit(p) <= Credit(w)
  {
    if tpm > 0 {
      AccrueStaysArmed(w, now, tpm);
    }
    hide Accrue;
  }

  lemma StepCredit(w: Watch, t: Timed, tpm: u32)
    requires Inv(w)
    ensures (if Step(w, t, tpm).1.reoffer then 1 else 0) + Credit(Step(w, t, tpm).0) <= Credit(w) + if Ends(t) then 1 else 0
  {
    hide Poll, SatInc;
    PollCredit(w, t.at % MASK32, tpm, t.report);
    PollSameServices(w, t.at % MASK32, tpm, t.report);
  }

  /** Over any run at most one due offer is told for each wait: the one running, and one behind each ending. */
  lemma {:induction false} OneReofferPerWait(w: Watch, run: seq<Timed>, tpm: u32)
    requires Inv(w)
    ensures Reoffers(w, run, tpm) <= Endings(run) + Credit(w)
    decreases run
  {
    if run != [] {
      StepKeeps(w, run[0], tpm);
      StepCredit(w, run[0], tpm);
      hide Inv, Step, Credit, Ends;
      OneReofferPerWait(Step(w, run[0], tpm).0, run[1..], tpm);
    }
  }

  // ----- The firmware's own form -----

  class Monitor {
    var lastPollTick: u32
    var tickRemainder: u32
    var gapNowMs: u32
    var gapMaxMs: u32
    var gapMaxSinceConfirmMs: u32
    var msSinceConfirm: u32
    var serviceCount: seq<nat>
    var registrationQueryCount: nat
    var wouldReofferCount: nat
    var confirmCount: nat
    var resetCount: nat
    var initialized: bool
    var haveService: bool
    var registered: bool
    var confirmSeen: bool
    var gapEventLatched: bool
    var reofferEventLatched: bool

    function View(): Watch
      reads this
    {
      Watch(lastPollTick, tickRemainder, gapNowMs, gapMaxMs, gapMaxSinceConfirmMs, msSinceConfirm,
            serviceCount, registrationQueryCount, wouldReofferCount, confirmCount, resetCount,
            initialized, haveService, registered, confirmSeen, gapEventLatched, reofferEventLatched)
    }

    constructor ()
      ensures View() == ZERO
    {
      lastPollTick, tickRemainder, gapNowMs, gapMaxMs, gapMaxSinceConfirmMs, msSinceConfirm := 0, 0, 0, 0, 0, 0;
      serviceCount, registrationQueryCount, wouldReofferCount, confirmCount, resetCount := [0, 0, 0], 0, 0, 0, 0;
      initialized, haveService, registered, confirmSeen := false, false, false, false;
      gapEventLatched, reofferEventLatched := false, false;
    }

    /** Ticks to milliseconds, with the carry. */
    method TakeElapsed(now: u32, tpm: u32) returns (elapsedMs: u32)
      requires tpm > 0
      modifies this`lastPollTick, this`tickRemainder
      ensures (elapsedMs, tickRemainder) == Elapse(old(lastPollTick), old(tickRemainder), now, tpm) && lastPollTick == now
    {
      var elapsed := (now - lastPollTick) % MASK32;
      lastPollTick := now;
      var total := (elapsed + tickRemainder) % MASK32;
      QuotientFits(total, tpm);
      QuotientFits(MAX32, tpm);
      if total < elapsed {
        elapsedMs := MAX32 / tpm;
        tickRemainder := 0;
      } else {
        elapsedMs := total / tpm;
        tickRemainder := total % tpm;
      }
    }

    /** The accumulating half of `poll`. */
    method Accumulate(now: u32, tpm: u32)
      requires tpm > 0
      modifies this
      ensures View() == Accrue(old(View()), now, tpm)
    {
      hide SatAdd, Elapse;
      var elapsedMs := TakeElapsed(now, tpm);
      gapNowMs := SatAdd(gapNowMs, elapsedMs);
      if confirmSeen {
        msSinceConfirm := SatAdd(msSinceConfirm, elapsedMs);
      }
      if haveService && gapNowMs > gapMaxMs {
        gapMaxMs := gapNowMs;
      }
      if confirmSeen {
        var capped := if gapNowMs < msSinceConfirm then gapNowMs else msSinceConfirm;
        if capped > gapMaxSinceConfirmMs {
          gapMaxSinceConfirmMs := capped;
        }
      }
    }

    method PollTicks(now: u32, tpm: u32, report: bool) returns (edges: Edges)
      modifies this
      ensures (View(), edges) == Poll(old(View()), now, tpm, report)
    {
      hide Accrue;
      edges := QUIET;
      if !initialized {
        initialized := true;
        lastPollTick := now;
        return;
      }
      if tpm == 0 {
        return;
      }
      Accumulate(now, tpm);
      var armed := Armed(View());
      if !armed {
        reofferEventLatched := false;
      }
      if !report {
        return;
      }
      if haveService && gapNowMs >= GAP_EVENT_MS && !gapEventLatched {
        gapEventLatched := true;
        edges := edges.(gap := true, gapMs := gapNowMs);
      }
      if armed && !reofferEventLatched {
        reofferEventLatched := true;
        edges := edges.(reoffer := true, gapMs := gapNowMs);
      }
    }

    method NoteService(kind: nat, now: u32, tpm: u32, report: bool) returns (edges: Edges)
      requires |serviceCount| == KINDS
      modifies this
      ensures (View(), edges) == Step(old(View()), Timed(Served(kind), now, report), tpm)
    {
      hide Poll, SatInc;
      if kind >= KINDS {
        return QUIET;
      }
      PollSameServices(View(), now, tpm, report);
      edges := PollTicks(now, tpm, report);
      serviceCount := serviceCount[kind := SatInc(serviceCount[kind])];
      gapNowMs := 0;
      gapEventLatched, haveService := false, true;
    }

    method NoteQuery(now: u32, tpm: u32, report: bool) returns (edges: Edges)
      requires |serviceCount| == KINDS
      modifies this
      ensures (View(), edges) == Step(old(View()), Timed(Asked, now, report), tpm)
    {
      hide Poll, SatInc;
      PollSameServices(View(), now, tpm, report);
      edges := PollTicks(now, tpm, report);
      registrationQueryCount := SatInc(registrationQueryCount);
      if Armed(View()) {
        wouldReofferCount := SatInc(wouldReofferCount);
      }
    }

    method NoteConfirm(now: u32, tpm: u32, report: bool) returns (edges: Edges)
      requires |serviceCount| == KINDS
      modifies this
      ensures (View(), edges) == Step(old(View()), Timed(Confirmed, now, report), tpm)
    {
      hide Poll, SatInc, Armed;
      PollSameServices(View(), now, tpm, report);
      edges := PollTicks(now, tpm, report);
      registered, confirmSeen := true, true;
      confirmCount := SatInc(confirmCount);
      msSinceConfirm, gapMaxSinceConfirmMs := 0, 0;
      reofferEventLatched := false;
    }

    method NoteReset(now: u32, tpm: u32, report: bool) returns (edges: Edges)
      requires |serviceCount| == KINDS
      modifies this
      ensures (View(), edges) == Step(old(View()), Timed(Lapsed, now, report), tpm)
    {
      hide Poll, SatInc, Armed;
      PollSameServices(View(), now, tpm, report);
      edges := PollTicks(now, tpm, report);
      if registered {
        registered := false;
        resetCount := SatInc(resetCount);
      }
    }
  }

  lemma PollSameServices(w: Watch, now: u32, tpm: u32, report: bool)
    ensures Poll(w, now, tpm, report).0.services == w.services
  {
    hide Accrue, Armed;
    if tpm > 0 {
      AccrueKeepsFlags(w, now, tpm);
    }
  }
}
