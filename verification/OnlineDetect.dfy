/**
 When a registered unit offers itself again (`src/ams_online_detect_policy.h`): 32-bit tick
 comparisons with sticky flags, specified against true time.
 */
module OnlineDetect {
  import opened Bytes

  datatype Action = StaySilent | OfferFirst | OfferRepeat

  datatype Config = Config(settle: u32, silence: u32)

  datatype State = State(phase: nat, registered: bool, settled: bool, stale: bool, confirmTick: u32, serviceTick: u32)

  const FRESH: State := State(0, false, false, false, 0, 0)

  function NoteService(s: State, now: u32): State { s.(serviceTick := now, stale := false) }

  function Poll(s: State, c: Config, now: u32): State {
    if !s.registered then s
    else
      s.(settled := s.settled || (now - s.confirmTick) % MASK32 >= c.settle,
         stale := s.stale || (now - s.serviceTick) % MASK32 >= c.silence)
  }

  function OnQuery(s: State): (State, Action) {
    if s.registered then
      if s.settled && s.stale then (s.(phase := 1, registered := false, settled := false, stale := false), OfferFirst)
      else (s, StaySilent)
    else if s.phase == 0 then (s.(phase := 1), OfferFirst)
    else (s.(phase := 2), OfferRepeat)
  }

  function LatchConfirm(s: State, now: u32): State {
    State(3, true, false, false, now, now)
  }

  datatype Op = Forget | Service | Look | Query | Confirm

  datatype Timed = Timed(op: Op, at: nat)

  function Step(s: State, c: Config, t: Timed): State {
    var now := t.at % MASK32;
    match t.op
    case Forget => FRESH
    case Service => NoteService(s, now)
    case Look => Poll(s, c, now)
    case Query => OnQuery(s).0
    case Confirm => LatchConfirm(s, now)
  }

  /**
   What an observer with an unbounded clock knows: when the latest service frame and confirm
   came, when the unit last polled, and the ages those had at the last poll since (-1: none yet).
   */
  datatype Truth = Truth(service: nat, confirm: nat, looked: nat, silenceSeen: int, ageSeen: int, clock: nat)

  function Observe(g: Truth, t: Timed): Truth
    requires g.service <= g.clock && g.confirm <= g.clock <= t.at
  {
    var g := g.(clock := t.at);
    match t.op
    case Forget => g.(silenceSeen := -1, ageSeen := -1)
    case Service => g.(service := t.at, silenceSeen := -1)
    case Look => g.(looked := t.at, silenceSeen := t.at - g.service, ageSeen := t.at - g.confirm)
    case Query => g
    case Confirm => g.(service := t.at, confirm := t.at, silenceSeen := -1, ageSeen := -1)
  }

  /** A flag is never ahead of the truth, whatever the tick wraps did. */
  predicate Sound(s: State, g: Truth, c: Config) {
    && g.service <= g.clock && g.confirm <= g.clock && g.looked <= g.clock
    && (s.registered ==>
         && s.serviceTick == g.service % MASK32 && s.confirmTick == g.confirm % MASK32
         && (s.stale ==> g.silenceSeen >= c.silence) && (s.settled ==> g.ageSeen >= c.settle)
         && (g.silenceSeen >= 0 ==> g.silenceSeen == g.looked - g.service)
         && (g.ageSeen >= 0 ==> g.ageSeen == g.looked - g.confirm)
         && (g.silenceSeen < 0 ==> g.looked <= g.service) && (g.ageSeen < 0 ==> g.looked <= g.confirm))
  }

  /** Nor behind it. */
  predicate Prompt(s: State, g: Truth, c: Config) {
    s.registered ==> (g.silenceSeen >= c.silence ==> s.stale) && (g.ageSeen >= c.settle ==> s.settled)
  }

  lemma StepIsSound(s: State, g: Truth, c: Config, t: Timed)
    requires Sound(s, g, c) && g.clock <= t.at
    ensures Sound(Step(s, c, t), Observe(g, t), c)
  {
    if t.op == Look {
      WrappedDifference(g.service, t.at);
      WrappedDifference(g.confirm, t.at);
    }
  }

  /** A true age past its threshold still shows after the wrap. */
  predicate Shows(age: int, threshold: u32) { age >= threshold ==> age % MASK32 >= threshold }

  /**
   The poll comes in time: each age that no poll has seen past its threshold shows at this one.
   It depends on the times of calls only.
   */
  predicate Timely(g: Truth, t: Timed, c: Config)
    requires g.service <= t.at && g.confirm <= t.at
  {
    t.op == Look ==>
      && (g.silenceSeen < c.silence ==> Shows(t.at - g.service, c.silence))
      && (g.ageSeen < c.settle ==> Shows(t.at - g.confirm, c.settle))
  }

  /** One call leaves no flag behind the truth if and only if it is not a poll of a registered unit that comes too late. */
  lemma StepIsPromptIff(s: State, g: Truth, c: Config, t: Timed)
    requires Sound(s, g, c) && Prompt(s, g, c) && g.clock <= t.at
    ensures Sound(Step(s, c, t), Observe(g, t), c)
    ensures Prompt(Step(s, c, t), Observe(g, t), c) <==> (s.registered ==> Timely(g, t, c))
  {
    StepIsSound(s, g, c, t);
    if t.op == Look {
      if s.registered {
        LookIsPromptIff(s, g, c, t);
      }
    } else {
      hide Sound;
    }
  }

  lemma LookIsPromptIff(s: State, g: Truth, c: Config, t: Timed)
    requires Sound(s, g, c) && Prompt(s, g, c) && g.clock <= t.at && t.op == Look && s.registered
    ensures Prompt(Poll(s, c, t.at % MASK32), Observe(g, t), c) <==> Timely(g, t, c)
  {
    WrappedDifference(g.service, t.at);
    WrappedDifference(g.confirm, t.at);
    assert s.serviceTick == g.service % MASK32 && s.confirmTick == g.confirm % MASK32;
    assert s.stale <==> g.silenceSeen >= c.silence;
    assert s.settled <==> g.ageSeen >= c.settle;
    hide Sound;
  }

  /** Polls come at most `gap` ticks apart, and no threshold plus a gap exceeds the tick range. */
  predicate Frequent(g: Truth, t: Timed, c: Config, gap: nat) {
    && gap + c.silence <= MASK32 && gap + c.settle <= MASK32 && gap < MASK32
    && (t.op == Look ==> t.at <= g.looked + gap)
  }

  /** Frequent polls are timely. */
  lemma FrequentIsTimely(s: State, g: Truth, c: Config, t: Timed, gap: nat)
    requires Sound(s, g, c) && s.registered && g.clock <= t.at && Frequent(g, t, c, gap)
    ensures Timely(g, t, c)
  {
  }

  predicate Ordered(run: seq<Timed>, from: nat) {
    run != [] ==> from <= run[0].at && Ordered(run[1..], run[0].at)
  }

  function Run(s: State, c: Config, run: seq<Timed>): State
    decreases run
  {
    if run == [] then s else Run(Step(s, c, run[0]), c, run[1..])
  }

  function Watch(g: Truth, run: seq<Timed>): Truth
    requires Ordered(run, g.clock) && g.service <= g.clock && g.confirm <= g.clock
    decreases run
  {
    if run == [] then g else Watch(Observe(g, run[0]), run[1..])
  }

  /** Every poll of the run that finds the unit registered comes in time. */
  predicate AllTimely(s: State, g: Truth, c: Config, run: seq<Timed>)
    requires Ordered(run, g.clock) && g.service <= g.clock && g.confirm <= g.clock
    decreases run
  {
    run == [] || ((s.registered ==> Timely(g, run[0], c)) && AllTimely(Step(s, c, run[0]), Observe(g, run[0]), c, run[1..]))
  }

  /** No flag is behind the truth at any point of the run. */
  predicate AlwaysPrompt(s: State, g: Truth, c: Config, run: seq<Timed>)
    requires Ordered(run, g.clock) && g.service <= g.clock && g.confirm <= g.clock
    decreases run
  {
    Prompt(s, g, c) && (run == [] || AlwaysPrompt(Step(s, c, run[0]), Observe(g, run[0]), c, run[1..]))
  }

  predicate AllFrequent(g: Truth, run: seq<Timed>, c: Config, gap: nat)
    requires Ordered(run, g.clock) && g.service <= g.clock && g.confirm <= g.clock
    decreases run
  {
    run == [] || (Frequent(g, run[0], c, gap) && AllFrequent(Observe(g, run[0]), run[1..], c, gap))
  }

  lemma {:induction false} RunIsSound(s: State, g: Truth, c: Config, run: seq<Timed>)
    requires Sound(s, g, c) && Ordered(run, g.clock)
    ensures Sound(Run(s, c, run), Watch(g, run), c)
    decreases run
  {
    if run != [] {
      StepIsSound(s, g, c, run[0]);
      RunIsSound(Step(s, c, run[0]), Observe(g, run[0]), c, run[1..]);
    }
  }

  /** The flags follow the truth throughout a run if and only if its polls come in time. */
  lemma {:induction false} RunIsPromptIff(s: State, g: Truth, c: Config, run: seq<Timed>)
    requires Sound(s, g, c) && Prompt(s, g, c) && Ordered(run, g.clock)
    ensures AlwaysPrompt(s, g, c, run) <==> AllTimely(s, g, c, run)
    decreases run
  {
    if run != [] {
      StepIsPromptIff(s, g, c, run[0]);
      if Prompt(Step(s, c, run[0]), Observe(g, run[0]), c) {
        RunIsPromptIff(Step(s, c, run[0]), Observe(g, run[0]), c, run[1..]);
      }
    }
  }

  lemma {:induction false} PromptAtTheEnd(s: State, g: Truth, c: Config, run: seq<Timed>)
    requires Ordered(run, g.clock) && g.service <= g.clock && g.confirm <= g.clock
    requires AlwaysPrompt(s, g, c, run)
    ensures Prompt(Run(s, c, run), Watch(g, run), c)
    decreases run
  {
    if run != [] {
      PromptAtTheEnd(Step(s, c, run[0]), Observe(g, run[0]), c, run[1..]);
    }
  }

  /** A polling rate is enough: thresholds and gaps within the tick range. */
  lemma {:induction false} FrequentRunIsTimely(s: State, g: Truth, c: Config, run: seq<Timed>, gap: nat)
    requires Sound(s, g, c) && Ordered(run, g.clock) && AllFrequent(g, run, c, gap)
    ensures AllTimely(s, g, c, run)
    decreases run
  {
    if run != [] {
      StepIsSound(s, g, c, run[0]);
      if s.registered {
        FrequentIsTimely(s, g, c, run[0], gap);
      }
      FrequentRunIsTimely(Step(s, c, run[0]), Observe(g, run[0]), c, run[1..], gap);
    }
  }

  function Start(at: nat): Truth { Truth(at, at, at, -1, -1, at) }

  /**
   After any run, through any tick wraps: a registered unit offers only if its latest poll saw
   true silence and true age past the thresholds, with no service frame or confirm since.
   */
  lemma OfferOnlyAfterTrueSilence(c: Config, run: seq<Timed>, at: nat)
    requires Ordered(run, at)
    ensures var s, g := Run(FRESH, c, run), Watch(Start(at), run);
            s.registered && OnQuery(s).1 != StaySilent ==>
              && g.silenceSeen >= c.silence && g.silenceSeen == g.looked - g.service
              && g.ageSeen >= c.settle && g.ageSeen == g.looked - g.confirm
  {
    RunIsSound(FRESH, Start(at), c, run);
  }

  /** With polls that come in time that is exactly when it offers. */
  lemma OfferExactlyAfterTrueSilence(c: Config, run: seq<Timed>, at: nat)
    requires Ordered(run, at) && AllTimely(FRESH, Start(at), c, run)
    ensures var s, g := Run(FRESH, c, run), Watch(Start(at), run);
            s.registered ==>
              (OnQuery(s).1 == OfferFirst <==> g.silenceSeen >= c.silence && g.ageSeen >= c.settle)
  {
    RunIsSound(FRESH, Start(at), c, run);
    RunIsPromptIff(FRESH, Start(at), c, run);
    PromptAtTheEnd(FRESH, Start(at), c, run);
  }

  /** In particular with polls at most `gap` ticks apart. */
  lemma FrequentPollsOfferExactly(c: Config, run: seq<Timed>, at: nat, gap: nat)
    requires Ordered(run, at) && AllFrequent(Start(at), run, c, gap)
    ensures var s, g := Run(FRESH, c, run), Watch(Start(at), run);
            s.registered ==>
              (OnQuery(s).1 == OfferFirst <==> g.silenceSeen >= c.silence && g.ageSeen >= c.settle)
  {
    FrequentRunIsTimely(FRESH, Start(at), c, run, gap);
    OfferExactlyAfterTrueSilence(c, run, at);
  }

  // ----- The answers of a unit that is not registered -----

  /** Whether a query came since the latest reset. */
  function Asked(run: seq<Timed>, before: bool): bool
    decreases run
  {
    if run == [] then before
    else Asked(run[1..], match run[0].op case Forget => false case Query => true case _ => before)
  }

  predicate Phased(s: State, asked: bool) {
    && (s.registered ==> s.phase == 3)
    && (!s.registered ==> s.phase <= 2 && (s.phase == 0 <==> !asked))
  }

  lemma {:induction false} RunIsPhased(s: State, c: Config, run: seq<Timed>, asked: bool)
    requires Phased(s, asked)
    ensures Phased(Run(s, c, run), Asked(run, asked))
    decreases run
  {
    if run != [] {
      var t := run[0];
      RunIsPhased(Step(s, c, t), c, run[1..], match t.op case Forget => false case Query => true case _ => asked);
    }
  }

  /**
   After any run an unregistered unit answers every query: the first since a reset with a first
   offer, each later one with a repeated offer; and any offer leaves it unregistered.
   */
  lemma UnregisteredAlwaysOffers(c: Config, run: seq<Timed>)
    ensures var s := Run(FRESH, c, run);
            && (!s.registered ==> OnQuery(s).1 == if Asked(run, false) then OfferRepeat else OfferFirst)
            && (OnQuery(s).1 != StaySilent ==> !OnQuery(s).0.registered && OnQuery(OnQuery(s).0).1 == OfferRepeat)
            && (OnQuery(s).1 == StaySilent ==> OnQuery(s).0 == s && s.registered)
  {
    RunIsPhased(FRESH, c, run, false);
  }

  /** Only a confirm registers, and it silences the unit until both thresholds are seen again. */
  lemma ConfirmRegisters(s: State, c: Config, t: Timed)
    ensures Step(s, c, t).registered <==>
              t.op == Confirm || (s.registered && t.op != Forget && !(t.op == Query && s.settled && s.stale))
    ensures t.op == Confirm ==> OnQuery(Step(s, c, t)) == (Step(s, c, t), StaySilent)
  {
  }

  /**
   A poll that comes too late leaves a flag behind the truth; if the other age is past its
   threshold too, a query that the truth would answer with an offer gets none.
   */
  lemma LatePollHidesSilence(s: State, g: Truth, c: Config, t: Timed)
    requires Sound(s, g, c) && Prompt(s, g, c) && g.clock <= t.at && s.registered && !Timely(g, t, c)
    ensures var r, h := Step(s, c, t), Observe(g, t);
            (h.silenceSeen >= c.silence && !r.stale) || (h.ageSeen >= c.settle && !r.settled)
    ensures var r, h := Step(s, c, t), Observe(g, t);
            h.silenceSeen >= c.silence && h.ageSeen >= c.settle ==> OnQuery(r).1 == StaySilent
  {
    StepIsPromptIff(s, g, c, t);
  }

  /**
   The polling rate matters: a unit first polled one full tick wrap after its confirm has
   missed any silence, so it stays silent although the thresholds are long past.
   */
  lemma SlowPollMissesSilence(c: Config)
    requires 0 < c.settle && 0 < c.silence
    ensures var run := [Timed(Confirm, 0), Timed(Look, MASK32)];
            && Ordered(run, 0)
            && Watch(Start(0), run).silenceSeen == Watch(Start(0), run).ageSeen == MASK32
            && OnQuery(Run(FRESH, c, run)).1 == StaySilent
  {
    var run := [Timed(Confirm, 0), Timed(Look, MASK32)];
    assert run[1..] == [Timed(Look, MASK32)] && run[1..][1..] == [];
    assert Ordered(run[1..], 0);
    assert Run(FRESH, c, run) == Run(Step(FRESH, c, run[0]), c, run[1..]);
    assert Run(Step(FRESH, c, run[0]), c, run[1..]) == Step(Step(FRESH, c, run[0]), c, run[1]);
    assert Watch(Start(0), run) == Watch(Observe(Start(0), run[0]), run[1..]);
    assert Watch(Observe(Start(0), run[0]), run[1..]) == Observe(Observe(Start(0), run[0]), run[1]);
  }

  // ----- The firmware's own form -----

  class Detector {
    var phase: nat
    var registered: bool
    var confirmSettled: bool
    var serviceStale: bool
    var lastConfirmTick: u32
    var lastServiceTick: u32

    ghost function View(): State
      reads this
    {
      State(phase, registered, confirmSettled, serviceStale, lastConfirmTick, lastServiceTick)
    }

    constructor ()
      ensures View() == FRESH
    {
      phase, registered, confirmSettled, serviceStale, lastConfirmTick, lastServiceTick := 0, false, false, false, 0, 0;
    }

    method Reset()
      modifies this
      ensures View() == FRESH
    {
      phase, registered, confirmSettled, serviceStale, lastConfirmTick, lastServiceTick := 0, false, false, false, 0, 0;
    }

    method NoteServiceTraffic(now: u32)
      modifies this
      ensures View() == NoteService(old(View()), now)
    {
      lastServiceTick := now;
      serviceStale := false;
    }

    method PollFlags(c: Config, now: u32)
      modifies this
      ensures View() == Poll(old(View()), c, now)
    {
      if !registered {
        return;
      }
      if !confirmSettled && (now - lastConfirmTick) % MASK32 >= c.settle {
        confirmSettled := true;
      }
      if !serviceStale && (now - lastServiceTick) % MASK32 >= c.silence {
        serviceStale := true;
      }
    }

    method Answer() returns (action: Action)
      modifies this
      ensures (View(), action) == OnQuery(old(View()))
    {
      if registered {
        if !(confirmSettled && serviceStale) {
          return StaySilent;
        }
        registered, confirmSettled, serviceStale := false, false, false;
        phase := 1;
        return OfferFirst;
      }
      if phase == 0 {
        phase := 1;
        return OfferFirst;
      }
      phase := 2;
      return OfferRepeat;
    }

    method Latch(now: u32)
      modifies this
      ensures View() == LatchConfirm(old(View()), now)
    {
      registered := true;
      phase := 3;
      confirmSettled, serviceStale := false, false;
      lastConfirmTick, lastServiceTick := now, now;
    }
  }
}
