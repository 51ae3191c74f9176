/**
 Supervision of a filament pull-back on one channel (`src/Motion_control.cpp`): progress
 accounting, the watchdog, the fault latch and the command switch.
 */
module PullBack {
  import opened Bytes
  import opened Arithmetic

  /** Encoder counts of 0.5 mm, 50 mm and 100 mm at 4096 counts per 7.5 mm wheel turn. */
  const QUANTUM: nat := 87
  const BUDGET_FLOOR: nat := 8692
  const JAM_TARGET: nat := 17384
  const NO_PROGRESS_MS: nat := 3000
  const MAX_STEP: int := 2048

  datatype Position = AtIdle | SendingOut | Using | BeforePull | Pulling | Redetect

  datatype Mode = Send | Redetecting | Pull | Stop | BeforeOnUse | StopOnUse | PressureOnUse | PressureIdle | BeforePullBack

  datatype Fault = NoFault | NoProgress | TravelBudget

  datatype Motor = Motor(
    position: Position, mode: Mode, target: int, fault: Fault,
    progress: int, travel: nat, negate: bool, checkpoint: int, checkpointMs: u32)

  /** The printer's wish for the active channel. */
  datatype Wish = Idle | SendOut | OnUse | BeforePullWish | PullBackWish | BeforeUse | StopUse

  /** One turn of the main loop, at true time `at` in milliseconds. */
  datatype Input = Input(
    at: nat, delta: int, key: bool, error: bool, healthy: bool, otherWaits: bool,
    active: bool, wish: Wish, jam: bool, jamHolds: bool, retracted: nat, idlePressure: bool)

  predicate Possible(i: Input) { -MAX_STEP <= i.delta <= MAX_STEP }

  // ----- Encoder steps -----

  /** The encoder step between two 12-bit readings. */
  function Unwrap(last: int, now: int): int {
    var diff := now - last;
    var down := if diff > 2048 then diff - 4096 else diff;
    if down < -2048 then down + 4096 else down
  }

  /** It is the shorter way round, and it agrees with the readings modulo a turn. */
  lemma UnwrapIsShortest(last: int, now: int)
    requires 0 <= last < 4096 && 0 <= now < 4096
    ensures -MAX_STEP <= Unwrap(last, now) <= MAX_STEP
    ensures (last + Unwrap(last, now)) % 4096 == now
    ensures now - last == 2048 || now - last == -2048 ==> Unwrap(last, now) == now - last
  {
  }

  function Magnitude(delta: int): nat { if delta < 0 then -delta else delta }

  // ----- The steps of one loop turn -----

  function SetMotion(m: Motor, mode: Mode, now: u32): Motor {
    if m.mode == mode then m
    else if mode == Send then m.(mode := Send, progress := 0, travel := 0, negate := true)
    else if mode == Pull then
      m.(mode := Pull, progress := 0, travel := 0, negate := false, checkpoint := 0, checkpointMs := now, fault := NoFault)
    else m.(mode := mode)
  }

  function Account(m: Motor, delta: int): Motor {
    m.(progress := m.progress + (if m.negate then -delta else delta), travel := m.travel + Magnitude(delta))
  }

  function Budget(target: nat): nat { target + if target > BUDGET_FLOOR then target else BUDGET_FLOOR }

  function LatchFault(m: Motor, fault: Fault, now: u32): Motor {
    SetMotion(m.(fault := fault), Stop, now).(position := AtIdle)
  }

  function FinishPull(m: Motor, normal: nat, now: u32): Motor {
    SetMotion(m, Stop, now).(target := normal, position := Redetect)
  }

  /** The `filament_pulling_back` case of the supervisor. */
  function SupervisePull(m: Motor, key: bool, normal: nat, now: u32): Motor {
    if m.target <= 0 || m.progress >= m.target then FinishPull(m, normal, now)
    else if !key then FinishPull(m, normal, now)
    else
      var c := if m.progress - m.checkpoint >= QUANTUM then m.(checkpoint := m.progress, checkpointMs := now) else m;
      if c.travel >= Budget(m.target) then LatchFault(c, TravelBudget, now)
      else if (now - c.checkpointMs) % MASK32 >= NO_PROGRESS_MS then LatchFault(c, NoProgress, now)
      else SetMotion(c, Pull, now)
  }

  function SuperviseRedetect(m: Motor, key: bool, now: u32): Motor {
    if !key then SetMotion(m, Redetecting, now) else SetMotion(m, Stop, now).(position := AtIdle)
  }

  function PullTarget(i: Input, normal: nat): nat {
    if i.jam then JAM_TARGET else if normal < i.retracted then 0 else normal - i.retracted
  }

  /** `motor_motion_switch` for this channel. */
  function Switch(m: Motor, i: Input, normal: nat, now: u32): Motor {
    if m.fault != NoFault && !(i.active && i.wish == PullBackWish) then SetMotion(m.(position := AtIdle), Stop, now)
    else
      var m := m.(fault := NoFault);
      if !i.active then SetMotion(m.(position := AtIdle), if i.idlePressure then PressureIdle else Stop, now)
      else if !i.key then SetMotion(m.(position := AtIdle), PressureIdle, now)
      else
        match i.wish
        case BeforeUse => SetMotion(m.(position := Using), BeforeOnUse, now)
        case StopUse => SetMotion(m.(position := Using), StopOnUse, now)
        case SendOut => if i.jam && i.jamHolds then SetMotion(m, Stop, now) else SetMotion(m.(position := SendingOut), Send, now)
        case PullBackWish => SetMotion(m.(position := Pulling, target := PullTarget(i, normal)), Pull, now)
        case BeforePullWish => SetMotion(m.(position := BeforePull), BeforePullBack, now)
        case OnUse => SetMotion(m.(position := Using), PressureOnUse, now)
        case Idle => SetMotion(m.(position := AtIdle), if i.jam then Stop else PressureIdle, now)
  }

  /** A feed whose filament has left the key is stopped first. */
  predicate FeedsNothing(i: Input) { !i.key && !i.error && i.active && i.wish == SendOut }

  function Entered(m: Motor, i: Input): Motor { if FeedsNothing(i) then SetMotion(m, Stop, i.at % MASK32) else m }

  /** Account, then stop on a bus error, supervise or follow the printer. */
  function Commanded(m: Motor, i: Input, normal: nat): Motor {
    var now := i.at % MASK32;
    var entered := Entered(m, i);
    var counted := if i.healthy then Account(entered, i.delta) else entered;
    if i.error then SetMotion(counted, Stop, now)
    else if counted.position == Pulling then SupervisePull(counted, i.key, normal, now)
    else if counted.position == Redetect then SuperviseRedetect(counted, i.key, now)
    else if i.otherWaits then counted
    else Switch(counted, i, normal, now)
  }

  /** One turn: the command, then stop a channel whose sensor failed. */
  function Step(m: Motor, i: Input, normal: nat): Motor {
    if i.healthy then Commanded(m, i, normal) else SetMotion(Commanded(m, i, normal), Stop, i.at % MASK32)
  }

  // ----- What every run keeps -----

  /** The motion is a pull only under supervision, and under a fault it is a stop. */
  predicate Inv(m: Motor) {
    && (m.mode == Pull ==> m.position == Pulling && !m.negate)
    && (m.fault != NoFault ==> m.position == AtIdle && m.mode == Stop)
  }

  const PowerUp: Motor := Motor(AtIdle, Stop, 0, NoFault, 0, 0, false, 0, 0)

  function Run(m: Motor, run: seq<Input>, normal: nat): Motor
    decreases run
  {
    if run == [] then m else Run(Step(m, run[0], normal), run[1..], normal)
  }

  lemma SwitchKeeps(m: Motor, i: Input, normal: nat, now: u32)
    requires Inv(m) && m.position != Pulling
    ensures Inv(Switch(m, i, normal, now))
  {
    match i.wish
    case PullBackWish =>
    case SendOut =>
    case _ =>
  }

  lemma SuperviseKeeps(m: Motor, key: bool, normal: nat, now: u32)
    requires Inv(m) && m.position == Pulling
    ensures Inv(SupervisePull(m, key, normal, now))
  {
  }

  lemma StepKeeps(m: Motor, i: Input, normal: nat)
    requires Inv(m)
    ensures Inv(Step(m, i, normal))
  {
    hide Switch, SupervisePull;
    var counted := if i.healthy then Account(Entered(m, i), i.delta) else Entered(m, i);
    if counted.position == Pulling {
      SuperviseKeeps(counted, i.key, normal, i.at % MASK32);
    } else {
      SwitchKeeps(counted, i, normal, i.at % MASK32);
    }
  }

  lemma {:induction false} RunKeeps(m: Motor, run: seq<Input>, normal: nat)
    requires Inv(m)
    ensures Inv(Run(m, run, normal))
    decreases run
  {
    if run != [] {
      hide Step, Inv;
      StepKeeps(m, run[0], normal);
      RunKeeps(Step(m, run[0], normal), run[1..], normal);
    }
  }

  /** A latched fault ends only by an explicit pull-back wish for this channel while it is active. */
  lemma FaultStaysLatched(m: Motor, i: Input, normal: nat)
    requires Inv(m) && m.fault != NoFault
    ensures var r := Step(m, i, normal);
            r.fault != m.fault ==> i.active && i.wish == PullBackWish && !i.error && !i.otherWaits
    ensures !(i.active && i.wish == PullBackWish) ==> Step(m, i, normal).mode == Stop
  {
  }

  /** Only a supervised pull-back faults, and the fault stops it. */
  lemma OnlyPullsFault(m: Motor, i: Input, normal: nat)
    requires Inv(m) && m.fault == NoFault && Step(m, i, normal).fault != NoFault
    ensures m.position == Pulling && !i.error
    ensures var r := Step(m, i, normal); r.position == AtIdle && r.mode == Stop
  {
    SwitchNeverFaults(if i.healthy then Account(Entered(m, i), i.delta) else Entered(m, i), i, normal, i.at % MASK32);
    hide Switch;
  }

  lemma SwitchNeverFaults(m: Motor, i: Input, normal: nat, now: u32)
    requires m.fault == NoFault
    ensures Switch(m, i, normal, now).fault == NoFault
  {
  }

  predicate NoRetry(run: seq<Input>) { forall i :: i in run ==> !(i.active && i.wish == PullBackWish) }

  /** Until then the motion stays a stop, over any run; module MotorDrive says what the motor does meanwhile. */
  lemma {:induction false} FaultHoldsTheMotion(m: Motor, run: seq<Input>, normal: nat)
    requires Inv(m) && m.fault != NoFault && NoRetry(run)
    ensures var r := Run(m, run, normal); r.fault == m.fault && r.mode == Stop && r.position == AtIdle
    decreases run
  {
    if run != [] {
      FaultStaysLatched(m, run[0], normal);
      StepKeeps(m, run[0], normal);
      hide Step;
      FaultHoldsTheMotion(Step(m, run[0], normal), run[1..], normal);
    }
  }

  // ----- The motion follows the wish -----

  /**
   On an undisturbed turn of the active channel, with its key pressed and nothing supervised, the
   motion at the end of the turn tells the wish: each motion comes from its own wish and no other.
   */
  lemma MotionTellsWish(m: Motor, i: Input, normal: nat)
    requires Inv(m) && m.fault == NoFault && m.position != Pulling && m.position != Redetect
    requires i.active && i.key && i.healthy && !i.error && !i.otherWaits
    ensures var r := Step(m, i, normal);
            && (r.mode == PressureOnUse <==> i.wish == OnUse)
            && (r.mode == StopOnUse <==> i.wish == StopUse)
            && (r.mode == BeforeOnUse <==> i.wish == BeforeUse)
            && (r.mode == BeforePullBack <==> i.wish == BeforePullWish)
            && (r.mode == Pull <==> i.wish == PullBackWish)
            && (r.mode == Send <==> i.wish == SendOut && !(i.jam && i.jamHolds))
            && (r.mode == PressureIdle <==> i.wish == Idle && !i.jam)
            && (r.mode == Stop <==> i.jam && (i.wish == Idle || (i.wish == SendOut && i.jamHolds)))
            && r.fault == NoFault
    ensures var r := Step(m, i, normal);
            && (i.wish in {OnUse, StopUse, BeforeUse} ==> r.position == Using)
            && (i.wish == BeforePullWish ==> r.position == BeforePull) && (i.wish == Idle ==> r.position == AtIdle)
            && (i.wish == SendOut ==> r.position == if i.jam && i.jamHolds then m.position else SendingOut)
            && (i.wish == PullBackWish ==> r.position == Pulling && r.target == PullTarget(i, normal))
            && (i.wish != PullBackWish ==> r.target == m.target)
  {
  }

  /** The length to pull: 100 mm after a jam, else what the withdrawal has not yet taken back, never more than normal. */
  lemma PullTargetIsTheRest(i: Input, normal: nat)
    ensures i.jam ==> PullTarget(i, normal) == 17384
    ensures !i.jam ==> 0 <= PullTarget(i, normal) <= normal
    ensures !i.jam && i.retracted <= normal ==> PullTarget(i, normal) + i.retracted == normal
    ensures !i.jam && i.retracted > normal ==> PullTarget(i, normal) == 0
  {
  }

  /** A channel that is not active, or whose filament has left the key, rests whatever the wish. */
  lemma OthersRest(m: Motor, i: Input, normal: nat)
    requires Inv(m) && m.fault == NoFault && m.position != Pulling && m.position != Redetect
    requires i.healthy && !i.error && !i.otherWaits && !(i.active && i.key)
    ensures var r := Step(m, i, normal);
            && r.position == AtIdle
            && (r.mode == PressureIdle <==> i.active || i.idlePressure) && (r.mode == Stop <==> !i.active && !i.idlePressure)
            && (r.fault == NoFault)
  {
  }

  /** A pull-back wish for the active channel clears the fault and pulls again, if the key is pressed. */
  lemma RetryPulls(m: Motor, i: Input, normal: nat)
    requires Inv(m) && m.fault != NoFault && i.active && i.wish == PullBackWish
    requires i.healthy && !i.error && !i.otherWaits
    ensures var r := Step(m, i, normal);
            && r.fault == NoFault
            && (if i.key then r.mode == Pull && r.position == Pulling && r.target == PullTarget(i, normal)
                else r.mode == PressureIdle && r.position == AtIdle)
  {
  }

  /** While another channel is waited for, an unsupervised one goes on as it was, but a feed without filament at the key stops. */
  lemma WaitingKeepsTheMotion(m: Motor, i: Input, normal: nat)
    requires m.position != Pulling && m.position != Redetect && i.otherWaits && i.healthy && !i.error
    ensures var r := Step(m, i, normal);
            && r.position == m.position && r.fault == m.fault && r.target == m.target
            && r.mode == if i.active && i.wish == SendOut && !i.key then Stop else m.mode
  {
  }

  /** After a pull-back the channel feels its way to the key: it moves exactly while the key is off, and is idle once it is pressed. */
  lemma RedetectsUntilKey(m: Motor, i: Input, normal: nat)
    requires Inv(m) && m.position == Redetect && !i.error
    ensures var r := Step(m, i, normal);
            && (r.position == Redetect <==> !i.key) && (r.position == AtIdle <==> i.key)
            && (r.mode == Redetecting <==> !i.key && i.healthy) && (r.mode == Stop <==> i.key || !i.healthy)
  {
  }

  // ----- What is counted -----

  /** Only a new feed or pull starts the counts, and it sets their direction. */
  lemma CountsRestart(m: Motor, mode: Mode, now: u32)
    ensures var r := SetMotion(m, mode, now);
            && r.mode == mode
            && (if m.mode != mode && mode in {Send, Pull} then r.progress == 0 && r.travel == 0 && r.negate == (mode == Send)
                else r.progress == m.progress && r.travel == m.travel && r.negate == m.negate)
            && (m.mode != Pull && mode == Pull ==> r.checkpoint == 0 && r.checkpointMs == now && r.fault == NoFault)
  {
  }

  /** How far the filament moved, whichever way. */
  function Travelled(run: seq<Input>): nat {
    if run == [] then 0 else (if run[0].delta < 0 then -run[0].delta else run[0].delta) + Travelled(run[1..])
  }

  /** How far it came back. */
  function CameBack(run: seq<Input>): int { if run == [] then 0 else run[0].delta + CameBack(run[1..]) }

  lemma PullingTurn(m: Motor, i: Input, normal: nat)
    requires m.position == Pulling && m.mode == Pull && !m.negate && i.healthy && !i.error && Step(m, i, normal).position == Pulling
    ensures var r := Step(m, i, normal);
            && r.mode == Pull && !r.negate && r.target == m.target && r.progress == m.progress + i.delta
            && r.travel == m.travel + if i.delta < 0 then -i.delta else i.delta
  {
  }

  /** Over an undisturbed pull-back the two counts are the sums of the encoder steps. */
  lemma {:induction false} CountsAddUp(m: Motor, run: seq<Input>, normal: nat, clock: nat, gap: nat)
    requires m.position == Pulling && m.mode == Pull && !m.negate && Steady(run, clock, gap) && StaysPulling(m, run, normal)
    ensures var r := Run(m, run, normal);
            r.progress == m.progress + CameBack(run) && r.travel == m.travel + Travelled(run) && r.target == m.target
    decreases run
  {
    if run != [] {
      PullingTurn(m, run[0], normal);
      hide Step;
      CountsAddUp(Step(m, run[0], normal), run[1..], normal, run[0].at, gap);
    }
  }

  /** The travel a pull-back may use: its own length again, or 50 mm more if it is short. */
  lemma BudgetDoubles(target: nat)
    ensures Budget(target) == if target > 8692 then 2 * target else target + 8692
  {
  }

  // ----- A pull-back ends -----

  /** Sensor good and bus quiet on every turn, turns at most `gap` milliseconds apart. */
  predicate Steady(run: seq<Input>, clock: nat, gap: nat) {
    run != [] ==>
      && Possible(run[0]) && run[0].healthy && !run[0].error
      && clock <= run[0].at <= clock + gap
      && Steady(run[1..], run[0].at, gap)
  }

  function EndTime(run: seq<Input>, clock: nat): nat {
    if run == [] then clock else EndTime(run[1..], run[0].at)
  }

  predicate StaysPulling(m: Motor, run: seq<Input>, normal: nat)
    decreases run
  {
    run != [] ==>
      var r := Step(m, run[0], normal);
      r.position == Pulling && StaysPulling(r, run[1..], normal)
  }

  /** True time of the first turn that finds the channel no longer pulling. */
  function LeavesAt(m: Motor, run: seq<Input>, normal: nat): nat
    requires !StaysPulling(m, run, normal)
    decreases run
  {
    var r := Step(m, run[0], normal);
    if r.position != Pulling then run[0].at else LeavesAt(r, run[1..], normal)
  }

  /** The longest a pull-back of a positive length can take. */
  function Bound(target: int, gap: nat): int { ((target - 1) / QUANTUM + 1) * (NO_PROGRESS_MS + gap) }

  /** The watch at `clock`, last restarted at true time `seen`, on a pull that began at `start`. */
  predicate Watching(m: Motor, start: nat, seen: nat, clock: nat, gap: nat) {
    && m.position == Pulling && m.mode == Pull && !m.negate && m.fault == NoFault
    && m.target >= 0 && m.travel < Budget(m.target)
    && 0 <= m.checkpoint && (m.checkpoint == 0 || m.checkpoint < m.target)
    && start <= seen <= clock < seen + NO_PROGRESS_MS
    && m.checkpointMs == seen % MASK32
    && seen - start <= (m.checkpoint / QUANTUM) * (NO_PROGRESS_MS + gap)
  }

  /** The turn that starts a pull-back starts the watch. */
  lemma PullBegins(m: Motor, i: Input, normal: nat, gap: nat)
    requires Inv(m) && m.position != Pulling && i.healthy && Step(m, i, normal).position == Pulling
    ensures Watching(Step(m, i, normal), i.at, i.at, i.at, gap) && Step(m, i, normal).target == PullTarget(i, normal)
  {
  }

  lemma Restarts(checkpoint: nat, progress: nat, spent: nat, cost: nat, more: nat)
    requires progress - checkpoint >= QUANTUM && spent <= (checkpoint / QUANTUM) * cost && more <= cost
    ensures spent + more <= (progress / QUANTUM) * cost
  {
    var a, b := checkpoint / QUANTUM, progress / QUANTUM;
    assert a + 1 <= b;
    Grows(cost, a, b);
    assert a * cost == cost * a && b * cost == cost * b;
  }

  /** One more turn of an unfinished pull-back keeps the watch. */
  lemma WatchContinues(m: Motor, i: Input, normal: nat, start: nat, seen: nat, clock: nat, gap: nat) returns (seen': nat)
    requires Watching(m, start, seen, clock, gap) && Steady([i], clock, gap) && gap + NO_PROGRESS_MS < MASK32
    requires Step(m, i, normal).position == Pulling
    ensures Watching(Step(m, i, normal), start, seen', i.at, gap) && Step(m, i, normal).target == m.target
    ensures m.target > 0
  {
    var a := Account(m, i.delta);
    WrappedDifference(seen, i.at);
    if a.progress - m.checkpoint >= QUANTUM {
      seen' := i.at;
      Restarts(m.checkpoint, a.progress, seen - start, NO_PROGRESS_MS + gap, i.at - seen);
    } else {
      seen' := seen;
    }
  }

  lemma WithinBound(m: Motor, start: nat, seen: nat, clock: nat, gap: nat)
    requires Watching(m, start, seen, clock, gap) && m.target > 0
    ensures clock + gap < start + Bound(m.target, gap)
  {
    var cost, k, n := NO_PROGRESS_MS + gap, m.checkpoint / QUANTUM, (m.target - 1) / QUANTUM;
    assert k <= n;
    if k < n {
      Grows(cost, k, n);
    }
    assert k * cost == cost * k && n * cost == cost * n;
    assert (n + 1) * cost == n * cost + cost;
  }

  lemma ZeroTargetLeaves(m: Motor, i: Input, normal: nat)
    requires m.position == Pulling && m.target <= 0 && i.healthy && !i.error
    ensures Step(m, i, normal).position != Pulling
  {
  }

  /** Under the watch, a run that lasts past the bound leaves before it. */
  lemma {:induction false} PullIsShort(m: Motor, run: seq<Input>, normal: nat, start: nat, seen: nat, clock: nat, gap: nat)
    requires Watching(m, start, seen, clock, gap) && Steady(run, clock, gap) && gap + NO_PROGRESS_MS < MASK32
    requires run != [] && EndTime(run, clock) + gap >= start + Bound(m.target, gap)
    ensures !StaysPulling(m, run, normal)
    ensures m.target > 0 ==> LeavesAt(m, run, normal) < start + Bound(m.target, gap)
    ensures m.target <= 0 ==> LeavesAt(m, run, normal) == run[0].at
    decreases run
  {
    assert m.position == Pulling;
    if m.target <= 0 {
      ZeroTargetLeaves(m, run[0], normal);
    } else {
      WithinBound(m, start, seen, clock, gap);
    }
    hide Watching, Step, Bound;
    var r := Step(m, run[0], normal);
    assert [run[0]][1..] == [];
    if r.position == Pulling {
      var seen' := WatchContinues(m, run[0], normal, start, seen, clock, gap);
      WithinBound(r, start, seen', run[0].at, gap);
      assert run[1..] != [];
      PullIsShort(r, run[1..], normal, start, seen', run[0].at, gap);
    }
  }

  /**
   Whatever the encoder reports, a pull-back with a good sensor and a quiet bus is over
   within its bound, the leaving turn included; one of length zero is over at the next turn.
   */
  lemma PullAlwaysEnds(m: Motor, first: Input, run: seq<Input>, normal: nat, gap: nat)
    requires Inv(m) && m.position != Pulling && first.healthy && Step(m, first, normal).position == Pulling
    requires Steady(run, first.at, gap) && gap + NO_PROGRESS_MS < MASK32 && run != []
    requires EndTime(run, first.at) + gap >= first.at + Bound(PullTarget(first, normal), gap)
    ensures var p, target := Step(m, first, normal), PullTarget(first, normal);
            && !StaysPulling(p, run, normal)
            && LeavesAt(p, run, normal) < if target > 0 then first.at + Bound(target, gap) else run[0].at + 1
  {
    PullBegins(m, first, normal, gap);
    hide Step, StaysPulling, Bound, LeavesAt;
    PullIsShort(Step(m, first, normal), run, normal, first.at, first.at, first.at, gap);
  }

  // ----- Disturbances: what a bus error or a bad reading does to it -----

  /** A disturbed turn leaves the motion at a stop; a pull-back survives it with its length. */
  lemma DisturbanceStops(m: Motor, i: Input, normal: nat)
    requires (i.error || !i.healthy) && Step(m, i, normal).position == Pulling && m.position == Pulling
    ensures Step(m, i, normal).mode == Stop && Step(m, i, normal).target == m.target
  {
  }

  /** The first undisturbed turn that goes on pulling starts the watch afresh. */
  lemma PullResumes(m: Motor, i: Input, normal: nat, gap: nat)
    requires m.position == Pulling && m.mode != Pull && i.healthy && !i.error && Step(m, i, normal).position == Pulling
    ensures Watching(Step(m, i, normal), i.at, i.at, i.at, gap) && Step(m, i, normal).target == m.target
  {
  }

  /**
   So the same bound holds from the last disturbance: however the pull-back got there, once
   sensor and bus stay good it is over at the first good turn, or within the bound from it.
   */
  lemma PullEndsOnceQuiet(m: Motor, first: Input, run: seq<Input>, normal: nat, gap: nat)
    requires m.position == Pulling && m.mode != Pull && first.healthy && !first.error
    requires Steady(run, first.at, gap) && gap + NO_PROGRESS_MS < MASK32 && run != []
    requires EndTime(run, first.at) + gap >= first.at + Bound(m.target, gap)
    ensures var p := Step(m, first, normal);
            p.position == Pulling ==>
              !StaysPulling(p, run, normal) && LeavesAt(p, run, normal) < first.at + Bound(m.target, gap)
  {
    if Step(m, first, normal).position == Pulling {
      PullResumes(m, first, normal, gap);
      assert m.target > 0;
      hide Step, StaysPulling, Bound, LeavesAt;
      PullIsShort(Step(m, first, normal), run, normal, first.at, first.at, first.at, gap);
    }
  }

  /** How it ends: target or key without a fault, else the fault that names the cause. */
  lemma PullEndings(m: Motor, i: Input, normal: nat, start: nat, seen: nat, clock: nat, gap: nat)
    requires Watching(m, start, seen, clock, gap) && Steady([i], clock, gap) && gap + NO_PROGRESS_MS < MASK32
    requires Step(m, i, normal).position != Pulling
    ensures var r, progress := Step(m, i, normal), m.progress + i.delta;
            && r.mode == Stop && r.travel < Budget(m.target) + MAX_STEP
            && (r.position == Redetect || r.position == AtIdle)
            && (r.position == Redetect <==> r.fault == NoFault)
            && (r.position == Redetect <==> m.target == 0 || progress >= m.target || !i.key)
            && (r.fault == TravelBudget <==> r.position == AtIdle && r.travel >= Budget(m.target))
            && (r.fault == NoProgress <==> r.position == AtIdle && r.travel < Budget(m.target))
            && (r.fault == NoProgress ==> i.at - seen >= NO_PROGRESS_MS && progress < m.checkpoint + QUANTUM)
  {
    WrappedDifference(seen, i.at);
  }

  // ----- Without a quiet bus there is no bound: exactly when a stalled channel keeps pulling -----

  /** A channel that does not move and whose key stays pressed; errors and bad readings may come. */
  predicate StandsStill(run: seq<Input>, clock: nat) {
    run != [] ==> run[0].delta == 0 && run[0].key && clock <= run[0].at && StandsStill(run[1..], run[0].at)
  }

  /** Pulling with nothing counted since the watch was restarted at true time `restart`. */
  predicate Stalled(m: Motor, restart: nat, clock: nat) {
    && m.position == Pulling && (m.mode == Pull || m.mode == Stop) && m.fault == NoFault && m.target > 0
    && m.progress == 0 && m.travel == 0 && m.checkpoint == 0 && m.checkpointMs == restart % MASK32 && restart <= clock
  }

  /**
   Every turn without a bus error comes less than 3000 ms, on the 32-bit clock, after the last
   restart; the first such turn after a disturbance is itself a restart.
   */
  predicate KeepsRestarting(run: seq<Input>, restart: nat, stopped: bool) {
    run != [] ==>
      if run[0].error then KeepsRestarting(run[1..], restart, true)
      else
        && (run[0].at - restart) % MASK32 < NO_PROGRESS_MS
        && KeepsRestarting(run[1..], if stopped then run[0].at else restart, !run[0].healthy)
  }

  lemma StalledStep(m: Motor, i: Input, normal: nat, restart: nat, clock: nat)
    requires Stalled(m, restart, clock) && i.delta == 0 && i.key && clock <= i.at
    ensures var r, restart' := Step(m, i, normal), if !i.error && m.mode == Stop then i.at else restart;
            if i.error || (i.at - restart) % MASK32 < NO_PROGRESS_MS
            then Stalled(r, restart', i.at) && (r.mode == Stop <==> i.error || !i.healthy)
            else r.position != Pulling && r.fault == NoProgress
  {
    WrappedDifference(restart, i.at);
  }

  /** A pull-back that has just begun stands there. */
  lemma PullBeginsStalled(m: Motor, i: Input, normal: nat)
    requires Inv(m) && m.position != Pulling && i.healthy && Step(m, i, normal).position == Pulling && PullTarget(i, normal) > 0
    ensures Stalled(Step(m, i, normal), i.at, i.at)
  {
  }

  /** A stalled channel goes on pulling if and only if disturbances keep restarting its watch in time. */
  lemma {:induction false} StalledPullsIff(m: Motor, run: seq<Input>, normal: nat, restart: nat, clock: nat)
    requires Stalled(m, restart, clock) && StandsStill(run, clock)
    ensures StaysPulling(m, run, normal) <==> KeepsRestarting(run, restart, m.mode == Stop)
    decreases run
  {
    if run != [] {
      var i := run[0];
      StalledStep(m, i, normal, restart, clock);
      hide Step, Stalled;
      if i.error || (i.at - restart) % MASK32 < NO_PROGRESS_MS {
        StalledPullsIff(Step(m, i, normal), run[1..], normal, if !i.error && m.mode == Stop then i.at else restart, i.at);
      }
    }
  }

  const STALLED: Input := Input(0, 0, true, false, true, false, true, PullBackWish, false, false, 0, false)

  /** A turn with a bus error, then a turn without, `n` times: 3 s each time, and no motion at all. */
  function Flapping(n: nat, clock: nat): seq<Input> {
    if n == 0 then []
    else [STALLED.(at := clock + 2000, error := true), STALLED.(at := clock + 2999)] + Flapping(n - 1, clock + 2999)
  }

  lemma {:induction false} FlappingRestarts(n: nat, clock: nat, stopped: bool)
    ensures KeepsRestarting(Flapping(n, clock), clock, stopped) && StandsStill(Flapping(n, clock), clock)
    ensures EndTime(Flapping(n, clock), clock) == clock + 2999 * n
    decreases n
  {
    if n > 0 {
      var run, rest := Flapping(n, clock), Flapping(n - 1, clock + 2999);
      assert run[1..][1..] == rest && run[1..][0] == STALLED.(at := clock + 2999);
      FlappingRestarts(n - 1, clock + 2999, false);
    }
  }

  /** So errors 3 s apart keep a stalled pull-back going for any length of time. */
  lemma ErrorsRestartTheWatch(m: Motor, n: nat, clock: nat, normal: nat)
    requires Stalled(m, clock, clock)
    ensures StaysPulling(m, Flapping(n, clock), normal) && EndTime(Flapping(n, clock), clock) == clock + 2999 * n
  {
    FlappingRestarts(n, clock, m.mode == Stop);
    StalledPullsIff(m, Flapping(n, clock), normal, clock, clock);
  }

  // ----- The firmware's own form -----

  class Channel {
    var position: Position
    var mode: Mode
    var targetCounts: int
    var fault: Fault
    var directedProgress: int
    var travelBudget: nat
    var negate: bool
    var checkpoint: int
    var checkpointMs: u32

    ghost function View(): Motor
      reads this
    {
      Motor(position, mode, targetCounts, fault, directedProgress, travelBudget, negate, checkpoint, checkpointMs)
    }

    constructor ()
      ensures View() == PowerUp
    {
      position, mode, targetCounts, fault := AtIdle, Stop, 0, NoFault;
      directedProgress, travelBudget, negate, checkpoint, checkpointMs := 0, 0, false, 0, 0;
    }

    /** `_MOTOR_CONTROL::set_motion`, its safety bookkeeping. */
    method ChangeMotion(wanted: Mode, now: u32)
      modifies this
      ensures View() == SetMotion(old(View()), wanted, now)
    {
      if mode == wanted {
        return;
      }
      mode := wanted;
      if wanted == Send {
        directedProgress, travelBudget, negate := 0, 0, true;
      }
      if wanted == Pull {
        directedProgress, travelBudget, negate := 0, 0, false;
        checkpoint, checkpointMs, fault := 0, now, NoFault;
      }
    }

    /** The part of `AS5600_distance_updata` that feeds the watchdog. */
    method CountStep(last: int, reading: int)
      modifies this`directedProgress, this`travelBudget
      ensures View() == Account(old(View()), Unwrap(last, reading))
    {
      var diff := reading - last;
      if diff > 2048 {
        diff := diff - 4096;
      }
      if diff < -2048 {
        diff := diff + 4096;
      }
      directedProgress := directedProgress + if negate then -diff else diff;
      travelBudget := travelBudget + Magnitude(diff);
    }

    method Latch(cause: Fault, now: u32)
      modifies this
      ensures View() == LatchFault(old(View()), cause, now)
    {
      fault := cause;
      ChangeMotion(Stop, now);
      position := AtIdle;
    }

    /** One channel of `motor_motion_filamnet_pull_back_to_online_key`. */
    method Supervise(key: bool, normal: nat, now: u32) returns (wait: bool)
      modifies this
      ensures wait == (old(position) == Pulling || old(position) == Redetect)
      ensures View() == match old(position)
                        case Pulling => SupervisePull(old(View()), key, normal, now)
                        case Redetect => SuperviseRedetect(old(View()), key, now)
                        case _ => old(View())
    {
      if position == Pulling {
        if targetCounts <= 0 || directedProgress >= targetCounts || !key {
          ChangeMotion(Stop, now);
          targetCounts := normal;
          position := Redetect;
        } else {
          if directedProgress - checkpoint >= QUANTUM {
            checkpoint, checkpointMs := directedProgress, now;
          }
          var margin: int := if targetCounts > BUDGET_FLOOR then targetCounts else BUDGET_FLOOR;
          if travelBudget >= targetCounts + margin {
            Latch(TravelBudget, now);
          } else if (now - checkpointMs) % MASK32 >= NO_PROGRESS_MS {
            Latch(NoProgress, now);
          } else {
            ChangeMotion(Pull, now);
          }
        }
        return true;
      }
      if position == Redetect {
        if !key {
          ChangeMotion(Redetecting, now);
        } else {
          ChangeMotion(Stop, now);
          position := AtIdle;
        }
        return true;
      }
      return false;
    }

    /** One channel of `motor_motion_switch`. */
    method FollowPrinter(i: Input, normal: nat, now: u32)
      modifies this
      ensures View() == Switch(old(View()), i, normal, now)
    {
      if fault != NoFault {
        if i.active && i.wish == PullBackWish {
          fault := NoFault;
        } else {
          position := AtIdle;
          ChangeMotion(Stop, now);
          return;
        }
      }
      if !i.active {
        position := AtIdle;
        ChangeMotion(if i.idlePressure then PressureIdle else Stop, now);
      } else if !i.key {
        position := AtIdle;
        ChangeMotion(PressureIdle, now);
      } else {
        match i.wish {
          case BeforeUse =>
            position := Using;
            ChangeMotion(BeforeOnUse, now);
          case StopUse =>
            position := Using;
            ChangeMotion(StopOnUse, now);
          case SendOut =>
            if i.jam && i.jamHolds {
              ChangeMotion(Stop, now);
            } else {
              position := SendingOut;
              ChangeMotion(Send, now);
            }
          case PullBackWish =>
            position, targetCounts := Pulling, PullTarget(i, normal);
            ChangeMotion(Pull, now);
          case BeforePullWish =>
            position := BeforePull;
            ChangeMotion(BeforePullBack, now);
          case OnUse =>
            position := Using;
            ChangeMotion(PressureOnUse, now);
          case Idle =>
            position := AtIdle;
            ChangeMotion(if i.jam then Stop else PressureIdle, now);
        }
      }
    }

    /** The command of one loop turn; `last` and `reading` are the encoder's. */
    method Command(i: Input, last: int, reading: int, normal: nat)
      requires i.delta == Unwrap(last, reading)
      modifies this
      ensures View() == Commanded(old(View()), i, normal)
    {
      hide SupervisePull, SuperviseRedetect, Switch, Unwrap;
      var now := i.at % MASK32;
      if !i.key && !i.error && i.active && i.wish == SendOut {
        ChangeMotion(Stop, now);
      }
      if i.healthy {
        CountStep(last, reading);
      }
      if i.error {
        ChangeMotion(Stop, now);
      } else {
        var waits := Supervise(i.key, normal, now);
        if !waits && !i.otherWaits {
          FollowPrinter(i, normal, now);
        }
      }
    }

    /** One loop turn for this channel, up to its motion. */
    method Turn(i: Input, last: int, reading: int, normal: nat)
      requires i.delta == Unwrap(last, reading)
      modifies this
      ensures View() == Step(old(View()), i, normal)
    {
      hide Commanded, Unwrap;
      Command(i, last, reading, normal);
      if !i.healthy {
        ChangeMotion(Stop, i.at % MASK32);
      }
    }
  }
}
