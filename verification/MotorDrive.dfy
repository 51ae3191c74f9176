/**
 What reaches the motor of one channel (`src/Motion_control.cpp`): the last part of a loop turn,
 where an automatic unload and a manual pull drive the motor past the commanded motion.
 */
module MotorDrive {
  import opened Bytes
  import opened PullBack

  /** Buffer tension in hundredths of a percent, times in milliseconds, drive in PWM steps. */
  const UNLOAD_START: int := 8000
  const UNLOAD_NEUTRAL_LO: int := 4501
  const UNLOAD_NEUTRAL_HI: int := 5499
  const UNLOAD_ABORT: int := 3500
  const UNLOAD_ARM_MS: nat := 1000
  const UNLOAD_MAX_MS: nat := 15000
  const UNLOAD_EMPTY_MS: nat := 1500
  const UNLOAD_PWM: int := 850
  const MANUAL_PWM: int := 700
  const MANUAL_START: int := 8000

  datatype Polarity = Unknown | Forward | Reversed

  /**
   What a turn measures beside the motion input.  `timeStep` is false when no tick has passed
   since the last turn; `control` is what the motion controller computes for a moving mode.
   */
  datatype Sensors = Sensors(inserted: bool, keyState: nat, tension: int, polarity: Polarity, timeStep: bool, control: int)

  datatype LoopTurn = LoopTurn(motion: Input, wire: Sensors)

  /** The supervisor sees the key as pressed in any state but 0. */
  predicate Coherent(t: LoopTurn) { t.motion.key <==> t.wire.keyState != 0 }

  datatype Unload = Unload(arm: bool, active: bool, blocked: bool, armAt: u32, activeAt: u32, emptyAt: u32)

  /** `stopAt` is the deadline of the commanded motion, 0 for none. */
  datatype Rig = Rig(motor: Motor, stopAt: u32, zeroed: bool, pwm: int, unload: Unload)

  const NoUnload: Unload := Unload(false, false, false, 0, 0, 0)
  const PowerUpRig: Rig := Rig(PowerUp, 0, true, 0, NoUnload)

  // ----- The automatic unload -----

  function ArmUnload(u: Unload, s: Sensors, now: u32): Unload {
    if s.tension < UNLOAD_START then u
    else if u.arm || u.active then u.(blocked := false)
    else u.(blocked := false, arm := true, armAt := now)
  }

  function StartUnload(u: Unload, s: Sensors, now: u32): Unload {
    if !u.arm || u.active then u
    else
      var late := (now - u.armAt) % MASK32 > UNLOAD_ARM_MS;
      if UNLOAD_NEUTRAL_LO <= s.tension <= UNLOAD_NEUTRAL_HI then
        if u.blocked || late then u.(arm := false, armAt := 0)
        else Unload(false, true, true, 0, now, 0)
      else if late then u.(arm := false, armAt := 0)
      else u
  }

  function EndedUnload(u: Unload): Unload { u.(active := false, activeAt := 0, emptyAt := 0, blocked := true) }

  function EndUnload(u: Unload, s: Sensors, now: u32): Unload {
    if !u.active then u
    else if s.tension < UNLOAD_ABORT then EndedUnload(u)
    else if s.keyState == 1 then
      if (now - u.activeAt) % MASK32 >= UNLOAD_MAX_MS then EndedUnload(u) else u.(emptyAt := 0)
    else if u.emptyAt == 0 then u.(emptyAt := now)
    else if (now - u.emptyAt) % MASK32 >= UNLOAD_EMPTY_MS then EndedUnload(u)
    else u
  }

  /** An unload starts only from idle pressure control, but a running one does not look at the motion. */
  function UnloadStep(u: Unload, mode: Mode, s: Sensors, now: u32): Unload {
    if !s.inserted || (!u.active && mode != PressureIdle) then NoUnload
    else EndUnload(StartUnload(ArmUnload(u, s, now), s, now), s, now)
  }

  // ----- The drive -----

  /** The manual pull: the filament has left the key and the buffer is pulled. */
  predicate Manual(s: Sensors) { s.inserted && s.keyState == 0 && s.tension > MANUAL_START }

  function Directed(p: Polarity, value: int): int {
    match p
    case Unknown => 0
    case Forward => value
    case Reversed => -value
  }

  /** Whether the turn calls `set_motion`, and for how long. */
  predicate Commands(m: Motor, i: Input) {
    i.error || m.position == Pulling || m.position == Redetect || !i.otherWaits || FeedsNothing(i)
  }

  function OverTime(mode: Mode, active: bool): nat {
    match mode
    case Send => 100
    case Pull => 100
    case Redetecting => 100
    case PressureIdle => if active then 100 else 1000
    case _ => 300
  }

  function Deadline(r: Rig, i: Input, mode: Mode): u32 {
    if !Commands(r.motor, i) then r.stopAt
    else if mode == Stop then 0
    else (i.at + OverTime(mode, i.active)) % MASK32
  }

  predicate Expired(stopAt: u32, now: u32) { stopAt != 0 && (now - stopAt) % MASK32 < 0x8000_0000 }

  /** `_MOTOR_CONTROL::run`, its output and the deadline of the motion. */
  function RunMotor(r: Rig, s: Sensors, now: u32): Rig {
    if r.motor.mode == Stop then
      if r.stopAt == 0 && r.zeroed then r else r.(zeroed := true, pwm := 0)
    else if Expired(r.stopAt, now) then r.(motor := r.motor.(mode := Stop), zeroed := true, pwm := 0)
    else if s.polarity == Unknown then r.(zeroed := true, pwm := 0)
    else r.(zeroed := s.control == 0, pwm := s.control)
  }

  function Output(r: Rig, s: Sensors, now: u32): Rig {
    var pull := Directed(s.polarity, if r.unload.active then UNLOAD_PWM else MANUAL_PWM);
    if r.unload.active || Manual(s) then r.(zeroed := pull == 0, pwm := pull)
    else if s.timeStep then RunMotor(r, s, now)
    else r
  }

  /** The command of the turn, with its deadline. */
  function CommandStep(r: Rig, i: Input, normal: nat): Rig {
    var commanded := Commanded(r.motor, i, normal);
    var sameMode := Entered(r.motor, i).mode == r.motor.mode == commanded.mode;
    Rig(commanded, Deadline(r, i, commanded.mode), r.zeroed && sameMode, r.pwm, r.unload)
  }

  /** One loop turn of the channel, down to the PWM. */
  function RigStep(r: Rig, t: LoopTurn, normal: nat): Rig {
    var c, now := CommandStep(r, t.motion, normal), t.motion.at % MASK32;
    if !t.motion.healthy then Rig(SetMotion(c.motor, Stop, now), 0, c.zeroed && c.motor.mode == Stop, 0, c.unload)
    else Output(c.(unload := UnloadStep(c.unload, c.motor.mode, t.wire, now)), t.wire, now)
  }

  function RigRun(r: Rig, run: seq<LoopTurn>, normal: nat): Rig
    decreases run
  {
    if run == [] then r else RigRun(RigStep(r, run[0], normal), run[1..], normal)
  }

  // ----- The motion below the drive -----

  predicate RigInv(r: Rig) { Inv(r.motor) && (r.zeroed ==> r.pwm == 0) }

  /** The motion follows its step; only while another channel is waited for can its deadline end it. */
  lemma ExpiryOnlyWhileWaiting(r: Rig, t: LoopTurn, normal: nat)
    ensures RigStep(r, t, normal).motor != Step(r.motor, t.motion, normal) ==>
              !Commands(r.motor, t.motion) && RigStep(r, t, normal).motor == Step(r.motor, t.motion, normal).(mode := Stop)
  {
    hide Commanded, UnloadStep;
    var i := t.motion;
    FreshDeadline(i.at, OverTime(Commanded(r.motor, i, normal).mode, i.active));
  }

  lemma FreshDeadline(at: nat, over: nat)
    requires 0 < over <= 1000
    ensures !Expired((at + over) % MASK32, at % MASK32)
  {
    var a := at % MASK32;
    assert (at + over) % MASK32 == (a + over) % MASK32;
    assert (at + over) % MASK32 == if a + over < MASK32 then a + over else a + over - MASK32;
  }

  lemma RigKeeps(r: Rig, t: LoopTurn, normal: nat)
    requires RigInv(r)
    ensures RigInv(RigStep(r, t, normal))
  {
    hide Commanded, UnloadStep, Inv, Step;
    StepKeeps(r.motor, t.motion, normal);
    ExpiryOnlyWhileWaiting(r, t, normal);
    StoppedKeeps(Step(r.motor, t.motion, normal));
  }

  lemma StoppedKeeps(m: Motor)
    requires Inv(m)
    ensures Inv(m.(mode := Stop))
  {
  }

  /** Over every run the motion is a pull only under supervision and a stop under a fault, deadlines included. */
  lemma {:induction false} RigRunKeeps(r: Rig, run: seq<LoopTurn>, normal: nat)
    requires RigInv(r)
    ensures RigInv(RigRun(r, run, normal))
    decreases run
  {
    if run != [] {
      hide RigStep, RigInv;
      RigKeeps(r, run[0], normal);
      RigRunKeeps(RigStep(r, run[0], normal), run[1..], normal);
    }
  }

  // ----- A stopped motion, and what drives the motor all the same -----

  /** The two drives that do not look at the motion, the bus error or the fault. */
  predicate Bypass(r: Rig, t: LoopTurn, normal: nat) {
    var mode := Commanded(r.motor, t.motion, normal).mode;
    || UnloadStep(r.unload, mode, t.wire, t.motion.at % MASK32).active
    || (t.wire.inserted && t.wire.keyState == 0 && t.wire.tension > 8000)
  }

  /**
   On a turn that commands a stop, as every turn with a bus error does, the motor is driven if
   and only if the sensor is good and a bypass drives it, with a known polarity, or no tick has
   passed since a turn that did.
   */
  lemma StoppedIsDrivenIff(r: Rig, t: LoopTurn, normal: nat)
    requires RigInv(r) && Step(r.motor, t.motion, normal).mode == Stop
    ensures RigStep(r, t, normal).pwm != 0 <==>
              && t.motion.healthy
              && (if Bypass(r, t, normal) then t.wire.polarity != Unknown else !t.wire.timeStep && r.pwm != 0)
    ensures RigStep(r, t, normal).pwm in {0, 850, -850, 700, -700, r.pwm}
  {
    hide Commanded, UnloadStep;
  }

  lemma ErrorIsDrivenIff(r: Rig, t: LoopTurn, normal: nat)
    requires RigInv(r) && t.motion.error
    ensures Step(r.motor, t.motion, normal).mode == Stop
    ensures RigStep(r, t, normal).pwm != 0 <==>
              && t.motion.healthy
              && (if Bypass(r, t, normal) then t.wire.polarity != Unknown else !t.wire.timeStep && r.pwm != 0)
  {
    hide UnloadStep;
    StoppedIsDrivenIff(r, t, normal);
  }

  /** A turn that pulls back for this channel; it is what clears a fault. */
  predicate Retries(t: LoopTurn) { t.motion.active && t.motion.wish == PullBackWish }

  /** Under a latched fault the motion is a stop, so the same condition says when the motor is driven. */
  lemma FaultIsDrivenIff(r: Rig, t: LoopTurn, normal: nat)
    requires RigInv(r) && r.motor.fault != NoFault && !Retries(t)
    ensures var after := RigStep(r, t, normal);
            && after.motor.fault == r.motor.fault
            && (after.pwm != 0 <==>
                  && t.motion.healthy
                  && (if Bypass(r, t, normal) then t.wire.polarity != Unknown else !t.wire.timeStep && r.pwm != 0))
    ensures !r.unload.active ==> !RigStep(r, t, normal).unload.active
  {
    hide Commanded;
    FaultStaysLatched(r.motor, t.motion, normal);
    StepKeeps(r.motor, t.motion, normal);
    ExpiryOnlyWhileWaiting(r, t, normal);
    StoppedIsDrivenIff(r, t, normal);
  }

  predicate NeverRetries(run: seq<LoopTurn>) { forall t :: t in run ==> !Retries(t) }

  /** Up to the last turn of a run. */
  function Before(r: Rig, run: seq<LoopTurn>, normal: nat): Rig
    requires run != []
  {
    RigRun(r, run[..|run| - 1], normal)
  }

  lemma {:induction false} RigRunSnoc(r: Rig, run: seq<LoopTurn>, normal: nat)
    requires run != []
    ensures RigRun(r, run, normal) == RigStep(Before(r, run, normal), run[|run| - 1], normal)
    decreases run
  {
    hide RigStep;
    if |run| > 1 {
      assert run[..|run| - 1][1..] == run[1..][..|run| - 2];
      RigRunSnoc(RigStep(r, run[0], normal), run[1..], normal);
    } else {
      assert run[..0] == [] && run[1..] == [];
    }
  }

  lemma {:induction false} FaultLasts(r: Rig, run: seq<LoopTurn>, normal: nat)
    requires RigInv(r) && r.motor.fault != NoFault && NeverRetries(run) && !r.unload.active
    ensures var after := RigRun(r, run, normal); RigInv(after) && after.motor.fault == r.motor.fault && !after.unload.active
    decreases run
  {
    if run != [] {
      FaultIsDrivenIff(r, run[0], normal);
      RigKeeps(r, run[0], normal);
      hide RigInv, RigStep;
      FaultLasts(RigStep(r, run[0], normal), run[1..], normal);
    }
  }

  /**
   Until the printer asks for a pull-back again, a latched fault lets the motor be driven on a
   turn exactly by the manual pull, with the sensor good and the polarity known, or by what an
   earlier turn left if no tick has passed since: whatever the run before.
   */
  lemma FaultLeavesOnlyManual(r: Rig, run: seq<LoopTurn>, normal: nat)
    requires RigInv(r) && r.motor.fault != NoFault && NeverRetries(run) && !r.unload.active && run != []
    ensures var before, after, last := Before(r, run, normal), RigRun(r, run, normal), run[|run| - 1];
            && after.motor.fault == r.motor.fault
            && (after.pwm != 0 <==>
                  && last.motion.healthy
                  && (if Manual(last.wire) then last.wire.polarity != Unknown else !last.wire.timeStep && before.pwm != 0))
  {
    var before, last := Before(r, run, normal), run[|run| - 1];
    FaultLasts(r, run[..|run| - 1], normal);
    RigRunSnoc(r, run, normal);
    assert last in run;
    FaultIsDrivenIff(before, last, normal);
    if last.motion.healthy {
      NoUnloadBypass(before, last, normal);
    }
  }

  lemma NoUnloadBypass(r: Rig, t: LoopTurn, normal: nat)
    requires RigInv(r) && r.motor.fault != NoFault && !Retries(t) && !r.unload.active && t.motion.healthy
    ensures Bypass(r, t, normal) <==> Manual(t.wire)
  {
    FaultStaysLatched(r.motor, t.motion, normal);
  }

  // ----- The manual pull has no watch -----

  predicate Pulled(t: LoopTurn) { t.motion.healthy && Manual(t.wire) && t.wire.polarity == Forward }

  predicate AllPulled(run: seq<LoopTurn>) { forall t :: t in run ==> Pulled(t) }

  lemma PulledStep(r: Rig, t: LoopTurn, normal: nat)
    requires Pulled(t) && !r.unload.active
    ensures var after := RigStep(r, t, normal); after.pwm == MANUAL_PWM && !after.unload.active
  {
    hide Commanded;
  }

  /**
   With the key open and the buffer pulled, the motor pulls at every turn: under any fault, any
   bus error and any command, for as long as it lasts and however far the filament moves.
   */
  lemma {:induction false} ManualPullNeverEnds(r: Rig, run: seq<LoopTurn>, normal: nat)
    requires AllPulled(run) && !r.unload.active && run != []
    ensures RigRun(r, run, normal).pwm == MANUAL_PWM && !RigRun(r, run, normal).unload.active
    decreases run
  {
    PulledStep(r, run[0], normal);
    if |run| > 1 {
      hide RigStep;
      ManualPullNeverEnds(RigStep(r, run[0], normal), run[1..], normal);
    }
  }

  const STALLED_TURN: LoopTurn := LoopTurn(STALLED, Sensors(true, 1, 5000, Forward, true, 0))

  const EMPTY_TURN: LoopTurn := LoopTurn(STALLED.(at := 6000, key := false, wish := Idle), Sensors(true, 0, 9000, Forward, true, 0))

  /**
   From power-up: a pull-back starts, does not move for 3 s and faults; then the key opens and
   the buffer is pulled.  The fault stands, the motion is a stop, and the motor pulls.
   */
  lemma FaultStillPulls(normal: nat)
    requires normal > 0
    ensures var run := [STALLED_TURN, STALLED_TURN.(motion := STALLED.(at := 3000)), EMPTY_TURN];
            && (forall t :: t in run ==> Coherent(t))
            && var after := RigRun(PowerUpRig, run, normal);
               after.motor.fault == NoProgress && after.motor.mode == Stop && after.pwm == MANUAL_PWM
  {
    var first, second, third := STALLED_TURN, STALLED_TURN.(motion := STALLED.(at := 3000)), EMPTY_TURN;
    assert [first, second, third][1..] == [second, third] && [second, third][1..] == [third] && [third][1..] == [];
    var a, b := RigStep(PowerUpRig, first, normal), RigStep(RigStep(PowerUpRig, first, normal), second, normal);
    StalledPullBegins(normal);
    StalledPullFaults(a, normal);
    FaultIsDriven(b, normal);
    hide RigStep;
    assert RigRun(PowerUpRig, [first, second, third], normal) == RigRun(a, [second, third], normal);
    assert RigRun(a, [second, third], normal) == RigRun(b, [third], normal);
    assert RigRun(b, [third], normal) == RigStep(b, third, normal);
  }

  lemma StalledPullBegins(normal: nat)
    ensures RigStep(PowerUpRig, STALLED_TURN, normal) ==
            Rig(Motor(Pulling, Pull, normal, NoFault, 0, 0, false, 0, 0), 100, true, 0, NoUnload)
  {
  }

  lemma StalledPullFaults(r: Rig, normal: nat)
    requires normal > 0 && r.motor == Motor(Pulling, Pull, normal, NoFault, 0, 0, false, 0, 0) && r.unload == NoUnload
    ensures var after := RigStep(r, STALLED_TURN.(motion := STALLED.(at := 3000)), normal);
            after.motor.fault == NoProgress && after.motor.mode == Stop && after.motor.position == AtIdle && after.unload == NoUnload
  {
  }

  lemma FaultIsDriven(r: Rig, normal: nat)
    requires r.motor.fault == NoProgress && r.motor.mode == Stop && r.motor.position == AtIdle && r.unload == NoUnload
    ensures var after := RigStep(r, EMPTY_TURN, normal);
            after.motor.fault == NoProgress && after.motor.mode == Stop && after.pwm == MANUAL_PWM
  {
  }

  // ----- The pull-back below the drive -----

  function Motions(run: seq<LoopTurn>): (motions: seq<Input>)
    ensures |motions| == |run|
  {
    if run == [] then [] else [run[0].motion] + Motions(run[1..])
  }

  /** While a pull-back goes on, no deadline ends it: the bounds of module PullBack hold for it here. */
  lemma {:induction false} PullBackIsUntouched(r: Rig, run: seq<LoopTurn>, normal: nat)
    requires r.motor.position == Pulling && StaysPulling(r.motor, Motions(run), normal)
    ensures RigRun(r, run, normal).motor == Run(r.motor, Motions(run), normal)
    decreases run
  {
    if run != [] {
      hide Step, RigStep;
      assert Motions(run)[1..] == Motions(run[1..]);
      ExpiryOnlyWhileWaiting(r, run[0], normal);
      PullBackIsUntouched(RigStep(r, run[0], normal), run[1..], normal);
    }
  }

  // ----- A motion that is no longer commanded -----

  /** How long a motion may outlive its last command, in milliseconds. */
  function Outlives(mode: Mode, active: bool): nat {
    if mode in {Send, Pull, Redetecting} then 100
    else if mode == PressureIdle then (if active then 100 else 1000)
    else 300
  }

  /** A turn that commands a motion sets its deadline; a stop has none. */
  lemma CommandSetsDeadline(r: Rig, t: LoopTurn, normal: nat)
    requires t.motion.healthy && Commands(r.motor, t.motion)
    ensures var after := RigStep(r, t, normal);
            after.stopAt == if after.motor.mode == Stop then 0 else (t.motion.at + Outlives(after.motor.mode, t.motion.active)) % MASK32
  {
    hide Commanded, UnloadStep;
    var i := t.motion;
    FreshDeadline(i.at, OverTime(Commanded(r.motor, i, normal).mode, i.active));
  }

  /**
   While another channel is waited for, a motion commanded at true time `since` goes on exactly
   until its time is over; a deadline that falls on tick 0 counts as none.
   */
  lemma UncommandedMotionEnds(r: Rig, t: LoopTurn, normal: nat, since: nat, over: nat)
    requires r.motor.mode != Stop && r.stopAt == (since + over) % MASK32 && over <= 1000
    requires since <= t.motion.at < since + 0x8000_0000 && !Commands(r.motor, t.motion)
    requires t.motion.healthy && t.wire.timeStep && !Bypass(r, t, normal)
    ensures RigStep(r, t, normal).motor.mode == Stop <==> (since + over) % MASK32 != 0 && t.motion.at >= since + over
    ensures RigStep(r, t, normal).motor.mode == Stop ==> RigStep(r, t, normal).pwm == 0
  {
    hide UnloadStep;
    var now := t.motion.at % MASK32;
    if t.motion.at >= since + over {
      WrappedDifference(since + over, t.motion.at);
    } else {
      WrappedDifference(t.motion.at, since + over);
      Opposite(t.motion.at, since + over);
    }
  }

  /** A tick before the deadline shows as a negative difference. */
  lemma Opposite(at: nat, deadline: nat)
    requires at < deadline <= at + 1000
    ensures (at % MASK32 - deadline % MASK32) % MASK32 >= 0x8000_0000
  {
    var a := at % MASK32;
    assert deadline % MASK32 == (a + (deadline - at)) % MASK32;
    assert (a + (deadline - at)) % MASK32 == if a + (deadline - at) < MASK32 then a + (deadline - at) else a + (deadline - at) - MASK32;
  }

  // ----- Which way the bypasses drive -----

  /** The drive seen from the filament: positive pulls it back out of the printer. */
  function Logical(p: Polarity, pwm: int): int {
    match p
    case Unknown => 0
    case Forward => pwm
    case Reversed => -pwm
  }

  /** With a known polarity an unload pulls back with 850, a manual pull with 700, however the motor is wired. */
  lemma BypassPullsBack(r: Rig, t: LoopTurn, normal: nat)
    requires t.motion.healthy && t.wire.polarity != Unknown
    ensures var after := RigStep(r, t, normal);
            && (after.unload.active ==> Logical(t.wire.polarity, after.pwm) == 850)
            && (!after.unload.active && t.wire.inserted && t.wire.keyState == 0 && t.wire.tension > 8000 ==>
                  Logical(t.wire.polarity, after.pwm) == 700)
  {
    hide Commanded, UnloadStep;
  }

  /** Otherwise a moving motion puts out what its controller gives, unless the polarity is unknown or its deadline is over. */
  lemma ControllerDrives(r: Rig, t: LoopTurn, normal: nat)
    requires t.motion.healthy && t.wire.timeStep && Step(r.motor, t.motion, normal).mode != Stop
    requires !Bypass(r, t, normal)
    ensures var after := RigStep(r, t, normal);
            && (after.pwm == 0 || after.pwm == t.wire.control)
            && (Commands(r.motor, t.motion) && t.wire.polarity != Unknown ==> after.pwm == t.wire.control)
            && (t.wire.polarity == Unknown ==> after.pwm == 0)
  {
    hide Commanded, UnloadStep;
    var i := t.motion;
    FreshDeadline(i.at, OverTime(Commanded(r.motor, i, normal).mode, i.active));
  }

  // ----- The automatic unload begins -----

  predicate Neutral(t: LoopTurn) { 4501 <= t.wire.tension <= 5499 }

  predicate PullsBuffer(t: LoopTurn) { t.motion.healthy && t.wire.inserted && t.wire.tension >= 8000 }

  /** The buffer was pulled at the j-th turn, and the unload waits since then for it to come back. */
  ghost predicate ArmedAt(past: seq<LoopTurn>, j: nat, armAt: u32) {
    && j < |past| && PullsBuffer(past[j]) && armAt == past[j].motion.at % MASK32
    && forall k :: j < k < |past| && past[k].motion.healthy ==> !Neutral(past[k])
  }

  /** An armed unload was armed by a turn of the past. */
  ghost predicate ArmedBy(past: seq<LoopTurn>, u: Unload) {
    (u.active ==> !u.arm) && (u.arm ==> exists j: nat :: ArmedAt(past, j, u.armAt))
  }

  lemma StillArmed(past: seq<LoopTurn>, t: LoopTurn, j: nat, armAt: u32)
    requires ArmedAt(past, j, armAt) && (t.motion.healthy ==> !Neutral(t))
    ensures ArmedAt(past + [t], j, armAt)
  {
  }

  lemma UnloadArmed(u: Unload, mode: Mode, s: Sensors, now: u32)
    requires u.active ==> !u.arm
    ensures var after := UnloadStep(u, mode, s, now);
            && (after.active ==> !after.arm)
            && (after.arm ==> !(4501 <= s.tension <= 5499) && s.inserted
                              && ((u.arm && after.armAt == u.armAt) || (s.tension >= 8000 && after.armAt == now)))
    ensures !u.active ==>
              (UnloadStep(u, mode, s, now).active <==>
                 && s.inserted && mode == PressureIdle && u.arm && !u.blocked
                 && 4501 <= s.tension <= 5499 && (now - u.armAt) % MASK32 <= 1000)
  {
  }

  /**
   Exactly when an unload waits, in idle pressure control: armed by a pulled buffer, kept for a
   second until the buffer is neutral; a buffer still pulled after that second disarms for a turn.
   */
  lemma UnloadArmsIff(u: Unload, s: Sensors, now: u32)
    requires !u.active && s.inserted
    ensures UnloadStep(u, PressureIdle, s, now).arm <==>
              && !(4501 <= s.tension <= 5499)
              && (if u.arm then (now - u.armAt) % MASK32 <= 1000 else s.tension >= 8000)
  {
  }

  lemma StepArmed(r: Rig, past: seq<LoopTurn>, t: LoopTurn, normal: nat)
    requires ArmedBy(past, r.unload)
    ensures ArmedBy(past + [t], RigStep(r, t, normal).unload)
  {
    var u, after, now := r.unload, RigStep(r, t, normal).unload, t.motion.at % MASK32;
    if t.motion.healthy {
      UnloadOfStep(r, t, normal);
      UnloadArmed(u, Commanded(r.motor, t.motion, normal).mode, t.wire, now);
    }
    hide RigStep, UnloadStep;
    if after.arm {
      if u.arm && after.armAt == u.armAt {
        var j: nat :| ArmedAt(past, j, u.armAt);
        StillArmed(past, t, j, u.armAt);
      } else {
        assert ArmedAt(past + [t], |past|, after.armAt);
      }
    }
  }

  lemma {:induction false} RunArmed(r: Rig, past: seq<LoopTurn>, run: seq<LoopTurn>, normal: nat)
    requires ArmedBy(past, r.unload)
    ensures ArmedBy(past + run, RigRun(r, run, normal).unload)
    decreases run
  {
    hide RigStep, ArmedBy;
    if run == [] {
      assert past + run == past;
    } else {
      StepArmed(r, past, run[0], normal);
      assert past + [run[0]] + run[1..] == past + run;
      RunArmed(RigStep(r, run[0], normal), past + [run[0]], run[1..], normal);
    }
  }

  /**
   From power-up, after any run: an unload begins on a turn only from idle pressure control, with
   the buffer back at neutral at most a second, on the 32-bit clock, after a turn that found it
   pulled; and never was it neutral in between, so one pull never starts two unloads.
   */
  lemma UnloadBeginsAfterPull(run: seq<LoopTurn>, t: LoopTurn, normal: nat) returns (j: nat)
    requires var r := RigRun(PowerUpRig, run, normal); !r.unload.active && RigStep(r, t, normal).unload.active
    ensures j < |run| && PullsBuffer(run[j]) && Neutral(t) && t.motion.healthy && t.wire.inserted
    ensures (t.motion.at % MASK32 - run[j].motion.at % MASK32) % MASK32 <= 1000
    ensures forall k :: j < k < |run| && run[k].motion.healthy ==> !Neutral(run[k])
    ensures Commanded(RigRun(PowerUpRig, run, normal).motor, t.motion, normal).mode == PressureIdle
  {
    hide RigStep, UnloadStep, Commanded, Neutral, PullsBuffer;
    var r := RigRun(PowerUpRig, run, normal);
    RunArmed(PowerUpRig, [], run, normal);
    assert [] + run == run;
    UnloadStarts(r, t, normal);
    j :| ArmedAt(run, j, r.unload.armAt);
  }

  lemma UnloadStarts(r: Rig, t: LoopTurn, normal: nat)
    requires !r.unload.active && RigStep(r, t, normal).unload.active
    ensures t.motion.healthy && t.wire.inserted && Neutral(t) && r.unload.arm
    ensures (t.motion.at % MASK32 - r.unload.armAt) % MASK32 <= 1000
    ensures Commanded(r.motor, t.motion, normal).mode == PressureIdle
  {
    hide Commanded, UnloadStep;
    if t.motion.healthy {
      UnloadOfStep(r, t, normal);
      UnloadArmed(r.unload, Commanded(r.motor, t.motion, normal).mode, t.wire, t.motion.at % MASK32);
    }
  }

  // ----- The automatic unload ends -----

  /** The sensor is good on every turn, turns at most `gap` milliseconds apart. */
  predicate Sampled(run: seq<LoopTurn>, clock: nat, gap: nat) {
    run != [] ==>
      && run[0].motion.healthy && clock <= run[0].motion.at <= clock + gap
      && Sampled(run[1..], run[0].motion.at, gap)
  }

  predicate StaysUnloading(r: Rig, run: seq<LoopTurn>, normal: nat)
    decreases run
  {
    run != [] ==> RigStep(r, run[0], normal).unload.active && StaysUnloading(RigStep(r, run[0], normal), run[1..], normal)
  }

  /** True time of the first turn that finds the unload over. */
  function UnloadLeavesAt(r: Rig, run: seq<LoopTurn>, normal: nat): nat
    requires !StaysUnloading(r, run, normal)
    decreases run
  {
    if !RigStep(r, run[0], normal).unload.active then run[0].motion.at
    else UnloadLeavesAt(RigStep(r, run[0], normal), run[1..], normal)
  }

  /** An unload that began at true time `start`; its key has been off since `since`, unless `emptyAt` is 0. */
  predicate Unloading(u: Unload, start: nat, since: nat, clock: nat, gap: nat) {
    && u.active && u.activeAt == start % MASK32 && start <= clock
    && if u.emptyAt == 0 then clock < start + UNLOAD_MAX_MS || (clock % MASK32 == 0 && clock < start + UNLOAD_MAX_MS + gap)
       else
         && u.emptyAt == since % MASK32 && since <= clock < since + UNLOAD_EMPTY_MS
         && since < start + UNLOAD_MAX_MS + 2 * gap
  }

  /** The turn that starts it. */
  lemma UnloadBegins(r: Rig, t: LoopTurn, normal: nat, gap: nat)
    requires !r.unload.active && RigStep(r, t, normal).unload.active
    ensures Unloading(RigStep(r, t, normal).unload, t.motion.at, t.motion.at, t.motion.at, gap)
    ensures Commanded(r.motor, t.motion, normal).mode == PressureIdle && t.motion.healthy
  {
    hide Commanded, Manual;
  }

  lemma UnloadContinues(r: Rig, t: LoopTurn, normal: nat, start: nat, since: nat, clock: nat, gap: nat) returns (since': nat)
    requires Unloading(r.unload, start, since, clock, gap) && Sampled([t], clock, gap)
    requires UNLOAD_MAX_MS + UNLOAD_EMPTY_MS + 3 * gap < MASK32
    requires RigStep(r, t, normal).unload.active
    ensures Unloading(RigStep(r, t, normal).unload, start, since', t.motion.at, gap)
  {
    var at, mode := t.motion.at, Commanded(r.motor, t.motion, normal).mode;
    since' := if r.unload.emptyAt == 0 then at else since;
    UnloadOfStep(r, t, normal);
    RunningUnload(r.unload, mode, t.wire, at % MASK32);
    hide Commanded, RigStep, UnloadStep, ArmUnload, StartUnload;
    if t.wire.keyState == 1 {
      WrappedDifference(start, at);
    } else if r.unload.emptyAt != 0 {
      WrappedDifference(since, at);
    } else if clock % MASK32 == at % MASK32 {
      SameWrap(clock, at);
    }
  }

  lemma SameWrap(clock: nat, at: nat)
    requires clock <= at < clock + MASK32 && clock % MASK32 == at % MASK32
    ensures clock == at
  {
    WrappedDifference(clock, at);
  }

  lemma UnloadOfStep(r: Rig, t: LoopTurn, normal: nat)
    requires t.motion.healthy
    ensures RigStep(r, t, normal).unload == UnloadStep(r.unload, Commanded(r.motor, t.motion, normal).mode, t.wire, t.motion.at % MASK32)
  {
    hide Commanded, UnloadStep, Manual;
  }

  /** One turn of a running unload; only the end matters to its times. */
  lemma RunningUnload(u: Unload, mode: Mode, s: Sensors, now: u32)
    requires u.active && UnloadStep(u, mode, s, now).active
    ensures var after := UnloadStep(u, mode, s, now);
            && after.activeAt == u.activeAt
            && after.emptyAt == (if s.keyState == 1 then 0 else if u.emptyAt == 0 then now else u.emptyAt)
            && (s.keyState == 1 ==> (now - u.activeAt) % MASK32 < UNLOAD_MAX_MS)
            && (s.keyState != 1 && u.emptyAt != 0 ==> (now - u.emptyAt) % MASK32 < UNLOAD_EMPTY_MS)
  {
  }

  /** Exactly when a running unload goes on: inserted, tension from 35 %, and neither of its two times over. */
  lemma UnloadGoesOnIff(u: Unload, mode: Mode, s: Sensors, now: u32)
    requires u.active
    ensures UnloadStep(u, mode, s, now).active <==>
              && s.inserted && s.tension >= 3500
              && (if s.keyState == 1 then (now - u.activeAt) % MASK32 < 15000
                  else u.emptyAt == 0 || (now - u.emptyAt) % MASK32 < 1500)
  {
  }

  /** The longest an unload can take. */
  function UnloadBound(gap: nat): nat { UNLOAD_MAX_MS + UNLOAD_EMPTY_MS + 3 * gap }

  lemma {:induction false} UnloadIsShort(r: Rig, run: seq<LoopTurn>, normal: nat, start: nat, since: nat, clock: nat, gap: nat)
    requires Unloading(r.unload, start, since, clock, gap) && Sampled(run, clock, gap) && UnloadBound(gap) < MASK32
    requires run != [] && EndTime(Motions(run), clock) + gap >= start + UnloadBound(gap)
    ensures !StaysUnloading(r, run, normal) && UnloadLeavesAt(r, run, normal) < start + UnloadBound(gap)
    decreases run
  {
    hide RigStep;
    var after, at := RigStep(r, run[0], normal), run[0].motion.at;
    assert Motions(run)[1..] == Motions(run[1..]) && [run[0]][1..] == [];
    if after.unload.active {
      var since' := UnloadContinues(r, run[0], normal, start, since, clock, gap);
      assert run[1..] != [];
      UnloadIsShort(after, run[1..], normal, start, since', at, gap);
    }
  }

  /**
   Whatever key, tension and commands do, an unload that has begun is over within 16.5 s and
   three loop gaps while the sensor is good, its last turn included.
   */
  lemma UnloadAlwaysEnds(r: Rig, first: LoopTurn, run: seq<LoopTurn>, normal: nat, gap: nat)
    requires !r.unload.active && RigStep(r, first, normal).unload.active
    requires Sampled(run, first.motion.at, gap) && UnloadBound(gap) < MASK32 && run != []
    requires EndTime(Motions(run), first.motion.at) + gap >= first.motion.at + UnloadBound(gap)
    ensures var u := RigStep(r, first, normal);
            !StaysUnloading(u, run, normal) && UnloadLeavesAt(u, run, normal) < first.motion.at + UnloadBound(gap)
  {
    UnloadBegins(r, first, normal, gap);
    hide RigStep;
    var at := first.motion.at;
    UnloadIsShort(RigStep(r, first, normal), run, normal, at, at, at, gap);
  }

  // ----- The firmware's own form -----

  class Drive {
    const channel: Channel
    var stopAt: u32
    var zeroed: bool
    var pwm: int
    var arm: bool
    var active: bool
    var blocked: bool
    var armAt: u32
    var activeAt: u32
    var emptyAt: u32

    ghost function UnloadView(): Unload
      reads this
    {
      Unload(arm, active, blocked, armAt, activeAt, emptyAt)
    }

    ghost function View(): Rig
      reads this, channel
    {
      Rig(channel.View(), stopAt, zeroed, pwm, UnloadView())
    }

    constructor ()
      ensures View() == PowerUpRig && fresh(channel)
    {
      channel := new Channel();
      stopAt, zeroed, pwm := 0, true, 0;
      arm, active, blocked, armAt, activeAt, emptyAt := false, false, false, 0, 0, 0;
    }

    method EndNow()
      modifies `active, `activeAt, `emptyAt, `blocked
      ensures UnloadView() == EndedUnload(old(UnloadView()))
    {
      active, activeAt, emptyAt, blocked := false, 0, 0, true;
    }

    /** Start on a high tension that returns to neutral in time. */
    method TryStart(s: Sensors, now: u32)
      modifies `arm, `active, `blocked, `armAt, `activeAt, `emptyAt
      ensures UnloadView() == StartUnload(ArmUnload(old(UnloadView()), s, now), s, now)
    {
      if s.tension >= UNLOAD_START {
        blocked := false;
        if !arm && !active {
          arm, armAt := true, now;
        }
      }
      if arm && !active {
        var dt := (now - armAt) % MASK32;
        if UNLOAD_NEUTRAL_LO <= s.tension <= UNLOAD_NEUTRAL_HI {
          if !blocked && dt <= UNLOAD_ARM_MS {
            active, activeAt, emptyAt, blocked := true, now, 0, true;
          }
          arm, armAt := false, 0;
        } else if dt > UNLOAD_ARM_MS {
          arm, armAt := false, 0;
        }
      }
    }

    method TryEnd(s: Sensors, now: u32)
      modifies `active, `activeAt, `emptyAt, `blocked
      ensures UnloadView() == EndUnload(old(UnloadView()), s, now)
    {
      if active {
        if s.tension < UNLOAD_ABORT {
          EndNow();
        } else if s.keyState == 1 {
          emptyAt := 0;
          if (now - activeAt) % MASK32 >= UNLOAD_MAX_MS {
            EndNow();
          }
        } else if emptyAt == 0 {
          emptyAt := now;
        } else if (now - emptyAt) % MASK32 >= UNLOAD_EMPTY_MS {
          EndNow();
        }
      }
    }

    /** The automatic unload of one turn. */
    method FollowBuffer(s: Sensors, now: u32)
      modifies `arm, `active, `blocked, `armAt, `activeAt, `emptyAt
      ensures UnloadView() == UnloadStep(old(UnloadView()), channel.mode, s, now)
    {
      if !s.inserted || (!active && channel.mode != PressureIdle) {
        arm, active, blocked, armAt, activeAt, emptyAt := false, false, false, 0, 0, 0;
      } else {
        TryStart(s, now);
        TryEnd(s, now);
      }
    }

    method SetPwm(value: int)
      modifies `zeroed, `pwm
      ensures pwm == value && zeroed == (value == 0)
    {
      zeroed, pwm := value == 0, value;
    }

    /** `run`: the deadline, then what the controller of the motion gives. */
    method RunOnce(s: Sensors, now: u32)
      modifies `zeroed, `pwm, channel`mode
      ensures View() == RunMotor(old(View()), s, now)
    {
      if channel.mode == Stop && stopAt == 0 && zeroed {
        return;
      }
      if channel.mode != Stop && stopAt != 0 && (now - stopAt) % MASK32 < 0x8000_0000 {
        channel.mode := Stop;
        SetPwm(0);
      } else if channel.mode == Stop || s.polarity == Unknown {
        SetPwm(0);
      } else {
        SetPwm(s.control);
      }
    }

    method Command(i: Input, last: int, reading: int, normal: nat)
      requires i.delta == Unwrap(last, reading)
      modifies `stopAt, `zeroed, channel
      ensures View() == CommandStep(old(View()), i, normal)
    {
      hide Commanded, Unwrap, OverTime, Deadline, Entered, Switch;
      var before := channel.mode;
      ghost var r := View();
      EnteredMode(r.motor, i);
      DeadlineOf(r, i, Commanded(r.motor, i, normal).mode);
      var stops := !i.key && !i.error && i.active && i.wish == SendOut;
      var commands := i.error || channel.position == Pulling || channel.position == Redetect || !i.otherWaits || stops;
      assert commands == Commands(r.motor, i);
      channel.Command(i, last, reading, normal);
      zeroed := zeroed && channel.mode == before && !(stops && before != Stop);
      if commands {
        stopAt := if channel.mode == Stop then 0 else (i.at + OverTime(channel.mode, i.active)) % MASK32;
      }
    }

    lemma EnteredMode(m: Motor, i: Input)
      ensures Entered(m, i).mode == m.mode <==> !(!i.key && !i.error && i.active && i.wish == SendOut && m.mode != Stop)
    {
    }

    lemma DeadlineOf(r: Rig, i: Input, mode: Mode)
      ensures Deadline(r, i, mode) ==
              if !Commands(r.motor, i) then r.stopAt else if mode == Stop then 0 else (i.at + OverTime(mode, i.active)) % MASK32
    {
      hide OverTime, Commands;
    }

    method PutOut(s: Sensors, now: u32)
      modifies `zeroed, `pwm, channel`mode
      ensures View() == Output(old(View()), s, now)
    {
      hide RunMotor;
      if active {
        SetPwm(Directed(s.polarity, UNLOAD_PWM));
      } else if s.inserted && s.keyState == 0 && s.tension > MANUAL_START {
        SetPwm(Directed(s.polarity, MANUAL_PWM));
      } else if s.timeStep {
        RunOnce(s, now);
      }
    }

    /** One loop turn, down to the PWM. */
    method Turn(i: Input, s: Sensors, last: int, reading: int, normal: nat)
      requires i.delta == Unwrap(last, reading)
      modifies this, channel
      ensures View() == RigStep(old(View()), LoopTurn(i, s), normal)
    {
      hide CommandStep, UnloadStep, Output, Unwrap;
      var now := i.at % MASK32;
      Command(i, last, reading, normal);
      if i.healthy {
        FollowBuffer(s, now);
        PutOut(s, now);
      } else {
        zeroed := zeroed && channel.mode == Stop;
        channel.ChangeMotion(Stop, now);
        stopAt, pwm := 0, 0;
      }
    }
  }
}
