/**
 The main loop over all four channels (`src/Motion_control.cpp`): the printer's commands reach
 the motors, and what the supervision decides goes back to the printer's state.
 */
module PrinterLoop {
  import opened Bytes
  import A = AmsMotion
  import P = PullBack

  const CHANNELS: nat := A.CHANNELS

  /** What a turn measures of one channel; `used` is whether it ever left pressure control on use. */
  datatype Reading = Reading(delta: int, key: bool, healthy: bool, inserted: bool, used: bool,
                             jam: bool, jamHolds: bool, retracted: nat)

  datatype LoopInput = LoopInput(at: nat, error: bool, channels: seq<Reading>)

  datatype Plant = Plant(ams: A.State, motors: seq<P.Motor>)

  predicate Shaped(p: Plant) { A.Shaped(p.ams) && |p.motors| == CHANNELS }

  predicate Complete(t: LoopInput) { |t.channels| == CHANNELS }

  /** The supervisor of pull-backs has the channel, and the command switch waits for it. */
  predicate Supervised(m: P.Motor) { m.position == P.Pulling || m.position == P.Redetect }

  predicate Waits(motors: seq<P.Motor>) { exists j :: 0 <= j < |motors| && Supervised(motors[j]) }

  predicate OthersWait(motors: seq<P.Motor>, i: nat) { exists j :: 0 <= j < |motors| && j != i && Supervised(motors[j]) }

  /** The wish the command switch reads off the printer's motion. */
  function WishOf(m: A.Motion): P.Wish {
    match m
    case Idle => P.Wish.Idle
    case SendOut => P.Wish.SendOut
    case OnUse => P.Wish.OnUse
    case BeforePullBack => P.Wish.BeforePullWish
    case PullBack => P.Wish.PullBackWish
    case BeforeOnUse => P.Wish.BeforeUse
    case StopOnUse => P.Wish.StopUse
  }

  /** The turn as channel i sees it. */
  function Seen(p: Plant, t: LoopInput, i: nat): P.Input
    requires Shaped(p) && Complete(t) && i < CHANNELS
  {
    var r := t.channels[i];
    P.Input(t.at, r.delta, r.key, t.error, r.healthy, OthersWait(p.motors, i), p.ams.now as int == i,
            if p.ams.now < CHANNELS then WishOf(p.ams.motion[p.ams.now]) else P.Wish.Idle,
            r.jam, r.jamHolds, r.retracted, r.inserted && (r.key || r.used))
  }

  function MotorsAfter(p: Plant, t: LoopInput, normal: nat, n: nat): (motors: seq<P.Motor>)
    requires Shaped(p) && Complete(t) && n <= CHANNELS
    ensures |motors| == n && forall i :: 0 <= i < n ==> motors[i] == P.Step(p.motors[i], Seen(p, t, i), normal)
  {
    if n == 0 then [] else MotorsAfter(p, t, normal, n - 1) + [P.Step(p.motors[n - 1], Seen(p, t, n - 1), normal)]
  }

  /** What the supervision of one channel writes into the printer's state: a fault and the end of a re-detection idle it. */
  function Feedback(s: A.State, before: P.Motor, after: P.Motor, ch: byte): A.State
    requires A.Shaped(s) && ch < CHANNELS
  {
    if before.position == P.Pulling && after.position == P.AtIdle then A.Step(s, A.PullFault(ch), 0, 0)
    else if before.position == P.Redetect && after.position == P.AtIdle then A.Step(s, A.Redetected(ch), 0, 0)
    else s
  }

  /** The feedback of channels 0..n-1, in order. */
  function AllFeedback(s: A.State, before: seq<P.Motor>, after: seq<P.Motor>, n: nat): (r: A.State)
    requires A.Shaped(s) && n <= |before| && n <= |after| && n <= CHANNELS
    ensures A.Shaped(r)
  {
    if n == 0 then s else Feedback(AllFeedback(s, before, after, n - 1), before[n - 1], after[n - 1], n - 1)
  }

  /** Before the motors: the recorded channel whose filament has left the key is forgotten, a jam shows as pressure. */
  function Noticed(s: A.State, t: LoopInput): A.State
    requires A.Shaped(s) && Complete(t)
  {
    var s := if s.loaded < CHANNELS && !t.channels[s.loaded].key then A.Step(s, A.KeyOpen(s.loaded), 0, 0) else s;
    if !t.error && s.now < CHANNELS && t.channels[s.now].inserted && t.channels[s.now].jam && t.channels[s.now].key
       && s.motion[s.now] in {A.OnUse, A.SendOut}
    then A.Step(s, A.JamPressure, 0, 0) else s
  }

  /** One turn of the main loop. */
  function LoopTurn(p: Plant, t: LoopInput, normal: nat): Plant
    requires Shaped(p) && Complete(t)
  {
    var noticed := p.(ams := Noticed(p.ams, t));
    var motors := MotorsAfter(noticed, t, normal, CHANNELS);
    Plant(AllFeedback(noticed.ams, p.motors, motors, CHANNELS), motors)
  }

  /** A motion command, a save of the recorded channel, a loop turn, or a reset. */
  datatype Event =
    | Bus(read: byte, status: byte, flag: byte, tick: u32)
    | Save(ok: bool)
    | Loop(input: LoopInput)
    | Reset

  function Step(p: Plant, e: Event, tpms: nat, normal: nat): Plant
    requires Shaped(p) && (e.Loop? ==> Complete(e.input))
  {
    match e
    case Bus(read, status, flag, tick) => p.(ams := A.Told(p.ams, read, status, flag, tick, tpms))
    case Save(ok) => p.(ams := A.Step(p.ams, A.Save(ok), 0, 0))
    case Loop(t) => LoopTurn(p, t, normal)
    case Reset => PowerOn(p.ams.saved)
  }

  /** A powered-up gateway over what the flash holds. */
  function PowerOn(saved: byte): Plant { Plant(A.Boot(saved), [P.PowerUp, P.PowerUp, P.PowerUp, P.PowerUp]) }

  // ----- What every run keeps -----

  /** Motions that turn the motor for the printer or the supervisor; the other two only hold the buffer or rest. */
  predicate Drives(m: P.Motor) { m.mode != P.Stop && m.mode != P.PressureIdle }

  /** Only a channel under supervision feels for its key. */
  predicate MotorInv(m: P.Motor) { P.Inv(m) && (m.mode == P.Redetecting ==> m.position == P.Redetect) }

  /** At most one channel is driven, and while one is supervised no other is driven or supervised. */
  predicate OneDriven(motors: seq<P.Motor>) {
    forall i, j :: 0 <= i < |motors| && 0 <= j < |motors| && i != j && (Drives(motors[i]) || Supervised(motors[i])) ==>
      !Drives(motors[j]) && !Supervised(motors[j])
  }

  predicate Inv(p: Plant) {
    && Shaped(p) && A.Inv(p.ams) && OneDriven(p.motors)
    && (forall i :: 0 <= i < CHANNELS ==> MotorInv(p.motors[i]))
  }

  lemma PowerOnInv(saved: byte)
    ensures Inv(PowerOn(saved))
  {
    A.BootInv(saved);
  }

  /** A turn that waits leaves a channel that is not supervised as it was, or stopped. */
  lemma WaitingStep(m: P.Motor, i: P.Input, normal: nat)
    requires MotorInv(m) && !Supervised(m) && (i.otherWaits || i.error)
    ensures var r := P.Step(m, i, normal);
            MotorInv(r) && r.position == m.position && (r.mode == m.mode || r.mode == P.Stop)
  {
    P.StepKeeps(m, i, normal);
  }

  lemma SupervisedStep(m: P.Motor, i: P.Input, normal: nat)
    requires MotorInv(m) && Supervised(m)
    ensures MotorInv(P.Step(m, i, normal))
  {
    P.StepKeeps(m, i, normal);
  }

  /** A turn that switches drives and supervises only the active channel. */
  lemma SwitchingStep(m: P.Motor, i: P.Input, normal: nat)
    requires MotorInv(m) && !Supervised(m) && !i.otherWaits && !i.error
    ensures var r := P.Step(m, i, normal);
            MotorInv(r) && (!i.active ==> !Drives(r) && !Supervised(r))
  {
    P.StepKeeps(m, i, normal);
  }

  lemma NoticedInv(s: A.State, t: LoopInput)
    requires A.Inv(s) && A.Shaped(s) && Complete(t)
    ensures A.Inv(Noticed(s, t)) && A.Shaped(Noticed(s, t))
    ensures Noticed(s, t).motion == s.motion && Noticed(s, t).now == s.now
  {
    if s.loaded < CHANNELS {
      A.StepKeeps(s, A.KeyOpen(s.loaded), 0, 0);
    }
  }

  lemma {:induction false} FeedbackInv(s: A.State, before: seq<P.Motor>, after: seq<P.Motor>, n: nat)
    requires A.Inv(s) && A.Shaped(s) && n <= |before| && n <= |after| && n <= CHANNELS
    ensures A.Inv(AllFeedback(s, before, after, n)) && AllFeedback(s, before, after, n).now == s.now
    decreases n
  {
    if n > 0 {
      FeedbackInv(s, before, after, n - 1);
      var r := AllFeedback(s, before, after, n - 1);
      hide A.Inv;
      A.StepKeeps(r, A.PullFault(n - 1), 0, 0);
      A.StepKeeps(r, A.Redetected(n - 1), 0, 0);
    }
  }

  lemma ErrorStep(m: P.Motor, i: P.Input, normal: nat)
    requires MotorInv(m) && i.error
    ensures var r := P.Step(m, i, normal); MotorInv(r) && r.mode == P.Stop && r.position == m.position
  {
    P.StepKeeps(m, i, normal);
  }

  /** What one turn makes of each channel. */
  lemma ChannelAfter(p: Plant, t: LoopInput, normal: nat, i: nat)
    requires Inv(p) && Complete(t) && i < CHANNELS
    ensures var m, r := p.motors[i], P.Step(p.motors[i], Seen(p, t, i), normal);
            && MotorInv(r)
            && (t.error ==> !Drives(r) && (Supervised(r) <==> Supervised(m)))
            && (!t.error && OthersWait(p.motors, i) ==> !Drives(r) && !Supervised(r))
            && (!t.error && !Waits(p.motors) && p.ams.now as int != i ==> !Drives(r) && !Supervised(r))
  {
    var m, v := p.motors[i], Seen(p, t, i);
    hide P.Step, P.Inv;
    assert OthersWait(p.motors, i) ==> !Supervised(m) && !Drives(m);
    if t.error {
      ErrorStep(m, v, normal);
    } else if Supervised(m) {
      SupervisedStep(m, v, normal);
      assert Waits(p.motors);
    } else if OthersWait(p.motors, i) {
      WaitingStep(m, v, normal);
    } else {
      SwitchingStep(m, v, normal);
    }
  }

  lemma TurnDrivesOne(p: Plant, t: LoopInput, normal: nat)
    requires Inv(p) && Complete(t)
    ensures var motors := MotorsAfter(p, t, normal, CHANNELS);
            OneDriven(motors) && forall i :: 0 <= i < CHANNELS ==> MotorInv(motors[i])
  {
    hide P.Step, MotorInv, Seen;
    var motors := MotorsAfter(p, t, normal, CHANNELS);
    forall i: nat | i < CHANNELS
      ensures MotorInv(motors[i])
    {
      ChannelAfter(p, t, normal, i);
    }
    forall i: nat, j: nat | i < CHANNELS && j < CHANNELS && i != j && (Drives(motors[i]) || Supervised(motors[i]))
      ensures !Drives(motors[j]) && !Supervised(motors[j])
    {
      ChannelAfter(p, t, normal, i);
      ChannelAfter(p, t, normal, j);
      if !t.error && Waits(p.motors) {
        assert !OthersWait(p.motors, i);
        var k :| 0 <= k < CHANNELS && Supervised(p.motors[k]);
        assert k == i;
        assert OthersWait(p.motors, j);
      }
    }
  }

  lemma TurnKeeps(p: Plant, t: LoopInput, normal: nat)
    requires Inv(p) && Complete(t)
    ensures Inv(LoopTurn(p, t, normal))
  {
    var noticed := p.(ams := Noticed(p.ams, t));
    NoticedInv(p.ams, t);
    TurnDrivesOne(noticed, t, normal);
    FeedbackInv(noticed.ams, p.motors, MotorsAfter(noticed, t, normal, CHANNELS), CHANNELS);
    hide A.Inv, P.Step, MotorInv, OneDriven;
  }

  predicate Feasible(run: seq<Event>) { forall e :: e in run ==> (e.Loop? ==> Complete(e.input)) }

  lemma StepKeeps(p: Plant, e: Event, tpms: nat, normal: nat)
    requires Inv(p) && (e.Loop? ==> Complete(e.input))
    ensures Inv(Step(p, e, tpms, normal))
  {
    hide A.Inv, A.Step, A.Obey, A.Boot, MotorInv, OneDriven, LoopTurn;
    match e {
      case Bus(read, status, flag, tick) => A.ObeyKeeps(p.ams, A.Decode(read, status, flag), tick, tpms);
      case Save(ok) => A.StepKeeps(p.ams, A.Save(ok), 0, 0);
      case Loop(t) => TurnKeeps(p, t, normal);
      case Reset => PowerOnInv(p.ams.saved);
    }
    ShapedByInv(Step(p, e, tpms, normal));
  }

  lemma ShapedByInv(p: Plant)
    requires A.Inv(p.ams) && |p.motors| == CHANNELS
    ensures Shaped(p)
  {
    A.InvShapes(p.ams);
  }

  function Run(p: Plant, run: seq<Event>, tpms: nat, normal: nat): Plant
    requires Inv(p) && Feasible(run)
    decreases run
  {
    if run == [] then p
    else
      StepKeeps(p, run[0], tpms, normal);
      Run(Step(p, run[0], tpms, normal), run[1..], tpms, normal)
  }

  /**
   Over every run of commands, loop turns, saves and resets, from every flash content: at most one
   of the four motors is driven, and while a pull-back is supervised no other channel moves.
   */
  lemma {:induction false} OneMotorAtATime(p: Plant, run: seq<Event>, tpms: nat, normal: nat)
    requires Inv(p) && Feasible(run)
    ensures Inv(Run(p, run, tpms, normal))
    decreases run
  {
    if run != [] {
      StepKeeps(p, run[0], tpms, normal);
      hide Inv, Step;
      OneMotorAtATime(Step(p, run[0], tpms, normal), run[1..], tpms, normal);
    }
  }

  // ----- Every channel runs as module PullBack says -----

  predicate NoReset(run: seq<Event>) { forall e :: e in run ==> !e.Reset? }

  /** The turns of a run as one channel sees them. */
  function Views(p: Plant, run: seq<Event>, tpms: nat, normal: nat, ch: nat): seq<P.Input>
    requires Inv(p) && Feasible(run) && ch < CHANNELS
    decreases run
  {
    if run == [] then []
    else
      StepKeeps(p, run[0], tpms, normal);
      (if run[0].Loop? then [Seen(p.(ams := Noticed(p.ams, run[0].input)), run[0].input, ch)] else [])
      + Views(Step(p, run[0], tpms, normal), run[1..], tpms, normal, ch)
  }

  lemma MotorAfter(p: Plant, e: Event, tpms: nat, normal: nat, ch: nat)
    requires Inv(p) && (e.Loop? ==> Complete(e.input)) && !e.Reset? && ch < CHANNELS
    ensures Step(p, e, tpms, normal).motors[ch] ==
            if e.Loop? then P.Step(p.motors[ch], Seen(p.(ams := Noticed(p.ams, e.input)), e.input, ch), normal) else p.motors[ch]
  {
    hide P.Step, A.Step, A.Obey;
    if e.Loop? {
      NoticedInv(p.ams, e.input);
    }
  }

  /** Whatever the printer commands in between, each motor is the run of its own turns: what module PullBack proves holds here. */
  lemma {:induction false} ChannelsRunAlone(p: Plant, run: seq<Event>, tpms: nat, normal: nat, ch: nat)
    requires Inv(p) && Feasible(run) && NoReset(run) && ch < CHANNELS
    ensures Inv(Run(p, run, tpms, normal))
    ensures Run(p, run, tpms, normal).motors[ch] == P.Run(p.motors[ch], Views(p, run, tpms, normal, ch), normal)
    decreases run
  {
    if run != [] {
      var e := run[0];
      assert e in run;
      StepKeeps(p, e, tpms, normal);
      MotorAfter(p, e, tpms, normal, ch);
      hide Inv, Step, P.Step, Seen, Noticed;
      ChannelsRunAlone(Step(p, e, tpms, normal), run[1..], tpms, normal, ch);
      var rest := Views(Step(p, e, tpms, normal), run[1..], tpms, normal, ch);
      if e.Loop? {
        assert Views(p, run, tpms, normal, ch)[1..] == rest;
      } else {
        assert Views(p, run, tpms, normal, ch) == rest;
      }
    }
  }

  // ----- The motors follow the printer -----

  /** The turn does not disturb this channel. */
  predicate Undisturbed(t: LoopInput, ch: nat) {
    Complete(t) && ch < CHANNELS && !t.error && t.channels[ch].healthy && t.channels[ch].key
  }

  /**
   After any run, on an undisturbed turn with nothing supervised, the motion of every channel
   without a fault tells the printer's motion for it, and the other way round.
   */
  lemma MotorsTellThePrinter(p: Plant, t: LoopInput, normal: nat, ch: nat)
    requires Inv(p) && Undisturbed(t, ch) && !Waits(p.motors) && p.motors[ch].fault == P.NoFault
    ensures var mode, motion, r := LoopTurn(p, t, normal).motors[ch].mode, p.ams.motion[ch], t.channels[ch];
            && (mode == P.PressureOnUse <==> motion == A.OnUse)
            && (mode == P.StopOnUse <==> motion == A.StopOnUse)
            && (mode == P.BeforeOnUse <==> motion == A.BeforeOnUse)
            && (mode == P.BeforePullBack <==> motion == A.BeforePullBack)
            && (mode == P.Pull <==> motion == A.PullBack)
            && (mode == P.Send <==> motion == A.SendOut && !(r.jam && r.jamHolds))
            && mode != P.Redetecting
  {
    var noticed := p.(ams := Noticed(p.ams, t));
    NoticedInv(p.ams, t);
    var v := Seen(noticed, t, ch);
    assert !OthersWait(p.motors, ch);
    assert MotorInv(p.motors[ch]) && !Supervised(p.motors[ch]);
    if p.ams.now as int == ch {
      P.MotionTellsWish(p.motors[ch], v, normal);
      hide P.Step;
    } else {
      P.OthersRest(p.motors[ch], v, normal);
      hide P.Step;
      assert p.ams.motion[ch] == A.Idle;
    }
  }

  lemma {:induction false} NoFeedback(s: A.State, before: seq<P.Motor>, after: seq<P.Motor>, n: nat)
    requires A.Shaped(s) && n <= |before| && n <= |after| && n <= CHANNELS && !Waits(before)
    ensures AllFeedback(s, before, after, n) == s
    decreases n
  {
    if n > 0 {
      NoFeedback(s, before, after, n - 1);
      assert !Supervised(before[n - 1]);
    }
  }

  function Turns(inputs: seq<LoopInput>): (run: seq<Event>)
    ensures |run| == |inputs| && forall k :: 0 <= k < |inputs| ==> run[k] == Loop(inputs[k])
  {
    if inputs == [] then [] else [Loop(inputs[0])] + Turns(inputs[1..])
  }

  /** The channel holds this motion of the printer, active, without a fault, with nothing supervised. */
  predicate Holds(p: Plant, ch: byte, motion: A.Motion) {
    && Shaped(p) && ch < CHANNELS && p.ams.now == ch && p.ams.motion[ch] == motion
    && p.motors[ch].fault == P.NoFault && !Waits(p.motors)
  }

  /** A motion that is neither a pull-back nor its end leaves nothing to supervise. */
  lemma HoldingTurn(p: Plant, t: LoopInput, normal: nat, ch: byte, motion: A.Motion)
    requires Inv(p) && Holds(p, ch, motion) && motion != A.PullBack && Undisturbed(t, ch)
    ensures Inv(LoopTurn(p, t, normal)) && Holds(LoopTurn(p, t, normal), ch, motion)
  {
    var noticed, q := p.(ams := Noticed(p.ams, t)), LoopTurn(p, t, normal);
    TurnKeeps(p, t, normal);
    NoticedInv(p.ams, t);
    NoFeedback(noticed.ams, p.motors, q.motors, CHANNELS);
    assert MotorInv(p.motors[ch]) && !Supervised(p.motors[ch]) && !OthersWait(p.motors, ch);
    P.MotionTellsWish(p.motors[ch], Seen(noticed, t, ch), normal);
    forall j: nat | j < CHANNELS
      ensures !Supervised(q.motors[j])
    {
      ChannelAfter(noticed, t, normal, j);
      hide P.Step;
    }
    hide P.Step;
    assert q.motors[ch] == P.Step(p.motors[ch], Seen(noticed, t, ch), normal);
  }

  /** The motion of the motor for a printer's motion that uses the filament. */
  function InUse(motion: A.Motion): P.Mode {
    match motion
    case OnUse => P.PressureOnUse
    case StopOnUse => P.StopOnUse
    case BeforeOnUse => P.BeforeOnUse
    case BeforePullBack => P.BeforePullBack
    case _ => P.Stop
  }

  /** It is held, and the motor moves accordingly, for as long as the turns do not disturb it. */
  lemma {:induction false} HeldMotionMoves(p: Plant, inputs: seq<LoopInput>, tpms: nat, normal: nat, ch: byte, motion: A.Motion)
    requires Inv(p) && Holds(p, ch, motion) && motion in {A.OnUse, A.StopOnUse, A.BeforeOnUse, A.BeforePullBack}
    requires inputs != [] && forall t :: t in inputs ==> Undisturbed(t, ch)
    ensures Feasible(Turns(inputs)) && Inv(Run(p, Turns(inputs), tpms, normal))
    ensures var r := Run(p, Turns(inputs), tpms, normal); Holds(r, ch, motion) && r.motors[ch].mode == InUse(motion)
    decreases inputs
  {
    var t := inputs[0];
    HoldingTurn(p, t, normal, ch, motion);
    MotorsTellThePrinter(p, t, normal, ch);
    assert Turns(inputs)[1..] == Turns(inputs[1..]);
    var q := LoopTurn(p, t, normal);
    assert Step(p, Loop(t), tpms, normal) == q;
    hide Inv, LoopTurn, Undisturbed;
    if |inputs| > 1 {
      HeldMotionMoves(q, inputs[1..], tpms, normal, ch, motion);
    } else {
      assert Run(q, Turns(inputs[1..]), tpms, normal) == q;
    }
  }

  /** A command that leaves the channel in such a motion reaches its motor on the next turn, and no other motor is driven. */
  lemma CommandReachesTheMotor(p: Plant, read: byte, status: byte, flag: byte, tick: u32, inputs: seq<LoopInput>,
                               tpms: nat, normal: nat, ch: byte, motion: A.Motion)
    requires Inv(p) && ch < CHANNELS && !Waits(p.motors) && p.motors[ch].fault == P.NoFault
    requires motion in {A.OnUse, A.StopOnUse, A.BeforeOnUse, A.BeforePullBack}
    requires A.Told(p.ams, read, status, flag, tick, tpms).motion == A.Only(ch, motion)
    requires inputs != [] && forall t :: t in inputs ==> Undisturbed(t, ch)
    ensures var q := Step(p, Bus(read, status, flag, tick), tpms, normal);
            && Inv(q) && Feasible(Turns(inputs)) && Inv(Run(q, Turns(inputs), tpms, normal))
            && var r := Run(q, Turns(inputs), tpms, normal);
               && r.motors[ch].mode == InUse(motion) && r.ams.motion == A.Only(ch, motion) && r.ams.now == ch
               && forall j :: 0 <= j < CHANNELS && j != ch ==> !Drives(r.motors[j])
  {
    hide Run, A.Told, Turns, Undisturbed;
    var q := Step(p, Bus(read, status, flag, tick), tpms, normal);
    StepKeeps(p, Bus(read, status, flag, tick), tpms, normal);
    MovesWhenActive(q, ch, motion);
    HeldMotionMoves(q, inputs, tpms, normal, ch, motion);
    OnlyOneMoves(Run(q, Turns(inputs), tpms, normal), ch, motion);
  }

  lemma MovesWhenActive(p: Plant, ch: byte, motion: A.Motion)
    requires Inv(p) && ch < CHANNELS && p.ams.motion == A.Only(ch, motion) && motion != A.Idle
    ensures p.ams.motion[ch] == motion && p.ams.now == ch
  {
  }

  lemma OnlyOneMoves(p: Plant, ch: byte, motion: A.Motion)
    requires Inv(p) && Holds(p, ch, motion) && p.motors[ch].mode == InUse(motion)
    requires motion in {A.OnUse, A.StopOnUse, A.BeforeOnUse, A.BeforePullBack}
    ensures p.ams.motion == A.Only(ch, motion) && forall j :: 0 <= j < CHANNELS && j != ch ==> !Drives(p.motors[j])
  {
    A.ActiveMoves(p.ams, ch);
    assert Drives(p.motors[ch]);
  }

  /** So an allowed use command that is not held ends in pressure control for use. */
  lemma UseReachesTheMotor(p: Plant, tick: u32, inputs: seq<LoopInput>, tpms: nat, normal: nat, ch: byte)
    requires Inv(p) && ch < CHANNELS && !Waits(p.motors) && p.motors[ch].fault == P.NoFault
    requires A.Allowed(p.ams, ch) && !A.Held(p.ams, ch, tick, tpms)
    requires inputs != [] && forall t :: t in inputs ==> Undisturbed(t, ch)
    ensures var q := Step(p, Bus(ch, 7, 0x7F, tick), tpms, normal);
            && Inv(q) && Feasible(Turns(inputs)) && Inv(Run(q, Turns(inputs), tpms, normal))
            && var r := Run(q, Turns(inputs), tpms, normal);
               && r.motors[ch].mode == P.PressureOnUse && r.ams.motion == A.Only(ch, A.OnUse) && r.ams.now == ch
               && forall j :: 0 <= j < CHANNELS && j != ch ==> !Drives(r.motors[j])
  {
    A.UsePutsInUse(p.ams, ch, tick, tpms);
    CommandReachesTheMotor(p, ch, 7, 0x7F, tick, inputs, tpms, normal, ch, A.OnUse);
  }

  /** And the pull for all, for a channel in use or about to, ends in a pull on the next turn. */
  lemma PullAllReachesTheMotor(p: Plant, tick: u32, t: LoopInput, tpms: nat, normal: nat)
    requires Inv(p) && p.ams.now < CHANNELS && !Waits(p.motors) && Undisturbed(t, p.ams.now)
    requires p.ams.motion[p.ams.now] in {A.OnUse, A.StopOnUse, A.BeforeOnUse, A.BeforePullBack}
    ensures var ch, q := p.ams.now, Step(p, Bus(0xFF, 3, 0, tick), tpms, normal);
            && Inv(q) && q.ams.motion == A.Only(ch, A.PullBack)
            && var m := LoopTurn(q, t, normal).motors[ch];
               && m.mode == P.Pull && m.position == P.Pulling && m.fault == P.NoFault
               && m.target == (if t.channels[ch].jam then 17384
                               else if normal < t.channels[ch].retracted then 0 else normal - t.channels[ch].retracted)
  {
    var ch, q := p.ams.now, Step(p, Bus(0xFF, 3, 0, tick), tpms, normal);
    StepKeeps(p, Bus(0xFF, 3, 0, tick), tpms, normal);
    A.PullAllPullsBack(p.ams, tick, tpms);
    MotorAfter(q, Loop(t), tpms, normal, ch);
    NoticedInv(q.ams, t);
    var v := Seen(q.(ams := Noticed(q.ams, t)), t, ch);
    assert MotorInv(q.motors[ch]) && !Supervised(q.motors[ch]) && !OthersWait(q.motors, ch);
    hide P.Step, Noticed;
    if q.motors[ch].fault == P.NoFault {
      P.MotionTellsWish(q.motors[ch], v, normal);
    } else {
      P.RetryPulls(q.motors[ch], v, normal);
    }
  }

  // ----- A fault lasts until the printer asks again -----

  predicate AsksForPullBack(e: Event) { e.Bus? && e.read == 0xFF && e.status == 3 && e.flag == 0 }

  /** A fault on a channel that the printer does not ask to pull back. */
  predicate FaultStands(p: Plant, ch: nat, fault: P.Fault) {
    && Shaped(p) && ch < CHANNELS && fault != P.NoFault && p.ams.motion[ch] != A.PullBack
    && p.motors[ch].fault == fault && p.motors[ch].mode == P.Stop
  }

  lemma {:induction false} FeedbackIdles(s: A.State, before: seq<P.Motor>, after: seq<P.Motor>, n: nat)
    requires A.Shaped(s) && n <= |before| && n <= |after| && n <= CHANNELS
    ensures var r := AllFeedback(s, before, after, n);
            && (forall i :: 0 <= i < CHANNELS ==> r.motion[i] == s.motion[i] || r.motion[i] == A.Idle)
            && (forall i :: 0 <= i < n && Supervised(before[i]) && after[i].position == P.AtIdle ==> r.motion[i] == A.Idle)
            && r.now == s.now && r.loaded == s.loaded
    decreases n
  {
    if n > 0 {
      FeedbackIdles(s, before, after, n - 1);
    }
  }

  lemma FaultTurn(p: Plant, t: LoopInput, normal: nat, ch: nat, fault: P.Fault)
    requires Inv(p) && FaultStands(p, ch, fault) && Complete(t)
    ensures Inv(LoopTurn(p, t, normal)) && FaultStands(LoopTurn(p, t, normal), ch, fault)
  {
    var noticed, q := p.(ams := Noticed(p.ams, t)), LoopTurn(p, t, normal);
    TurnKeeps(p, t, normal);
    NoticedInv(p.ams, t);
    FeedbackIdles(noticed.ams, p.motors, q.motors, CHANNELS);
    P.FaultStaysLatched(p.motors[ch], Seen(noticed, t, ch), normal);
    hide P.Step, A.Inv, Noticed;
    assert q.motors[ch] == P.Step(p.motors[ch], Seen(noticed, t, ch), normal);
  }

  lemma FaultStep(p: Plant, e: Event, tpms: nat, normal: nat, ch: nat, fault: P.Fault)
    requires Inv(p) && FaultStands(p, ch, fault) && !AsksForPullBack(e) && !e.Reset? && (e.Loop? ==> Complete(e.input))
    ensures FaultStands(Step(p, e, tpms, normal), ch, fault)
  {
    StepKeeps(p, e, tpms, normal);
    match e {
      case Bus(read, status, flag, tick) =>
        A.PullAllBytes(read, status, flag);
        A.OnlyPullAllPullsBack(p.ams, A.Decode(read, status, flag), tick, tpms, ch);
        hide A.Obey, A.Decode, A.Inv, MotorInv;
      case Save(ok) =>
      case Loop(t) => FaultTurn(p, t, normal, ch, fault);
    }
  }

  lemma {:induction false} FaultStandsOver(p: Plant, run: seq<Event>, tpms: nat, normal: nat, ch: nat, fault: P.Fault)
    requires Inv(p) && FaultStands(p, ch, fault) && Feasible(run) && NoReset(run)
    requires forall e :: e in run ==> !AsksForPullBack(e)
    ensures FaultStands(Run(p, run, tpms, normal), ch, fault)
    decreases run
  {
    if run != [] {
      var e := run[0];
      assert e in run;
      StepKeeps(p, e, tpms, normal);
      FaultStep(p, e, tpms, normal, ch, fault);
      hide Inv, Step, FaultStands;
      FaultStandsOver(Step(p, e, tpms, normal), run[1..], tpms, normal, ch, fault);
    }
  }

  /**
   A turn that faults a channel also idles it for the printer; from then on, over every run of
   commands and turns without a new pull for all, the fault stands and the motion is a stop.
   */
  lemma FaultLastsUntilPullAll(p: Plant, t: LoopInput, run: seq<Event>, tpms: nat, normal: nat, ch: nat)
    requires Inv(p) && Complete(t) && ch < CHANNELS && p.motors[ch].fault == P.NoFault
    requires LoopTurn(p, t, normal).motors[ch].fault != P.NoFault
    requires Feasible(run) && NoReset(run) && forall e :: e in run ==> !AsksForPullBack(e)
    ensures var q := LoopTurn(p, t, normal);
            && Inv(q) && q.ams.motion[ch] == A.Idle
            && FaultStands(Run(q, run, tpms, normal), ch, q.motors[ch].fault)
  {
    var noticed, q := p.(ams := Noticed(p.ams, t)), LoopTurn(p, t, normal);
    TurnKeeps(p, t, normal);
    NoticedInv(p.ams, t);
    FeedbackIdles(noticed.ams, p.motors, q.motors, CHANNELS);
    MotorAfter(p, Loop(t), tpms, normal, ch);
    P.OnlyPullsFault(p.motors[ch], Seen(noticed, t, ch), normal);
    hide P.Step, A.Inv, Noticed;
    FaultStandsOver(q, run, tpms, normal, ch, q.motors[ch].fault);
  }

  /** A re-detection that ends idles its channel for the printer too, on the turn that finds the key pressed. */
  lemma RedetectionEnds(p: Plant, t: LoopInput, normal: nat, ch: nat)
    requires Inv(p) && Complete(t) && ch < CHANNELS && p.motors[ch].position == P.Redetect && !t.error
    ensures var q := LoopTurn(p, t, normal);
            && (q.motors[ch].position == P.AtIdle <==> t.channels[ch].key)
            && (t.channels[ch].key ==> q.ams.motion[ch] == A.Idle && q.ams.useFlag == 0 && q.motors[ch].mode == P.Stop)
            && (!t.channels[ch].key ==> q.motors[ch].position == P.Redetect && q.ams.motion == p.ams.motion)
  {
    var noticed, q := p.(ams := Noticed(p.ams, t)), LoopTurn(p, t, normal);
    NoticedInv(p.ams, t);
    MotorAfter(p, Loop(t), 0, normal, ch);
    assert MotorInv(p.motors[ch]);
    P.RedetectsUntilKey(p.motors[ch], Seen(noticed, t, ch), normal);
    hide P.Step, A.Inv, Noticed, Seen;
    FeedbackOfOne(noticed.ams, p.motors, q.motors, ch, CHANNELS);
  }

  /** With one channel supervised, the feedback of a turn is its own. */
  lemma {:induction false} FeedbackOfOne(s: A.State, before: seq<P.Motor>, after: seq<P.Motor>, ch: nat, n: nat)
    requires A.Shaped(s) && n <= |before| && n <= |after| && n <= CHANNELS && ch < CHANNELS
    requires forall j :: 0 <= j < |before| && j != ch ==> !Supervised(before[j])
    ensures AllFeedback(s, before, after, n) == if ch < n then Feedback(s, before[ch], after[ch], ch) else s
    decreases n
  {
    if n > 0 {
      FeedbackOfOne(s, before, after, ch, n - 1);
    }
  }

  // ----- The firmware's own form -----

  /** The motor after the parts of a turn, in the order of the loops. */
  function Counted(m: P.Motor, r: Reading): P.Motor { if r.healthy then P.Account(m, r.delta) else m }

  function Governed(m: P.Motor, r: Reading, normal: nat, now: u32): P.Motor {
    match m.position
    case Pulling => P.SupervisePull(m, r.key, normal, now)
    case Redetect => P.SuperviseRedetect(m, r.key, now)
    case _ => m
  }

  function Checked(m: P.Motor, r: Reading, now: u32): P.Motor { if r.healthy then m else P.SetMotion(m, P.Stop, now) }

  lemma StepInParts(m: P.Motor, r: Reading, i: P.Input, normal: nat)
    requires i.delta == r.delta && i.healthy == r.healthy && i.key == r.key
    ensures var now, counted := i.at % MASK32, Counted(P.Entered(m, i), r);
            && (counted.position == m.position)
            && P.Step(m, i, normal) ==
               Checked(if i.error then P.SetMotion(counted, P.Stop, now)
                       else if Supervised(m) then Governed(counted, r, normal, now)
                       else if i.otherWaits then counted
                       else P.Switch(counted, i, normal, now), r, now)
  {
    hide P.SupervisePull, P.SuperviseRedetect, P.Switch;
  }

  class MainLoop {
    const ams: A.Ams
    const channels: seq<P.Channel>

    ghost predicate Valid()
      reads ams
    {
      ams.Valid() && |channels| == CHANNELS && forall i, j :: 0 <= i < j < CHANNELS ==> channels[i] != channels[j]
    }

    ghost function Motors(): (motors: seq<P.Motor>)
      requires |channels| == CHANNELS
      reads channels
      ensures |motors| == CHANNELS && forall i :: 0 <= i < CHANNELS ==> motors[i] == channels[i].View()
    {
      [channels[0].View(), channels[1].View(), channels[2].View(), channels[3].View()]
    }

    ghost function View(): (p: Plant)
      requires Valid()
      reads ams, ams.motion, ams.waiting, channels
      ensures Shaped(p)
    {
      Plant(ams.View(), Motors())
    }

    constructor (flash: byte)
      ensures Valid() && View() == PowerOn(flash) && fresh(ams) && fresh(ams.motion) && fresh(ams.waiting)
      ensures forall c :: c in channels ==> fresh(c)
    {
      ams := new A.Ams(flash);
      var a := new P.Channel();
      var b := new P.Channel();
      var c := new P.Channel();
      var d := new P.Channel();
      channels := [a, b, c, d];
    }

    /** Forget the recorded channel if its filament has left the key. */
    method NoticeKey(t: LoopInput)
      requires Valid() && Complete(t)
      modifies ams`loaded, ams`dirty
      ensures Valid()
      ensures ams.View() == var s := old(ams.View());
                            if s.loaded < CHANNELS && !t.channels[s.loaded].key then A.Step(s, A.KeyOpen(s.loaded), 0, 0) else s
    {
      if ams.loaded < CHANNELS && !t.channels[ams.loaded].key {
        ams.SetUnloaded(ams.loaded);
      }
    }

    method NoticeJam(t: LoopInput)
      requires Valid() && Complete(t)
      modifies ams`pressure
      ensures Valid()
      ensures ams.View() == var s := old(ams.View());
                            if !t.error && s.now < CHANNELS && t.channels[s.now].inserted && t.channels[s.now].jam
                               && t.channels[s.now].key && s.motion[s.now] in {A.OnUse, A.SendOut}
                            then A.Step(s, A.JamPressure, 0, 0) else s
    {
      if !t.error && ams.now < CHANNELS {
        var m, r := ams.motion[ams.now], t.channels[ams.now];
        if r.inserted && r.jam && r.key && (m == A.OnUse || m == A.SendOut) {
          ams.pressure := A.PRESSURE_JAM;
        }
      }
    }

    /** Stop a feed whose filament has left the key. */
    method StopEmptyFeeds(t: LoopInput, ghost p: Plant)
      requires Valid() && Complete(t) && Shaped(p) && p.ams == ams.View() && p.motors == Motors()
      modifies channels
      ensures forall i :: 0 <= i < CHANNELS ==> channels[i].View() == P.Entered(p.motors[i], Seen(p, t, i))
    {
      hide P.SetMotion;
      for i := 0 to CHANNELS
        invariant forall j :: 0 <= j < i ==> channels[j].View() == P.Entered(p.motors[j], Seen(p, t, j))
        invariant forall j :: i <= j < CHANNELS ==> channels[j].View() == p.motors[j]
      {
        if !t.channels[i].key && !t.error && ams.now as int == i && ams.motion[i] == A.SendOut {
          channels[i].ChangeMotion(P.Stop, t.at % MASK32);
        }
      }
    }

    method CountAll(t: LoopInput, last: seq<int>, readings: seq<int>)
      requires Valid() && Complete(t) && |last| == |readings| == CHANNELS
      requires forall i :: 0 <= i < CHANNELS ==> t.channels[i].delta == P.Unwrap(last[i], readings[i])
      modifies channels
      ensures forall i :: 0 <= i < CHANNELS ==> channels[i].View() == Counted(old(channels[i].View()), t.channels[i])
    {
      hide P.Account, P.Unwrap;
      for i := 0 to CHANNELS
        invariant forall j :: 0 <= j < i ==> channels[j].View() == Counted(old(channels[j].View()), t.channels[j])
        invariant forall j :: i <= j < CHANNELS ==> channels[j].View() == old(channels[j].View())
      {
        if t.channels[i].healthy {
          channels[i].CountStep(last[i], readings[i]);
        }
      }
    }

    /** One channel of the supervisor, and what ends there for the printer. */
    method SuperviseOne(i: byte, r: Reading, normal: nat, now: u32) returns (waits: bool)
      requires Valid() && i < CHANNELS
      modifies channels[i], ams`useFlag, ams.motion
      ensures Valid() && waits == Supervised(old(channels[i].View()))
      ensures channels[i].View() == Governed(old(channels[i].View()), r, normal, now)
      ensures ams.View() == Feedback(old(ams.View()), old(channels[i].View()), channels[i].View(), i)
    {
      hide P.SupervisePull, P.SuperviseRedetect, A.Step;
      var position := channels[i].position;
      waits := channels[i].Supervise(r.key, normal, now);
      if position == P.Pulling && channels[i].position == P.AtIdle {
        ams.OnPullFault(i);
      } else if position == P.Redetect && channels[i].position == P.AtIdle {
        ams.OnRedetected(i);
      }
    }

    /** `motor_motion_filamnet_pull_back_to_online_key`: supervise every channel, and say whether to wait. */
    method SuperviseAll(t: LoopInput, normal: nat, ghost start: A.State, ghost before: seq<P.Motor>) returns (wait: bool)
      requires Valid() && Complete(t) && start == ams.View() && before == Motors()
      modifies channels, ams`useFlag, ams.motion
      ensures Valid() && wait == Waits(before)
      ensures forall i :: 0 <= i < CHANNELS ==> channels[i].View() == Governed(before[i], t.channels[i], normal, t.at % MASK32)
      ensures ams.View() == AllFeedback(start, before, GovernedAll(before, t, normal, CHANNELS), CHANNELS)
    {
      hide Feedback, AllFeedback, Governed, GovernedAll, Supervised, A.Ams.View, P.Channel.View;
      var now: u32 := t.at % MASK32;
      ghost var after := GovernedAll(before, t, normal, CHANNELS);
      FeedbackStart(start, before, after);
      wait := false;
      for i := 0 to CHANNELS
        invariant Valid() && wait == exists j :: 0 <= j < i && Supervised(before[j])
        invariant forall j :: 0 <= j < i ==> channels[j].View() == after[j]
        invariant forall j :: i <= j < CHANNELS ==> channels[j].View() == before[j]
        invariant ams.View() == AllFeedback(start, before, after, i)
      {
        var waits := SuperviseOne(i, t.channels[i], normal, now);
        wait := wait || waits;
        FeedbackNext(start, before, after, i);
      }
    }

    /** `motor_motion_switch`. */
    method SwitchAll(t: LoopInput, normal: nat, ghost p: Plant)
      requires Valid() && Complete(t) && Shaped(p) && p.ams == ams.View() && !Waits(p.motors)
      modifies channels
      ensures forall i :: 0 <= i < CHANNELS ==>
                channels[i].View() == P.Switch(old(channels[i].View()), Seen(p, t, i), normal, t.at % MASK32)
    {
      hide P.Switch;
      for i := 0 to CHANNELS
        invariant forall j :: 0 <= j < i ==>
                    channels[j].View() == P.Switch(old(channels[j].View()), Seen(p, t, j), normal, t.at % MASK32)
        invariant forall j :: i <= j < CHANNELS ==> channels[j].View() == old(channels[j].View())
      {
        var wish := if ams.now < CHANNELS then WishOf(ams.motion[ams.now]) else P.Wish.Idle;
        var r := t.channels[i];
        channels[i].FollowPrinter(P.Input(t.at, r.delta, r.key, t.error, r.healthy, false, ams.now as int == i, wish,
                                          r.jam, r.jamHolds, r.retracted, r.inserted && (r.key || r.used)),
                                  normal, t.at % MASK32);
      }
    }

    method StopAll(now: u32)
      requires Valid()
      modifies channels
      ensures forall i :: 0 <= i < CHANNELS ==> channels[i].View() == P.SetMotion(old(channels[i].View()), P.Stop, now)
    {
      hide P.SetMotion;
      for i := 0 to CHANNELS
        invariant forall j :: 0 <= j < i ==> channels[j].View() == P.SetMotion(old(channels[j].View()), P.Stop, now)
        invariant forall j :: i <= j < CHANNELS ==> channels[j].View() == old(channels[j].View())
      {
        channels[i].ChangeMotion(P.Stop, now);
      }
    }

    method StopUnhealthy(t: LoopInput)
      requires Valid() && Complete(t)
      modifies channels
      ensures forall i :: 0 <= i < CHANNELS ==> channels[i].View() == Checked(old(channels[i].View()), t.channels[i], t.at % MASK32)
    {
      hide P.SetMotion;
      for i := 0 to CHANNELS
        invariant forall j :: 0 <= j < i ==> channels[j].View() == Checked(old(channels[j].View()), t.channels[j], t.at % MASK32)
        invariant forall j :: i <= j < CHANNELS ==> channels[j].View() == old(channels[j].View())
      {
        if !t.channels[i].healthy {
          channels[i].ChangeMotion(P.Stop, t.at % MASK32);
        }
      }
    }

    /** Supervise and switch, or stop everything on a bus error. */
    method CommandAll(t: LoopInput, normal: nat, ghost p: Plant)
      requires Valid() && Complete(t) && Shaped(p) && p.ams == ams.View()
      requires forall i :: 0 <= i < CHANNELS ==> channels[i].View() == CountedOf(p, t, i)
      modifies channels, ams`useFlag, ams.motion
      ensures Valid()
      ensures forall i :: 0 <= i < CHANNELS ==> channels[i].View() == CommandedOf(p, t, normal, i)
      ensures ams.View() == AllFeedback(p.ams, p.motors, MotorsAfter(p, t, normal, CHANNELS), CHANNELS)
    {
      hide CountedOf, CommandedOf, Feedback, AllFeedback, Governed, P.SetMotion, P.Switch, P.Step, A.Ams.View, P.Channel.View;
      ghost var counted := Motors();
      FeedbackOfTurn(p, t, normal, counted);
      if t.error {
        StopAll(t.at % MASK32);
      } else {
        var wait := SuperviseAll(t, normal, p.ams, counted);
        if !wait {
          SwitchAll(t, normal, p);
        }
      }
      CommandedParts(p, t, normal, counted);
    }

    /** What comes before the commands of a turn. */
    method Prepare(t: LoopInput, last: seq<int>, readings: seq<int>) returns (ghost p: Plant)
      requires Valid() && Complete(t) && |last| == |readings| == CHANNELS
      requires forall i :: 0 <= i < CHANNELS ==> t.channels[i].delta == P.Unwrap(last[i], readings[i])
      modifies channels, ams`loaded, ams`dirty, ams`pressure
      ensures Valid() && p == old(View()).(ams := Noticed(old(ams.View()), t)) && ams.View() == p.ams
      ensures forall i :: 0 <= i < CHANNELS ==> channels[i].View() == CountedOf(p, t, i)
    {
      hide P.Entered, P.Account, P.SetMotion, A.Step, P.Unwrap, Counted;
      ghost var start := View();
      NoticeKey(t);
      NoticeJam(t);
      p := start.(ams := ams.View());
      StopEmptyFeeds(t, p);
      CountAll(t, last, readings);
    }

    /** One turn of the main loop, for all channels; `last` and `readings` are the encoders'. */
    method Turn(t: LoopInput, last: seq<int>, readings: seq<int>, normal: nat)
      requires Valid() && Complete(t) && |last| == |readings| == CHANNELS
      requires forall i :: 0 <= i < CHANNELS ==> t.channels[i].delta == P.Unwrap(last[i], readings[i])
      modifies channels, ams, ams.motion
      ensures Valid() && View() == LoopTurn(old(View()), t, normal)
    {
      hide P.Step, Checked, P.Unwrap, CountedOf, CommandedOf, AllFeedback, Noticed, P.Channel.View, A.Ams.View;
      ghost var p := Prepare(t, last, readings);
      CommandAll(t, normal, p);
      StopUnhealthy(t);
      TurnInParts(p, t, normal);
      assert Motors() == MotorsAfter(p, t, normal, CHANNELS);
    }
  }

  function CountedOf(p: Plant, t: LoopInput, i: nat): P.Motor
    requires Shaped(p) && Complete(t) && i < CHANNELS
  {
    Counted(P.Entered(p.motors[i], Seen(p, t, i)), t.channels[i])
  }

  function CommandedOf(p: Plant, t: LoopInput, normal: nat, i: nat): P.Motor
    requires Shaped(p) && Complete(t) && i < CHANNELS
  {
    var m, now: u32 := CountedOf(p, t, i), t.at % MASK32;
    if t.error then P.SetMotion(m, P.Stop, now)
    else if Supervised(p.motors[i]) then Governed(m, t.channels[i], normal, now)
    else if OthersWait(p.motors, i) then m
    else P.Switch(m, Seen(p, t, i), normal, now)
  }

  lemma TurnInParts(p: Plant, t: LoopInput, normal: nat)
    requires Shaped(p) && Complete(t)
    ensures forall i :: 0 <= i < CHANNELS ==>
              P.Step(p.motors[i], Seen(p, t, i), normal) == Checked(CommandedOf(p, t, normal, i), t.channels[i], t.at % MASK32)
  {
    hide P.Step, P.Entered, Counted, Governed, Checked, P.SetMotion, P.Switch;
    forall i: nat | i < CHANNELS
      ensures P.Step(p.motors[i], Seen(p, t, i), normal) == Checked(CommandedOf(p, t, normal, i), t.channels[i], t.at % MASK32)
    {
      StepInParts(p.motors[i], t.channels[i], Seen(p, t, i), normal);
    }
  }

  lemma FeedbackStart(s: A.State, before: seq<P.Motor>, after: seq<P.Motor>)
    requires A.Shaped(s)
    ensures AllFeedback(s, before, after, 0) == s
  {
  }

  lemma FeedbackNext(s: A.State, before: seq<P.Motor>, after: seq<P.Motor>, n: nat)
    requires A.Shaped(s) && n < |before| && n < |after| && n < CHANNELS
    ensures AllFeedback(s, before, after, n + 1) == Feedback(AllFeedback(s, before, after, n), before[n], after[n], n)
  {
  }

  function GovernedAll(before: seq<P.Motor>, t: LoopInput, normal: nat, n: nat): (after: seq<P.Motor>)
    requires |before| == CHANNELS && Complete(t) && n <= CHANNELS
    ensures |after| == n && forall i :: 0 <= i < n ==> after[i] == Governed(before[i], t.channels[i], normal, t.at % MASK32)
  {
    if n == 0 then []
    else GovernedAll(before, t, normal, n - 1) + [Governed(before[n - 1], t.channels[n - 1], normal, t.at % MASK32)]
  }

  /** Only what happens to supervised channels is fed back. */
  lemma {:induction false} FeedbackAgrees(s: A.State, before: seq<P.Motor>, after: seq<P.Motor>,
                                          was: seq<P.Motor>, became: seq<P.Motor>, n: nat)
    requires A.Shaped(s) && n <= |before| && n <= |after| && n <= |was| && n <= |became| && n <= CHANNELS
    requires forall i :: 0 <= i < n ==> before[i].position == was[i].position
    requires forall i :: 0 <= i < n && Supervised(was[i]) ==> after[i].position == became[i].position
    ensures AllFeedback(s, before, after, n) == AllFeedback(s, was, became, n)
    decreases n
  {
    if n > 0 {
      FeedbackAgrees(s, before, after, was, became, n - 1);
    }
  }

  lemma CountedStays(p: Plant, t: LoopInput, i: nat)
    requires Shaped(p) && Complete(t) && i < CHANNELS
    ensures CountedOf(p, t, i).position == p.motors[i].position
  {
  }

  lemma PositionAfter(p: Plant, t: LoopInput, normal: nat, i: nat)
    requires Shaped(p) && Complete(t) && i < CHANNELS && Supervised(p.motors[i])
    ensures var m := CountedOf(p, t, i);
            P.Step(p.motors[i], Seen(p, t, i), normal).position ==
            if t.error then m.position else Governed(m, t.channels[i], normal, t.at % MASK32).position
  {
    StepInParts(p.motors[i], t.channels[i], Seen(p, t, i), normal);
    hide P.Step, Governed, CountedOf;
  }

  /** The feedback of the whole turn is that of its supervision, none on an error. */
  lemma FeedbackOfTurn(p: Plant, t: LoopInput, normal: nat, counted: seq<P.Motor>)
    requires Shaped(p) && Complete(t) && |counted| == CHANNELS && forall i :: 0 <= i < CHANNELS ==> counted[i] == CountedOf(p, t, i)
    ensures Waits(counted) <==> Waits(p.motors)
    ensures AllFeedback(p.ams, p.motors, MotorsAfter(p, t, normal, CHANNELS), CHANNELS) ==
            if t.error then p.ams else AllFeedback(p.ams, counted, GovernedAll(counted, t, normal, CHANNELS), CHANNELS)
    ensures !Waits(p.motors) ==> AllFeedback(p.ams, p.motors, MotorsAfter(p, t, normal, CHANNELS), CHANNELS) == p.ams
  {
    hide CountedOf, P.Step, Governed, Feedback, Seen;
    var after := MotorsAfter(p, t, normal, CHANNELS);
    forall i: nat | i < CHANNELS
      ensures counted[i].position == p.motors[i].position
      ensures Supervised(p.motors[i]) && t.error ==> after[i].position == counted[i].position
      ensures Supervised(p.motors[i]) && !t.error ==> after[i].position == GovernedAll(counted, t, normal, CHANNELS)[i].position
    {
      CountedStays(p, t, i);
      if Supervised(p.motors[i]) {
        PositionAfter(p, t, normal, i);
      }
    }
    if t.error {
      FeedbackAgrees(p.ams, p.motors, after, counted, counted, CHANNELS);
      NothingEnds(p.ams, counted, CHANNELS);
    } else {
      FeedbackAgrees(p.ams, counted, GovernedAll(counted, t, normal, CHANNELS), p.motors, after, CHANNELS);
    }
    if !Waits(p.motors) {
      NoFeedback(p.ams, p.motors, after, CHANNELS);
    }
  }

  lemma {:induction false} NothingEnds(s: A.State, motors: seq<P.Motor>, n: nat)
    requires A.Shaped(s) && n <= |motors| && n <= CHANNELS
    ensures AllFeedback(s, motors, motors, n) == s
    decreases n
  {
    if n > 0 {
      NothingEnds(s, motors, n - 1);
    }
  }

  /** What the command of a turn makes of the counted channels. */
  lemma CommandedParts(p: Plant, t: LoopInput, normal: nat, counted: seq<P.Motor>)
    requires Shaped(p) && Complete(t) && |counted| == CHANNELS && forall i :: 0 <= i < CHANNELS ==> counted[i] == CountedOf(p, t, i)
    ensures forall i :: 0 <= i < CHANNELS ==>
              CommandedOf(p, t, normal, i) ==
              if t.error then P.SetMotion(counted[i], P.Stop, t.at % MASK32)
              else if Waits(p.motors) then Governed(counted[i], t.channels[i], normal, t.at % MASK32)
              else P.Switch(Governed(counted[i], t.channels[i], normal, t.at % MASK32), Seen(p, t, i), normal, t.at % MASK32)
  {
    hide P.SetMotion, P.Switch, P.SupervisePull, P.SuperviseRedetect, CountedOf, Seen;
    forall i: nat | i < CHANNELS
      ensures counted[i].position == p.motors[i].position
    {
      CountedStays(p, t, i);
    }
    forall i: nat | i < CHANNELS
      ensures Waits(p.motors) && !Supervised(p.motors[i]) ==> OthersWait(p.motors, i)
      ensures !Waits(p.motors) ==> !OthersWait(p.motors, i) && !Supervised(p.motors[i])
    {
    }
  }
}
