/**
 The printer's motion commands (`set_motion` in `src/bambu_bus_ams.cpp`), the recorded loaded
 channel (`src/main.cpp`) and the motor-side resets (`src/Motion_control.cpp`).
 */
module AmsMotion {
  import opened Bytes

  const CHANNELS: nat := 4
  const NONE: byte := 0xFF
  const PRESSURE_IDLE: nat := 0xF9C6
  const PRESSURE_JAM: nat := 0xF06F
  const PRESSURE_FEED: nat := 0x4700
  const PRESSURE_HOLD: nat := 0x2B00
  const PRESSURE_SOFT: nat := 0x1E34

  datatype Motion = Idle | SendOut | OnUse | BeforePullBack | PullBack | BeforeOnUse | StopOnUse

  datatype Command =
    | Feed(channel: byte)
    | Prepare(channel: byte, flag: byte)
    | Stop(channel: byte)
    | Use(channel: byte)
    | Withdraw(channel: byte)
    | Touch(channel: byte)
    | PullAll
    | ForgetLoaded
    | Release
    | Other

  /** How the three bytes of a motion command are read. */
  function Decode(read: byte, status: byte, flag: byte): (c: Command)
    ensures c.Feed? || c.Prepare? || c.Stop? || c.Use? || c.Withdraw? || c.Touch? ==> c.channel == read < CHANNELS
  {
    if read < CHANNELS then
      if status == 3 && flag == 0 then Feed(read)
      else if status == 9 && (flag == 0x7F || flag == 0xA5) then Prepare(read, flag)
      else if status == 7 && flag == 0 then Stop(read)
      else if status == 7 && flag == 0x7F then Use(read)
      else if status == 9 && flag == 0x3F then Withdraw(read)
      else if status == 9 then Touch(read)
      else Other
    else if read == NONE then
      if status == 3 && flag == 0 then PullAll
      else if status == 1 then ForgetLoaded
      else Release
    else Other
  }

  predicate Wellformed(c: Command) {
    c.Feed? || c.Prepare? || c.Stop? || c.Use? || c.Withdraw? || c.Touch? ==> c.channel < CHANNELS
  }

  /** `saved` is what the state log would give back after a reset. */
  datatype State = State(
    motion: seq<Motion>, now: byte, useFlag: byte, pressure: nat,
    loaded: byte, dirty: bool, saved: byte,
    waiting: seq<u32>, lastPrepare: byte, softUses: nat)

  predicate Channel(b: byte) { b < CHANNELS || b == NONE }

  predicate Shaped(s: State) { |s.motion| == |s.waiting| == CHANNELS }

  // ----- The steps -----

  /** `ams_state_set_loaded`. */
  function Load(s: State, ch: byte): State {
    if ch >= CHANNELS || s.loaded != NONE then s else s.(loaded := ch, dirty := true)
  }

  /** `ams_state_set_unloaded`. */
  function Unload(s: State, ch: byte): State {
    if s.loaded == NONE || (ch < CHANNELS && s.loaded != ch) then s else s.(loaded := NONE, dirty := true)
  }

  /** Make `ch` the active channel; the one it replaces goes idle. */
  function Activate(s: State, ch: byte): State
    requires Shaped(s) && ch < CHANNELS
  {
    if s.now == ch then s
    else if s.now < CHANNELS then
      s.(now := ch, motion := s.motion[s.now := Idle], useFlag := 0, pressure := PRESSURE_IDLE, waiting := s.waiting[s.now := 0])
    else s.(now := ch)
  }

  function HoldLimit(tpms: nat): nat { (15000 * tpms) % MASK32 }

  function ObeyFeed(s: State, ch: byte): State
    requires Shaped(s) && ch < CHANNELS
  {
    var a := Activate(s, ch);
    var u := if a.motion[ch] != SendOut then Unload(a, NONE) else a;
    u.(waiting := u.waiting[ch := 0], softUses := 0, motion := u.motion[ch := SendOut], useFlag := 2, pressure := PRESSURE_FEED)
  }

  function ObeyPrepare(s: State, ch: byte, flag: byte): State
    requires Shaped(s) && ch < CHANNELS
  {
    if s.loaded != NONE && s.loaded != ch then s.(waiting := s.waiting[ch := 0], softUses := 0)
    else
      var a := Activate(s, ch);
      Load(a.(waiting := a.waiting[ch := 0], softUses := 0, lastPrepare := flag, motion := a.motion[ch := BeforeOnUse], useFlag := 4,
              pressure := if flag == 0x7F then PRESSURE_SOFT else if a.motion[ch] == SendOut then PRESSURE_FEED else PRESSURE_HOLD), ch)
  }

  function ObeyStop(s: State, ch: byte): State
    requires Shaped(s) && ch < CHANNELS
  {
    if s.loaded != ch then s.(waiting := s.waiting[ch := 0])
    else
      var a := Activate(s, ch);
      a.(waiting := a.waiting[ch := 0], useFlag := 4,
         motion := if a.motion[ch] in {OnUse, BeforeOnUse} then a.motion[ch := StopOnUse] else a.motion,
         pressure := if a.motion[ch] == BeforeOnUse && s.lastPrepare == 0x7F then PRESSURE_SOFT else PRESSURE_HOLD)
  }

  /** The `on_use` command: a channel still feeding has to wait out the hold. */
  function ObeyUse(s: State, ch: byte, tick: u32, tpms: nat): State
    requires Shaped(s) && ch < CHANNELS
  {
    if s.loaded != NONE && s.loaded != ch then s else StartUse(Activate(s, ch), ch, tick, tpms)
  }

  function StartUse(s: State, ch: byte, tick: u32, tpms: nat): State
    requires Shaped(s) && ch < CHANNELS
  {
    var since := if s.waiting[ch] == 0 then tick else s.waiting[ch];
    if s.motion[ch] == SendOut && tpms == 0 then s.(useFlag := 4, pressure := PRESSURE_HOLD)
    else if s.motion[ch] == SendOut && (tick - since) % MASK32 < HoldLimit(tpms) then
      s.(waiting := s.waiting[ch := since], useFlag := 4, pressure := PRESSURE_HOLD)
    else
      var soft := s.lastPrepare == 0x7F && s.softUses < 5;
      Load(s.(waiting := s.waiting[ch := 0], motion := s.motion[ch := OnUse], useFlag := 4,
              softUses := if soft then s.softUses + 1 else s.softUses,
              pressure := if soft then PRESSURE_SOFT else if s.pressure != PRESSURE_JAM then PRESSURE_HOLD else s.pressure), ch)
  }

  function ObeyWithdraw(s: State, ch: byte): State
    requires Shaped(s) && ch < CHANNELS
  {
    if s.loaded != ch then s.(waiting := s.waiting[ch := 0])
    else
      var a := Activate(s, ch);
      Unload(a.(waiting := a.waiting[ch := 0], useFlag := 4, pressure := PRESSURE_HOLD,
                motion := if a.motion[ch] in {OnUse, BeforeOnUse, StopOnUse} then a.motion[ch := BeforePullBack] else a.motion), ch)
  }

  function ObeyPullAll(s: State): State
    requires Shaped(s)
  {
    if s.now >= CHANNELS then s
    else
      var pulls := s.motion[s.now] in {BeforePullBack, OnUse, BeforeOnUse, StopOnUse};
      Unload(s.(waiting := s.waiting[s.now := 0], motion := if pulls then s.motion[s.now := PullBack] else s.motion,
                useFlag := if pulls then 2 else s.useFlag, pressure := PRESSURE_FEED), s.now)
  }

  function ObeyRelease(s: State): State
    requires Shaped(s)
  {
    if s.now < CHANNELS && s.motion[s.now] in {OnUse, BeforeOnUse, StopOnUse} then s
    else Unload(s.(motion := ALL_IDLE, waiting := NO_WAIT, useFlag := 0, pressure := PRESSURE_IDLE, now := NONE), NONE)
  }

  /** One motion command at hardware tick `tick`; `tpms` is the tick rate, 0 if the timer is off. */
  function Obey(s: State, c: Command, tick: u32, tpms: nat): State
    requires Shaped(s) && Wellformed(c)
  {
    match c
    case Feed(ch) => ObeyFeed(s, ch)
    case Prepare(ch, flag) => ObeyPrepare(s, ch, flag)
    case Stop(ch) => ObeyStop(s, ch)
    case Use(ch) => ObeyUse(s, ch, tick, tpms)
    case Withdraw(ch) => ObeyWithdraw(s, ch)
    case Touch(ch) => s.(waiting := s.waiting[ch := 0], useFlag := 4, pressure := PRESSURE_HOLD)
    case PullAll => ObeyPullAll(s)
    case ForgetLoaded => if s.now < CHANNELS && s.useFlag != 4 then Unload(s, s.now) else s
    case Release => ObeyRelease(s)
    case Other => s
  }

  const ALL_IDLE: seq<Motion> := [Idle, Idle, Idle, Idle]
  const NO_WAIT: seq<u32> := [0, 0, 0, 0]

  /** What else happens between commands. */
  datatype Event =
    | Bus(command: Command)
    | PullFault(channel: byte)
    | Redetected(channel: byte)
    | KeyOpen(channel: byte)
    | JamPressure
    | Save(ok: bool)
    | Reboot

  predicate Possible(e: Event) {
    match e
    case Bus(c) => Wellformed(c)
    case PullFault(ch) => ch < CHANNELS
    case Redetected(ch) => ch < CHANNELS
    case _ => true
  }

  /** The state after a reset, from what the flash holds. */
  function Boot(saved: byte): State {
    if saved < CHANNELS
    then State(ALL_IDLE[saved := OnUse], saved, 4, PRESSURE_HOLD, saved, false, saved, NO_WAIT, 0, 0)
    else State(ALL_IDLE, NONE, 0, 0xFFFF, saved, false, saved, NO_WAIT, 0, 0)
  }

  function Step(s: State, e: Event, tick: u32, tpms: nat): State
    requires Shaped(s) && Possible(e)
  {
    match e
    case Bus(c) => Obey(s, c, tick, tpms)
    case PullFault(ch) => s.(motion := s.motion[ch := Idle])
    case Redetected(ch) => s.(motion := s.motion[ch := Idle], useFlag := 0)
    case KeyOpen(ch) => if s.loaded < CHANNELS && s.loaded == ch then Unload(s, ch) else s
    case JamPressure => s.(pressure := PRESSURE_JAM)
    case Save(ok) => if s.dirty && ok then s.(dirty := false, saved := s.loaded) else s
    case Reboot => Boot(s.saved)
  }

  // ----- What every run keeps -----

  /** Only the active channel moves, and only it can be recorded as loaded. */
  predicate OneActive(s: State) {
    && Shaped(s) && Channel(s.now) && Channel(s.loaded)
    && (forall i :: 0 <= i < CHANNELS && i != s.now ==> s.motion[i] == Idle)
    && (s.loaded != NONE ==> s.loaded == s.now)
  }

  /** A channel being fed in or drawn back is not recorded as loaded. */
  predicate LoadedIsAtRest(s: State)
    requires Shaped(s)
  {
    s.now < CHANNELS && s.motion[s.now] in {SendOut, BeforePullBack, PullBack} ==> s.loaded == NONE
  }

  /** A clean state is what a reset would restore. */
  predicate SavedUnlessDirty(s: State) { !s.dirty ==> s.saved == s.loaded }

  /** The flash held a byte that is no channel: it counts as recorded, and nothing moves. */
  predicate Stray(s: State) {
    && Shaped(s) && CHANNELS <= s.loaded < NONE && s.saved == s.loaded && !s.dirty
    && s.now == NONE && s.motion == ALL_IDLE
  }

  predicate Inv(s: State) { Stray(s) || (OneActive(s) && LoadedIsAtRest(s) && SavedUnlessDirty(s)) }

  lemma BootInv(saved: byte)
    ensures Inv(Boot(saved))
    ensures Stray(Boot(saved)) <==> !Channel(saved)
  {
  }

  /** Every command but `use` leaves a wait alone or clears it. */
  predicate WaitsKept(s: State, r: State)
    requires Shaped(s) && Shaped(r)
  {
    forall i :: 0 <= i < CHANNELS && r.waiting[i] != 0 ==>
      r.waiting[i] == s.waiting[i] && (r.motion[i] == SendOut ==> s.motion[i] == SendOut)
  }

  lemma FeedKeeps(s: State, ch: byte)
    requires Inv(s) && ch < CHANNELS
    ensures Inv(ObeyFeed(s, ch)) && WaitsKept(s, ObeyFeed(s, ch))
  {
  }

  lemma PrepareKeeps(s: State, ch: byte, flag: byte)
    requires Inv(s) && ch < CHANNELS
    ensures Inv(ObeyPrepare(s, ch, flag)) && WaitsKept(s, ObeyPrepare(s, ch, flag))
  {
  }

  lemma StopKeeps(s: State, ch: byte)
    requires Inv(s) && ch < CHANNELS
    ensures Inv(ObeyStop(s, ch)) && WaitsKept(s, ObeyStop(s, ch))
  {
  }

  lemma UseKeeps(s: State, ch: byte, tick: u32, tpms: nat)
    requires Inv(s) && ch < CHANNELS
    ensures Inv(ObeyUse(s, ch, tick, tpms))
  {
    hide HoldLimit;
    if s.loaded == NONE || s.loaded == ch {
      var a := Activate(s, ch);
      assert Inv(a) && a.now == ch;
      hide Activate;
    }
  }

  lemma WithdrawKeeps(s: State, ch: byte)
    requires Inv(s) && ch < CHANNELS
    ensures Inv(ObeyWithdraw(s, ch)) && WaitsKept(s, ObeyWithdraw(s, ch))
  {
  }

  lemma PullAllKeeps(s: State)
    requires Inv(s)
    ensures Inv(ObeyPullAll(s)) && WaitsKept(s, ObeyPullAll(s))
  {
  }

  lemma ReleaseKeeps(s: State)
    requires Inv(s)
    ensures Inv(ObeyRelease(s)) && WaitsKept(s, ObeyRelease(s))
  {
  }

  lemma ObeyKeeps(s: State, c: Command, tick: u32, tpms: nat)
    requires Inv(s) && Wellformed(c)
    ensures Inv(Obey(s, c, tick, tpms)) && (!c.Use? ==> WaitsKept(s, Obey(s, c, tick, tpms)))
  {
    hide ObeyFeed, ObeyPrepare, ObeyStop, ObeyUse, ObeyWithdraw, ObeyPullAll, ObeyRelease;
    match c
    case Feed(ch) => FeedKeeps(s, ch);
    case Prepare(ch, flag) => PrepareKeeps(s, ch, flag);
    case Stop(ch) => StopKeeps(s, ch);
    case Use(ch) => UseKeeps(s, ch, tick, tpms);
    case Withdraw(ch) => WithdrawKeeps(s, ch);
    case PullAll => PullAllKeeps(s);
    case Release => ReleaseKeeps(s);
    case _ =>
  }

  /** The invariant over one step of anything that can happen. */
  lemma StepKeeps(s: State, e: Event, tick: u32, tpms: nat)
    requires Inv(s) && Possible(e)
    ensures Inv(Step(s, e, tick, tpms))
  {
    match e
    case Bus(c) => ObeyKeeps(s, c, tick, tpms);
    case Reboot => BootInv(s.saved);
    case _ =>
  }

  datatype Timed = Timed(event: Event, at: nat)

  predicate Feasible(run: seq<Timed>) { forall t :: t in run ==> Possible(t.event) }

  function Run(s: State, run: seq<Timed>, tpms: nat): State
    requires Inv(s) && Feasible(run)
    decreases run
  {
    if run == [] then s
    else
      StepKeeps(s, run[0].event, run[0].at % MASK32, tpms);
      Run(Step(s, run[0].event, run[0].at % MASK32, tpms), run[1..], tpms)
  }

  /** Every run of commands, motor-side resets, saves and reboots, from every flash content. */
  lemma {:induction false} OneActiveChannel(s: State, run: seq<Timed>, tpms: nat)
    requires Inv(s) && Feasible(run)
    ensures Inv(Run(s, run, tpms))
    decreases run
  {
    if run != [] {
      StepKeeps(s, run[0].event, run[0].at % MASK32, tpms);
      hide Inv, Step;
      OneActiveChannel(Step(s, run[0].event, run[0].at % MASK32, tpms), run[1..], tpms);
    }
  }

  /** A stray byte stays recorded, across saves and resets, exactly until a feed or a release. */
  lemma StrayEndsIff(s: State, e: Event, tick: u32, tpms: nat)
    requires Stray(s) && Possible(e)
    ensures Stray(Step(s, e, tick, tpms)) <==> !(e.Bus? && (e.command.Feed? || e.command.Release?))
  {
  }

  predicate NeitherFeedsNorReleases(run: seq<Timed>) {
    forall t :: t in run ==> !(t.event.Bus? && (t.event.command.Feed? || t.event.command.Release?))
  }

  /** Until then no command puts any channel in use: every motion stays idle and no channel is active. */
  lemma {:induction false} StrayByteLocksOut(saved: byte, s: State, run: seq<Timed>, tpms: nat)
    requires !Channel(saved) && Stray(s) && s.saved == saved && Feasible(run) && NeitherFeedsNorReleases(run)
    ensures var r := Run(s, run, tpms); Stray(r) && r.loaded == saved && r.motion == ALL_IDLE && r.now == NONE
    decreases run
  {
    if run != [] {
      var t := run[0];
      assert t in run;
      StrayEndsIff(s, t.event, t.at % MASK32, tpms);
      StepKeeps(s, t.event, t.at % MASK32, tpms);
      StraySaved(s, t.event, t.at % MASK32, tpms);
      hide Inv, Step, Stray;
      StrayByteLocksOut(saved, Step(s, t.event, t.at % MASK32, tpms), run[1..], tpms);
    }
  }

  lemma StraySaved(s: State, e: Event, tick: u32, tpms: nat)
    requires Stray(s) && Possible(e) && Stray(Step(s, e, tick, tpms))
    ensures Step(s, e, tick, tpms).saved == s.saved
  {
  }

  /** Once saved, a reset brings the recorded channel back, active and in use. */
  lemma SavedSurvivesReset(s: State, tick: u32, tpms: nat)
    requires Inv(s)
    ensures var r := Step(Step(s, Save(true), tick, tpms), Reboot, tick, tpms);
            && r.loaded == s.loaded
            && (s.loaded < CHANNELS ==> r.now == s.loaded && r.motion == Only(r.now, OnUse) && r.useFlag == 4 && r.pressure == 0x2B00)
            && (s.loaded >= CHANNELS ==> r.motion == ALL_IDLE && r.now == NONE && r.useFlag == 0 && r.pressure == 0xFFFF)
            && !r.dirty && r.waiting == [0, 0, 0, 0]
  {
  }

  /** A save writes what is recorded exactly if something changed, and stays due exactly if the flash refuses. */
  lemma SaveIsDueUntilWritten(s: State, ok: bool, tick: u32, tpms: nat)
    requires Shaped(s)
    ensures var r := Step(s, Save(ok), tick, tpms);
            && r.dirty == (s.dirty && !ok) && r.saved == (if s.dirty && ok then s.loaded else s.saved)
            && r.loaded == s.loaded && r.motion == s.motion && r.now == s.now
  {
  }

  /** A key that opens forgets its own channel and no other, and moves nothing. */
  lemma KeyOpenForgets(s: State, ch: byte, tick: u32, tpms: nat)
    requires Shaped(s)
    ensures var r := Step(s, KeyOpen(ch), tick, tpms);
            && r.loaded == (if ch < CHANNELS && s.loaded == ch then NONE else s.loaded)
            && r.dirty == (s.dirty || r.loaded != s.loaded) && r.motion == s.motion && r.now == s.now && r.saved == s.saved
  {
  }

  /** While a channel is loaded, nothing but a feed moves the machine to another channel. */
  lemma LoadedChannelIsGuarded(s: State, c: Command, tick: u32, tpms: nat)
    requires Inv(s) && Wellformed(c) && s.loaded != NONE
    requires c.Prepare? || c.Stop? || c.Use? || c.Withdraw? || c.Touch?
    requires c.channel != s.loaded
    ensures var r := Obey(s, c, tick, tpms);
            r.motion == s.motion && r.now == s.now && r.loaded == s.loaded && r.dirty == s.dirty
  {
  }

  // ----- What each command leaves, on the bytes of the bus -----

  /** The three bytes of a motion command for this unit. */
  function Told(s: State, read: byte, status: byte, flag: byte, tick: u32, tpms: nat): State
    requires Shaped(s)
  {
    Obey(s, Decode(read, status, flag), tick, tpms)
  }

  /** One channel moves so, the others are idle. */
  function Only(ch: byte, m: Motion): seq<Motion>
    requires ch < CHANNELS
  {
    ALL_IDLE[ch := m]
  }

  lemma OnlyMoves(s: State, ch: byte, m: Motion)
    requires Shaped(s) && ch < CHANNELS && s.motion[ch] == m
    requires forall i :: 0 <= i < CHANNELS && i != ch ==> s.motion[i] == Idle
    ensures s.motion == Only(ch, m)
  {
    assert forall i :: 0 <= i < CHANNELS ==> s.motion[i] == Only(ch, m)[i];
  }

  /** A feed always wins: its channel is the only one moving, and nothing stays recorded. */
  lemma FeedTakesOver(s: State, ch: byte, tick: u32, tpms: nat)
    requires Inv(s) && ch < CHANNELS
    ensures var r := Told(s, ch, 3, 0, tick, tpms);
            && r.now == ch && r.motion == Only(ch, SendOut) && r.loaded == NONE
            && r.useFlag == 2 && r.pressure == 0x4700 && r.waiting[ch] == 0 && r.softUses == 0
            && r.dirty == (s.dirty || s.loaded != NONE)
  {
    var r := Told(s, ch, 3, 0, tick, tpms);
    FeedKeeps(s, ch);
    OnlyMoves(r, ch, SendOut);
  }

  predicate Allowed(s: State, ch: byte) { s.loaded == 0xFF || s.loaded == ch }

  /** A feeding channel still in its hold at this tick. */
  predicate Held(s: State, ch: byte, tick: u32, tpms: nat)
    requires Shaped(s) && ch < CHANNELS
  {
    s.motion[ch] == SendOut && (tpms == 0 || (if s.waiting[ch] == 0 then 0 else (tick - s.waiting[ch]) % MASK32) < HoldLimit(tpms))
  }

  /** An allowed use that is not held puts the channel in use, active and recorded; a held one leaves it feeding. */
  lemma UsePutsInUse(s: State, ch: byte, tick: u32, tpms: nat)
    requires Inv(s) && ch < CHANNELS
    ensures var r := Told(s, ch, 7, 0x7F, tick, tpms);
            && (!Allowed(s, ch) ==> r == s)
            && (Allowed(s, ch) ==> r.now == ch && r.useFlag == 4)
            && (Allowed(s, ch) && !Held(s, ch, tick, tpms) ==>
                  && r.motion == Only(ch, OnUse) && r.loaded == ch && r.waiting[ch] == 0
                  && r.dirty == (s.dirty || s.loaded == NONE))
            && (Allowed(s, ch) && Held(s, ch, tick, tpms) ==>
                  && r.motion == s.motion == Only(ch, SendOut) && r.loaded == NONE && r.dirty == s.dirty && r.pressure == 0x2B00
                  && (tpms > 0 ==> r.waiting[ch] == if s.waiting[ch] == 0 then tick else s.waiting[ch]))
  {
    hide HoldLimit;
    var r := Told(s, ch, 7, 0x7F, tick, tpms);
    UseKeeps(s, ch, tick, tpms);
    if Allowed(s, ch) {
      UseOf(s, ch, tick, tpms);
      ActiveMoves(r, ch);
    }
  }

  lemma ActiveMoves(s: State, ch: byte)
    requires Inv(s) && ch < CHANNELS && s.now == ch
    ensures s.motion == Only(ch, s.motion[ch])
  {
    OnlyMoves(s, ch, s.motion[ch]);
  }

  lemma UseOf(s: State, ch: byte, tick: u32, tpms: nat)
    requires Inv(s) && ch < CHANNELS && Allowed(s, ch)
    ensures var r := Told(s, ch, 7, 0x7F, tick, tpms);
            && Inv(r) && r.now == ch && r.useFlag == 4 && (s.motion[ch] == SendOut ==> s.now == ch && s.loaded == NONE)
            && if Held(s, ch, tick, tpms)
               then r.motion == s.motion && r.loaded == s.loaded && r.dirty == s.dirty && r.pressure == 0x2B00
                    && (tpms > 0 ==> r.waiting[ch] == if s.waiting[ch] == 0 then tick else s.waiting[ch])
               else r.motion[ch] == OnUse && r.loaded == ch && r.waiting[ch] == 0 && r.dirty == (s.dirty || s.loaded == NONE)
  {
    hide HoldLimit;
    UseKeeps(s, ch, tick, tpms);
    if s.motion[ch] == SendOut {
      HeldWaits(s, ch, tick, tpms);
    }
  }

  lemma HeldWaits(s: State, ch: byte, tick: u32, tpms: nat)
    requires Shaped(s) && ch < CHANNELS && s.motion[ch] == SendOut
    ensures var since := if s.waiting[ch] == 0 then tick else s.waiting[ch];
            Held(s, ch, tick, tpms) <==> tpms == 0 || (tick - since) % MASK32 < HoldLimit(tpms)
  {
    hide HoldLimit;
  }

  /** The pressure a use asks for: soft for the first five after a soft prepare, else a jam's stays. */
  lemma UsePressure(s: State, ch: byte, tick: u32, tpms: nat)
    requires Inv(s) && ch < CHANNELS && Allowed(s, ch) && s.now == ch && !Held(s, ch, tick, tpms)
    ensures var r := Told(s, ch, 7, 0x7F, tick, tpms);
            if s.lastPrepare == 0x7F && s.softUses < 5 then r.pressure == 0x1E34 && r.softUses == s.softUses + 1
            else r.pressure == (if s.pressure == 0xF06F then 0xF06F else 0x2B00) && r.softUses == s.softUses
  {
    hide HoldLimit;
    if s.motion[ch] == SendOut {
      HeldWaits(s, ch, tick, tpms);
    }
  }

  /**
   A use repeated after a held one is accepted if and only if the hold has passed on the tick
   counter since then; a first one at tick 0 is forgotten.
   */
  lemma RepeatedUseIff(s: State, ch: byte, first: nat, second: nat, tpms: nat)
    requires Inv(s) && ch < CHANNELS && s.motion[ch] == SendOut && s.waiting[ch] == 0 && HoldLimit(tpms) > 0 && first <= second
    ensures var r := Told(s, ch, 7, 0x7F, first % MASK32, tpms);
            && Inv(r) && r.motion == Only(ch, SendOut)
            && var t := Told(r, ch, 7, 0x7F, second % MASK32, tpms);
               if tpms > 0 && first % MASK32 != 0 && (second - first) % MASK32 >= HoldLimit(tpms)
               then t.motion == Only(ch, OnUse) && t.now == t.loaded == ch
               else t.motion == Only(ch, SendOut) && t.now == ch && t.loaded == NONE
  {
    hide HoldLimit, Told, Inv;
    FeedingIsActive(s, ch);
    InvShapes(s);
    UseOf(s, ch, first % MASK32, tpms);
    UsePutsInUse(s, ch, first % MASK32, tpms);
    var r := Told(s, ch, 7, 0x7F, first % MASK32, tpms);
    InvShapes(r);
    UseOf(r, ch, second % MASK32, tpms);
    UsePutsInUse(r, ch, second % MASK32, tpms);
    WrappedDifference(first, second);
  }

  lemma FeedingIsActive(s: State, ch: byte)
    requires Inv(s) && ch < CHANNELS && s.motion[ch] == SendOut
    ensures s.now == ch && s.loaded == NONE && Allowed(s, ch)
  {
  }

  /** An allowed prepare leaves the channel alone before use, active and recorded. */
  lemma PreparePrepares(s: State, ch: byte, flag: byte, tick: u32, tpms: nat)
    requires Inv(s) && ch < CHANNELS && flag in {0x7F, 0xA5}
    ensures var r := Told(s, ch, 9, flag, tick, tpms);
            && r.waiting[ch] == 0 && r.softUses == 0
            && (!Allowed(s, ch) ==> r.motion == s.motion && r.now == s.now && r.loaded == s.loaded && r.pressure == s.pressure)
            && (Allowed(s, ch) ==>
                  && r.motion == Only(ch, BeforeOnUse) && r.now == r.loaded == ch && r.useFlag == 4 && r.lastPrepare == flag
                  && r.dirty == (s.dirty || s.loaded == NONE)
                  && r.pressure == if flag == 0x7F then 0x1E34 else if s.motion[ch] == SendOut then 0x4700 else 0x2B00)
  {
    var r := Told(s, ch, 9, flag, tick, tpms);
    PrepareKeeps(s, ch, flag);
    if Allowed(s, ch) {
      OnlyMoves(r, ch, BeforeOnUse);
    }
  }

  /** A stop for the recorded channel stops its use and keeps it recorded; for another it moves nothing. */
  lemma StopStopsUse(s: State, ch: byte, tick: u32, tpms: nat)
    requires Inv(s) && ch < CHANNELS
    ensures var r := Told(s, ch, 7, 0, tick, tpms);
            && r.loaded == s.loaded && r.now == s.now && r.dirty == s.dirty && r.waiting[ch] == 0
            && (s.loaded == ch && s.motion[ch] in {OnUse, BeforeOnUse} ==> r.motion == Only(ch, StopOnUse))
            && (!(s.loaded == ch && s.motion[ch] in {OnUse, BeforeOnUse}) ==> r.motion == s.motion)
            && (s.loaded == ch ==>
                  r.useFlag == 4 && r.pressure == if s.motion[ch] == BeforeOnUse && s.lastPrepare == 0x7F then 0x1E34 else 0x2B00)
  {
    var r := Told(s, ch, 7, 0, tick, tpms);
    StopKeeps(s, ch);
    if s.loaded == ch {
      OnlyMoves(r, ch, r.motion[ch]);
      OnlyMoves(s, ch, s.motion[ch]);
    }
  }

  /** A withdrawal of the recorded channel in use begins its pull-back and forgets it; for another it moves nothing. */
  lemma WithdrawBeginsPullBack(s: State, ch: byte, tick: u32, tpms: nat)
    requires Inv(s) && ch < CHANNELS
    ensures var r := Told(s, ch, 9, 0x3F, tick, tpms);
            && r.now == s.now && r.waiting[ch] == 0
            && (s.loaded == ch && s.motion[ch] in {OnUse, BeforeOnUse, StopOnUse} ==> r.motion == Only(ch, BeforePullBack))
            && (!(s.loaded == ch && s.motion[ch] in {OnUse, BeforeOnUse, StopOnUse}) ==> r.motion == s.motion)
            && (if s.loaded == ch then r.loaded == NONE && r.dirty && r.useFlag == 4 && r.pressure == 0x2B00
                else r.loaded == s.loaded && r.dirty == s.dirty)
  {
    var r := Told(s, ch, 9, 0x3F, tick, tpms);
    WithdrawKeeps(s, ch);
    if s.loaded == ch {
      OnlyMoves(r, ch, r.motion[ch]);
      OnlyMoves(s, ch, s.motion[ch]);
    }
  }

  /** The pull for all pulls the active channel back if it was in use or about to, and forgets it. */
  lemma PullAllPullsBack(s: State, tick: u32, tpms: nat)
    requires Inv(s)
    ensures var r := Told(s, 0xFF, 3, 0, tick, tpms);
            && r.now == s.now
            && (s.now >= CHANNELS ==> r == s)
            && (s.now < CHANNELS ==> r.loaded == NONE && r.dirty == (s.dirty || s.loaded != NONE) && r.pressure == 0x4700)
            && (s.now < CHANNELS && s.motion[s.now] in {BeforePullBack, OnUse, BeforeOnUse, StopOnUse} ==>
                  r.motion == Only(s.now, PullBack) && r.useFlag == 2)
            && (!(s.now < CHANNELS && s.motion[s.now] in {BeforePullBack, OnUse, BeforeOnUse, StopOnUse}) ==>
                  r.motion == s.motion && r.useFlag == s.useFlag)
  {
    var r := Told(s, 0xFF, 3, 0, tick, tpms);
    PullAllKeeps(s);
    if s.now < CHANNELS {
      OnlyMoves(r, s.now, r.motion[s.now]);
    }
  }

  /** No other command asks for a pull-back. */
  lemma OnlyPullAllPullsBack(s: State, c: Command, tick: u32, tpms: nat, ch: nat)
    requires Shaped(s) && Wellformed(c) && !c.PullAll? && ch < CHANNELS && s.motion[ch] != PullBack
    ensures Shaped(Obey(s, c, tick, tpms)) && Obey(s, c, tick, tpms).motion[ch] != PullBack
  {
    hide ObeyFeed, ObeyPrepare, ObeyStop, ObeyUse, ObeyWithdraw;
    match c
    case Feed(k) => FeedsNoPullBack(s, k, ch);
    case Prepare(k, flag) => PreparesNoPullBack(s, k, flag, ch);
    case Stop(k) => StopsNoPullBack(s, k, ch);
    case Use(k) => UsesNoPullBack(s, k, tick, tpms, ch);
    case Withdraw(k) => WithdrawsNoPullBack(s, k, ch);
    case _ =>
  }

  lemma FeedsNoPullBack(s: State, k: byte, ch: nat)
    requires Shaped(s) && k < CHANNELS && ch < CHANNELS && s.motion[ch] != PullBack
    ensures Shaped(ObeyFeed(s, k)) && ObeyFeed(s, k).motion[ch] != PullBack
  {
  }

  lemma PreparesNoPullBack(s: State, k: byte, flag: byte, ch: nat)
    requires Shaped(s) && k < CHANNELS && ch < CHANNELS && s.motion[ch] != PullBack
    ensures Shaped(ObeyPrepare(s, k, flag)) && ObeyPrepare(s, k, flag).motion[ch] != PullBack
  {
  }

  lemma StopsNoPullBack(s: State, k: byte, ch: nat)
    requires Shaped(s) && k < CHANNELS && ch < CHANNELS && s.motion[ch] != PullBack
    ensures Shaped(ObeyStop(s, k)) && ObeyStop(s, k).motion[ch] != PullBack
  {
  }

  lemma WithdrawsNoPullBack(s: State, k: byte, ch: nat)
    requires Shaped(s) && k < CHANNELS && ch < CHANNELS && s.motion[ch] != PullBack
    ensures Shaped(ObeyWithdraw(s, k)) && ObeyWithdraw(s, k).motion[ch] != PullBack
  {
  }

  lemma UsesNoPullBack(s: State, k: byte, tick: u32, tpms: nat, ch: nat)
    requires Shaped(s) && k < CHANNELS && ch < CHANNELS && s.motion[ch] != PullBack
    ensures Shaped(ObeyUse(s, k, tick, tpms)) && ObeyUse(s, k, tick, tpms).motion[ch] != PullBack
  {
    hide HoldLimit, StartUse;
    if s.loaded == NONE || s.loaded == k {
      StartsNoPullBack(Activate(s, k), k, tick, tpms, ch);
    }
  }

  lemma StartsNoPullBack(s: State, k: byte, tick: u32, tpms: nat, ch: nat)
    requires Shaped(s) && k < CHANNELS && ch < CHANNELS && s.motion[ch] != PullBack
    ensures Shaped(StartUse(s, k, tick, tpms)) && StartUse(s, k, tick, tpms).motion[ch] != PullBack
  {
    hide HoldLimit;
  }

  lemma PullAllBytes(read: byte, status: byte, flag: byte)
    ensures Decode(read, status, flag).PullAll? <==> read == 0xFF && status == 3 && flag == 0
    ensures Wellformed(Decode(read, status, flag))
  {
  }

  /** A release idles every channel and forgets the recorded one, unless the active one is in use. */
  lemma ReleaseFreesAll(s: State, status: byte, flag: byte, tick: u32, tpms: nat)
    requires Inv(s) && status != 1 && !(status == 3 && flag == 0)
    ensures var r := Told(s, 0xFF, status, flag, tick, tpms);
            if s.now < CHANNELS && s.motion[s.now] in {OnUse, BeforeOnUse, StopOnUse} then r == s
            else
              && r.motion == [Idle, Idle, Idle, Idle] && r.now == r.loaded == NONE && r.useFlag == 0 && r.pressure == 0xF9C6
              && r.waiting == [0, 0, 0, 0] && r.dirty == (s.dirty || s.loaded != NONE)
  {
  }

  /** What is left moves nothing: a status 1 for all may forget the recorded channel, a status 9 sets the pressure. */
  lemma TheRestMovesNothing(s: State, read: byte, status: byte, flag: byte, tick: u32, tpms: nat)
    requires Inv(s)
    requires !(read < CHANNELS && (status, flag) in {(3, 0), (7, 0), (7, 0x7F), (9, 0x7F), (9, 0xA5), (9, 0x3F)})
    requires !(read == 0xFF && status != 1)
    ensures var r := Told(s, read, status, flag, tick, tpms);
            && r.motion == s.motion && r.now == s.now
            && r.loaded == (if read == 0xFF && s.now < CHANNELS && s.useFlag != 4 then NONE else s.loaded)
            && (r.loaded != s.loaded ==> r.dirty)
            && (read < CHANNELS && status == 9 ==> r.useFlag == 4 && r.pressure == 0x2B00 && r.waiting[read] == 0)
            && (!(read < CHANNELS && status == 9) ==> r.useFlag == s.useFlag && r.pressure == s.pressure && r.waiting == s.waiting)
  {
  }

  // ----- Only the active channel waits -----

  predicate WaitsAtActive(s: State)
    requires Shaped(s)
  {
    forall i :: 0 <= i < CHANNELS && i != s.now ==> s.waiting[i] == 0
  }

  lemma FeedMovesWait(s: State, ch: byte)
    requires Shaped(s) && ch < CHANNELS && WaitsAtActive(s)
    ensures WaitsAtActive(ObeyFeed(s, ch))
  {
  }

  lemma PrepareMovesWait(s: State, ch: byte, flag: byte)
    requires Shaped(s) && ch < CHANNELS && WaitsAtActive(s)
    ensures WaitsAtActive(ObeyPrepare(s, ch, flag))
  {
  }

  lemma StopMovesWait(s: State, ch: byte)
    requires Shaped(s) && ch < CHANNELS && WaitsAtActive(s)
    ensures WaitsAtActive(ObeyStop(s, ch))
  {
  }

  lemma UseMovesWait(s: State, ch: byte, tick: u32, tpms: nat)
    requires Shaped(s) && ch < CHANNELS && WaitsAtActive(s)
    ensures WaitsAtActive(ObeyUse(s, ch, tick, tpms))
  {
    hide HoldLimit;
  }

  lemma WithdrawMovesWait(s: State, ch: byte)
    requires Shaped(s) && ch < CHANNELS && WaitsAtActive(s)
    ensures WaitsAtActive(ObeyWithdraw(s, ch))
  {
  }

  lemma ObeyMovesWait(s: State, c: Command, tick: u32, tpms: nat)
    requires Inv(s) && Wellformed(c) && WaitsAtActive(s)
    ensures Inv(Obey(s, c, tick, tpms)) && WaitsAtActive(Obey(s, c, tick, tpms))
  {
    ObeyKeeps(s, c, tick, tpms);
    hide Inv, ObeyFeed, ObeyPrepare, ObeyStop, ObeyUse, ObeyWithdraw;
    match c
    case Feed(ch) => FeedMovesWait(s, ch);
    case Prepare(ch, flag) => PrepareMovesWait(s, ch, flag);
    case Stop(ch) => StopMovesWait(s, ch);
    case Use(ch) => UseMovesWait(s, ch, tick, tpms);
    case Withdraw(ch) => WithdrawMovesWait(s, ch);
    case _ =>
  }

  /** Over every run only the active channel can be waiting out a hold. */
  lemma {:induction false} OnlyActiveWaits(s: State, run: seq<Timed>, tpms: nat)
    requires Inv(s) && Feasible(run) && WaitsAtActive(s)
    ensures Inv(Run(s, run, tpms)) && WaitsAtActive(Run(s, run, tpms))
    decreases run
  {
    if run != [] {
      var t := run[0];
      assert t in run;
      StepKeeps(s, t.event, t.at % MASK32, tpms);
      InvShapes(s);
      if t.event.Bus? {
        ObeyMovesWait(s, t.event.command, t.at % MASK32, tpms);
      }
      var r := Step(s, t.event, t.at % MASK32, tpms);
      assert WaitsAtActive(r) by {
        hide Inv, Obey;
      }
      hide Inv, Step, WaitsAtActive;
      OnlyActiveWaits(r, run[1..], tpms);
    }
  }

  // ----- The hold after a feed, in true time -----

  /** True time of the latest feed command, given the one before the run. */
  function LastFeed(run: seq<Timed>, before: nat): nat {
    if run == [] then before
    else LastFeed(run[1..], if run[0].event.Bus? && run[0].event.command.Feed? then run[0].at else before)
  }

  predicate Ordered(run: seq<Timed>, from: nat) {
    run != [] ==> from <= run[0].at && Ordered(run[1..], run[0].at)
  }

  function EndTime(run: seq<Timed>, from: nat): nat {
    if run == [] then from else EndTime(run[1..], run[0].at)
  }

  /** A pending wait on a feeding channel began no earlier than its feed. */
  ghost predicate WaitsSince(s: State, fed: nat, clock: nat)
    requires Shaped(s)
  {
    forall i :: 0 <= i < CHANNELS && s.motion[i] == SendOut && s.waiting[i] != 0 ==> Began(s.waiting[i], fed, clock)
  }

  ghost predicate Began(tick: u32, fed: nat, clock: nat) {
    exists t: nat :: fed <= t <= clock && tick == t % MASK32
  }

  lemma StepWaits(s: State, e: Event, fed: nat, clock: nat, at: nat, tpms: nat)
    requires Inv(s) && Possible(e) && WaitsSince(s, fed, clock) && fed <= clock <= at
    ensures Inv(Step(s, e, at % MASK32, tpms))
    ensures WaitsSince(Step(s, e, at % MASK32, tpms), LastFeed([Timed(e, at)], fed), at)
  {
    StepKeeps(s, e, at % MASK32, tpms);
    var r, fed' := Step(s, e, at % MASK32, tpms), LastFeed([Timed(e, at)], fed);
    assert [Timed(e, at)][1..] == [];
    hide Step, LastFeed;
    assert fed' == if e.Bus? && e.command.Feed? then at else fed by { OneFeed(e, fed, at); }
    forall i: nat | i < CHANNELS && r.motion[i] == SendOut && r.waiting[i] != 0
      ensures Began(r.waiting[i], fed', at)
    {
      if r.waiting[i] == s.waiting[i] && s.motion[i] == SendOut {
        var t: nat :| fed <= t <= clock && s.waiting[i] == t % MASK32;
        WaitKept(s, e, i, at, tpms);
        assert fed' <= t <= at && r.waiting[i] == t % MASK32;
      } else {
        WaitSet(s, e, i, at, tpms);
        assert fed' <= at <= at && r.waiting[i] == at % MASK32;
      }
    }
  }

  lemma OneFeed(e: Event, fed: nat, at: nat)
    ensures LastFeed([Timed(e, at)], fed) == if e.Bus? && e.command.Feed? then at else fed
  {
    assert [Timed(e, at)][1..] == [];
  }

  /** A feed clears every wait it leaves on a feeding channel. */
  lemma WaitKept(s: State, e: Event, i: nat, at: nat, tpms: nat)
    requires Inv(s) && Possible(e) && i < CHANNELS
    ensures var r := Step(s, e, at % MASK32, tpms);
            Shaped(r) && (e.Bus? && e.command.Feed? && r.motion[i] == SendOut ==> r.waiting[i] == 0)
  {
    StepKeeps(s, e, at % MASK32, tpms);
  }

  lemma WaitSet(s: State, e: Event, i: nat, at: nat, tpms: nat)
    requires Inv(s) && Possible(e) && i < CHANNELS
    ensures var r := Step(s, e, at % MASK32, tpms);
            && Shaped(r)
            && (r.motion[i] == SendOut && r.waiting[i] != 0 && !(r.waiting[i] == s.waiting[i] && s.motion[i] == SendOut) ==>
                  r.waiting[i] == at % MASK32 && !(e.Bus? && e.command.Feed?))
  {
    StepKeeps(s, e, at % MASK32, tpms);
    if e.Bus? {
      if e.command.Use? {
        UseWaits(s, e.command.channel, at % MASK32, tpms, i);
      } else {
        ObeyKeeps(s, e.command, at % MASK32, tpms);
      }
      hide Obey, Inv;
    } else {
      hide Inv;
    }
  }

  lemma UseWaits(s: State, ch: byte, tick: u32, tpms: nat, i: nat)
    requires Shaped(s) && ch < CHANNELS && i < CHANNELS
    ensures var r := Obey(s, Use(ch), tick, tpms);
            && Shaped(r)
            && (r.motion[i] == SendOut && r.waiting[i] != 0 && !(r.waiting[i] == s.waiting[i] && s.motion[i] == SendOut) ==>
                  r.waiting[i] == tick)
  {
    hide HoldLimit, StartUse;
    if s.loaded == NONE || s.loaded == ch {
      StartWaits(Activate(s, ch), ch, tick, tpms, i);
    }
  }

  lemma StartWaits(s: State, ch: byte, tick: u32, tpms: nat, i: nat)
    requires Shaped(s) && ch < CHANNELS && i < CHANNELS
    ensures var r := StartUse(s, ch, tick, tpms);
            && Shaped(r)
            && (r.motion[i] == SendOut && r.waiting[i] != 0 && !(r.waiting[i] == s.waiting[i] && s.motion[i] == SendOut) ==>
                  r.waiting[i] == tick)
  {
    hide HoldLimit;
  }

  /** A use that ends a feed has seen the hold on the tick counter. */
  lemma UseLeavesFeed(s: State, ch: byte, tick: u32, tpms: nat)
    requires Inv(s) && ch < CHANNELS && s.motion[ch] == SendOut && Obey(s, Use(ch), tick, tpms).motion[ch] != SendOut
    ensures tpms > 0 && (tick - if s.waiting[ch] == 0 then tick else s.waiting[ch]) % MASK32 >= HoldLimit(tpms)
  {
    assert s.now == ch && s.loaded == NONE;
    hide Inv, HoldLimit, Load;
  }

  lemma {:induction false} RunWaits(s: State, run: seq<Timed>, fed: nat, clock: nat, tpms: nat)
    requires Inv(s) && Feasible(run) && Ordered(run, clock) && WaitsSince(s, fed, clock) && fed <= clock
    ensures Inv(Run(s, run, tpms)) && clock <= EndTime(run, clock)
    ensures LastFeed(run, fed) <= EndTime(run, clock)
    ensures WaitsSince(Run(s, run, tpms), LastFeed(run, fed), EndTime(run, clock))
    decreases run
  {
    if run != [] {
      hide Inv, Step, WaitsSince;
      var t := run[0];
      StepWaits(s, t.event, fed, clock, t.at, tpms);
      assert [t][1..] == [];
      RunWaits(Step(s, t.event, t.at % MASK32, tpms), run[1..], LastFeed([t], fed), t.at, tpms);
    }
  }

  lemma InvShapes(s: State)
    requires Inv(s)
    ensures Shaped(s)
  {
  }

  /** The hold is 15 s, cut to 32 bits of ticks. */
  lemma HoldIsFifteenSeconds(tpms: nat)
    ensures 15000 * tpms < MASK32 ==> HoldLimit(tpms) == 15000 * tpms
    ensures HoldLimit(tpms) < 0x1_0000_0000 && (15000 * tpms - HoldLimit(tpms)) % 0x1_0000_0000 == 0
  {
  }

  /**
   After any run, a `use` command takes a channel out of feeding only if the hold has passed in
   true time since the latest feed command, whatever the 32-bit tick did: 15 s, for every tick
   rate at which 15 s fit the tick range.
   */
  lemma UseWaitsOutTheHold(saved: byte, run: seq<Timed>, clock: nat, ch: byte, at: nat, tpms: nat)
    requires Feasible(run) && Ordered(run, clock) && EndTime(run, clock) <= at && ch < CHANNELS
    ensures Inv(Boot(saved))
    ensures var s := Run(Boot(saved), run, tpms);
            && Inv(s)
            && (s.motion[ch] == SendOut && Obey(s, Use(ch), at % MASK32, tpms).motion[ch] != SendOut ==>
                  && tpms > 0 && LastFeed(run, clock) + HoldLimit(tpms) <= at
                  && (15000 * tpms < MASK32 ==> LastFeed(run, clock) + 15000 * tpms <= at))
  {
    BootInv(saved);
    HoldIsFifteenSeconds(tpms);
    RunWaits(Boot(saved), run, clock, clock, tpms);
    var s, fed := Run(Boot(saved), run, tpms), LastFeed(run, clock);
    InvShapes(s);
    hide Run, LastFeed, HoldLimit, EndTime, Ordered, Obey, Inv, WaitsSince, Boot;
    if s.motion[ch] == SendOut && Obey(s, Use(ch), at % MASK32, tpms).motion[ch] != SendOut {
      UseLeavesFeed(s, ch, at % MASK32, tpms);
      WaitIsShorter(s, fed, EndTime(run, clock), ch, at);
    }
  }

  /** What the tick counter shows of a wait is no more than the true time since the feed. */
  lemma WaitIsShorter(s: State, fed: nat, clock: nat, ch: byte, at: nat)
    requires Shaped(s) && ch < CHANNELS && s.motion[ch] == SendOut && WaitsSince(s, fed, clock) && fed <= clock <= at
    ensures (at % MASK32 - if s.waiting[ch] == 0 then at % MASK32 else s.waiting[ch]) % MASK32 <= at - fed
  {
    if s.waiting[ch] != 0 {
      assert Began(s.waiting[ch], fed, clock);
      var t: nat :| fed <= t <= clock && s.waiting[ch] == t % MASK32;
      WrappedDifference(t, at);
    }
  }


  // ----- The firmware's own form -----

  class Ams {
    const motion: array<Motion>
    const waiting: array<u32>
    var now: byte
    var useFlag: byte
    var pressure: nat
    var loaded: byte
    var dirty: bool
    var saved: byte
    var lastPrepare: byte
    var softUses: nat

    ghost predicate Valid()
      reads this
    {
      motion.Length == waiting.Length == CHANNELS
    }

    ghost function View(): (s: State)
      requires Valid()
      reads this, motion, waiting
      ensures Shaped(s)
    {
      State(motion[..], now, useFlag, pressure, loaded, dirty, saved, waiting[..], lastPrepare, softUses)
    }

    /** Power-up: `ams_init`, then the boot restore of `main`. */
    constructor (flash: byte)
      ensures Valid() && View() == Boot(flash) && fresh(motion) && fresh(waiting)
    {
      motion := new Motion[CHANNELS](_ => Idle);
      waiting := new u32[CHANNELS](_ => 0);
      now, useFlag, pressure := NONE, 0, 0xFFFF;
      loaded, dirty, saved, lastPrepare, softUses := flash, false, flash, 0, 0;
      new;
      if flash < CHANNELS {
        now, useFlag, pressure := flash, 4, PRESSURE_HOLD;
        for i := 0 to CHANNELS
          modifies motion
          invariant forall k :: 0 <= k < CHANNELS ==> motion[k] == Idle
        {
          motion[i] := Idle;
        }
        motion[flash] := OnUse;
      }
      assert waiting[..] == NO_WAIT;
      assert motion[..] == Boot(flash).motion;
    }

    method SetLoaded(ch: byte)
      requires Valid()
      modifies this`loaded, this`dirty
      ensures Valid() && View() == Load(old(View()), ch)
    {
      if ch >= CHANNELS || loaded != NONE {
        return;
      }
      loaded, dirty := ch, true;
    }

    method SetUnloaded(ch: byte)
      requires Valid()
      modifies this`loaded, this`dirty
      ensures Valid() && View() == Unload(old(View()), ch)
    {
      if loaded == NONE || (ch < CHANNELS && loaded != ch) {
        return;
      }
      loaded, dirty := NONE, true;
    }

    /** The switch of the active channel, common to the accepted commands. */
    method SwitchTo(ch: byte)
      requires Valid() && ch < CHANNELS
      modifies this`now, this`useFlag, this`pressure, motion, waiting
      ensures Valid() && View() == Activate(old(View()), ch)
    {
      if now != ch {
        if now < CHANNELS {
          motion[now] := Idle;
          useFlag, pressure := 0, PRESSURE_IDLE;
          waiting[now] := 0;
        }
        now := ch;
      }
    }

    method OnFeed(ch: byte)
      requires Valid() && ch < CHANNELS
      modifies this, motion, waiting
      ensures Valid() && View() == ObeyFeed(old(View()), ch)
    {
      SwitchTo(ch);
      waiting[ch], softUses := 0, 0;
      if motion[ch] != SendOut && loaded != NONE {
        SetUnloaded(NONE);
      }
      motion[ch] := SendOut;
      useFlag, pressure := 2, PRESSURE_FEED;
    }

    method OnPrepare(ch: byte, flag: byte)
      requires Valid() && ch < CHANNELS
      modifies this, motion, waiting
      ensures Valid() && View() == ObeyPrepare(old(View()), ch, flag)
    {
      var allowed := loaded == NONE || loaded == ch;
      if allowed {
        SwitchTo(ch);
      }
      waiting[ch], softUses := 0, 0;
      if !allowed {
        return;
      }
      lastPrepare := flag;
      var prev := motion[ch];
      motion[ch] := BeforeOnUse;
      useFlag := 4;
      if flag == 0x7F {
        pressure := PRESSURE_SOFT;
      } else {
        pressure := if prev == SendOut then PRESSURE_FEED else PRESSURE_HOLD;
      }
      SetLoaded(ch);
    }

    method OnStop(ch: byte)
      requires Valid() && ch < CHANNELS
      modifies this, motion, waiting
      ensures Valid() && View() == ObeyStop(old(View()), ch)
    {
      if loaded == ch {
        SwitchTo(ch);
      }
      waiting[ch] := 0;
      if loaded != ch {
        return;
      }
      var prev := motion[ch];
      if prev == OnUse || prev == BeforeOnUse {
        motion[ch] := StopOnUse;
      }
      useFlag, pressure := 4, PRESSURE_HOLD;
      if prev == BeforeOnUse && lastPrepare == 0x7F {
        pressure := PRESSURE_SOFT;
      }
    }

    method OnUseCommand(ch: byte, tick: u32, tpms: nat)
      requires Valid() && ch < CHANNELS
      modifies this, motion, waiting
      ensures Valid() && View() == ObeyUse(old(View()), ch, tick, tpms)
    {
      if loaded != NONE && loaded != ch {
        return;
      }
      SwitchTo(ch);
      StartOnUse(ch, tick, tpms);
    }

    /** Whether a feeding channel still has to wait; the first such command starts the wait. */
    method StillHeld(ch: byte, tick: u32, tpms: nat) returns (held: bool)
      requires Valid() && ch < CHANNELS && motion[ch] == SendOut
      modifies waiting
      ensures var since := if old(waiting[ch]) == 0 then tick else old(waiting[ch]);
              && held == (tpms == 0 || (tick - since) % MASK32 < HoldLimit(tpms))
              && waiting[..] == if tpms == 0 then old(waiting[..]) else old(waiting[..])[ch := since]
    {
      hide HoldLimit;
      if tpms == 0 {
        return true;
      }
      if waiting[ch] == 0 {
        waiting[ch] := tick;
      }
      held := (tick - waiting[ch]) % MASK32 < HoldLimit(tpms);
    }

    method StartOnUse(ch: byte, tick: u32, tpms: nat)
      requires Valid() && ch < CHANNELS
      modifies this, motion, waiting
      ensures Valid() && View() == StartUse(old(View()), ch, tick, tpms)
    {
      hide HoldLimit;
      if motion[ch] == SendOut {
        var held := StillHeld(ch, tick, tpms);
        if held {
          useFlag, pressure := 4, PRESSURE_HOLD;
          return;
        }
      }
      waiting[ch] := 0;
      motion[ch] := OnUse;
      useFlag := 4;
      if pressure != PRESSURE_JAM {
        pressure := PRESSURE_HOLD;
      }
      if lastPrepare == 0x7F && softUses < 5 {
        softUses := softUses + 1;
        pressure := PRESSURE_SOFT;
      }
      assert waiting[..] == old(waiting[..])[ch := 0];
      SetLoaded(ch);
    }

    method OnWithdraw(ch: byte)
      requires Valid() && ch < CHANNELS
      modifies this, motion, waiting
      ensures Valid() && View() == ObeyWithdraw(old(View()), ch)
    {
      if loaded == ch {
        SwitchTo(ch);
      }
      waiting[ch] := 0;
      if loaded != ch {
        return;
      }
      if motion[ch] == OnUse || motion[ch] == BeforeOnUse || motion[ch] == StopOnUse {
        motion[ch] := BeforePullBack;
      }
      useFlag, pressure := 4, PRESSURE_HOLD;
      SetUnloaded(ch);
    }

    method OnPullAll()
      requires Valid()
      modifies this, motion, waiting
      ensures Valid() && View() == ObeyPullAll(old(View()))
    {
      if now < CHANNELS {
        var m := motion[now];
        waiting[now] := 0;
        if m == BeforePullBack || m == OnUse || m == BeforeOnUse || m == StopOnUse {
          motion[now] := PullBack;
          useFlag := 2;
        }
        pressure := PRESSURE_FEED;
        SetUnloaded(now);
      }
    }

    method OnRelease()
      requires Valid()
      modifies this, motion, waiting
      ensures Valid() && View() == ObeyRelease(old(View()))
    {
      if now < CHANNELS {
        var m := motion[now];
        if m == OnUse || m == BeforeOnUse || m == StopOnUse {
          return;
        }
      }
      for i := 0 to CHANNELS
        modifies motion, waiting
        invariant forall k :: 0 <= k < i ==> motion[k] == Idle && waiting[k] == 0
      {
        motion[i] := Idle;
        waiting[i] := 0;
      }
      useFlag, pressure, now := 0, PRESSURE_IDLE, NONE;
      assert motion[..] == ALL_IDLE && waiting[..] == NO_WAIT;
      SetUnloaded(NONE);
    }

    /** `set_motion`: a command for another unit is refused. */
    method SetMotion(read: byte, status: byte, flag: byte, forUs: bool, tick: u32, tpms: nat) returns (handled: bool)
      requires Valid()
      modifies this, motion, waiting
      ensures Valid() && handled == forUs
      ensures View() == if forUs then Obey(old(View()), Decode(read, status, flag), tick, tpms) else old(View())
    {
      hide ObeyFeed, ObeyPrepare, ObeyStop, ObeyUse, ObeyWithdraw, ObeyPullAll, ObeyRelease;
      if !forUs {
        return false;
      }
      handled := true;
      if read < CHANNELS {
        if status == 3 && flag == 0 {
          OnFeed(read);
        } else if status == 9 && (flag == 0x7F || flag == 0xA5) {
          OnPrepare(read, flag);
        } else if status == 7 && flag == 0 {
          OnStop(read);
        } else if status == 7 && flag == 0x7F {
          OnUseCommand(read, tick, tpms);
        } else if status == 9 && flag == 0x3F {
          OnWithdraw(read);
        } else if status == 9 {
          waiting[read] := 0;
          useFlag, pressure := 4, PRESSURE_HOLD;
        }
      } else if read == NONE {
        if status == 3 && flag == 0 {
          OnPullAll();
        } else if status == 1 {
          if now < CHANNELS && useFlag != 4 {
            SetUnloaded(now);
          }
        } else {
          OnRelease();
        }
      }
    }

    /** The last step of `latch_pull_fault`. */
    method OnPullFault(ch: byte)
      requires Valid() && ch < CHANNELS
      modifies motion
      ensures Valid() && View() == Step(old(View()), PullFault(ch), 0, 0)
    {
      if motion[ch] != Idle {
        motion[ch] := Idle;
      }
      assert motion[..] == old(motion[..])[ch := Idle];
    }

    /** The end of a re-detection. */
    method OnRedetected(ch: byte)
      requires Valid() && ch < CHANNELS
      modifies this`useFlag, motion
      ensures Valid() && View() == Step(old(View()), Redetected(ch), 0, 0)
    {
      useFlag := 0;
      if motion[ch] != Idle {
        motion[ch] := Idle;
      }
      assert motion[..] == old(motion[..])[ch := Idle];
    }

    /** `ams_state_save_run`; `ok` is what the flash write reports. */
    method SaveRun(ok: bool)
      requires Valid()
      modifies this`dirty, this`saved
      ensures Valid() && View() == Step(old(View()), Save(ok), 0, 0)
    {
      if !dirty {
        return;
      }
      if ok {
        dirty, saved := false, loaded;
      }
    }
  }
}
