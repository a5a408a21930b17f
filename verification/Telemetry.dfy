/** The extension's module state: the open unit, its operations and its profile. */
module Telemetry {
  import opened Common
  import opened Ops
  import opened Sampling
  import opened Ticks
  import opened Profiler
  import P = ProfilerStates

  const UNIT_NONE: nat := 0
  const UNIT_OTHER: nat := 5

  const PERIOD_US_MIN: int := 100
  const PERIOD_US_MAX: int := 100000
  const DEPTH_MAX: int := 256
  const AUTO_MAX_MS_MIN: int := 1000
  const AUTO_MAX_MS_MAX: int := 3600000

  function Clamp(value: int, min: int, max: int): (clamped: int)
    requires min <= max
    ensures min <= clamped <= max && (min <= value <= max ==> clamped == value)
    ensures (clamped <= value || clamped == min) && (value <= clamped || clamped == max)
  {
    if value < min then min else if value > max then max else value
  }

  /** Settings fixed at module startup. */
  datatype Config = Config(active: bool, enabled: bool, profilerEnabled: bool, autoStart: bool, autoMaxMs: nat,
                           sapiKind: nat, limits: Limits)

  ghost predicate StartedUp(c: Config) {
    AUTO_MAX_MS_MIN <= c.autoMaxMs <= AUTO_MAX_MS_MAX
  }

  datatype Unit = Unit(handle: nat, kind: nat, sampled: bool, profiling: bool, automatic: bool, adopted: bool, start: nat)

  const NO_UNIT: Unit := Unit(0, UNIT_NONE, false, false, false, false, 0)

  /** What a caller of begin asks for; period and depth default to the current settings. */
  datatype Context = Context(kind: Option<nat>, sampled: bool, profile: bool, period: int, maxDepth: int)

  /** What the world answers during one call: this process's pid, the time, and whether the timer can be armed. */
  datatype Env = Env(pid: nat, now: nat, armed: bool)

  /** What finish returns, apart from the profile itself. */
  datatype Report = Report(
    duration: nat, kind: nat, sampled: bool, profiling: bool, automatic: bool,
    operations: map<nat, Agg>, overflow: nat,
    samples: nat, dropped: nat, counters: Counters, period: nat, capped: bool,
    frameHits: nat, nodeHits: nat, frames: nat, nodes: nat)

  datatype TelemetryState = TelemetryState(pid: nat, unit: Unit, ops: OpState, profiler: P.ProfilerState, nextHandle: nat)

  function Startup(ready: bool, pid: nat): TelemetryState {
    TelemetryState(pid, NO_UNIT, Ops.Fresh(), P.Initial(ready), 0)
  }

  // -------------------------------------------------------- transitions, on values

  function ForkDetected(c: Config, s: TelemetryState, pid: nat): TelemetryState {
    if s.pid == pid then s
    else if !c.active then s.(pid := pid)
    else TelemetryState(pid, NO_UNIT, Ops.WasReset(s.ops), P.AfterFork(s.profiler), s.nextHandle)
  }

  function Profiled(p: P.ProfilerState, want: Context, duration: nat, env: Env): (P.ProfilerState, bool) {
    P.Started(p, Clamp(want.period, PERIOD_US_MIN, PERIOD_US_MAX) * 1000, Clamp(want.maxDepth, 1, DEPTH_MAX),
              duration, env.now, env.armed)
  }

  /** The profile a new unit starts with: running if it is wanted, empty in any case. */
  function NewProfile(c: Config, p: P.ProfilerState, want: Context, duration: nat, env: Env): (P.ProfilerState, bool) {
    if want.profile && want.sampled && c.profilerEnabled then Profiled(p, want, duration, env)
    else (P.WasReset(p), false)
  }

  /** Only an automatic unit gets a deadline. */
  function Duration(c: Config, automatic: bool): nat {
    if automatic then c.autoMaxMs * 1000000 else 0
  }

  /** Operations start over, under the next handle. */
  function Renewed(s: TelemetryState): TelemetryState {
    s.(ops := Ops.WasReset(s.ops), nextHandle := s.nextHandle + 1)
  }

  /** A unit under the handle last taken, with its profile. */
  function Installed(c: Config, s: TelemetryState, kind: nat, want: Context, automatic: bool, env: Env): TelemetryState {
    var (profiler, profiling) := NewProfile(c, s.profiler, want, Duration(c, automatic), env);
    s.(unit := Unit(s.nextHandle, kind, want.sampled, profiling, automatic, false, env.now), profiler := profiler)
  }

  function UnitOpened(c: Config, s: TelemetryState, kind: nat, want: Context, automatic: bool, env: Env): TelemetryState {
    Installed(c, Renewed(s), kind, want, automatic, env)
  }

  predicate Adoptable(unit: Unit) {
    unit.handle != 0 && unit.automatic && !unit.adopted
  }

  /** What becomes of the profile of an adopted unit. */
  function AdoptedProfile(c: Config, p: P.ProfilerState, profiling: bool, want: Context, env: Env): (P.ProfilerState, bool) {
    if !want.sampled || !want.profile then (P.WasReset(P.Stopped(p)), false)
    else if !profiling && c.profilerEnabled then Profiled(p, want, 0, env)
    else (p, profiling)
  }

  /** An unclaimed automatic unit is kept, with its samples when they are still wanted. */
  function UnitAdopted(c: Config, s: TelemetryState, want: Context, env: Env): TelemetryState {
    var (profiler, profiling) := AdoptedProfile(c, s.profiler, s.unit.profiling, want, env);
    s.(unit := s.unit.(adopted := true, sampled := want.sampled, kind := want.kind.UnwrapOr(s.unit.kind), profiling := profiling),
       profiler := profiler.(deadline := 0))
  }

  /** A unit still open is abandoned. */
  function UnitReplaced(c: Config, s: TelemetryState, want: Context, env: Env): TelemetryState {
    var profiler := if s.unit.handle != 0 then P.Stopped(s.profiler) else s.profiler;
    UnitOpened(c, s.(profiler := profiler), want.kind.UnwrapOr(UNIT_OTHER), want, false, env)
  }

  function OwnBegun(c: Config, s: TelemetryState, want: Context, env: Env): (TelemetryState, nat) {
    if Adoptable(s.unit) then (UnitAdopted(c, s, want, env), s.unit.handle)
    else (UnitReplaced(c, s, want, env), s.nextHandle + 1)
  }

  function UnitBegun(c: Config, s: TelemetryState, want: Context, env: Env): (TelemetryState, nat) {
    if !c.active || !c.enabled then (s, 0)
    else
      OwnBegun(c, ForkDetected(c, s, env.pid), want, env)
  }

  /** The operation types that occurred. */
  function Listed(agg: seq<Agg>): map<nat, Agg>
    requires |agg| == OP_MAX
  {
    map k: nat | OP_NONE < k < OP_MAX && agg[k].count > 0 :: agg[k]
  }

  function UnitReport(s: TelemetryState, now: nat): Report
    requires Shaped(s.ops)
  {
    var p := P.Stopped(s.profiler);
    Report(Elapsed(s.unit.start, now), s.unit.kind, s.unit.sampled, s.unit.profiling, s.unit.automatic,
           Listed(s.ops.agg), s.ops.overflow,
           p.profile.samples, p.profile.dropped, p.counters, p.period, p.capped,
           p.profile.names.hits, p.profile.tree.hits, |p.profile.names.ids|, |p.profile.tree.nodes|)
  }

  predicate Answers(c: Config, s: TelemetryState, handle: int) {
    c.active && s.unit.handle != 0 && (handle == 0 || handle == s.unit.handle)
  }

  function UnitClosed(s: TelemetryState): TelemetryState {
    TelemetryState(s.pid, NO_UNIT, Ops.WasReset(s.ops), P.WasReset(P.Stopped(s.profiler)), s.nextHandle)
  }

  function OwnFinished(c: Config, s: TelemetryState, handle: int, now: nat): (TelemetryState, Option<Report>)
    requires Shaped(s.ops)
  {
    if Answers(c, s, handle) then (UnitClosed(s), Some(UnitReport(s, now))) else (s, None)
  }

  function UnitFinished(c: Config, s: TelemetryState, handle: int, env: Env): (TelemetryState, Option<Report>)
    requires Shaped(s.ops)
  {
    OwnFinished(c, ForkDetected(c, s, env.pid), handle, env.now)
  }

  /** The profile finish attaches to its report, if it attaches one. */
  function Attached(s: TelemetryState, withProfile: bool): Option<Profile> {
    if withProfile && s.unit.profiling && s.profiler.profile.samples > 0 then Some(s.profiler.profile) else None
  }

  function RequestStarted(c: Config, s: TelemetryState, period: int, maxDepth: int, env: Env): TelemetryState {
    var mine := ForkDetected(c, s, env.pid);
    if c.active && c.enabled && c.autoStart && mine.unit.handle == 0
    then UnitOpened(c, mine, c.sapiKind, Context(None, true, true, period, maxDepth), true, env)
    else mine
  }

  function RequestEnded(s: TelemetryState): TelemetryState {
    if s.unit.handle != 0 then UnitClosed(s) else s
  }

  function OpBegun(s: TelemetryState, kind: nat, now: nat): (TelemetryState, Token)
    requires Shaped(s.ops)
  {
    if s.unit.handle != 0 then
      var (ops, token) := Ops.Begun(s.ops, kind, now);
      (s.(ops := ops), token)
    else (s, Token(kind, now, OP_NO_SLOT, s.ops.generation))
  }

  function OpEnded(s: TelemetryState, token: Token, now: nat): TelemetryState
    requires Shaped(s.ops)
  {
    if s.unit.handle != 0 then s.(ops := Ops.Ended(s.ops, token, now)) else s
  }

  // ---------------------------------------------------------------------- in place

  ghost predicate Apart(ops: OpTable, profiler: Profiler) {
    && ops !in profiler.Storage() && ops.agg as object !in profiler.Storage() && ops.stack as object !in profiler.Storage()
  }

  class Telemetry {
    const config: Config
    const profiler: Profiler
    const ops: OpTable

    var unit: Unit
    var nextHandle: nat
    var ownerPid: nat

    ghost function Parts(): set<object> {
      {profiler, ops, ops.agg, ops.stack} + profiler.Storage()
    }

    ghost predicate Valid()
      reads this, Parts()
    {
      && this !in Parts()
      && Apart(ops, profiler)
      && ops.Valid() && profiler.Valid()
      && config.limits == profiler.store.Bounds()
    }

    ghost function State(): TelemetryState
      requires Valid()
      reads this, Parts()
    {
      TelemetryState(ownerPid, unit, ops.State(), profiler.State(), nextHandle)
    }

    /** Module startup; the one setting used later is clamped here. */
    constructor (settings: Config, autoMaxMs: int, profiler: Profiler, ops: OpTable, pid: nat)
      requires ops.Valid() && profiler.Valid() && settings.limits == profiler.store.Bounds()
      requires Apart(ops, profiler)
      requires ops.State() == Ops.Fresh() && profiler.State() == P.Initial(profiler.ready)
      ensures Valid() && StartedUp(config) && config == settings.(autoMaxMs := config.autoMaxMs)
      ensures this.profiler == profiler && this.ops == ops && State() == Startup(profiler.ready, pid)
    {
      config := settings.(autoMaxMs := Clamp(autoMaxMs, AUTO_MAX_MS_MIN, AUTO_MAX_MS_MAX));
      this.profiler, this.ops := profiler, ops;
      unit, nextHandle, ownerPid := NO_UNIT, 0, pid;
    }

    // Each of the parts a call changes, with the rest of the state as it was.

    method SetUnit(next: Unit)
      requires Valid()
      modifies this`unit
      ensures Valid() && State() == old(State()).(unit := next)
    {
      unit := next;
    }

    method SetOwner(pid: nat)
      requires Valid()
      modifies this`ownerPid
      ensures Valid() && State() == old(State()).(pid := pid)
    {
      ownerPid := pid;
    }

    method NextHandle()
      requires Valid()
      modifies this`nextHandle
      ensures Valid() && State() == old(State()).(nextHandle := old(nextHandle) + 1)
    {
      nextHandle := nextHandle + 1;
    }

    method ResetOps()
      requires Valid()
      modifies ops, ops.agg, ops.stack
      ensures Valid() && State() == old(State()).(ops := Ops.WasReset(old(State()).ops))
    {
      ops.Reset();
    }

    method StopProfiler()
      requires Valid()
      modifies profiler, profiler.Storage()
      ensures Valid() && State() == old(State()).(profiler := P.Stopped(old(State()).profiler))
    {
      profiler.Stop();
    }

    method ResetProfiler()
      requires Valid()
      modifies profiler, profiler.Storage()
      ensures Valid() && State() == old(State()).(profiler := P.WasReset(old(State()).profiler))
    {
      profiler.Reset();
    }

    method ForkProfiler()
      requires Valid()
      modifies profiler, profiler.Storage()
      ensures Valid() && State() == old(State()).(profiler := P.AfterFork(old(State()).profiler))
    {
      profiler.HandleFork();
    }

    /** A forked child owns neither its parent's unit nor its timer. */
    method DetectFork(pid: nat)
      requires Valid()
      modifies this, Parts()
      ensures Valid() && State() == ForkDetected(config, old(State()), pid)
    {
      if ownerPid == pid {
        return;
      }
      SetOwner(pid);
      if !config.active {
        return;
      }
      ForkProfiler();
      SetUnit(NO_UNIT);
      ResetOps();
    }

    method StartProfile(want: Context, duration: nat, env: Env) returns (ok: bool)
      requires profiler.Valid()
      modifies profiler, profiler.Storage()
      ensures profiler.Valid() && (profiler.State(), ok) == Profiled(old(profiler.State()), want, duration, env)
    {
      var periodUs := Clamp(want.period, PERIOD_US_MIN, PERIOD_US_MAX);
      var depth := Clamp(want.maxDepth, 1, DEPTH_MAX);
      ok := profiler.Start(periodUs * 1000, depth, duration, env.now, env.armed);
    }

    method NewUnitProfile(want: Context, automatic: bool, env: Env) returns (profiling: bool)
      requires profiler.Valid()
      modifies profiler, profiler.Storage()
      ensures profiler.Valid()
      ensures (profiler.State(), profiling) == NewProfile(config, old(profiler.State()), want, Duration(config, automatic), env)
    {
      profiling := false;
      if want.profile && want.sampled && config.profilerEnabled {
        var limit := if automatic then config.autoMaxMs * 1000000 else 0;
        profiling := StartProfile(want, limit, env);
      } else {
        profiler.Reset();
      }
    }

    method OpenProfile(want: Context, automatic: bool, env: Env) returns (profiling: bool)
      requires Valid()
      modifies profiler, profiler.Storage()
      ensures var (p, running) := NewProfile(config, old(State()).profiler, want, Duration(config, automatic), env);
        Valid() && State() == old(State()).(profiler := p) && profiling == running
    {
      profiling := NewUnitProfile(want, automatic, env);
    }

    method Renew()
      requires Valid()
      modifies this`nextHandle, ops, ops.agg, ops.stack
      ensures Valid() && State() == Renewed(old(State()))
    {
      ResetOps();
      NextHandle();
    }

    method Install(kind: nat, want: Context, automatic: bool, env: Env)
      requires Valid()
      modifies this`unit, profiler, profiler.Storage()
      ensures Valid() && State() == Installed(config, old(State()), kind, want, automatic, env)
    {
      var profiling := OpenProfile(want, automatic, env);
      SetUnit(Unit(nextHandle, kind, want.sampled, profiling, automatic, false, env.now));
    }

    method UnitOpen(kind: nat, want: Context, automatic: bool, env: Env)
      requires Valid()
      modifies this, Parts()
      ensures Valid() && State() == UnitOpened(config, old(State()), kind, want, automatic, env)
    {
      Renew();
      Install(kind, want, automatic, env);
    }

    method SettleProfile(want: Context, env: Env) returns (profiling: bool)
      requires profiler.Valid()
      modifies profiler, profiler.Storage()
      ensures profiler.Valid()
      ensures (profiler.State(), profiling) == AdoptedProfile(config, old(profiler.State()), unit.profiling, want, env)
    {
      hide P.Stopped, P.WasReset, Profiled;
      profiling := unit.profiling;
      if !want.sampled || !want.profile {
        profiler.Stop();
        profiler.Reset();
        profiling := false;
      } else if !unit.profiling && config.profilerEnabled {
        profiling := StartProfile(want, 0, env);
      }
    }

    method AdoptProfile(want: Context, env: Env) returns (profiling: bool)
      requires profiler.Valid()
      modifies profiler, profiler.Storage()
      ensures profiler.Valid()
      ensures var (p, running) := AdoptedProfile(config, old(profiler.State()), unit.profiling, want, env);
        profiler.State() == p.(deadline := 0) && profiling == running
    {
      hide AdoptedProfile;
      profiling := SettleProfile(want, env);
      profiler.ClearDeadline();
    }

    method KeepProfile(want: Context, env: Env) returns (profiling: bool)
      requires Valid()
      modifies profiler, profiler.Storage()
      ensures var (p, running) := AdoptedProfile(config, old(State()).profiler, unit.profiling, want, env);
        Valid() && State() == old(State()).(profiler := p.(deadline := 0)) && profiling == running
    {
      profiling := AdoptProfile(want, env);
    }

    method Adopt(want: Context, env: Env)
      requires Valid() && Adoptable(unit)
      modifies this`unit, Parts()
      ensures Valid() && State() == UnitAdopted(config, old(State()), want, env)
    {
      var profiling := KeepProfile(want, env);
      var claimed := unit.(adopted := true, sampled := want.sampled, profiling := profiling);
      if want.kind.Some? {
        claimed := claimed.(kind := want.kind.value);
      }
      SetUnit(claimed);
    }

    /** Units do not nest: one still open is abandoned. */
    method Replace(want: Context, env: Env)
      requires Valid()
      modifies this, Parts()
      ensures Valid() && State() == UnitReplaced(config, old(State()), want, env)
    {
      if unit.handle != 0 {
        StopProfiler();
      }
      UnitOpen(want.kind.UnwrapOr(UNIT_OTHER), want, false, env);
    }

    method BeginOwn(want: Context, env: Env) returns (handle: nat)
      requires Valid()
      modifies this, Parts()
      ensures Valid() && (State(), handle) == OwnBegun(config, old(State()), want, env)
    {
      if Adoptable(unit) {
        Adopt(want, env);
        return unit.handle;
      }
      Replace(want, env);
      return unit.handle;
    }

    method Begin(want: Context, env: Env) returns (handle: nat)
      requires Valid()
      modifies this, Parts()
      ensures Valid() && (State(), handle) == UnitBegun(config, old(State()), want, env)
    {
      if !config.active || !config.enabled {
        return 0;
      }
      DetectFork(env.pid);
      handle := BeginOwn(want, env);
    }

    method ListOperations() returns (operations: map<nat, Agg>)
      requires Valid()
      ensures operations == Listed(ops.agg[..])
    {
      operations := map[];
      var index := OP_NONE + 1;
      while index < OP_MAX
        invariant OP_NONE < index <= OP_MAX
        invariant operations == map k: nat | OP_NONE < k < index && ops.agg[k].count > 0 :: ops.agg[k]
      {
        if ops.agg[index].count != 0 {
          operations := operations[index := ops.agg[index]];
        }
        index := index + 1;
      }
    }

    /** The report, taken once the profiler has stopped. */
    method MakeReport(now: nat) returns (report: Report)
      requires Valid() && !profiler.running
      ensures report == UnitReport(State(), now)
    {
      var duration := if now > unit.start then now - unit.start else 0;
      var operations := ListOperations();
      report := Report(duration, unit.kind, unit.sampled, unit.profiling, unit.automatic, operations, ops.overflow,
                       profiler.store.samples, profiler.store.dropped, profiler.counters, profiler.period, profiler.capped,
                       profiler.store.frames.hits, profiler.store.tree.hits, profiler.store.frames.count, profiler.store.tree.count);
    }

    method Close()
      requires Valid() && !profiler.running
      modifies this`unit, Parts()
      ensures Valid() && State() == UnitClosed(old(State()))
    {
      ResetProfiler();
      ResetOps();
      SetUnit(NO_UNIT);
    }

    method FinishOwn(handle: int, withProfile: bool, now: nat) returns (report: Option<Report>, ghost profile: Option<Profile>)
      requires Valid()
      modifies this`unit, Parts()
      ensures Valid() && (State(), report) == OwnFinished(config, old(State()), handle, now)
      ensures report.Some? ==> profile == Attached(old(State()), withProfile)
    {
      report, profile := None, None;
      if !config.active || unit.handle == 0 {
        return;
      }
      if handle != 0 && unit.handle != handle {
        return;
      }
      StopProfiler();
      var made := MakeReport(now);
      report := Some(made);
      profile := Attached(State(), withProfile);
      Close();
    }

    method Finish(handle: int, withProfile: bool, env: Env) returns (report: Option<Report>, ghost profile: Option<Profile>)
      requires Valid()
      modifies this, Parts()
      ensures Valid() && (State(), report) == UnitFinished(config, old(State()), handle, env)
      ensures report.Some? ==> profile == Attached(ForkDetected(config, old(State()), env.pid), withProfile)
    {
      DetectFork(env.pid);
      report, profile := FinishOwn(handle, withProfile, env.now);
    }

    method RequestStart(period: int, maxDepth: int, env: Env)
      requires Valid()
      modifies this, Parts()
      ensures Valid() && State() == RequestStarted(config, old(State()), period, maxDepth, env)
    {
      DetectFork(env.pid);
      if config.active && config.enabled && config.autoStart && unit.handle == 0 {
        UnitOpen(config.sapiKind, Context(None, true, true, period, maxDepth), true, env);
      }
    }

    method RequestEnd()
      requires Valid()
      modifies this, Parts()
      ensures Valid() && State() == RequestEnded(old(State()))
    {
      if unit.handle != 0 {
        StopProfiler();
        Close();
      }
    }

    method NoteOpBegin(kind: nat, now: nat) returns (token: Token)
      requires Valid()
      modifies Parts()
      ensures Valid() && (State(), token) == OpBegun(old(State()), kind, now)
    {
      if unit.handle != 0 {
        token := ops.Begin(kind, now);
      } else {
        token := Token(kind, now, OP_NO_SLOT, ops.generation);
      }
    }

    method NoteOpEnd(token: Token, now: nat)
      requires Valid()
      modifies Parts()
      ensures Valid() && State() == OpEnded(old(State()), token, now)
    {
      if unit.handle != 0 {
        ops.End(token, now);
      }
    }
  }
}
