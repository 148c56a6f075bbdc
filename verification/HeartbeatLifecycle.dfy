/**
 The hosted watchdog's "exited" lifecycle: consecutive failed liveness probes turn an online
 service into an exited one and schedule one redeploy for the next tick.

 The four maps are kept both as a value (`Lifecycle`, with one function per operation) and as the
 object the source mutates (`HeartbeatExitState`, proved against those functions).  The main
 results are about every run of the operations, however probes and deploy calls interleave.
 */
module HeartbeatLifecycle {
  import opened Wrappers
  import opened Products

  datatype OnlineStatus = Online | Deploying | Completed | Failed | SkippedStatus | Unknown | Exited

  /** A probe as the caller hands it over: absent, or with its `skipped` flag and tri-state `ok`. */
  datatype Heartbeat = NoHeartbeat | Ping(skipped: bool, ok: Option<bool>)

  /** Environment settings, fixed for a run; the parser never yields a threshold below 1. */
  datatype ExitConfig = ExitConfig(threshold: nat, exitRedeploy: bool) {
    ghost predicate Valid() { threshold >= 1 }
  }

  datatype Lifecycle = Lifecycle(
    consecutiveFails: map<string, nat>,
    lastDeploymentId: map<string, string>,
    lifecycleExited: map<string, bool>,
    redeemOnNextTick: map<string, bool>)

  const EMPTY_LIFECYCLE := Lifecycle(map[], map[], map[], map[])

  function Fails(s: Lifecycle, sid: string): nat {
    if sid in s.consecutiveFails then s.consecutiveFails[sid] else 0
  }

  predicate IsExited(s: Lifecycle, sid: string) {
    sid in s.lifecycleExited && s.lifecycleExited[sid]
  }

  predicate Peek(s: Lifecycle, sid: string) {
    sid in s.redeemOnNextTick && s.redeemOnNextTick[sid]
  }

  function Sync(s: Lifecycle, sid: string, dep: string): Lifecycle {
    if sid in s.lastDeploymentId && s.lastDeploymentId[sid] == dep then s
    else
      Lifecycle(s.consecutiveFails - {sid}, s.lastDeploymentId[sid := dep],
                s.lifecycleExited - {sid}, s.redeemOnNextTick - {sid})
  }

  /** The probe is one that counts as a failure: the platform says online and the ping said no. */
  predicate CountsAsFailure(base: OnlineStatus, hb: Heartbeat) {
    base.Online? && hb.Ping? && !hb.skipped && hb.ok == Some(false)
  }

  predicate CountsAsSuccess(base: OnlineStatus, hb: Heartbeat) {
    base.Online? && hb.Ping? && !hb.skipped && hb.ok == Some(true)
  }

  /** The failing probe after `s` (already synced) makes the service exited for the first time. */
  predicate FirstExit(cfg: ExitConfig, s: Lifecycle, sid: string) {
    Fails(s, sid) + 1 >= cfg.threshold && !IsExited(s, sid)
  }

  function AfterProbe(cfg: ExitConfig, s: Lifecycle, sid: string, dep: string, base: OnlineStatus,
                      hb: Heartbeat, schedule: bool): Lifecycle {
    var s := Sync(s, sid, dep);
    if !base.Online? then
      s.(consecutiveFails := s.consecutiveFails - {sid}, lifecycleExited := s.lifecycleExited - {sid})
    else if CountsAsSuccess(base, hb) then
      s.(consecutiveFails := s.consecutiveFails[sid := 0],
         lifecycleExited := s.lifecycleExited - {sid},
         redeemOnNextTick := s.redeemOnNextTick - {sid})
    else if CountsAsFailure(base, hb) then
      var n := Fails(s, sid) + 1;
      s.(consecutiveFails := s.consecutiveFails[sid := n],
         lifecycleExited := if n >= cfg.threshold then s.lifecycleExited[sid := true] else s.lifecycleExited,
         redeemOnNextTick :=
           if FirstExit(cfg, s, sid) && cfg.exitRedeploy && schedule
           then s.redeemOnNextTick[sid := true] else s.redeemOnNextTick)
    else s
  }

  function EffectiveStatus(cfg: ExitConfig, s: Lifecycle, sid: string, dep: string, base: OnlineStatus,
                           hb: Heartbeat): OnlineStatus {
    if CountsAsFailure(base, hb) && Fails(Sync(s, sid, dep), sid) + 1 >= cfg.threshold then Exited else base
  }

  function ClearFlag(s: Lifecycle, sid: string): Lifecycle {
    s.(redeemOnNextTick := s.redeemOnNextTick - {sid})
  }

  function ClearService(s: Lifecycle, sid: string): Lifecycle {
    s.(consecutiveFails := s.consecutiveFails - {sid},
       lifecycleExited := s.lifecycleExited - {sid},
       redeemOnNextTick := s.redeemOnNextTick - {sid})
  }

  function Requeue(s: Lifecycle, sid: string): Lifecycle {
    s.(redeemOnNextTick := s.redeemOnNextTick[sid := true])
  }

  /** The shared state object, mutated in place by each call. */
  class HeartbeatExitState {
    var consecutiveFails: map<string, nat>
    var lastDeploymentId: map<string, string>
    var lifecycleExited: map<string, bool>
    var redeemOnNextTick: map<string, bool>

    function State(): Lifecycle
      reads this
    {
      Lifecycle(consecutiveFails, lastDeploymentId, lifecycleExited, redeemOnNextTick)
    }

    constructor ()
      ensures State() == EMPTY_LIFECYCLE
    {
      consecutiveFails, lastDeploymentId, lifecycleExited, redeemOnNextTick := map[], map[], map[], map[];
    }

    method SyncDeploymentId(sid: string, dep: string)
      modifies this
      ensures State() == Sync(old(State()), sid, dep)
    {
      if !(sid in lastDeploymentId && lastDeploymentId[sid] == dep) {
        lastDeploymentId := lastDeploymentId[sid := dep];
        consecutiveFails := consecutiveFails - {sid};
        lifecycleExited := lifecycleExited - {sid};
        redeemOnNextTick := redeemOnNextTick - {sid};
      }
    }

    method EffectiveStatusAfterProbe(cfg: ExitConfig, sid: string, dep: string, base: OnlineStatus,
                                     hb: Heartbeat, schedule: bool)
      returns (status: OnlineStatus)
      modifies this
      ensures State() == AfterProbe(cfg, old(State()), sid, dep, base, hb, schedule)
      ensures status == EffectiveStatus(cfg, old(State()), sid, dep, base, hb)
    {
      SyncDeploymentId(sid, dep);
      if !base.Online? {
        consecutiveFails := consecutiveFails - {sid};
        lifecycleExited := lifecycleExited - {sid};
        return base;
      }
      if hb.NoHeartbeat? || hb.skipped || hb.ok.None? {
        return base;
      }
      if hb.ok.value {
        consecutiveFails := consecutiveFails[sid := 0];
        lifecycleExited := lifecycleExited - {sid};
        redeemOnNextTick := redeemOnNextTick - {sid};
        return Online;
      }
      var n := (if sid in consecutiveFails then consecutiveFails[sid] else 0) + 1;
      consecutiveFails := consecutiveFails[sid := n];
      if n >= cfg.threshold {
        var firstExit := !(sid in lifecycleExited && lifecycleExited[sid]);
        lifecycleExited := lifecycleExited[sid := true];
        if firstExit && cfg.exitRedeploy && schedule {
          redeemOnNextTick := redeemOnNextTick[sid := true];
        }
        return Exited;
      }
      return Online;
    }

    method PeekRedeem(sid: string) returns (pending: bool)
      ensures pending == Peek(State(), sid)
    {
      pending := sid in redeemOnNextTick && redeemOnNextTick[sid];
    }

    method ClearRedeemFlag(sid: string)
      modifies this
      ensures State() == ClearFlag(old(State()), sid)
    {
      redeemOnNextTick := redeemOnNextTick - {sid};
    }

    method ClearForService(sid: string)
      modifies this
      ensures State() == ClearService(old(State()), sid)
    {
      consecutiveFails := consecutiveFails - {sid};
      lifecycleExited := lifecycleExited - {sid};
      redeemOnNextTick := redeemOnNextTick - {sid};
    }

    method RequeueRedeem(sid: string)
      modifies this
      ensures State() == Requeue(old(State()), sid)
    {
      redeemOnNextTick := redeemOnNextTick[sid := true];
    }
  }

  // ---------------------------------------------------------------- runs

  /**
   One call on the shared state.  A redeploy is two steps, because the deploy call is awaited between
   them: `Begin` (peek said yes, flag cleared) and then `Succeeded` or `FailedDeploy`.
   */
  datatype Step =
    | Probe(sid: string, dep: string, base: OnlineStatus, hb: Heartbeat, schedule: bool)
    | Begin(sid: string)
    | Succeeded(sid: string)
    | FailedDeploy(sid: string)

  /** The state together with the deploy calls that have been issued and not yet answered. */
  datatype World = World(st: Lifecycle, inFlight: multiset<string>)

  const INITIAL_WORLD := World(EMPTY_LIFECYCLE, multiset{})

  predicate Enabled(w: World, step: Step) {
    match step
    case Probe(_, _, _, _, _) => true
    case Begin(sid) => Peek(w.st, sid)
    case Succeeded(sid) => sid in w.inFlight
    case FailedDeploy(sid) => sid in w.inFlight
  }

  function Apply(cfg: ExitConfig, w: World, step: Step): World {
    match step
    case Probe(sid, dep, base, hb, schedule) =>
      w.(st := AfterProbe(cfg, w.st, sid, dep, base, hb, schedule))
    case Begin(sid) => World(ClearFlag(w.st, sid), w.inFlight + multiset{sid})
    case Succeeded(sid) => World(ClearService(w.st, sid), w.inFlight - multiset{sid})
    case FailedDeploy(sid) => World(Requeue(w.st, sid), w.inFlight - multiset{sid})
  }

  function Run(cfg: ExitConfig, steps: seq<Step>): World {
    if steps == [] then INITIAL_WORLD
    else Apply(cfg, Run(cfg, steps[..|steps| - 1]), steps[|steps| - 1])
  }

  predicate IsRun(cfg: ExitConfig, steps: seq<Step>) {
    steps == []
    || (IsRun(cfg, steps[..|steps| - 1])
        && Enabled(Run(cfg, steps[..|steps| - 1]), steps[|steps| - 1]))
  }

  /** Failed probes of `sid` fed to the lifecycle. */
  function FailedProbes(steps: seq<Step>, sid: string): nat {
    if steps == [] then 0
    else
      var last := steps[|steps| - 1];
      FailedProbes(steps[..|steps| - 1], sid)
      + if last.Probe? && last.sid == sid && CountsAsFailure(last.base, last.hb) then 1 else 0
  }

  /** Exit redeploys of `sid` that the platform accepted. */
  function Successes(steps: seq<Step>, sid: string): nat {
    if steps == [] then 0
    else
      var last := steps[|steps| - 1];
      Successes(steps[..|steps| - 1], sid) + if last == Succeeded(sid) then 1 else 0
  }

  /** The step schedules a redeploy of `sid`: a first exit seen by a caller that may schedule. */
  predicate Schedules(cfg: ExitConfig, s: Lifecycle, step: Step, sid: string) {
    step.Probe? && step.sid == sid && CountsAsFailure(step.base, step.hb)
    && FirstExit(cfg, Sync(s, sid, step.dep), sid) && cfg.exitRedeploy && step.schedule
  }

  function ScheduledExits(cfg: ExitConfig, steps: seq<Step>, sid: string): nat {
    if steps == [] then 0
    else
      var front := steps[..|steps| - 1];
      ScheduledExits(cfg, front, sid)
      + if Schedules(cfg, Run(cfg, front).st, steps[|steps| - 1], sid) then 1 else 0
  }

  ghost predicate ExitInvariant(cfg: ExitConfig, s: Lifecycle, sid: string) {
    IsExited(s, sid) <==> Fails(s, sid) >= cfg.threshold
  }

  /** Failures already spent on the next exit; none once the service is exited. */
  function Credit(s: Lifecycle, sid: string): nat {
    if IsExited(s, sid) then 0 else Fails(s, sid)
  }

  /** Redeploys of `sid` still owed: unanswered calls, and one more while the flag is set. */
  function Owed(w: World, sid: string): nat {
    w.inFlight[sid] + if Peek(w.st, sid) then 1 else 0
  }

  lemma SyncStep(cfg: ExitConfig, s: Lifecycle, id: string, dep: string, sid: string)
    requires cfg.Valid() && ExitInvariant(cfg, s, sid)
    ensures var s' := Sync(s, id, dep);
            ExitInvariant(cfg, s', sid) && Credit(s', sid) <= Credit(s, sid)
            && (Peek(s', sid) ==> Peek(s, sid))
  {
  }

  /** What the lifecycle says about one service. */
  predicate SameFor(s: Lifecycle, s': Lifecycle, sid: string) {
    Fails(s', sid) == Fails(s, sid) && IsExited(s', sid) == IsExited(s, sid) && Peek(s', sid) == Peek(s, sid)
  }

  lemma SyncElsewhere(s: Lifecycle, id: string, dep: string, sid: string)
    requires id != sid
    ensures SameFor(s, Sync(s, id, dep), sid)
  {
  }

  /** A probe of another service changes nothing about this one. */
  lemma ProbeElsewhere(cfg: ExitConfig, s: Lifecycle, step: Step, sid: string)
    requires step.Probe? && step.sid != sid
    ensures SameFor(s, AfterProbe(cfg, s, step.sid, step.dep, step.base, step.hb, step.schedule), sid)
  {
    var s1 := Sync(s, step.sid, step.dep);
    SyncElsewhere(s, step.sid, step.dep, sid);
    SyncedProbeElsewhere(cfg, s1, step, sid);
  }

  /** The same once the deployment id is synchronised. */
  lemma SyncedProbeElsewhere(cfg: ExitConfig, s: Lifecycle, step: Step, sid: string)
    requires step.Probe? && step.sid != sid && Sync(s, step.sid, step.dep) == s
    ensures SameFor(s, AfterProbe(cfg, s, step.sid, step.dep, step.base, step.hb, step.schedule), sid)
  {
    if CountsAsFailure(step.base, step.hb) {
      FailureElsewhere(s, step.sid, Fails(s, step.sid) + 1, sid);
    }
  }

  lemma FailureElsewhere(s: Lifecycle, of: string, n: nat, sid: string)
    requires of != sid
    ensures SameFor(s, s.(consecutiveFails := s.consecutiveFails[of := n]), sid)
    ensures SameFor(s, s.(lifecycleExited := s.lifecycleExited[of := true]), sid)
    ensures SameFor(s, s.(redeemOnNextTick := s.redeemOnNextTick[of := true]), sid)
  {
  }

  /** A probe of the service itself, its deployment id already synchronised. */
  lemma SyncedProbeStep(cfg: ExitConfig, s: Lifecycle, step: Step)
    requires cfg.Valid() && ExitInvariant(cfg, s, step.sid) && step.Probe? && Sync(s, step.sid, step.dep) == s
    ensures var s' := AfterProbe(cfg, s, step.sid, step.dep, step.base, step.hb, step.schedule);
            ExitInvariant(cfg, s', step.sid)
            && (if Schedules(cfg, s, step, step.sid) then cfg.threshold else 0) + Credit(s', step.sid)
               <= Credit(s, step.sid) + (if CountsAsFailure(step.base, step.hb) then 1 else 0)
            && (Peek(s', step.sid) ==> Peek(s, step.sid) || Schedules(cfg, s, step, step.sid))
  {
  }

  /** What one probe does to a service: the invariant survives, and a scheduled exit uses up the credit. */
  lemma ProbeStep(cfg: ExitConfig, s: Lifecycle, step: Step, sid: string)
    requires cfg.Valid() && ExitInvariant(cfg, s, sid) && step.Probe?
    ensures var s' := AfterProbe(cfg, s, step.sid, step.dep, step.base, step.hb, step.schedule);
            ExitInvariant(cfg, s', sid)
            && (if Schedules(cfg, s, step, sid) then cfg.threshold else 0) + Credit(s', sid)
               <= Credit(s, sid) + (if step.sid == sid && CountsAsFailure(step.base, step.hb) then 1 else 0)
            && (Peek(s', sid) ==> Peek(s, sid) || Schedules(cfg, s, step, sid))
  {
    if step.sid == sid {
      SyncStep(cfg, s, sid, step.dep, sid);
      SyncedProbeStep(cfg, Sync(s, sid, step.dep), step);
    } else {
      ProbeElsewhere(cfg, s, step, sid);
    }
  }

  lemma DeployStep(cfg: ExitConfig, w: World, step: Step, sid: string)
    requires cfg.Valid() && ExitInvariant(cfg, w.st, sid) && Enabled(w, step) && !step.Probe?
    ensures var w' := Apply(cfg, w, step);
            ExitInvariant(cfg, w'.st, sid) && Credit(w'.st, sid) <= Credit(w.st, sid)
            && Owed(w', sid) + (if step == Succeeded(sid) then 1 else 0) <= Owed(w, sid)
  {
  }

  /** A service is exited exactly while its consecutive failures have reached the threshold. */
  lemma {:induction false} ExitedIffThreshold(cfg: ExitConfig, steps: seq<Step>, sid: string)
    requires cfg.Valid() && IsRun(cfg, steps)
    ensures ExitInvariant(cfg, Run(cfg, steps).st, sid)
  {
    if steps != [] {
      var front, last := steps[..|steps| - 1], steps[|steps| - 1];
      ExitedIffThreshold(cfg, front, sid);
      var w := Run(cfg, front);
      if last.Probe? { ProbeStep(cfg, w.st, last, sid); } else { DeployStep(cfg, w, last, sid); }
    }
  }

  /**
   What is shown agrees with the lifecycle exactly on conclusive failures: a service that is exited
   after a probe is online for the platform and did not answer, and it is shown as exited only if the
   probe itself failed; after a skipped or inconclusive one it is shown as online.
   */
  lemma ShownExitedIff(cfg: ExitConfig, steps: seq<Step>, sid: string, dep: string, base: OnlineStatus, hb: Heartbeat,
                       schedule: bool)
    requires cfg.Valid() && IsRun(cfg, steps) && !base.Exited?
    ensures var s := Run(cfg, steps).st;
            var exited := IsExited(AfterProbe(cfg, s, sid, dep, base, hb, schedule), sid);
            (EffectiveStatus(cfg, s, sid, dep, base, hb).Exited? <==> exited && CountsAsFailure(base, hb))
            && (exited ==> base.Online? && !CountsAsSuccess(base, hb))
  {
    ExitedIffThreshold(cfg, steps, sid);
    ProbeStep(cfg, Run(cfg, steps).st, Probe(sid, dep, base, hb, schedule), sid);
  }

  /** Every scheduled exit has consumed `threshold` failed probes of its own. */
  lemma {:induction false} ExitsArePaidFor(cfg: ExitConfig, steps: seq<Step>, sid: string)
    requires cfg.Valid() && IsRun(cfg, steps)
    ensures Times(cfg.threshold, ScheduledExits(cfg, steps, sid)) + Credit(Run(cfg, steps).st, sid)
            <= FailedProbes(steps, sid)
  {
    if steps != [] {
      var front, last := steps[..|steps| - 1], steps[|steps| - 1];
      ExitsArePaidFor(cfg, front, sid);
      ExitedIffThreshold(cfg, front, sid);
      var w := Run(cfg, front);
      if last.Probe? { ProbeStep(cfg, w.st, last, sid); } else { DeployStep(cfg, w, last, sid); }
    }
  }

  /** Accepted, unanswered and pending redeploys together never exceed the scheduled exits. */
  lemma {:induction false} RedeploysWereScheduled(cfg: ExitConfig, steps: seq<Step>, sid: string)
    requires cfg.Valid() && IsRun(cfg, steps)
    ensures Successes(steps, sid) + Owed(Run(cfg, steps), sid) <= ScheduledExits(cfg, steps, sid)
  {
    if steps != [] {
      var front, last := steps[..|steps| - 1], steps[|steps| - 1];
      RedeploysWereScheduled(cfg, front, sid);
      ExitedIffThreshold(cfg, front, sid);
      var w := Run(cfg, front);
      if last.Probe? { ProbeStep(cfg, w.st, last, sid); } else { DeployStep(cfg, w, last, sid); }
    }
  }

  /** Redeploys of `sid` that succeeded, are in flight or are pending. */
  function Redeploys(cfg: ExitConfig, steps: seq<Step>, sid: string): nat {
    Successes(steps, sid) + Owed(Run(cfg, steps), sid)
  }

  /**
   The amortised bound: in any run, with any number of deploy calls in flight and any caller sharing
   the state, `threshold` failed probes were spent on every redeploy that succeeded, is in flight or
   is pending.
   */
  lemma ExitRedeployBound(cfg: ExitConfig, steps: seq<Step>, sid: string)
    requires cfg.Valid() && IsRun(cfg, steps)
    ensures cfg.threshold * Redeploys(cfg, steps, sid) <= FailedProbes(steps, sid)
  {
    ExitsArePaidFor(cfg, steps, sid);
    RedeploysWereScheduled(cfg, steps, sid);
    TimesBound(cfg.threshold, Redeploys(cfg, steps, sid),
               ScheduledExits(cfg, steps, sid), FailedProbes(steps, sid));
  }

  // ---------------------------------------------------------------- the bound is sharp

  lemma Extend(cfg: ExitConfig, steps: seq<Step>, step: Step, sid: string)
    ensures var longer := steps + [step];
            Run(cfg, longer) == Apply(cfg, Run(cfg, steps), step)
            && (IsRun(cfg, longer) <==> IsRun(cfg, steps) && Enabled(Run(cfg, steps), step))
            && Successes(longer, sid) == Successes(steps, sid) + (if step == Succeeded(sid) then 1 else 0)
            && FailedProbes(longer, sid) == FailedProbes(steps, sid)
               + if step.Probe? && step.sid == sid && CountsAsFailure(step.base, step.hb) then 1 else 0
  {
    assert (steps + [step])[..|steps|] == steps;
  }

  /** `k` rounds of "fail `threshold` probes, redeploy", then `n` more failed probes. */
  function Rounds(cfg: ExitConfig, sid: string, dep: string, k: nat, n: nat): seq<Step>
    decreases k, n
  {
    if n > 0 then
      Rounds(cfg, sid, dep, k, n - 1) + [Probe(sid, dep, Online, Ping(false, Some(false)), true)]
    else if k > 0 then
      Rounds(cfg, sid, dep, k - 1, cfg.threshold) + [Begin(sid)] + [Succeeded(sid)]
    else []
  }

  predicate AfterFailures(cfg: ExitConfig, s: Lifecycle, sid: string, dep: string, n: nat) {
    Fails(s, sid) == n && IsExited(s, sid) == (n >= cfg.threshold) && Peek(s, sid) == (n >= cfg.threshold)
    && (n > 0 ==> sid in s.lastDeploymentId && s.lastDeploymentId[sid] == dep)
  }

  lemma OneMoreFailure(cfg: ExitConfig, s: Lifecycle, sid: string, dep: string, n: nat)
    requires cfg.exitRedeploy && n < cfg.threshold && AfterFailures(cfg, s, sid, dep, n)
    ensures AfterFailures(cfg, AfterProbe(cfg, s, sid, dep, Online, Ping(false, Some(false)), true), sid, dep, n + 1)
  {
    assert Fails(Sync(s, sid, dep), sid) == n;
  }

  lemma OneRedeploy(cfg: ExitConfig, s: Lifecycle, sid: string, dep: string)
    requires cfg.Valid() && AfterFailures(cfg, s, sid, dep, cfg.threshold)
    ensures Peek(s, sid) && AfterFailures(cfg, ClearService(ClearFlag(s, sid), sid), sid, dep, 0)
  {
  }

  /** `steps` is a run with `k` redeploys of `sid` paid for exactly, and `n` failed probes on top. */
  ghost predicate Sharp(cfg: ExitConfig, steps: seq<Step>, sid: string, dep: string, k: nat, n: nat) {
    IsRun(cfg, steps) && Successes(steps, sid) == k
    && FailedProbes(steps, sid) == Times(cfg.threshold, k) + n
    && AfterFailures(cfg, Run(cfg, steps).st, sid, dep, n)
  }

  lemma SharpFailure(cfg: ExitConfig, steps: seq<Step>, sid: string, dep: string, k: nat, n: nat)
    requires cfg.exitRedeploy && n < cfg.threshold && Sharp(cfg, steps, sid, dep, k, n)
    ensures Sharp(cfg, steps + [Probe(sid, dep, Online, Ping(false, Some(false)), true)], sid, dep, k, n + 1)
  {
    OneMoreFailure(cfg, Run(cfg, steps).st, sid, dep, n);
    Extend(cfg, steps, Probe(sid, dep, Online, Ping(false, Some(false)), true), sid);
  }

  lemma SharpRedeploy(cfg: ExitConfig, steps: seq<Step>, sid: string, dep: string, k: nat)
    requires cfg.Valid() && Sharp(cfg, steps, sid, dep, k, cfg.threshold)
    ensures Sharp(cfg, steps + [Begin(sid)] + [Succeeded(sid)], sid, dep, k + 1, 0)
  {
    OneRedeploy(cfg, Run(cfg, steps).st, sid, dep);
    Extend(cfg, steps, Begin(sid), sid);
    Extend(cfg, steps + [Begin(sid)], Succeeded(sid), sid);
  }

  lemma SharpStart(cfg: ExitConfig, sid: string, dep: string)
    requires cfg.Valid()
    ensures Sharp(cfg, [], sid, dep, 0, 0)
  {
  }

  /** No smaller number of failed probes will do: `k` redeploys can cost exactly `threshold * k`. */
  lemma {:induction false} BoundIsSharp(cfg: ExitConfig, sid: string, dep: string, k: nat, n: nat)
    requires cfg.Valid() && cfg.exitRedeploy && n <= cfg.threshold
    ensures Sharp(cfg, Rounds(cfg, sid, dep, k, n), sid, dep, k, n)
    decreases k, n
  {
    if n == 0 && k == 0 {
      SharpStart(cfg, sid, dep);
    } else if n > 0 {
      BoundIsSharp(cfg, sid, dep, k, n - 1);
      SharpFailure(cfg, Rounds(cfg, sid, dep, k, n - 1), sid, dep, k, n - 1);
    } else {
      BoundIsSharp(cfg, sid, dep, k - 1, cfg.threshold);
      SharpRedeploy(cfg, Rounds(cfg, sid, dep, k - 1, cfg.threshold), sid, dep, k - 1);
    }
  }
}
