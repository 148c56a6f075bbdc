/**
 The lifecycle told from the calls alone: how many failures a service has in a row, whether it is exited,
 what is shown of it and whether a redeploy is pending, for every run.
 */
module LifecycleHistory {
  import opened Wrappers
  import opened HeartbeatLifecycle
  import opened RailwayStatus
  import opened WatchdogTick
  import opened OverlappingTicks
  import opened WatchdogRuns

  // ---------------------------------------------------------------- reading the calls

  /** A probe of `sid` that settled the matter: the service did not answer, or it did. */
  predicate Failing(step: Step, sid: string) {
    step.Probe? && step.sid == sid && step.base == Online && step.hb == Ping(false, Some(false))
  }

  predicate Answering(step: Step, sid: string) {
    step.Probe? && step.sid == sid && step.base == Online && step.hb == Ping(false, Some(true))
  }

  /** The deployment id of the last probe of `sid`. */
  function LastId(steps: seq<Step>, sid: string): Option<string> {
    if steps == [] then None
    else
      var last := steps[|steps| - 1];
      if last.Probe? && last.sid == sid then Some(last.dep) else LastId(steps[..|steps| - 1], sid)
  }

  /** The last call is a probe that shows another deployment than the probe before. */
  predicate ShowsNewId(steps: seq<Step>, sid: string)
    requires steps != []
  {
    var front, last := steps[..|steps| - 1], steps[|steps| - 1];
    last.Probe? && last.sid == sid && LastId(front, sid) != Some(last.dep)
  }

  /** The last call makes the failures before it count no more. */
  predicate EndsStreak(steps: seq<Step>, sid: string)
    requires steps != []
  {
    var last := steps[|steps| - 1];
    ShowsNewId(steps, sid) || Answering(last, sid) || last == Succeeded(sid)
    || (last.Probe? && last.sid == sid && last.base != Online)
  }

  /** Failed probes since the last of: a new id, an answer, an accepted deploy, a label other than online. */
  function FailStreak(steps: seq<Step>, sid: string): nat {
    if steps == [] then 0
    else
      var front, last := steps[..|steps| - 1], steps[|steps| - 1];
      (if EndsStreak(steps, sid) then 0 else FailStreak(front, sid)) + if Failing(last, sid) then 1 else 0
  }

  /** The last call makes a redeploy pending: the failure that completes a streak, or a refused deploy. */
  predicate Orders(cfg: ExitConfig, steps: seq<Step>, sid: string)
    requires steps != []
  {
    var last := steps[|steps| - 1];
    last == FailedDeploy(sid)
    || (Failing(last, sid) && last.schedule && cfg.exitRedeploy && FailStreak(steps, sid) == cfg.threshold)
  }

  /** The last call takes a pending redeploy back. */
  predicate Cancels(steps: seq<Step>, sid: string)
    requires steps != []
  {
    var last := steps[|steps| - 1];
    last == Begin(sid) || last == Succeeded(sid) || ShowsNewId(steps, sid) || Answering(last, sid)
  }

  /** A redeploy was made pending by some call, and none of the calls after it took it back. */
  ghost predicate PendingSince(cfg: ExitConfig, steps: seq<Step>, sid: string) {
    exists n :: 0 < n <= |steps| && Orders(cfg, steps[..n], sid)
                && forall m :: n < m <= |steps| ==> !Cancels(steps[..m], sid)
  }

  lemma StillPending(cfg: ExitConfig, front: seq<Step>, last: Step, sid: string)
    requires PendingSince(cfg, front, sid) && !Cancels(front + [last], sid)
    ensures PendingSince(cfg, front + [last], sid)
  {
    var steps := front + [last];
    var n :| 0 < n <= |front| && Orders(cfg, front[..n], sid)
             && forall m :: n < m <= |front| ==> !Cancels(front[..m], sid);
    assert steps[..n] == front[..n] && steps[..|steps|] == steps;
    forall m | n < m <= |steps| ensures !Cancels(steps[..m], sid) {
      if m < |steps| { assert steps[..m] == front[..m]; }
    }
  }

  lemma WasPending(cfg: ExitConfig, front: seq<Step>, last: Step, sid: string)
    requires PendingSince(cfg, front + [last], sid) && !Orders(cfg, front + [last], sid)
    ensures PendingSince(cfg, front, sid) && !Cancels(front + [last], sid)
  {
    var steps := front + [last];
    assert steps[..|steps|] == steps;
    var n :| 0 < n <= |steps| && Orders(cfg, steps[..n], sid)
             && forall m :: n < m <= |steps| ==> !Cancels(steps[..m], sid);
    assert n <= |front| && steps[..n] == front[..n];
    forall m | n < m <= |front| ensures !Cancels(front[..m], sid) {
      assert front[..m] == steps[..m];
    }
  }

  lemma PendingSinceStep(cfg: ExitConfig, steps: seq<Step>, sid: string)
    requires steps != []
    ensures PendingSince(cfg, steps, sid)
            <==> Orders(cfg, steps, sid)
                 || (!Cancels(steps, sid) && PendingSince(cfg, steps[..|steps| - 1], sid))
  {
    var front, last := steps[..|steps| - 1], steps[|steps| - 1];
    assert steps == front + [last] && steps[..|steps|] == steps;
    if Orders(cfg, steps, sid) {
      assert Orders(cfg, steps[..|steps|], sid);
    } else if PendingSince(cfg, steps, sid) {
      WasPending(cfg, front, last, sid);
    } else if PendingSince(cfg, front, sid) && !Cancels(steps, sid) {
      StillPending(cfg, front, last, sid);
    }
  }

  // ---------------------------------------------------------------- what one call does

  /** The state's view of one service: failures in a row, pending redeploy, and the id last seen. */
  ghost predicate Reads(s: Lifecycle, sid: string, fails: nat, pending: bool, id: Option<string>) {
    Fails(s, sid) == fails && Peek(s, sid) == pending
    && (if sid in s.lastDeploymentId then id == Some(s.lastDeploymentId[sid]) else id == None)
  }

  /** The failures in a row after one more call. */
  function NextFails(step: Step, sid: string, fails: nat, id: Option<string>): nat {
    if step == Succeeded(sid) then 0
    else if !step.Probe? || step.sid != sid then fails
    else if step.base != Online || Answering(step, sid) then 0
    else (if id == Some(step.dep) then fails else 0) + if Failing(step, sid) then 1 else 0
  }

  /** Whether a redeploy is pending after one more call, which leaves `fails` failures in a row. */
  predicate NextPending(cfg: ExitConfig, step: Step, sid: string, fails: nat, pending: bool, id: Option<string>) {
    if step == FailedDeploy(sid) then true
    else if step == Begin(sid) || step == Succeeded(sid) then false
    else if !step.Probe? || step.sid != sid then pending
    else (Failing(step, sid) && step.schedule && cfg.exitRedeploy && fails == cfg.threshold)
         || (!Answering(step, sid) && id == Some(step.dep) && pending)
  }

  function NextId(step: Step, sid: string, id: Option<string>): Option<string> {
    if step.Probe? && step.sid == sid then Some(step.dep) else id
  }

  lemma SyncReads(s: Lifecycle, dep: string, sid: string, fails: nat, pending: bool, id: Option<string>)
    requires Reads(s, sid, fails, pending, id)
    ensures Reads(Sync(s, sid, dep), sid, if id == Some(dep) then fails else 0, id == Some(dep) && pending, Some(dep))
  {
  }

  lemma SyncedProbeReads(cfg: ExitConfig, s: Lifecycle, step: Step, sid: string, fails: nat, pending: bool)
    requires cfg.Valid() && ExitInvariant(cfg, s, sid) && step.Probe? && step.sid == sid
    requires Reads(s, sid, fails, pending, Some(step.dep))
    ensures var n := NextFails(step, sid, fails, Some(step.dep));
            Reads(AfterProbe(cfg, s, sid, step.dep, step.base, step.hb, step.schedule), sid,
                  n, NextPending(cfg, step, sid, n, pending, Some(step.dep)), Some(step.dep))
  {
    assert Sync(s, sid, step.dep) == s;
  }

  lemma ProbeReads(cfg: ExitConfig, s: Lifecycle, step: Step, sid: string, fails: nat, pending: bool,
                   id: Option<string>)
    requires cfg.Valid() && ExitInvariant(cfg, s, sid) && step.Probe? && step.sid == sid
    requires Reads(s, sid, fails, pending, id)
    ensures var n := NextFails(step, sid, fails, id);
            Reads(AfterProbe(cfg, s, sid, step.dep, step.base, step.hb, step.schedule), sid,
                  n, NextPending(cfg, step, sid, n, pending, id), Some(step.dep))
  {
    var synced := Sync(s, sid, step.dep);
    SyncStep(cfg, s, sid, step.dep, sid);
    SyncReads(s, step.dep, sid, fails, pending, id);
    SyncedProbeReads(cfg, synced, step, sid, if id == Some(step.dep) then fails else 0,
                     id == Some(step.dep) && pending);
    assert Sync(synced, sid, step.dep) == synced;
  }

  lemma StepReads(cfg: ExitConfig, w: World, step: Step, sid: string, fails: nat, pending: bool, id: Option<string>)
    requires cfg.Valid() && ExitInvariant(cfg, w.st, sid) && Reads(w.st, sid, fails, pending, id)
    ensures var n := NextFails(step, sid, fails, id);
            Reads(Apply(cfg, w, step).st, sid, n, NextPending(cfg, step, sid, n, pending, id), NextId(step, sid, id))
  {
    if step.Probe? {
      if step.sid == sid {
        ProbeReads(cfg, w.st, step, sid, fails, pending, id);
      } else {
        ProbeElsewhere(cfg, w.st, step, sid);
      }
    }
  }

  // ---------------------------------------------------------------- every run

  lemma HistoryStep(cfg: ExitConfig, steps: seq<Step>, sid: string)
    requires steps != []
    ensures var front, last := steps[..|steps| - 1], steps[|steps| - 1];
            FailStreak(steps, sid) == NextFails(last, sid, FailStreak(front, sid), LastId(front, sid))
            && LastId(steps, sid) == NextId(last, sid, LastId(front, sid))
            && (PendingSince(cfg, steps, sid)
                <==> NextPending(cfg, last, sid, FailStreak(steps, sid), PendingSince(cfg, front, sid),
                                 LastId(front, sid)))
  {
    PendingSinceStep(cfg, steps, sid);
  }

  /**
   In every run: the stored failures are the failed probes of the streak, the service is exited exactly
   while they reach the threshold, and a redeploy is pending exactly if one was ordered and not taken back
   since.  So nothing is pending right after a probe that was answered.
   */
  lemma {:induction false} LifecycleIsHistory(cfg: ExitConfig, steps: seq<Step>, sid: string)
    requires cfg.Valid() && IsRun(cfg, steps)
    ensures var s := Run(cfg, steps).st;
            Reads(s, sid, FailStreak(steps, sid), PendingSince(cfg, steps, sid), LastId(steps, sid))
            && (IsExited(s, sid) <==> FailStreak(steps, sid) >= cfg.threshold)
            && (steps != [] && Answering(steps[|steps| - 1], sid) ==> !Peek(s, sid))
  {
    ExitedIffThreshold(cfg, steps, sid);
    if steps != [] {
      var front := steps[..|steps| - 1];
      LifecycleIsHistory(cfg, front, sid);
      ExitedIffThreshold(cfg, front, sid);
      HistoryStep(cfg, steps, sid);
      StepReads(cfg, Run(cfg, front), steps[|steps| - 1], sid,
                FailStreak(front, sid), PendingSince(cfg, front, sid), LastId(front, sid));
    }
  }

  /** What is shown after a probe: exited for a failed probe whose streak is long enough, else the label itself. */
  lemma ShownIsHistory(cfg: ExitConfig, steps: seq<Step>, probe: Step)
    requires cfg.Valid() && IsRun(cfg, steps) && probe.Probe?
    ensures EffectiveStatus(cfg, Run(cfg, steps).st, probe.sid, probe.dep, probe.base, probe.hb)
            == if Failing(probe, probe.sid) && FailStreak(steps + [probe], probe.sid) >= cfg.threshold
               then Exited else probe.base
  {
    assert (steps + [probe])[..|steps|] == steps;
    LifecycleIsHistory(cfg, steps, probe.sid);
  }

  // ---------------------------------------------------------------- overlapping ticks

  /**
   After any run of ticks, however they overlap, a row that is entered issues an exit redeploy if and only
   if exit redeploys and recovery are switched on, its deployment is up and has an id, and by the calls made
   so far a redeploy is pending.
   */
  lemma ExitRedeployIff(cfg: Config, moves: seq<Move>, w: Ticking, r: RowInput)
    requires cfg.exit.Valid() && Overlapped(cfg, IDLE, moves) == Some(w)
    ensures ExitBegan(r.row.sid) in FromStart(cfg, w.shared, r).log
            <==> cfg.heartbeatEnabled && cfg.exit.exitRedeploy && cfg.autoRecover
                 && r.row.status in {SUCCESS, SLEEPING} && r.row.depId != ""
                 && PendingSince(cfg.exit, Calls(cfg, moves), r.row.sid)
  {
    TicksRefineLifecycle(cfg, moves, w, r.row.sid);
    LifecycleIsHistory(cfg.exit, Calls(cfg, moves), r.row.sid);
    ToPingStartsNothing(cfg, w.shared, r);
  }

  lemma ToPingStartsNothing(cfg: Config, s: Shared, r: RowInput)
    ensures ExitBegan(r.row.sid) !in ToPing(cfg, s, r).log
  {
  }
}
