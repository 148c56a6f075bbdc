/**
 Which deployment an exit redeploy is meant for.  The pending flag is read before the row's deployment
 id is synchronised, so the redeploy can be issued while a newer deployment is already shown.  Here ticks
 run one after the other; `ExitedUnderOverlap` is about overlapping ones.
 */
module ExitedDeployment {
  import opened Wrappers
  import opened HeartbeatLifecycle
  import opened RailwayStatus
  import opened WatchdogTick

  /** The lifecycle call the row's ping makes. */
  function PingStep(r: RowInput): Step {
    Probe(r.row.sid, r.row.depId, r.row.online, Ping(false, Some(r.pingOk)), true)
  }

  /** The row's ping is the one that makes the service exited and schedules its redeploy. */
  predicate RowSchedules(cfg: Config, life: Lifecycle, r: RowInput) {
    Pings(cfg, r.row) && Schedules(cfg.exit, ExitPhase(cfg, life, r), PingStep(r), r.row.sid)
  }

  /** The deployment that exited: the one shown by the row that last scheduled a redeploy of `sid`. */
  function ExitedIn(cfg: Config, steps: seq<TickStep>, sid: string): Option<string> {
    if steps == [] then None
    else
      var front, last := steps[..|steps| - 1], steps[|steps| - 1];
      if last.RowOf? && last.input.row.sid == sid
         && RowSchedules(cfg, Exec(cfg, EMPTY_STATE, front).state.lifecycle, last.input)
      then Some(last.input.row.depId) else ExitedIn(cfg, front, sid)
  }

  /** A pending redeploy is for the deployment id the lifecycle last synchronised. */
  ghost predicate FlagIsFor(life: Lifecycle, exited: Option<string>, sid: string) {
    Peek(life, sid) ==> sid in life.lastDeploymentId && exited == Some(life.lastDeploymentId[sid])
  }

  lemma ExitPhaseKeepsFlag(cfg: Config, life: Lifecycle, r: RowInput, exited: Option<string>, sid: string)
    requires FlagIsFor(life, exited, sid)
    ensures FlagIsFor(ExitPhase(cfg, life, r), exited, sid)
  {
  }

  lemma PingKeepsFlag(cfg: ExitConfig, life: Lifecycle, step: Step, exited: Option<string>, sid: string)
    requires FlagIsFor(life, exited, sid) && step.Probe?
    ensures FlagIsFor(AfterProbe(cfg, life, step.sid, step.dep, step.base, step.hb, step.schedule),
                      if Schedules(cfg, life, step, sid) then Some(step.dep) else exited, sid)
  {
    if step.sid != sid { ProbeElsewhere(cfg, life, step, sid); }
  }

  lemma {:induction false} FlagIsForExited(cfg: Config, steps: seq<TickStep>, sid: string)
    ensures FlagIsFor(Exec(cfg, EMPTY_STATE, steps).state.lifecycle, ExitedIn(cfg, steps, sid), sid)
  {
    if steps != [] {
      var front, last := steps[..|steps| - 1], steps[|steps| - 1];
      FlagIsForExited(cfg, front, sid);
      if last.RowOf? {
        var life, r := Exec(cfg, EMPTY_STATE, front).state.lifecycle, last.input;
        ExitPhaseKeepsFlag(cfg, life, r, ExitedIn(cfg, front, sid), sid);
        if Pings(cfg, r.row) {
          PingKeepsFlag(cfg.exit, ExitPhase(cfg, life, r), PingStep(r), ExitedIn(cfg, front, sid), sid);
        }
      }
    }
  }

  /**
   After any run of ticks one after the other, an exit redeploy the next row issues is for the deployment
   that exited if and only if the row shows the deployment id the lifecycle last synchronised.
   */
  lemma RedeployHitsExitedIff(cfg: Config, steps: seq<TickStep>, r: RowInput)
    requires ExitRedeployDue(cfg, Exec(cfg, EMPTY_STATE, steps).state.lifecycle, r.row)
    ensures var last := Exec(cfg, EMPTY_STATE, steps).state.lifecycle.lastDeploymentId;
            r.row.sid in last
            && (ExitedIn(cfg, steps, r.row.sid) == Some(r.row.depId) <==> r.row.depId == last[r.row.sid])
  {
    FlagIsForExited(cfg, steps, r.row.sid);
  }

  /** A healthy, probed row whose ping fails or succeeds and whose deploy calls are accepted. */
  function HealthyRow(sid: string, dep: string, pingOk: bool): RowInput {
    RowInput(Row(sid, dep, SUCCESS, Online, true), true, pingOk, 0, true, 0, 0, true, 0)
  }

  lemma FirstFailureSchedules(cfg: ExitConfig, sid: string, dep: string)
    requires cfg.exitRedeploy && cfg.threshold == 1
    ensures Peek(AfterProbe(cfg, EMPTY_LIFECYCLE, sid, dep, Online, Ping(false, Some(false)), true), sid)
    ensures Schedules(cfg, EMPTY_LIFECYCLE, Probe(sid, dep, Online, Ping(false, Some(false)), true), sid)
  {
    var s := Sync(EMPTY_LIFECYCLE, sid, dep);
    assert Fails(s, sid) == 0 && !IsExited(s, sid);
    assert FirstExit(cfg, s, sid);
  }

  /** Deployment `a` exits; by the next tick `b` is up, and is redeployed for it. */
  lemma RedeployMissesExited(cfg: Config, sid: string, a: string, b: string)
    requires cfg.heartbeatEnabled && cfg.exit.exitRedeploy && cfg.autoRecover && cfg.exit.threshold == 1
    requires a != b && b != ""
    ensures var run := [RowOf(HealthyRow(sid, a, false)), Prune({sid})];
            ExitedIn(cfg, run, sid) == Some(a)
            && ExitDeploy(sid, true) in RowStep(cfg, Exec(cfg, EMPTY_STATE, run).state, HealthyRow(sid, b, true)).log
  {
    var first := [RowOf(HealthyRow(sid, a, false))];
    var run := first + [Prune({sid})];
    assert run == [RowOf(HealthyRow(sid, a, false)), Prune({sid})];
    assert first[..0] == [] && run[..1] == first;
    var r := HealthyRow(sid, b, true);
    var life := Exec(cfg, EMPTY_STATE, first).state.lifecycle;
    FirstFailureSchedules(cfg.exit, sid, a);
    assert ExitPhase(cfg, EMPTY_LIFECYCLE, HealthyRow(sid, a, false)) == EMPTY_LIFECYCLE;
    assert Exec(cfg, EMPTY_STATE, first[..0]) == Outcome(EMPTY_STATE, []);
    assert life == RowStep(cfg, EMPTY_STATE, HealthyRow(sid, a, false)).state.lifecycle;
    assert Peek(life, sid);
    assert ExitRedeployDue(cfg, Exec(cfg, EMPTY_STATE, run).state.lifecycle, r.row);
    assert ExitLog(cfg, life, r)[0] == ExitDeploy(sid, true);
  }
}
