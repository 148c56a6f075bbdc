/**
 Which deployment an exit redeploy is meant for when ticks overlap: a refused call can put the pending
 flag back after another tick has synchronised another deployment id.
 */
module ExitedUnderOverlap {
  import opened Wrappers
  import opened HeartbeatLifecycle
  import opened RailwayStatus
  import opened WatchdogTick
  import opened OverlappingTicks
  import opened WatchdogRuns

  // ---------------------------------------------------------------- on the lifecycle's calls

  /** The deployment whose failed probe last scheduled a redeploy of `sid`. */
  function ExitedBy(cfg: ExitConfig, steps: seq<Step>, sid: string): Option<string> {
    if steps == [] then None
    else
      var front, last := steps[..|steps| - 1], steps[|steps| - 1];
      if Schedules(cfg, Run(cfg, front).st, last, sid) then Some(last.dep) else ExitedBy(cfg, front, sid)
  }

  /** The id synchronised last is that of the deployment that exited. */
  predicate AtExited(cfg: ExitConfig, steps: seq<Step>, sid: string) {
    var last := Run(cfg, steps).st.lastDeploymentId;
    sid in last && ExitedBy(cfg, steps, sid) == Some(last[sid])
  }

  /**
   The pending flag is astray: it was put back by a refused call when another id than that of the
   deployment that exited had been synchronised, and no redeploy was scheduled since.
   */
  predicate Astray(cfg: ExitConfig, steps: seq<Step>, sid: string) {
    if steps == [] then false
    else
      var front, last := steps[..|steps| - 1], steps[|steps| - 1];
      if last == FailedDeploy(sid) && !Peek(Run(cfg, front).st, sid) then !AtExited(cfg, front, sid)
      else !Schedules(cfg, Run(cfg, front).st, last, sid) && Astray(cfg, front, sid)
  }

  lemma ProbeKeepsTrack(cfg: ExitConfig, s: Lifecycle, step: Step, sid: string)
    requires step.Probe? && !Schedules(cfg, s, step, sid)
    ensures var s' := AfterProbe(cfg, s, step.sid, step.dep, step.base, step.hb, step.schedule);
            Peek(s', sid) ==> Peek(s, sid) && (sid in s'.lastDeploymentId <==> sid in s.lastDeploymentId)
                              && (sid in s.lastDeploymentId ==> s'.lastDeploymentId[sid] == s.lastDeploymentId[sid])
  {
    if step.sid != sid { ProbeElsewhere(cfg, s, step, sid); }
  }

  lemma ScheduledHere(cfg: ExitConfig, s: Lifecycle, step: Step, sid: string)
    requires Schedules(cfg, s, step, sid)
    ensures var s' := AfterProbe(cfg, s, step.sid, step.dep, step.base, step.hb, step.schedule);
            sid in s'.lastDeploymentId && s'.lastDeploymentId[sid] == step.dep
  {
  }

  /** While the flag is pending, the id synchronised last is the exited one's exactly unless it is astray. */
  lemma {:induction false} PendingIsAtExitedIff(cfg: ExitConfig, steps: seq<Step>, sid: string)
    requires IsRun(cfg, steps)
    ensures Peek(Run(cfg, steps).st, sid) ==> (AtExited(cfg, steps, sid) <==> !Astray(cfg, steps, sid))
  {
    if steps != [] {
      var front, last := steps[..|steps| - 1], steps[|steps| - 1];
      var s := Run(cfg, front).st;
      PendingIsAtExitedIff(cfg, front, sid);
      if last.Probe? {
        if Schedules(cfg, s, last, sid) {
          ScheduledHere(cfg, s, last, sid);
        } else {
          ProbeKeepsTrack(cfg, s, last, sid);
        }
      }
    }
  }

  // ---------------------------------------------------------------- on overlapping ticks

  /**
   After any run of ticks, however they overlap, when a row is about to issue an exit redeploy: unless the
   flag is astray, the redeploy is for the deployment that exited if and only if the row shows the id
   synchronised last; and if it is astray, a row that shows that id is not of the one that exited.
   */
  lemma RedeployHitsExitedIff(cfg: Config, moves: seq<Move>, w: Ticking, r: RowInput)
    requires Overlapped(cfg, IDLE, moves) == Some(w) && ExitRedeployDue(cfg, w.shared.lifecycle, r.row)
    ensures var sid, last, steps := r.row.sid, w.shared.lifecycle.lastDeploymentId, Calls(cfg, moves);
            var hits := ExitedBy(cfg.exit, steps, sid) == Some(r.row.depId);
            if Astray(cfg.exit, steps, sid) then sid in last && r.row.depId == last[sid] ==> !hits
            else sid in last && (hits <==> r.row.depId == last[sid])
  {
    TicksRefineLifecycle(cfg, moves, w, r.row.sid);
    PendingIsAtExitedIff(cfg.exit, Calls(cfg, moves), r.row.sid);
  }

  // ---------------------------------------------------------------- such a run

  /** A healthy, probed row; its exit redeploy is refused. */
  function Healthy(sid: string, dep: string, pingOk: bool): RowInput {
    RowInput(Row(sid, dep, SUCCESS, Online, true), false, pingOk, 0, false, 0, 0, false, 0)
  }

  predicate ExitsAtOnce(cfg: Config) {
    cfg.heartbeatEnabled && cfg.exit.exitRedeploy && cfg.autoRecover && cfg.exit.threshold == 1
  }

  lemma OneMoreCall(cfg: Config, moves: seq<Move>, w: Ticking, move: Move)
    requires Overlapped(cfg, IDLE, moves) == Some(w) && Possible(w, move)
    ensures Overlapped(cfg, IDLE, moves + [move]) == Some(Perform(cfg, w, move))
    ensures Calls(cfg, moves + [move]) == Calls(cfg, moves) + MoveCalls(cfg, w, move)
  {
    assert (moves + [move])[..|moves|] == moves;
  }

  /** A row is entered whose service has no redeploy pending. */
  lemma EnterQuietly(cfg: Config, moves: seq<Move>, w: Ticking, t: nat, r: RowInput) returns (w': Ticking, rec: nat)
    requires Overlapped(cfg, IDLE, moves) == Some(w) && t !in w.calls && Pings(cfg, r.row)
    requires !Peek(w.shared.lifecycle, r.row.sid)
    ensures Overlapped(cfg, IDLE, moves + [Enter(t, r)]) == Some(w')
    ensures Calls(cfg, moves + [Enter(t, r)]) == Calls(cfg, moves)
    ensures w'.shared.lifecycle == w.shared.lifecycle && w'.calls == w.calls[t := Call(r, AwaitPing(rec))]
  {
    OneMoreCall(cfg, moves, w, Enter(t, r));
    w', rec := Perform(cfg, w, Enter(t, r)), RecordOf(w.shared, r.row);
    ToPingIsQuiet(cfg, w.shared, r, r.row.sid);
  }

  /** The ping of a healthy row is handled, and the row ends. */
  lemma PingEnds(cfg: Config, moves: seq<Move>, w: Ticking, t: nat, r: RowInput, rec: nat) returns (w': Ticking)
    requires Overlapped(cfg, IDLE, moves) == Some(w) && cfg.exit.exitRedeploy && IsHealthy(r.row.status)
    requires t in w.calls && w.calls[t].stage == AwaitPing(rec) && w.calls[t].input.row == r.row
    ensures Overlapped(cfg, IDLE, moves + [Resume(t, r)]) == Some(w')
    ensures Calls(cfg, moves + [Resume(t, r)]) == Calls(cfg, moves) + [PingCall(r)]
    ensures w'.shared.lifecycle == Heard(cfg, w.shared.lifecycle, r) && w'.calls == w.calls - {t}
  {
    OneMoreCall(cfg, moves, w, Resume(t, r));
    w' := Perform(cfg, w, Resume(t, r));
    FromPingMeans(cfg, w.shared, r, rec, r.row.sid);
    PingOfHealthyEnds(cfg, w.shared, r, rec);
  }

  lemma PingOfHealthyEnds(cfg: Config, s: Shared, r: RowInput, rec: nat)
    requires cfg.exit.exitRedeploy && IsHealthy(r.row.status)
    ensures FromPing(cfg, s, r, rec).stage.None?
  {
  }

  /** The exit redeploy of the row is issued. */
  lemma ExitBegins(cfg: Config, moves: seq<Move>, w: Ticking, t: nat, r: RowInput) returns (w': Ticking)
    requires Overlapped(cfg, IDLE, moves) == Some(w) && t !in w.calls && ExitRedeployDue(cfg, w.shared.lifecycle, r.row)
    ensures Overlapped(cfg, IDLE, moves + [Enter(t, r)]) == Some(w')
    ensures Calls(cfg, moves + [Enter(t, r)]) == Calls(cfg, moves) + [Begin(r.row.sid)]
    ensures w'.shared.lifecycle == ClearFlag(w.shared.lifecycle, r.row.sid)
    ensures w'.calls == w.calls[t := Call(r, AwaitExit)]
  {
    OneMoreCall(cfg, moves, w, Enter(t, r));
    w' := Perform(cfg, w, Enter(t, r));
  }

  /** It is refused. */
  lemma ExitRefused(cfg: Config, moves: seq<Move>, w: Ticking, t: nat, r: RowInput) returns (w': Ticking)
    requires Overlapped(cfg, IDLE, moves) == Some(w) && t in w.calls && w.calls[t] == Call(r, AwaitExit)
    requires !r.exitDeployOk
    ensures Overlapped(cfg, IDLE, moves + [Resume(t, r)]) == Some(w')
    ensures Calls(cfg, moves + [Resume(t, r)]) == Calls(cfg, moves) + [FailedDeploy(r.row.sid)]
    ensures w'.shared.lifecycle == Requeue(w.shared.lifecycle, r.row.sid)
  {
    OneMoreCall(cfg, moves, w, Resume(t, r));
    w' := Perform(cfg, w, Resume(t, r));
    FromExitIsAnswered(cfg, w.shared, r, r.row.sid);
  }

  /** The lifecycle's side of the run: `a` exits, its redeploy is awaited, `b` is synchronised, the call is refused. */
  lemma StrayCalls(cfg: ExitConfig, sid: string, a: string, b: string, s: Lifecycle)
    requires cfg.exitRedeploy && cfg.threshold == 1 && a != b
    requires s == AfterProbe(cfg, EMPTY_LIFECYCLE, sid, a, Online, Ping(false, Some(false)), true)
    ensures Peek(s, sid)
    ensures var s2 := AfterProbe(cfg, ClearFlag(s, sid), sid, b, Online, Ping(false, Some(true)), true);
            !Peek(s2, sid) && Peek(Requeue(s2, sid), sid) && sid in s2.lastDeploymentId && s2.lastDeploymentId[sid] == b
    ensures var steps := [] + [Probe(sid, a, Online, Ping(false, Some(false)), true)] + [Begin(sid)]
                         + [Probe(sid, b, Online, Ping(false, Some(true)), true)] + [FailedDeploy(sid)];
            ExitedBy(cfg, steps, sid) == Some(a)
  {
    var none: seq<Step> := [];
    var p := Probe(sid, a, Online, Ping(false, Some(false)), true);
    var q := Probe(sid, b, Online, Ping(false, Some(true)), true);
    var synced := Sync(EMPTY_LIFECYCLE, sid, a);
    assert Fails(synced, sid) == 0 && !IsExited(synced, sid) && FirstExit(cfg, synced, sid);
    assert (none + [p])[..0] == none && Schedules(cfg, Run(cfg, none).st, p, sid);
    assert (none + [p] + [Begin(sid)])[..1] == none + [p];
    assert (none + [p] + [Begin(sid)] + [q])[..2] == none + [p] + [Begin(sid)];
    assert (none + [p] + [Begin(sid)] + [q] + [FailedDeploy(sid)])[..3] == none + [p] + [Begin(sid)] + [q];
    assert ExitedBy(cfg, none + [p], sid) == Some(a);
    assert ExitedBy(cfg, none + [p] + [Begin(sid)], sid) == Some(a);
  }

  /** The first tick: the ping of `a` fails, and the service counts as exited. */
  lemma FirstTick(cfg: Config, sid: string, a: string) returns (moves: seq<Move>, w: Ticking)
    requires ExitsAtOnce(cfg)
    ensures Overlapped(cfg, IDLE, moves) == Some(w) && w.calls == map[]
    ensures Calls(cfg, moves) == [] + [PingCall(Healthy(sid, a, false))]
    ensures w.shared.lifecycle == Heard(cfg, EMPTY_LIFECYCLE, Healthy(sid, a, false))
  {
    var fails := Healthy(sid, a, false);
    var w1, rec := EnterQuietly(cfg, [], IDLE, 0, fails);
    moves := [] + [Enter(0, fails)] + [Resume(0, fails)];
    w := PingEnds(cfg, [] + [Enter(0, fails)], w1, 0, fails, rec);
  }

  /** While the redeploy of one tick is awaited, another sees `b` answer its ping. */
  lemma AnotherShown(cfg: Config, moves: seq<Move>, w: Ticking, sid: string, a: string, b: string)
    returns (longer: seq<Move>, w': Ticking)
    requires ExitsAtOnce(cfg) && a != "" && Peek(w.shared.lifecycle, sid)
    requires Overlapped(cfg, IDLE, moves) == Some(w) && w.calls == map[]
    ensures Overlapped(cfg, IDLE, longer) == Some(w')
    ensures 1 in w'.calls && w'.calls[1] == Call(Healthy(sid, a, false), AwaitExit)
    ensures Calls(cfg, longer) == Calls(cfg, moves) + [Begin(sid)] + [PingCall(Healthy(sid, b, true))]
    ensures w'.shared.lifecycle == Heard(cfg, ClearFlag(w.shared.lifecycle, sid), Healthy(sid, b, true))
  {
    var fails, answers := Healthy(sid, a, false), Healthy(sid, b, true);
    var w1 := ExitBegins(cfg, moves, w, 1, fails);
    var begun := moves + [Enter(1, fails)];
    var w2, rec := EnterQuietly(cfg, begun, w1, 2, answers);
    w' := PingEnds(cfg, begun + [Enter(2, answers)], w2, 2, answers, rec);
    longer := begun + [Enter(2, answers)] + [Resume(2, answers)];
  }

  /**
   A run of three overlapping ticks after which a row shows the id synchronised last, has a redeploy due,
   and is not of the deployment that exited.
   */
  lemma OverlapMissesExited(cfg: Config, sid: string, a: string, b: string) returns (moves: seq<Move>, w: Ticking)
    requires ExitsAtOnce(cfg) && a != "" && b != "" && a != b
    ensures Overlapped(cfg, IDLE, moves) == Some(w)
    ensures var r, last := Healthy(sid, b, true), w.shared.lifecycle.lastDeploymentId;
            ExitRedeployDue(cfg, w.shared.lifecycle, r.row) && sid in last && last[sid] == r.row.depId
    ensures ExitedBy(cfg.exit, Calls(cfg, moves), sid) == Some(a)
  {
    var first, w1 := FirstTick(cfg, sid, a);
    StrayCalls(cfg.exit, sid, a, b, w1.shared.lifecycle);
    var second, w2 := AnotherShown(cfg, first, w1, sid, a, b);
    var fails := Healthy(sid, a, false);
    w := ExitRefused(cfg, second, w2, 1, fails);
    moves := second + [Resume(1, fails)];
  }
}
