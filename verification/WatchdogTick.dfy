/**
 One tick of the hosted watchdog: for every listed service an exit redeploy scheduled earlier, a
 liveness probe with its own recovery path, and auto-recovery of crashed deployments; then pruning.

 Deploy calls, pings and clock readings are inputs.  What a tick does to the outside world, and what
 it observed, is returned as a log of effects.
 */
module WatchdogTick {
  import opened Wrappers
  import opened HeartbeatLifecycle
  import opened RailwayStatus

  const RECOVER_COOLDOWN_MS := 50_000

  datatype Config = Config(
    exit: ExitConfig,
    heartbeatEnabled: bool,
    heartbeatRecoverEnabled: bool,
    autoRecover: bool,
    missThreshold: nat,
    maxRecover: nat,
    cooldownMs: nat)

  datatype PrevEntry = PrevEntry(status: DeploymentStatus, deploymentId: string, online: OnlineStatus)

  datatype HeartbeatRecord = HeartbeatRecord(
    deploymentId: string,
    status: DeploymentStatus,
    consecutiveMisses: nat,
    recoveriesUsed: nat,
    loggedBudgetExhausted: bool,
    loggedCooldownWait: bool)

  datatype WatchdogState = WatchdogState(
    prev: map<string, PrevEntry>,
    recoverCooldown: map<string, int>,
    heartbeatRecords: map<string, HeartbeatRecord>,
    heartbeatLastRecoverAt: map<string, int>,
    lifecycle: Lifecycle)

  const EMPTY_STATE := WatchdogState(map[], map[], map[], map[], EMPTY_LIFECYCLE)

  /** A visibility row; `probed` says whether a probe URL can be built for the service. */
  datatype Row = Row(sid: string, depId: string, status: DeploymentStatus, online: OnlineStatus, probed: bool)

  /** A row with the answers the environment gives while it is processed. */
  datatype RowInput = RowInput(
    row: Row,
    exitDeployOk: bool,
    pingOk: bool,
    heartbeatNow: int, heartbeatDeployOk: bool, heartbeatDone: int,
    autoNow: int, autoDeployOk: bool, autoDone: int)

  datatype Effect =
    | ExitDeploy(sid: string, ok: bool)
    | Pinged(sid: string, online: OnlineStatus, ok: bool)
    | HeartbeatDeploy(sid: string, depId: string, start: int, done: int, ok: bool)
    | SeenHealthy(sid: string)
    | AutoDeploy(sid: string, start: int, done: int, ok: bool)

  predicate IsDeployCall(e: Effect) { e.ExitDeploy? || e.HeartbeatDeploy? || e.AutoDeploy? }

  datatype Outcome = Outcome(state: WatchdogState, log: seq<Effect>)

  // ---------------------------------------------------------------- one row, phase by phase

  predicate ExitRedeployDue(cfg: Config, life: Lifecycle, row: Row) {
    cfg.heartbeatEnabled && cfg.exit.exitRedeploy && cfg.autoRecover
    && Peek(life, row.sid) && IsHealthy(row.status) && !IsDeploying(row.status) && row.depId != ""
  }

  function ExitPhase(cfg: Config, life: Lifecycle, r: RowInput): Lifecycle {
    var sid := r.row.sid;
    if !ExitRedeployDue(cfg, life, r.row) then life
    else if r.exitDeployOk then ClearService(ClearFlag(life, sid), sid)
    else Requeue(ClearFlag(life, sid), sid)
  }

  function ExitLog(cfg: Config, life: Lifecycle, r: RowInput): seq<Effect> {
    if ExitRedeployDue(cfg, life, r.row) then [ExitDeploy(r.row.sid, r.exitDeployOk)] else []
  }

  function CurrentRecord(records: map<string, HeartbeatRecord>, row: Row): HeartbeatRecord {
    if row.sid in records && records[row.sid].deploymentId == row.depId
    then records[row.sid].(status := row.status)
    else HeartbeatRecord(row.depId, row.status, 0, 0, false, false)
  }

  predicate RecoverPathOpen(cfg: Config, row: Row) {
    !cfg.exit.exitRedeploy && cfg.heartbeatRecoverEnabled && cfg.autoRecover
    && IsHealthy(row.status) && !IsDeploying(row.status)
  }

  function LastRecover(last: map<string, int>, sid: string): int {
    if sid in last then last[sid] else 0
  }

  predicate CanRecover(cfg: Config, rec: HeartbeatRecord) {
    cfg.maxRecover > 0 && rec.recoveriesUsed < cfg.maxRecover
  }

  predicate CooldownOver(cfg: Config, last: map<string, int>, sid: string, now: int) {
    cfg.cooldownMs == 0 || now - LastRecover(last, sid) >= cfg.cooldownMs
  }

  /** The failed ping makes the watchdog redeploy the service. */
  predicate HeartbeatDeployDue(cfg: Config, rec: HeartbeatRecord, last: map<string, int>, r: RowInput) {
    RecoverPathOpen(cfg, r.row)
    && rec.consecutiveMisses + 1 >= cfg.missThreshold && CanRecover(cfg, rec)
    && CooldownOver(cfg, last, r.row.sid, r.heartbeatNow)
  }

  function RecordAfterMiss(cfg: Config, rec: HeartbeatRecord, last: map<string, int>, r: RowInput): HeartbeatRecord {
    if !RecoverPathOpen(cfg, r.row) then
      if IsHealthy(r.row.status) then rec else rec.(consecutiveMisses := 0)
    else
      var rec := rec.(consecutiveMisses := rec.consecutiveMisses + 1);
      var due := rec.consecutiveMisses >= cfg.missThreshold;
      var cooldownOk := CooldownOver(cfg, last, r.row.sid, r.heartbeatNow);
      if due && CanRecover(cfg, rec) && cooldownOk then
        if r.heartbeatDeployOk then
          rec.(recoveriesUsed := rec.recoveriesUsed + 1, consecutiveMisses := 0,
               loggedBudgetExhausted := false, loggedCooldownWait := false)
        else rec
      else if due && CanRecover(cfg, rec) then rec.(loggedCooldownWait := true)
      else if due then rec.(loggedBudgetExhausted := true)
      else rec
  }

  function RecordAfterPing(cfg: Config, rec: HeartbeatRecord, last: map<string, int>, r: RowInput): HeartbeatRecord {
    if r.pingOk then rec.(consecutiveMisses := 0, loggedCooldownWait := false)
    else RecordAfterMiss(cfg, rec, last, r)
  }

  predicate Pings(cfg: Config, row: Row) { cfg.heartbeatEnabled && row.probed }

  predicate RecoversNow(cfg: Config, st: WatchdogState, r: RowInput) {
    Pings(cfg, r.row) && !r.pingOk
    && HeartbeatDeployDue(cfg, CurrentRecord(st.heartbeatRecords, r.row), st.heartbeatLastRecoverAt, r)
  }

  function HeartbeatPhase(cfg: Config, st: WatchdogState, r: RowInput): WatchdogState {
    var sid := r.row.sid;
    var rec := CurrentRecord(st.heartbeatRecords, r.row);
    if Pings(cfg, r.row) then
      st.(heartbeatRecords :=
            st.heartbeatRecords[sid := RecordAfterPing(cfg, rec, st.heartbeatLastRecoverAt, r)],
          heartbeatLastRecoverAt :=
            if RecoversNow(cfg, st, r) && r.heartbeatDeployOk
            then st.heartbeatLastRecoverAt[sid := r.heartbeatDone] else st.heartbeatLastRecoverAt,
          lifecycle := AfterProbe(cfg.exit, st.lifecycle, sid, r.row.depId, r.row.online,
                                  Ping(false, Some(r.pingOk)), true))
    else if cfg.heartbeatEnabled then
      st.(heartbeatRecords := st.heartbeatRecords - {sid})
    else if sid in st.heartbeatRecords && st.heartbeatRecords[sid].deploymentId == r.row.depId then
      st.(heartbeatRecords := st.heartbeatRecords[sid := rec])
    else st
  }

  function HeartbeatLog(cfg: Config, st: WatchdogState, r: RowInput): seq<Effect> {
    var sid := r.row.sid;
    (if RecoversNow(cfg, st, r)
     then [HeartbeatDeploy(sid, r.row.depId, r.heartbeatNow, r.heartbeatDone, r.heartbeatDeployOk)] else [])
    + (if Pings(cfg, r.row) then [Pinged(sid, r.row.online, r.pingOk)] else [])
  }

  predicate AutoRecoverDue(cfg: Config, cooldown: map<string, int>, r: RowInput) {
    cfg.autoRecover && IsBad(r.row.status) && !IsDeploying(r.row.status)
    && (r.row.sid in cooldown ==> r.autoNow - cooldown[r.row.sid] >= RECOVER_COOLDOWN_MS)
  }

  function AutoPhase(cfg: Config, cooldown: map<string, int>, r: RowInput): map<string, int> {
    var cooldown := if IsHealthy(r.row.status) then cooldown - {r.row.sid} else cooldown;
    if AutoRecoverDue(cfg, cooldown, r) && r.autoDeployOk then cooldown[r.row.sid := r.autoDone] else cooldown
  }

  function AutoLog(cfg: Config, cooldown: map<string, int>, r: RowInput): seq<Effect> {
    if IsHealthy(r.row.status) then [SeenHealthy(r.row.sid)]
    else if AutoRecoverDue(cfg, cooldown, r)
    then [AutoDeploy(r.row.sid, r.autoNow, r.autoDone, r.autoDeployOk)] else []
  }

  function RowStep(cfg: Config, st: WatchdogState, r: RowInput): Outcome {
    var st1 := st.(lifecycle := ExitPhase(cfg, st.lifecycle, r));
    var st2 := HeartbeatPhase(cfg, st1, r);
    var st3 := st2.(recoverCooldown := AutoPhase(cfg, st2.recoverCooldown, r));
    Outcome(st3.(prev := st3.prev[r.row.sid := PrevEntry(r.row.status, r.row.depId, r.row.online)]),
            ExitLog(cfg, st.lifecycle, r) + HeartbeatLog(cfg, st1, r) + AutoLog(cfg, st.recoverCooldown, r))
  }

  function Restrict<V>(m: map<string, V>, ids: set<string>): map<string, V> {
    map k | k in m && k in ids :: m[k]
  }

  function PruneStep(st: WatchdogState, ids: set<string>): WatchdogState {
    st.(prev := Restrict(st.prev, ids),
        heartbeatRecords := Restrict(st.heartbeatRecords, ids),
        heartbeatLastRecoverAt := Restrict(st.heartbeatLastRecoverAt, ids))
  }

  // ---------------------------------------------------------------- runs

  /** What a run is made of: rows in processing order, and the pruning that closes a tick. */
  datatype TickStep = RowOf(input: RowInput) | Prune(ids: set<string>)

  function Exec(cfg: Config, st: WatchdogState, steps: seq<TickStep>): Outcome {
    if steps == [] then Outcome(st, [])
    else
      var before := Exec(cfg, st, steps[..|steps| - 1]);
      match steps[|steps| - 1]
      case RowOf(r) =>
        var after := RowStep(cfg, before.state, r);
        Outcome(after.state, before.log + after.log)
      case Prune(ids) => Outcome(PruneStep(before.state, ids), before.log)
  }

  function RowSteps(rows: seq<RowInput>): (steps: seq<TickStep>)
    ensures |steps| == |rows| && forall i :: 0 <= i < |rows| ==> steps[i] == RowOf(rows[i])
  {
    seq(|rows|, i requires 0 <= i < |rows| => RowOf(rows[i]))
  }

  function ListedIds(rows: seq<RowInput>): set<string> {
    set r | r in rows :: r.row.sid
  }

  /** A tick whose listing succeeded. */
  function TickSteps(rows: seq<RowInput>): seq<TickStep> {
    RowSteps(rows) + [Prune(ListedIds(rows))]
  }

  // ---------------------------------------------------------------- the mutable watchdog

  class Watchdog {
    var prev: map<string, PrevEntry>
    var recoverCooldown: map<string, int>
    var heartbeatRecords: map<string, HeartbeatRecord>
    var heartbeatLastRecoverAt: map<string, int>
    const lifecycle: HeartbeatExitState

    function State(): WatchdogState
      reads this, lifecycle
    {
      WatchdogState(prev, recoverCooldown, heartbeatRecords, heartbeatLastRecoverAt, lifecycle.State())
    }

    constructor ()
      ensures State() == EMPTY_STATE && fresh(lifecycle)
    {
      prev, recoverCooldown, heartbeatRecords, heartbeatLastRecoverAt := map[], map[], map[], map[];
      lifecycle := new HeartbeatExitState();
    }

    method ExitRedeploy(cfg: Config, r: RowInput) returns (log: seq<Effect>)
      modifies lifecycle
      ensures State() == old(State()).(lifecycle := ExitPhase(cfg, old(State()).lifecycle, r))
      ensures log == ExitLog(cfg, old(State()).lifecycle, r)
    {
      log := [];
      var sid := r.row.sid;
      var pending := lifecycle.PeekRedeem(sid);
      if cfg.heartbeatEnabled && cfg.exit.exitRedeploy && cfg.autoRecover && pending
         && IsHealthy(r.row.status) && !IsDeploying(r.row.status) && r.row.depId != "" {
        lifecycle.ClearRedeemFlag(sid);
        log := [ExitDeploy(sid, r.exitDeployOk)];
        if r.exitDeployOk {
          lifecycle.ClearForService(sid);
        } else {
          lifecycle.RequeueRedeem(sid);
        }
      }
    }

    /** The failed-ping branch on the service's record. */
    method HandleMiss(cfg: Config, rec0: HeartbeatRecord, r: RowInput)
      returns (rec: HeartbeatRecord, log: seq<Effect>)
      modifies this`heartbeatLastRecoverAt
      ensures rec == RecordAfterMiss(cfg, rec0, old(heartbeatLastRecoverAt), r)
      ensures var due := HeartbeatDeployDue(cfg, rec0, old(heartbeatLastRecoverAt), r);
              heartbeatLastRecoverAt ==
                (if due && r.heartbeatDeployOk
                 then old(heartbeatLastRecoverAt)[r.row.sid := r.heartbeatDone] else old(heartbeatLastRecoverAt))
              && log == if due
                        then [HeartbeatDeploy(r.row.sid, r.row.depId,
                                              r.heartbeatNow, r.heartbeatDone, r.heartbeatDeployOk)]
                        else []
    {
      rec, log := rec0, [];
      if !cfg.exit.exitRedeploy && cfg.heartbeatRecoverEnabled && cfg.autoRecover
         && IsHealthy(r.row.status) && !IsDeploying(r.row.status) {
        rec := rec.(consecutiveMisses := rec.consecutiveMisses + 1);
        var canRecover := cfg.maxRecover > 0 && rec.recoveriesUsed < cfg.maxRecover;
        var last := if r.row.sid in heartbeatLastRecoverAt then heartbeatLastRecoverAt[r.row.sid] else 0;
        var cooldownOk := cfg.cooldownMs == 0 || r.heartbeatNow - last >= cfg.cooldownMs;
        if rec.consecutiveMisses >= cfg.missThreshold && canRecover && cooldownOk {
          log := [HeartbeatDeploy(r.row.sid, r.row.depId, r.heartbeatNow, r.heartbeatDone, r.heartbeatDeployOk)];
          if r.heartbeatDeployOk {
            rec := rec.(recoveriesUsed := rec.recoveriesUsed + 1, consecutiveMisses := 0,
                        loggedBudgetExhausted := false, loggedCooldownWait := false);
            heartbeatLastRecoverAt := heartbeatLastRecoverAt[r.row.sid := r.heartbeatDone];
          }
        } else if rec.consecutiveMisses >= cfg.missThreshold && canRecover && !cooldownOk
                  && !rec.loggedCooldownWait {
          rec := rec.(loggedCooldownWait := true);
        } else if rec.consecutiveMisses >= cfg.missThreshold && !canRecover && !rec.loggedBudgetExhausted {
          rec := rec.(loggedBudgetExhausted := true);
        }
      } else if !IsHealthy(r.row.status) {
        rec := rec.(consecutiveMisses := 0);
      }
    }

    method ProbeHeartbeat(cfg: Config, r: RowInput) returns (log: seq<Effect>)
      modifies this`heartbeatRecords, this`heartbeatLastRecoverAt, lifecycle
      ensures State() == HeartbeatPhase(cfg, old(State()), r)
      ensures log == HeartbeatLog(cfg, old(State()), r)
    {
      log := [];
      var sid := r.row.sid;
      var rec: HeartbeatRecord;
      if sid !in heartbeatRecords || heartbeatRecords[sid].deploymentId != r.row.depId {
        rec := HeartbeatRecord(r.row.depId, r.row.status, 0, 0, false, false);
      } else {
        // the record is shared with the map, so this write is visible even when nothing is stored below
        rec := heartbeatRecords[sid].(status := r.row.status);
        heartbeatRecords := heartbeatRecords[sid := rec];
      }
      assert rec == CurrentRecord(old(heartbeatRecords), r.row);
      if cfg.heartbeatEnabled && r.row.probed {
        if r.pingOk {
          rec := rec.(consecutiveMisses := 0, loggedCooldownWait := false);
        } else {
          rec, log := HandleMiss(cfg, rec, r);
        }
        log := log + [Pinged(sid, r.row.online, r.pingOk)];
        var _ := lifecycle.EffectiveStatusAfterProbe(cfg.exit, sid, r.row.depId, r.row.online,
                                                     Ping(false, Some(r.pingOk)), true);
        heartbeatRecords := heartbeatRecords[sid := rec];
        assert heartbeatRecords == old(heartbeatRecords)[sid := rec];
      } else if cfg.heartbeatEnabled {
        heartbeatRecords := heartbeatRecords - {sid};
        assert heartbeatRecords == old(heartbeatRecords) - {sid};
      }
    }

    method AutoRecover(cfg: Config, r: RowInput) returns (log: seq<Effect>)
      modifies this`recoverCooldown
      ensures State() == old(State()).(recoverCooldown := AutoPhase(cfg, old(recoverCooldown), r))
      ensures log == AutoLog(cfg, old(recoverCooldown), r)
    {
      log := [];
      if IsHealthy(r.row.status) {
        log := [SeenHealthy(r.row.sid)];
        recoverCooldown := recoverCooldown - {r.row.sid};
      }
      if cfg.autoRecover && IsBad(r.row.status) && !IsDeploying(r.row.status) {
        if r.row.sid in recoverCooldown && r.autoNow - recoverCooldown[r.row.sid] < RECOVER_COOLDOWN_MS {
          // still cooling down after the last accepted redeploy
        } else {
          log := [AutoDeploy(r.row.sid, r.autoNow, r.autoDone, r.autoDeployOk)];
          if r.autoDeployOk {
            recoverCooldown := recoverCooldown[r.row.sid := r.autoDone];
          }
        }
      }
    }

    method ProcessRow(cfg: Config, r: RowInput) returns (log: seq<Effect>)
      modifies this, lifecycle
      ensures Outcome(State(), log) == RowStep(cfg, old(State()), r)
    {
      var log1 := ExitRedeploy(cfg, r);
      var log2 := ProbeHeartbeat(cfg, r);
      var log3 := AutoRecover(cfg, r);
      prev := prev[r.row.sid := PrevEntry(r.row.status, r.row.depId, r.row.online)];
      log := log1 + log2 + log3;
    }

    /** A tick.  A failed listing changes nothing. */
    method RunTick(cfg: Config, listingFailed: bool, rows: seq<RowInput>) returns (log: seq<Effect>)
      modifies this, lifecycle
      ensures Outcome(State(), log) ==
              if listingFailed then Outcome(old(State()), []) else Exec(cfg, old(State()), TickSteps(rows))
    {
      log := [];
      if listingFailed {
        return;
      }
      ghost var before := State();
      ghost var steps := RowSteps(rows);
      for i := 0 to |rows|
        invariant Outcome(State(), log) == Exec(cfg, before, steps[..i])
      {
        assert steps[..i + 1][..i] == steps[..i];
        var rowLog := ProcessRow(cfg, rows[i]);
        log := log + rowLog;
      }
      assert TickSteps(rows)[..|rows|] == steps == steps[..|rows|];
      var ids := set r | r in rows :: r.row.sid;
      prev := Pruned(prev, ids);
      heartbeatRecords := Pruned(heartbeatRecords, ids);
      heartbeatLastRecoverAt := Pruned(heartbeatLastRecoverAt, ids);
    }
  }

  /** Deletes, one key at a time, the entries whose key is no longer listed. */
  method Pruned<V>(m: map<string, V>, ids: set<string>) returns (out: map<string, V>)
    ensures out == Restrict(m, ids)
  {
    out := m;
    var todo := m.Keys;
    while todo != {}
      invariant todo <= m.Keys && out.Keys <= m.Keys
      invariant forall k :: k in m ==> (k in out <==> k in todo || k in ids)
      invariant forall k :: k in out ==> out[k] == m[k]
      decreases |todo|
    {
      var k :| k in todo;
      if k !in ids {
        out := out - {k};
      }
      todo := todo - {k};
    }
  }
}
