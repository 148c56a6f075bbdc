/** What a single tick may do: which services it redeploys, how often, and what it remembers. */
module WatchdogDiscipline {
  import opened Wrappers
  import opened HeartbeatLifecycle
  import opened RailwayStatus
  import opened WatchdogTick

  ghost predicate DistinctIds(rows: seq<RowInput>) {
    forall i, j :: 0 <= i < j < |rows| ==> rows[i].row.sid != rows[j].row.sid
  }

  /** Redeploys may be aimed only at a service that is up or has crashed. */
  predicate MayDeploy(row: Row) { IsHealthy(row.status) || IsBad(row.status) }

  /** No two deploy calls of the log are for the same service. */
  ghost predicate OneDeployEach(log: seq<Effect>) {
    forall i, j :: 0 <= i < j < |log| && IsDeployCall(log[i]) && IsDeployCall(log[j]) ==> log[i].sid != log[j].sid
  }

  /** The call is for a listed service in a deployable state; an exit redeploy was pending in `life`. */
  ghost predicate Justified(e: Effect, rows: seq<RowInput>, life: Lifecycle) {
    && (exists r <- rows :: r.row.sid == e.sid && MayDeploy(r.row))
    && (e.ExitDeploy? ==> Peek(life, e.sid))
  }

  ghost predicate NoDeploys(log: seq<Effect>) { forall e <- log :: !IsDeployCall(e) }

  lemma JoinLogs(a: seq<Effect>, b: seq<Effect>)
    requires OneDeployEach(a) && OneDeployEach(b) && (NoDeploys(a) || NoDeploys(b))
    ensures OneDeployEach(a + b) && (NoDeploys(a) && NoDeploys(b) ==> NoDeploys(a + b))
  {
  }

  /** The log of one path: about this service only, at most one deploy call, and that one allowed. */
  ghost predicate OrderlyPath(log: seq<Effect>, row: Row, life: Lifecycle) {
    OneDeployEach(log) && (forall e <- log :: e.sid == row.sid)
    && forall e <- log :: IsDeployCall(e) ==> MayDeploy(row) && (e.ExitDeploy? ==> Peek(life, row.sid))
  }

  lemma PathsAreOrderly(cfg: Config, st: WatchdogState, r: RowInput)
    ensures var st1 := st.(lifecycle := ExitPhase(cfg, st.lifecycle, r));
            var l1, l2 := ExitLog(cfg, st.lifecycle, r), HeartbeatLog(cfg, st1, r);
            var l3 := AutoLog(cfg, st.recoverCooldown, r);
            OrderlyPath(l1, r.row, st.lifecycle) && OrderlyPath(l2, r.row, st.lifecycle)
            && OrderlyPath(l3, r.row, st.lifecycle)
            && (NoDeploys(l1) || NoDeploys(l2)) && (NoDeploys(l3) || (NoDeploys(l1) && NoDeploys(l2)))
  {
  }

  /** Across the three redeploy paths, one row makes at most one deploy call. */
  lemma RowDeploysOnce(cfg: Config, st: WatchdogState, r: RowInput)
    ensures OrderlyPath(RowStep(cfg, st, r).log, r.row, st.lifecycle)
  {
    var st1 := st.(lifecycle := ExitPhase(cfg, st.lifecycle, r));
    var l1, l2, l3 := ExitLog(cfg, st.lifecycle, r), HeartbeatLog(cfg, st1, r), AutoLog(cfg, st.recoverCooldown, r);
    PathsAreOrderly(cfg, st, r);
    JoinLogs(l1, l2);
    JoinLogs(l1 + l2, l3);
    assert forall e <- l1 + l2 + l3 :: e in l1 || e in l2 || e in l3;
  }

  /** As the listing fills the row: an id and a label for what is deployed, neither id nor status otherwise. */
  predicate AsListed(row: Row) {
    row.online == DeploymentStatusToRailwayUi(row.status, row.depId != "") && (row.depId == "" ==> row.status.Absent?)
  }

  /** The label a redeploy expects to see on the row it is for. */
  predicate FitsLabel(e: Effect, shown: OnlineStatus) {
    if e.AutoDeploy? then shown.Failed? else shown.Online?
  }

  /**
   The watchdog decides by deployment status, the page shows a label: a listed row is redeployed by the
   exit or the heartbeat path only while labelled online, by auto-recover only while labelled failed, and
   its ping schedules an exit redeploy only for a healthy status.
   */
  lemma RedeploysFitLabels(cfg: Config, st: WatchdogState, r: RowInput)
    requires AsListed(r.row)
    ensures forall e <- RowStep(cfg, st, r).log :: IsDeployCall(e) ==> FitsLabel(e, r.row.online)
    ensures var ping := Probe(r.row.sid, r.row.depId, r.row.online, Ping(false, Some(r.pingOk)), true);
            forall life :: Schedules(cfg.exit, life, ping, r.row.sid) ==> IsHealthy(r.row.status)
  {
    LabelsAgreeWithWatchdog(r.row.status, r.row.depId != "");
    var st1 := st.(lifecycle := ExitPhase(cfg, st.lifecycle, r));
    var l1, l2, l3 := ExitLog(cfg, st.lifecycle, r), HeartbeatLog(cfg, st1, r), AutoLog(cfg, st.recoverCooldown, r);
    assert forall e <- l1 + l2 + l3 :: e in l1 || e in l2 || e in l3;
  }

  /** A row more at the end of a tick. */
  lemma LastRow(cfg: Config, st: WatchdogState, rows: seq<RowInput>)
    requires rows != []
    ensures var front, last := rows[..|rows| - 1], rows[|rows| - 1];
            var before := Exec(cfg, st, RowSteps(front));
            var after := RowStep(cfg, before.state, last);
            rows == front + [last]
            && Exec(cfg, st, RowSteps(rows)) == Outcome(after.state, before.log + after.log)
  {
    assert RowSteps(rows)[..|rows| - 1] == RowSteps(rows[..|rows| - 1]);
  }

  lemma RowLeavesOthersAlone(cfg: Config, st: WatchdogState, r: RowInput, sid: string)
    requires r.row.sid != sid
    ensures Peek(RowStep(cfg, st, r).state.lifecycle, sid) == Peek(st.lifecycle, sid)
  {
    var life1 := ExitPhase(cfg, st.lifecycle, r);
    assert Peek(life1, sid) == Peek(st.lifecycle, sid);
    ProbeElsewhere(cfg.exit, life1,
                   Probe(r.row.sid, r.row.depId, r.row.online, Ping(false, Some(r.pingOk)), true), sid);
  }

  lemma {:induction false} PendingUntilProcessed(cfg: Config, st: WatchdogState, rows: seq<RowInput>, sid: string)
    requires forall r <- rows :: r.row.sid != sid
    ensures Peek(Exec(cfg, st, RowSteps(rows)).state.lifecycle, sid) == Peek(st.lifecycle, sid)
  {
    if rows != [] {
      var front, last := rows[..|rows| - 1], rows[|rows| - 1];
      LastRow(cfg, st, rows);
      assert last in rows;
      PendingUntilProcessed(cfg, st, front, sid);
      RowLeavesOthersAlone(cfg, Exec(cfg, st, RowSteps(front)).state, last, sid);
    }
  }

  lemma AppendRowLog(log: seq<Effect>, more: seq<Effect>, rows: seq<RowInput>, last: RowInput, life: Lifecycle)
    requires OneDeployEach(log) && OneDeployEach(more)
    requires forall e <- log :: IsDeployCall(e) ==> Justified(e, rows, life)
    requires forall e <- more :: e.sid == last.row.sid
    requires forall e <- more :: IsDeployCall(e) ==> Justified(e, rows + [last], life)
    requires forall r <- rows :: r.row.sid != last.row.sid
    ensures OneDeployEach(log + more)
    ensures forall e <- log + more :: IsDeployCall(e) ==> Justified(e, rows + [last], life)
  {
    assert forall r <- rows :: r in rows + [last];
    forall i, j | 0 <= i < j < |log + more| && IsDeployCall((log + more)[i]) && IsDeployCall((log + more)[j])
      ensures (log + more)[i].sid != (log + more)[j].sid
    {
      if i < |log| <= j {
        assert Justified(log[i], rows, life);
      }
    }
  }

  lemma {:induction false} RowsDeployOnce(cfg: Config, st: WatchdogState, rows: seq<RowInput>)
    requires DistinctIds(rows)
    ensures var log := Exec(cfg, st, RowSteps(rows)).log;
            OneDeployEach(log) && forall e <- log :: IsDeployCall(e) ==> Justified(e, rows, st.lifecycle)
  {
    if rows != [] {
      var front, last := rows[..|rows| - 1], rows[|rows| - 1];
      LastRow(cfg, st, rows);
      RowsDeployOnce(cfg, st, front);
      PendingUntilProcessed(cfg, st, front, last.row.sid);
      var before := Exec(cfg, st, RowSteps(front));
      RowDeploysOnce(cfg, before.state, last);
      AppendRowLog(before.log, RowStep(cfg, before.state, last).log, front, last, st.lifecycle);
    }
  }

  lemma RowIsRemembered(cfg: Config, st: WatchdogState, r: RowInput)
    ensures RowStep(cfg, st, r).state.prev.Keys == st.prev.Keys + {r.row.sid}
  {
  }

  lemma {:induction false} RowsAreRemembered(cfg: Config, st: WatchdogState, rows: seq<RowInput>)
    ensures Exec(cfg, st, RowSteps(rows)).state.prev.Keys == st.prev.Keys + ListedIds(rows)
  {
    if rows != [] {
      var front, last := rows[..|rows| - 1], rows[|rows| - 1];
      LastRow(cfg, st, rows);
      RowsAreRemembered(cfg, st, front);
      RowIsRemembered(cfg, Exec(cfg, st, RowSteps(front)).state, last);
      assert ListedIds(rows) == ListedIds(front) + {last.row.sid};
    }
  }

  /**
   One tick over distinct services: at most one deploy attempt per service across the three paths,
   each for a listed service that is healthy or has crashed; an exit redeploy only if it was already
   pending when the tick began, so never in the tick that schedules it; and afterwards the previous
   rows are exactly the listed services, with no record or recovery time kept for any other.
   */
  lemma TickDiscipline(cfg: Config, st: WatchdogState, rows: seq<RowInput>)
    requires DistinctIds(rows)
    ensures var end := Exec(cfg, st, TickSteps(rows));
            OneDeployEach(end.log)
            && (forall e <- end.log :: IsDeployCall(e) ==> Justified(e, rows, st.lifecycle))
            && end.state.prev.Keys == ListedIds(rows)
            && end.state.heartbeatRecords.Keys <= ListedIds(rows)
            && end.state.heartbeatLastRecoverAt.Keys <= ListedIds(rows)
  {
    assert TickSteps(rows)[..|rows|] == RowSteps(rows);
    RowsDeployOnce(cfg, st, rows);
    RowsAreRemembered(cfg, st, rows);
  }
}
