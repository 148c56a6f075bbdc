/** Overlapping ticks for which the watchdog's cooldowns and budget do not hold. */
module OverlapFailures {
  import opened Wrappers
  import opened HeartbeatLifecycle
  import opened RailwayStatus
  import opened WatchdogTick
  import opened OverlappingTicks
  import opened RecoveryPacing
  import opened RecoveryBudget

  /** A crashed, unprobed service; every clock reading is `now` and every deploy call is accepted. */
  function CrashedRow(sid: string, dep: string, now: int): RowInput {
    RowInput(Row(sid, dep, CRASHED, Failed, false), true, false, now, true, now, now, true, now)
  }

  /** A service that is up but does not answer its probe. */
  function SilentRow(sid: string, dep: string, now: int): RowInput {
    RowInput(Row(sid, dep, SUCCESS, Online, true), true, false, now, true, now, now, true, now)
  }

  lemma CrashedPiece(cfg: Config, s: Shared, sid: string, dep: string, now: int)
    requires cfg.autoRecover && sid !in s.recoverCooldown
    ensures var p := FromStart(cfg, s, CrashedRow(sid, dep, now));
            p.stage == Some(AwaitAuto) && p.log == [AutoBegan(sid, now)] && sid !in p.shared.recoverCooldown
  {
    var r := CrashedRow(sid, dep, now);
    assert !ExitRedeployDue(cfg, s.lifecycle, r.row) && !Pings(cfg, r.row);
    assert UnprobedShared(cfg, s, r.row).recoverCooldown == s.recoverCooldown;
    assert AutoRecoverDue(cfg, s.recoverCooldown, r);
  }

  lemma BothCrashedEnter(cfg: Config, sid: string, dep: string, now: int) returns (moves: seq<Move>, w: Ticking)
    requires cfg.autoRecover
    ensures Overlapped(cfg, IDLE, moves) == Some(w)
    ensures var r := CrashedRow(sid, dep, now); w.calls == map[0 := Call(r, AwaitAuto), 1 := Call(r, AwaitAuto)]
  {
    var r := CrashedRow(sid, dep, now);
    CrashedPiece(cfg, IDLE.shared, sid, dep, now);
    OneMoreMove(cfg, IDLE, [], IDLE, Enter(0, r));
    var w1 := Perform(cfg, IDLE, Enter(0, r));
    assert w1.calls == map[0 := Call(r, AwaitAuto)];
    CrashedPiece(cfg, w1.shared, sid, dep, now);
    OneMoreMove(cfg, IDLE, [] + [Enter(0, r)], w1, Enter(1, r));
    moves, w := [] + [Enter(0, r)] + [Enter(1, r)], Perform(cfg, w1, Enter(1, r));
  }

  lemma OneAutoAnswered(cfg: Config, moves: seq<Move>, w: Ticking, t: nat, r: RowInput) returns (w': Ticking)
    requires Overlapped(cfg, IDLE, moves) == Some(w) && t in w.calls && w.calls[t] == Call(r, AwaitAuto)
    ensures Overlapped(cfg, IDLE, moves + [Resume(t, r)]) == Some(w') && w'.calls == w.calls - {t}
    ensures w'.log == w.log + [AutoAnswered(r.row.sid, r.autoNow, r.autoDone, r.autoDeployOk)]
  {
    OneMoreMove(cfg, IDLE, moves, w, Resume(t, r));
    w' := Perform(cfg, w, Resume(t, r));
  }

  /**
   Two ticks on one crashed service: both find no cooldown, and two auto-recover redeploys that began
   at the same moment are both accepted.
   */
  lemma OverlapDefeatsAutoCooldown(cfg: Config, sid: string, dep: string, now: int)
    returns (moves: seq<Move>, w: Ticking)
    requires cfg.autoRecover
    ensures Overlapped(cfg, IDLE, moves) == Some(w) && multiset(w.log)[AutoAnswered(sid, now, now, true)] >= 2
  {
    var r := CrashedRow(sid, dep, now);
    var entered, w0 := BothCrashedEnter(cfg, sid, dep, now);
    var w1 := OneAutoAnswered(cfg, entered, w0, 0, r);
    w := OneAutoAnswered(cfg, entered + [Resume(0, r)], w1, 1, r);
    moves := entered + [Resume(0, r)] + [Resume(1, r)];
  }

  // ---------------------------------------------------------------- heartbeat redeploys

  predicate HeartbeatOpen(cfg: Config, now: int) {
    cfg.heartbeatEnabled && !cfg.exit.exitRedeploy && cfg.heartbeatRecoverEnabled && cfg.autoRecover
    && cfg.missThreshold <= 1 && cfg.maxRecover > 0 && now >= cfg.cooldownMs
  }

  /** The service's record with no recovery booked and at most `misses` counted. */
  predicate Unused(s: Shared, sid: string, dep: string, rec: nat) {
    rec < |Objects(s, sid)| && Objects(s, sid)[rec].deploymentId == dep && Objects(s, sid)[rec].recoveriesUsed == 0
  }

  lemma SilentEnters(cfg: Config, s: Shared, sid: string, dep: string, now: int)
    requires HeartbeatOpen(cfg, now) && sid !in s.records && sid !in s.heartbeatLastRecoverAt
    ensures var p, rec := FromStart(cfg, s, SilentRow(sid, dep, now)), |Objects(s, sid)|;
            p.stage == Some(AwaitPing(rec)) && p.log == [] && Unused(p.shared, sid, dep, rec)
            && |Objects(p.shared, sid)| == rec + 1
            && (forall i :: 0 <= i < rec ==> Objects(p.shared, sid)[i] == Objects(s, sid)[i])
            && sid !in p.shared.records && sid !in p.shared.heartbeatLastRecoverAt
  {
  }

  lemma SilentBegins(cfg: Config, s: Shared, sid: string, dep: string, now: int, rec: nat)
    requires HeartbeatOpen(cfg, now) && Unused(s, sid, dep, rec) && sid !in s.heartbeatLastRecoverAt
    ensures var p := FromPing(cfg, s, SilentRow(sid, dep, now), rec);
            p.stage == Some(AwaitHeartbeat(rec)) && p.log == [HeartbeatBegan(sid, now)]
            && sid !in p.shared.heartbeatLastRecoverAt && |Objects(p.shared, sid)| == |Objects(s, sid)|
            && (forall i :: 0 <= i < |Objects(s, sid)| && i != rec ==> Objects(p.shared, sid)[i] == Objects(s, sid)[i])
  {
    assert CooldownOver(cfg, s.heartbeatLastRecoverAt, sid, now);
  }

  lemma BothEnter(cfg: Config, sid: string, dep: string, now: int) returns (moves: seq<Move>, w: Ticking)
    requires HeartbeatOpen(cfg, now)
    ensures Overlapped(cfg, IDLE, moves) == Some(w)
    ensures moves == [Enter(0, SilentRow(sid, dep, now)), Enter(1, SilentRow(sid, dep, now))]
    ensures var r := SilentRow(sid, dep, now); w.calls == map[0 := Call(r, AwaitPing(0)), 1 := Call(r, AwaitPing(1))]
    ensures Unused(w.shared, sid, dep, 0) && Unused(w.shared, sid, dep, 1)
    ensures sid !in w.shared.heartbeatLastRecoverAt && w.log == []
  {
    var r := SilentRow(sid, dep, now);
    var w1 := Perform(cfg, IDLE, Enter(0, r));
    SilentEnters(cfg, IDLE.shared, sid, dep, now);
    assert w1.calls == map[0 := Call(r, AwaitPing(0))];
    w := Perform(cfg, w1, Enter(1, r));
    SilentEnters(cfg, w1.shared, sid, dep, now);
    OneMoreMove(cfg, IDLE, [], IDLE, Enter(0, r));
    OneMoreMove(cfg, IDLE, [] + [Enter(0, r)], w1, Enter(1, r));
    moves := [] + [Enter(0, r)] + [Enter(1, r)];
  }

  /** The row of tick `t` begins its redeploy. */
  lemma OneBegins(cfg: Config, moves: seq<Move>, w: Ticking, t: nat, sid: string, dep: string, now: int, rec: nat)
    returns (w': Ticking)
    requires Overlapped(cfg, IDLE, moves) == Some(w) && HeartbeatOpen(cfg, now) && Unused(w.shared, sid, dep, rec)
    requires t in w.calls && w.calls[t] == Call(SilentRow(sid, dep, now), AwaitPing(rec))
    requires sid !in w.shared.heartbeatLastRecoverAt
    ensures Overlapped(cfg, IDLE, moves + [Resume(t, SilentRow(sid, dep, now))]) == Some(w')
    ensures w'.calls == w.calls[t := Call(SilentRow(sid, dep, now), AwaitHeartbeat(rec))]
    ensures Recoveries(w'.log, sid) == Recoveries(w.log, sid) && sid !in w'.shared.heartbeatLastRecoverAt
    ensures forall i :: i != rec && Unused(w.shared, sid, dep, i) ==> Unused(w'.shared, sid, dep, i)
  {
    var r := SilentRow(sid, dep, now);
    OneMoreMove(cfg, IDLE, moves, w, Resume(t, r));
    w' := Perform(cfg, w, Resume(t, r));
    SilentBegins(cfg, w.shared, sid, dep, now, rec);
    RecoveriesAppend(w.log, HeartbeatBegan(sid, now), sid);
  }

  lemma StoreEnds(cfg: Config, s: Shared, r: RowInput, rec: nat)
    requires IsHealthy(r.row.status)
    ensures ToStore(cfg, s, r, rec).stage.None?
  {
  }

  /** The redeploy of tick `t` is accepted, and its row ends. */
  lemma OneAnswered(cfg: Config, moves: seq<Move>, w: Ticking, t: nat, r: RowInput, rec: nat) returns (w': Ticking)
    requires Overlapped(cfg, IDLE, moves) == Some(w) && t in w.calls && w.calls[t] == Call(r, AwaitHeartbeat(rec))
    requires IsHealthy(r.row.status) && r.heartbeatDeployOk
    ensures Overlapped(cfg, IDLE, moves + [Resume(t, r)]) == Some(w') && w'.calls == w.calls - {t}
    ensures Recoveries(w'.log, r.row.sid) == Recoveries(w.log, r.row.sid) + [(r.heartbeatNow, r.heartbeatDone)]
  {
    OneMoreMove(cfg, IDLE, moves, w, Resume(t, r));
    var p := FromHeartbeat(cfg, w.shared, r, rec);
    w' := Moved(w, t, r, p);
    StoreEnds(cfg, AfterRecovery(w.shared, r, rec), r, rec);
    AnswerMeans(cfg, w.log, w.shared, r, rec, r.row.sid);
  }

  /** Both redeploys are under way. */
  lemma BothBegin(cfg: Config, moves: seq<Move>, w: Ticking, sid: string, dep: string, now: int) returns (w': Ticking)
    requires Overlapped(cfg, IDLE, moves) == Some(w) && HeartbeatOpen(cfg, now)
    requires var r := SilentRow(sid, dep, now); w.calls == map[0 := Call(r, AwaitPing(0)), 1 := Call(r, AwaitPing(1))]
    requires Unused(w.shared, sid, dep, 0) && Unused(w.shared, sid, dep, 1) && sid !in w.shared.heartbeatLastRecoverAt
    ensures var r := SilentRow(sid, dep, now);
            Overlapped(cfg, IDLE, moves + [Resume(0, r)] + [Resume(1, r)]) == Some(w')
    ensures var r := SilentRow(sid, dep, now);
            w'.calls == map[0 := Call(r, AwaitHeartbeat(0)), 1 := Call(r, AwaitHeartbeat(1))]
    ensures Recoveries(w'.log, sid) == Recoveries(w.log, sid)
  {
    var r := SilentRow(sid, dep, now);
    var w1 := OneBegins(cfg, moves, w, 0, sid, dep, now, 0);
    w' := OneBegins(cfg, moves + [Resume(0, r)], w1, 1, sid, dep, now, 1);
  }

  /** Both are accepted. */
  lemma BothAnswered(cfg: Config, moves: seq<Move>, w: Ticking, r: RowInput) returns (w': Ticking)
    requires Overlapped(cfg, IDLE, moves) == Some(w) && IsHealthy(r.row.status) && r.heartbeatDeployOk
    requires w.calls == map[0 := Call(r, AwaitHeartbeat(0)), 1 := Call(r, AwaitHeartbeat(1))]
    ensures Overlapped(cfg, IDLE, moves + [Resume(0, r)] + [Resume(1, r)]) == Some(w')
    ensures var x := (r.heartbeatNow, r.heartbeatDone);
            Recoveries(w'.log, r.row.sid) == Recoveries(w.log, r.row.sid) + [x] + [x]
  {
    var w1 := OneAnswered(cfg, moves, w, 0, r, 0);
    w' := OneAnswered(cfg, moves + [Resume(0, r)], w1, 1, r, 1);
  }

  lemma KeepsScope(moves: seq<Move>, t: nat, r: RowInput, sid: string, dep: string)
    requires OneRecordThroughout(moves, sid, dep) && AlwaysListed(moves, sid)
    ensures OneRecordThroughout(moves + [Resume(t, r)], sid, dep) && AlwaysListed(moves + [Resume(t, r)], sid)
  {
  }

  /**
   Two ticks on one service that does not answer: each works on a record object of its own, both pass
   the cooldown and budget checks, and two heartbeat redeploys that began at the same moment are
   accepted, whatever the cooldown and even with a budget of one.
   */
  lemma OverlapDefeatsRecoveryLimits(cfg: Config, sid: string, dep: string, now: int)
    returns (moves: seq<Move>, w: Ticking)
    requires HeartbeatOpen(cfg, now)
    ensures Overlapped(cfg, IDLE, moves) == Some(w) && Recoveries(w.log, sid) == [(now, now), (now, now)]
    ensures OneRecordThroughout(moves, sid, dep) && AlwaysListed(moves, sid)
  {
    var entered, w0 := BothEnter(cfg, sid, dep, now);
    var w1 := BothBegin(cfg, entered, w0, sid, dep, now);
    var r := SilentRow(sid, dep, now);
    var begun := entered + [Resume(0, r)] + [Resume(1, r)];
    w := BothAnswered(cfg, begun, w1, r);
    moves := begun + [Resume(0, r)] + [Resume(1, r)];
    KeepsScope(entered, 0, r, sid, dep);
    KeepsScope(entered + [Resume(0, r)], 1, r, sid, dep);
    KeepsScope(begun, 0, r, sid, dep);
    KeepsScope(begun + [Resume(0, r)], 1, r, sid, dep);
  }
}
