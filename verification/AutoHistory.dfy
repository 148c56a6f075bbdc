/**
 When auto-recover redeploys begin, told from the log alone and for every interleaving of overlapping ticks:
 a crashed service is redeployed whenever its row gets that far, unless the last accepted redeploy since it
 was seen healthy is less than the cooldown old.
 */
module AutoHistory {
  import opened Wrappers
  import opened RailwayStatus
  import opened WatchdogTick
  import opened OverlappingTicks
  import opened AutoPacing

  // ---------------------------------------------------------------- the cooldown map is the log

  function CooldownWith(m: map<string, int>, e: Event): map<string, int> {
    match e
    case SawHealthy(sid) => m - {sid}
    case AutoAnswered(sid, _, done, ok) => if ok then m[sid := done] else m
    case _ => m
  }

  /** The cooldown map after the events of `log`. */
  function CooldownAfter(m: map<string, int>, log: seq<Event>): map<string, int> {
    if log == [] then m else CooldownWith(CooldownAfter(m, log[..|log| - 1]), log[|log| - 1])
  }

  lemma {:induction false} CooldownOfConcat(m: map<string, int>, a: seq<Event>, b: seq<Event>)
    ensures CooldownAfter(m, a + b) == CooldownAfter(CooldownAfter(m, a), b)
  {
    if b == [] {
      assert a + b == a;
    } else {
      assert (a + b)[..|a + b| - 1] == a + b[..|b| - 1];
      CooldownOfConcat(m, a, b[..|b| - 1]);
    }
  }

  lemma CooldownOfOne(m: map<string, int>, e: Event)
    ensures CooldownAfter(m, [e]) == CooldownWith(m, e)
  {
    assert [e][..0] == [];
  }

  /** From the start of the process the map has exactly the last accepted redeploy since a healthy sighting. */
  lemma {:induction false} CooldownIsLastAccepted(log: seq<Event>, sid: string)
    ensures var m, dones := CooldownAfter(map[], log), AutoAccepted(log, sid);
            (sid in m <==> dones != []) && (dones != [] ==> m[sid] == dones[|dones| - 1])
  {
    if log != [] { CooldownIsLastAccepted(log[..|log| - 1], sid); }
  }

  // ---------------------------------------------------------------- the pieces of a row

  /** The row got as far as auto-recovery: it has ended, or awaits the answer to an auto-recover redeploy. */
  predicate ReachesAuto(stage: Option<Stage>) { stage.None? || stage.value.AwaitAuto? }

  predicate MayBegin(cfg: Config, m: map<string, int>, r: RowInput) {
    cfg.autoRecover && r.row.status in {CRASHED, FAILED}
    && (r.row.sid in m ==> r.autoNow - m[r.row.sid] >= 50_000)
  }

  /** What a piece that starts in `s` does to the cooldown map, and when it begins an auto-recover redeploy. */
  ghost predicate Follows(cfg: Config, s: Shared, p: Progress, r: RowInput) {
    p.shared.recoverCooldown == CooldownAfter(s.recoverCooldown, p.log)
    && (AutoBegan(r.row.sid, r.autoNow) in p.log
        <==> ReachesAuto(p.stage) && MayBegin(cfg, s.recoverCooldown, r))
  }

  lemma ToAutoFollows(cfg: Config, s: Shared, r: RowInput)
    ensures Follows(cfg, s, ToAuto(cfg, s, r), r)
  {
    var p := ToAuto(cfg, s, r);
    if p.log != [] { CooldownOfOne(s.recoverCooldown, p.log[0]); }
  }

  /** Events before the piece that have nothing to do with auto-recovery. */
  lemma FollowsAfter(cfg: Config, s: Shared, e: Event, p: Progress, r: RowInput)
    requires Follows(cfg, s, p, r) && !e.SawHealthy? && !e.AutoBegan? && !e.AutoAnswered?
    ensures Follows(cfg, s, After([e], p), r)
  {
    CooldownOfConcat(s.recoverCooldown, [e], p.log);
    CooldownOfOne(s.recoverCooldown, e);
  }

  /** Another state with the same cooldown map. */
  lemma FollowsFrom(cfg: Config, s: Shared, s': Shared, p: Progress, r: RowInput)
    requires Follows(cfg, s', p, r) && s'.recoverCooldown == s.recoverCooldown
    ensures Follows(cfg, s, p, r)
  {
  }

  /** A piece that stops at another await. */
  lemma StopFollows(cfg: Config, s: Shared, p: Progress, r: RowInput)
    requires p.shared.recoverCooldown == s.recoverCooldown && !ReachesAuto(p.stage)
    requires p.log == [] || (|p.log| == 1 && !p.log[0].SawHealthy? && !p.log[0].AutoBegan? && !p.log[0].AutoAnswered?)
    ensures Follows(cfg, s, p, r)
  {
    if p.log != [] { CooldownOfOne(s.recoverCooldown, p.log[0]); assert p.log == [p.log[0]]; }
  }

  lemma ToStoreFollows(cfg: Config, s: Shared, r: RowInput, rec: nat)
    ensures Follows(cfg, s, ToStore(cfg, s, r, rec), r)
  {
    var stored := s.(lifecycle := Heard(cfg, s.lifecycle, r), records := s.records[r.row.sid := rec]);
    ToAutoFollows(cfg, stored, r);
    FollowsFrom(cfg, s, stored, ToAuto(cfg, stored, r), r);
    FollowsAfter(cfg, s, Probed(r.row.sid, r.row.online, r.pingOk), ToAuto(cfg, stored, r), r);
  }

  lemma FromPingFollows(cfg: Config, s: Shared, r: RowInput, rec: nat)
    ensures Follows(cfg, s, FromPing(cfg, s, r, rec), r)
  {
    var sid, record := r.row.sid, Object(s, r.row.sid, rec);
    if !r.pingOk && HeartbeatDeployDue(cfg, record, s.heartbeatLastRecoverAt, r) {
      StopFollows(cfg, s, FromPing(cfg, s, r, rec), r);
    } else {
      var record' := if r.pingOk then Reached(record)
                     else RecordAfterMiss(cfg, record, s.heartbeatLastRecoverAt, r);
      ToStoreFollows(cfg, WithObject(s, sid, rec, record'), r, rec);
      FollowsFrom(cfg, s, WithObject(s, sid, rec, record'), FromPing(cfg, s, r, rec), r);
    }
  }

  lemma FromHeartbeatFollows(cfg: Config, s: Shared, r: RowInput, rec: nat)
    ensures Follows(cfg, s, FromHeartbeat(cfg, s, r, rec), r)
  {
    var s1 := AfterRecovery(s, r, rec);
    var e := HeartbeatAnswered(r.row.sid, r.row.depId, r.heartbeatNow, r.heartbeatDone, r.heartbeatDeployOk);
    ToStoreFollows(cfg, s1, r, rec);
    FollowsFrom(cfg, s, s1, ToStore(cfg, s1, r, rec), r);
    FollowsAfter(cfg, s, e, ToStore(cfg, s1, r, rec), r);
  }

  lemma ToPingFollows(cfg: Config, s: Shared, r: RowInput)
    ensures Follows(cfg, s, ToPing(cfg, s, r), r)
  {
    if Pings(cfg, r.row) {
      StopFollows(cfg, s, ToPing(cfg, s, r), r);
    } else {
      ToAutoFollows(cfg, UnprobedShared(cfg, s, r.row), r);
      FollowsFrom(cfg, s, UnprobedShared(cfg, s, r.row), ToPing(cfg, s, r), r);
    }
  }

  lemma FromExitFollows(cfg: Config, s: Shared, r: RowInput)
    ensures Follows(cfg, s, FromExit(cfg, s, r), r)
  {
    var s1 := s.(lifecycle := Settled(s.lifecycle, r));
    ToPingFollows(cfg, s1, r);
    FollowsFrom(cfg, s, s1, ToPing(cfg, s1, r), r);
    FollowsAfter(cfg, s, ExitAnswered(r.row.sid, r.exitDeployOk), ToPing(cfg, s1, r), r);
  }

  lemma FromStartFollows(cfg: Config, s: Shared, r: RowInput)
    ensures Follows(cfg, s, FromStart(cfg, s, r), r)
  {
    if ExitRedeployDue(cfg, s.lifecycle, r.row) {
      StopFollows(cfg, s, FromStart(cfg, s, r), r);
    } else {
      ToPingFollows(cfg, s, r);
    }
  }

  lemma ContinueFollows(cfg: Config, s: Shared, call: Call)
    requires !call.stage.AwaitAuto?
    ensures Follows(cfg, s, Continue(cfg, s, call), call.input)
  {
    match call.stage
    case AwaitExit => FromExitFollows(cfg, s, call.input);
    case AwaitPing(rec) => FromPingFollows(cfg, s, call.input, rec);
    case AwaitHeartbeat(rec) => FromHeartbeatFollows(cfg, s, call.input, rec);
  }

  lemma FromAutoFollows(cfg: Config, s: Shared, r: RowInput)
    ensures var p := FromAuto(s, r); p.shared.recoverCooldown == CooldownAfter(s.recoverCooldown, p.log)
  {
    CooldownOfOne(s.recoverCooldown, AutoAnswered(r.row.sid, r.autoNow, r.autoDone, r.autoDeployOk));
  }

  // ---------------------------------------------------------------- runs

  lemma MoveFollows(cfg: Config, w: Ticking, move: Move)
    requires Possible(w, move)
    ensures Perform(cfg, w, move).shared.recoverCooldown
            == CooldownAfter(w.shared.recoverCooldown, Added(cfg, w, move))
  {
    match move
    case Enter(_, r) => FromStartFollows(cfg, w.shared, r);
    case Resume(t, reply) =>
      var call := Replied(w.calls[t], reply);
      if call.stage.AwaitAuto? {
        FromAutoFollows(cfg, w.shared, call.input);
      } else {
        ContinueFollows(cfg, w.shared, call);
      }
    case Clean(_) =>
  }

  lemma MoveAdds(cfg: Config, w: Ticking, move: Move)
    requires Possible(w, move)
    ensures Perform(cfg, w, move).log == w.log + Added(cfg, w, move)
  {
  }

  lemma {:induction false} CooldownIsLog(cfg: Config, moves: seq<Move>, w: Ticking)
    requires Overlapped(cfg, IDLE, moves) == Some(w)
    ensures w.shared.recoverCooldown == CooldownAfter(map[], w.log)
  {
    if moves != [] {
      var front, last := moves[..|moves| - 1], moves[|moves| - 1];
      var before := Overlapped(cfg, IDLE, front).value;
      CooldownIsLog(cfg, front, before);
      MoveFollows(cfg, before, last);
      MoveAdds(cfg, before, last);
      CooldownOfConcat(map[], before.log, Added(cfg, before, last));
    }
  }

  /** Rest after the last of `dones`. */
  predicate RestedSince(dones: seq<int>, start: int) { dones == [] || start - dones[|dones| - 1] >= 50_000 }

  lemma MayBeginIff(cfg: Config, moves: seq<Move>, w: Ticking, r: RowInput)
    requires Overlapped(cfg, IDLE, moves) == Some(w)
    ensures MayBegin(cfg, w.shared.recoverCooldown, r)
            <==> cfg.autoRecover && r.row.status in {CRASHED, FAILED}
                 && RestedSince(AutoAccepted(w.log, r.row.sid), r.autoNow)
  {
    CooldownIsLog(cfg, moves, w);
    CooldownIsLastAccepted(w.log, r.row.sid);
  }

  /**
   After any run of ticks, however they overlap: a row that is entered begins an auto-recover redeploy in
   that piece if and only if it gets that far, auto-recovery is on, the deployment has crashed or failed,
   and 50 000 ms have passed since the last accepted redeploy after the last healthy sighting, if any.
   */
  lemma EnteredAutoIff(cfg: Config, moves: seq<Move>, w: Ticking, r: RowInput)
    requires Overlapped(cfg, IDLE, moves) == Some(w)
    ensures var p := FromStart(cfg, w.shared, r);
            AutoBegan(r.row.sid, r.autoNow) in p.log
            <==> ReachesAuto(p.stage) && cfg.autoRecover && r.row.status in {CRASHED, FAILED}
                 && RestedSince(AutoAccepted(w.log, r.row.sid), r.autoNow)
  {
    FromStartFollows(cfg, w.shared, r);
    MayBeginIff(cfg, moves, w, r);
  }

  /** The same for a row that goes on after an await. */
  lemma ResumedAutoIff(cfg: Config, moves: seq<Move>, w: Ticking, t: nat, reply: RowInput)
    requires Overlapped(cfg, IDLE, moves) == Some(w) && t in w.calls && !w.calls[t].stage.AwaitAuto?
    ensures var call := Replied(w.calls[t], reply);
            var p, r := Continue(cfg, w.shared, call), call.input;
            AutoBegan(r.row.sid, r.autoNow) in p.log
            <==> ReachesAuto(p.stage) && cfg.autoRecover && r.row.status in {CRASHED, FAILED}
                 && RestedSince(AutoAccepted(w.log, r.row.sid), r.autoNow)
  {
    var call := Replied(w.calls[t], reply);
    ContinueFollows(cfg, w.shared, call);
    MayBeginIff(cfg, moves, w, call.input);
  }
}
