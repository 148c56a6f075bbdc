/**
 What the hosted watchdog guarantees over whole runs, for every way in which the rows of overlapping
 ticks interleave: how many redeploys failed probes can cause, and how far apart redeploys are.
 */
module WatchdogRuns {
  import opened Wrappers
  import opened HeartbeatLifecycle
  import opened WatchdogTick
  import opened OverlappingTicks

  // ---------------------------------------------------------------- exit redeploys

  /** The lifecycle call a row makes when its ping is handled. */
  function PingCall(r: RowInput): Step {
    Probe(r.row.sid, r.row.depId, r.row.online, Ping(false, Some(r.pingOk)), true)
  }

  /** The failed ping of this row starts a heartbeat redeploy, so the lifecycle hears of it only later. */
  predicate RecoversFirst(cfg: Config, s: Shared, r: RowInput, rec: nat) {
    !r.pingOk && HeartbeatDeployDue(cfg, Object(s, r.row.sid, rec), s.heartbeatLastRecoverAt, r)
  }

  /** The lifecycle call of one piece of a row, if it makes one. */
  function PieceCalls(cfg: Config, s: Shared, call: Call): seq<Step> {
    match call.stage
    case AwaitExit => [AnswerCall(call.input)]
    case AwaitPing(rec) => if RecoversFirst(cfg, s, call.input, rec) then [] else [PingCall(call.input)]
    case AwaitHeartbeat(_) => [PingCall(call.input)]
    case AwaitAuto => []
  }

  function MoveCalls(cfg: Config, w: Ticking, move: Move): seq<Step>
    requires Possible(w, move)
  {
    match move
    case Enter(_, r) => if ExitRedeployDue(cfg, w.shared.lifecycle, r.row) then [Begin(r.row.sid)] else []
    case Resume(tick, reply) => PieceCalls(cfg, w.shared, Replied(w.calls[tick], reply))
    case Clean(_) => []
  }

  /** The lifecycle calls of a whole run. */
  function Calls(cfg: Config, moves: seq<Move>): seq<Step> {
    if moves == [] then []
    else
      var front, last := moves[..|moves| - 1], moves[|moves| - 1];
      var before := Overlapped(cfg, IDLE, front);
      Calls(cfg, front)
      + if before.Some? && Possible(before.value, last) then MoveCalls(cfg, before.value, last) else []
  }

  /** The rows of `sid` that wait for the answer to an exit redeploy. */
  function Unanswered(calls: map<nat, Call>, sid: string): set<nat> {
    set t | t in calls && calls[t].stage.AwaitExit? && calls[t].input.row.sid == sid
  }

  function AcceptedExitDeploys(log: seq<Event>, sid: string): nat { multiset(log)[ExitAnswered(sid, true)] }

  function FailedOnlinePings(log: seq<Event>, sid: string): nat { multiset(log)[Probed(sid, Online, false)] }

  /** The calls made so far are a lifecycle run with the same state, the same open calls and the same counts. */
  ghost predicate Mirrors(cfg: Config, steps: seq<Step>, w: Ticking, sid: string) {
    IsRun(cfg.exit, steps) && Run(cfg.exit, steps).st == w.shared.lifecycle
    && (forall id :: Run(cfg.exit, steps).inFlight[id] == |Unanswered(w.calls, id)|)
    && Successes(steps, sid) == AcceptedExitDeploys(w.log, sid)
    && FailedProbes(steps, sid) == FailedOnlinePings(w.log, sid)
  }

  lemma UnansweredStarts(calls: map<nat, Call>, t: nat, r: RowInput, id: string)
    requires t !in calls
    ensures |Unanswered(calls[t := Call(r, AwaitExit)], id)|
            == |Unanswered(calls, id)| + if id == r.row.sid then 1 else 0
  {
    var after := Unanswered(calls[t := Call(r, AwaitExit)], id);
    assert after == if id == r.row.sid then Unanswered(calls, id) + {t} else Unanswered(calls, id);
  }

  /** `calls'` is `calls` with row `t` gone on to something else. */
  ghost predicate MovedOn(calls: map<nat, Call>, calls': map<nat, Call>, t: nat) {
    (t in calls' ==> !calls'[t].stage.AwaitExit?)
    && forall u :: u != t ==> (u in calls <==> u in calls') && (u in calls ==> calls'[u] == calls[u])
  }

  lemma UnansweredMovesOn(calls: map<nat, Call>, calls': map<nat, Call>, t: nat, id: string)
    requires MovedOn(calls, calls', t)
    ensures Unanswered(calls', id) == Unanswered(calls, id) - {t}
  {
  }

  /** The rest of a piece: nothing for the lifecycle, nothing to count. */
  ghost predicate Quiet(p: Progress, life: Lifecycle, sid: string) {
    p.shared.lifecycle == life && (p.stage.Some? ==> !p.stage.value.AwaitExit?)
    && AcceptedExitDeploys(p.log, sid) == 0 && FailedOnlinePings(p.log, sid) == 0
  }

  lemma ToAutoIsQuiet(cfg: Config, s: Shared, r: RowInput, sid: string)
    ensures Quiet(ToAuto(cfg, s, r), s.lifecycle, sid)
  {
  }

  lemma ToPingIsQuiet(cfg: Config, s: Shared, r: RowInput, sid: string)
    ensures Quiet(ToPing(cfg, s, r), s.lifecycle, sid)
  {
    if !Pings(cfg, r.row) { ToAutoIsQuiet(cfg, UnprobedShared(cfg, s, r.row), r, sid); }
  }

  lemma EventCounts(e: Event, p: Progress, sid: string)
    ensures AcceptedExitDeploys(After([e], p).log, sid)
            == AcceptedExitDeploys(p.log, sid) + if e == ExitAnswered(sid, true) then 1 else 0
    ensures FailedOnlinePings(After([e], p).log, sid)
            == FailedOnlinePings(p.log, sid) + if e == Probed(sid, Online, false) then 1 else 0
  {
  }

  /** What handling the ping means: one lifecycle call, and a failed probe if it is one. */
  ghost predicate Pinged(cfg: Config, p: Progress, life: Lifecycle, r: RowInput, sid: string) {
    p.shared.lifecycle
      == Heard(cfg, life, r)
    && (p.stage.Some? ==> !p.stage.value.AwaitExit?)
    && AcceptedExitDeploys(p.log, sid) == 0
    && FailedOnlinePings(p.log, sid)
       == if Probed(r.row.sid, r.row.online, r.pingOk) == Probed(sid, Online, false) then 1 else 0
  }

  lemma ToStoreIsPinged(cfg: Config, s: Shared, r: RowInput, rec: nat, sid: string)
    ensures Pinged(cfg, ToStore(cfg, s, r, rec), s.lifecycle, r, sid)
  {
    var life := Heard(cfg, s.lifecycle, r);
    var s1 := s.(lifecycle := life, records := s.records[r.row.sid := rec]);
    ToAutoIsQuiet(cfg, s1, r, sid);
    EventCounts(Probed(r.row.sid, r.row.online, r.pingOk), ToAuto(cfg, s1, r), sid);
  }

  lemma FromPingMeans(cfg: Config, s: Shared, r: RowInput, rec: nat, sid: string)
    ensures var p := FromPing(cfg, s, r, rec);
            if RecoversFirst(cfg, s, r, rec) then Quiet(p, s.lifecycle, sid) else Pinged(cfg, p, s.lifecycle, r, sid)
  {
    var record := Object(s, r.row.sid, rec);
    if r.pingOk {
      ToStoreIsPinged(cfg, WithObject(s, r.row.sid, rec, Reached(record)),
                      r, rec, sid);
    } else if !RecoversFirst(cfg, s, r, rec) {
      ToStoreIsPinged(cfg, WithObject(s, r.row.sid, rec, RecordAfterMiss(cfg, record, s.heartbeatLastRecoverAt, r)),
                      r, rec, sid);
    }
  }

  lemma FromHeartbeatMeans(cfg: Config, s: Shared, r: RowInput, rec: nat, sid: string)
    ensures Pinged(cfg, FromHeartbeat(cfg, s, r, rec), s.lifecycle, r, sid)
  {
    var s1 := AfterRecovery(s, r, rec);
    ToStoreIsPinged(cfg, s1, r, rec, sid);
    EventCounts(HeartbeatAnswered(r.row.sid, r.row.depId, r.heartbeatNow, r.heartbeatDone, r.heartbeatDeployOk),
                ToStore(cfg, s1, r, rec), sid);
  }

  function AnswerCall(r: RowInput): Step {
    if r.exitDeployOk then Succeeded(r.row.sid) else FailedDeploy(r.row.sid)
  }

  /** What the answer to an exit redeploy means. */
  ghost predicate Answered(p: Progress, life: Lifecycle, r: RowInput, sid: string) {
    p.shared.lifecycle == (Settled(life, r))
    && (p.stage.Some? ==> !p.stage.value.AwaitExit?)
    && AcceptedExitDeploys(p.log, sid) == (if AnswerCall(r) == Succeeded(sid) then 1 else 0)
    && FailedOnlinePings(p.log, sid) == 0
  }

  lemma FromExitIsAnswered(cfg: Config, s: Shared, r: RowInput, sid: string)
    ensures Answered(FromExit(cfg, s, r), s.lifecycle, r, sid)
  {
    var life := Settled(s.lifecycle, r);
    ToPingIsQuiet(cfg, s.(lifecycle := life), r, sid);
    EventCounts(ExitAnswered(r.row.sid, r.exitDeployOk), ToPing(cfg, s.(lifecycle := life), r), sid);
  }

  // -- one move

  lemma CountsAdd(log: seq<Event>, more: seq<Event>, sid: string)
    ensures AcceptedExitDeploys(log + more, sid) == AcceptedExitDeploys(log, sid) + AcceptedExitDeploys(more, sid)
    ensures FailedOnlinePings(log + more, sid) == FailedOnlinePings(log, sid) + FailedOnlinePings(more, sid)
  {
  }

  /** A piece that is no lifecycle call. */
  lemma QuietMirrors(cfg: Config, steps: seq<Step>, w: Ticking, t: nat, r: RowInput, p: Progress, sid: string)
    requires Mirrors(cfg, steps, w, sid) && Quiet(p, w.shared.lifecycle, sid)
    requires t in w.calls ==> !w.calls[t].stage.AwaitExit?
    ensures Mirrors(cfg, steps, Moved(w, t, r, p), sid)
  {
    var w' := Moved(w, t, r, p);
    CountsAdd(w.log, p.log, sid);
    forall id ensures |Unanswered(w'.calls, id)| == |Unanswered(w.calls, id)| {
      UnansweredMovesOn(w.calls, w'.calls, t, id);
      assert t !in Unanswered(w.calls, id);
      assert Unanswered(w.calls, id) - {t} == Unanswered(w.calls, id);
    }
  }

  lemma PingedMirrors(cfg: Config, steps: seq<Step>, w: Ticking, t: nat, r: RowInput, p: Progress, sid: string)
    requires Mirrors(cfg, steps, w, sid) && Pinged(cfg, p, w.shared.lifecycle, r, sid)
    requires t in w.calls ==> !w.calls[t].stage.AwaitExit?
    ensures Mirrors(cfg, steps + [PingCall(r)], Moved(w, t, r, p), sid)
  {
    var w' := Moved(w, t, r, p);
    Extend(cfg.exit, steps, PingCall(r), sid);
    CountsAdd(w.log, p.log, sid);
    forall id ensures |Unanswered(w'.calls, id)| == |Unanswered(w.calls, id)| {
      UnansweredMovesOn(w.calls, w'.calls, t, id);
      assert t !in Unanswered(w.calls, id);
      assert Unanswered(w.calls, id) - {t} == Unanswered(w.calls, id);
    }
  }

  lemma UnansweredEnds(calls: map<nat, Call>, calls': map<nat, Call>, t: nat, id: string)
    requires MovedOn(calls, calls', t) && t in calls && calls[t].stage.AwaitExit?
    ensures |Unanswered(calls, id)| == |Unanswered(calls', id)| + if id == calls[t].input.row.sid then 1 else 0
  {
    UnansweredMovesOn(calls, calls', t, id);
    if id == calls[t].input.row.sid {
      assert t in Unanswered(calls, id);
      assert |Unanswered(calls, id) - {t}| == |Unanswered(calls, id)| - 1;
    } else {
      assert Unanswered(calls, id) - {t} == Unanswered(calls, id);
    }
  }

  /** An awaited answer belongs to a call that is open in the lifecycle's run. */
  lemma AwaitedIsOpen(cfg: Config, steps: seq<Step>, w: Ticking, t: nat, sid: string)
    requires Mirrors(cfg, steps, w, sid) && t in w.calls && w.calls[t].stage.AwaitExit?
    ensures Run(cfg.exit, steps).inFlight[w.calls[t].input.row.sid] > 0
  {
    assert t in Unanswered(w.calls, w.calls[t].input.row.sid);
  }

  lemma AnsweredMirrors(cfg: Config, steps: seq<Step>, w: Ticking, t: nat, r: RowInput, p: Progress, sid: string)
    requires Mirrors(cfg, steps, w, sid) && t in w.calls && w.calls[t].stage.AwaitExit? && w.calls[t].input.row == r.row
    requires Answered(p, w.shared.lifecycle, r, sid)
    ensures Mirrors(cfg, steps + [AnswerCall(r)], Moved(w, t, r, p), sid)
  {
    var w' := Moved(w, t, r, p);
    AwaitedIsOpen(cfg, steps, w, t, sid);
    Extend(cfg.exit, steps, AnswerCall(r), sid);
    CountsAdd(w.log, p.log, sid);
    forall id
      ensures |Unanswered(w.calls, id)| == |Unanswered(w'.calls, id)| + if id == r.row.sid then 1 else 0
    {
      UnansweredEnds(w.calls, w'.calls, t, id);
    }
  }

  lemma ExitMirrors(cfg: Config, steps: seq<Step>, w: Ticking, t: nat, call: Call, sid: string)
    requires Mirrors(cfg, steps, w, sid) && t in w.calls && call.stage.AwaitExit?
    requires w.calls[t].stage == call.stage && w.calls[t].input.row == call.input.row
    ensures Mirrors(cfg, steps + PieceCalls(cfg, w.shared, call),
                    Moved(w, t, call.input, Continue(cfg, w.shared, call)), sid)
  {
    FromExitIsAnswered(cfg, w.shared, call.input, sid);
    AnsweredMirrors(cfg, steps, w, t, call.input, FromExit(cfg, w.shared, call.input), sid);
  }

  /** The row stops with its exit redeploy issued. */
  lemma BegunMirrors(cfg: Config, steps: seq<Step>, w: Ticking, t: nat, r: RowInput, p: Progress, sid: string)
    requires Mirrors(cfg, steps, w, sid) && t !in w.calls && Peek(w.shared.lifecycle, r.row.sid)
    requires p.shared.lifecycle == ClearFlag(w.shared.lifecycle, r.row.sid)
    requires p.stage == Some(AwaitExit) && p.log == [ExitBegan(r.row.sid)]
    ensures Mirrors(cfg, steps + [Begin(r.row.sid)], Moved(w, t, r, p), sid)
  {
    Extend(cfg.exit, steps, Begin(r.row.sid), sid);
    CountsAdd(w.log, p.log, sid);
    forall id { UnansweredStarts(w.calls, t, r, id); }
  }

  lemma EnterMirrors(cfg: Config, steps: seq<Step>, w: Ticking, t: nat, r: RowInput, sid: string)
    requires Mirrors(cfg, steps, w, sid) && t !in w.calls
    ensures Mirrors(cfg, steps + MoveCalls(cfg, w, Enter(t, r)), Perform(cfg, w, Enter(t, r)), sid)
  {
    if ExitRedeployDue(cfg, w.shared.lifecycle, r.row) {
      BegunMirrors(cfg, steps, w, t, r, FromStart(cfg, w.shared, r), sid);
    } else {
      assert steps + [] == steps;
      ToPingIsQuiet(cfg, w.shared, r, sid);
      QuietMirrors(cfg, steps, w, t, r, ToPing(cfg, w.shared, r), sid);
    }
  }

  lemma PingMirrors(cfg: Config, steps: seq<Step>, w: Ticking, t: nat, call: Call, sid: string)
    requires Mirrors(cfg, steps, w, sid) && t in w.calls && !w.calls[t].stage.AwaitExit? && call.stage.AwaitPing?
    ensures Mirrors(cfg, steps + PieceCalls(cfg, w.shared, call),
                    Moved(w, t, call.input, Continue(cfg, w.shared, call)), sid)
  {
    var r, rec := call.input, call.stage.rec;
    FromPingMeans(cfg, w.shared, r, rec, sid);
    if RecoversFirst(cfg, w.shared, r, rec) {
      assert steps + [] == steps;
      QuietMirrors(cfg, steps, w, t, r, FromPing(cfg, w.shared, r, rec), sid);
    } else {
      PingedMirrors(cfg, steps, w, t, r, FromPing(cfg, w.shared, r, rec), sid);
    }
  }

  lemma HeartbeatMirrors(cfg: Config, steps: seq<Step>, w: Ticking, t: nat, call: Call, sid: string)
    requires Mirrors(cfg, steps, w, sid) && t in w.calls && !w.calls[t].stage.AwaitExit? && call.stage.AwaitHeartbeat?
    ensures Mirrors(cfg, steps + PieceCalls(cfg, w.shared, call),
                    Moved(w, t, call.input, Continue(cfg, w.shared, call)), sid)
  {
    FromHeartbeatMeans(cfg, w.shared, call.input, call.stage.rec, sid);
    PingedMirrors(cfg, steps, w, t, call.input, FromHeartbeat(cfg, w.shared, call.input, call.stage.rec), sid);
  }

  lemma AutoMirrors(cfg: Config, steps: seq<Step>, w: Ticking, t: nat, call: Call, sid: string)
    requires Mirrors(cfg, steps, w, sid) && t in w.calls && !w.calls[t].stage.AwaitExit? && call.stage.AwaitAuto?
    ensures Mirrors(cfg, steps + PieceCalls(cfg, w.shared, call),
                    Moved(w, t, call.input, Continue(cfg, w.shared, call)), sid)
  {
    assert steps + [] == steps;
    QuietMirrors(cfg, steps, w, t, call.input, FromAuto(w.shared, call.input), sid);
  }

  lemma ResumeMirrors(cfg: Config, steps: seq<Step>, w: Ticking, t: nat, call: Call, sid: string)
    requires Mirrors(cfg, steps, w, sid) && t in w.calls
    requires w.calls[t].stage == call.stage && w.calls[t].input.row == call.input.row
    ensures Mirrors(cfg, steps + PieceCalls(cfg, w.shared, call),
                    Moved(w, t, call.input, Continue(cfg, w.shared, call)), sid)
  {
    match call.stage
    case AwaitExit => ExitMirrors(cfg, steps, w, t, call, sid);
    case AwaitPing(_) => PingMirrors(cfg, steps, w, t, call, sid);
    case AwaitHeartbeat(_) => HeartbeatMirrors(cfg, steps, w, t, call, sid);
    case AwaitAuto => AutoMirrors(cfg, steps, w, t, call, sid);
  }

  /** Overlapping ticks refine the lifecycle's step system: the same states, open calls and counts. */
  lemma {:induction false} TicksRefineLifecycle(cfg: Config, moves: seq<Move>, w: Ticking, sid: string)
    requires Overlapped(cfg, IDLE, moves) == Some(w)
    ensures Mirrors(cfg, Calls(cfg, moves), w, sid)
  {
    if moves == [] {
      assert forall id :: Unanswered(w.calls, id) == {};
    } else {
      var front, last := moves[..|moves| - 1], moves[|moves| - 1];
      var before := Overlapped(cfg, IDLE, front).value;
      TicksRefineLifecycle(cfg, front, before, sid);
      match last
      case Enter(t, r) => EnterMirrors(cfg, Calls(cfg, front), before, t, r, sid);
      case Resume(t, reply) => ResumeMirrors(cfg, Calls(cfg, front), before, t, Replied(before.calls[t], reply), sid);
      case Clean(_) => assert Calls(cfg, moves) == Calls(cfg, front);
    }
  }

  /** Exit redeploys of `sid` that were accepted, are awaited or are pending. */
  function ExitRedeploys(w: Ticking, sid: string): nat {
    AcceptedExitDeploys(w.log, sid) + |Unanswered(w.calls, sid)| + if Peek(w.shared.lifecycle, sid) then 1 else 0
  }

  /**
   Over any run of ticks, overlapping or not, every exit redeploy of a service, accepted, awaited or
   pending, was paid for by `threshold` failed pings of that service while it was labelled online.
   */
  lemma WatchdogExitBound(cfg: Config, moves: seq<Move>, w: Ticking, sid: string)
    requires cfg.exit.Valid() && Overlapped(cfg, IDLE, moves) == Some(w)
    ensures cfg.exit.threshold * ExitRedeploys(w, sid) <= FailedOnlinePings(w.log, sid)
  {
    TicksRefineLifecycle(cfg, moves, w, sid);
    ExitRedeployBound(cfg.exit, Calls(cfg, moves), sid);
    assert Redeploys(cfg.exit, Calls(cfg, moves), sid) == ExitRedeploys(w, sid);
  }
}
