/**
 The heartbeat records told from what the ticks saw and logged: which record a service has, how many misses
 and recoveries it counts, and so when a failed ping makes the watchdog redeploy.  Ticks run one after the
 other; `OverlappingTicks` relates them to overlapping ones.
 */
module RecordHistory {
  import opened Wrappers
  import opened HeartbeatLifecycle
  import opened RailwayStatus
  import opened WatchdogTick

  // ---------------------------------------------------------------- what a run says about a service

  predicate IsRowOf(step: TickStep, sid: string) { step.RowOf? && step.input.row.sid == sid }

  /** The row is pinged. */
  predicate Pinging(cfg: Config, r: RowInput) { cfg.heartbeatEnabled && r.row.probed }

  /** A failed ping of the row counts as a miss. */
  predicate CountsMisses(cfg: Config, r: RowInput) {
    !cfg.exit.exitRedeploy && cfg.heartbeatRecoverEnabled && cfg.autoRecover && r.row.status in {SUCCESS, SLEEPING}
  }

  /** What the last step added to the log. */
  function LastLog(cfg: Config, steps: seq<TickStep>): seq<Effect>
    requires steps != []
  {
    var before, after := Exec(cfg, EMPTY_STATE, steps[..|steps| - 1]).log, Exec(cfg, EMPTY_STATE, steps).log;
    if |before| <= |after| then after[|before|..] else []
  }

  /** The end of an accepted heartbeat redeploy of `sid` among these effects. */
  function AcceptedAt(log: seq<Effect>, sid: string): Option<int> {
    if log == [] then None
    else if log[0].HeartbeatDeploy? && log[0].sid == sid && log[0].ok then Some(log[0].done)
    else AcceptedAt(log[1..], sid)
  }

  /** The deployment whose record is kept: that of the last pinged row, until a row is not pinged or not listed. */
  function KeptFor(cfg: Config, steps: seq<TickStep>, sid: string): Option<string> {
    if steps == [] then None
    else
      var front, last := KeptFor(cfg, steps[..|steps| - 1], sid), steps[|steps| - 1];
      if IsRowOf(last, sid) && Pinging(cfg, last.input) then Some(last.input.row.depId)
      else if IsRowOf(last, sid) && cfg.heartbeatEnabled then None
      else if last.Prune? && sid !in last.ids then None
      else front
  }

  /** The row goes on with the record kept from before. */
  predicate GoesOn(cfg: Config, front: seq<TickStep>, r: RowInput) {
    KeptFor(cfg, front, r.row.sid) == Some(r.row.depId)
  }

  /**
   Misses of the record kept: failed pings that count, since the last of an answer, an accepted recovery, a
   failed ping while the deployment was not up, and the start of the record.
   */
  function Misses(cfg: Config, steps: seq<TickStep>, sid: string): nat {
    if steps == [] || KeptFor(cfg, steps, sid).None? then 0
    else
      var front, last := steps[..|steps| - 1], steps[|steps| - 1];
      if !IsRowOf(last, sid) || !Pinging(cfg, last.input) then Misses(cfg, front, sid)
      else
        var r := last.input;
        if r.pingOk || r.row.status !in {SUCCESS, SLEEPING} || AcceptedAt(LastLog(cfg, steps), sid).Some? then 0
        else
          (if GoesOn(cfg, front, r) then Misses(cfg, front, sid) else 0) + if CountsMisses(cfg, r) then 1 else 0
  }

  /** Accepted recoveries booked on the record kept. */
  function Used(cfg: Config, steps: seq<TickStep>, sid: string): nat {
    if steps == [] || KeptFor(cfg, steps, sid).None? then 0
    else
      var front, last := steps[..|steps| - 1], steps[|steps| - 1];
      if !IsRowOf(last, sid) || !Pinging(cfg, last.input) then Used(cfg, front, sid)
      else
        (if GoesOn(cfg, front, last.input) then Used(cfg, front, sid) else 0)
        + if AcceptedAt(LastLog(cfg, steps), sid).Some? then 1 else 0
  }

  /** When the last accepted recovery ended, forgotten once the service is not listed. */
  function LastRecovered(cfg: Config, steps: seq<TickStep>, sid: string): Option<int> {
    if steps == [] then None
    else
      var front, last := LastRecovered(cfg, steps[..|steps| - 1], sid), steps[|steps| - 1];
      if last.Prune? then if sid in last.ids then front else None
      else if AcceptedAt(LastLog(cfg, steps), sid).Some? then AcceptedAt(LastLog(cfg, steps), sid)
      else front
  }

  /** The row last seen, forgotten once the service is not listed. */
  function LastSeen(steps: seq<TickStep>, sid: string): Option<PrevEntry> {
    if steps == [] then None
    else
      var front, last := LastSeen(steps[..|steps| - 1], sid), steps[|steps| - 1];
      if last.Prune? then if sid in last.ids then front else None
      else if last.input.row.sid == sid
      then Some(PrevEntry(last.input.row.status, last.input.row.depId, last.input.row.online))
      else front
  }

  // ---------------------------------------------------------------- the state says the same

  /** The record of the service: its deployment and its two counts. */
  ghost predicate RecordReads(st: WatchdogState, sid: string, dep: Option<string>, misses: nat, used: nat) {
    (sid in st.heartbeatRecords <==> dep.Some?)
    && (dep.Some? ==>
          st.heartbeatRecords[sid].deploymentId == dep.value
          && st.heartbeatRecords[sid].consecutiveMisses == misses && st.heartbeatRecords[sid].recoveriesUsed == used)
  }

  ghost predicate TimesRead(st: WatchdogState, sid: string, recovered: Option<int>, seen: Option<PrevEntry>) {
    (sid in st.heartbeatLastRecoverAt <==> recovered.Some?)
    && (recovered.Some? ==> st.heartbeatLastRecoverAt[sid] == recovered.value)
    && (sid in st.prev <==> seen.Some?) && (seen.Some? ==> st.prev[sid] == seen.value)
  }

  lemma AcceptedInRow(cfg: Config, st: WatchdogState, r: RowInput, sid: string)
    ensures var st1 := st.(lifecycle := ExitPhase(cfg, st.lifecycle, r));
            AcceptedAt(RowStep(cfg, st, r).log, sid)
            == if r.row.sid == sid && RecoversNow(cfg, st1, r) && r.heartbeatDeployOk then Some(r.heartbeatDone)
               else None
  {
    var st1 := st.(lifecycle := ExitPhase(cfg, st.lifecycle, r));
    var exit, probe := ExitLog(cfg, st.lifecycle, r), HeartbeatLog(cfg, st1, r);
    var auto := AutoLog(cfg, st.recoverCooldown, r);
    AcceptedOfConcat(exit + probe, auto, sid);
    AcceptedOfConcat(exit, probe, sid);
    AcceptedOfHeartbeat(cfg, st1, r, sid);
    if exit != [] { assert exit[1..] == []; }
    if auto != [] { assert auto[1..] == []; }
  }

  lemma {:induction false} AcceptedOfConcat(a: seq<Effect>, b: seq<Effect>, sid: string)
    ensures AcceptedAt(a + b, sid) == if AcceptedAt(a, sid).Some? then AcceptedAt(a, sid) else AcceptedAt(b, sid)
  {
    if a == [] {
      assert a + b == b;
    } else {
      assert (a + b)[1..] == a[1..] + b;
      AcceptedOfConcat(a[1..], b, sid);
    }
  }

  lemma AcceptedOfHeartbeat(cfg: Config, st: WatchdogState, r: RowInput, sid: string)
    ensures AcceptedAt(HeartbeatLog(cfg, st, r), sid)
            == if r.row.sid == sid && RecoversNow(cfg, st, r) && r.heartbeatDeployOk then Some(r.heartbeatDone)
               else None
  {
    var deploy := if RecoversNow(cfg, st, r)
                  then [HeartbeatDeploy(r.row.sid, r.row.depId, r.heartbeatNow, r.heartbeatDone, r.heartbeatDeployOk)]
                  else [];
    var ping := if Pings(cfg, r.row) then [Pinged(r.row.sid, r.row.online, r.pingOk)] else [];
    AcceptedOfConcat(deploy, ping, sid);
    if deploy != [] { assert deploy[1..] == []; }
    if ping != [] { assert ping[1..] == []; }
  }

  lemma LastLogOfRow(cfg: Config, front: seq<TickStep>, r: RowInput)
    ensures LastLog(cfg, front + [RowOf(r)]) == RowStep(cfg, Exec(cfg, EMPTY_STATE, front).state, r).log
  {
    assert (front + [RowOf(r)])[..|front|] == front;
  }

  /** A ping of the service: the record it leaves. */
  lemma PingReads(cfg: Config, st: WatchdogState, r: RowInput, dep: Option<string>, misses: nat, used: nat)
    requires RecordReads(st, r.row.sid, dep, misses, used) && Pinging(cfg, r)
    ensures var recovered := RecoversNow(cfg, st, r) && r.heartbeatDeployOk;
            var kept := dep == Some(r.row.depId);
            RecordReads(HeartbeatPhase(cfg, st, r), r.row.sid, Some(r.row.depId),
                        if r.pingOk || r.row.status !in {SUCCESS, SLEEPING} || recovered then 0
                        else (if kept then misses else 0) + (if CountsMisses(cfg, r) then 1 else 0),
                        (if kept then used else 0) + if recovered then 1 else 0)
  {
  }

  lemma RowReads(cfg: Config, st: WatchdogState, r: RowInput, sid: string, dep: Option<string>, misses: nat, used: nat)
    requires RecordReads(st, sid, dep, misses, used) && (r.row.sid != sid || !cfg.heartbeatEnabled)
    ensures RecordReads(RowStep(cfg, st, r).state, sid, dep, misses, used)
  {
  }

  lemma UnpingedReads(cfg: Config, st: WatchdogState, r: RowInput)
    requires cfg.heartbeatEnabled && !Pinging(cfg, r)
    ensures RecordReads(RowStep(cfg, st, r).state, r.row.sid, None, 0, 0)
  {
  }

  lemma PruneReads(st: WatchdogState, ids: set<string>, sid: string, dep: Option<string>, misses: nat, used: nat)
    requires RecordReads(st, sid, dep, misses, used)
    ensures if sid in ids then RecordReads(PruneStep(st, ids), sid, dep, misses, used)
            else RecordReads(PruneStep(st, ids), sid, None, 0, 0)
  {
  }

  /** In every run the record kept for a service, its misses and its recoveries are those of the history. */
  lemma {:induction false} RecordIsHistory(cfg: Config, steps: seq<TickStep>, sid: string)
    ensures RecordReads(Exec(cfg, EMPTY_STATE, steps).state, sid, KeptFor(cfg, steps, sid),
                        Misses(cfg, steps, sid), Used(cfg, steps, sid))
  {
    if steps != [] {
      var front, last := steps[..|steps| - 1], steps[|steps| - 1];
      var st := Exec(cfg, EMPTY_STATE, front).state;
      var dep, misses, used := KeptFor(cfg, front, sid), Misses(cfg, front, sid), Used(cfg, front, sid);
      RecordIsHistory(cfg, front, sid);
      match last
      case Prune(ids) => PruneReads(st, ids, sid, dep, misses, used);
      case RowOf(r) =>
        if r.row.sid != sid || !cfg.heartbeatEnabled {
          RowReads(cfg, st, r, sid, dep, misses, used);
        } else if !Pinging(cfg, r) {
          UnpingedReads(cfg, st, r);
        } else {
          assert steps == front + [RowOf(r)];
          LastLogOfRow(cfg, front, r);
          AcceptedInRow(cfg, st, r, sid);
          PingReads(cfg, st.(lifecycle := ExitPhase(cfg, st.lifecycle, r)), r, dep, misses, used);
        }
    }
  }

  lemma RowTimes(cfg: Config, st: WatchdogState, r: RowInput, sid: string, recovered: Option<int>,
                 seen: Option<PrevEntry>)
    requires TimesRead(st, sid, recovered, seen)
    ensures var accepted := AcceptedAt(RowStep(cfg, st, r).log, sid);
            TimesRead(RowStep(cfg, st, r).state, sid, if accepted.Some? then accepted else recovered,
                      if r.row.sid == sid then Some(PrevEntry(r.row.status, r.row.depId, r.row.online)) else seen)
  {
    AcceptedInRow(cfg, st, r, sid);
  }

  /** In every run the recovery times and the rows remembered are those of the history. */
  lemma {:induction false} TimesAreHistory(cfg: Config, steps: seq<TickStep>, sid: string)
    ensures TimesRead(Exec(cfg, EMPTY_STATE, steps).state, sid, LastRecovered(cfg, steps, sid), LastSeen(steps, sid))
  {
    if steps != [] {
      var front, last := steps[..|steps| - 1], steps[|steps| - 1];
      TimesAreHistory(cfg, front, sid);
      if last.RowOf? {
        assert steps == front + [RowOf(last.input)];
        LastLogOfRow(cfg, front, last.input);
        RowTimes(cfg, Exec(cfg, EMPTY_STATE, front).state, last.input, sid, LastRecovered(cfg, front, sid),
                 LastSeen(front, sid));
      }
    }
  }

  /** A record shows the row remembered for its service, and there is none with heartbeats off. */
  ghost predicate ShowsSeen(cfg: Config, st: WatchdogState, sid: string) {
    sid in st.heartbeatRecords ==>
      cfg.heartbeatEnabled && sid in st.prev
      && st.heartbeatRecords[sid].status == st.prev[sid].status
      && st.heartbeatRecords[sid].deploymentId == st.prev[sid].deploymentId
  }

  lemma PingKeepsIdentity(cfg: Config, rec: HeartbeatRecord, last: map<string, int>, r: RowInput)
    ensures var rec' := RecordAfterPing(cfg, rec, last, r);
            rec'.status == rec.status && rec'.deploymentId == rec.deploymentId
  {
  }

  lemma PhaseShowsRow(cfg: Config, st: WatchdogState, r: RowInput, sid: string)
    requires sid in st.heartbeatRecords ==> cfg.heartbeatEnabled
    ensures var st' := HeartbeatPhase(cfg, st, r);
            sid in st'.heartbeatRecords ==>
              cfg.heartbeatEnabled
              && if sid == r.row.sid
                 then st'.heartbeatRecords[sid].status == r.row.status
                      && st'.heartbeatRecords[sid].deploymentId == r.row.depId
                 else sid in st.heartbeatRecords && st'.heartbeatRecords[sid] == st.heartbeatRecords[sid]
  {
    PingKeepsIdentity(cfg, CurrentRecord(st.heartbeatRecords, r.row), st.heartbeatLastRecoverAt, r);
  }

  lemma RowShowsSeen(cfg: Config, st: WatchdogState, r: RowInput, sid: string)
    requires ShowsSeen(cfg, st, sid)
    ensures ShowsSeen(cfg, RowStep(cfg, st, r).state, sid)
  {
    var st1 := st.(lifecycle := ExitPhase(cfg, st.lifecycle, r));
    PhaseShowsRow(cfg, st1, r, sid);
    RowIsPhase(cfg, st, r, HeartbeatPhase(cfg, st1, r));
  }

  lemma RowIsPhase(cfg: Config, st: WatchdogState, r: RowInput, after: WatchdogState)
    requires after == HeartbeatPhase(cfg, st.(lifecycle := ExitPhase(cfg, st.lifecycle, r)), r)
    ensures var st' := RowStep(cfg, st, r).state;
            st'.heartbeatRecords == after.heartbeatRecords
            && st'.prev == st.prev[r.row.sid := PrevEntry(r.row.status, r.row.depId, r.row.online)]
  {
  }

  /** In every run a record has the status and the deployment of the row seen last. */
  lemma {:induction false} StatusIsHistory(cfg: Config, steps: seq<TickStep>, sid: string)
    ensures ShowsSeen(cfg, Exec(cfg, EMPTY_STATE, steps).state, sid)
  {
    if steps != [] {
      var front, last := steps[..|steps| - 1], steps[|steps| - 1];
      StatusIsHistory(cfg, front, sid);
      if last.RowOf? { RowShowsSeen(cfg, Exec(cfg, EMPTY_STATE, front).state, last.input, sid); }
    }
  }

  // ---------------------------------------------------------------- when a failed ping redeploys

  /** The last accepted recovery is a cooldown old; a zero cooldown asks for nothing, and 0 stands for never. */
  predicate CooledSince(cfg: Config, recovered: Option<int>, now: int) {
    cfg.cooldownMs == 0 || now - (if recovered.Some? then recovered.value else 0) >= cfg.cooldownMs
  }

  predicate DeploysHeartbeat(e: Effect) { e.HeartbeatDeploy? }

  /** With its failed ping the row has misses enough for a redeploy. */
  predicate MissesEnough(cfg: Config, front: seq<TickStep>, r: RowInput) {
    !r.pingOk && CountsMisses(cfg, r)
    && (if GoesOn(cfg, front, r) then Misses(cfg, front, r.row.sid) else 0) + 1 >= cfg.missThreshold
  }

  predicate BudgetLeft(cfg: Config, front: seq<TickStep>, r: RowInput) {
    (if GoesOn(cfg, front, r) then Used(cfg, front, r.row.sid) else 0) < cfg.maxRecover
  }

  /** On the record kept, a redeploy waited for the cooldown since the last answer or accepted recovery. */
  predicate Waited(cfg: Config, steps: seq<TickStep>, sid: string) {
    steps != [] && KeptFor(cfg, steps, sid).Some?
    && var front, last := steps[..|steps| - 1], steps[|steps| - 1];
       if !IsRowOf(last, sid) || !Pinging(cfg, last.input) then Waited(cfg, front, sid)
       else
         !last.input.pingOk && AcceptedAt(LastLog(cfg, steps), sid).None?
         && ((GoesOn(cfg, front, last.input) && Waited(cfg, front, sid))
             || (MissesEnough(cfg, front, last.input) && BudgetLeft(cfg, front, last.input)
                 && !CooledSince(cfg, LastRecovered(cfg, front, sid), last.input.heartbeatNow)))
  }

  /** On the record kept, a redeploy was due with the budget used up, since the last accepted recovery. */
  predicate RanOut(cfg: Config, steps: seq<TickStep>, sid: string) {
    steps != [] && KeptFor(cfg, steps, sid).Some?
    && var front, last := steps[..|steps| - 1], steps[|steps| - 1];
       if !IsRowOf(last, sid) || !Pinging(cfg, last.input) then RanOut(cfg, front, sid)
       else
         AcceptedAt(LastLog(cfg, steps), sid).None?
         && ((GoesOn(cfg, front, last.input) && RanOut(cfg, front, sid))
             || (MissesEnough(cfg, front, last.input) && !BudgetLeft(cfg, front, last.input)))
  }

  /** The marks that keep a message from being logged again. */
  ghost predicate MarksRead(st: WatchdogState, sid: string, waited: bool, ranOut: bool) {
    sid in st.heartbeatRecords ==>
      st.heartbeatRecords[sid].loggedCooldownWait == waited && st.heartbeatRecords[sid].loggedBudgetExhausted == ranOut
  }

  lemma PingMarks(cfg: Config, st: WatchdogState, r: RowInput, waited: bool, ranOut: bool)
    requires MarksRead(st, r.row.sid, waited, ranOut) && Pinging(cfg, r)
    ensures var rec := CurrentRecord(st.heartbeatRecords, r.row);
            var recovered := RecoversNow(cfg, st, r) && r.heartbeatDeployOk;
            var kept := r.row.sid in st.heartbeatRecords && st.heartbeatRecords[r.row.sid].deploymentId == r.row.depId;
            var due := !r.pingOk && CountsMisses(cfg, r) && rec.consecutiveMisses + 1 >= cfg.missThreshold;
            var left := rec.recoveriesUsed < cfg.maxRecover;
            var cooled := cfg.cooldownMs == 0
                          || r.heartbeatNow - LastRecover(st.heartbeatLastRecoverAt, r.row.sid) >= cfg.cooldownMs;
            MarksRead(HeartbeatPhase(cfg, st, r), r.row.sid,
                      !r.pingOk && !recovered && ((kept && waited) || (due && left && !cooled)),
                      !recovered && ((kept && ranOut) || (due && !left)))
  {
  }

  lemma RowMarks(cfg: Config, st: WatchdogState, r: RowInput, sid: string, waited: bool, ranOut: bool)
    requires MarksRead(st, sid, waited, ranOut) && (r.row.sid != sid || !Pinging(cfg, r))
    ensures MarksRead(RowStep(cfg, st, r).state, sid, waited, ranOut)
  {
  }

  lemma KeptAfterPing(cfg: Config, front: seq<TickStep>, r: RowInput)
    requires Pinging(cfg, r)
    ensures KeptFor(cfg, front + [RowOf(r)], r.row.sid).Some?
  {
  }

  /** The history's view of a row is the state's. */
  lemma PingAsHistory(cfg: Config, front: seq<TickStep>, r: RowInput)
    ensures var st := Exec(cfg, EMPTY_STATE, front).state;
            var rec := CurrentRecord(st.heartbeatRecords, r.row);
            (GoesOn(cfg, front, r)
             <==> r.row.sid in st.heartbeatRecords && st.heartbeatRecords[r.row.sid].deploymentId == r.row.depId)
            && (MissesEnough(cfg, front, r)
                <==> !r.pingOk && CountsMisses(cfg, r) && rec.consecutiveMisses + 1 >= cfg.missThreshold)
            && (BudgetLeft(cfg, front, r) <==> rec.recoveriesUsed < cfg.maxRecover)
            && (CooledSince(cfg, LastRecovered(cfg, front, r.row.sid), r.heartbeatNow)
                <==> cfg.cooldownMs == 0
                     || r.heartbeatNow - LastRecover(st.heartbeatLastRecoverAt, r.row.sid) >= cfg.cooldownMs)
  {
    RecordIsHistory(cfg, front, r.row.sid);
    TimesAreHistory(cfg, front, r.row.sid);
  }

  lemma MarksOfPing(cfg: Config, front: seq<TickStep>, r: RowInput, accepted: bool)
    requires Pinging(cfg, r) && accepted == AcceptedAt(LastLog(cfg, front + [RowOf(r)]), r.row.sid).Some?
    ensures var steps, sid := front + [RowOf(r)], r.row.sid;
            (Waited(cfg, steps, sid)
             <==> !r.pingOk && !accepted
                  && ((GoesOn(cfg, front, r) && Waited(cfg, front, sid))
                      || (MissesEnough(cfg, front, r) && BudgetLeft(cfg, front, r)
                          && !CooledSince(cfg, LastRecovered(cfg, front, sid), r.heartbeatNow))))
            && (RanOut(cfg, steps, sid)
                <==> !accepted && ((GoesOn(cfg, front, r) && RanOut(cfg, front, sid))
                                   || (MissesEnough(cfg, front, r) && !BudgetLeft(cfg, front, r))))
  {
    assert (front + [RowOf(r)])[..|front|] == front;
    KeptAfterPing(cfg, front, r);
  }

  lemma MarksAfterPing(cfg: Config, front: seq<TickStep>, r: RowInput)
    requires Pinging(cfg, r)
    requires MarksRead(Exec(cfg, EMPTY_STATE, front).state, r.row.sid,
                       Waited(cfg, front, r.row.sid), RanOut(cfg, front, r.row.sid))
    ensures var steps := front + [RowOf(r)];
            MarksRead(RowStep(cfg, Exec(cfg, EMPTY_STATE, front).state, r).state, r.row.sid,
                      Waited(cfg, steps, r.row.sid), RanOut(cfg, steps, r.row.sid))
  {
    var st, sid := Exec(cfg, EMPTY_STATE, front).state, r.row.sid;
    var st1 := st.(lifecycle := ExitPhase(cfg, st.lifecycle, r));
    LastLogOfRow(cfg, front, r);
    AcceptedInRow(cfg, st, r, sid);
    MarksOfPing(cfg, front, r, RecoversNow(cfg, st1, r) && r.heartbeatDeployOk);
    PingAsHistory(cfg, front, r);
    PingMarks(cfg, st1, r, Waited(cfg, front, sid), RanOut(cfg, front, sid));
  }

  /** In every run the marks of the record kept are those of the history. */
  lemma {:induction false} MarksAreHistory(cfg: Config, steps: seq<TickStep>, sid: string)
    ensures MarksRead(Exec(cfg, EMPTY_STATE, steps).state, sid, Waited(cfg, steps, sid), RanOut(cfg, steps, sid))
  {
    if steps != [] {
      var front, last := steps[..|steps| - 1], steps[|steps| - 1];
      MarksAreHistory(cfg, front, sid);
      RecordIsHistory(cfg, steps, sid);
      if last.RowOf? && last.input.row.sid == sid && Pinging(cfg, last.input) {
        assert steps == front + [RowOf(last.input)];
        MarksAfterPing(cfg, front, last.input);
      } else if last.RowOf? {
        RowMarks(cfg, Exec(cfg, EMPTY_STATE, front).state, last.input, sid,
                 Waited(cfg, front, sid), RanOut(cfg, front, sid));
      }
    }
  }

  lemma RowDeploysIff(cfg: Config, st: WatchdogState, r: RowInput)
    ensures var st1 := st.(lifecycle := ExitPhase(cfg, st.lifecycle, r));
            (exists e <- RowStep(cfg, st, r).log :: DeploysHeartbeat(e)) <==> RecoversNow(cfg, st1, r)
  {
    var st1 := st.(lifecycle := ExitPhase(cfg, st.lifecycle, r));
    var exit, probe := ExitLog(cfg, st.lifecycle, r), HeartbeatLog(cfg, st1, r);
    var auto := AutoLog(cfg, st.recoverCooldown, r);
    assert forall e :: e in exit + probe + auto <==> e in exit || e in probe || e in auto;
    if RecoversNow(cfg, st1, r) {
      var e := HeartbeatDeploy(r.row.sid, r.row.depId, r.heartbeatNow, r.heartbeatDone, r.heartbeatDeployOk);
      assert probe[0] == e && DeploysHeartbeat(e);
    }
  }

  /**
   After any run of ticks, the next row makes a heartbeat redeploy if and only if its ping fails and counts,
   with it the misses reach the threshold, fewer recoveries than the maximum are booked, and the last
   accepted one is a cooldown old.
   */
  lemma HeartbeatRedeployIff(cfg: Config, steps: seq<TickStep>, r: RowInput)
    ensures var sid, kept := r.row.sid, GoesOn(cfg, steps, r);
            (exists e <- RowStep(cfg, Exec(cfg, EMPTY_STATE, steps).state, r).log :: DeploysHeartbeat(e))
            <==> Pinging(cfg, r) && !r.pingOk && CountsMisses(cfg, r)
                 && (if kept then Misses(cfg, steps, sid) else 0) + 1 >= cfg.missThreshold
                 && (if kept then Used(cfg, steps, sid) else 0) < cfg.maxRecover
                 && CooledSince(cfg, LastRecovered(cfg, steps, sid), r.heartbeatNow)
  {
    var st := Exec(cfg, EMPTY_STATE, steps).state;
    RecordIsHistory(cfg, steps, r.row.sid);
    TimesAreHistory(cfg, steps, r.row.sid);
    RowDeploysIff(cfg, st, r);
  }
}
