/**
 The budget of one record: while a service's row is entered by one tick at a time, the redeploys booked on
 a record stay within the configured maximum, through changes of the deployment id and gaps in the listing.
 */
module RecoveryBudget {
  import opened Wrappers
  import opened WatchdogTick
  import opened OverlappingTicks
  import opened RecoveryPacing
  import opened RecoveryAccounts
  import opened Products

  predicate InRowOf(call: Call, sid: string) { call.input.row.sid == sid }

  /** At most one tick is in the row of `sid`. */
  predicate OneRow(w: Ticking, sid: string) {
    forall t, u :: t in w.calls && u in w.calls && InRowOf(w.calls[t], sid) && InRowOf(w.calls[u], sid) ==> t == u
  }

  predicate NobodyIn(w: Ticking, sid: string) {
    forall t :: t in w.calls ==> !InRowOf(w.calls[t], sid)
  }

  /** The row of `sid` is entered only while no other tick is in it. */
  predicate OneRowAtATime(cfg: Config, start: Ticking, moves: seq<Move>, sid: string) {
    moves == []
    || (var front, last := moves[..|moves| - 1], moves[|moves| - 1];
        var before := Overlapped(cfg, start, front);
        OneRowAtATime(cfg, start, front, sid)
        && (before.Some? && last.Enter? && last.input.row.sid == sid ==> NobodyIn(before.value, sid)))
  }

  /** In this part of a run the service's rows show `dep` and are probed, and every tick lists it. */
  predicate OneRecordThroughout(moves: seq<Move>, sid: string, dep: string) {
    forall m <- moves ::
      match m
      case Enter(_, r) => r.row.sid == sid ==> r.row.depId == dep && r.row.probed
      case Resume(_, _) => true
      case Clean(ids) => sid in ids
  }

  lemma ThroughoutSplits(front: seq<Move>, last: Move, sid: string, dep: string)
    requires OneRecordThroughout(front + [last], sid, dep)
    ensures OneRecordThroughout(front, sid, dep) && OneRecordThroughout([last], sid, dep)
  {
    assert forall m <- front :: m in front + [last];
    assert last in front + [last];
  }

  /** What is asked of: a service, its deployment, and a limit at or above the budget. */
  datatype Scope = Scope(sid: string, dep: string, max: nat)

  /** The record object is for the deployment, and `k` recoveries are booked on it within the budget. */
  ghost predicate Booked(s: Shared, rec: nat, q: Scope, k: nat) {
    var objects := Objects(s, q.sid);
    rec < |objects| && objects[rec].deploymentId == q.dep && k <= objects[rec].recoveriesUsed <= q.max
  }

  predicate HasRecord(s: Shared, q: Scope) {
    q.sid in s.records && Object(s, q.sid, s.records[q.sid]).deploymentId == q.dep
  }

  /** `k` recoveries so far: within the budget, and all on the record in the map. */
  ghost predicate Budgeted(s: Shared, q: Scope, k: nat) {
    k <= q.max && (q.sid in s.records ==> s.records[q.sid] < |Objects(s, q.sid)|)
    && (k > 0 ==> HasRecord(s, q)) && (HasRecord(s, q) ==> Booked(s, s.records[q.sid], q, k))
  }

  /** What a suspended row of the service may rely on. */
  ghost predicate StageBudgeted(s: Shared, stage: Stage, q: Scope, k: nat) {
    match stage
    case AwaitPing(rec) => Booked(s, rec, q, k)
    case AwaitHeartbeat(rec) => Booked(s, rec, q, k) && Object(s, q.sid, rec).recoveriesUsed < q.max
    case _ => true
  }

  ghost predicate CallBudgeted(s: Shared, call: Call, q: Scope, k: nat) {
    call.input.row.depId == q.dep && call.input.row.probed && StageBudgeted(s, call.stage, q, k)
  }

  ghost predicate WithinBudget(w: Ticking, q: Scope, k: nat) {
    Budgeted(w.shared, q, k)
    && forall t :: t in w.calls && InRowOf(w.calls[t], q.sid) ==> CallBudgeted(w.shared, w.calls[t], q, k)
  }

  // ---------------------------------------------------------------- rows of other services

  /** Nothing about the service's records changed. */
  ghost predicate Untouched(s: Shared, s': Shared, sid: string) {
    Objects(s', sid) == Objects(s, sid) && (sid in s'.records <==> sid in s.records)
    && (sid in s.records ==> s'.records[sid] == s.records[sid])
  }

  lemma ToAutoUntouched(cfg: Config, s: Shared, r: RowInput, sid: string)
    ensures Untouched(s, ToAuto(cfg, s, r).shared, sid)
  {
  }

  lemma ToStoreUntouched(cfg: Config, s: Shared, r: RowInput, rec: nat, sid: string)
    requires r.row.sid != sid
    ensures Untouched(s, ToStore(cfg, s, r, rec).shared, sid)
  {
  }

  lemma ToPingUntouched(cfg: Config, s: Shared, r: RowInput, sid: string)
    requires r.row.sid != sid
    ensures Untouched(s, ToPing(cfg, s, r).shared, sid)
  {
    var s1 := WithRecordOf(s, r.row);
    assert Untouched(s, s1, sid);
    if !Pings(cfg, r.row) { ToAutoUntouched(cfg, UnprobedShared(cfg, s, r.row), r, sid); }
  }

  lemma FromPingUntouched(cfg: Config, s: Shared, r: RowInput, rec: nat, sid: string)
    requires r.row.sid != sid
    ensures Untouched(s, FromPing(cfg, s, r, rec).shared, sid)
  {
    var record := Object(s, r.row.sid, rec);
    var record' := if r.pingOk then Reached(record)
                   else RecordAfterMiss(cfg, record, s.heartbeatLastRecoverAt, r);
    var s1 := WithObject(s, r.row.sid, rec, record');
    assert Untouched(s, s1, sid);
    ToStoreUntouched(cfg, s1, r, rec, sid);
  }

  lemma ContinueUntouched(cfg: Config, s: Shared, call: Call, sid: string)
    requires call.input.row.sid != sid
    ensures Untouched(s, Continue(cfg, s, call).shared, sid)
  {
    var r := call.input;
    match call.stage
    case AwaitExit =>
      var life := Settled(s.lifecycle, r);
      ToPingUntouched(cfg, s.(lifecycle := life), r, sid);
    case AwaitPing(rec) => FromPingUntouched(cfg, s, r, rec, sid);
    case AwaitHeartbeat(rec) =>
      assert Untouched(s, AfterRecovery(s, r, rec), sid);
      ToStoreUntouched(cfg, AfterRecovery(s, r, rec), r, rec, sid);
    case AwaitAuto =>
  }

  lemma FromStartUntouched(cfg: Config, s: Shared, r: RowInput, sid: string)
    requires r.row.sid != sid
    ensures Untouched(s, FromStart(cfg, s, r).shared, sid)
  {
    ToPingUntouched(cfg, s, r, sid);
  }

  // ---------------------------------------------------------------- rows of the service

  lemma TakeIsBudgeted(s: Shared, row: Row, q: Scope, k: nat)
    requires Budgeted(s, q, k) && row.sid == q.sid && row.depId == q.dep
    ensures var s' := WithRecordOf(s, row); Budgeted(s', q, k) && Booked(s', RecordOf(s, row), q, k)
  {
    var s', rec := WithRecordOf(s, row), RecordOf(s, row);
    if HasRecordFor(s, row) {
      assert Booked(s, rec, q, k);
      assert Objects(s', q.sid) == Objects(s, q.sid)[rec := Object(s, q.sid, rec).(status := row.status)];
    } else {
      assert k == 0;
      assert Objects(s', q.sid) == Objects(s, q.sid) + [HeartbeatRecord(row.depId, row.status, 0, 0, false, false)];
    }
  }

  /** Writing to the object and putting it into the map. */
  lemma StoreIsBudgeted(cfg: Config, s: Shared, r: RowInput, rec: nat, value: HeartbeatRecord, q: Scope, k: nat)
    requires r.row.sid == q.sid && rec < |Objects(s, q.sid)| && k <= q.max
    requires value.deploymentId == q.dep && k <= value.recoveriesUsed <= q.max
    ensures var p := ToStore(cfg, WithObject(s, q.sid, rec, value), r, rec);
            Budgeted(p.shared, q, k) && (p.stage.Some? ==> StageBudgeted(p.shared, p.stage.value, q, k))
  {
    var s1 := WithObject(s, q.sid, rec, value);
    assert Objects(s1, q.sid) == Objects(s, q.sid)[rec := value];
    var life := Heard(cfg, s1.lifecycle, r);
    var s2 := s1.(lifecycle := life, records := s1.records[r.row.sid := rec]);
    assert Budgeted(s2, q, k);
    ToAutoUntouched(cfg, s2, r, q.sid);
  }

  lemma ToPingIsBudgeted(cfg: Config, s: Shared, r: RowInput, q: Scope, k: nat)
    requires Budgeted(s, q, k) && r.row.sid == q.sid && r.row.depId == q.dep && r.row.probed
    ensures var p := ToPing(cfg, s, r);
            Budgeted(p.shared, q, k) && (p.stage.Some? ==> StageBudgeted(p.shared, p.stage.value, q, k))
  {
    TakeIsBudgeted(s, r.row, q, k);
    if !Pings(cfg, r.row) { ToAutoUntouched(cfg, WithRecordOf(s, r.row), r, q.sid); }
  }

  lemma FromPingIsBudgeted(cfg: Config, s: Shared, r: RowInput, rec: nat, q: Scope, k: nat)
    requires Budgeted(s, q, k) && r.row.sid == q.sid && Booked(s, rec, q, k) && cfg.maxRecover <= q.max
    ensures var p := FromPing(cfg, s, r, rec);
            Budgeted(p.shared, q, k) && (p.stage.Some? ==> StageBudgeted(p.shared, p.stage.value, q, k))
  {
    var record := Object(s, q.sid, rec);
    if r.pingOk {
      StoreIsBudgeted(cfg, s, r, rec, Reached(record), q, k);
    } else if HeartbeatDeployDue(cfg, record, s.heartbeatLastRecoverAt, r) {
      var value := record.(consecutiveMisses := record.consecutiveMisses + 1);
      assert Objects(WithObject(s, q.sid, rec, value), q.sid) == Objects(s, q.sid)[rec := value];
    } else {
      StoreIsBudgeted(cfg, s, r, rec, RecordAfterMiss(cfg, record, s.heartbeatLastRecoverAt, r), q, k);
    }
  }

  lemma FromHeartbeatIsBudgeted(cfg: Config, s: Shared, r: RowInput, rec: nat, q: Scope, k: nat)
    requires Budgeted(s, q, k) && r.row.sid == q.sid && StageBudgeted(s, AwaitHeartbeat(rec), q, k)
    ensures var p, k' := FromHeartbeat(cfg, s, r, rec), if r.heartbeatDeployOk then k + 1 else k;
            Budgeted(p.shared, q, k') && (p.stage.Some? ==> StageBudgeted(p.shared, p.stage.value, q, k'))
  {
    var record := Object(s, q.sid, rec);
    if r.heartbeatDeployOk {
      var s1 := s.(heartbeatLastRecoverAt := s.heartbeatLastRecoverAt[q.sid := r.heartbeatDone]);
      assert AfterRecovery(s, r, rec) == WithObject(s1, q.sid, rec, Recovered(record));
      StoreIsBudgeted(cfg, s1, r, rec, Recovered(record), q, k + 1);
    } else {
      assert Objects(s, q.sid)[rec := record] == Objects(s, q.sid);
      assert s.objects[q.sid := Objects(s, q.sid)] == s.objects;
      StoreIsBudgeted(cfg, s, r, rec, record, q, k);
    }
  }

  // ---------------------------------------------------------------- runs

  /** Recoveries after the suspended row goes on. */
  function CountAfter(call: Call, sid: string, k: nat): nat {
    if call.stage.AwaitHeartbeat? && call.input.row.sid == sid && call.input.heartbeatDeployOk then k + 1 else k
  }

  lemma ContinueIsBudgeted(cfg: Config, s: Shared, call: Call, q: Scope, k: nat)
    requires Budgeted(s, q, k) && InRowOf(call, q.sid) && CallBudgeted(s, call, q, k) && cfg.maxRecover <= q.max
    ensures var p, k' := Continue(cfg, s, call), CountAfter(call, q.sid, k);
            Budgeted(p.shared, q, k') && (p.stage.Some? ==> StageBudgeted(p.shared, p.stage.value, q, k'))
  {
    var r := call.input;
    match call.stage
    case AwaitExit =>
      var life := Settled(s.lifecycle, r);
      ToPingIsBudgeted(cfg, s.(lifecycle := life), r, q, k);
    case AwaitPing(rec) => FromPingIsBudgeted(cfg, s, r, rec, q, k);
    case AwaitHeartbeat(rec) => FromHeartbeatIsBudgeted(cfg, s, r, rec, q, k);
    case AwaitAuto =>
  }

  lemma MovedElsewhere(w: Ticking, t: nat, r: RowInput, p: Progress, q: Scope, k: nat)
    requires WithinBudget(w, q, k) && r.row.sid != q.sid && Untouched(w.shared, p.shared, q.sid)
    requires t in w.calls ==> w.calls[t].input.row == r.row
    ensures WithinBudget(Moved(w, t, r, p), q, k)
  {
    var w' := Moved(w, t, r, p);
    forall u | u in w'.calls && InRowOf(w'.calls[u], q.sid) ensures CallBudgeted(w'.shared, w'.calls[u], q, k) {
      assert u in w.calls && w.calls[u] == w'.calls[u];
    }
  }

  lemma MovedWithin(w: Ticking, t: nat, r: RowInput, p: Progress, q: Scope, k: nat)
    requires Budgeted(p.shared, q, k) && r.row.sid == q.sid && r.row.depId == q.dep && r.row.probed
    requires p.stage.Some? ==> StageBudgeted(p.shared, p.stage.value, q, k)
    requires forall u :: u in w.calls && u != t ==> !InRowOf(w.calls[u], q.sid)
    ensures WithinBudget(Moved(w, t, r, p), q, k)
  {
  }

  lemma EnterWithin(cfg: Config, w: Ticking, t: nat, r: RowInput, q: Scope, k: nat)
    requires WithinBudget(w, q, k) && t !in w.calls && cfg.maxRecover <= q.max
    requires r.row.sid == q.sid ==> r.row.depId == q.dep && r.row.probed && NobodyIn(w, q.sid)
    ensures WithinBudget(Perform(cfg, w, Enter(t, r)), q, k)
  {
    var p := FromStart(cfg, w.shared, r);
    if r.row.sid != q.sid {
      FromStartUntouched(cfg, w.shared, r, q.sid);
      MovedElsewhere(w, t, r, p, q, k);
    } else {
      ToPingIsBudgeted(cfg, w.shared, r, q, k);
      MovedWithin(w, t, r, p, q, k);
    }
  }

  lemma ResumeWithin(cfg: Config, w: Ticking, t: nat, reply: RowInput, q: Scope, k: nat)
    requires WithinBudget(w, q, k) && t in w.calls && OneRow(w, q.sid) && cfg.maxRecover <= q.max
    ensures WithinBudget(Perform(cfg, w, Resume(t, reply)), q, CountAfter(Replied(w.calls[t], reply), q.sid, k))
  {
    var call := Replied(w.calls[t], reply);
    var p := Continue(cfg, w.shared, call);
    if call.input.row.sid != q.sid {
      ContinueUntouched(cfg, w.shared, call, q.sid);
      MovedElsewhere(w, t, call.input, p, q, k);
    } else {
      assert InRowOf(w.calls[t], q.sid) && CallBudgeted(w.shared, w.calls[t], q, k);
      ContinueIsBudgeted(cfg, w.shared, call, q, k);
      MovedWithin(w, t, call.input, p, q, CountAfter(call, q.sid, k));
    }
  }

  lemma OneRowStays(cfg: Config, w: Ticking, move: Move, sid: string)
    requires OneRow(w, sid) && Possible(w, move)
    requires move.Enter? && move.input.row.sid == sid ==> NobodyIn(w, sid)
    ensures OneRow(Perform(cfg, w, move), sid)
  {
  }

  lemma {:induction false} AlwaysOneRow(cfg: Config, start: Ticking, moves: seq<Move>, w: Ticking, sid: string)
    requires Overlapped(cfg, start, moves) == Some(w) && NobodyIn(start, sid) && OneRowAtATime(cfg, start, moves, sid)
    ensures OneRow(w, sid)
  {
    if moves != [] {
      var front, last := moves[..|moves| - 1], moves[|moves| - 1];
      var before := Overlapped(cfg, start, front).value;
      AlwaysOneRow(cfg, start, front, before, sid);
      OneRowStays(cfg, before, last, sid);
    }
  }

  lemma MoveWithin(cfg: Config, w: Ticking, move: Move, q: Scope, k: nat, k': nat)
    requires WithinBudget(w, q, k) && Possible(w, move) && OneRow(w, q.sid) && cfg.maxRecover <= q.max
    requires OneRecordThroughout([move], q.sid, q.dep)
    requires move.Enter? && move.input.row.sid == q.sid ==> NobodyIn(w, q.sid)
    requires k' == if move.Resume? then CountAfter(Replied(w.calls[move.tick], move.reply), q.sid, k) else k
    ensures WithinBudget(Perform(cfg, w, move), q, k')
  {
    assert move in [move];
    match move
    case Enter(t, r) => EnterWithin(cfg, w, t, r, q, k);
    case Resume(t, reply) => ResumeWithin(cfg, w, t, reply, q, k);
    case Clean(_) =>
  }

  /** Recoveries booked on the service's record, if that is for the deployment. */
  function UsedBefore(s: Shared, sid: string, dep: string): nat {
    if HasRecord(s, Scope(sid, dep, 0)) then Object(s, sid, s.records[sid]).recoveriesUsed else 0
  }

  function Max(a: nat, b: nat): nat { if a > b then a else b }

  lemma {:induction false} BudgetAlwaysKept(cfg: Config, start: Ticking, moves: seq<Move>, w: Ticking, q: Scope)
    requires Overlapped(cfg, start, moves) == Some(w) && start.log == [] && Sound(start.shared)
    requires NobodyIn(start, q.sid) && OneRowAtATime(cfg, start, moves, q.sid)
    requires OneRecordThroughout(moves, q.sid, q.dep)
    requires q.max == Max(UsedBefore(start.shared, q.sid, q.dep), cfg.maxRecover)
    ensures WithinBudget(w, q, UsedBefore(start.shared, q.sid, q.dep) + |Recoveries(w.log, q.sid)|)
  {
    var used := UsedBefore(start.shared, q.sid, q.dep);
    if moves != [] {
      var front, last := moves[..|moves| - 1], moves[|moves| - 1];
      var before := Overlapped(cfg, start, front).value;
      assert moves == front + [last];
      ThroughoutSplits(front, last, q.sid, q.dep);
      BudgetAlwaysKept(cfg, start, front, before, q);
      AlwaysOneRow(cfg, start, front, before, q.sid);
      var k, k' := used + |Recoveries(before.log, q.sid)|, used + |Recoveries(w.log, q.sid)|;
      RecoveriesStep(cfg, before, last, q.sid);
      MoveWithin(cfg, before, last, q, k, k');
    }
  }

  lemma RecoveriesStep(cfg: Config, w: Ticking, move: Move, sid: string)
    requires Possible(w, move)
    ensures |Recoveries(Perform(cfg, w, move).log, sid)|
            == |Recoveries(w.log, sid)|
               + if move.Resume? then CountAfter(Replied(w.calls[move.tick], move.reply), sid, 0) else 0
  {
    match move
    case Enter(t, r) =>
      FromStartIsSilent(cfg, w.shared, r);
      RecoveriesUnchanged(w.log, FromStart(cfg, w.shared, r).log, sid);
    case Resume(t, reply) =>
      var call := Replied(w.calls[t], reply);
      if BeginsRecovery(cfg, w.shared, call) {
        RecoveriesAppend(w.log, HeartbeatBegan(call.input.row.sid, call.input.heartbeatNow), sid);
      } else if call.stage.AwaitHeartbeat? {
        AnswerMeans(cfg, w.log, w.shared, call.input, call.stage.rec, sid);
      } else {
        ContinueIsSilent(cfg, w.shared, call);
        RecoveriesUnchanged(w.log, Continue(cfg, w.shared, call).log, sid);
      }
    case Clean(_) =>
  }

  /**
   In any part of any run in which one deployment's record persists (the service's rows show that id,
   are probed, and every tick lists it) and the row is entered by one tick at a time: the redeploys
   accepted in it, with those booked on the record before, stay within the configured maximum, or none is
   accepted if more were booked before.
   */
  lemma HeartbeatRecoveryBudget(cfg: Config, start: Ticking, moves: seq<Move>, w: Ticking, sid: string, dep: string)
    requires Overlapped(cfg, start, moves) == Some(w) && start.log == [] && Sound(start.shared)
    requires NobodyIn(start, sid) && OneRowAtATime(cfg, start, moves, sid) && OneRecordThroughout(moves, sid, dep)
    ensures var used := UsedBefore(start.shared, sid, dep);
            used + |Recoveries(w.log, sid)| <= Max(used, cfg.maxRecover)
  {
    var used := UsedBefore(start.shared, sid, dep);
    BudgetAlwaysKept(cfg, start, moves, w, Scope(sid, dep, Max(used, cfg.maxRecover)));
  }

  /** The same for a part of a run from the start of the process: what its log adds is within the budget. */
  lemma BudgetOfPart(cfg: Config, first: seq<Move>, middle: Ticking, part: seq<Move>, w: Ticking, sid: string,
                     dep: string)
    requires Overlapped(cfg, IDLE, first) == Some(middle) && Overlapped(cfg, middle, part) == Some(w)
    requires NobodyIn(middle, sid) && OneRowAtATime(cfg, middle.(log := []), part, sid)
    requires OneRecordThroughout(part, sid, dep)
    ensures Overlapped(cfg, IDLE, first + part) == Some(w) && middle.log <= w.log
    ensures var used := UsedBefore(middle.shared, sid, dep);
            used + |Recoveries(w.log[|middle.log|..], sid)| <= Max(used, cfg.maxRecover)
  {
    RunsCompose(cfg, IDLE, first, middle, part);
    LogStartsAnew(cfg, middle, part, w);
    AlwaysIntact(cfg, IDLE, first, middle);
    HeartbeatRecoveryBudget(cfg, middle.(log := []), part, w.(log := w.log[|middle.log|..]), sid, dep);
  }

  // ---------------------------------------------------------------- every record of a whole run

  /** No record of `sid` has more booked than the maximum, and an awaited redeploy still fits on its record. */
  ghost predicate RecordsWithin(w: Ticking, sid: string, max: nat) {
    (forall i :: 0 <= i < |Objects(w.shared, sid)| ==> Objects(w.shared, sid)[i].recoveriesUsed <= max)
    && forall t :: t in w.calls && AwaitsRecovery(w.calls[t], sid)
         ==> Object(w.shared, sid, w.calls[t].stage.rec).recoveriesUsed < max
  }

  lemma KeptWithin(w: Ticking, t: nat, r: RowInput, p: Progress, sid: string, max: nat)
    requires RecordsWithin(w, sid, max) && Intact(w) && Kept(w.shared, p.shared, p.stage, r.row)
    requires p.stage.Some? && p.stage.value.AwaitHeartbeat? && r.row.sid == sid
             ==> Object(p.shared, sid, p.stage.value.rec).recoveriesUsed < max
    ensures RecordsWithin(Moved(w, t, r, p), sid, max)
  {
    var w' := Moved(w, t, r, p);
    assert SameBooks(Objects(w.shared, sid), Objects(p.shared, sid));
    forall u | u in w'.calls && AwaitsRecovery(w'.calls[u], sid)
      ensures Object(w'.shared, sid, w'.calls[u].stage.rec).recoveriesUsed < max
    {
      if u != t {
        assert w'.calls[u] == w.calls[u] && HoldsRecord(w.shared, w.calls[u].input.row, w.calls[u].stage);
      }
    }
  }

  lemma BeginHasRoom(cfg: Config, s: Shared, call: Call)
    requires BeginsRecovery(cfg, s, call) && HoldsRecord(s, call.input.row, call.stage)
    ensures var p := Continue(cfg, s, call);
            p.stage == Some(AwaitHeartbeat(call.stage.rec))
            && Object(p.shared, call.input.row.sid, call.stage.rec).recoveriesUsed < cfg.maxRecover
  {
    var sid, rec := call.input.row.sid, call.stage.rec;
    var record := Object(s, sid, rec);
    var value := record.(consecutiveMisses := record.consecutiveMisses + 1);
    assert Objects(WithObject(s, sid, rec, value), sid) == Objects(s, sid)[rec := value];
  }

  /** The only row in the service stops awaiting: no redeploy of it is awaited any more. */
  lemma NoneAwaited(w: Ticking, t: nat, r: RowInput, p: Progress, sid: string)
    requires OneRow(w, sid) && t in w.calls && InRowOf(w.calls[t], sid)
    requires p.stage.Some? ==> !p.stage.value.AwaitHeartbeat?
    ensures var w' := Moved(w, t, r, p); forall u :: u in w'.calls ==> !AwaitsRecovery(w'.calls[u], sid)
  {
    var w' := Moved(w, t, r, p);
    forall u | u in w'.calls ensures !AwaitsRecovery(w'.calls[u], sid) {
      if u != t { assert InRowOf(w.calls[u], sid) ==> u == t; }
    }
  }

  /** A row of another service goes on. */
  lemma OtherRowWithin(w: Ticking, t: nat, r: RowInput, p: Progress, sid: string, max: nat)
    requires RecordsWithin(w, sid, max) && r.row.sid != sid && Objects(p.shared, sid) == Objects(w.shared, sid)
    ensures RecordsWithin(Moved(w, t, r, p), sid, max)
  {
    var w' := Moved(w, t, r, p);
    forall u | u in w'.calls && AwaitsRecovery(w'.calls[u], sid)
      ensures Object(w'.shared, sid, w'.calls[u].stage.rec).recoveriesUsed < max
    {
      assert u != t && w'.calls[u] == w.calls[u];
    }
  }

  lemma AnswerWithin(cfg: Config, w: Ticking, t: nat, reply: RowInput, sid: string, max: nat)
    requires RecordsWithin(w, sid, max) && Intact(w) && OneRow(w, sid)
    requires t in w.calls && w.calls[t].stage.AwaitHeartbeat?
    ensures RecordsWithin(Perform(cfg, w, Resume(t, reply)), sid, max)
  {
    var call := Replied(w.calls[t], reply);
    var r, rec := call.input, call.stage.rec;
    var p := FromHeartbeat(cfg, w.shared, r, rec);
    assert HoldsRecord(w.shared, w.calls[t].input.row, w.calls[t].stage);
    FromHeartbeatBooks(cfg, w.shared, r, rec);
    if r.row.sid == sid {
      AnswerMeans(cfg, w.log, w.shared, r, rec, sid);
      assert AwaitsRecovery(w.calls[t], sid);
      NoneAwaited(w, t, r, p, sid);
    } else {
      OtherRowWithin(w, t, r, p, sid, max);
    }
  }

  lemma SameRecordsWithin(w: Ticking, w': Ticking, sid: string, max: nat)
    requires RecordsWithin(w, sid, max) && w'.calls == w.calls && Objects(w'.shared, sid) == Objects(w.shared, sid)
    ensures RecordsWithin(w', sid, max)
  {
    forall t | t in w'.calls && AwaitsRecovery(w'.calls[t], sid)
      ensures Object(w'.shared, sid, w'.calls[t].stage.rec).recoveriesUsed < max
    {
      assert Object(w.shared, sid, w.calls[t].stage.rec).recoveriesUsed < max;
    }
  }

  lemma MoveWithinRecords(cfg: Config, w: Ticking, move: Move, sid: string)
    requires RecordsWithin(w, sid, cfg.maxRecover) && Intact(w) && OneRow(w, sid) && Possible(w, move)
    ensures RecordsWithin(Perform(cfg, w, move), sid, cfg.maxRecover)
  {
    match move
    case Enter(t, r) =>
      FromStartKeeps(cfg, w.shared, r);
      FromStartIsSilent(cfg, w.shared, r);
      KeptWithin(w, t, r, FromStart(cfg, w.shared, r), sid, cfg.maxRecover);
    case Resume(t, reply) =>
      var call := Replied(w.calls[t], reply);
      assert HoldsRecord(w.shared, w.calls[t].input.row, w.calls[t].stage);
      if call.stage.AwaitHeartbeat? {
        AnswerWithin(cfg, w, t, reply, sid, cfg.maxRecover);
      } else {
        ContinueKeeps(cfg, w.shared, call);
        if BeginsRecovery(cfg, w.shared, call) {
          BeginHasRoom(cfg, w.shared, call);
        } else {
          ContinueIsSilent(cfg, w.shared, call);
        }
        KeptWithin(w, t, call.input, Continue(cfg, w.shared, call), sid, cfg.maxRecover);
      }
    case Clean(ids) => SameRecordsWithin(w, Perform(cfg, w, move), sid, cfg.maxRecover);
  }

  lemma {:induction false} RecordsAlwaysWithin(cfg: Config, moves: seq<Move>, w: Ticking, sid: string)
    requires Overlapped(cfg, IDLE, moves) == Some(w) && OneRowAtATime(cfg, IDLE, moves, sid)
    ensures RecordsWithin(w, sid, cfg.maxRecover)
  {
    if moves != [] {
      var front, last := moves[..|moves| - 1], moves[|moves| - 1];
      var before := Overlapped(cfg, IDLE, front).value;
      RecordsAlwaysWithin(cfg, front, before, sid);
      AlwaysIntact(cfg, IDLE, front, before);
      AlwaysOneRow(cfg, IDLE, front, before, sid);
      MoveWithinRecords(cfg, before, last, sid);
    }
  }

  lemma {:induction false} UsedAtMost(objects: seq<HeartbeatRecord>, max: nat)
    requires forall i :: 0 <= i < |objects| ==> objects[i].recoveriesUsed <= max
    ensures Used(objects, None) <= Times(max, |objects|)
  {
    if objects != [] { UsedAtMost(objects[..|objects| - 1], max); }
  }

  /**
   Over a whole run in which the service's row is entered by one tick at a time, whatever deployment ids
   it shows and whenever it is listed or probed: every record gets at most the configured maximum of
   redeploys, so all accepted ones are at most that maximum times the records ever made.
   */
  lemma EveryRecordHasItsBudget(cfg: Config, moves: seq<Move>, w: Ticking, sid: string)
    requires Overlapped(cfg, IDLE, moves) == Some(w) && OneRowAtATime(cfg, IDLE, moves, sid)
    ensures forall record <- Objects(w.shared, sid) :: record.recoveriesUsed <= cfg.maxRecover
    ensures |Recoveries(w.log, sid)| <= cfg.maxRecover * |Objects(w.shared, sid)|
  {
    RecordsAlwaysWithin(cfg, moves, w, sid);
    UsedAtMost(Objects(w.shared, sid), cfg.maxRecover);
    TimesIsProduct(cfg.maxRecover, |Objects(w.shared, sid)|);
    RecoveriesAreBooked(cfg, IDLE, moves, w, sid, None);
    RecoveriesAreAccepted(w.log, sid);
  }

  // ---------------------------------------------------------------- ticks one after the other

  ghost predicate AtMostOneCall(w: Ticking) { forall t, u :: t in w.calls && u in w.calls ==> t == u }

  /** With one tick at a time, nothing was accepted since an awaited redeploy began. */
  ghost predicate NothingSince(cfg: Config, moves: seq<Move>, w: Ticking, sid: string) {
    forall u :: u in w.calls && AwaitsRecovery(w.calls[u], sid)
      ==> RecoveryPacing.AcceptedBefore(cfg, IDLE, moves, u, sid) == |Recoveries(w.log, sid)|
  }

  lemma SequentialStep(cfg: Config, moves: seq<Move>, w: Ticking, move: Move, sid: string)
    requires Overlapped(cfg, IDLE, moves) == Some(w) && Possible(w, move) && AtMostOneCall(w)
    requires NothingSince(cfg, moves, w, sid) && (move.Enter? ==> w.calls == map[])
    ensures AtMostOneCall(Perform(cfg, w, move)) && NothingSince(cfg, moves + [move], Perform(cfg, w, move), sid)
  {
    var w' := Perform(cfg, w, move);
    RecoveriesStep(cfg, w, move, sid);
    forall u | u in w'.calls && AwaitsRecovery(w'.calls[u], sid)
      ensures RecoveryPacing.AcceptedBefore(cfg, IDLE, moves + [move], u, sid) == |Recoveries(w'.log, sid)|
    {
      AcceptedBeforeStep(cfg, IDLE, moves, w, move, u, sid);
      if move.Enter? {
        FromStartIsSilent(cfg, w.shared, move.input);
      } else if move.Resume? {
        var call := Replied(w.calls[move.tick], move.reply);
        if call.stage.AwaitHeartbeat? { AnswerMeans(cfg, w.log, w.shared, call.input, call.stage.rec, sid); }
      }
    }
  }

  /** Ticks that run one after the other, as the worker runs them, meet the conditions for every service. */
  lemma {:induction false} SequentialTicksQualify(cfg: Config, moves: seq<Move>, w: Ticking, sid: string)
    requires Sequential(cfg, moves) && Overlapped(cfg, IDLE, moves) == Some(w)
    ensures OneRowAtATime(cfg, IDLE, moves, sid) && RecoveryPacing.NoneMeanwhile(cfg, IDLE, moves, sid)
    ensures AtMostOneCall(w) && NothingSince(cfg, moves, w, sid)
  {
    if moves != [] {
      var front, last := moves[..|moves| - 1], moves[|moves| - 1];
      var before := Overlapped(cfg, IDLE, front).value;
      assert moves == front + [last];
      SequentialTicksQualify(cfg, front, before, sid);
      SequentialStep(cfg, front, before, last, sid);
    }
  }
}
