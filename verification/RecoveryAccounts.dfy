/**
 Where accepted heartbeat redeploys are booked, for every interleaving of overlapping ticks: each on one
 record object of its service and deployment.  From the books follows when the budget is safe.
 */
module RecoveryAccounts {
  import opened Wrappers
  import opened HeartbeatLifecycle
  import opened WatchdogTick
  import opened OverlappingTicks
  import opened RecoveryPacing

  // ---------------------------------------------------------------- the books

  /** All deployments of a service, or one of them. */
  predicate Concerns(dep: string, scope: Option<string>) { scope.None? || scope.value == dep }

  /** Recoveries booked on the record objects. */
  function Used(objects: seq<HeartbeatRecord>, scope: Option<string>): nat {
    if objects == [] then 0
    else
      var last := objects[|objects| - 1];
      Used(objects[..|objects| - 1], scope) + if Concerns(last.deploymentId, scope) then last.recoveriesUsed else 0
  }

  /** Accepted heartbeat redeploys of `sid`. */
  function Accepted(log: seq<Event>, sid: string, scope: Option<string>): nat {
    if log == [] then 0
    else Accepted(log[..|log| - 1], sid, scope) + if IsAccepted(log[|log| - 1], sid, scope) then 1 else 0
  }

  predicate IsAccepted(e: Event, sid: string, scope: Option<string>) {
    e.HeartbeatAnswered? && e.sid == sid && e.ok && Concerns(e.dep, scope)
  }

  lemma {:induction false} AcceptedAdds(log: seq<Event>, more: seq<Event>, sid: string, scope: Option<string>)
    ensures Accepted(log + more, sid, scope) == Accepted(log, sid, scope) + Accepted(more, sid, scope)
  {
    if more == [] {
      assert log + more == log;
    } else {
      assert (log + more)[..|log + more| - 1] == log + more[..|more| - 1];
      AcceptedAdds(log, more[..|more| - 1], sid, scope);
    }
  }

  lemma {:induction false} NothingAccepted(log: seq<Event>, sid: string, scope: Option<string>)
    requires forall e <- log :: !e.HeartbeatAnswered?
    ensures Accepted(log, sid, scope) == 0
  {
    if log != [] {
      assert log[|log| - 1] in log && forall e <- log[..|log| - 1] :: e in log;
      NothingAccepted(log[..|log| - 1], sid, scope);
    }
  }

  lemma {:induction false} RecoveriesAreAccepted(log: seq<Event>, sid: string)
    ensures |Recoveries(log, sid)| == Accepted(log, sid, None)
  {
    if log != [] { RecoveriesAreAccepted(log[..|log| - 1], sid); }
  }

  /** The same books: objects keep their deployment and bookings, and new ones have none. */
  ghost predicate SameBooks(a: seq<HeartbeatRecord>, b: seq<HeartbeatRecord>) {
    |a| <= |b|
    && (forall i :: 0 <= i < |a| ==>
          a[i].deploymentId == b[i].deploymentId && a[i].recoveriesUsed == b[i].recoveriesUsed)
    && forall i :: |a| <= i < |b| ==> b[i].recoveriesUsed == 0
  }

  lemma {:induction false} UsedStays(a: seq<HeartbeatRecord>, b: seq<HeartbeatRecord>, scope: Option<string>)
    requires SameBooks(a, b)
    ensures Used(a, scope) == Used(b, scope)
  {
    if b != [] {
      var front := b[..|b| - 1];
      if |a| == |b| { UsedStays(a[..|a| - 1], front, scope); } else { UsedStays(a, front, scope); }
    }
  }

  /** One recovery more on object `rec`. */
  lemma {:induction false} UsedOnceMore(a: seq<HeartbeatRecord>, rec: nat, value: HeartbeatRecord,
                                        scope: Option<string>)
    requires rec < |a| && value.deploymentId == a[rec].deploymentId
    requires value.recoveriesUsed == a[rec].recoveriesUsed + 1
    ensures Used(a[rec := value], scope) == Used(a, scope) + if Concerns(value.deploymentId, scope) then 1 else 0
  {
    var front := a[..|a| - 1];
    if rec < |front| {
      assert a[rec := value][..|a| - 1] == front[rec := value];
      UsedOnceMore(front, rec, value, scope);
    } else {
      assert a[rec := value][..|a| - 1] == front;
    }
  }

  // ---------------------------------------------------------------- what the pieces of a row book

  /** The record object a suspended row holds is one of its service and deployment. */
  predicate HoldsRecord(s: Shared, row: Row, stage: Stage) {
    match stage
    case AwaitPing(rec) => rec < |Objects(s, row.sid)| && Objects(s, row.sid)[rec].deploymentId == row.depId
    case AwaitHeartbeat(rec) => rec < |Objects(s, row.sid)| && Objects(s, row.sid)[rec].deploymentId == row.depId
    case _ => true
  }

  /** The state is sound, and so is what every suspended row holds. */
  ghost predicate Intact(w: Ticking) {
    Sound(w.shared) && forall t :: t in w.calls ==> HoldsRecord(w.shared, w.calls[t].input.row, w.calls[t].stage)
  }

  /** The books of every service are the same, the state stays sound, and the row holds a proper record. */
  ghost predicate Kept(s: Shared, s': Shared, stage: Option<Stage>, row: Row) {
    (forall sid :: SameBooks(Objects(s, sid), Objects(s', sid))) && Sound(s')
    && (stage.Some? ==> HoldsRecord(s', row, stage.value))
  }

  lemma ToAutoKeeps(cfg: Config, s: Shared, r: RowInput)
    requires Sound(s)
    ensures var p := ToAuto(cfg, s, r); Kept(s, p.shared, p.stage, r.row) && p.shared.objects == s.objects
  {
  }

  lemma ToStoreKeeps(cfg: Config, s: Shared, r: RowInput, rec: nat)
    requires Sound(s) && rec < |Objects(s, r.row.sid)|
    ensures var p := ToStore(cfg, s, r, rec); Kept(s, p.shared, p.stage, r.row) && p.shared.objects == s.objects
  {
    ToAutoKeeps(cfg, s.(lifecycle := Heard(cfg, s.lifecycle, r), records := s.records[r.row.sid := rec]), r);
  }

  /** Rewriting an object without touching its deployment or its bookings. */
  lemma RewriteKeeps(s: Shared, row: Row, rec: nat, value: HeartbeatRecord)
    requires Sound(s) && HoldsRecord(s, row, AwaitPing(rec)) && value.deploymentId == row.depId
    requires value.recoveriesUsed == Object(s, row.sid, rec).recoveriesUsed
    ensures var s' := WithObject(s, row.sid, rec, value);
            Kept(s, s', Some(AwaitHeartbeat(rec)), row) && |Objects(s', row.sid)| == |Objects(s, row.sid)|
  {
    assert Objects(WithObject(s, row.sid, rec, value), row.sid) == Objects(s, row.sid)[rec := value];
  }

  lemma TakeKeeps(s: Shared, row: Row)
    requires Sound(s)
    ensures Kept(s, WithRecordOf(s, row), Some(AwaitPing(RecordOf(s, row))), row)
  {
    var s', sid := WithRecordOf(s, row), row.sid;
    if HasRecordFor(s, row) {
      var rec := s.records[sid];
      RewriteKeeps(s, row, rec, Object(s, sid, rec).(status := row.status));
    } else {
      assert Objects(s', sid) == Objects(s, sid) + [HeartbeatRecord(row.depId, row.status, 0, 0, false, false)];
    }
  }

  lemma ToPingKeeps(cfg: Config, s: Shared, r: RowInput)
    requires Sound(s)
    ensures var p := ToPing(cfg, s, r); Kept(s, p.shared, p.stage, r.row)
  {
    TakeKeeps(s, r.row);
    if !Pings(cfg, r.row) { ToAutoKeeps(cfg, UnprobedShared(cfg, s, r.row), r); }
  }

  lemma RewriteStoreKeeps(cfg: Config, s: Shared, r: RowInput, rec: nat, value: HeartbeatRecord)
    requires Sound(s) && HoldsRecord(s, r.row, AwaitPing(rec)) && value.deploymentId == r.row.depId
    requires value.recoveriesUsed == Object(s, r.row.sid, rec).recoveriesUsed
    ensures var p := ToStore(cfg, WithObject(s, r.row.sid, rec, value), r, rec); Kept(s, p.shared, p.stage, r.row)
  {
    var s1 := WithObject(s, r.row.sid, rec, value);
    RewriteKeeps(s, r.row, rec, value);
    ToStoreKeeps(cfg, s1, r, rec);
    forall sid ensures SameBooks(Objects(s, sid), Objects(ToStore(cfg, s1, r, rec).shared, sid)) {
      assert Objects(ToStore(cfg, s1, r, rec).shared, sid) == Objects(s1, sid);
    }
  }

  lemma FromPingKeeps(cfg: Config, s: Shared, r: RowInput, rec: nat)
    requires Sound(s) && HoldsRecord(s, r.row, AwaitPing(rec))
    ensures var p := FromPing(cfg, s, r, rec); Kept(s, p.shared, p.stage, r.row)
  {
    var record := Object(s, r.row.sid, rec);
    if r.pingOk {
      RewriteStoreKeeps(cfg, s, r, rec, Reached(record));
    } else if HeartbeatDeployDue(cfg, record, s.heartbeatLastRecoverAt, r) {
      RewriteKeeps(s, r.row, rec, record.(consecutiveMisses := record.consecutiveMisses + 1));
    } else {
      RewriteStoreKeeps(cfg, s, r, rec, RecordAfterMiss(cfg, record, s.heartbeatLastRecoverAt, r));
    }
  }

  /** All pieces but the answer to a heartbeat redeploy. */
  lemma ContinueKeeps(cfg: Config, s: Shared, call: Call)
    requires Sound(s) && HoldsRecord(s, call.input.row, call.stage) && !call.stage.AwaitHeartbeat?
    ensures var p := Continue(cfg, s, call); Kept(s, p.shared, p.stage, call.input.row)
  {
    match call.stage
    case AwaitExit => ToPingKeeps(cfg, s.(lifecycle := Settled(s.lifecycle, call.input)), call.input);
    case AwaitPing(rec) => FromPingKeeps(cfg, s, call.input, rec);
    case AwaitAuto =>
  }

  lemma FromStartKeeps(cfg: Config, s: Shared, r: RowInput)
    requires Sound(s)
    ensures var p := FromStart(cfg, s, r); Kept(s, p.shared, p.stage, r.row)
  {
    ToPingKeeps(cfg, s, r);
  }

  /** The objects of the service after the answer: one recovery more on the row's, if it was accepted. */
  function AfterAnswer(objects: seq<HeartbeatRecord>, rec: nat, ok: bool): seq<HeartbeatRecord>
    requires rec < |objects|
  {
    if ok then objects[rec := Recovered(objects[rec])] else objects
  }

  /** The piece `p` that starts with the answer to a redeploy: one recovery more if it was accepted. */
  ghost predicate BooksAnswer(s: Shared, p: Progress, r: RowInput, rec: nat) {
    Sound(p.shared) && (p.stage.Some? ==> HoldsRecord(p.shared, r.row, p.stage.value))
    && rec < |Objects(s, r.row.sid)| && Objects(s, r.row.sid)[rec].deploymentId == r.row.depId
    && Objects(p.shared, r.row.sid) == AfterAnswer(Objects(s, r.row.sid), rec, r.heartbeatDeployOk)
    && forall sid :: sid != r.row.sid ==> Objects(p.shared, sid) == Objects(s, sid)
  }

  lemma FromHeartbeatBooks(cfg: Config, s: Shared, r: RowInput, rec: nat)
    requires Sound(s) && HoldsRecord(s, r.row, AwaitHeartbeat(rec))
    ensures BooksAnswer(s, FromHeartbeat(cfg, s, r, rec), r, rec)
  {
    var s1 := AfterRecovery(s, r, rec);
    assert Objects(s1, r.row.sid) == AfterAnswer(Objects(s, r.row.sid), rec, r.heartbeatDeployOk);
    ToStoreKeeps(cfg, s1, r, rec);
  }

  // ---------------------------------------------------------------- moves

  /** The answer the move brings to a redeploy of `sid`, within `scope`, is yes. */
  predicate Accepts(w: Ticking, move: Move, sid: string, scope: Option<string>) {
    AcceptsRecovery(w, move, sid) && Concerns(w.calls[move.tick].input.row.depId, scope)
  }

  /** Holding on while the books of all services only grow at the end. */
  ghost predicate Extends(s: Shared, s': Shared) {
    forall sid :: |Objects(s, sid)| <= |Objects(s', sid)|
      && forall i :: 0 <= i < |Objects(s, sid)|
           ==> Objects(s', sid)[i].deploymentId == Objects(s, sid)[i].deploymentId
  }

  lemma MovedIntact(w: Ticking, t: nat, r: RowInput, p: Progress)
    requires Intact(w) && Sound(p.shared) && Extends(w.shared, p.shared)
    requires p.stage.Some? ==> HoldsRecord(p.shared, r.row, p.stage.value)
    ensures Intact(Moved(w, t, r, p))
  {
    var w' := Moved(w, t, r, p);
    forall u | u in w'.calls ensures HoldsRecord(w'.shared, w'.calls[u].input.row, w'.calls[u].stage) {
      if u != t {
        assert w'.calls[u] == w.calls[u] && HoldsRecord(w.shared, w.calls[u].input.row, w.calls[u].stage);
      }
    }
  }

  /** What a move from `w` to `w'` does to the books of `sid`. */
  ghost predicate Books(w: Ticking, move: Move, w': Ticking, sid: string, scope: Option<string>) {
    var one := if Accepts(w, move, sid, scope) then 1 else 0;
    Intact(w') && Used(Objects(w'.shared, sid), scope) == Used(Objects(w.shared, sid), scope) + one
    && Accepted(w'.log, sid, scope) == Accepted(w.log, sid, scope) + one
  }

  lemma KeptBooks(w: Ticking, move: Move, r: RowInput, p: Progress, sid: string, scope: Option<string>)
    requires !move.Clean? && Intact(w) && Kept(w.shared, p.shared, p.stage, r.row)
    requires (forall e <- p.log :: !e.HeartbeatAnswered?) && !AcceptsRecovery(w, move, sid)
    ensures Books(w, move, Moved(w, move.tick, r, p), sid, scope)
  {
    MovedIntact(w, move.tick, r, p);
    UsedStays(Objects(w.shared, sid), Objects(p.shared, sid), scope);
    AcceptedAdds(w.log, p.log, sid, scope);
    NothingAccepted(p.log, sid, scope);
  }

  lemma AnswerLog(cfg: Config, log: seq<Event>, s: Shared, r: RowInput, rec: nat, sid: string, scope: Option<string>)
    ensures Accepted(log + FromHeartbeat(cfg, s, r, rec).log, sid, scope)
            == Accepted(log, sid, scope) + if IsAccepted(Answer(r), sid, scope) then 1 else 0
  {
    var rest := ToStore(cfg, AfterRecovery(s, r, rec), r, rec);
    ToStoreIsSilent(cfg, AfterRecovery(s, r, rec), r, rec);
    NothingAccepted(rest.log, sid, scope);
    AcceptedAdds(log, [Answer(r)] + rest.log, sid, scope);
    AcceptedAdds([Answer(r)], rest.log, sid, scope);
    assert [Answer(r)][..0] == [];
  }

  lemma AnswerUsed(objects: seq<HeartbeatRecord>, rec: nat, ok: bool, scope: Option<string>)
    requires rec < |objects|
    ensures Used(AfterAnswer(objects, rec, ok), scope)
            == Used(objects, scope) + if ok && Concerns(objects[rec].deploymentId, scope) then 1 else 0
  {
    if ok { UsedOnceMore(objects, rec, Recovered(objects[rec]), scope); }
  }

  lemma AnswerIsBooked(w: Ticking, t: nat, reply: RowInput, r: RowInput, rec: nat, p: Progress, sid: string,
                       scope: Option<string>)
    requires Intact(w) && t in w.calls && w.calls[t].stage.AwaitHeartbeat? && w.calls[t].input.row == r.row
    requires reply.heartbeatDeployOk == r.heartbeatDeployOk && BooksAnswer(w.shared, p, r, rec)
    requires Accepted(w.log + p.log, sid, scope)
             == Accepted(w.log, sid, scope) + if IsAccepted(Answer(r), sid, scope) then 1 else 0
    ensures Books(w, Resume(t, reply), Moved(w, t, r, p), sid, scope)
  {
    MovedIntact(w, t, r, p);
    if r.row.sid == sid { AnswerUsed(Objects(w.shared, sid), rec, r.heartbeatDeployOk, scope); }
  }

  lemma AnswerBooks(cfg: Config, w: Ticking, t: nat, reply: RowInput, sid: string, scope: Option<string>)
    requires Intact(w) && t in w.calls && w.calls[t].stage.AwaitHeartbeat?
    ensures Books(w, Resume(t, reply), Perform(cfg, w, Resume(t, reply)), sid, scope)
  {
    var call := Replied(w.calls[t], reply);
    var r, rec := call.input, call.stage.rec;
    assert HoldsRecord(w.shared, w.calls[t].input.row, w.calls[t].stage);
    FromHeartbeatBooks(cfg, w.shared, r, rec);
    AnswerLog(cfg, w.log, w.shared, r, rec, sid, scope);
    AnswerIsBooked(w, t, reply, r, rec, FromHeartbeat(cfg, w.shared, r, rec), sid, scope);
  }

  lemma MoveBooks(cfg: Config, w: Ticking, move: Move, sid: string, scope: Option<string>)
    requires Intact(w) && Possible(w, move)
    ensures Books(w, move, Perform(cfg, w, move), sid, scope)
  {
    match move
    case Enter(t, r) =>
      FromStartKeeps(cfg, w.shared, r);
      FromStartIsSilent(cfg, w.shared, r);
      KeptBooks(w, move, r, FromStart(cfg, w.shared, r), sid, scope);
    case Resume(t, reply) =>
      var call := Replied(w.calls[t], reply);
      if call.stage.AwaitHeartbeat? {
        AnswerBooks(cfg, w, t, reply, sid, scope);
      } else {
        assert HoldsRecord(w.shared, w.calls[t].input.row, w.calls[t].stage);
        ContinueKeeps(cfg, w.shared, call);
        if BeginsRecovery(cfg, w.shared, call) {
          ContinueBegins(cfg, w.shared, call);
        } else {
          ContinueIsSilent(cfg, w.shared, call);
        }
        KeptBooks(w, move, call.input, Continue(cfg, w.shared, call), sid, scope);
      }
    case Clean(ids) => CleanedView(w.shared, ids);
  }

  lemma {:induction false} AlwaysIntact(cfg: Config, start: Ticking, moves: seq<Move>, w: Ticking)
    requires Intact(start) && Overlapped(cfg, start, moves) == Some(w)
    ensures Intact(w)
  {
    if moves != [] {
      var front, last := moves[..|moves| - 1], moves[|moves| - 1];
      var before := Overlapped(cfg, start, front).value;
      AlwaysIntact(cfg, start, front, before);
      MoveBooks(cfg, before, last, "", None);
    }
  }

  /**
   Whatever ticks overlap, in any part of any run: every accepted heartbeat redeploy is booked once, on a
   record object of its service and its deployment, and nothing else is ever booked or unbooked.
   */
  lemma {:induction false} RecoveriesAreBooked(cfg: Config, start: Ticking, moves: seq<Move>, w: Ticking, sid: string,
                                               scope: Option<string>)
    requires Intact(start) && start.log == [] && Overlapped(cfg, start, moves) == Some(w)
    ensures Used(Objects(w.shared, sid), scope) == Used(Objects(start.shared, sid), scope) + Accepted(w.log, sid, scope)
  {
    if moves != [] {
      var front, last := moves[..|moves| - 1], moves[|moves| - 1];
      var before := Overlapped(cfg, start, front).value;
      AlwaysIntact(cfg, start, front, before);
      RecoveriesAreBooked(cfg, start, front, before, sid, scope);
      MoveBooks(cfg, before, last, sid, scope);
    }
  }
}
