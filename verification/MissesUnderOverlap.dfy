/**
 When heartbeat redeploys begin although ticks overlap: each record object counts the failed pings of the
 rows that hold it, whichever tick they belong to.
 */
module MissesUnderOverlap {
  import opened Wrappers
  import opened RailwayStatus
  import opened WatchdogTick
  import opened OverlappingTicks
  import opened RecoveryPacing
  import opened RecoveryAccounts
  import RecordHistory

  // ---------------------------------------------------------------- what the moves say about a record

  /** What a row that goes on does to the record it holds. */
  datatype Mark = Nothing | PingAnswered | Missed | Down | RedeployAccepted

  function MarkOf(cfg: Config, call: Call): Mark {
    var r := call.input;
    match call.stage
    case AwaitPing(_) =>
      if r.pingOk then PingAnswered
      else if RecordHistory.CountsMisses(cfg, r) then Missed
      else if r.row.status !in {SUCCESS, SLEEPING} then Down else Nothing
    case AwaitHeartbeat(_) => if r.heartbeatDeployOk then RedeployAccepted else Nothing
    case _ => Nothing
  }

  /** The row holds record `rec` of `sid`. */
  predicate Holds(call: Call, sid: string, rec: nat) {
    call.input.row.sid == sid
    && ((call.stage.AwaitPing? && call.stage.rec == rec) || (call.stage.AwaitHeartbeat? && call.stage.rec == rec))
  }

  /** What the move does to record `rec` of `sid`. */
  function MarkOn(cfg: Config, w: Ticking, move: Move, sid: string, rec: nat): Mark {
    if move.Resume? && move.tick in w.calls && Holds(w.calls[move.tick], sid, rec)
    then MarkOf(cfg, Replied(w.calls[move.tick], move.reply)) else Nothing
  }

  function MissesWith(misses: nat, mark: Mark): nat {
    match mark
    case Nothing => misses
    case Missed => misses + 1
    case _ => 0
  }

  /** Misses since the last answer, recovery, or failed ping while the deployment was not up. */
  function MissesOn(cfg: Config, moves: seq<Move>, sid: string, rec: nat): nat {
    if moves == [] then 0
    else
      var front, last := moves[..|moves| - 1], moves[|moves| - 1];
      var before := Overlapped(cfg, IDLE, front);
      MissesWith(MissesOn(cfg, front, sid, rec),
                 if before.Some? then MarkOn(cfg, before.value, last, sid, rec) else Nothing)
  }

  /** Accepted recoveries of the rows that held the record. */
  function RecoveriesOn(cfg: Config, moves: seq<Move>, sid: string, rec: nat): nat {
    if moves == [] then 0
    else
      var front, last := moves[..|moves| - 1], moves[|moves| - 1];
      var before := Overlapped(cfg, IDLE, front);
      RecoveriesOn(cfg, front, sid, rec)
      + if before.Some? && MarkOn(cfg, before.value, last, sid, rec).RedeployAccepted? then 1 else 0
  }

  /** The end of the last accepted recovery, forgotten when a tick does not list the service. */
  function LastRecovery(cfg: Config, moves: seq<Move>, sid: string): Option<int> {
    if moves == [] then None
    else
      var front, last := moves[..|moves| - 1], moves[|moves| - 1];
      var before := Overlapped(cfg, IDLE, front);
      if last.Clean? && sid !in last.ids then None
      else if before.Some? && AcceptsRecovery(before.value, last, sid) then Some(last.reply.heartbeatDone)
      else LastRecovery(cfg, front, sid)
  }

  // ---------------------------------------------------------------- what the pieces do

  ghost predicate Counts(s: Shared, sid: string, rec: nat, misses: nat, used: nat) {
    Object(s, sid, rec).consecutiveMisses == misses && Object(s, sid, rec).recoveriesUsed == used
  }

  /** The piece leaves the counts of every record but `rec` of `sid`; that one has now `misses` and `used`. */
  ghost predicate Leaves(s: Shared, s': Shared, sid: string, rec: nat, misses: nat, used: nat) {
    Counts(s', sid, rec, misses, used)
    && forall id, k: nat :: id != sid || k != rec
         ==> Counts(s', id, k, Object(s, id, k).consecutiveMisses, Object(s, id, k).recoveriesUsed)
  }

  ghost predicate LeavesAll(s: Shared, s': Shared) {
    forall id, k: nat :: Counts(s', id, k, Object(s, id, k).consecutiveMisses, Object(s, id, k).recoveriesUsed)
  }

  lemma WriteLeaves(s: Shared, sid: string, rec: nat, value: HeartbeatRecord)
    requires rec < |Objects(s, sid)|
    ensures Leaves(s, WithObject(s, sid, rec, value), sid, rec, value.consecutiveMisses, value.recoveriesUsed)
  {
    var s' := WithObject(s, sid, rec, value);
    assert Objects(s', sid) == Objects(s, sid)[rec := value];
  }

  lemma TakeLeaves(s: Shared, row: Row)
    requires Sound(s)
    ensures LeavesAll(s, WithRecordOf(s, row))
  {
    var s', sid := WithRecordOf(s, row), row.sid;
    if HasRecordFor(s, row) {
      var rec := s.records[sid];
      WriteLeaves(s, sid, rec, Object(s, sid, rec).(status := row.status));
    } else {
      assert Objects(s', sid) == Objects(s, sid) + [HeartbeatRecord(row.depId, row.status, 0, 0, false, false)];
    }
  }

  lemma SameObjects(s: Shared, s': Shared)
    requires s'.objects == s.objects
    ensures LeavesAll(s, s')
  {
  }

  lemma LeavesAllVia(s: Shared, s1: Shared, s': Shared)
    requires LeavesAll(s, s1) && s'.objects == s1.objects
    ensures LeavesAll(s, s')
  {
    SameObjects(s1, s');
  }

  lemma LeavesVia(s: Shared, s1: Shared, s': Shared, sid: string, rec: nat, misses: nat, used: nat)
    requires Leaves(s, s1, sid, rec, misses, used) && s'.objects == s1.objects
    ensures Leaves(s, s', sid, rec, misses, used)
  {
    SameObjects(s1, s');
  }

  lemma ToPingObjects(cfg: Config, s: Shared, r: RowInput)
    ensures ToPing(cfg, s, r).shared.objects == WithRecordOf(s, r.row).objects
  {
  }

  lemma ToPingLeaves(cfg: Config, s: Shared, r: RowInput)
    requires Sound(s)
    ensures LeavesAll(s, ToPing(cfg, s, r).shared)
  {
    TakeLeaves(s, r.row);
    ToPingObjects(cfg, s, r);
    LeavesAllVia(s, WithRecordOf(s, r.row), ToPing(cfg, s, r).shared);
  }

  /** The record as the row's ping leaves it. */
  function Pinged(cfg: Config, s: Shared, r: RowInput, record: HeartbeatRecord): HeartbeatRecord {
    if r.pingOk then Reached(record)
    else if HeartbeatDeployDue(cfg, record, s.heartbeatLastRecoverAt, r)
    then record.(consecutiveMisses := record.consecutiveMisses + 1)
    else RecordAfterMiss(cfg, record, s.heartbeatLastRecoverAt, r)
  }

  lemma PingedCounts(cfg: Config, s: Shared, r: RowInput, record: HeartbeatRecord, rec: nat)
    ensures var after := Pinged(cfg, s, r, record);
            after.consecutiveMisses == MissesWith(record.consecutiveMisses, MarkOf(cfg, Call(r, AwaitPing(rec))))
            && after.recoveriesUsed == record.recoveriesUsed
  {
  }

  lemma FromPingObjects(cfg: Config, s: Shared, r: RowInput, rec: nat)
    ensures FromPing(cfg, s, r, rec).shared.objects
            == WithObject(s, r.row.sid, rec, Pinged(cfg, s, r, Object(s, r.row.sid, rec))).objects
  {
  }

  lemma FromPingLeaves(cfg: Config, s: Shared, r: RowInput, rec: nat)
    requires rec < |Objects(s, r.row.sid)|
    ensures var record := Object(s, r.row.sid, rec);
            Leaves(s, FromPing(cfg, s, r, rec).shared, r.row.sid, rec,
                   MissesWith(record.consecutiveMisses, MarkOf(cfg, Call(r, AwaitPing(rec)))), record.recoveriesUsed)
  {
    var sid, record := r.row.sid, Object(s, r.row.sid, rec);
    var value := Pinged(cfg, s, r, record);
    WriteLeaves(s, sid, rec, value);
    PingedCounts(cfg, s, r, record, rec);
    FromPingObjects(cfg, s, r, rec);
    LeavesVia(s, WithObject(s, sid, rec, value), FromPing(cfg, s, r, rec).shared, sid, rec,
              value.consecutiveMisses, value.recoveriesUsed);
  }

  lemma FromHeartbeatObjects(cfg: Config, s: Shared, r: RowInput, rec: nat)
    ensures FromHeartbeat(cfg, s, r, rec).shared.objects == AfterRecovery(s, r, rec).objects
  {
  }

  lemma FromHeartbeatLeaves(cfg: Config, s: Shared, r: RowInput, rec: nat)
    requires rec < |Objects(s, r.row.sid)|
    ensures var record := Object(s, r.row.sid, rec);
            Leaves(s, FromHeartbeat(cfg, s, r, rec).shared, r.row.sid, rec,
                   if r.heartbeatDeployOk then 0 else record.consecutiveMisses,
                   record.recoveriesUsed + if r.heartbeatDeployOk then 1 else 0)
  {
    var record := Object(s, r.row.sid, rec);
    FromHeartbeatObjects(cfg, s, r, rec);
    if r.heartbeatDeployOk {
      WriteLeaves(s, r.row.sid, rec, OverlappingTicks.Recovered(record));
    } else {
      SameObjects(s, AfterRecovery(s, r, rec));
    }
    LeavesVia(s, AfterRecovery(s, r, rec), FromHeartbeat(cfg, s, r, rec).shared, r.row.sid, rec,
              if r.heartbeatDeployOk then 0 else record.consecutiveMisses,
              record.recoveriesUsed + if r.heartbeatDeployOk then 1 else 0);
  }

  /** What the row that goes on does to any record, its own or not. */
  ghost predicate Marks(s: Shared, s': Shared, sid: string, rec: nat, mark: Mark) {
    Counts(s', sid, rec, MissesWith(Object(s, sid, rec).consecutiveMisses, mark),
           Object(s, sid, rec).recoveriesUsed + if mark.RedeployAccepted? then 1 else 0)
  }

  lemma HoldingMarks(s: Shared, s': Shared, call: Call, k: nat, misses: nat, used: nat, mark: Mark,
                     sid: string, rec: nat)
    requires Leaves(s, s', call.input.row.sid, k, misses, used)
    requires call.stage == AwaitPing(k) || call.stage == AwaitHeartbeat(k)
    requires Marks(s, s', call.input.row.sid, k, mark)
    ensures Marks(s, s', sid, rec, if Holds(call, sid, rec) then mark else Nothing)
  {
  }

  lemma ExitMarks(cfg: Config, s: Shared, r: RowInput, sid: string, rec: nat)
    requires Sound(s)
    ensures Marks(s, FromExit(cfg, s, r).shared, sid, rec, Nothing)
  {
    var s1 := s.(lifecycle := Settled(s.lifecycle, r));
    SameObjects(s, s1);
    ToPingLeaves(cfg, s1, r);
    assert Counts(ToPing(cfg, s1, r).shared, sid, rec,
                  Object(s1, sid, rec).consecutiveMisses, Object(s1, sid, rec).recoveriesUsed);
  }

  lemma PingMarks(cfg: Config, s: Shared, r: RowInput, k: nat, sid: string, rec: nat)
    requires k < |Objects(s, r.row.sid)|
    ensures var call := Call(r, AwaitPing(k));
            Marks(s, FromPing(cfg, s, r, k).shared, sid, rec,
                  if Holds(call, sid, rec) then MarkOf(cfg, call) else Nothing)
  {
    var call, record := Call(r, AwaitPing(k)), Object(s, r.row.sid, k);
    FromPingLeaves(cfg, s, r, k);
    HoldingMarks(s, FromPing(cfg, s, r, k).shared, call, k,
                 MissesWith(record.consecutiveMisses, MarkOf(cfg, call)), record.recoveriesUsed,
                 MarkOf(cfg, call), sid, rec);
  }

  lemma HeartbeatMarks(cfg: Config, s: Shared, r: RowInput, k: nat, sid: string, rec: nat)
    requires k < |Objects(s, r.row.sid)|
    ensures var call := Call(r, AwaitHeartbeat(k));
            Marks(s, FromHeartbeat(cfg, s, r, k).shared, sid, rec,
                  if Holds(call, sid, rec) then MarkOf(cfg, call) else Nothing)
  {
    var call, record := Call(r, AwaitHeartbeat(k)), Object(s, r.row.sid, k);
    FromHeartbeatLeaves(cfg, s, r, k);
    HoldingMarks(s, FromHeartbeat(cfg, s, r, k).shared, call, k,
                 if r.heartbeatDeployOk then 0 else record.consecutiveMisses,
                 record.recoveriesUsed + if r.heartbeatDeployOk then 1 else 0, MarkOf(cfg, call), sid, rec);
  }

  lemma AutoMarks(s: Shared, r: RowInput, sid: string, rec: nat)
    ensures Marks(s, FromAuto(s, r).shared, sid, rec, Nothing)
  {
    SameObjects(s, FromAuto(s, r).shared);
  }

  lemma ContinueMarks(cfg: Config, s: Shared, call: Call, sid: string, rec: nat)
    requires Sound(s) && HoldsRecord(s, call.input.row, call.stage)
    ensures Marks(s, Continue(cfg, s, call).shared, sid, rec,
                  if Holds(call, sid, rec) then MarkOf(cfg, call) else Nothing)
  {
    match call.stage
    case AwaitExit => ExitMarks(cfg, s, call.input, sid, rec);
    case AwaitPing(k) => PingMarks(cfg, s, call.input, k, sid, rec);
    case AwaitHeartbeat(k) => HeartbeatMarks(cfg, s, call.input, k, sid, rec);
    case AwaitAuto => AutoMarks(s, call.input, sid, rec);
  }

  // ---------------------------------------------------------------- runs

  lemma MoveMarks(cfg: Config, w: Ticking, move: Move, sid: string, rec: nat)
    requires Intact(w) && Possible(w, move)
    ensures Marks(w.shared, Perform(cfg, w, move).shared, sid, rec, MarkOn(cfg, w, move, sid, rec))
  {
    match move
    case Enter(_, r) => ToPingLeaves(cfg, w.shared, r);
    case Resume(t, reply) =>
      assert HoldsRecord(w.shared, w.calls[t].input.row, w.calls[t].stage);
      ContinueMarks(cfg, w.shared, Replied(w.calls[t], reply), sid, rec);
    case Clean(_) =>
  }

  /** Over every run of ticks, however they overlap, each record counts what the moves say of it. */
  lemma {:induction false} RecordCounts(cfg: Config, moves: seq<Move>, w: Ticking, sid: string, rec: nat)
    requires Overlapped(cfg, IDLE, moves) == Some(w)
    ensures Counts(w.shared, sid, rec, MissesOn(cfg, moves, sid, rec), RecoveriesOn(cfg, moves, sid, rec))
  {
    if moves != [] {
      var front, last := moves[..|moves| - 1], moves[|moves| - 1];
      var before := Overlapped(cfg, IDLE, front).value;
      RecordCounts(cfg, front, before, sid, rec);
      AlwaysIntact(cfg, IDLE, front, before);
      MoveMarks(cfg, before, last, sid, rec);
    }
  }

  ghost predicate RecoveredAt(s: Shared, sid: string, at: Option<int>) {
    (sid in s.heartbeatLastRecoverAt <==> at.Some?) && (at.Some? ==> s.heartbeatLastRecoverAt[sid] == at.value)
  }

  lemma MoveRecovers(cfg: Config, w: Ticking, move: Move, sid: string, at: Option<int>)
    requires Possible(w, move) && RecoveredAt(w.shared, sid, at)
    ensures RecoveredAt(Perform(cfg, w, move).shared, sid,
                        if move.Clean? && sid !in move.ids then None
                        else if AcceptsRecovery(w, move, sid) then Some(move.reply.heartbeatDone) else at)
  {
    match move
    case Enter(_, r) => FromStartIsSilent(cfg, w.shared, r);
    case Resume(t, reply) =>
      var call := Replied(w.calls[t], reply);
      if BeginsRecovery(cfg, w.shared, call) {
        ContinueBegins(cfg, w.shared, call);
      } else if call.stage.AwaitHeartbeat? {
        AnswerMeans(cfg, w.log, w.shared, call.input, call.stage.rec, sid);
      } else {
        ContinueIsSilent(cfg, w.shared, call);
      }
    case Clean(_) =>
  }

  lemma {:induction false} RecoveryTimes(cfg: Config, moves: seq<Move>, w: Ticking, sid: string)
    requires Overlapped(cfg, IDLE, moves) == Some(w)
    ensures RecoveredAt(w.shared, sid, LastRecovery(cfg, moves, sid))
  {
    if moves != [] {
      var front, last := moves[..|moves| - 1], moves[|moves| - 1];
      var before := Overlapped(cfg, IDLE, front).value;
      RecoveryTimes(cfg, front, before, sid);
      MoveRecovers(cfg, before, last, sid, LastRecovery(cfg, front, sid));
    }
  }

  /**
   After any run of ticks, however they overlap: a row whose ping is answered begins a heartbeat redeploy
   if and only if the ping failed and counts, with it the misses of its record reach the threshold, fewer
   recoveries than the maximum were accepted on that record, and the last one of the service is a cooldown
   old.
   */
  lemma RecoveryBeginsIff(cfg: Config, moves: seq<Move>, w: Ticking, t: nat, reply: RowInput)
    requires Overlapped(cfg, IDLE, moves) == Some(w) && t in w.calls && w.calls[t].stage.AwaitPing?
    ensures var r, sid, rec := Replied(w.calls[t], reply).input, w.calls[t].input.row.sid, w.calls[t].stage.rec;
            HeartbeatBegan(sid, r.heartbeatNow) in Continue(cfg, w.shared, Replied(w.calls[t], reply)).log
            <==> !r.pingOk && RecordHistory.CountsMisses(cfg, r)
                 && MissesOn(cfg, moves, sid, rec) + 1 >= cfg.missThreshold
                 && RecoveriesOn(cfg, moves, sid, rec) < cfg.maxRecover
                 && RecordHistory.CooledSince(cfg, LastRecovery(cfg, moves, sid), r.heartbeatNow)
  {
    var call := Replied(w.calls[t], reply);
    RecordCounts(cfg, moves, w, call.input.row.sid, call.stage.rec);
    RecoveryTimes(cfg, moves, w, call.input.row.sid);
    if BeginsRecovery(cfg, w.shared, call) {
      ContinueBegins(cfg, w.shared, call);
    } else {
      ContinueIsSilent(cfg, w.shared, call);
    }
  }
}
