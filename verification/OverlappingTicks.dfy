/**
 Ticks that overlap.  The worker never starts a tick before the last one ended, but the dashboard runs
 one for every request on a shared state, so at each awaited call a row may be suspended while rows of
 other ticks run.  Here a row is the pieces between its awaits, and the pieces interleave freely.

 The answer a suspended row gets and the clock readings it then makes come with the move that resumes it;
 heartbeat records are objects that the map and suspended rows share.
 */
module OverlappingTicks {
  import opened Wrappers
  import opened HeartbeatLifecycle
  import opened RailwayStatus
  import opened WatchdogTick

  /** What a suspended row waits for, and which of its service's record objects it holds. */
  datatype Stage = AwaitExit | AwaitPing(rec: nat) | AwaitHeartbeat(rec: nat) | AwaitAuto

  datatype Call = Call(input: RowInput, stage: Stage)

  /** `objects` are the record objects ever made for a service; `records` says which is in the map. */
  datatype Shared = Shared(
    prev: map<string, PrevEntry>,
    recoverCooldown: map<string, int>,
    objects: map<string, seq<HeartbeatRecord>>,
    records: map<string, nat>,
    heartbeatLastRecoverAt: map<string, int>,
    lifecycle: Lifecycle)

  const EMPTY_SHARED := Shared(map[], map[], map[], map[], map[], EMPTY_LIFECYCLE)

  datatype Event =
    | ExitBegan(sid: string)
    | ExitAnswered(sid: string, ok: bool)
    | Probed(sid: string, online: OnlineStatus, ok: bool)
    | HeartbeatBegan(sid: string, start: int)
    | HeartbeatAnswered(sid: string, dep: string, start: int, done: int, ok: bool)
    | SawHealthy(sid: string)
    | AutoBegan(sid: string, start: int)
    | AutoAnswered(sid: string, start: int, done: int, ok: bool)

  /** `calls` are the rows under way, by the tick that runs them. */
  datatype Ticking = Ticking(shared: Shared, calls: map<nat, Call>, log: seq<Event>)

  const IDLE := Ticking(EMPTY_SHARED, map[], [])

  // ---------------------------------------------------------------- record objects

  const NO_RECORD := HeartbeatRecord("", Absent, 0, 0, false, false)

  function Objects(s: Shared, sid: string): seq<HeartbeatRecord> {
    if sid in s.objects then s.objects[sid] else []
  }

  function Object(s: Shared, sid: string, rec: nat): HeartbeatRecord {
    if rec < |Objects(s, sid)| then Objects(s, sid)[rec] else NO_RECORD
  }

  function WithObject(s: Shared, sid: string, rec: nat, value: HeartbeatRecord): Shared {
    if rec < |Objects(s, sid)| then s.(objects := s.objects[sid := Objects(s, sid)[rec := value]]) else s
  }

  predicate HasRecordFor(s: Shared, row: Row) {
    row.sid in s.records && Object(s, row.sid, s.records[row.sid]).deploymentId == row.depId
  }

  /** The object the row works on: the one in the map, if it is for this deployment, or a new one. */
  function RecordOf(s: Shared, row: Row): nat {
    if HasRecordFor(s, row) then s.records[row.sid] else |Objects(s, row.sid)|
  }

  function WithRecordOf(s: Shared, row: Row): Shared {
    if HasRecordFor(s, row) then
      WithObject(s, row.sid, s.records[row.sid], Object(s, row.sid, s.records[row.sid]).(status := row.status))
    else
      var unused := HeartbeatRecord(row.depId, row.status, 0, 0, false, false);
      s.(objects := s.objects[row.sid := Objects(s, row.sid) + [unused]])
  }

  // ---------------------------------------------------------------- the pieces of a row

  /** A piece runs up to the next await, or to the end of the row. */
  datatype Progress = Progress(shared: Shared, stage: Option<Stage>, log: seq<Event>)

  function After(log: seq<Event>, p: Progress): Progress { p.(log := log + p.log) }

  function Remembered(s: Shared, row: Row): Shared {
    s.(prev := s.prev[row.sid := PrevEntry(row.status, row.depId, row.online)])
  }

  function ToAuto(cfg: Config, s: Shared, r: RowInput): Progress {
    var sid := r.row.sid;
    if IsHealthy(r.row.status) then
      Progress(Remembered(s.(recoverCooldown := s.recoverCooldown - {sid}), r.row), None, [SawHealthy(sid)])
    else if AutoRecoverDue(cfg, s.recoverCooldown, r) then
      Progress(s, Some(AwaitAuto), [AutoBegan(sid, r.autoNow)])
    else Progress(Remembered(s, r.row), None, [])
  }

  function FromAuto(s: Shared, r: RowInput): Progress {
    var sid := r.row.sid;
    var s := if r.autoDeployOk then s.(recoverCooldown := s.recoverCooldown[sid := r.autoDone]) else s;
    Progress(Remembered(s, r.row), None, [AutoAnswered(sid, r.autoNow, r.autoDone, r.autoDeployOk)])
  }

  /** The lifecycle after the row's ping. */
  function Heard(cfg: Config, life: Lifecycle, r: RowInput): Lifecycle {
    AfterProbe(cfg.exit, life, r.row.sid, r.row.depId, r.row.online, Ping(false, Some(r.pingOk)), true)
  }

  /** The lifecycle after the answer to the row's exit redeploy. */
  function Settled(life: Lifecycle, r: RowInput): Lifecycle {
    if r.exitDeployOk then ClearService(life, r.row.sid) else Requeue(life, r.row.sid)
  }

  /** The ping is handled: the lifecycle hears of it and the record goes into the map. */
  function ToStore(cfg: Config, s: Shared, r: RowInput, rec: nat): Progress {
    var sid := r.row.sid;
    var life := Heard(cfg, s.lifecycle, r);
    After([Probed(sid, r.row.online, r.pingOk)],
          ToAuto(cfg, s.(lifecycle := life, records := s.records[sid := rec]), r))
  }

  /** The record after a ping that was answered. */
  function Reached(record: HeartbeatRecord): HeartbeatRecord {
    record.(consecutiveMisses := 0, loggedCooldownWait := false)
  }

  function FromPing(cfg: Config, s: Shared, r: RowInput, rec: nat): Progress {
    var sid := r.row.sid;
    var record := Object(s, sid, rec);
    if r.pingOk then
      ToStore(cfg, WithObject(s, sid, rec, Reached(record)), r, rec)
    else if HeartbeatDeployDue(cfg, record, s.heartbeatLastRecoverAt, r) then
      Progress(WithObject(s, sid, rec, record.(consecutiveMisses := record.consecutiveMisses + 1)),
               Some(AwaitHeartbeat(rec)), [HeartbeatBegan(sid, r.heartbeatNow)])
    else
      ToStore(cfg, WithObject(s, sid, rec, RecordAfterMiss(cfg, record, s.heartbeatLastRecoverAt, r)), r, rec)
  }

  function Recovered(record: HeartbeatRecord): HeartbeatRecord {
    record.(recoveriesUsed := record.recoveriesUsed + 1, consecutiveMisses := 0,
            loggedBudgetExhausted := false, loggedCooldownWait := false)
  }

  function AfterRecovery(s: Shared, r: RowInput, rec: nat): Shared {
    var sid := r.row.sid;
    if r.heartbeatDeployOk then
      WithObject(s, sid, rec, Recovered(Object(s, sid, rec)))
      .(heartbeatLastRecoverAt := s.heartbeatLastRecoverAt[sid := r.heartbeatDone])
    else s
  }

  function FromHeartbeat(cfg: Config, s: Shared, r: RowInput, rec: nat): Progress {
    After([HeartbeatAnswered(r.row.sid, r.row.depId, r.heartbeatNow, r.heartbeatDone, r.heartbeatDeployOk)],
          ToStore(cfg, AfterRecovery(s, r, rec), r, rec))
  }

  function ToPing(cfg: Config, s: Shared, r: RowInput): Progress {
    var rec, s := RecordOf(s, r.row), WithRecordOf(s, r.row);
    if Pings(cfg, r.row) then Progress(s, Some(AwaitPing(rec)), [])
    else ToAuto(cfg, if cfg.heartbeatEnabled then s.(records := s.records - {r.row.sid}) else s, r)
  }

  function FromExit(cfg: Config, s: Shared, r: RowInput): Progress {
    var sid := r.row.sid;
    var life := Settled(s.lifecycle, r);
    After([ExitAnswered(sid, r.exitDeployOk)], ToPing(cfg, s.(lifecycle := life), r))
  }

  function FromStart(cfg: Config, s: Shared, r: RowInput): Progress {
    if ExitRedeployDue(cfg, s.lifecycle, r.row) then
      Progress(s.(lifecycle := ClearFlag(s.lifecycle, r.row.sid)), Some(AwaitExit), [ExitBegan(r.row.sid)])
    else ToPing(cfg, s, r)
  }

  function Continue(cfg: Config, s: Shared, call: Call): Progress {
    match call.stage
    case AwaitExit => FromExit(cfg, s, call.input)
    case AwaitPing(rec) => FromPing(cfg, s, call.input, rec)
    case AwaitHeartbeat(rec) => FromHeartbeat(cfg, s, call.input, rec)
    case AwaitAuto => FromAuto(s, call.input)
  }

  // ---------------------------------------------------------------- interleavings

  /** A tick enters a row, goes on with the one it is in, or drops what its listing no longer has. */
  datatype Move = Enter(tick: nat, input: RowInput) | Resume(tick: nat, reply: RowInput) | Clean(ids: set<string>)

  /**
   The suspended row with what it learns on resuming: it stays in its row, and what it read before the
   await it keeps.
   */
  function Replied(call: Call, reply: RowInput): Call {
    var input := reply.(row := call.input.row);
    match call.stage
    case AwaitExit => call.(input := input)
    case AwaitPing(_) => call.(input := input)
    case AwaitHeartbeat(_) =>
      call.(input := input.(pingOk := call.input.pingOk, heartbeatNow := call.input.heartbeatNow))
    case AwaitAuto => call.(input := input.(autoNow := call.input.autoNow))
  }

  predicate Possible(w: Ticking, move: Move) {
    match move
    case Enter(tick, _) => tick !in w.calls
    case Resume(tick, _) => tick in w.calls
    case Clean(_) => true
  }

  function Moved(w: Ticking, tick: nat, r: RowInput, p: Progress): Ticking {
    var calls := if p.stage.Some? then w.calls[tick := Call(r, p.stage.value)] else w.calls - {tick};
    Ticking(p.shared, calls, w.log + p.log)
  }

  function Cleaned(s: Shared, ids: set<string>): Shared {
    s.(prev := Restrict(s.prev, ids), records := Restrict(s.records, ids),
       heartbeatLastRecoverAt := Restrict(s.heartbeatLastRecoverAt, ids))
  }

  function Perform(cfg: Config, w: Ticking, move: Move): Ticking
    requires Possible(w, move)
  {
    match move
    case Enter(tick, r) => Moved(w, tick, r, FromStart(cfg, w.shared, r))
    case Resume(tick, reply) =>
      var call := Replied(w.calls[tick], reply);
      Moved(w, tick, call.input, Continue(cfg, w.shared, call))
    case Clean(ids) => w.(shared := Cleaned(w.shared, ids))
  }

  /** The world after the moves, or none if one of them was not possible. */
  function Overlapped(cfg: Config, start: Ticking, moves: seq<Move>): Option<Ticking> {
    if moves == [] then Some(start)
    else
      var before := Overlapped(cfg, start, moves[..|moves| - 1]);
      if before.Some? && Possible(before.value, moves[|moves| - 1])
      then Some(Perform(cfg, before.value, moves[|moves| - 1])) else None
  }

  lemma OneMoreMove(cfg: Config, start: Ticking, moves: seq<Move>, w: Ticking, move: Move)
    requires Overlapped(cfg, start, moves) == Some(w) && Possible(w, move)
    ensures Overlapped(cfg, start, moves + [move]) == Some(Perform(cfg, w, move))
  {
    assert (moves + [move])[..|moves|] == moves;
  }

  lemma {:induction false} LogGrows(cfg: Config, start: Ticking, moves: seq<Move>, w: Ticking)
    requires Overlapped(cfg, start, moves) == Some(w)
    ensures start.log <= w.log
  {
    if moves != [] {
      var front := moves[..|moves| - 1];
      LogGrows(cfg, start, front, Overlapped(cfg, start, front).value);
    }
  }

  /** A run goes on from where an earlier part of it ended. */
  lemma {:induction false} RunsCompose(cfg: Config, start: Ticking, first: seq<Move>, middle: Ticking,
                                       second: seq<Move>)
    requires Overlapped(cfg, start, first) == Some(middle)
    ensures Overlapped(cfg, start, first + second) == Overlapped(cfg, middle, second)
  {
    if second == [] {
      assert first + second == first;
    } else {
      var front, last := second[..|second| - 1], second[|second| - 1];
      var all := first + second;
      assert all[..|all| - 1] == first + front && all[|all| - 1] == last;
      RunsCompose(cfg, start, first, middle, front);
    }
  }

  lemma SkipInConcat<T>(a: seq<T>, b: seq<T>, skip: nat)
    requires skip <= |a|
    ensures (a + b)[skip..] == a[skip..] + b
  {
  }

  /** The world without the first `skip` events of its log. */
  function Skipping(w: Ticking, skip: nat): Ticking
    requires skip <= |w.log|
  {
    w.(log := w.log[skip..])
  }

  lemma MovedIgnoresLog(w: Ticking, tick: nat, r: RowInput, p: Progress, skip: nat)
    requires skip <= |w.log|
    ensures Moved(Skipping(w, skip), tick, r, p) == Skipping(Moved(w, tick, r, p), skip)
  {
    SkipInConcat(w.log, p.log, skip);
  }

  lemma MoveIgnoresLog(cfg: Config, w: Ticking, move: Move, skip: nat)
    requires Possible(w, move) && skip <= |w.log|
    ensures skip <= |Perform(cfg, w, move).log|
    ensures Perform(cfg, Skipping(w, skip), move) == Skipping(Perform(cfg, w, move), skip)
  {
    match move
    case Enter(tick, r) => MovedIgnoresLog(w, tick, r, FromStart(cfg, w.shared, r), skip);
    case Resume(tick, reply) =>
      var call := Replied(w.calls[tick], reply);
      MovedIgnoresLog(w, tick, call.input, Continue(cfg, w.shared, call), skip);
    case Clean(_) =>
  }

  /** No move reads the log, so any part of a run is a run that starts with an empty log. */
  lemma {:induction false} LogStartsAnew(cfg: Config, start: Ticking, moves: seq<Move>, w: Ticking)
    requires Overlapped(cfg, start, moves) == Some(w)
    ensures start.log <= w.log
    ensures Overlapped(cfg, start.(log := []), moves) == Some(w.(log := w.log[|start.log|..]))
  {
    LogGrows(cfg, start, moves, w);
    if moves == [] {
      assert w.log[|start.log|..] == [];
    } else {
      var front := moves[..|moves| - 1];
      var before := Overlapped(cfg, start, front).value;
      LogStartsAnew(cfg, start, front, before);
      MoveIgnoresLog(cfg, before, moves[|moves| - 1], |start.log|);
    }
  }

  // ---------------------------------------------------------------- rows nobody interrupts

  /** What the watchdog's maps hold, the record objects looked up. */
  function View(s: Shared): WatchdogState {
    WatchdogState(s.prev, s.recoverCooldown, map sid | sid in s.records :: Object(s, sid, s.records[sid]),
                  s.heartbeatLastRecoverAt, s.lifecycle)
  }

  ghost predicate Sound(s: Shared) {
    forall sid :: sid in s.records ==> s.records[sid] < |Objects(s, sid)|
  }

  function Rank(stage: Option<Stage>): nat {
    match stage
    case None => 0
    case Some(AwaitAuto) => 1
    case Some(AwaitHeartbeat(_)) => 2
    case Some(AwaitPing(_)) => 3
    case Some(AwaitExit) => 4
  }

  /** The shared state when the row has run to its end from `stage` without interruption. */
  function FinishedFrom(cfg: Config, s: Shared, stage: Option<Stage>, r: RowInput): Shared
    decreases Rank(stage)
  {
    if stage.None? then s
    else
      var p := Continue(cfg, s, Call(r, stage.value));
      FinishedFrom(cfg, p.shared, p.stage, r)
  }

  function Finished(cfg: Config, p: Progress, r: RowInput): Shared { FinishedFrom(cfg, p.shared, p.stage, r) }

  lemma AutoFinishes(cfg: Config, s: Shared, r: RowInput)
    ensures Finished(cfg, ToAuto(cfg, s, r), r)
            == Remembered(s.(recoverCooldown := AutoPhase(cfg, s.recoverCooldown, r)), r.row)
  {
  }

  /** The shared state once an uninterrupted row has handled its ping. */
  function PingShared(cfg: Config, s: Shared, r: RowInput, rec: nat): Shared {
    var sid, record := r.row.sid, Object(s, r.row.sid, rec);
    var recovers := !r.pingOk && HeartbeatDeployDue(cfg, record, s.heartbeatLastRecoverAt, r);
    WithObject(s, sid, rec, RecordAfterPing(cfg, record, s.heartbeatLastRecoverAt, r))
    .(records := s.records[sid := rec],
      heartbeatLastRecoverAt :=
        if recovers && r.heartbeatDeployOk
        then s.heartbeatLastRecoverAt[sid := r.heartbeatDone] else s.heartbeatLastRecoverAt,
      lifecycle := Heard(cfg, s.lifecycle, r))
  }

  lemma StoreFinishes(cfg: Config, s: Shared, r: RowInput, rec: nat)
    ensures var stored := s.(lifecycle := Heard(cfg, s.lifecycle, r), records := s.records[r.row.sid := rec]);
            Finished(cfg, ToStore(cfg, s, r, rec), r) == Finished(cfg, ToAuto(cfg, stored, r), r)
  {
  }

  /** Counting the miss and, once the redeploy is accepted, the recovery is one change of the record. */
  lemma RecoveryIsOneChange(cfg: Config, s: Shared, r: RowInput, rec: nat)
    requires rec < |Objects(s, r.row.sid)| && !r.pingOk
    requires HeartbeatDeployDue(cfg, Object(s, r.row.sid, rec), s.heartbeatLastRecoverAt, r)
    ensures var sid, record := r.row.sid, Object(s, r.row.sid, rec);
            var counted := WithObject(s, sid, rec, record.(consecutiveMisses := record.consecutiveMisses + 1));
            AfterRecovery(counted, r, rec).(lifecycle := Heard(cfg, s.lifecycle, r), records := s.records[sid := rec])
            == PingShared(cfg, s, r, rec)
  {
    var sid, objects, record := r.row.sid, Objects(s, r.row.sid), Object(s, r.row.sid, rec);
    var missed := record.(consecutiveMisses := record.consecutiveMisses + 1);
    var counted := WithObject(s, sid, rec, missed);
    assert Object(counted, sid, rec) == missed;
    assert objects[rec := missed][rec := Recovered(missed)] == objects[rec := Recovered(missed)];
  }

  lemma PingFinishes(cfg: Config, s: Shared, r: RowInput, rec: nat)
    requires rec < |Objects(s, r.row.sid)|
    ensures Finished(cfg, FromPing(cfg, s, r, rec), r) == Finished(cfg, ToAuto(cfg, PingShared(cfg, s, r, rec), r), r)
  {
    var sid, record := r.row.sid, Object(s, r.row.sid, rec);
    if r.pingOk {
      StoreFinishes(cfg, WithObject(s, sid, rec, Reached(record)), r, rec);
    } else if HeartbeatDeployDue(cfg, record, s.heartbeatLastRecoverAt, r) {
      var counted := WithObject(s, sid, rec, record.(consecutiveMisses := record.consecutiveMisses + 1));
      RecoveryIsOneChange(cfg, s, r, rec);
      StoreFinishes(cfg, AfterRecovery(counted, r, rec), r, rec);
    } else {
      StoreFinishes(cfg, WithObject(s, sid, rec, RecordAfterMiss(cfg, record, s.heartbeatLastRecoverAt, r)), r, rec);
    }
  }

  /** Working on a record object and putting it into the map shows as one map update. */
  lemma StoredView(s: Shared, sid: string, rec: nat, value: HeartbeatRecord)
    requires Sound(s) && rec < |Objects(s, sid)|
    ensures var s' := WithObject(s, sid, rec, value).(records := s.records[sid := rec]);
            Sound(s') && View(s') == View(s).(heartbeatRecords := View(s).heartbeatRecords[sid := value])
  {
    var s' := WithObject(s, sid, rec, value).(records := s.records[sid := rec]);
    assert Objects(s', sid) == Objects(s, sid)[rec := value];
    assert View(s').heartbeatRecords == View(s).heartbeatRecords[sid := value];
  }

  /** The record in the map is taken, and its status updated in place. */
  lemma SharedRecordView(s: Shared, row: Row)
    requires Sound(s) && HasRecordFor(s, row)
    ensures var s', sid := WithRecordOf(s, row), row.sid;
            var value := Object(s, sid, s.records[sid]).(status := row.status);
            Sound(s') && Object(s', sid, s.records[sid]) == value
            && View(s') == View(s).(heartbeatRecords := View(s).heartbeatRecords[sid := value])
  {
    var sid, rec := row.sid, s.records[row.sid];
    assert s.records == s.records[sid := rec];
    StoredView(s, sid, rec, Object(s, sid, rec).(status := row.status));
  }

  /** A new record is made, which the map does not hold yet. */
  lemma NewRecordView(s: Shared, row: Row)
    requires Sound(s) && !HasRecordFor(s, row)
    ensures var s', sid := WithRecordOf(s, row), row.sid;
            Sound(s') && RecordOf(s, row) < |Objects(s', sid)|
            && Object(s', sid, RecordOf(s, row)) == HeartbeatRecord(row.depId, row.status, 0, 0, false, false)
            && View(s') == View(s)
  {
    var s', sid := WithRecordOf(s, row), row.sid;
    assert Objects(s', sid) == Objects(s, sid) + [HeartbeatRecord(row.depId, row.status, 0, 0, false, false)];
    assert View(s').heartbeatRecords == View(s).heartbeatRecords;
  }

  /** Taking the record shows as what `CurrentRecord` says, in the map only if it was there already. */
  lemma TakenView(s: Shared, row: Row)
    requires Sound(s)
    ensures var s', rec, sid := WithRecordOf(s, row), RecordOf(s, row), row.sid;
            var records := View(s).heartbeatRecords;
            Sound(s') && rec < |Objects(s', sid)| && Object(s', sid, rec) == CurrentRecord(records, row)
            && View(s') == View(s).(heartbeatRecords :=
                 if sid in records && records[sid].deploymentId == row.depId
                 then records[sid := CurrentRecord(records, row)] else records)
  {
    if HasRecordFor(s, row) {
      SharedRecordView(s, row);
    } else {
      NewRecordView(s, row);
    }
  }

  /** The state after a row's last phase and its bookkeeping. */
  function RowEnd(cfg: Config, st: WatchdogState, r: RowInput): WatchdogState {
    st.(recoverCooldown := AutoPhase(cfg, st.recoverCooldown, r),
        prev := st.prev[r.row.sid := PrevEntry(r.row.status, r.row.depId, r.row.online)])
  }

  lemma AutoFinishesView(cfg: Config, s: Shared, r: RowInput)
    requires Sound(s)
    ensures var end := Finished(cfg, ToAuto(cfg, s, r), r); Sound(end) && View(end) == RowEnd(cfg, View(s), r)
  {
    AutoFinishes(cfg, s, r);
    assert View(Finished(cfg, ToAuto(cfg, s, r), r)).heartbeatRecords == View(s).heartbeatRecords;
  }

  lemma DroppedView(s: Shared, sid: string)
    requires Sound(s)
    ensures var s' := s.(records := s.records - {sid});
            Sound(s') && View(s').heartbeatRecords == View(s).heartbeatRecords - {sid}
  {
  }

  lemma LastWriteCounts<K, V>(m: map<K, V>, k: K, earlier: V, later: V)
    ensures m[k := earlier][k := later] == m[k := later] && m[k := earlier] - {k} == m - {k}
  {
  }

  lemma StoredElsewhere(s: Shared, s': Shared)
    requires Sound(s) && s'.objects == s.objects && s'.records == s.records
    ensures Sound(s') && View(s').heartbeatRecords == View(s).heartbeatRecords
  {
  }

  lemma PingSharedView(cfg: Config, s: Shared, r: RowInput)
    requires Sound(s) && Pings(cfg, r.row)
    ensures var end := PingShared(cfg, WithRecordOf(s, r.row), r, RecordOf(s, r.row));
            Sound(end) && View(end) == HeartbeatPhase(cfg, View(s), r)
  {
    var s1, rec, sid := WithRecordOf(s, r.row), RecordOf(s, r.row), r.row.sid;
    TakenView(s, r.row);
    var record := CurrentRecord(View(s).heartbeatRecords, r.row);
    var value := RecordAfterPing(cfg, record, s.heartbeatLastRecoverAt, r);
    StoredView(s1, sid, rec, value);
    StoredElsewhere(WithObject(s1, sid, rec, value).(records := s1.records[sid := rec]), PingShared(cfg, s1, r, rec));
    LastWriteCounts(View(s).heartbeatRecords, sid, record, value);
  }

  lemma PingFinishesView(cfg: Config, s: Shared, r: RowInput)
    requires Sound(s) && Pings(cfg, r.row)
    ensures var s1 := WithRecordOf(s, r.row);
            var end := Finished(cfg, FromPing(cfg, s1, r, RecordOf(s, r.row)), r);
            Sound(end) && View(end) == RowEnd(cfg, HeartbeatPhase(cfg, View(s), r), r)
  {
    var s1, rec := WithRecordOf(s, r.row), RecordOf(s, r.row);
    TakenView(s, r.row);
    PingFinishes(cfg, s1, r, rec);
    PingSharedView(cfg, s, r);
    AutoFinishesView(cfg, PingShared(cfg, s1, r, rec), r);
  }

  /** What a row that is not probed leaves of its record. */
  function UnprobedShared(cfg: Config, s: Shared, row: Row): Shared {
    var s := WithRecordOf(s, row);
    if cfg.heartbeatEnabled then s.(records := s.records - {row.sid}) else s
  }

  lemma UnprobedView(cfg: Config, s: Shared, r: RowInput)
    requires Sound(s) && !Pings(cfg, r.row)
    ensures var end := UnprobedShared(cfg, s, r.row); Sound(end) && View(end) == HeartbeatPhase(cfg, View(s), r)
  {
    TakenView(s, r.row);
    var records, taken := View(s).heartbeatRecords, View(WithRecordOf(s, r.row)).heartbeatRecords;
    if cfg.heartbeatEnabled {
      DroppedView(WithRecordOf(s, r.row), r.row.sid);
      LastWriteCounts(records, r.row.sid, CurrentRecord(records, r.row), NO_RECORD);
      assert taken - {r.row.sid} == records - {r.row.sid};
    }
  }

  lemma HeartbeatFinishesView(cfg: Config, s: Shared, r: RowInput)
    requires Sound(s)
    ensures var end := Finished(cfg, ToPing(cfg, s, r), r);
            Sound(end) && View(end) == RowEnd(cfg, HeartbeatPhase(cfg, View(s), r), r)
  {
    if Pings(cfg, r.row) {
      PingFinishesView(cfg, s, r);
    } else {
      UnprobedView(cfg, s, r);
      AutoFinishesView(cfg, UnprobedShared(cfg, s, r.row), r);
    }
  }

  // -- what such a row logs

  /** An event as a tick that is never interrupted logs it: calls are one effect, once answered. */
  function EffectOf(e: Event): seq<Effect> {
    match e
    case ExitAnswered(sid, ok) => [ExitDeploy(sid, ok)]
    case Probed(sid, online, ok) => [Pinged(sid, online, ok)]
    case HeartbeatAnswered(sid, dep, start, done, ok) => [HeartbeatDeploy(sid, dep, start, done, ok)]
    case SawHealthy(sid) => [SeenHealthy(sid)]
    case AutoAnswered(sid, start, done, ok) => [AutoDeploy(sid, start, done, ok)]
    case ExitBegan(_) | HeartbeatBegan(_, _) | AutoBegan(_, _) => []
  }

  function Effects(log: seq<Event>): seq<Effect> {
    if log == [] then [] else Effects(log[..|log| - 1]) + EffectOf(log[|log| - 1])
  }

  lemma {:induction false} EffectsOfConcat(a: seq<Event>, b: seq<Event>)
    ensures Effects(a + b) == Effects(a) + Effects(b)
  {
    if b == [] {
      assert a + b == a;
    } else {
      var front, last := b[..|b| - 1], b[|b| - 1];
      assert (a + b)[..|a + b| - 1] == a + front && (a + b)[|a + b| - 1] == last;
      EffectsOfConcat(a, front);
      assert Effects(a) + Effects(front) + EffectOf(last) == Effects(a) + (Effects(front) + EffectOf(last));
    }
  }

  lemma EffectsOfOne(e: Event)
    ensures Effects([e]) == EffectOf(e)
  {
    assert [e][..0] == [];
  }

  lemma EffectsFirst(e: Event, log: seq<Event>, rest: seq<Event>)
    ensures Effects([e] + log + rest) == EffectOf(e) + Effects(log + rest)
    ensures Effects([e] + rest) == EffectOf(e) + Effects(rest)
  {
    assert [e] + log + rest == [e] + (log + rest);
    EffectsOfOne(e);
    EffectsOfConcat([e], log + rest);
    EffectsOfConcat([e], rest);
  }

  /** Everything the row logs from `stage` to its end. */
  function LoggedFrom(cfg: Config, s: Shared, stage: Option<Stage>, r: RowInput): seq<Event>
    decreases Rank(stage)
  {
    if stage.None? then []
    else
      var p := Continue(cfg, s, Call(r, stage.value));
      p.log + LoggedFrom(cfg, p.shared, p.stage, r)
  }

  function Logged(cfg: Config, p: Progress, r: RowInput): seq<Event> {
    p.log + LoggedFrom(cfg, p.shared, p.stage, r)
  }

  lemma LoggedAfter(cfg: Config, e: Event, p: Progress, r: RowInput)
    ensures Effects(Logged(cfg, After([e], p), r)) == EffectOf(e) + Effects(Logged(cfg, p, r))
  {
    EffectsFirst(e, p.log, LoggedFrom(cfg, p.shared, p.stage, r));
  }

  lemma Suspended(cfg: Config, s: Shared, stage: Stage, r: RowInput)
    ensures LoggedFrom(cfg, s, Some(stage), r) == Logged(cfg, Continue(cfg, s, Call(r, stage)), r)
    ensures FinishedFrom(cfg, s, Some(stage), r) == Finished(cfg, Continue(cfg, s, Call(r, stage)), r)
  {
  }

  // the same, stage by stage

  lemma AutoAwaited(cfg: Config, s: Shared, r: RowInput)
    ensures LoggedFrom(cfg, s, Some(AwaitAuto), r) == Logged(cfg, FromAuto(s, r), r)
  {
  }

  lemma HeartbeatAwaited(cfg: Config, s: Shared, r: RowInput, rec: nat)
    ensures LoggedFrom(cfg, s, Some(AwaitHeartbeat(rec)), r) == Logged(cfg, FromHeartbeat(cfg, s, r, rec), r)
  {
  }

  lemma PingAwaited(cfg: Config, s: Shared, r: RowInput, rec: nat)
    ensures LoggedFrom(cfg, s, Some(AwaitPing(rec)), r) == Logged(cfg, FromPing(cfg, s, r, rec), r)
  {
  }

  lemma ExitAwaited(cfg: Config, s: Shared, r: RowInput)
    ensures LoggedFrom(cfg, s, Some(AwaitExit), r) == Logged(cfg, FromExit(cfg, s, r), r)
  {
  }

  /** That a call began is no effect yet. */
  lemma BeganIsSilent(e: Event, rest: seq<Event>)
    requires EffectOf(e) == []
    ensures Effects([e] + rest) == Effects(rest)
  {
    EffectsFirst(e, [], rest);
  }

  lemma EndLogged(cfg: Config, s: Shared, log: seq<Event>, r: RowInput)
    ensures Logged(cfg, Progress(s, None, log), r) == log
  {
  }

  lemma AutoWaitLogged(cfg: Config, s: Shared, r: RowInput)
    ensures Effects(Logged(cfg, Progress(s, Some(AwaitAuto), [AutoBegan(r.row.sid, r.autoNow)]), r))
            == [AutoDeploy(r.row.sid, r.autoNow, r.autoDone, r.autoDeployOk)]
  {
    var end := FromAuto(s, r);
    AutoAwaited(cfg, s, r);
    BeganIsSilent(AutoBegan(r.row.sid, r.autoNow), Logged(cfg, end, r));
    EndLogged(cfg, end.shared, end.log, r);
    EffectsOfOne(AutoAnswered(r.row.sid, r.autoNow, r.autoDone, r.autoDeployOk));
  }

  lemma AutoLogged(cfg: Config, s: Shared, r: RowInput)
    ensures Effects(Logged(cfg, ToAuto(cfg, s, r), r)) == AutoLog(cfg, s.recoverCooldown, r)
  {
    var p := ToAuto(cfg, s, r);
    if p.stage.Some? {
      AutoWaitLogged(cfg, s, r);
    } else {
      EndLogged(cfg, p.shared, p.log, r);
      EffectsOfOne(SawHealthy(r.row.sid));
    }
  }

  lemma StoreLogged(cfg: Config, s: Shared, r: RowInput, rec: nat)
    ensures Effects(Logged(cfg, ToStore(cfg, s, r, rec), r))
            == [Pinged(r.row.sid, r.row.online, r.pingOk)] + AutoLog(cfg, s.recoverCooldown, r)
  {
    var stored := s.(lifecycle := Heard(cfg, s.lifecycle, r), records := s.records[r.row.sid := rec]);
    LoggedAfter(cfg, Probed(r.row.sid, r.row.online, r.pingOk), ToAuto(cfg, stored, r), r);
    AutoLogged(cfg, stored, r);
  }

  lemma RecoveryLogged(cfg: Config, s: Shared, r: RowInput, rec: nat)
    ensures Effects(Logged(cfg, FromHeartbeat(cfg, s, r, rec), r))
            == [HeartbeatDeploy(r.row.sid, r.row.depId, r.heartbeatNow, r.heartbeatDone, r.heartbeatDeployOk)]
               + ([Pinged(r.row.sid, r.row.online, r.pingOk)] + AutoLog(cfg, s.recoverCooldown, r))
  {
    var answered := HeartbeatAnswered(r.row.sid, r.row.depId, r.heartbeatNow, r.heartbeatDone, r.heartbeatDeployOk);
    LoggedAfter(cfg, answered, ToStore(cfg, AfterRecovery(s, r, rec), r, rec), r);
    StoreLogged(cfg, AfterRecovery(s, r, rec), r, rec);
  }

  /** The row waits for the answer to its redeploy. */
  lemma WaitLogged(cfg: Config, p: Progress, r: RowInput, rec: nat)
    requires p.stage == Some(AwaitHeartbeat(rec)) && p.log == [HeartbeatBegan(r.row.sid, r.heartbeatNow)]
    ensures Effects(Logged(cfg, p, r))
            == [HeartbeatDeploy(r.row.sid, r.row.depId, r.heartbeatNow, r.heartbeatDone, r.heartbeatDeployOk)]
               + ([Pinged(r.row.sid, r.row.online, r.pingOk)] + AutoLog(cfg, p.shared.recoverCooldown, r))
  {
    HeartbeatAwaited(cfg, p.shared, r, rec);
    BeganIsSilent(HeartbeatBegan(r.row.sid, r.heartbeatNow), Logged(cfg, FromHeartbeat(cfg, p.shared, r, rec), r));
    RecoveryLogged(cfg, p.shared, r, rec);
  }

  lemma DuePingStops(cfg: Config, s: Shared, r: RowInput, rec: nat)
    requires !r.pingOk && HeartbeatDeployDue(cfg, Object(s, r.row.sid, rec), s.heartbeatLastRecoverAt, r)
    ensures var p := FromPing(cfg, s, r, rec);
            p.stage == Some(AwaitHeartbeat(rec)) && p.log == [HeartbeatBegan(r.row.sid, r.heartbeatNow)]
            && p.shared.recoverCooldown == s.recoverCooldown
  {
  }

  lemma OtherPingLogged(cfg: Config, s: Shared, r: RowInput, rec: nat)
    requires r.pingOk || !HeartbeatDeployDue(cfg, Object(s, r.row.sid, rec), s.heartbeatLastRecoverAt, r)
    ensures Effects(Logged(cfg, FromPing(cfg, s, r, rec), r))
            == [Pinged(r.row.sid, r.row.online, r.pingOk)] + AutoLog(cfg, s.recoverCooldown, r)
  {
    var sid, record := r.row.sid, Object(s, r.row.sid, rec);
    if r.pingOk {
      StoreLogged(cfg, WithObject(s, sid, rec, Reached(record)), r, rec);
    } else {
      StoreLogged(cfg, WithObject(s, sid, rec, RecordAfterMiss(cfg, record, s.heartbeatLastRecoverAt, r)), r, rec);
    }
  }

  lemma DuePingLogged(cfg: Config, s: Shared, r: RowInput, rec: nat)
    requires !r.pingOk && HeartbeatDeployDue(cfg, Object(s, r.row.sid, rec), s.heartbeatLastRecoverAt, r)
    ensures Effects(Logged(cfg, FromPing(cfg, s, r, rec), r))
            == [HeartbeatDeploy(r.row.sid, r.row.depId, r.heartbeatNow, r.heartbeatDone, r.heartbeatDeployOk)]
               + ([Pinged(r.row.sid, r.row.online, r.pingOk)] + AutoLog(cfg, s.recoverCooldown, r))
  {
    DuePingStops(cfg, s, r, rec);
    WaitLogged(cfg, FromPing(cfg, s, r, rec), r, rec);
  }

  lemma ProbeLogged(cfg: Config, s: Shared, r: RowInput)
    requires Pings(cfg, r.row)
    ensures Logged(cfg, ToPing(cfg, s, r), r)
            == Logged(cfg, FromPing(cfg, WithRecordOf(s, r.row), r, RecordOf(s, r.row)), r)
  {
    PingAwaited(cfg, WithRecordOf(s, r.row), r, RecordOf(s, r.row));
  }

  lemma HeartbeatLogStarts(cfg: Config, st: WatchdogState, r: RowInput, rest: seq<Effect>)
    requires Pings(cfg, r.row)
    ensures HeartbeatLog(cfg, st, r) + rest
            == (if RecoversNow(cfg, st, r)
                then [HeartbeatDeploy(r.row.sid, r.row.depId, r.heartbeatNow, r.heartbeatDone, r.heartbeatDeployOk)]
                else [])
               + ([Pinged(r.row.sid, r.row.online, r.pingOk)] + rest)
  {
  }

  lemma HeartbeatLogged(cfg: Config, s: Shared, r: RowInput)
    requires Sound(s)
    ensures Effects(Logged(cfg, ToPing(cfg, s, r), r))
            == HeartbeatLog(cfg, View(s), r) + AutoLog(cfg, s.recoverCooldown, r)
  {
    if !Pings(cfg, r.row) {
      AutoLogged(cfg, UnprobedShared(cfg, s, r.row), r);
    } else {
      var s1, rec := WithRecordOf(s, r.row), RecordOf(s, r.row);
      TakenView(s, r.row);
      ProbeLogged(cfg, s, r);
      HeartbeatLogStarts(cfg, View(s), r, AutoLog(cfg, s.recoverCooldown, r));
      if RecoversNow(cfg, View(s), r) {
        DuePingLogged(cfg, s1, r, rec);
      } else {
        OtherPingLogged(cfg, s1, r, rec);
      }
    }
  }

  /** The row waits for the answer to its exit redeploy. */
  lemma ExitWaitLogged(cfg: Config, s: Shared, r: RowInput, log: seq<Event>)
    requires log == Logged(cfg, ToPing(cfg, s.(lifecycle := Settled(s.lifecycle, r)), r), r)
    ensures Effects(Logged(cfg, Progress(s, Some(AwaitExit), [ExitBegan(r.row.sid)]), r))
            == [ExitDeploy(r.row.sid, r.exitDeployOk)] + Effects(log)
  {
    ExitAwaited(cfg, s, r);
    BeganIsSilent(ExitBegan(r.row.sid), Logged(cfg, FromExit(cfg, s, r), r));
    LoggedAfter(cfg, ExitAnswered(r.row.sid, r.exitDeployOk),
                ToPing(cfg, s.(lifecycle := Settled(s.lifecycle, r)), r), r);
  }

  lemma ExitLogged(cfg: Config, s: Shared, r: RowInput, log: seq<Event>)
    requires log == Logged(cfg, ToPing(cfg, s.(lifecycle := ExitPhase(cfg, s.lifecycle, r)), r), r)
    ensures Effects(Logged(cfg, FromStart(cfg, s, r), r)) == ExitLog(cfg, s.lifecycle, r) + Effects(log)
  {
    if ExitRedeployDue(cfg, s.lifecycle, r.row) {
      ExitWaitLogged(cfg, s.(lifecycle := ClearFlag(s.lifecycle, r.row.sid)), r, log);
    }
  }

  lemma RowLogStarts(cfg: Config, st: WatchdogState, r: RowInput)
    ensures RowStep(cfg, st, r).log
            == ExitLog(cfg, st.lifecycle, r)
               + (HeartbeatLog(cfg, st.(lifecycle := ExitPhase(cfg, st.lifecycle, r)), r)
                  + AutoLog(cfg, st.recoverCooldown, r))
  {
  }

  lemma RowLogged(cfg: Config, s: Shared, r: RowInput)
    requires Sound(s)
    ensures Effects(Logged(cfg, FromStart(cfg, s, r), r)) == RowStep(cfg, View(s), r).log
  {
    var s1 := s.(lifecycle := ExitPhase(cfg, s.lifecycle, r));
    assert View(s1) == View(s).(lifecycle := ExitPhase(cfg, s.lifecycle, r));
    ExitLogged(cfg, s, r, Logged(cfg, ToPing(cfg, s1, r), r));
    HeartbeatLogged(cfg, s1, r);
    RowLogStarts(cfg, View(s), r);
  }

  /** A row that nobody interrupts reaches the state `RowStep` says. */
  lemma RowReaches(cfg: Config, s: Shared, r: RowInput)
    requires Sound(s)
    ensures var end := Finished(cfg, FromStart(cfg, s, r), r);
            Sound(end) && View(end) == RowStep(cfg, View(s), r).state
  {
    var s1 := s.(lifecycle := ExitPhase(cfg, s.lifecycle, r));
    assert View(s1) == View(s).(lifecycle := ExitPhase(cfg, s.lifecycle, r));
    HeartbeatFinishesView(cfg, s1, r);
  }

  /** A row that nobody interrupts does what `RowStep` says, to the state and to the outside world. */
  lemma RowFinishesView(cfg: Config, s: Shared, r: RowInput)
    requires Sound(s)
    ensures var end := Finished(cfg, FromStart(cfg, s, r), r);
            Sound(end) && View(end) == RowStep(cfg, View(s), r).state
    ensures Effects(Logged(cfg, FromStart(cfg, s, r), r)) == RowStep(cfg, View(s), r).log
  {
    RowLogged(cfg, s, r);
    RowReaches(cfg, s, r);
  }

  // ---------------------------------------------------------------- ticks that do not overlap

  /** A row is entered only while no tick is inside one: ticks run one after the other. */
  predicate Sequential(cfg: Config, moves: seq<Move>) {
    moves == []
    || (var front, last := moves[..|moves| - 1], moves[|moves| - 1];
        var before := Overlapped(cfg, IDLE, front);
        Sequential(cfg, front) && (before.Some? && last.Enter? ==> before.value.calls == map[]))
  }

  lemma SequentialMove(cfg: Config, moves: seq<Move>, w: Ticking, move: Move)
    requires Sequential(cfg, moves) && Overlapped(cfg, IDLE, moves) == Some(w) && (move.Enter? ==> w.calls == map[])
    ensures Sequential(cfg, moves + [move])
  {
    assert (moves + [move])[..|moves|] == moves;
  }

  lemma ContinueRank(cfg: Config, s: Shared, call: Call)
    ensures Rank(Continue(cfg, s, call).stage) < Rank(Some(call.stage))
  {
  }

  /** One piece of the suspended row; `p` is where it gets. */
  lemma ResumeOnce(cfg: Config, moves: seq<Move>, w: Ticking, tick: nat)
    returns (longer: seq<Move>, w': Ticking, p: Progress)
    requires Overlapped(cfg, IDLE, moves) == Some(w) && Sequential(cfg, moves) && tick in w.calls
    ensures Overlapped(cfg, IDLE, longer) == Some(w') && Sequential(cfg, longer)
    ensures w' == Moved(w, tick, w.calls[tick].input, p) && Rank(p.stage) < Rank(Some(w.calls[tick].stage))
    ensures var r, stage := w.calls[tick].input, Some(w.calls[tick].stage);
            FinishedFrom(cfg, w.shared, stage, r) == FinishedFrom(cfg, p.shared, p.stage, r)
            && LoggedFrom(cfg, w.shared, stage, r) == p.log + LoggedFrom(cfg, p.shared, p.stage, r)
  {
    var call := w.calls[tick];
    var move := Resume(tick, call.input);
    p := Continue(cfg, w.shared, call);
    assert Replied(call, call.input) == call;
    ContinueRank(cfg, w.shared, call);
    OneMoreMove(cfg, IDLE, moves, w, move);
    SequentialMove(cfg, moves, w, move);
    Suspended(cfg, w.shared, call.stage, call.input);
    longer, w' := moves + [move], Moved(w, tick, call.input, p);
  }

  lemma NothingLeft(cfg: Config, s: Shared, r: RowInput)
    ensures FinishedFrom(cfg, s, None, r) == s && LoggedFrom(cfg, s, None, r) == []
  {
  }

  /** Resuming a suspended row until it ends. */
  lemma ResumeToEnd(cfg: Config, moves: seq<Move>, w: Ticking, tick: nat)
    returns (longer: seq<Move>, w': Ticking)
    requires Overlapped(cfg, IDLE, moves) == Some(w) && Sequential(cfg, moves) && tick in w.calls
    ensures Overlapped(cfg, IDLE, longer) == Some(w') && Sequential(cfg, longer) && w'.calls == w.calls - {tick}
    ensures w'.shared == FinishedFrom(cfg, w.shared, Some(w.calls[tick].stage), w.calls[tick].input)
    ensures w'.log == w.log + LoggedFrom(cfg, w.shared, Some(w.calls[tick].stage), w.calls[tick].input)
    decreases Rank(Some(w.calls[tick].stage)), 0
  {
    var r, p := w.calls[tick].input, Progress(w.shared, None, []);
    longer, w', p := ResumeOnce(cfg, moves, w, tick);
    longer, w' := EnteredRuns(cfg, longer, w, tick, r, p);
  }

  lemma CallGone(calls: map<nat, Call>, tick: nat, call: Call)
    ensures calls[tick := call] - {tick} == calls - {tick}
  {
  }

  lemma LogOfTwo(log: seq<Event>, first: seq<Event>, rest: seq<Event>)
    ensures log + first + rest == log + (first + rest) && log + first == log + (first + [])
  {
  }

  /** A tick whose row has got as far as `p` runs to the end of it. */
  lemma EnteredRuns(cfg: Config, moves: seq<Move>, w: Ticking, tick: nat, r: RowInput, p: Progress)
    returns (longer: seq<Move>, w': Ticking)
    requires Overlapped(cfg, IDLE, moves) == Some(Moved(w, tick, r, p)) && Sequential(cfg, moves)
    ensures Overlapped(cfg, IDLE, longer) == Some(w') && Sequential(cfg, longer)
    ensures w' == Ticking(FinishedFrom(cfg, p.shared, p.stage, r), w.calls - {tick},
                          w.log + (p.log + LoggedFrom(cfg, p.shared, p.stage, r)))
    decreases Rank(p.stage), 1
  {
    longer, w' := moves, Moved(w, tick, r, p);
    LogOfTwo(w.log, p.log, LoggedFrom(cfg, p.shared, p.stage, r));
    if p.stage.None? {
      NothingLeft(cfg, p.shared, r);
    } else {
      CallGone(w.calls, tick, Call(r, p.stage.value));
      longer, w' := ResumeToEnd(cfg, longer, w', tick);
    }
  }

  lemma RowRuns(cfg: Config, moves: seq<Move>, w: Ticking, tick: nat, r: RowInput)
    returns (longer: seq<Move>, w': Ticking)
    requires Overlapped(cfg, IDLE, moves) == Some(w) && Sequential(cfg, moves) && w.calls == map[] && Sound(w.shared)
    ensures Overlapped(cfg, IDLE, longer) == Some(w') && Sequential(cfg, longer)
    ensures w'.calls == map[] && Sound(w'.shared)
    ensures View(w'.shared) == RowStep(cfg, View(w.shared), r).state
    ensures Effects(w'.log) == Effects(w.log) + RowStep(cfg, View(w.shared), r).log
  {
    RowFinishesView(cfg, w.shared, r);
    var p := FromStart(cfg, w.shared, r);
    OneMoreMove(cfg, IDLE, moves, w, Enter(tick, r));
    SequentialMove(cfg, moves, w, Enter(tick, r));
    longer, w' := EnteredRuns(cfg, moves + [Enter(tick, r)], w, tick, r, p);
    EffectsOfConcat(w.log, Logged(cfg, p, r));
  }

  lemma CleanedView(s: Shared, ids: set<string>)
    requires Sound(s)
    ensures Sound(Cleaned(s, ids)) && View(Cleaned(s, ids)) == PruneStep(View(s), ids)
  {
    assert View(Cleaned(s, ids)).heartbeatRecords == PruneStep(View(s), ids).heartbeatRecords;
  }

  /**
   Ticks that run one after the other are one of the interleavings: every state they reach is reached
   with no row suspended and the same effects.
   */
  lemma {:induction false} TicksAreInterleavings(cfg: Config, steps: seq<TickStep>)
    returns (moves: seq<Move>, w: Ticking)
    ensures Overlapped(cfg, IDLE, moves) == Some(w) && Sequential(cfg, moves) && w.calls == map[] && Sound(w.shared)
    ensures View(w.shared) == Exec(cfg, EMPTY_STATE, steps).state
    ensures Effects(w.log) == Exec(cfg, EMPTY_STATE, steps).log
  {
    if steps == [] {
      moves, w := [], IDLE;
      assert View(EMPTY_SHARED).heartbeatRecords == map[];
    } else {
      var front, last := steps[..|steps| - 1], steps[|steps| - 1];
      moves, w := TicksAreInterleavings(cfg, front);
      match last
      case RowOf(r) => moves, w := RowRuns(cfg, moves, w, 0, r);
      case Prune(ids) =>
        CleanedView(w.shared, ids);
        OneMoreMove(cfg, IDLE, moves, w, Clean(ids));
        SequentialMove(cfg, moves, w, Clean(ids));
        moves, w := moves + [Clean(ids)], Perform(cfg, w, Clean(ids));
    }
  }
}
