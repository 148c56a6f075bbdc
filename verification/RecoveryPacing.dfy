/**
 How far apart heartbeat redeploys are, for every interleaving of overlapping ticks and any part of a
 run.  They are a cooldown apart exactly if none was accepted while another that would be accepted was
 still awaited.
 */
module RecoveryPacing {
  import opened Wrappers
  import opened Products
  import opened WatchdogTick
  import opened OverlappingTicks

  /** Accepted heartbeat redeploys of `sid`, in the order of their answers, as (start, done) times. */
  function Recoveries(log: seq<Event>, sid: string): seq<(int, int)> {
    if log == [] then [] else RecoveriesWith(Recoveries(log[..|log| - 1], sid), log[|log| - 1], sid)
  }

  function RecoveriesWith(times: seq<(int, int)>, e: Event, sid: string): seq<(int, int)> {
    if e.HeartbeatAnswered? && e.sid == sid && e.ok then times + [(e.start, e.done)] else times
  }

  lemma RecoveriesAppend(log: seq<Event>, e: Event, sid: string)
    ensures Recoveries(log + [e], sid) == RecoveriesWith(Recoveries(log, sid), e, sid)
  {
    assert (log + [e])[..|log|] == log;
  }

  predicate AboutHeartbeat(e: Event) { e.HeartbeatBegan? || e.HeartbeatAnswered? }

  lemma {:induction false} RecoveriesUnchanged(log: seq<Event>, more: seq<Event>, sid: string)
    requires forall e <- more :: !AboutHeartbeat(e)
    ensures Recoveries(log + more, sid) == Recoveries(log, sid)
  {
    if more == [] {
      assert log + more == log;
    } else {
      var front, last := more[..|more| - 1], more[|more| - 1];
      assert log + more == log + front + [last] && last in more && forall e <- front :: e in more;
      RecoveriesUnchanged(log, front, sid);
      RecoveriesAppend(log + front, last, sid);
    }
  }

  /** `start` is a cooldown after the end of the last of `times`; a zero cooldown promises nothing. */
  predicate CooledDown(times: seq<(int, int)>, start: int, gap: nat) {
    gap > 0 && times != [] ==> start - times[|times| - 1].1 >= gap
  }

  /** The recovery map has the end of the last recovery. */
  ghost predicate RecoveryKnown(log: seq<Event>, s: Shared, sid: string) {
    var times := Recoveries(log, sid);
    times != [] ==> sid in s.heartbeatLastRecoverAt && s.heartbeatLastRecoverAt[sid] == times[|times| - 1].1
  }

  /** A piece that has nothing to do with heartbeat redeploys. */
  ghost predicate Silent(p: Progress, s: Shared) {
    p.shared.heartbeatLastRecoverAt == s.heartbeatLastRecoverAt
    && (p.stage.Some? ==> !p.stage.value.AwaitHeartbeat?) && forall e <- p.log :: !AboutHeartbeat(e)
  }

  lemma ToAutoIsSilent(cfg: Config, s: Shared, r: RowInput)
    ensures Silent(ToAuto(cfg, s, r), s)
  {
  }

  lemma ToStoreIsSilent(cfg: Config, s: Shared, r: RowInput, rec: nat)
    ensures Silent(ToStore(cfg, s, r, rec), s)
  {
    var life := Heard(cfg, s.lifecycle, r);
    ToAutoIsSilent(cfg, s.(lifecycle := life, records := s.records[r.row.sid := rec]), r);
  }

  lemma ToPingIsSilent(cfg: Config, s: Shared, r: RowInput)
    ensures Silent(ToPing(cfg, s, r), s)
  {
    if !Pings(cfg, r.row) { ToAutoIsSilent(cfg, UnprobedShared(cfg, s, r.row), r); }
  }

  lemma FromStartIsSilent(cfg: Config, s: Shared, r: RowInput)
    ensures Silent(FromStart(cfg, s, r), s)
  {
    ToPingIsSilent(cfg, s, r);
  }

  lemma FromExitIsSilent(cfg: Config, s: Shared, r: RowInput)
    ensures Silent(FromExit(cfg, s, r), s)
  {
    var life := Settled(s.lifecycle, r);
    ToPingIsSilent(cfg, s.(lifecycle := life), r);
  }

  /** The failed ping of the suspended row begins a heartbeat redeploy. */
  predicate BeginsRecovery(cfg: Config, s: Shared, call: Call) {
    call.stage.AwaitPing? && !call.input.pingOk
    && HeartbeatDeployDue(cfg, Object(s, call.input.row.sid, call.stage.rec), s.heartbeatLastRecoverAt, call.input)
  }

  /** All other pieces but the answer to such a redeploy have nothing to do with it. */
  lemma ContinueIsSilent(cfg: Config, s: Shared, call: Call)
    requires !call.stage.AwaitHeartbeat? && !BeginsRecovery(cfg, s, call)
    ensures Silent(Continue(cfg, s, call), s)
  {
    var r := call.input;
    match call.stage
    case AwaitExit => FromExitIsSilent(cfg, s, r);
    case AwaitPing(rec) =>
      var record := Object(s, r.row.sid, rec);
      var record' := if r.pingOk then Reached(record)
                     else RecordAfterMiss(cfg, record, s.heartbeatLastRecoverAt, r);
      ToStoreIsSilent(cfg, WithObject(s, r.row.sid, rec, record'), r, rec);
    case AwaitAuto =>
  }

  predicate AwaitsRecovery(call: Call, sid: string) { call.stage.AwaitHeartbeat? && call.input.row.sid == sid }

  ghost predicate Spaced(times: seq<(int, int)>, gap: nat) {
    forall i :: 0 < i < |times| ==> times[i].0 - times[i - 1].1 >= gap
  }

  function Answer(r: RowInput): Event {
    HeartbeatAnswered(r.row.sid, r.row.depId, r.heartbeatNow, r.heartbeatDone, r.heartbeatDeployOk)
  }

  lemma AnswerMeans(cfg: Config, log: seq<Event>, s: Shared, r: RowInput, rec: nat, sid: string)
    ensures var p := FromHeartbeat(cfg, s, r, rec);
            Recoveries(log + p.log, sid) == RecoveriesWith(Recoveries(log, sid), Answer(r), sid)
            && p.shared.heartbeatLastRecoverAt
               == (if r.heartbeatDeployOk then s.heartbeatLastRecoverAt[r.row.sid := r.heartbeatDone]
                   else s.heartbeatLastRecoverAt)
            && (p.stage.Some? ==> !p.stage.value.AwaitHeartbeat?)
  {
    var s1 := AfterRecovery(s, r, rec);
    var rest := ToStore(cfg, s1, r, rec);
    ToStoreIsSilent(cfg, s1, r, rec);
    RecoveriesAppend(log, Answer(r), sid);
    RecoveriesUnchanged(log + [Answer(r)], rest.log, sid);
    assert log + ([Answer(r)] + rest.log) == log + [Answer(r)] + rest.log;
  }

  lemma AnswerIsKnown(w: Ticking, t: nat, r: RowInput, p: Progress, sid: string)
    requires RecoveryKnown(w.log, w.shared, sid)
    requires Recoveries(w.log + p.log, sid) == RecoveriesWith(Recoveries(w.log, sid), Answer(r), sid)
    requires p.shared.heartbeatLastRecoverAt
             == (if r.heartbeatDeployOk then w.shared.heartbeatLastRecoverAt[r.row.sid := r.heartbeatDone]
                 else w.shared.heartbeatLastRecoverAt)
    ensures var w' := Moved(w, t, r, p); RecoveryKnown(w'.log, w'.shared, sid)
  {
  }

  // ---------------------------------------------------------------- what one move does

  /** The accepted redeploy of `sid` whose answer the move brings. */
  predicate AcceptsRecovery(w: Ticking, move: Move, sid: string) {
    move.Resume? && move.tick in w.calls && AwaitsRecovery(w.calls[move.tick], sid) && move.reply.heartbeatDeployOk
  }

  /** The recoveries after a move. */
  function RecoveriesAfter(w: Ticking, move: Move, sid: string): seq<(int, int)> {
    var times := Recoveries(w.log, sid);
    if AcceptsRecovery(w, move, sid)
    then times + [(w.calls[move.tick].input.heartbeatNow, move.reply.heartbeatDone)] else times
  }

  /** A row awaits a redeploy after the move: it did before, or it is this row and its redeploy just began. */
  predicate StillAwaits(w: Ticking, w': Ticking, move: Move, u: nat) {
    u in w.calls && u in w'.calls && w'.calls[u] == w.calls[u] && !(move.Resume? && move.tick == u)
  }

  ghost predicate JustBegan(cfg: Config, w: Ticking, w': Ticking, move: Move, u: nat, sid: string) {
    move.Resume? && move.tick == u && u in w'.calls && !AcceptsRecovery(w, move, sid)
    && CooledDown(Recoveries(w.log, sid), w'.calls[u].input.heartbeatNow, cfg.cooldownMs)
  }

  /** All there is to know about a move from `w` to `w'` for the pacing of `sid`. */
  ghost predicate MoveMeans(cfg: Config, w: Ticking, move: Move, w': Ticking, sid: string) {
    Recoveries(w'.log, sid) == RecoveriesAfter(w, move, sid) && RecoveryKnown(w'.log, w'.shared, sid)
    && forall u :: u in w'.calls && AwaitsRecovery(w'.calls[u], sid)
         ==> StillAwaits(w, w', move, u) || JustBegan(cfg, w, w', move, u, sid)
  }

  lemma SilentMeans(cfg: Config, w: Ticking, move: Move, sid: string, r: RowInput, p: Progress)
    requires !move.Clean? && RecoveryKnown(w.log, w.shared, sid) && Silent(p, w.shared)
    requires !AcceptsRecovery(w, move, sid)
    ensures MoveMeans(cfg, w, move, Moved(w, move.tick, r, p), sid)
  {
    RecoveriesUnchanged(w.log, p.log, sid);
  }

  /** A piece that begins a heartbeat redeploy. */
  ghost predicate Begins(cfg: Config, p: Progress, s: Shared, r: RowInput) {
    p.shared.heartbeatLastRecoverAt == s.heartbeatLastRecoverAt
    && p.log == [HeartbeatBegan(r.row.sid, r.heartbeatNow)]
    && CooldownOver(cfg, s.heartbeatLastRecoverAt, r.row.sid, r.heartbeatNow)
  }

  lemma ContinueBegins(cfg: Config, s: Shared, call: Call)
    requires BeginsRecovery(cfg, s, call)
    ensures Begins(cfg, Continue(cfg, s, call), s, call.input)
  {
  }

  lemma BeginMeans(cfg: Config, w: Ticking, t: nat, reply: RowInput, sid: string, r: RowInput, p: Progress)
    requires t in w.calls && !w.calls[t].stage.AwaitHeartbeat? && Begins(cfg, p, w.shared, r)
    requires RecoveryKnown(w.log, w.shared, sid)
    ensures MoveMeans(cfg, w, Resume(t, reply), Moved(w, t, r, p), sid)
  {
    RecoveriesAppend(w.log, HeartbeatBegan(r.row.sid, r.heartbeatNow), sid);
    assert r.row.sid == sid ==> CooledDown(Recoveries(w.log, sid), r.heartbeatNow, cfg.cooldownMs);
  }

  lemma AnswerMoveMeans(cfg: Config, w: Ticking, t: nat, reply: RowInput, sid: string)
    requires t in w.calls && w.calls[t].stage.AwaitHeartbeat? && RecoveryKnown(w.log, w.shared, sid)
    ensures MoveMeans(cfg, w, Resume(t, reply), Perform(cfg, w, Resume(t, reply)), sid)
  {
    var call := Replied(w.calls[t], reply);
    var p := FromHeartbeat(cfg, w.shared, call.input, call.stage.rec);
    AnswerMeans(cfg, w.log, w.shared, call.input, call.stage.rec, sid);
    AnswerIsKnown(w, t, call.input, p, sid);
  }

  /** The service is listed by every tick of this part of the run. */
  predicate AlwaysListed(moves: seq<Move>, sid: string) {
    forall m <- moves :: m.Clean? ==> sid in m.ids
  }

  lemma ListedSplits(front: seq<Move>, last: Move, sid: string)
    requires AlwaysListed(front + [last], sid)
    ensures AlwaysListed(front, sid) && (last.Clean? ==> sid in last.ids)
  {
    assert forall m <- front :: m in front + [last];
    assert last in front + [last];
  }

  lemma RecoveryMove(cfg: Config, w: Ticking, move: Move, sid: string)
    requires Possible(w, move) && RecoveryKnown(w.log, w.shared, sid) && (move.Clean? ==> sid in move.ids)
    ensures MoveMeans(cfg, w, move, Perform(cfg, w, move), sid)
  {
    match move
    case Enter(t, r) =>
      FromStartIsSilent(cfg, w.shared, r);
      SilentMeans(cfg, w, move, sid, r, FromStart(cfg, w.shared, r));
    case Resume(t, reply) =>
      var call := Replied(w.calls[t], reply);
      if BeginsRecovery(cfg, w.shared, call) {
        ContinueBegins(cfg, w.shared, call);
        BeginMeans(cfg, w, t, reply, sid, call.input, Continue(cfg, w.shared, call));
      } else if call.stage.AwaitHeartbeat? {
        AnswerMoveMeans(cfg, w, t, reply, sid);
      } else {
        ContinueIsSilent(cfg, w.shared, call);
        SilentMeans(cfg, w, move, sid, call.input, Continue(cfg, w.shared, call));
      }
    case Clean(_) =>
  }

  lemma {:induction false} RecoveryAlwaysKnown(cfg: Config, start: Ticking, moves: seq<Move>, w: Ticking, sid: string)
    requires Overlapped(cfg, start, moves) == Some(w) && start.log == [] && AlwaysListed(moves, sid)
    ensures RecoveryKnown(w.log, w.shared, sid)
  {
    if moves != [] {
      var front, last := moves[..|moves| - 1], moves[|moves| - 1];
      var before := Overlapped(cfg, start, front).value;
      assert moves == front + [last];
      ListedSplits(front, last, sid);
      RecoveryAlwaysKnown(cfg, start, front, before, sid);
      RecoveryMove(cfg, before, last, sid);
    }
  }

  /**
   Whatever ticks overlap, in any part of a run that lists the service throughout: a heartbeat redeploy
   begins at least the cooldown after the last accepted one that was answered by then.
   */
  lemma HeartbeatBeginsCooledDown(cfg: Config, start: Ticking, moves: seq<Move>, w: Ticking, t: nat, reply: RowInput)
    requires Overlapped(cfg, start, moves) == Some(w) && start.log == [] && t in w.calls
    requires BeginsRecovery(cfg, w.shared, Replied(w.calls[t], reply))
    requires AlwaysListed(moves, w.calls[t].input.row.sid)
    ensures CooledDown(Recoveries(w.log, w.calls[t].input.row.sid), reply.heartbeatNow, cfg.cooldownMs)
  {
    var sid := w.calls[t].input.row.sid;
    RecoveryAlwaysKnown(cfg, start, moves, w, sid);
  }

  // ---------------------------------------------------------------- when recoveries are spaced

  /** How many redeploys of `sid` had been accepted when row `t` last went on; for an awaited one, when it began. */
  function AcceptedBefore(cfg: Config, start: Ticking, moves: seq<Move>, t: nat, sid: string): nat {
    if moves == [] then 0
    else
      var front, last := moves[..|moves| - 1], moves[|moves| - 1];
      var before := Overlapped(cfg, start, front);
      if last.Resume? && last.tick == t && before.Some? then |Recoveries(before.value.log, sid)|
      else AcceptedBefore(cfg, start, front, t, sid)
  }

  /** No redeploy of `sid` was accepted while another that was accepted later was already awaited. */
  predicate NoneMeanwhile(cfg: Config, start: Ticking, moves: seq<Move>, sid: string) {
    moves == []
    || (var front, last := moves[..|moves| - 1], moves[|moves| - 1];
        var before := Overlapped(cfg, start, front);
        NoneMeanwhile(cfg, start, front, sid)
        && (before.Some? && AcceptsRecovery(before.value, last, sid)
            ==> AcceptedBefore(cfg, start, front, last.tick, sid) == |Recoveries(before.value.log, sid)|))
  }

  /** An accepted answer is read no earlier than the one before and than the start of any awaited redeploy. */
  ghost predicate ReadForward(w: Ticking, move: Move, sid: string) {
    AcceptsRecovery(w, move, sid) ==>
      forall u :: u in w.calls && AwaitsRecovery(w.calls[u], sid)
                  ==> w.calls[u].input.heartbeatNow <= move.reply.heartbeatDone
  }

  /** The clock does not go back between those readings. */
  ghost predicate ClockForward(cfg: Config, start: Ticking, moves: seq<Move>, sid: string) {
    moves == []
    || (var front, last := moves[..|moves| - 1], moves[|moves| - 1];
        var before := Overlapped(cfg, start, front);
        ClockForward(cfg, start, front, sid) && (before.Some? ==> ReadForward(before.value, last, sid)))
  }

  /** An awaited redeploy that began after the last accepted answer began a cooldown after it. */
  ghost predicate TrackedCall(times: seq<(int, int)>, n: nat, began: int, gap: nat) {
    n <= |times| && (n == |times| ==> CooledDown(times, began, gap))
  }

  /** One that began before the last accepted answer began no later than that answer was read. */
  ghost predicate OvertakenCall(times: seq<(int, int)>, n: nat, began: int) {
    n < |times| ==> began <= times[|times| - 1].1
  }

  ghost predicate Tracked(cfg: Config, start: Ticking, moves: seq<Move>, w: Ticking, sid: string) {
    forall u :: u in w.calls && AwaitsRecovery(w.calls[u], sid) ==>
      TrackedCall(Recoveries(w.log, sid), AcceptedBefore(cfg, start, moves, u, sid),
                  w.calls[u].input.heartbeatNow, cfg.cooldownMs)
  }

  ghost predicate Overtaken(cfg: Config, start: Ticking, moves: seq<Move>, w: Ticking, sid: string) {
    forall u :: u in w.calls && AwaitsRecovery(w.calls[u], sid) ==>
      OvertakenCall(Recoveries(w.log, sid), AcceptedBefore(cfg, start, moves, u, sid), w.calls[u].input.heartbeatNow)
  }

  lemma AcceptedBeforeStep(cfg: Config, start: Ticking, moves: seq<Move>, w: Ticking, move: Move, u: nat, sid: string)
    requires Overlapped(cfg, start, moves) == Some(w)
    ensures AcceptedBefore(cfg, start, moves + [move], u, sid)
            == if move.Resume? && move.tick == u then |Recoveries(w.log, sid)|
               else AcceptedBefore(cfg, start, moves, u, sid)
  {
    assert (moves + [move])[..|moves|] == moves;
  }

  /** A row that awaits its redeploy before and after the move. */
  lemma StillTracked(cfg: Config, w: Ticking, move: Move, u: nat, n: nat, sid: string)
    requires u in w.calls && AwaitsRecovery(w.calls[u], sid)
    requires TrackedCall(Recoveries(w.log, sid), n, w.calls[u].input.heartbeatNow, cfg.cooldownMs)
    ensures var times', began := RecoveriesAfter(w, move, sid), w.calls[u].input.heartbeatNow;
            TrackedCall(times', n, began, cfg.cooldownMs)
            && (OvertakenCall(Recoveries(w.log, sid), n, began) && ReadForward(w, move, sid)
                ==> OvertakenCall(times', n, began))
  {
  }

  lemma TrackedMove(cfg: Config, start: Ticking, moves: seq<Move>, w: Ticking, move: Move, w': Ticking, sid: string)
    requires Overlapped(cfg, start, moves) == Some(w) && MoveMeans(cfg, w, move, w', sid)
    requires Tracked(cfg, start, moves, w, sid)
    ensures Tracked(cfg, start, moves + [move], w', sid)
  {
    forall u | u in w'.calls && AwaitsRecovery(w'.calls[u], sid)
      ensures TrackedCall(Recoveries(w'.log, sid), AcceptedBefore(cfg, start, moves + [move], u, sid),
                          w'.calls[u].input.heartbeatNow, cfg.cooldownMs)
    {
      AcceptedBeforeStep(cfg, start, moves, w, move, u, sid);
      if StillAwaits(w, w', move, u) {
        StillTracked(cfg, w, move, u, AcceptedBefore(cfg, start, moves, u, sid), sid);
      }
    }
  }

  lemma OvertakenMove(cfg: Config, start: Ticking, moves: seq<Move>, w: Ticking, move: Move, w': Ticking, sid: string)
    requires Overlapped(cfg, start, moves) == Some(w) && MoveMeans(cfg, w, move, w', sid)
    requires Tracked(cfg, start, moves, w, sid) && Overtaken(cfg, start, moves, w, sid) && ReadForward(w, move, sid)
    ensures Overtaken(cfg, start, moves + [move], w', sid)
  {
    forall u | u in w'.calls && AwaitsRecovery(w'.calls[u], sid)
      ensures OvertakenCall(Recoveries(w'.log, sid), AcceptedBefore(cfg, start, moves + [move], u, sid),
                            w'.calls[u].input.heartbeatNow)
    {
      AcceptedBeforeStep(cfg, start, moves, w, move, u, sid);
      if StillAwaits(w, w', move, u) {
        StillTracked(cfg, w, move, u, AcceptedBefore(cfg, start, moves, u, sid), sid);
      }
    }
  }

  lemma SpacedAppend(times: seq<(int, int)>, x: (int, int), gap: nat)
    ensures Spaced(times + [x], gap)
            <==> Spaced(times, gap) && (times != [] ==> x.0 - times[|times| - 1].1 >= gap)
  {
    var longer := times + [x];
    if Spaced(longer, gap) {
      forall i | 0 < i < |times| ensures times[i].0 - times[i - 1].1 >= gap {
        assert longer[i] == times[i] && longer[i - 1] == times[i - 1];
      }
      if times != [] { assert longer[|times|] == x && longer[|times| - 1] == times[|times| - 1]; }
    }
  }

  lemma {:induction false} AlwaysTracked(cfg: Config, start: Ticking, moves: seq<Move>, w: Ticking, sid: string)
    requires Overlapped(cfg, start, moves) == Some(w) && start.log == [] && AlwaysListed(moves, sid)
    ensures Tracked(cfg, start, moves, w, sid)
    ensures ClockForward(cfg, start, moves, sid) ==> Overtaken(cfg, start, moves, w, sid)
  {
    if moves != [] {
      var front, last := moves[..|moves| - 1], moves[|moves| - 1];
      var before := Overlapped(cfg, start, front).value;
      assert moves == front + [last];
      ListedSplits(front, last, sid);
      RecoveryAlwaysKnown(cfg, start, front, before, sid);
      AlwaysTracked(cfg, start, front, before, sid);
      RecoveryMove(cfg, before, last, sid);
      TrackedMove(cfg, start, front, before, last, w, sid);
      if ClockForward(cfg, start, moves, sid) { OvertakenMove(cfg, start, front, before, last, w, sid); }
    }
  }

  /** One accepted answer more keeps the recoveries spaced if its redeploy began after the last one. */
  lemma AnswerSpaced(cfg: Config, start: Ticking, moves: seq<Move>, w: Ticking, move: Move, sid: string)
    requires cfg.cooldownMs > 0 && AcceptsRecovery(w, move, sid) && Tracked(cfg, start, moves, w, sid)
    ensures var times, n := Recoveries(w.log, sid), AcceptedBefore(cfg, start, moves, move.tick, sid);
            (n == |times| && Spaced(times, cfg.cooldownMs) ==> Spaced(RecoveriesAfter(w, move, sid), cfg.cooldownMs))
            && (Overtaken(cfg, start, moves, w, sid) && Spaced(RecoveriesAfter(w, move, sid), cfg.cooldownMs)
                ==> n == |times| && Spaced(times, cfg.cooldownMs))
  {
    var times, began := Recoveries(w.log, sid), w.calls[move.tick].input.heartbeatNow;
    SpacedAppend(times, (began, move.reply.heartbeatDone), cfg.cooldownMs);
  }

  lemma {:induction false} RecoveriesAreSpaced(cfg: Config, start: Ticking, moves: seq<Move>, w: Ticking, sid: string)
    requires Overlapped(cfg, start, moves) == Some(w) && start.log == [] && AlwaysListed(moves, sid)
    requires cfg.cooldownMs > 0
    ensures NoneMeanwhile(cfg, start, moves, sid) ==> Spaced(Recoveries(w.log, sid), cfg.cooldownMs)
    ensures ClockForward(cfg, start, moves, sid) && Spaced(Recoveries(w.log, sid), cfg.cooldownMs)
            ==> NoneMeanwhile(cfg, start, moves, sid)
  {
    if moves != [] {
      var front, last := moves[..|moves| - 1], moves[|moves| - 1];
      var before := Overlapped(cfg, start, front).value;
      assert moves == front + [last];
      ListedSplits(front, last, sid);
      RecoveriesAreSpaced(cfg, start, front, before, sid);
      RecoveryAlwaysKnown(cfg, start, front, before, sid);
      AlwaysTracked(cfg, start, front, before, sid);
      RecoveryMove(cfg, before, last, sid);
      if AcceptsRecovery(before, last, sid) { AnswerSpaced(cfg, start, front, before, last, sid); }
    }
  }

  /**
   In any part of a run that lists the service throughout, with a clock that does not go back and a
   positive cooldown, its accepted heartbeat redeploys are a cooldown apart if and only if none was
   accepted while another that was accepted later was already awaited.
   */
  lemma RecoveriesSpacedIff(cfg: Config, start: Ticking, moves: seq<Move>, w: Ticking, sid: string)
    requires Overlapped(cfg, start, moves) == Some(w) && start.log == [] && AlwaysListed(moves, sid)
    requires ClockForward(cfg, start, moves, sid) && cfg.cooldownMs > 0
    ensures Spaced(Recoveries(w.log, sid), cfg.cooldownMs) <==> NoneMeanwhile(cfg, start, moves, sid)
  {
    RecoveriesAreSpaced(cfg, start, moves, w, sid);
  }

  /** `n + 1` intervals that are `gap` apart reach over at least `n * gap`. */
  lemma {:induction false} SpacedSpan(times: seq<(int, int)>, gap: nat, n: nat)
    requires Spaced(times, gap) && n < |times| && forall t <- times :: t.0 <= t.1
    ensures times[n].1 - times[0].0 >= Times(gap, n)
    ensures n > 0 ==> times[n].0 - times[0].1 >= Times(gap, n - 1) + gap
  {
    if n > 0 {
      SpacedSpan(times, gap, n - 1);
      assert times[n] in times && times[n - 1] in times && times[0] in times;
    }
  }

  lemma SpacedProduct(times: seq<(int, int)>, gap: nat)
    requires Spaced(times, gap) && |times| > 1 && forall t <- times :: t.0 <= t.1
    ensures times[|times| - 1].0 - times[0].1 >= (|times| - 1) * gap
  {
    SpacedSpan(times, gap, |times| - 1);
    TimesIsProduct(gap, |times| - 1);
  }

  /**
   In any part of a run that lists the service throughout and in which none of its heartbeat redeploys is
   accepted while another accepted one is awaited, `k` accepted ones span at least `(k - 1)` cooldowns,
   from the end of the first to the start of the last (a zero cooldown promises nothing).
   */
  lemma HeartbeatRecoveryPacing(cfg: Config, start: Ticking, moves: seq<Move>, w: Ticking, sid: string)
    requires Overlapped(cfg, start, moves) == Some(w) && start.log == [] && AlwaysListed(moves, sid)
    requires NoneMeanwhile(cfg, start, moves, sid) && forall x <- Recoveries(w.log, sid) :: x.0 <= x.1
    ensures var times := Recoveries(w.log, sid);
            cfg.cooldownMs > 0 && |times| > 1
            ==> times[|times| - 1].0 - times[0].1 >= (|times| - 1) * cfg.cooldownMs
  {
    var times := Recoveries(w.log, sid);
    if cfg.cooldownMs > 0 && |times| > 1 {
      RecoveriesAreSpaced(cfg, start, moves, w, sid);
      SpacedProduct(times, cfg.cooldownMs);
    }
  }

  /** The same for a part of a run from the start of the process: the recoveries its log adds are spaced. */
  lemma PacingOfPart(cfg: Config, first: seq<Move>, middle: Ticking, part: seq<Move>, w: Ticking, sid: string)
    requires Overlapped(cfg, IDLE, first) == Some(middle) && Overlapped(cfg, middle, part) == Some(w)
    requires AlwaysListed(part, sid) && ClockForward(cfg, middle.(log := []), part, sid) && cfg.cooldownMs > 0
    ensures Overlapped(cfg, IDLE, first + part) == Some(w) && middle.log <= w.log
    ensures Spaced(Recoveries(w.log[|middle.log|..], sid), cfg.cooldownMs)
            <==> NoneMeanwhile(cfg, middle.(log := []), part, sid)
  {
    RunsCompose(cfg, IDLE, first, middle, part);
    LogStartsAnew(cfg, middle, part, w);
    RecoveriesSpacedIff(cfg, middle.(log := []), part, w.(log := w.log[|middle.log|..]), sid);
  }
}
