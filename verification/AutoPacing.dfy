/**
 How far apart auto-recover redeploys are, for every interleaving of overlapping ticks: a redeploy keeps
 its distance from those answered before it began, and from those alone.
 */
module AutoPacing {
  import opened Wrappers
  import opened RailwayStatus
  import opened WatchdogTick
  import opened OverlappingTicks

  /** What a move appends to the log. */
  function Added(cfg: Config, w: Ticking, move: Move): seq<Event>
    requires Possible(w, move)
  {
    match move
    case Enter(_, r) => FromStart(cfg, w.shared, r).log
    case Resume(tick, reply) => Continue(cfg, w.shared, Replied(w.calls[tick], reply)).log
    case Clean(_) => []
  }

  ghost predicate Ascending(times: seq<int>) { forall i, j :: 0 <= i < j < |times| ==> times[i] <= times[j] }

  /** `start` is at least `gap` after the last of `dones`. */
  predicate Rested(dones: seq<int>, start: int, gap: nat) { dones != [] ==> start - dones[|dones| - 1] >= gap }

  lemma RestedAfterAll(dones: seq<int>, start: int, gap: nat)
    requires Rested(dones, start, gap) && Ascending(dones)
    ensures forall d <- dones :: start >= d + gap
  {
    forall d | d in dones ensures start >= d + gap {
      var i :| 0 <= i < |dones| && dones[i] == d;
      assert i < |dones| - 1 ==> dones[i] <= dones[|dones| - 1];
    }
  }

  // ---------------------------------------------------------------- auto-recovery

  /** When the accepted auto-recover redeploys of `sid` were answered, since it was last seen healthy. */
  function AutoAccepted(log: seq<Event>, sid: string): seq<int> {
    if log == [] then [] else AutoAcceptedWith(AutoAccepted(log[..|log| - 1], sid), log[|log| - 1], sid)
  }

  function AutoAcceptedWith(dones: seq<int>, e: Event, sid: string): seq<int> {
    if e == SawHealthy(sid) then []
    else if e.AutoAnswered? && e.sid == sid && e.ok then dones + [e.done]
    else dones
  }

  lemma AutoAcceptedAppend(log: seq<Event>, e: Event, sid: string)
    ensures AutoAccepted(log + [e], sid) == AutoAcceptedWith(AutoAccepted(log, sid), e, sid)
  {
    assert (log + [e])[..|log|] == log;
  }

  /** The cooldown map has the last of them. */
  ghost predicate AutoKnown(log: seq<Event>, s: Shared, sid: string) {
    var dones := AutoAccepted(log, sid);
    dones != [] ==> sid in s.recoverCooldown && s.recoverCooldown[sid] == dones[|dones| - 1]
  }

  /** The piece keeps that so, and begins no redeploy too early. */
  ghost predicate AutoKept(log: seq<Event>, p: Progress, sid: string) {
    AutoKnown(log + p.log, p.shared, sid)
    && forall start :: AutoBegan(sid, start) in p.log ==> Rested(AutoAccepted(log, sid), start, RECOVER_COOLDOWN_MS)
  }

  predicate AboutAuto(e: Event) { e.SawHealthy? || e.AutoBegan? || e.AutoAnswered? }

  lemma AutoKeptAfter(log: seq<Event>, e: Event, p: Progress, sid: string)
    requires AutoKept(log + [e], p, sid) && !AboutAuto(e)
    ensures AutoKept(log, After([e], p), sid)
  {
    AutoAcceptedAppend(log, e, sid);
    assert log + ([e] + p.log) == log + [e] + p.log;
  }

  lemma AutoKeptSilently(log: seq<Event>, p: Progress, sid: string)
    requires AutoKnown(log, p.shared, sid) && (p.log == [] || (|p.log| == 1 && !AboutAuto(p.log[0])))
    ensures AutoKept(log, p, sid)
  {
    if p.log == [] {
      assert log + p.log == log;
    } else {
      assert p.log == [p.log[0]];
      AutoAcceptedAppend(log, p.log[0], sid);
    }
  }

  lemma ToAutoKeeps(cfg: Config, log: seq<Event>, s: Shared, r: RowInput, sid: string)
    requires AutoKnown(log, s, sid)
    ensures AutoKept(log, ToAuto(cfg, s, r), sid)
  {
    if IsHealthy(r.row.status) {
      AutoAcceptedAppend(log, SawHealthy(r.row.sid), sid);
    } else if AutoRecoverDue(cfg, s.recoverCooldown, r) {
      AutoAcceptedAppend(log, AutoBegan(r.row.sid, r.autoNow), sid);
    } else {
      assert log + [] == log;
    }
  }

  lemma FromAutoKeeps(log: seq<Event>, s: Shared, r: RowInput, sid: string)
    requires AutoKnown(log, s, sid)
    ensures AutoKept(log, FromAuto(s, r), sid)
  {
    AutoAcceptedAppend(log, AutoAnswered(r.row.sid, r.autoNow, r.autoDone, r.autoDeployOk), sid);
  }

  lemma ToStoreKeeps(cfg: Config, log: seq<Event>, s: Shared, r: RowInput, rec: nat, sid: string)
    requires AutoKnown(log, s, sid)
    ensures AutoKept(log, ToStore(cfg, s, r, rec), sid)
  {
    var life := Heard(cfg, s.lifecycle, r);
    var s1 := s.(lifecycle := life, records := s.records[r.row.sid := rec]);
    var e := Probed(r.row.sid, r.row.online, r.pingOk);
    AutoAcceptedAppend(log, e, sid);
    ToAutoKeeps(cfg, log + [e], s1, r, sid);
    AutoKeptAfter(log, e, ToAuto(cfg, s1, r), sid);
  }

  lemma FromPingKeeps(cfg: Config, log: seq<Event>, s: Shared, r: RowInput, rec: nat, sid: string)
    requires AutoKnown(log, s, sid)
    ensures AutoKept(log, FromPing(cfg, s, r, rec), sid)
  {
    var record := Object(s, r.row.sid, rec);
    if r.pingOk {
      ToStoreKeeps(cfg, log, WithObject(s, r.row.sid, rec, Reached(record)), r, rec, sid);
    } else if HeartbeatDeployDue(cfg, record, s.heartbeatLastRecoverAt, r) {
      AutoKeptSilently(log, FromPing(cfg, s, r, rec), sid);
    } else {
      var missed := RecordAfterMiss(cfg, record, s.heartbeatLastRecoverAt, r);
      ToStoreKeeps(cfg, log, WithObject(s, r.row.sid, rec, missed), r, rec, sid);
    }
  }

  lemma FromHeartbeatKeeps(cfg: Config, log: seq<Event>, s: Shared, r: RowInput, rec: nat, sid: string)
    requires AutoKnown(log, s, sid)
    ensures AutoKept(log, FromHeartbeat(cfg, s, r, rec), sid)
  {
    var e := HeartbeatAnswered(r.row.sid, r.row.depId, r.heartbeatNow, r.heartbeatDone, r.heartbeatDeployOk);
    AutoAcceptedAppend(log, e, sid);
    ToStoreKeeps(cfg, log + [e], AfterRecovery(s, r, rec), r, rec, sid);
    AutoKeptAfter(log, e, ToStore(cfg, AfterRecovery(s, r, rec), r, rec), sid);
  }

  lemma ToPingKeeps(cfg: Config, log: seq<Event>, s: Shared, r: RowInput, sid: string)
    requires AutoKnown(log, s, sid)
    ensures AutoKept(log, ToPing(cfg, s, r), sid)
  {
    if Pings(cfg, r.row) {
      AutoKeptSilently(log, ToPing(cfg, s, r), sid);
    } else {
      ToAutoKeeps(cfg, log, UnprobedShared(cfg, s, r.row), r, sid);
    }
  }

  lemma FromExitKeeps(cfg: Config, log: seq<Event>, s: Shared, r: RowInput, sid: string)
    requires AutoKnown(log, s, sid)
    ensures AutoKept(log, FromExit(cfg, s, r), sid)
  {
    var life := Settled(s.lifecycle, r);
    var s1, e := s.(lifecycle := life), ExitAnswered(r.row.sid, r.exitDeployOk);
    AutoAcceptedAppend(log, e, sid);
    ToPingKeeps(cfg, log + [e], s1, r, sid);
    AutoKeptAfter(log, e, ToPing(cfg, s1, r), sid);
  }

  lemma FromStartKeeps(cfg: Config, log: seq<Event>, s: Shared, r: RowInput, sid: string)
    requires AutoKnown(log, s, sid)
    ensures AutoKept(log, FromStart(cfg, s, r), sid)
  {
    if ExitRedeployDue(cfg, s.lifecycle, r.row) {
      AutoKeptSilently(log, FromStart(cfg, s, r), sid);
    } else {
      ToPingKeeps(cfg, log, s, r, sid);
    }
  }

  lemma ContinueKeeps(cfg: Config, log: seq<Event>, s: Shared, call: Call, sid: string)
    requires AutoKnown(log, s, sid)
    ensures AutoKept(log, Continue(cfg, s, call), sid)
  {
    match call.stage
    case AwaitExit => FromExitKeeps(cfg, log, s, call.input, sid);
    case AwaitPing(rec) => FromPingKeeps(cfg, log, s, call.input, rec, sid);
    case AwaitHeartbeat(rec) => FromHeartbeatKeeps(cfg, log, s, call.input, rec, sid);
    case AwaitAuto => FromAutoKeeps(log, s, call.input, sid);
  }

  lemma AutoMove(cfg: Config, w: Ticking, move: Move, sid: string)
    requires Possible(w, move) && AutoKnown(w.log, w.shared, sid)
    ensures var w' := Perform(cfg, w, move); AutoKnown(w'.log, w'.shared, sid)
    ensures forall start :: AutoBegan(sid, start) in Added(cfg, w, move)
              ==> Rested(AutoAccepted(w.log, sid), start, RECOVER_COOLDOWN_MS)
  {
    match move
    case Enter(_, r) => FromStartKeeps(cfg, w.log, w.shared, r, sid);
    case Resume(t, reply) => ContinueKeeps(cfg, w.log, w.shared, Replied(w.calls[t], reply), sid);
    case Clean(_) =>
  }

  lemma {:induction false} AutoAlwaysKnown(cfg: Config, start: Ticking, moves: seq<Move>, w: Ticking, sid: string)
    requires Overlapped(cfg, start, moves) == Some(w) && start.log == []
    ensures AutoKnown(w.log, w.shared, sid)
  {
    if moves != [] {
      var front, last := moves[..|moves| - 1], moves[|moves| - 1];
      var before := Overlapped(cfg, start, front).value;
      AutoAlwaysKnown(cfg, start, front, before, sid);
      AutoMove(cfg, before, last, sid);
    }
  }

  /**
   Whatever ticks overlap, in any part of any run: an auto-recover redeploy begins at least the cooldown
   after every accepted one that was answered by then and since when the service was not seen healthy.
   */
  lemma AutoRecoverPacing(cfg: Config, start: Ticking, moves: seq<Move>, w: Ticking, move: Move, sid: string,
                          begin: int)
    requires Overlapped(cfg, start, moves) == Some(w) && start.log == [] && Possible(w, move)
    requires AutoBegan(sid, begin) in Added(cfg, w, move) && Ascending(AutoAccepted(w.log, sid))
    ensures forall done <- AutoAccepted(w.log, sid) :: begin >= done + 50_000
  {
    AutoAlwaysKnown(cfg, start, moves, w, sid);
    AutoMove(cfg, w, move, sid);
    RestedAfterAll(AutoAccepted(w.log, sid), begin, RECOVER_COOLDOWN_MS);
  }

  // ---------------------------------------------------------------- when auto-recover redeploys are spaced

  /** How many auto-recover redeploys of `sid` were accepted. */
  function AcceptedInAll(log: seq<Event>, sid: string): nat {
    if log == [] then 0
    else AcceptedInAll(log[..|log| - 1], sid) + if IsAccepted(log[|log| - 1], sid) then 1 else 0
  }

  predicate IsAccepted(e: Event, sid: string) { e.AutoAnswered? && e.sid == sid && e.ok }

  /** Each accepted redeploy began a cooldown after the one before, unless the service was seen healthy since. */
  predicate AutoSpaced(log: seq<Event>, sid: string) {
    log == []
    || (var front, last := log[..|log| - 1], log[|log| - 1];
        AutoSpaced(front, sid)
        && (IsAccepted(last, sid) ==> Rested(AutoAccepted(front, sid), last.start, RECOVER_COOLDOWN_MS)))
  }

  lemma AcceptedAppend(log: seq<Event>, e: Event, sid: string)
    ensures AcceptedInAll(log + [e], sid) == AcceptedInAll(log, sid) + if IsAccepted(e, sid) then 1 else 0
    ensures AutoSpaced(log + [e], sid) <==>
              AutoSpaced(log, sid)
              && (IsAccepted(e, sid) ==> Rested(AutoAccepted(log, sid), e.start, RECOVER_COOLDOWN_MS))
  {
    assert (log + [e])[..|log|] == log;
  }

  /** Events without an answer: at most the service was seen healthy. */
  lemma {:induction false} NoAnswers(log: seq<Event>, more: seq<Event>, sid: string)
    requires forall e <- more :: !e.AutoAnswered?
    ensures AcceptedInAll(log + more, sid) == AcceptedInAll(log, sid)
    ensures AutoSpaced(log + more, sid) <==> AutoSpaced(log, sid)
    ensures AutoAccepted(log + more, sid) == AutoAccepted(log, sid) || AutoAccepted(log + more, sid) == []
    ensures (forall e <- more :: !e.SawHealthy?) ==> AutoAccepted(log + more, sid) == AutoAccepted(log, sid)
  {
    if more == [] {
      assert log + more == log;
    } else {
      var front, last := more[..|more| - 1], more[|more| - 1];
      assert log + more == log + front + [last] && last in more && forall e <- front :: e in more;
      NoAnswers(log, front, sid);
      AcceptedAppend(log + front, last, sid);
      AutoAcceptedAppend(log + front, last, sid);
    }
  }

  /** A piece that is no answer; if it leaves the row awaiting a redeploy, that one began in this piece. */
  ghost predicate Plain(p: Progress, r: RowInput) {
    (forall e <- p.log :: !e.AutoAnswered?)
    && (p.stage == Some(AwaitAuto) ==>
          AutoBegan(r.row.sid, r.autoNow) in p.log && forall e <- p.log :: !e.SawHealthy?)
  }

  lemma ToAutoIsPlain(cfg: Config, s: Shared, r: RowInput)
    ensures Plain(ToAuto(cfg, s, r), r)
  {
  }

  lemma PlainAfter(e: Event, p: Progress, r: RowInput)
    requires Plain(p, r) && !AboutAuto(e)
    ensures Plain(After([e], p), r)
  {
  }

  lemma ToStoreIsPlain(cfg: Config, s: Shared, r: RowInput, rec: nat)
    ensures Plain(ToStore(cfg, s, r, rec), r)
  {
    var s1 := s.(lifecycle := Heard(cfg, s.lifecycle, r), records := s.records[r.row.sid := rec]);
    ToAutoIsPlain(cfg, s1, r);
    PlainAfter(Probed(r.row.sid, r.row.online, r.pingOk), ToAuto(cfg, s1, r), r);
  }

  lemma ToPingIsPlain(cfg: Config, s: Shared, r: RowInput)
    ensures Plain(ToPing(cfg, s, r), r)
  {
    if !Pings(cfg, r.row) { ToAutoIsPlain(cfg, UnprobedShared(cfg, s, r.row), r); }
  }

  lemma FromStartIsPlain(cfg: Config, s: Shared, r: RowInput)
    ensures Plain(FromStart(cfg, s, r), r)
  {
    ToPingIsPlain(cfg, s, r);
  }

  lemma FromPingIsPlain(cfg: Config, s: Shared, r: RowInput, rec: nat)
    ensures Plain(FromPing(cfg, s, r, rec), r)
  {
    var record := Object(s, r.row.sid, rec);
    var record' := if r.pingOk then Reached(record)
                   else RecordAfterMiss(cfg, record, s.heartbeatLastRecoverAt, r);
    ToStoreIsPlain(cfg, WithObject(s, r.row.sid, rec, record'), r, rec);
  }

  lemma ContinueIsPlain(cfg: Config, s: Shared, call: Call)
    requires !call.stage.AwaitAuto?
    ensures Plain(Continue(cfg, s, call), call.input)
  {
    var r := call.input;
    match call.stage
    case AwaitExit =>
      var s1 := s.(lifecycle := Settled(s.lifecycle, r));
      ToPingIsPlain(cfg, s1, r);
      PlainAfter(ExitAnswered(r.row.sid, r.exitDeployOk), ToPing(cfg, s1, r), r);
    case AwaitPing(rec) => FromPingIsPlain(cfg, s, r, rec);
    case AwaitHeartbeat(rec) =>
      var e := HeartbeatAnswered(r.row.sid, r.row.depId, r.heartbeatNow, r.heartbeatDone, r.heartbeatDeployOk);
      ToStoreIsPlain(cfg, AfterRecovery(s, r, rec), r, rec);
      PlainAfter(e, ToStore(cfg, AfterRecovery(s, r, rec), r, rec), r);
  }

  predicate AwaitsAuto(call: Call, sid: string) { call.stage.AwaitAuto? && call.input.row.sid == sid }

  /** The accepted auto-recover redeploy of `sid` whose answer the move brings. */
  predicate AcceptsAuto(w: Ticking, move: Move, sid: string) {
    move.Resume? && move.tick in w.calls && AwaitsAuto(w.calls[move.tick], sid) && move.reply.autoDeployOk
  }

  predicate ByTick(move: Move, u: nat) { !move.Clean? && move.tick == u }

  /** Row `u` awaits a redeploy that began in this move, in time and without a healthy sighting. */
  ghost predicate JustBegan(w: Ticking, w': Ticking, move: Move, u: nat, sid: string) {
    ByTick(move, u) && u in w'.calls && !AcceptsAuto(w, move, sid)
    && AutoAccepted(w'.log, sid) == AutoAccepted(w.log, sid)
    && Rested(AutoAccepted(w.log, sid), w'.calls[u].input.autoNow, RECOVER_COOLDOWN_MS)
  }

  predicate StillAwaits(w: Ticking, w': Ticking, move: Move, u: nat) {
    u in w.calls && u in w'.calls && w'.calls[u] == w.calls[u] && !ByTick(move, u)
  }

  /** What a move does to the accepted redeploys and to what is awaited. */
  ghost predicate MoveMeans(cfg: Config, w: Ticking, move: Move, sid: string)
    requires Possible(w, move)
  {
    var w' := Perform(cfg, w, move);
    var dones, dones' := AutoAccepted(w.log, sid), AutoAccepted(w'.log, sid);
    (if AcceptsAuto(w, move, sid) then
       var began := w.calls[move.tick].input.autoNow;
       dones' == dones + [move.reply.autoDone] && AcceptedInAll(w'.log, sid) == AcceptedInAll(w.log, sid) + 1
       && (AutoSpaced(w'.log, sid) <==> AutoSpaced(w.log, sid) && Rested(dones, began, RECOVER_COOLDOWN_MS))
     else
       (dones' == dones || dones' == []) && AcceptedInAll(w'.log, sid) == AcceptedInAll(w.log, sid)
       && (AutoSpaced(w'.log, sid) <==> AutoSpaced(w.log, sid)))
    && forall u :: u in w'.calls && AwaitsAuto(w'.calls[u], sid)
         ==> StillAwaits(w, w', move, u) || JustBegan(w, w', move, u, sid)
  }

  lemma PlainMeans(cfg: Config, w: Ticking, move: Move, r: RowInput, p: Progress, sid: string)
    requires Possible(w, move) && !move.Clean? && Perform(cfg, w, move) == Moved(w, move.tick, r, p)
    requires Plain(p, r) && !AcceptsAuto(w, move, sid) && AutoKept(w.log, p, sid)
    ensures MoveMeans(cfg, w, move, sid)
  {
    NoAnswers(w.log, p.log, sid);
  }

  lemma AnswerMeans(cfg: Config, w: Ticking, t: nat, reply: RowInput, sid: string)
    requires t in w.calls && w.calls[t].stage.AwaitAuto?
    ensures MoveMeans(cfg, w, Resume(t, reply), sid)
  {
    var r := Replied(w.calls[t], reply).input;
    var e := AutoAnswered(r.row.sid, r.autoNow, r.autoDone, r.autoDeployOk);
    AcceptedAppend(w.log, e, sid);
    AutoAcceptedAppend(w.log, e, sid);
  }

  lemma MoveHasMeaning(cfg: Config, w: Ticking, move: Move, sid: string)
    requires Possible(w, move) && AutoKnown(w.log, w.shared, sid)
    ensures MoveMeans(cfg, w, move, sid)
  {
    match move
    case Enter(t, r) =>
      FromStartKeeps(cfg, w.log, w.shared, r, sid);
      FromStartIsPlain(cfg, w.shared, r);
      PlainMeans(cfg, w, move, r, FromStart(cfg, w.shared, r), sid);
    case Resume(t, reply) =>
      var call := Replied(w.calls[t], reply);
      if call.stage.AwaitAuto? {
        AnswerMeans(cfg, w, t, reply, sid);
      } else {
        ContinueKeeps(cfg, w.log, w.shared, call, sid);
        ContinueIsPlain(cfg, w.shared, call);
        PlainMeans(cfg, w, move, call.input, Continue(cfg, w.shared, call), sid);
      }
    case Clean(_) =>
  }

  /** How many redeploys of `sid` had been accepted when tick `t` last moved; for an awaited one, when it began. */
  function AcceptedBefore(cfg: Config, start: Ticking, moves: seq<Move>, t: nat, sid: string): nat {
    if moves == [] then 0
    else
      var front, last := moves[..|moves| - 1], moves[|moves| - 1];
      var before := Overlapped(cfg, start, front);
      if ByTick(last, t) && before.Some? then AcceptedInAll(before.value.log, sid)
      else AcceptedBefore(cfg, start, front, t, sid)
  }

  /**
   No redeploy of `sid` was accepted while another that was accepted later was already awaited, unless
   the service was seen healthy between the two answers.
   */
  predicate NoneMeanwhile(cfg: Config, start: Ticking, moves: seq<Move>, sid: string) {
    moves == []
    || (var front, last := moves[..|moves| - 1], moves[|moves| - 1];
        var before := Overlapped(cfg, start, front);
        NoneMeanwhile(cfg, start, front, sid)
        && (before.Some? && AcceptsAuto(before.value, last, sid) && AutoAccepted(before.value.log, sid) != []
            ==> AcceptedBefore(cfg, start, front, last.tick, sid) == AcceptedInAll(before.value.log, sid)))
  }

  /** An accepted answer is read no earlier than the start of any awaited redeploy. */
  ghost predicate ReadForward(w: Ticking, move: Move, sid: string) {
    AcceptsAuto(w, move, sid) ==>
      forall u :: u in w.calls && AwaitsAuto(w.calls[u], sid) ==> w.calls[u].input.autoNow <= move.reply.autoDone
  }

  ghost predicate ClockForward(cfg: Config, start: Ticking, moves: seq<Move>, sid: string) {
    moves == []
    || (var front, last := moves[..|moves| - 1], moves[|moves| - 1];
        var before := Overlapped(cfg, start, front);
        ClockForward(cfg, start, front, sid) && (before.Some? ==> ReadForward(before.value, last, sid)))
  }

  ghost predicate TrackedCall(dones: seq<int>, all: nat, n: nat, began: int) {
    n <= all && (n == all ==> Rested(dones, began, RECOVER_COOLDOWN_MS))
    && (n < all && dones != [] ==> began <= dones[|dones| - 1])
  }

  ghost predicate Tracked(cfg: Config, start: Ticking, moves: seq<Move>, w: Ticking, sid: string) {
    forall u :: u in w.calls && AwaitsAuto(w.calls[u], sid) ==>
      TrackedCall(AutoAccepted(w.log, sid), AcceptedInAll(w.log, sid), AcceptedBefore(cfg, start, moves, u, sid),
                  w.calls[u].input.autoNow)
  }

  lemma TrackedMove(cfg: Config, start: Ticking, moves: seq<Move>, w: Ticking, move: Move, sid: string)
    requires Overlapped(cfg, start, moves) == Some(w) && Possible(w, move) && MoveMeans(cfg, w, move, sid)
    requires Tracked(cfg, start, moves, w, sid) && ReadForward(w, move, sid)
    ensures Tracked(cfg, start, moves + [move], Perform(cfg, w, move), sid)
  {
    var w' := Perform(cfg, w, move);
    assert (moves + [move])[..|moves|] == moves;
    forall u | u in w'.calls && AwaitsAuto(w'.calls[u], sid)
      ensures TrackedCall(AutoAccepted(w'.log, sid), AcceptedInAll(w'.log, sid),
                          AcceptedBefore(cfg, start, moves + [move], u, sid), w'.calls[u].input.autoNow)
    {
      if StillAwaits(w, w', move, u) {
        assert AwaitsAuto(w.calls[u], sid);
      }
    }
  }

  lemma {:induction false} AlwaysTracked(cfg: Config, start: Ticking, moves: seq<Move>, w: Ticking, sid: string)
    requires Overlapped(cfg, start, moves) == Some(w) && start.log == [] && ClockForward(cfg, start, moves, sid)
    ensures Tracked(cfg, start, moves, w, sid)
  {
    if moves != [] {
      var front, last := moves[..|moves| - 1], moves[|moves| - 1];
      var before := Overlapped(cfg, start, front).value;
      assert moves == front + [last];
      AlwaysTracked(cfg, start, front, before, sid);
      AutoAlwaysKnown(cfg, start, front, before, sid);
      MoveHasMeaning(cfg, before, last, sid);
      TrackedMove(cfg, start, front, before, last, sid);
    }
  }

  /**
   In any part of any run, with a clock that does not go back: accepted auto-recover redeploys of a
   service with no healthy sighting between their answers began a cooldown after one another if and only
   if none of them was accepted while a later one was already awaited.
   */
  lemma {:induction false} AutoSpacedIff(cfg: Config, start: Ticking, moves: seq<Move>, w: Ticking, sid: string)
    requires Overlapped(cfg, start, moves) == Some(w) && start.log == [] && ClockForward(cfg, start, moves, sid)
    ensures AutoSpaced(w.log, sid) <==> NoneMeanwhile(cfg, start, moves, sid)
  {
    if moves != [] {
      var front, last := moves[..|moves| - 1], moves[|moves| - 1];
      var before := Overlapped(cfg, start, front).value;
      AutoSpacedIff(cfg, start, front, before, sid);
      AlwaysTracked(cfg, start, front, before, sid);
      AutoAlwaysKnown(cfg, start, front, before, sid);
      MoveHasMeaning(cfg, before, last, sid);
    }
  }
}
