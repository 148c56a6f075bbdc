/**
 When the budget of one deployment is safe although ticks overlap: exactly while the redeploys booked on
 its records and those still awaited on them are together within the maximum.
 */
module BudgetSafety {
  import opened Wrappers
  import opened WatchdogTick
  import opened OverlappingTicks
  import opened RecoveryPacing
  import opened RecoveryAccounts

  predicate AwaitsFor(call: Call, sid: string, dep: string) {
    AwaitsRecovery(call, sid) && call.input.row.depId == dep
  }

  /** The rows that await a heartbeat redeploy of this deployment of `sid`. */
  function Awaited(calls: map<nat, Call>, sid: string, dep: string): set<nat> {
    set t | t in calls && AwaitsFor(calls[t], sid, dep)
  }

  function Booked(w: Ticking, sid: string, dep: string): nat { Used(Objects(w.shared, sid), Some(dep)) }

  /** Booked and awaited redeploys of the deployment. */
  function Load(w: Ticking, sid: string, dep: string): nat { Booked(w, sid, dep) + |Awaited(w.calls, sid, dep)| }

  /** The move is a failed ping that begins a heartbeat redeploy of the deployment. */
  predicate BeginsFor(cfg: Config, w: Ticking, move: Move, sid: string, dep: string) {
    move.Resume? && move.tick in w.calls
    && var call := Replied(w.calls[move.tick], move.reply);
       BeginsRecovery(cfg, w.shared, call) && call.input.row.sid == sid && call.input.row.depId == dep
  }

  /** The move brings the answer to an awaited heartbeat redeploy of the deployment. */
  predicate AnswersFor(w: Ticking, move: Move, sid: string, dep: string) {
    move.Resume? && move.tick in Awaited(w.calls, sid, dep)
  }

  // ---------------------------------------------------------------- how the load changes

  lemma AwaitedStays(calls: map<nat, Call>, calls': map<nat, Call>, t: nat, sid: string, dep: string)
    requires forall u :: u != t ==> (u in calls <==> u in calls') && (u in calls ==> calls'[u] == calls[u])
    ensures Awaited(calls', sid, dep) - {t} == Awaited(calls, sid, dep) - {t}
  {
  }

  lemma AwaitedCount(before: set<nat>, after: set<nat>, t: nat)
    requires before - {t} == after - {t}
    ensures |after| + (if t in before then 1 else 0) == |before| + if t in after then 1 else 0
  {
    if t in before { assert |before - {t}| == |before| - 1; } else { assert before - {t} == before; }
    if t in after { assert |after - {t}| == |after| - 1; } else { assert after - {t} == after; }
  }

  /** What becomes of the row that moves. */
  lemma MoverAwaits(cfg: Config, w: Ticking, move: Move, sid: string, dep: string)
    requires Possible(w, move) && !move.Clean?
    ensures move.tick in Awaited(Perform(cfg, w, move).calls, sid, dep) <==> BeginsFor(cfg, w, move, sid, dep)
  {
    match move
    case Enter(t, r) => FromStartIsSilent(cfg, w.shared, r);
    case Resume(t, reply) =>
      var call := Replied(w.calls[t], reply);
      if call.stage.AwaitHeartbeat? {
        AnswerMeans(cfg, w.log, w.shared, call.input, call.stage.rec, sid);
      } else if !BeginsRecovery(cfg, w.shared, call) {
        ContinueIsSilent(cfg, w.shared, call);
      }
  }

  /** A begun redeploy adds one to the load; an answer takes one off, unless it is yes and so booked. */
  lemma LoadMoves(cfg: Config, w: Ticking, move: Move, sid: string, dep: string)
    requires Intact(w) && Possible(w, move)
    ensures var w' := Perform(cfg, w, move);
            Intact(w') && Load(w', sid, dep) + (if AnswersFor(w, move, sid, dep) then 1 else 0)
            == Load(w, sid, dep) + (if BeginsFor(cfg, w, move, sid, dep) then 1 else 0)
               + if Accepts(w, move, sid, Some(dep)) then 1 else 0
  {
    MoveBooks(cfg, w, move, sid, Some(dep));
    var w' := Perform(cfg, w, move);
    if !move.Clean? {
      AwaitedStays(w.calls, w'.calls, move.tick, sid, dep);
      AwaitedCount(Awaited(w.calls, sid, dep), Awaited(w'.calls, sid, dep), move.tick);
      MoverAwaits(cfg, w, move, sid, dep);
    }
  }

  // ---------------------------------------------------------------- answers

  /** Nothing happens but that awaited heartbeat redeploys, of any service, are answered. */
  predicate AnswersOnly(cfg: Config, start: Ticking, moves: seq<Move>) {
    moves == []
    || (var front, last := moves[..|moves| - 1], moves[|moves| - 1];
        var before := Overlapped(cfg, start, front);
        AnswersOnly(cfg, start, front) && before.Some?
        && last.Resume? && last.tick in before.value.calls && before.value.calls[last.tick].stage.AwaitHeartbeat?)
  }

  lemma {:induction false} AnswersDoNotLoad(cfg: Config, start: Ticking, moves: seq<Move>, w: Ticking, sid: string,
                                            dep: string)
    requires Intact(start) && Overlapped(cfg, start, moves) == Some(w) && AnswersOnly(cfg, start, moves)
    ensures Load(w, sid, dep) <= Load(start, sid, dep)
  {
    if moves != [] {
      var front, last := moves[..|moves| - 1], moves[|moves| - 1];
      var before := Overlapped(cfg, start, front).value;
      AlwaysIntact(cfg, start, front, before);
      AnswersDoNotLoad(cfg, start, front, before, sid, dep);
      LoadMoves(cfg, before, last, sid, dep);
    }
  }

  lemma OneMoreAnswer(cfg: Config, start: Ticking, moves: seq<Move>, w: Ticking, t: nat, reply: RowInput)
    requires Overlapped(cfg, start, moves) == Some(w) && AnswersOnly(cfg, start, moves)
    requires t in w.calls && w.calls[t].stage.AwaitHeartbeat?
    ensures AnswersOnly(cfg, start, moves + [Resume(t, reply)])
    ensures Overlapped(cfg, start, moves + [Resume(t, reply)]) == Some(Perform(cfg, w, Resume(t, reply)))
  {
    assert (moves + [Resume(t, reply)])[..|moves|] == moves;
  }

  /** Every awaited redeploy of the deployment is answered yes. */
  lemma AllAccepted(cfg: Config, start: Ticking, moves: seq<Move>, w: Ticking, sid: string, dep: string)
    returns (longer: seq<Move>, w': Ticking)
    requires Intact(w) && Overlapped(cfg, start, moves) == Some(w) && AnswersOnly(cfg, start, moves)
    ensures Overlapped(cfg, start, longer) == Some(w') && AnswersOnly(cfg, start, longer)
    ensures Booked(w', sid, dep) == Load(w, sid, dep)
    decreases |Awaited(w.calls, sid, dep)|
  {
    longer, w' := moves, w;
    if Awaited(w.calls, sid, dep) != {} {
      var t :| t in Awaited(w.calls, sid, dep);
      var reply := w.calls[t].input.(heartbeatDeployOk := true);
      var move := Resume(t, reply);
      OneMoreAnswer(cfg, start, moves, w, t, reply);
      LoadMoves(cfg, w, move, sid, dep);
      MoveBooks(cfg, w, move, sid, Some(dep));
      longer, w' := AllAccepted(cfg, start, moves + [move], Perform(cfg, w, move), sid, dep);
    }
  }

  /** Whatever the answers to what is awaited, the deployment's budget holds. */
  ghost predicate SafeWhateverAnswered(cfg: Config, w: Ticking, sid: string, dep: string) {
    forall moves :: AnswersOnly(cfg, w, moves) && Overlapped(cfg, w, moves).Some?
      ==> Booked(Overlapped(cfg, w, moves).value, sid, dep) <= cfg.maxRecover
  }

  /** At any moment: whatever the answers, the budget holds, if and only if booked and awaited fit into it. */
  lemma SafeIff(cfg: Config, w: Ticking, sid: string, dep: string)
    requires Intact(w)
    ensures SafeWhateverAnswered(cfg, w, sid, dep) <==> Load(w, sid, dep) <= cfg.maxRecover
  {
    if Load(w, sid, dep) <= cfg.maxRecover {
      forall moves | AnswersOnly(cfg, w, moves) && Overlapped(cfg, w, moves).Some?
        ensures Booked(Overlapped(cfg, w, moves).value, sid, dep) <= cfg.maxRecover
      {
        AnswersDoNotLoad(cfg, w, moves, Overlapped(cfg, w, moves).value, sid, dep);
      }
    } else {
      var none: seq<Move> := [];
      var longer, w' := AllAccepted(cfg, w, none, w, sid, dep);
      assert AnswersOnly(cfg, w, longer) && Overlapped(cfg, w, longer).Some?;
    }
  }

  // ---------------------------------------------------------------- whole runs

  /** At every moment of the run the budget holds whatever the answers. */
  ghost predicate AlwaysSafe(cfg: Config, moves: seq<Move>, sid: string, dep: string)
    requires Overlapped(cfg, IDLE, moves).Some?
  {
    SafeWhateverAnswered(cfg, Overlapped(cfg, IDLE, moves).value, sid, dep)
    && (moves != [] ==> AlwaysSafe(cfg, moves[..|moves| - 1], sid, dep))
  }

  /** Every redeploy of the deployment began while the booked and the awaited ones left room for it. */
  predicate BegunWithRoom(cfg: Config, moves: seq<Move>, sid: string, dep: string)
    requires Overlapped(cfg, IDLE, moves).Some?
  {
    moves == []
    || (var front, last := moves[..|moves| - 1], moves[|moves| - 1];
        var before := Overlapped(cfg, IDLE, front).value;
        BegunWithRoom(cfg, front, sid, dep)
        && (BeginsFor(cfg, before, last, sid, dep) ==> Load(before, sid, dep) < cfg.maxRecover))
  }

  /**
   For every run, however its ticks overlap, and every deployment of every service: the budget holds
   throughout, whatever the answers to the redeploys awaited, if and only if each redeploy began while
   those booked on the deployment's records and those awaited on them were fewer than the maximum.  (The
   guard in the code looks at the bookings of one record alone.)
   */
  lemma {:induction false} BudgetSafeIff(cfg: Config, moves: seq<Move>, w: Ticking, sid: string, dep: string)
    requires Overlapped(cfg, IDLE, moves) == Some(w)
    ensures AlwaysSafe(cfg, moves, sid, dep) <==> BegunWithRoom(cfg, moves, sid, dep)
    ensures AlwaysSafe(cfg, moves, sid, dep) ==> Accepted(w.log, sid, Some(dep)) <= cfg.maxRecover
  {
    AlwaysIntact(cfg, IDLE, moves, w);
    SafeIff(cfg, w, sid, dep);
    RecoveriesAreBooked(cfg, IDLE, moves, w, sid, Some(dep));
    if moves == [] {
      assert Awaited(w.calls, sid, dep) == {};
    } else {
      var front, last := moves[..|moves| - 1], moves[|moves| - 1];
      var before := Overlapped(cfg, IDLE, front).value;
      BudgetSafeIff(cfg, front, before, sid, dep);
      AlwaysIntact(cfg, IDLE, front, before);
      SafeIff(cfg, before, sid, dep);
      LoadMoves(cfg, before, last, sid, dep);
    }
  }
}
