/**
 How stale a redirect can be when handlers interleave, crash between their steps and lose Redis
 operations: every handler is a small program, and any handler may take its next step at any time.
 */
module RedirectStaleness {
  import opened Wrappers
  import RedirectCache

  const TTL := RedirectCache.REDIRECT_TTL

  /** What a row says about its short code. */
  datatype Target = Target(url: string, active: bool)

  /** A committed value of a row, and when it was committed; the table's whole history, oldest first. */
  datatype Version = Version(code: string, target: Target, from: int)

  /** A cache entry; `readAt` remembers when its value was read from the table. */
  datatype Entry = Entry(target: Target, expiresAt: int, readAt: int)

  /** Where a handler stands. */
  datatype Handler =
    | LookInCache(code: string)
    | ReadRow(code: string)
    | FillCache(code: string, target: Target, readAt: int)
    | CommitNew(code: string, url: string)
    | CommitChange(code: string, target: Target)
    | Invalidate(code: string)

  datatype Process = Process(handler: Handler, startedAt: int)

  datatype World = World(now: int, versions: seq<Version>, cache: map<string, Entry>, processes: map<nat, Process>)

  const INITIAL_WORLD := World(0, [], map[], map[])

  datatype Step =
    | Tick(seconds: nat)
    | Arrive(pid: nat, handler: Handler)
    | Advance(pid: nat, redisOk: bool)
    | Crash(pid: nat)

  /** The row's present value. */
  function Current(versions: seq<Version>, code: string): Option<Target> {
    if versions == [] then None
    else
      var last := versions[|versions| - 1];
      if last.code == code then Some(last.target) else Current(versions[..|versions| - 1], code)
  }

  predicate Live(w: World, code: string) { code in w.cache && w.now < w.cache[code].expiresAt }

  predicate Starts(h: Handler) { h.LookInCache? || h.CommitNew? || h.CommitChange? }

  /** No handler lasts longer than `d` seconds. */
  ghost predicate WithinDeadline(w: World, d: nat) {
    forall pid :: pid in w.processes ==> w.now - w.processes[pid].startedAt <= d
  }

  ghost predicate Enabled(w: World, step: Step, d: nat) {
    match step
    case Tick(seconds) => WithinDeadline(w.(now := w.now + seconds), d)
    case Arrive(pid, h) => pid !in w.processes && Starts(h)
    case Advance(pid, _) => pid in w.processes
    case Crash(pid) => pid in w.processes
  }

  function Next(w: World, pid: nat, h: Handler): World
    requires pid in w.processes
  {
    w.(processes := w.processes[pid := w.processes[pid].(handler := h)])
  }

  function Finished(w: World, pid: nat): World { w.(processes := w.processes - {pid}) }

  function Advanced(w: World, pid: nat, redisOk: bool): World
    requires pid in w.processes
  {
    match w.processes[pid].handler
    case LookInCache(code) => if redisOk && Live(w, code) then Finished(w, pid) else Next(w, pid, ReadRow(code))
    case ReadRow(code) =>
      var row := Current(w.versions, code);
      if row.None? then Finished(w, pid) else Next(w, pid, FillCache(code, row.value, w.now))
    case FillCache(code, target, readAt) =>
      Finished(if redisOk then w.(cache := w.cache[code := Entry(target, w.now + TTL, readAt)]) else w, pid)
    case CommitNew(code, url) =>
      if Current(w.versions, code).Some? then Finished(w, pid)
      else Next(w.(versions := w.versions + [Version(code, Target(url, true), w.now)]), pid,
                FillCache(code, Target(url, true), w.now))
    case CommitChange(code, target) =>
      if Current(w.versions, code).None? then Finished(w, pid)
      else Next(w.(versions := w.versions + [Version(code, target, w.now)]), pid, Invalidate(code))
    case Invalidate(code) =>
      Finished(if redisOk then w.(cache := w.cache - {code}) else w, pid)
  }

  function Apply(w: World, step: Step): World
    requires step.Advance? ==> step.pid in w.processes
  {
    match step
    case Tick(seconds) => w.(now := w.now + seconds)
    case Arrive(pid, h) => w.(processes := w.processes[pid := Process(h, w.now)])
    case Advance(pid, redisOk) => Advanced(w, pid, redisOk)
    case Crash(pid) => Finished(w, pid)
  }

  ghost function Run(steps: seq<Step>, d: nat): Option<World> {
    if steps == [] then Some(INITIAL_WORLD)
    else
      var before := Run(steps[..|steps| - 1], d);
      if before.Some? && Enabled(before.value, steps[|steps| - 1], d)
      then Some(Apply(before.value, steps[|steps| - 1])) else None
  }

  // ---------------------------------------------------------------- what a read may return

  /** At moment `t` the row of `code` said `target` (at a commit, both the old and the new value count). */
  ghost predicate HeldAt(versions: seq<Version>, code: string, target: Target, t: int) {
    exists i :: 0 <= i < |versions| && versions[i].code == code && versions[i].target == target
                && versions[i].from <= t
                && forall j :: i < j < |versions| && versions[j].code == code ==> t <= versions[j].from
  }

  ghost predicate Past(versions: seq<Version>, now: int) {
    forall v <- versions :: v.from <= now
  }

  /** A later commit does not rewrite the past, and a commit to another row not even the present. */
  lemma HeldSurvivesCommit(versions: seq<Version>, v: Version, code: string, target: Target, t: int)
    requires HeldAt(versions, code, target, t) && (v.code == code ==> t <= v.from)
    ensures HeldAt(versions + [v], code, target, t)
  {
    var i :| 0 <= i < |versions| && versions[i].code == code && versions[i].target == target
             && versions[i].from <= t
             && forall j :: i < j < |versions| && versions[j].code == code ==> t <= versions[j].from;
    assert (versions + [v])[i] == versions[i];
  }

  lemma HeldFromCommit(versions: seq<Version>, v: Version, t: int)
    requires v.from <= t
    ensures HeldAt(versions + [v], v.code, v.target, t)
  {
    assert (versions + [v])[|versions|] == v;
  }

  lemma {:induction false} CurrentIsHeldNow(versions: seq<Version>, code: string, now: int)
    requires Past(versions, now) && Current(versions, code).Some?
    ensures HeldAt(versions, code, Current(versions, code).value, now)
  {
    var front, last := versions[..|versions| - 1], versions[|versions| - 1];
    assert versions == front + [last] && last in versions;
    if last.code == code {
      HeldFromCommit(front, last, now);
    } else {
      assert forall v <- front :: v in versions;
      CurrentIsHeldNow(front, code, now);
      HeldSurvivesCommit(front, last, code, Current(front, code).value, now);
    }
  }

  // ---------------------------------------------------------------- the invariant

  ghost predicate EntryOk(w: World, code: string, e: Entry, d: nat) {
    e.readAt <= w.now && e.expiresAt - TTL - e.readAt <= d && HeldAt(w.versions, code, e.target, e.readAt)
  }

  ghost predicate HandlerOk(w: World, p: Process) {
    p.handler.FillCache? ==>
      p.startedAt <= p.handler.readAt <= w.now
      && HeldAt(w.versions, p.handler.code, p.handler.target, p.handler.readAt)
  }

  ghost predicate Inv(w: World, d: nat) {
    Past(w.versions, w.now) && WithinDeadline(w, d)
    && (forall pid :: pid in w.processes ==> w.processes[pid].startedAt <= w.now && HandlerOk(w, w.processes[pid]))
    && (forall code :: code in w.cache ==> EntryOk(w, code, w.cache[code], d))
  }

  lemma CommitKeepsInv(w: World, v: Version, d: nat)
    requires Inv(w, d) && v.from == w.now
    ensures Inv(w.(versions := w.versions + [v]), d)
    ensures HeldAt(w.versions + [v], v.code, v.target, w.now)
  {
    var w' := w.(versions := w.versions + [v]);
    HeldFromCommit(w.versions, v, w.now);
    forall code | code in w.cache ensures EntryOk(w', code, w.cache[code], d) {
      HeldSurvivesCommit(w.versions, v, code, w.cache[code].target, w.cache[code].readAt);
    }
    forall pid | pid in w.processes ensures HandlerOk(w', w.processes[pid]) {
      var h := w.processes[pid].handler;
      if h.FillCache? { HeldSurvivesCommit(w.versions, v, h.code, h.target, h.readAt); }
    }
  }

  lemma ReadKeepsInv(w: World, pid: nat, code: string, d: nat)
    requires Inv(w, d) && pid in w.processes && Current(w.versions, code).Some?
    ensures Inv(Next(w, pid, FillCache(code, Current(w.versions, code).value, w.now)), d)
  {
    CurrentIsHeldNow(w.versions, code, w.now);
  }

  lemma FillKeepsInv(w: World, pid: nat, d: nat)
    requires Inv(w, d) && pid in w.processes && w.processes[pid].handler.FillCache?
    ensures var h := w.processes[pid].handler;
            Inv(w.(cache := w.cache[h.code := Entry(h.target, w.now + TTL, h.readAt)]), d)
  {
    var h := w.processes[pid].handler;
    assert HandlerOk(w, w.processes[pid]);
    assert EntryOk(w, h.code, Entry(h.target, w.now + TTL, h.readAt), d);
  }

  lemma FinishKeepsInv(w: World, pid: nat, d: nat)
    requires Inv(w, d)
    ensures Inv(Finished(w, pid), d)
  {
  }

  lemma NextKeepsInv(w: World, pid: nat, h: Handler, d: nat)
    requires Inv(w, d) && pid in w.processes && HandlerOk(w, w.processes[pid].(handler := h))
    ensures Inv(Next(w, pid, h), d)
  {
  }

  lemma CacheStepKeepsInv(w: World, pid: nat, redisOk: bool, d: nat)
    requires Inv(w, d) && pid in w.processes
    requires w.processes[pid].handler.FillCache? || w.processes[pid].handler.Invalidate?
    ensures Inv(Advanced(w, pid, redisOk), d)
  {
    FinishKeepsInv(w, pid, d);
    match w.processes[pid].handler
    case FillCache(code, target, readAt) =>
      FillKeepsInv(w, pid, d);
      FinishKeepsInv(w.(cache := w.cache[code := Entry(target, w.now + TTL, readAt)]), pid, d);
    case Invalidate(code) =>
      FinishKeepsInv(w.(cache := w.cache - {code}), pid, d);
  }

  lemma CommitStepKeepsInv(w: World, pid: nat, redisOk: bool, d: nat)
    requires Inv(w, d) && pid in w.processes
    requires w.processes[pid].handler.CommitNew? || w.processes[pid].handler.CommitChange?
    ensures Inv(Advanced(w, pid, redisOk), d)
  {
    FinishKeepsInv(w, pid, d);
    match w.processes[pid].handler
    case CommitNew(code, url) =>
      var v := Version(code, Target(url, true), w.now);
      CommitKeepsInv(w, v, d);
      NextKeepsInv(w.(versions := w.versions + [v]), pid, FillCache(code, v.target, w.now), d);
    case CommitChange(code, target) =>
      var v := Version(code, target, w.now);
      CommitKeepsInv(w, v, d);
      NextKeepsInv(w.(versions := w.versions + [v]), pid, Invalidate(code), d);
  }

  lemma AdvanceKeepsInv(w: World, pid: nat, redisOk: bool, d: nat)
    requires Inv(w, d) && pid in w.processes
    ensures Inv(Advanced(w, pid, redisOk), d)
  {
    FinishKeepsInv(w, pid, d);
    match w.processes[pid].handler
    case LookInCache(code) => NextKeepsInv(w, pid, ReadRow(code), d);
    case ReadRow(code) => if Current(w.versions, code).Some? { ReadKeepsInv(w, pid, code, d); }
    case FillCache(_, _, _) => CacheStepKeepsInv(w, pid, redisOk, d);
    case Invalidate(_) => CacheStepKeepsInv(w, pid, redisOk, d);
    case CommitNew(_, _) => CommitStepKeepsInv(w, pid, redisOk, d);
    case CommitChange(_, _) => CommitStepKeepsInv(w, pid, redisOk, d);
  }

  lemma {:induction false} RunKeepsInv(steps: seq<Step>, d: nat)
    requires Run(steps, d).Some?
    ensures Inv(Run(steps, d).value, d)
  {
    if steps != [] {
      var front, last := steps[..|steps| - 1], steps[|steps| - 1];
      RunKeepsInv(front, d);
      if last.Advance? { AdvanceKeepsInv(Run(front, d).value, last.pid, last.redisOk, d); }
    }
  }

  /** The row said `target` at some moment of the last `span` seconds. */
  ghost predicate HeldWithin(w: World, code: string, target: Target, span: nat) {
    exists t :: w.now - span <= t <= w.now && HeldAt(w.versions, code, target, t)
  }

  /**
   Whatever interleaves, crashes or fails, a cache hit returns what the row said less than the time to
   live plus one handler's duration ago.
   */
  lemma StalenessIsBounded(steps: seq<Step>, d: nat, code: string)
    requires Run(steps, d).Some? && Live(Run(steps, d).value, code)
    ensures var w := Run(steps, d).value;
            HeldWithin(w, code, w.cache[code].target, TTL + d - 1)
  {
    RunKeepsInv(steps, d);
  }

  // ---------------------------------------------------------------- what staleness is due to

  /** No DEL is lost or skipped by a crash, and a value is cached only while the row still has it. */
  ghost predicate Careful(w: World, step: Step) {
    match step
    case Advance(pid, redisOk) =>
      pid in w.processes
      && var h := w.processes[pid].handler;
         (h.Invalidate? ==> redisOk) && (h.FillCache? && redisOk ==> Current(w.versions, h.code) == Some(h.target))
    case Crash(pid) => pid in w.processes && !w.processes[pid].handler.Invalidate?
    case _ => true
  }

  ghost predicate AllCareful(steps: seq<Step>, d: nat)
    requires Run(steps, d).Some?
  {
    steps == []
    || (AllCareful(steps[..|steps| - 1], d) && Careful(Run(steps[..|steps| - 1], d).value, steps[|steps| - 1]))
  }

  ghost predicate BeingInvalidated(processes: map<nat, Process>, code: string) {
    exists pid :: pid in processes && processes[pid].handler == Invalidate(code)
  }

  lemma CurrentAfterCommit(versions: seq<Version>, v: Version, code: string)
    ensures Current(versions + [v], code) == if v.code == code then Some(v.target) else Current(versions, code)
  {
    assert (versions + [v])[..|versions|] == versions;
  }

  /** A handler that was not deleting moves on or ends. */
  lemma StillInvalidated(processes: map<nat, Process>, pid: nat, p: Process, code: string)
    requires BeingInvalidated(processes, code) && (pid in processes ==> processes[pid].handler != Invalidate(code))
    ensures BeingInvalidated(processes[pid := p], code) && BeingInvalidated(processes - {pid}, code)
  {
    var other :| other in processes && processes[other].handler == Invalidate(code);
    assert processes[pid := p][other].handler == Invalidate(code);
    assert (processes - {pid})[other].handler == Invalidate(code);
  }

  /** The entry for `code`, if any, is fresh or about to be deleted. */
  ghost predicate FreshFor(w: World, code: string) {
    code in w.cache ==>
      Current(w.versions, code) == Some(w.cache[code].target) || BeingInvalidated(w.processes, code)
  }

  lemma CommitStaysFresh(w: World, pid: nat, redisOk: bool, code: string)
    requires pid in w.processes && FreshFor(w, code)
    requires w.processes[pid].handler.CommitNew? || w.processes[pid].handler.CommitChange?
    ensures FreshFor(Advanced(w, pid, redisOk), code)
  {
    var h, w' := w.processes[pid].handler, Advanced(w, pid, redisOk);
    if w'.versions != w.versions {
      CurrentAfterCommit(w.versions, w'.versions[|w.versions|], code);
      assert pid in w'.processes;
      if h.CommitChange? && h.code == code { assert w'.processes[pid].handler == Invalidate(code); }
    }
    if BeingInvalidated(w.processes, code) {
      StillInvalidated(w.processes, pid, if pid in w'.processes then w'.processes[pid] else w.processes[pid], code);
    }
  }

  lemma AdvanceStaysFresh(w: World, pid: nat, redisOk: bool, code: string)
    requires pid in w.processes && FreshFor(w, code) && Careful(w, Advance(pid, redisOk))
    ensures FreshFor(Advanced(w, pid, redisOk), code)
  {
    var p, w' := w.processes[pid], Advanced(w, pid, redisOk);
    if p.handler.CommitNew? || p.handler.CommitChange? {
      CommitStaysFresh(w, pid, redisOk, code);
    } else if BeingInvalidated(w.processes, code) && p.handler != Invalidate(code) {
      StillInvalidated(w.processes, pid, if pid in w'.processes then w'.processes[pid] else p, code);
    }
  }

  lemma StepStaysFresh(w: World, step: Step, d: nat, code: string)
    requires Enabled(w, step, d) && FreshFor(w, code) && Careful(w, step)
    ensures FreshFor(Apply(w, step), code)
  {
    match step
    case Tick(_) =>
    case Advance(pid, redisOk) => AdvanceStaysFresh(w, pid, redisOk, code);
    case Arrive(pid, h) =>
      if BeingInvalidated(w.processes, code) { StillInvalidated(w.processes, pid, Process(h, w.now), code); }
    case Crash(pid) =>
      if BeingInvalidated(w.processes, code) { StillInvalidated(w.processes, pid, w.processes[pid], code); }
  }

  /**
   Over any interleaving in which no DEL is lost or skipped and no value is cached after its row changed,
   whatever GETs and SETEXs fail and whatever else crashes, every entry shows its row as it is, except
   while the handler that changed the row has yet to delete it.
   */
  lemma {:induction false} StalenessHasACause(steps: seq<Step>, d: nat, code: string)
    requires Run(steps, d).Some? && AllCareful(steps, d)
    ensures FreshFor(Run(steps, d).value, code)
  {
    if steps != [] {
      var front := steps[..|steps| - 1];
      StalenessHasACause(front, d, code);
      StepStaysFresh(Run(front, d).value, steps[|steps| - 1], d, code);
    }
  }

  // ---------------------------------------------------------------- the bound is reached

  lemma Extend(steps: seq<Step>, w: World, step: Step, d: nat)
    requires Run(steps, d) == Some(w) && Enabled(w, step, d)
    ensures Run(steps + [step], d) == Some(Apply(w, step))
  {
    assert (steps + [step])[..|steps|] == steps;
  }

  const A := Target("https://a.example", true)
  const B := Target("https://b.example", true)

  /** A create that loses its SETEX, then a redirect that has read the row but not yet cached it. */
  lemma SlowReader(d: nat) returns (steps: seq<Step>, w: World)
    ensures Run(steps, d) == Some(w)
    ensures w == World(0, [Version("c", A, 0)], map[], map[1 := Process(FillCache("c", A, 0), 0)])
  {
    var w1 := Apply(INITIAL_WORLD, Arrive(0, CommitNew("c", A.url)));
    assert w1.processes == map[0 := Process(CommitNew("c", A.url), 0)];
    var w2 := Apply(w1, Advance(0, true));
    assert w2.processes == map[0 := Process(FillCache("c", A, 0), 0)];
    var w3 := Apply(w2, Advance(0, false));
    assert w3.processes == map[];
    var w4 := Apply(w3, Arrive(1, LookInCache("c")));
    assert w4.processes == map[1 := Process(LookInCache("c"), 0)];
    var w5 := Apply(w4, Advance(1, true));
    assert w5.processes == map[1 := Process(ReadRow("c"), 0)];
    w := Apply(w5, Advance(1, true));
    Extend([], INITIAL_WORLD, Arrive(0, CommitNew("c", A.url)), d);
    steps := [] + [Arrive(0, CommitNew("c", A.url))];
    Extend(steps, w1, Advance(0, true), d);
    steps := steps + [Advance(0, true)];
    Extend(steps, w2, Advance(0, false), d);
    steps := steps + [Advance(0, false)];
    Extend(steps, w3, Arrive(1, LookInCache("c")), d);
    steps := steps + [Arrive(1, LookInCache("c"))];
    Extend(steps, w4, Advance(1, true), d);
    steps := steps + [Advance(1, true)];
    Extend(steps, w5, Advance(1, true), d);
    steps := steps + [Advance(1, true)];
  }

  /** While that reader is slow, the row is changed and the (still empty) cache invalidated. */
  lemma UpdateBehindReader(d: nat) returns (steps: seq<Step>, w: World)
    ensures Run(steps, d) == Some(w)
    ensures w == World(0, [Version("c", A, 0), Version("c", B, 0)], map[], map[1 := Process(FillCache("c", A, 0), 0)])
  {
    var w0;
    steps, w0 := SlowReader(d);
    var p := Process(FillCache("c", A, 0), 0);
    var w1 := Apply(w0, Arrive(2, CommitChange("c", B)));
    assert Current(w0.versions, "c") == Some(A);
    var w2 := Apply(w1, Advance(2, true));
    assert w2.versions == [Version("c", A, 0), Version("c", B, 0)];
    assert w2.processes == map[1 := p, 2 := Process(Invalidate("c"), 0)];
    w := Apply(w2, Advance(2, true));
    assert w.processes == map[1 := p];
    Extend(steps, w0, Arrive(2, CommitChange("c", B)), d);
    steps := steps + [Arrive(2, CommitChange("c", B))];
    Extend(steps, w1, Advance(2, true), d);
    steps := steps + [Advance(2, true)];
    Extend(steps, w2, Advance(2, true), d);
    steps := steps + [Advance(2, true)];
  }

  /**
   No smaller bound holds: for every duration `d` there is a run, without a single Redis failure after
   the update and with the update long finished, in which a live entry is that stale.
   */
  lemma StalenessBoundIsSharp(d: nat)
    ensures exists steps :: Run(steps, d).Some?
              && Live(Run(steps, d).value, "c")
              && !HeldWithin(Run(steps, d).value, "c", Run(steps, d).value.cache["c"].target, 300 + d - 2)
  {
    var steps, w0 := UpdateBehindReader(d);
    var w1 := Apply(w0, Tick(d));
    Extend(steps, w0, Tick(d), d);
    steps := steps + [Tick(d)];
    var w2 := Apply(w1, Advance(1, true));
    Extend(steps, w1, Advance(1, true), d);
    steps := steps + [Advance(1, true)];
    assert w2.processes == map[] && w2.cache["c"] == Entry(A, d + TTL, 0);
    var w3 := Apply(w2, Tick(TTL - 1));
    Extend(steps, w2, Tick(TTL - 1), d);
    steps := steps + [Tick(TTL - 1)];
    forall t | HeldAt(w3.versions, "c", A, t) ensures t <= 0 {
      var i :| 0 <= i < |w3.versions| && w3.versions[i].code == "c" && w3.versions[i].target == A
               && w3.versions[i].from <= t
               && forall j :: i < j < |w3.versions| && w3.versions[j].code == "c" ==> t <= w3.versions[j].from;
      assert i == 0 && w3.versions[1].code == "c";
    }
    assert Run(steps, d) == Some(w3) && w3.now == d + TTL - 1;
  }
}
