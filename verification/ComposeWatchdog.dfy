/**
 The Compose watchdog: start exited containers, restart those that stay unhealthy for several polls.
 A container whose `reload` fails aborts the tick, including the clean-up at its end.
 */
module ComposeWatchdog {
  import opened Products

  datatype RunState = Exited | Running | OtherState

  datatype Health = Unhealthy | HealthyOrNone | StartingOrOther

  /** A listed container as it stands after `reload`, and the answers Docker gives about it. */
  datatype Container = Container(id: string, reloads: bool, service: string, state: RunState, policy: string,
                                 health: Health, startOk: bool, restartOk: bool)

  datatype Config = Config(selfService: string, exclude: set<string>, unhealthyPolls: nat, onlyAlways: bool) {
    ghost predicate Valid() { unhealthyPolls >= 1 }
  }

  /** What a tick observed and did, in order. */
  datatype Effect =
    | SawUnhealthy(id: string)
    | SawHealthy(id: string)
    | Start(id: string, ok: bool)
    | Restart(id: string, ok: bool)
    | Listed(ids: set<string>)

  predicate ShouldRecoverExited(cfg: Config, policy: string) {
    if cfg.onlyAlways then policy == "always" else policy in ["always", "unless-stopped", "on-failure"]
  }

  predicate ShouldRestartUnhealthy(policy: string) {
    policy !in ["no", ""] && policy in ["always", "unless-stopped", "on-failure"]
  }

  predicate Monitored(cfg: Config, c: Container) {
    c.service != "" && c.service != cfg.selfService && c.service !in cfg.exclude
  }

  predicate Polled(cfg: Config, c: Container) {
    Monitored(cfg, c) && c.state.Running? && ShouldRestartUnhealthy(c.policy)
  }

  function StreakOf(streaks: map<string, nat>, id: string): nat { if id in streaks then streaks[id] else 0 }

  function Observed(cfg: Config, streaks: map<string, nat>, c: Container): map<string, nat> {
    if !Polled(cfg, c) || c.health.StartingOrOther? then streaks
    else if c.health.HealthyOrNone? then streaks[c.id := 0]
    else
      var n := StreakOf(streaks, c.id) + 1;
      streaks[c.id := if n >= cfg.unhealthyPolls then 0 else n]
  }

  function Effects(cfg: Config, streaks: map<string, nat>, c: Container): seq<Effect> {
    if Monitored(cfg, c) && c.state.Exited? && ShouldRecoverExited(cfg, c.policy) then [Start(c.id, c.startOk)]
    else if !Polled(cfg, c) || c.health.StartingOrOther? then []
    else if c.health.HealthyOrNone? then [SawHealthy(c.id)]
    else
      [SawUnhealthy(c.id)]
      + if StreakOf(streaks, c.id) + 1 >= cfg.unhealthyPolls then [Restart(c.id, c.restartOk)] else []
  }

  function Kept(streaks: map<string, nat>, ids: set<string>): map<string, nat> {
    map k | k in streaks && k in ids :: streaks[k]
  }

  // ---------------------------------------------------------------- runs

  datatype Step = Observe(c: Container) | Forget(seen: set<string>)

  datatype Outcome = Outcome(streaks: map<string, nat>, log: seq<Effect>)

  function Apply(cfg: Config, o: Outcome, step: Step): Outcome {
    match step
    case Observe(c) => Outcome(Observed(cfg, o.streaks, c), o.log + Effects(cfg, o.streaks, c))
    case Forget(seen) => Outcome(Kept(o.streaks, seen), o.log + [Listed(seen)])
  }

  function Run(cfg: Config, start: Outcome, steps: seq<Step>): Outcome {
    if steps == [] then start
    else Apply(cfg, Run(cfg, start, steps[..|steps| - 1]), steps[|steps| - 1])
  }

  /** The steps of one tick: the containers up to the first that fails to reload; the clean-up if none does. */
  function TickSteps(containers: seq<Container>): seq<Step> {
    TickFrom(containers, set c | c in containers :: c.id)
  }

  function TickFrom(containers: seq<Container>, seen: set<string>): seq<Step> {
    if containers == [] then [Forget(seen)]
    else if !containers[0].reloads then []
    else [Observe(containers[0])] + TickFrom(containers[1..], seen)
  }

  class Watchdog {
    var unhealthyStreak: map<string, nat>
    var log: seq<Effect>
    var instancesMonitored: nat

    function State(): Outcome
      reads this
    {
      Outcome(unhealthyStreak, log)
    }

    constructor ()
      ensures State() == Outcome(map[], [])
    {
      unhealthyStreak, log, instancesMonitored := map[], [], 0;
    }

    method Handle(cfg: Config, c: Container)
      modifies this`unhealthyStreak, this`log
      ensures State() == Apply(cfg, old(State()), Observe(c))
    {
      if c.state.Exited? && ShouldRecoverExited(cfg, c.policy) && Monitored(cfg, c) {
        log := log + [Start(c.id, c.startOk)];
        return;
      }
      if !Monitored(cfg, c) || !(c.state.Running? && ShouldRestartUnhealthy(c.policy)) { return; }
      if c.health.Unhealthy? {
        var n := (if c.id in unhealthyStreak then unhealthyStreak[c.id] else 0) + 1;
        unhealthyStreak := unhealthyStreak[c.id := n];
        log := log + [SawUnhealthy(c.id)];
        if n >= cfg.unhealthyPolls {
          log := log + [Restart(c.id, c.restartOk)];
          unhealthyStreak := unhealthyStreak[c.id := 0];
        }
        assert unhealthyStreak == Observed(cfg, old(unhealthyStreak), c);
        assert log == old(log) + Effects(cfg, old(unhealthyStreak), c);
      } else if c.health.HealthyOrNone? {
        unhealthyStreak := unhealthyStreak[c.id := 0];
        log := log + [SawHealthy(c.id)];
      }
    }

    /** `aborted` when a container could not be reloaded. */
    method Tick(cfg: Config, containers: seq<Container>) returns (aborted: bool)
      modifies this
      ensures State() == Run(cfg, old(State()), TickSteps(containers))
      ensures aborted <==> exists c :: c in containers && !c.reloads
      ensures !aborted ==> instancesMonitored == MonitoredCount(cfg, containers)
    {
      var seen := set c | c in containers :: c.id;
      var monitored := 0;
      ghost var done: seq<Step> := [];
      assert containers[0..] == containers;
      aborted := false;
      for i := 0 to |containers|
        invariant forall j :: 0 <= j < i ==> containers[j].reloads
        invariant TickSteps(containers) == done + TickFrom(containers[i..], seen)
        invariant State() == Run(cfg, old(State()), done)
        invariant MonitoredCount(cfg, containers) == monitored + MonitoredCount(cfg, containers[i..])
      {
        var c := containers[i];
        TickFromHere(cfg, containers, seen, i);
        if !c.reloads {
          assert TickSteps(containers) == done && c in containers;
          return true;
        }
        if Monitored(cfg, c) { monitored := monitored + 1; }
        RunOneMore(cfg, old(State()), done, Observe(c));
        Handle(cfg, c);
        done := done + [Observe(c)];
      }
      RunOneMore(cfg, old(State()), done, Forget(seen));
      unhealthyStreak := Kept(unhealthyStreak, seen);
      log := log + [Listed(seen)];
      instancesMonitored := monitored;
    }
  }

  lemma TickFromHere(cfg: Config, containers: seq<Container>, seen: set<string>, i: nat)
    requires i < |containers|
    ensures var c := containers[i];
            TickFrom(containers[i..], seen)
            == (if c.reloads then [Observe(c)] + TickFrom(containers[i + 1..], seen) else [])
            && MonitoredCount(cfg, containers[i..])
               == MonitoredCount(cfg, containers[i + 1..]) + if Monitored(cfg, c) then 1 else 0
  {
    assert containers[i..][0] == containers[i] && containers[i..][1..] == containers[i + 1..];
  }

  lemma RunOneMore(cfg: Config, start: Outcome, done: seq<Step>, step: Step)
    ensures Run(cfg, start, done + [step]) == Apply(cfg, Run(cfg, start, done), step)
  {
    assert (done + [step])[..|done|] == done;
  }

  function MonitoredCount(cfg: Config, containers: seq<Container>): nat {
    if containers == [] then 0
    else MonitoredCount(cfg, containers[1..]) + if Monitored(cfg, containers[0]) then 1 else 0
  }

  // ---------------------------------------------------------------- accounting

  /** Unhealthy observations of `id` since it last looked healthy, was restarted, or was not listed. */
  function UnhealthySince(log: seq<Effect>, id: string): nat {
    if log == [] then 0
    else
      var before := UnhealthySince(log[..|log| - 1], id);
      match log[|log| - 1]
      case SawUnhealthy(x) => if x == id then before + 1 else before
      case SawHealthy(x) => if x == id then 0 else before
      case Restart(x, _) => if x == id then 0 else before
      case Listed(ids) => if id in ids then before else 0
      case Start(_, _) => before
  }

  function UnhealthyObservations(log: seq<Effect>, id: string): nat { multiset(log)[SawUnhealthy(id)] }

  function RestartAttempts(log: seq<Effect>, id: string): nat {
    multiset(log)[Restart(id, true)] + multiset(log)[Restart(id, false)]
  }

  /** Every restart so far came at the `polls`-th unhealthy observation in a row. */
  ghost predicate RestartsDue(log: seq<Effect>, polls: nat, id: string) {
    log == []
    || (RestartsDue(log[..|log| - 1], polls, id)
        && (log[|log| - 1].Restart? && log[|log| - 1].id == id ==> UnhealthySince(log[..|log| - 1], id) == polls))
  }

  /** What one more effect does to each of the counts. */
  lemma AppendEffect(log: seq<Effect>, e: Effect, polls: nat, id: string)
    ensures UnhealthySince(log + [e], id)
            == (match e
                case SawUnhealthy(x) => UnhealthySince(log, id) + (if x == id then 1 else 0)
                case SawHealthy(x) => if x == id then 0 else UnhealthySince(log, id)
                case Restart(x, _) => if x == id then 0 else UnhealthySince(log, id)
                case Listed(ids) => if id in ids then UnhealthySince(log, id) else 0
                case Start(_, _) => UnhealthySince(log, id))
    ensures RestartsDue(log + [e], polls, id) <==>
              RestartsDue(log, polls, id) && (e.Restart? && e.id == id ==> UnhealthySince(log, id) == polls)
    ensures UnhealthyObservations(log + [e], id)
            == UnhealthyObservations(log, id) + (if e == SawUnhealthy(id) then 1 else 0)
    ensures RestartAttempts(log + [e], id) == RestartAttempts(log, id) + (if e.Restart? && e.id == id then 1 else 0)
  {
    assert (log + [e])[..|log|] == log;
  }

  /** `n` unhealthy observations since the last reset, every restart due, every restart paid for. */
  ghost predicate Balanced(log: seq<Effect>, polls: nat, n: nat, id: string) {
    n == UnhealthySince(log, id) && RestartsDue(log, polls, id)
    && Times(polls, RestartAttempts(log, id)) + n <= UnhealthyObservations(log, id)
  }

  /** The stored streak is what the log says it should be, and it is still below the threshold. */
  ghost predicate Accounts(cfg: Config, o: Outcome, id: string) {
    Balanced(o.log, cfg.unhealthyPolls, StreakOf(o.streaks, id), id)
    && StreakOf(o.streaks, id) < cfg.unhealthyPolls
  }

  lemma UnhealthyBalances(log: seq<Effect>, polls: nat, n: nat, id: string)
    requires Balanced(log, polls, n, id)
    ensures Balanced(log + [SawUnhealthy(id)], polls, n + 1, id)
  {
    AppendEffect(log, SawUnhealthy(id), polls, id);
  }

  lemma RestartBalances(log: seq<Effect>, polls: nat, ok: bool, id: string)
    requires Balanced(log, polls, polls, id)
    ensures Balanced(log + [Restart(id, ok)], polls, 0, id)
  {
    AppendEffect(log, Restart(id, ok), polls, id);
  }

  lemma HealthyBalances(log: seq<Effect>, polls: nat, n: nat, id: string)
    requires Balanced(log, polls, n, id)
    ensures Balanced(log + [SawHealthy(id)], polls, 0, id)
  {
    AppendEffect(log, SawHealthy(id), polls, id);
  }

  lemma ListingBalances(log: seq<Effect>, polls: nat, n: nat, ids: set<string>, id: string)
    requires Balanced(log, polls, n, id)
    ensures Balanced(log + [Listed(ids)], polls, if id in ids then n else 0, id)
  {
    AppendEffect(log, Listed(ids), polls, id);
  }

  lemma OtherBalances(log: seq<Effect>, e: Effect, polls: nat, n: nat, id: string)
    requires Balanced(log, polls, n, id) && !e.Listed? && (e.Start? || e.id != id)
    ensures Balanced(log + [e], polls, n, id)
  {
    AppendEffect(log, e, polls, id);
  }

  lemma OthersBalance(log: seq<Effect>, more: seq<Effect>, polls: nat, n: nat, id: string)
    requires Balanced(log, polls, n, id) && |more| <= 2
    requires forall e <- more :: !e.Listed? && (e.Start? || e.id != id)
    ensures Balanced(log + more, polls, n, id)
  {
    if more == [] {
      assert log + more == log;
    } else {
      OtherBalances(log, more[0], polls, n, id);
      if |more| == 2 {
        OtherBalances(log + [more[0]], more[1], polls, n, id);
        assert log + more == log + [more[0]] + [more[1]];
      } else {
        assert more == [more[0]];
      }
    }
  }

  lemma UnhealthyStepAccounts(cfg: Config, o: Outcome, c: Container)
    requires Accounts(cfg, o, c.id) && Polled(cfg, c) && c.health.Unhealthy?
    ensures Accounts(cfg, Apply(cfg, o, Observe(c)), c.id)
  {
    var n, polls := StreakOf(o.streaks, c.id), cfg.unhealthyPolls;
    UnhealthyBalances(o.log, polls, n, c.id);
    if n + 1 >= polls {
      RestartBalances(o.log + [SawUnhealthy(c.id)], polls, c.restartOk, c.id);
      assert o.log + Effects(cfg, o.streaks, c) == o.log + [SawUnhealthy(c.id)] + [Restart(c.id, c.restartOk)];
    } else {
      assert Effects(cfg, o.streaks, c) == [SawUnhealthy(c.id)];
    }
  }

  /** The observation says nothing about `id`. */
  predicate Irrelevant(cfg: Config, c: Container, id: string) {
    c.id == id ==> !Polled(cfg, c) || c.health.StartingOrOther?
  }

  lemma IrrelevantEffects(cfg: Config, streaks: map<string, nat>, c: Container, id: string)
    requires Irrelevant(cfg, c, id)
    ensures |Effects(cfg, streaks, c)| <= 2
    ensures forall e <- Effects(cfg, streaks, c) :: !e.Listed? && (e.Start? || e.id != id)
    ensures StreakOf(Observed(cfg, streaks, c), id) == StreakOf(streaks, id)
  {
  }

  lemma StepAccounts(cfg: Config, o: Outcome, step: Step, id: string)
    requires cfg.Valid() && Accounts(cfg, o, id)
    ensures Accounts(cfg, Apply(cfg, o, step), id)
  {
    var n := StreakOf(o.streaks, id);
    match step
    case Observe(c) =>
      if c.id == id && Polled(cfg, c) && c.health.Unhealthy? {
        UnhealthyStepAccounts(cfg, o, c);
      } else if c.id == id && Polled(cfg, c) && c.health.HealthyOrNone? {
        HealthyBalances(o.log, cfg.unhealthyPolls, n, id);
      } else {
        IrrelevantEffects(cfg, o.streaks, c, id);
        OthersBalance(o.log, Effects(cfg, o.streaks, c), cfg.unhealthyPolls, n, id);
      }
    case Forget(seen) =>
      ListingBalances(o.log, cfg.unhealthyPolls, n, seen, id);
  }

  lemma {:induction false} RunAccounts(cfg: Config, steps: seq<Step>, id: string)
    requires cfg.Valid()
    ensures Accounts(cfg, Run(cfg, Outcome(map[], []), steps), id)
  {
    if steps != [] {
      RunAccounts(cfg, steps[..|steps| - 1], id);
      StepAccounts(cfg, Run(cfg, Outcome(map[], []), steps[..|steps| - 1]), steps[|steps| - 1], id);
    }
  }

  /**
   Over any run of ticks, complete or aborted: a container's streak is the number of unhealthy
   observations since its last reset and stays below the threshold; a restart is attempted only at
   the threshold; and every attempt has used up `unhealthyPolls` observations of its own.
   */
  lemma StreakAccounting(cfg: Config, steps: seq<Step>, id: string)
    requires cfg.Valid()
    ensures var o := Run(cfg, Outcome(map[], []), steps);
            StreakOf(o.streaks, id) == UnhealthySince(o.log, id) < cfg.unhealthyPolls
            && RestartsDue(o.log, cfg.unhealthyPolls, id)
            && cfg.unhealthyPolls * RestartAttempts(o.log, id) <= UnhealthyObservations(o.log, id)
  {
    RunAccounts(cfg, steps, id);
    var o := Run(cfg, Outcome(map[], []), steps);
    var attempts := RestartAttempts(o.log, id);
    TimesBound(cfg.unhealthyPolls, attempts, attempts, UnhealthyObservations(o.log, id));
  }

  // ---------------------------------------------------------------- what the observations lead to

  /** The service has a name, is not the watchdog's own and is not excluded. */
  predicate Watched(cfg: Config, c: Container) { c.service !in cfg.exclude + {"", cfg.selfService} }

  predicate Revives(policy: string) { policy == "always" || policy == "unless-stopped" || policy == "on-failure" }

  /** How often in a row the container was seen unhealthy, as far as it has not been restarted for it. */
  function UnhealthyInARow(cfg: Config, steps: seq<Step>, id: string): nat {
    if steps == [] then 0
    else
      var before := UnhealthyInARow(cfg, steps[..|steps| - 1], id);
      match steps[|steps| - 1]
      case Forget(seen) => if id in seen then before else 0
      case Observe(c) =>
        if c.id != id || !Watched(cfg, c) || !c.state.Running? || !Revives(c.policy) then before
        else match c.health
             case HealthyOrNone => 0
             case StartingOrOther => before
             case Unhealthy => if before + 1 < cfg.unhealthyPolls then before + 1 else 0
  }

  /** In every run the stored streak is the one the observations give. */
  lemma {:induction false} StreakIsHistory(cfg: Config, steps: seq<Step>, id: string)
    ensures StreakOf(Run(cfg, Outcome(map[], []), steps).streaks, id) == UnhealthyInARow(cfg, steps, id)
  {
    if steps != [] { StreakIsHistory(cfg, steps[..|steps| - 1], id); }
  }

  /**
   What one more observation leads to: an exited container is started if its policy revives it (under the
   switch, only for "always"); a running one is restarted exactly at the `unhealthyPolls`-th unhealthy
   observation in a row; nothing is done to a container that is not watched.
   */
  lemma ObservationLeadsTo(cfg: Config, steps: seq<Step>, c: Container)
    ensures var log := Run(cfg, Outcome(map[], []), steps).log;
            Run(cfg, Outcome(map[], []), steps + [Observe(c)]).log
            == log + if !Watched(cfg, c) then []
                     else match c.state
                          case Exited =>
                            if c.policy == "always" || (!cfg.onlyAlways && Revives(c.policy))
                            then [Start(c.id, c.startOk)] else []
                          case Running =>
                            if !Revives(c.policy) || c.health.StartingOrOther? then []
                            else if c.health.HealthyOrNone? then [SawHealthy(c.id)]
                            else if UnhealthyInARow(cfg, steps, c.id) + 1 < cfg.unhealthyPolls then [SawUnhealthy(c.id)]
                            else [SawUnhealthy(c.id), Restart(c.id, c.restartOk)]
                          case OtherState => []
  {
    StreakIsHistory(cfg, steps, c.id);
    RunOneMore(cfg, Outcome(map[], []), steps, Observe(c));
  }

  /** A tick looks at the containers before the first that fails to reload, and cleans up if there is none. */
  lemma {:induction false} TickLooksAt(containers: seq<Container>, seen: set<string>, n: nat)
    requires n <= |containers| && forall j :: 0 <= j < n ==> containers[j].reloads
    requires n < |containers| ==> !containers[n].reloads
    ensures var steps := TickFrom(containers, seen);
            |steps| == (if n == |containers| then n + 1 else n)
            && (forall j :: 0 <= j < n ==> steps[j] == Observe(containers[j]))
            && (n == |containers| ==> steps[n] == Forget(seen))
    ensures TickSteps(containers) == TickFrom(containers, set j | 0 <= j < |containers| :: containers[j].id)
  {
    assert (set c | c in containers :: c.id) == set j | 0 <= j < |containers| :: containers[j].id;
    if n > 0 { TickLooksAt(containers[1..], seen, n - 1); }
  }

  /** The number shown as monitored adds up over the list and is 1 for a watched container, else 0. */
  lemma {:induction false} MonitoredAddsUp(cfg: Config, a: seq<Container>, b: seq<Container>, c: Container)
    ensures MonitoredCount(cfg, a + b) == MonitoredCount(cfg, a) + MonitoredCount(cfg, b)
    ensures MonitoredCount(cfg, [c]) == if Watched(cfg, c) then 1 else 0
  {
    if a == [] {
      assert a + b == b;
    } else {
      assert (a + b)[1..] == a[1..] + b;
      MonitoredAddsUp(cfg, a[1..], b, c);
    }
  }
}
