/**
 Live statistics of a load test: a reader thread folds measurements into them, status polls sample
 them, and whichever of the two first notices that the process ended takes the final sample.
 Each locked section is one step.
 */
module LoadTest {
  import opened Percentile

  const SERIES_MAX := 2500
  const SAMPLE_GAP := 0.75

  datatype Sample = Sample(at: real, vus: int, avgMs: real)

  /** A parsed output line the reader understands. */
  datatype Line = HttpReq | ErrorChecks(count: int) | Duration(ms: real) | Vus(count: int)

  datatype Stats = Stats(
    running: bool,
    finished: bool,
    startedAt: real,
    requests: nat,
    errors: int,
    errorRate: real,
    avgMs: real,
    p95Ms: real,
    currentVus: int,
    durations: seq<real>,
    series: seq<Sample>,
    lastSampleAt: real)

  function Started(now: real): Stats { Stats(true, false, now, 0, 0, 0.0, 0.0, 0.0, 0, [], [], 0.0) }

  function SumOf(s: seq<real>): real { if s == [] then 0.0 else SumOf(s[..|s| - 1]) + s[|s| - 1] }

  function P95Index(n: nat): nat { n * 19 / 20 }

  function Capped<T>(s: seq<T>): seq<T> { if |s| > SERIES_MAX then s[|s| - SERIES_MAX..] else s }

  predicate Samples(s: Stats, force: bool, now: real) {
    s.startedAt > 0.0 && (force || (s.running && now - s.lastSampleAt >= SAMPLE_GAP))
  }

  function Sampled(s: Stats, force: bool, now: real): Stats {
    if !Samples(s, force, now) then s
    else s.(lastSampleAt := now, series := Capped(s.series + [Sample(now - s.startedAt, s.currentVus, s.avgMs)]))
  }

  function Closed(s: Stats, now: real): Stats { Sampled(s, true, now).(running := false, finished := true) }

  function AfterLine(s: Stats, line: Line): Stats {
    match line
    case HttpReq => s.(requests := s.requests + 1)
    case ErrorChecks(n) =>
      var errors := s.errors + n;
      s.(errors := errors,
         errorRate := if s.requests == 0 then s.errorRate
                      else if errors as real / s.requests as real > 1.0 then 1.0
                      else errors as real / s.requests as real)
    case Duration(ms) =>
      var all := s.durations + [ms];
      s.(durations := all, avgMs := SumOf(all) / |all| as real,
         p95Ms := if |all| >= 20 then Sort(all)[P95Index(|all|)] else s.p95Ms)
    case Vus(n) => s.(currentVus := n)
  }

  class Runner {
    var stats: Stats

    constructor (now: real)
      ensures stats == Started(now)
    {
      stats := Started(now);
    }

    method AppendSeriesSample(force: bool, now: real)
      modifies this
      ensures stats == Sampled(old(stats), force, now)
    {
      if stats.startedAt <= 0.0 { return; }
      if !force && !stats.running { return; }
      if !force && now - stats.lastSampleAt < SAMPLE_GAP { return; }
      var series := stats.series + [Sample(now - stats.startedAt, stats.currentVus, stats.avgMs)];
      if |series| > SERIES_MAX { series := series[|series| - SERIES_MAX..]; }
      stats := stats.(lastSampleAt := now, series := series);
    }

    method GetStatus(processEnded: bool, now: real)
      modifies this
      ensures stats == if processEnded && old(stats).running then Closed(old(stats), now)
                       else Sampled(old(stats), false, now)
    {
      if processEnded && stats.running {
        AppendSeriesSample(true, now);
        stats := stats.(running := false, finished := true);
      } else if stats.running {
        AppendSeriesSample(false, now);
      }
    }

    method ReadLine(line: Line)
      modifies this
      ensures stats == AfterLine(old(stats), line)
    {
      match line {
        case HttpReq => stats := stats.(requests := stats.requests + 1);
        case ErrorChecks(n) =>
          stats := stats.(errors := stats.errors + n);
          if stats.requests > 0 {
            var rate := stats.errors as real / stats.requests as real;
            stats := stats.(errorRate := if rate > 1.0 then 1.0 else rate);
          }
        case Duration(ms) =>
          stats := stats.(durations := stats.durations + [ms]);
          var n := |stats.durations|;
          stats := stats.(avgMs := SumOf(stats.durations) / n as real);
          if n >= 20 {
            var sorted := Sort(stats.durations);
            var index := n * 19 / 20;
            stats := stats.(p95Ms := sorted[if index < n - 1 then index else n - 1]);
          }
        case Vus(n) => stats := stats.(currentVus := n);
      }
    }

    method ReaderEnds(now: real)
      modifies this
      ensures stats == if old(stats).running then Closed(old(stats), now) else old(stats)
    {
      if stats.running {
        AppendSeriesSample(true, now);
        stats := stats.(running := false, finished := true);
      }
    }
  }

  // ---------------------------------------------------------------- one test run

  datatype Step = Poll(processEnded: bool, now: real) | Read(line: Line) | EndOfOutput(now: real)

  function Apply(s: Stats, step: Step): Stats {
    match step
    case Poll(processEnded, now) => if processEnded && s.running then Closed(s, now) else Sampled(s, false, now)
    case Read(line) => AfterLine(s, line)
    case EndOfOutput(now) => if s.running then Closed(s, now) else s
  }

  function After(now: real, steps: seq<Step>): Stats {
    if steps == [] then Started(now) else Apply(After(now, steps[..|steps| - 1]), steps[|steps| - 1])
  }

  /** The measurements read so far. */
  function Measured(steps: seq<Step>): seq<real> {
    if steps == [] then []
    else
      var last := steps[|steps| - 1];
      Measured(steps[..|steps| - 1]) + if last.Read? && last.line.Duration? then [last.line.ms] else []
  }

  /** The step takes the final sample and stops the run. */
  predicate Closes(s: Stats, step: Step) {
    s.running && (step.EndOfOutput? || (step.Poll? && step.processEnded))
  }

  function ClosingSteps(now: real, steps: seq<Step>): nat {
    if steps == [] then 0
    else
      var front := steps[..|steps| - 1];
      ClosingSteps(now, front) + if Closes(After(now, front), steps[|steps| - 1]) then 1 else 0
  }

  predicate SawEnd(steps: seq<Step>) {
    exists s <- steps :: s.EndOfOutput? || (s.Poll? && s.processEnded)
  }

  lemma SawEndStep(front: seq<Step>, last: Step)
    ensures SawEnd(front + [last]) <==> SawEnd(front) || last.EndOfOutput? || (last.Poll? && last.processEnded)
  {
    var steps := front + [last];
    assert forall s :: s in steps <==> s in front || s == last;
  }

  /**
   However polls and the reader interleave, a run that has noticed the end of its process has stopped
   exactly once, with exactly one final sample; a run that has not is still running with none.
   */
  lemma {:induction false} StopsExactlyOnce(now: real, steps: seq<Step>)
    ensures var s := After(now, steps);
            s.finished == !s.running == SawEnd(steps) && s.startedAt == now
            && ClosingSteps(now, steps) == (if SawEnd(steps) then 1 else 0)
            && |s.series| <= 2500
  {
    if steps != [] {
      var front, last := steps[..|steps| - 1], steps[|steps| - 1];
      StopsExactlyOnce(now, front);
      SawEndStep(front, last);
      assert steps == front + [last];
    }
  }

  /** After the end nothing is sampled any more, although late lines still count. */
  lemma {:induction false} SeriesIsFinal(now: real, steps: seq<Step>, more: seq<Step>)
    requires SawEnd(steps)
    ensures After(now, steps + more).series == After(now, steps).series && SawEnd(steps + more)
  {
    if more == [] {
      assert steps + more == steps;
    } else {
      var front := more[..|more| - 1];
      assert (steps + more)[..|steps + more| - 1] == steps + front;
      SeriesIsFinal(now, steps, front);
      StopsExactlyOnce(now, steps + front);
      assert forall s <- steps + front :: s in steps + more;
    }
  }

  /** The closing step's sample is the last of the series. */
  lemma FinalSampleIsLast(now: real, steps: seq<Step>, step: Step)
    requires now > 0.0 && Closes(After(now, steps), step)
    ensures var s, s' := After(now, steps), Apply(After(now, steps), step);
            s'.series != [] && s'.series[|s'.series| - 1] == Sample(step.now - now, s.currentVus, s.avgMs)
  {
    StopsExactlyOnce(now, steps);
  }

  /** `v` is one of `all`, at most 95% of them (rounded down) lie strictly below it, and more at or below. */
  ghost predicate IsP95(v: real, all: seq<real>) {
    v in all && Below(all, v) <= |all| * 95 / 100 < AtOrBelow(all, v)
  }

  lemma NewMeasurement(s: Stats, ms: real)
    ensures var s' := AfterLine(s, Duration(ms));
            s'.durations == s.durations + [ms]
            && (if |s'.durations| >= 20 then IsP95(s'.p95Ms, s'.durations) else s'.p95Ms == s.p95Ms)
  {
    var all := s.durations + [ms];
    if |all| >= 20 { RankOfSorted(all, P95Index(|all|)); }
  }

  lemma OtherSteps(s: Stats, step: Step)
    requires !(step.Read? && step.line.Duration?)
    ensures Apply(s, step).durations == s.durations && Apply(s, step).p95Ms == s.p95Ms
  {
  }

  /** The reported p95 is the 95th percentile of everything measured, and 0 before the 20th measurement. */
  lemma {:induction false} P95IsARank(now: real, steps: seq<Step>)
    ensures var s, all := After(now, steps), Measured(steps);
            s.durations == all && (if |all| >= 20 then IsP95(s.p95Ms, all) else s.p95Ms == 0.0)
  {
    if steps != [] {
      var front, last := steps[..|steps| - 1], steps[|steps| - 1];
      P95IsARank(now, front);
      if last.Read? && last.line.Duration? {
        NewMeasurement(After(now, front), last.line.ms);
      } else {
        OtherSteps(After(now, front), last);
      }
    }
  }

  /** The sum of a list adds up over its parts and is the measurement for a single one. */
  lemma {:induction false} SumIsAdditive(a: seq<real>, b: seq<real>, x: real)
    ensures SumOf(a + b) == SumOf(a) + SumOf(b) && SumOf([x]) == x
  {
    assert [x][..0] == [];
    if b == [] {
      assert a + b == a;
    } else {
      assert (a + b)[..|a + b| - 1] == a + b[..|b| - 1];
      SumIsAdditive(a, b[..|b| - 1], x);
    }
  }

  function RequestLines(steps: seq<Step>): nat {
    if steps == [] then 0
    else RequestLines(steps[..|steps| - 1]) + if steps[|steps| - 1] == Read(HttpReq) then 1 else 0
  }

  function ReportedErrors(steps: seq<Step>): int {
    if steps == [] then 0
    else
      var last := steps[|steps| - 1];
      ReportedErrors(steps[..|steps| - 1]) + if last.Read? && last.line.ErrorChecks? then last.line.count else 0
  }

  function Mean(all: seq<real>): real { if all == [] then 0.0 else SumOf(all) / |all| as real }

  /** Errors per request, capped; zero before the first request. */
  function Ratio(errors: int, requests: nat): real {
    if requests == 0 then 0.0
    else if errors as real / requests as real > 1.0 then 1.0 else errors as real / requests as real
  }

  /** The last step reads an error line with at least one request before it. */
  predicate Rates(steps: seq<Step>) {
    steps != [] && steps[|steps| - 1].Read? && steps[|steps| - 1].line.ErrorChecks? && RequestLines(steps) > 0
  }

  /** How many steps there are up to the last one that set the error rate. */
  function LastRated(steps: seq<Step>): (n: nat)
    ensures n <= |steps| && (n > 0 ==> Rates(steps[..n])) && forall k :: n < k <= |steps| ==> !Rates(steps[..k])
  {
    if steps == [] then 0
    else if Rates(steps) then
      assert steps[..|steps|] == steps;
      |steps|
    else
      var n := LastRated(steps[..|steps| - 1]);
      assert forall k :: 0 <= k <= |steps| - 1 ==> steps[..|steps| - 1][..k] == steps[..k];
      assert steps[..|steps|] == steps;
      n
  }

  function RateOf(steps: seq<Step>): real {
    var rated := steps[..LastRated(steps)];
    Ratio(ReportedErrors(rated), RequestLines(rated))
  }

  lemma RateStep(steps: seq<Step>)
    requires steps != []
    ensures RateOf(steps) == if Rates(steps) then Ratio(ReportedErrors(steps), RequestLines(steps))
                             else RateOf(steps[..|steps| - 1])
  {
    assert steps[..|steps|] == steps;
    if !Rates(steps) {
      assert steps[..|steps| - 1][..LastRated(steps)] == steps[..LastRated(steps)];
    }
  }

  /** What one step does to the totals, the average and the rate. */
  lemma StepTotals(s: Stats, step: Step)
    requires s.avgMs == Mean(s.durations)
    ensures var s' := Apply(s, step);
            s'.requests == s.requests + (if step == Read(HttpReq) then 1 else 0)
            && s'.errors == s.errors + (if step.Read? && step.line.ErrorChecks? then step.line.count else 0)
            && s'.errorRate == (if step.Read? && step.line.ErrorChecks? && s.requests > 0
                                then Ratio(s'.errors, s'.requests) else s.errorRate)
            && s'.avgMs == Mean(s'.durations)
  {
    if step.Read? && step.line.Duration? { assert AfterLine(s, step.line).durations == s.durations + [step.line.ms]; }
  }

  /**
   Whatever polls come between, the totals and the average are those of the lines read, and the error
   rate is errors per request as they stood at the last error line read after a request, at most 1.
   */
  lemma {:induction false} StatisticsAreHistory(now: real, steps: seq<Step>)
    ensures var s := After(now, steps);
            s.requests == RequestLines(steps) && s.errors == ReportedErrors(steps)
            && s.errorRate == RateOf(steps) <= 1.0 && s.avgMs == Mean(Measured(steps))
  {
    P95IsARank(now, steps);
    if steps != [] {
      var front, last := steps[..|steps| - 1], steps[|steps| - 1];
      StatisticsAreHistory(now, front);
      P95IsARank(now, front);
      StepTotals(After(now, front), last);
      RateStep(steps);
    }
  }

  // ---------------------------------------------------------------- the series

  /** The number of users last reported. */
  function LastVus(steps: seq<Step>): int {
    if steps == [] then 0
    else
      var last := steps[|steps| - 1];
      if last.Read? && last.line.Vus? then last.line.count else LastVus(steps[..|steps| - 1])
  }

  /** When the last sample was taken. */
  function LastSampleTime(now: real, steps: seq<Step>): real
    decreases steps, 0
  {
    if steps == [] then 0.0
    else if TakesSample(now, steps) then steps[|steps| - 1].now
    else LastSampleTime(now, steps[..|steps| - 1])
  }

  /**
   The last step takes a sample: it is the first to notice the end, or it is a poll before the end and no
   sample was taken in the last three quarters of a second.
   */
  predicate TakesSample(now: real, steps: seq<Step>)
    requires steps != []
    decreases steps, 0, 0
  {
    var front, last := steps[..|steps| - 1], steps[|steps| - 1];
    now > 0.0 && !SawEnd(front) && !last.Read?
    && (last.EndOfOutput? || last.processEnded || last.now >= LastSampleTime(now, front) + 0.75)
  }

  /** Every sample taken, each with the users and the average of its moment. */
  function AllSamples(now: real, steps: seq<Step>): seq<Sample> {
    if steps == [] then []
    else
      var front := steps[..|steps| - 1];
      AllSamples(now, front)
      + if TakesSample(now, steps)
        then [Sample(steps[|steps| - 1].now - now, LastVus(front), Mean(Measured(front)))] else []
  }

  predicate LastOf<T(==)>(kept: seq<T>, all: seq<T>, n: nat) {
    kept == if |all| <= n then all else all[|all| - n..]
  }

  lemma LastOfAppended<T>(kept: seq<T>, all: seq<T>, n: nat, x: T)
    requires n > 0 && LastOf(kept, all, n)
    ensures LastOf(if |kept| == n then kept[1..] + [x] else kept + [x], all + [x], n)
  {
  }

  predicate Due(s: Stats, step: Step) {
    s.startedAt > 0.0 && s.running && !step.Read?
    && (step.EndOfOutput? || step.processEnded || step.now >= s.lastSampleAt + 0.75)
  }

  /** The step takes a sample exactly when one is due, and keeps at most 2500. */
  ghost predicate SamplesWhenDue(s: Stats, s': Stats, step: Step) {
    if Due(s, step) then
      s'.lastSampleAt == step.now && s'.currentVus == s.currentVus
      && var x := Sample(step.now - s.startedAt, s.currentVus, s.avgMs);
         s'.series == if |s.series| == 2500 then s.series[1..] + [x] else s.series + [x]
    else
      s'.lastSampleAt == s.lastSampleAt && s'.series == s.series
      && s'.currentVus == if step.Read? && step.line.Vus? then step.line.count else s.currentVus
  }

  lemma SeriesStep(s: Stats, step: Step)
    requires |s.series| <= 2500 && s.finished == !s.running
    ensures SamplesWhenDue(s, Apply(s, step), step)
  {
  }

  /** What is sampled and kept so far is what the history says. */
  ghost predicate ShowsHistory(s: Stats, now: real, steps: seq<Step>) {
    LastOf(s.series, AllSamples(now, steps), 2500)
    && s.lastSampleAt == LastSampleTime(now, steps) && s.currentVus == LastVus(steps)
  }

  lemma SampleKept(s: Stats, s': Stats, step: Step, all: seq<Sample>)
    requires SamplesWhenDue(s, s', step) && LastOf(s.series, all, 2500)
    ensures LastOf(s'.series,
                   all + if Due(s, step) then [Sample(step.now - s.startedAt, s.currentVus, s.avgMs)] else [],
                   2500)
  {
    if Due(s, step) {
      LastOfAppended(s.series, all, 2500, Sample(step.now - s.startedAt, s.currentVus, s.avgMs));
    } else {
      assert all + [] == all;
    }
  }

  lemma StepShowsHistory(s: Stats, s': Stats, now: real, steps: seq<Step>)
    requires steps != [] && ShowsHistory(s, now, steps[..|steps| - 1])
    requires s.startedAt == now && s.finished == !s.running == SawEnd(steps[..|steps| - 1])
    requires s.avgMs == Mean(Measured(steps[..|steps| - 1])) && SamplesWhenDue(s, s', steps[|steps| - 1])
    ensures ShowsHistory(s', now, steps)
  {
    var front, last := steps[..|steps| - 1], steps[|steps| - 1];
    assert Due(s, last) == TakesSample(now, steps);
    SampleKept(s, s', last, AllSamples(now, front));
  }

  /**
   The series holds the last 2500 of the samples taken, and those are: one per poll that comes three
   quarters of a second or more after the sample before it, and the closing one.
   */
  lemma {:induction false} SeriesIsHistory(now: real, steps: seq<Step>)
    ensures ShowsHistory(After(now, steps), now, steps)
  {
    if steps != [] {
      var front := steps[..|steps| - 1];
      SeriesIsHistory(now, front);
      StopsExactlyOnce(now, front);
      StatisticsAreHistory(now, front);
      SeriesStep(After(now, front), steps[|steps| - 1]);
      StepShowsHistory(After(now, front), After(now, steps), now, steps);
    }
  }
}
