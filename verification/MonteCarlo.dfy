/** The Monte-Carlo yield engine: how many variants run, when a run stops, and the tier its yield is graded at. */
module MonteCarlo {
  import opened Optional
  import opened Reals
  import opened Wilson

  datatype VariantOutcome = Pass | Fail | Errored

  datatype Bars = Bars(robustMin: real, marginalMin: real)

  datatype Options = Options(n: Option<int>, minRuns: Option<int>, ciStop: Option<real>, bars: Option<Bars>)

  datatype Summary = Summary(total: nat, evaluated: nat, passed: nat, failed: nat, errored: nat, share: real,
      ci95: Interval)

  datatype Report = Report(summary: Summary, stoppedEarly: bool, ran: nat)

  datatype Tier = Robust | Marginal | AtRisk | Unknown

  const ABSOLUTE_MAX_RUNS := 50000
  const ERRORED_ATTEMPT_HEADROOM := 3

  function MaxInt(a: int, b: int): int {
    if a >= b then a else b
  }

  function MinInt(a: int, b: int): int {
    if a <= b then a else b
  }

  // ------------------------------------------------------------------------------------------------------
  // Run counts, the stop rule and the grade
  // ------------------------------------------------------------------------------------------------------

  function RequiredRunsForBar(robustMin: real, engine: Engine): int {
    if robustMin <= 0.0 || robustMin >= 1.0 then ABSOLUTE_MAX_RUNS
    else Ceil(CleanRuns(engine.zz, robustMin))
  }

  /** Clean samples at which the lower bound meets the bar. */
  function CleanRuns(zz: real, bar: real): real
    requires bar < 1.0
  {
    zz * bar / (1.0 - bar)
  }

  predicate TierDecided(ci: Interval, bars: Bars) {
    || ci.low >= bars.robustMin
    || ci.high < bars.marginalMin
    || (ci.low >= bars.marginalMin && ci.high < bars.robustMin)
  }

  function TierOf(ci: Interval, bars: Bars): Tier {
    if ci.low >= bars.robustMin then Robust
    else if ci.low >= bars.marginalMin then Marginal
    else if ci.high < bars.marginalMin then AtRisk
    else Unknown
  }

  /** The tier of a yield report under the given bars. */
  function Classify(s: Summary, bars: Bars): Tier {
    if s.evaluated <= 0 then Unknown else TierOf(s.ci95, bars)
  }

  // ------------------------------------------------------------------------------------------------------
  // Tallies
  // ------------------------------------------------------------------------------------------------------

  function Count(outcomes: seq<VariantOutcome>, v: VariantOutcome): (c: nat)
    ensures c <= |outcomes|
  {
    if outcomes == [] then 0
    else
      var last := |outcomes| - 1;
      Count(outcomes[..last], v) + if outcomes[last] == v then 1 else 0
  }

  function Evaluated(outcomes: seq<VariantOutcome>): nat {
    Count(outcomes, Pass) + Count(outcomes, Fail)
  }

  lemma CountAppend(outcomes: seq<VariantOutcome>, o: VariantOutcome, v: VariantOutcome)
    ensures Count(outcomes + [o], v) == Count(outcomes, v) + if o == v then 1 else 0
  {
    assert (outcomes + [o])[..|outcomes|] == outcomes;
  }

  /** Every attempt is counted once. */
  lemma {:induction false} EveryOutcomeCounted(outcomes: seq<VariantOutcome>)
    ensures Evaluated(outcomes) + Count(outcomes, Errored) == |outcomes|
  {
    if outcomes != [] {
      EveryOutcomeCounted(outcomes[..|outcomes| - 1]);
    }
  }

  function YieldOf(outcomes: seq<VariantOutcome>, engine: Engine): Summary {
    var passed, failed := Count(outcomes, Pass), Count(outcomes, Fail);
    var evaluated := passed + failed;
    var share := if evaluated > 0 then passed as real / evaluated as real else 0.0;
    Summary(|outcomes|, evaluated, passed, failed, Count(outcomes, Errored), share, Wilson95(passed, evaluated, engine))
  }

  method ComputeYield(outcomes: seq<VariantOutcome>, engine: Engine) returns (s: Summary)
    ensures s == YieldOf(outcomes, engine)
    ensures s.passed + s.failed + s.errored == s.total == |outcomes|
  {
    var passed, failed, errored: nat := 0, 0, 0;
    for k := 0 to |outcomes|
      invariant passed == Count(outcomes[..k], Pass)
      invariant failed == Count(outcomes[..k], Fail)
      invariant errored == Count(outcomes[..k], Errored)
    {
      assert outcomes[..k + 1][..k] == outcomes[..k];
      match outcomes[k]
      case Pass => passed := passed + 1;
      case Fail => failed := failed + 1;
      case Errored => errored := errored + 1;
    }
    assert outcomes[..|outcomes|] == outcomes;
    EveryOutcomeCounted(outcomes);
    var evaluated := passed + failed;
    var share := if evaluated > 0 then passed as real / evaluated as real else 0.0;
    s := Summary(|outcomes|, evaluated, passed, failed, errored, share, Wilson95(passed, evaluated, engine));
  }

  // ------------------------------------------------------------------------------------------------------
  // What a run is
  // ------------------------------------------------------------------------------------------------------

  datatype Plan = Plan(n: int, minRuns: int, ciStop: real, attemptCap: int, bars: Option<Bars>)

  function PlanOf(opts: Options, engine: Engine): Plan {
    var cap := if opts.bars.Some? then MaxInt(2000, RequiredRunsForBar(opts.bars.value.robustMin, engine)) else 2000;
    var defaultN := if opts.bars.Some? then MinInt(RequiredRunsForBar(opts.bars.value.robustMin, engine), cap) else 300;
    var wanted := if opts.n.Some? then opts.n.value else defaultN;
    var n := MaxInt(1, MinInt(MinInt(wanted, cap), ABSOLUTE_MAX_RUNS));
    var minRuns := MaxInt(1, if opts.minRuns.Some? then opts.minRuns.value else 24);
    var ciStop := if opts.ciStop.Some? then opts.ciStop.value else 0.03;
    var attemptCap := if opts.bars.Some? then MinInt(ABSOLUTE_MAX_RUNS, n * ERRORED_ATTEMPT_HEADROOM) else n;
    Plan(n, minRuns, ciStop, attemptCap, opts.bars)
  }

  /** A variant could not be run, or it ran and each acceptance criterion held or not. */
  type Runner = nat -> Option<seq<bool>>

  function OutcomeOf(results: Option<seq<bool>>): VariantOutcome {
    match results
    case None => Errored
    case Some(held) => if |held| > 0 && false !in held then Pass else Fail
  }

  /** The variant ran, some criterion was asked of it, and every one held. */
  predicate AllHeld(results: Option<seq<bool>>) {
    results.Some? && results.value != [] && forall j :: 0 <= j < |results.value| ==> results.value[j]
  }

  function Outcomes(run: Runner, k: nat): seq<VariantOutcome> {
    seq(k, i requires 0 <= i < k => OutcomeOf(run(i)))
  }

  predicate Converged(plan: Plan, ci: Interval) {
    if plan.bars.Some? then TierDecided(ci, plan.bars.value) else (ci.high - ci.low) / 2.0 <= plan.ciStop
  }

  /** The run is over because of its last attempt. */
  predicate OverAfter(plan: Plan, outcomes: seq<VariantOutcome>, engine: Engine) {
    && outcomes != []
    && var evaluated := Evaluated(outcomes);
       if outcomes[|outcomes| - 1] == Errored then
         evaluated == 0 && |outcomes| >= plan.minRuns
       else
         && evaluated >= plan.minRuns
         && (plan.bars.Some? || plan.ciStop > 0.0)
         && Converged(plan, Wilson95(Count(outcomes, Pass), evaluated, engine))
  }

  datatype Next = Attempt | Finish(early: bool)

  /** What happens at the top of an iteration. */
  function AtTop(plan: Plan, outcomes: seq<VariantOutcome>, stop: bool): Next {
    if |outcomes| >= plan.attemptCap then Finish(false)
    else if plan.bars.Some? && Evaluated(outcomes) >= plan.n then Finish(false)
    else if stop then Finish(true)
    else Attempt
  }

  /** The run of `ran` attempts is the first one over: nothing ended it sooner, and something ends it now. */
  ghost predicate IsRun(plan: Plan, run: Runner, stop: nat -> bool, engine: Engine, ran: nat, early: bool) {
    && (forall k: nat | k < ran :: AtTop(plan, Outcomes(run, k), stop(k)) == Attempt)
    && (forall k: nat | k < ran :: !OverAfter(plan, Outcomes(run, k), engine))
    && if OverAfter(plan, Outcomes(run, ran), engine) then early
       else AtTop(plan, Outcomes(run, ran), stop(ran)) == Finish(early)
  }

  /** None has ended the run in its first `ran` attempts. */
  ghost predicate Ongoing(plan: Plan, run: Runner, stop: nat -> bool, engine: Engine, ran: nat) {
    && (forall k: nat | k < ran :: AtTop(plan, Outcomes(run, k), stop(k)) == Attempt)
    && (forall k: nat | k <= ran :: !OverAfter(plan, Outcomes(run, k), engine))
  }

  lemma AttemptMade(plan: Plan, run: Runner, stop: nat -> bool, engine: Engine, ran: nat, next: nat)
    requires Ongoing(plan, run, stop, engine, ran) && AtTop(plan, Outcomes(run, ran), stop(ran)) == Attempt
    requires next == ran + 1
    ensures OverAfter(plan, Outcomes(run, next), engine) ==> IsRun(plan, run, stop, engine, next, true)
    ensures !OverAfter(plan, Outcomes(run, next), engine) ==> Ongoing(plan, run, stop, engine, next)
  {
    hide OverAfter, AtTop, Outcomes;
  }

  lemma TopReached(plan: Plan, run: Runner, stop: nat -> bool, engine: Engine, ran: nat)
    requires Ongoing(plan, run, stop, engine, ran)
    ensures var top := AtTop(plan, Outcomes(run, ran), stop(ran));
            top.Finish? ==> IsRun(plan, run, stop, engine, ran, top.early)
  {
    hide OverAfter, AtTop, Outcomes;
  }

  lemma PlanBounds(opts: Options, engine: Engine)
    ensures var plan := PlanOf(opts, engine);
            1 <= plan.n <= ABSOLUTE_MAX_RUNS && plan.n <= plan.attemptCap && plan.bars == opts.bars && plan.minRuns >= 1
  {
    hide RequiredRunsForBar;
  }

  lemma NothingAttempted(plan: Plan, run: Runner, stop: nat -> bool, engine: Engine)
    ensures Outcomes(run, 0) == [] && Ongoing(plan, run, stop, engine, 0)
  {
  }

  lemma OneMoreOutcome(run: Runner, k: nat)
    ensures Outcomes(run, k + 1) == Outcomes(run, k) + [OutcomeOf(run(k))]
  {
  }

  /** Draws variants one at a time until one of the five exits is taken. */
  method RunMonteCarlo(run: Runner, stop: nat -> bool, opts: Options, engine: Engine) returns (r: Report)
    ensures IsRun(PlanOf(opts, engine), run, stop, engine, r.ran, r.stoppedEarly)
    ensures Tallied(run, r.ran, r.summary)
    ensures r.summary == YieldOf(Outcomes(run, r.ran), engine)
    ensures r.summary.passed + r.summary.failed + r.summary.errored == r.ran <= PlanOf(opts, engine).attemptCap
  {
    hide IsRun, Ongoing, Wilson95, YieldOf, PlanOf, Outcomes, Count, Converged, Tallied;
    var plan := PlanOf(opts, engine);
    PlanBounds(opts, engine);
    var outcomes: seq<VariantOutcome> := [];
    var stoppedEarly := false;
    var ran, passed, evaluated: nat := 0, 0, 0;
    NothingAttempted(plan, run, stop, engine);
    ghost var over := false;
    for attempt := 0 to plan.attemptCap
      invariant !over && ran == attempt && outcomes == Outcomes(run, ran) && |outcomes| == ran
      invariant passed == Count(outcomes, Pass) && evaluated == Evaluated(outcomes) && !stoppedEarly
      invariant Ongoing(plan, run, stop, engine, ran)
    {
      TopReached(plan, run, stop, engine, ran);
      if plan.bars.Some? && evaluated >= plan.n {
        over := true;
        break;
      }
      if stop(attempt) {
        stoppedEarly := true;
        over := true;
        break;
      }
      AttemptMade(plan, run, stop, engine, ran, ran + 1);
      OneMoreOutcome(run, ran);
      var results := run(attempt);
      var o := OutcomeOf(results);
      CountAppend(outcomes, o, Pass);
      CountAppend(outcomes, o, Fail);
      outcomes := outcomes + [o];
      ran := ran + 1;
      if results == None {
        if evaluated == 0 && |outcomes| >= plan.minRuns {
          stoppedEarly := true;
          over := true;
          break;
        }
        continue;
      }
      evaluated := evaluated + 1;
      if o == Pass {
        passed := passed + 1;
      }
      if evaluated >= plan.minRuns && (plan.bars.Some? || plan.ciStop > 0.0) {
        var ci := Wilson95(passed, evaluated, engine);
        if Converged(plan, ci) {
          stoppedEarly := true;
          over := true;
          break;
        }
      }
    }
    if !over {
      TopReached(plan, run, stop, engine, ran);
    }
    var summary := ComputeYield(outcomes, engine);
    YieldIsTallied(run, ran, engine);
    r := Report(summary, stoppedEarly, ran);
  }

  /** Of the first `ran` attempts: those in which some criterion was asked and every one held, those that ran otherwise,
      those that did not run, and the share of the first among the first two. */
  ghost predicate Tallied(run: Runner, ran: nat, s: Summary) {
    && s.total == ran
    && s.passed == |set i: nat | i < ran && AllHeld(run(i))|
    && s.failed == |set i: nat | i < ran && run(i).Some? && !AllHeld(run(i))|
    && s.errored == |set i: nat | i < ran && run(i).None?|
    && s.evaluated == s.passed + s.failed
    && IsShare(s.share, s.passed, s.evaluated)
  }

  ghost predicate IsShare(share: real, passed: nat, evaluated: nat) {
    share * evaluated as real == passed as real
  }

  lemma YieldIsTallied(run: Runner, ran: nat, engine: Engine)
    ensures Tallied(run, ran, YieldOf(Outcomes(run, ran), engine))
  {
    CountsAreSets(run, ran);
    YieldShares(Outcomes(run, ran), engine);
    hide Count, Wilson95, AllHeld, IsShare;
  }

  lemma YieldShares(outcomes: seq<VariantOutcome>, engine: Engine)
    ensures var s := YieldOf(outcomes, engine); IsShare(s.share, s.passed, s.evaluated)
  {
    hide Count, Wilson95;
    var s := YieldOf(outcomes, engine);
    if s.evaluated > 0 {
      QuotientTimes(s.passed as real, s.evaluated as real);
    }
  }

  /** The counts are those of the attempts themselves. */
  lemma {:induction false} CountsAreSets(run: Runner, k: nat)
    ensures Count(Outcomes(run, k), Pass) == |set i: nat | i < k && AllHeld(run(i))|
    ensures Count(Outcomes(run, k), Fail) == |set i: nat | i < k && run(i).Some? && !AllHeld(run(i))|
    ensures Count(Outcomes(run, k), Errored) == |set i: nat | i < k && run(i).None?|
  {
    if k == 0 {
      assert (set i: nat | i < k && AllHeld(run(i))) == {};
      assert (set i: nat | i < k && run(i).Some? && !AllHeld(run(i))) == {};
      assert (set i: nat | i < k && run(i).None?) == {};
    } else {
      var last := k - 1;
      CountsAreSets(run, last);
      OneMoreOutcome(run, last);
      OutcomeIs(run(last));
      hide OutcomeOf, AllHeld, Outcomes;
      CountAppend(Outcomes(run, last), OutcomeOf(run(last)), Pass);
      CountAppend(Outcomes(run, last), OutcomeOf(run(last)), Fail);
      CountAppend(Outcomes(run, last), OutcomeOf(run(last)), Errored);
      hide Count;
      OneMoreIn((set i: nat | i < last && AllHeld(run(i))), (set i: nat | i < k && AllHeld(run(i))), last);
      OneMoreIn((set i: nat | i < last && run(i).Some? && !AllHeld(run(i))),
                (set i: nat | i < k && run(i).Some? && !AllHeld(run(i))), last);
      OneMoreIn((set i: nat | i < last && run(i).None?), (set i: nat | i < k && run(i).None?), last);
    }
  }

  lemma OutcomeIs(results: Option<seq<bool>>)
    ensures OutcomeOf(results) == if results.None? then Errored else if AllHeld(results) then Pass else Fail
  {
  }

  lemma OneMoreIn(S: set<nat>, T: set<nat>, x: nat)
    requires x !in S && forall i :: i in T <==> i in S || (i == x && x in T)
    ensures |T| == |S| + if x in T then 1 else 0
  {
    assert T == if x in T then S + {x} else S;
  }

  // ------------------------------------------------------------------------------------------------------
  // What the run count, the stop rule and the grade promise one another
  // ------------------------------------------------------------------------------------------------------

  lemma CeilIsLeast(x: real, n: int)
    ensures n as real >= x <==> n >= Ceil(x)
  {
  }

  /** The required run count is the least number of clean samples whose lower bound reaches the bar. */
  lemma RequiredRunsIsLeast(robustMin: real, n: int, engine: Engine)
    requires 0.0 < robustMin < 1.0 && n > 0 && IsExact(engine)
    ensures Wilson95(n, n, engine).low >= robustMin <==> n >= RequiredRunsForBar(robustMin, engine)
  {
    AllPassing(n, engine);
    hide Wilson95, CleanRuns, CleanBound, IsExact;
    CeilIsLeast(CleanRuns(engine.zz, robustMin), n);
    CleanBoundReaches(robustMin, n, engine);
  }

  /** A bar of one or more is out of reach, and a bar of zero or less is taken for one: both ask for the absolute most.
      */
  lemma BarOutsideAsksForAll(robustMin: real, engine: Engine)
    requires robustMin <= 0.0 || robustMin >= 1.0
    ensures RequiredRunsForBar(robustMin, engine) == 50000
  {
  }

  lemma CleanBoundReaches(bar: real, n: int, engine: Engine)
    requires 0.0 < bar < 1.0 && n > 0
    ensures CleanBound(n, engine) >= bar <==> n as real >= CleanRuns(engine.zz, bar)
  {
    QuotientReaches(engine.zz, bar, n as real, CleanRuns(engine.zz, bar), CleanBound(n, engine));
  }

  lemma QuotientReaches(zz: real, bar: real, m: real, x: real, low: real)
    requires zz > 0.0 && 0.0 < bar < 1.0 && m > 0.0 && x == zz * bar / (1.0 - bar) && low == m / (m + zz)
    ensures low >= bar <==> m >= x
  {
    QuotientTimes(zz * bar, 1.0 - bar);
    QuotientTimes(m, m + zz);
    ScalePositive(m + zz, low - bar);
    ScalePositive(1.0 - bar, m - x);
    assert (m + zz) * (low - bar) == m - (m * bar + zz * bar);
    assert (1.0 - bar) * (m - x) == m - m * bar - zz * bar;
  }

  lemma RequiredRunsPositive(robustMin: real, engine: Engine)
    ensures RequiredRunsForBar(robustMin, engine) >= 1
  {
    if 0.0 < robustMin < 1.0 {
      PositiveQuotient(engine.zz, robustMin);
      hide CleanRuns;
      CeilIsLeast(CleanRuns(engine.zz, robustMin), 0);
    }
  }

  lemma PositiveQuotient(zz: real, bar: real)
    requires zz > 0.0 && 0.0 < bar < 1.0
    ensures CleanRuns(zz, bar) > 0.0
  {
    ScalePositive(zz, bar);
    QuotientTimes(zz * bar, 1.0 - bar);
    ScalePositive(1.0 - bar, zz * bar / (1.0 - bar));
  }

  /** The stop rule fires exactly when there is a grade that is not a marginal one still reaching the robust bar. */
  lemma DecidedExactlyWhenGraded(s: Summary, bars: Bars)
    requires s.evaluated > 0 && s.ci95.low <= s.ci95.high
    ensures TierDecided(s.ci95, bars) <==>
              Classify(s, bars) != Unknown && !(Classify(s, bars) == Marginal && s.ci95.high >= bars.robustMin)
  {
  }

  /** A bar-aware run ended by its own last sample, whatever the clock would have said next, has a grade under the
      same bars. */
  lemma DecidedStopIsGraded(opts: Options, run: Runner, stop: nat -> bool, engine: Engine, ran: nat)
    requires opts.bars.Some? && IsRun(PlanOf(opts, engine), run, stop, engine, ran, true)
    requires OverAfter(PlanOf(opts, engine), Outcomes(run, ran), engine) && Evaluated(Outcomes(run, ran)) > 0
    ensures Classify(YieldOf(Outcomes(run, ran), engine), opts.bars.value) != Unknown
  {
    PlanBounds(opts, engine);
    hide PlanOf, Outcomes, Wilson95, Count;
  }

  /** How many samples a run is for: what was asked, or 300, but no more than 2000; with bars what was asked, or what
      the robust bar takes, but no more than that or 2000, whichever is more, nor than 50,000. */
  ghost function Target(opts: Options, engine: Engine): int {
    var required := if opts.bars.None? then 300 else RequiredRunsForBar(opts.bars.value.robustMin, engine);
    var most := if opts.bars.None? || required < 2000 then 2000 else if required > 50000 then 50000 else required;
    var asked := if opts.n.None? then required else opts.n.value;
    if asked < 1 then 1 else if asked > most then most else asked
  }

  /** After `k` attempts the run has what it is for: as many attempts; with bars as many evaluated samples, or three
      attempts for each, or 50,000. */
  ghost predicate AtLimit(opts: Options, run: Runner, engine: Engine, k: nat) {
    var target := Target(opts, engine);
    if opts.bars.None? then k >= target
    else YieldOf(Outcomes(run, k), engine).evaluated >= target || k >= 3 * target || k >= 50000
  }

  /** After `k` attempts an early stop has been earned. By a last sample that was evaluated, on as many evaluated
      samples as were asked, 24 if none were: the interval is within the half width asked, 0.03 if none was, or with
      bars it decides the tier. By one that was not: as many attempts brought no sample at all. */
  ghost predicate EarnedStop(opts: Options, run: Runner, engine: Engine, k: nat) {
    var s := YieldOf(Outcomes(run, k), engine);
    var least := if opts.minRuns.None? then 24 else opts.minRuns.value;
    var width := if opts.ciStop.None? then 0.03 else opts.ciStop.value;
    && k > 0
    && if run(k - 1) == None then s.evaluated == 0 && k >= least
       else
         && s.evaluated >= least
         && match opts.bars
            case None => width > 0.0 && s.ci95.high - s.ci95.low <= 2.0 * width
            case Some(b) =>
              || s.ci95.low >= b.robustMin || s.ci95.high < b.marginalMin
              || (s.ci95.low >= b.marginalMin && s.ci95.high < b.robustMin)
  }

  /** A run ends as soon as it has earned an early stop, has what it is for, or is interrupted, and never sooner; it
      counts as stopped early unless it ended for what it is for. */
  lemma RunEndsExactly(opts: Options, run: Runner, stop: nat -> bool, engine: Engine, ran: nat, early: bool)
    requires IsRun(PlanOf(opts, engine), run, stop, engine, ran, early)
    ensures forall k: nat | k < ran ::
              !EarnedStop(opts, run, engine, k) && !AtLimit(opts, run, engine, k) && !stop(k)
    ensures if early then EarnedStop(opts, run, engine, ran) || (stop(ran) && !AtLimit(opts, run, engine, ran))
            else !EarnedStop(opts, run, engine, ran) && AtLimit(opts, run, engine, ran)
  {
    var plan := PlanOf(opts, engine);
    forall k: nat
      ensures EarnedStop(opts, run, engine, k) <==> OverAfter(plan, Outcomes(run, k), engine)
      ensures AtLimit(opts, run, engine, k) <==> AtTop(plan, Outcomes(run, k), false) == Finish(false)
    {
      EarnedMeansOver(opts, run, engine, k);
      LimitMeansTop(opts, run, engine, k);
    }
    hide EarnedStop, AtLimit, OverAfter, PlanOf, Outcomes;
  }

  lemma EarnedMeansOver(opts: Options, run: Runner, engine: Engine, k: nat)
    ensures EarnedStop(opts, run, engine, k) <==> OverAfter(PlanOf(opts, engine), Outcomes(run, k), engine)
  {
    hide Wilson95, RequiredRunsForBar;
    if k > 0 {
      OneMoreOutcome(run, k - 1);
      OutcomeIs(run(k - 1));
      CountAppend(Outcomes(run, k - 1), OutcomeOf(run(k - 1)), Pass);
      CountAppend(Outcomes(run, k - 1), OutcomeOf(run(k - 1)), Fail);
      hide Count, OutcomeOf, Outcomes;
    }
  }

  lemma LimitMeansTop(opts: Options, run: Runner, engine: Engine, k: nat)
    ensures AtLimit(opts, run, engine, k) <==> AtTop(PlanOf(opts, engine), Outcomes(run, k), false) == Finish(false)
  {
    RequiredAtLeastOne(opts, engine);
    assert |Outcomes(run, k)| == k;
    hide Wilson95, Count, RequiredRunsForBar, Outcomes;
  }

  lemma RequiredAtLeastOne(opts: Options, engine: Engine)
    ensures opts.bars.Some? ==> RequiredRunsForBar(opts.bars.value.robustMin, engine) >= 1
  {
    if opts.bars.Some? {
      RequiredRunsPositive(opts.bars.value.robustMin, engine);
    }
  }

  /** A run is fixed by its options, its variants and its clock. */
  lemma RunIsDetermined(plan: Plan, run: Runner, stop: nat -> bool, engine: Engine, ran: nat, early: bool, ran': nat,
                        early': bool)
    requires IsRun(plan, run, stop, engine, ran, early) && IsRun(plan, run, stop, engine, ran', early')
    ensures ran == ran' && early == early'
  {
    hide Outcomes, OverAfter, AtTop;
  }

  ghost predicate EveryVariantPasses(run: Runner) {
    forall k: nat :: OutcomeOf(run(k)) == Pass
  }

  lemma {:induction false} AllPassCounts(run: Runner, k: nat)
    requires EveryVariantPasses(run)
    ensures Count(Outcomes(run, k), Pass) == k && Count(Outcomes(run, k), Fail) == 0
  {
    if k > 0 {
      AllPassCounts(run, k - 1);
      OneMoreOutcome(run, k - 1);
      CountAppend(Outcomes(run, k - 1), Pass, Pass);
      CountAppend(Outcomes(run, k - 1), Pass, Fail);
    }
  }

  /** Clean runs keep earning: the lower bound of an all-pass run never falls as it grows. */
  lemma CleanBoundGrows(k: int, n: int, engine: Engine)
    requires 0 < k <= n && IsExact(engine)
    ensures Wilson95(k, k, engine).low <= Wilson95(n, n, engine).low < 1.0
  {
    AllPassing(k, engine);
    AllPassing(n, engine);
    hide Wilson95;
    CleanBoundOrder(engine.zz, k as real, n as real, k as real / (k as real + engine.zz),
      n as real / (n as real + engine.zz));
  }

  lemma CleanBoundOrder(zz: real, a: real, b: real, low: real, low': real)
    requires zz > 0.0 && 0.0 < a <= b && low == a / (a + zz) && low' == b / (b + zz)
    ensures low <= low' < 1.0
  {
    QuotientTimes(a, a + zz);
    QuotientTimes(b, b + zz);
    ScalePositive(b + zz, 1.0 - low');
    ScalePositive(a + zz, 1.0 - low);
    // (a + zz) * (1 - low) == zz == (b + zz) * (1 - low')
    ScalePositive(b + zz, low' - low);
    assert (b + zz) * (low' - low) == (b + zz) * (1.0 - low) - (a + zz) * (1.0 - low) by {
      assert (b + zz) * (1.0 - low') == zz;
      assert (a + zz) * (1.0 - low) == zz;
    }
    ProductMonotone(0.0, 0.0, b - a, 1.0 - low);
    assert (b + zz) * (1.0 - low) - (a + zz) * (1.0 - low) == (b - a) * (1.0 - low);
  }

  /** A flawless bar-aware run that nothing interrupts ends graded robust exactly when its target of samples can earn
      it. */
  lemma FlawlessRunIsRobustExactlyWhen(opts: Options, run: Runner, stop: nat -> bool, engine: Engine, ran: nat,
                                       early: bool)
    requires opts.bars.Some? && opts.bars.value.marginalMin <= 1.0 && IsExact(engine)
    requires EveryVariantPasses(run) && (forall k: nat :: !stop(k))
    requires IsRun(PlanOf(opts, engine), run, stop, engine, ran, early)
    ensures Classify(YieldOf(Outcomes(run, ran), engine), opts.bars.value) == Robust <==>
            Wilson95(PlanOf(opts, engine).n, PlanOf(opts, engine).n, engine).low >= opts.bars.value.robustMin
  {
    PlanBounds(opts, engine);
    var plan := PlanOf(opts, engine);
    AllPassCounts(run, ran);
    FlawlessRunEnds(plan, run, stop, engine, ran, early);
    AllPassing(ran, engine);
    CleanBoundGrows(ran, plan.n, engine);
    hide PlanOf, IsRun, Outcomes, Wilson95, Count;
  }

  /** It ends at its target, or sooner because the bar is reached or lies beyond reach. */
  lemma FlawlessRunEnds(plan: Plan, run: Runner, stop: nat -> bool, engine: Engine, ran: nat, early: bool)
    requires plan.bars.Some? && plan.bars.value.marginalMin <= 1.0 && IsExact(engine) && 1 <= plan.n <= plan.attemptCap
    requires plan.minRuns >= 1
    requires EveryVariantPasses(run) && (forall k: nat :: !stop(k))
    requires IsRun(plan, run, stop, engine, ran, early)
    ensures 0 < ran <= plan.n
    ensures ran < plan.n ==>
              Wilson95(ran, ran, engine).low >= plan.bars.value.robustMin || plan.bars.value.robustMin > 1.0
  {
    AllPassCounts(run, ran);
    FlawlessRunIsLong(plan, run, stop, engine, ran, early);
    if ran > plan.n {
      AllPassCounts(run, plan.n);
      hide OverAfter, Outcomes, Count, EveryVariantPasses;
      assert false;
    }
    if ran < plan.n {
      assert OverAfter(plan, Outcomes(run, ran), engine) by {
        hide OverAfter, Count;
      }
      FlawlessStopIsEarned(plan, run, engine, ran);
    }
  }

  lemma FlawlessRunIsLong(plan: Plan, run: Runner, stop: nat -> bool, engine: Engine, ran: nat, early: bool)
    requires plan.bars.Some? && 1 <= plan.n <= plan.attemptCap && (forall k: nat :: !stop(k))
    requires IsRun(plan, run, stop, engine, ran, early)
    ensures ran > 0
  {
    hide Wilson95;
  }

  lemma FlawlessStopIsEarned(plan: Plan, run: Runner, engine: Engine, ran: nat)
    requires plan.bars.Some? && plan.bars.value.marginalMin <= 1.0 && IsExact(engine) && ran > 0
    requires EveryVariantPasses(run) && OverAfter(plan, Outcomes(run, ran), engine)
    ensures Wilson95(ran, ran, engine).low >= plan.bars.value.robustMin || plan.bars.value.robustMin > 1.0
  {
    AllPassCounts(run, ran);
    AllPassing(ran, engine);
    CleanBoundGrows(ran, ran, engine);
    assert |Outcomes(run, ran)| == ran && Outcomes(run, ran)[ran - 1] == Pass;
    hide Wilson95, Count, EveryVariantPasses, Outcomes;
  }

  /** With no explicit sample count the bar decides alone: below one, and within reach of the absolute cap. */
  lemma DefaultFlawlessRunIsRobust(opts: Options, run: Runner, stop: nat -> bool, engine: Engine, ran: nat, early: bool)
    requires opts.bars.Some? && opts.bars.value.marginalMin <= 1.0 && opts.n.None? && IsExact(engine)
    requires EveryVariantPasses(run) && (forall k: nat :: !stop(k))
    requires IsRun(PlanOf(opts, engine), run, stop, engine, ran, early)
    ensures Classify(YieldOf(Outcomes(run, ran), engine), opts.bars.value) == Robust <==>
            opts.bars.value.robustMin < 1.0
              && RequiredRunsForBar(opts.bars.value.robustMin, engine) <= ABSOLUTE_MAX_RUNS
  {
    var bar, n := opts.bars.value.robustMin, PlanOf(opts, engine).n;
    FlawlessRunIsRobustExactlyWhen(opts, run, stop, engine, ran, early);
    RequiredRunsPositive(bar, engine);
    PlanBounds(opts, engine);
    assert n == MinInt(RequiredRunsForBar(bar, engine), ABSOLUTE_MAX_RUNS);
    CleanBoundGrows(n, n, engine);
    BoundsAreTheRoots(n, n, engine);
    if 0.0 < bar < 1.0 {
      RequiredRunsIsLeast(bar, n, engine);
    }
    hide PlanOf, IsRun, Outcomes, Wilson95, YieldOf, EveryVariantPasses;
  }
}
