/** How settled a decided tier is: exactly when a grade survives every way the remaining samples can turn out. */
module SettledTiers {
  import opened Wilson
  import opened MonteCarlo

  lemma {:induction false} CountConcat(a: seq<VariantOutcome>, b: seq<VariantOutcome>, v: VariantOutcome)
    ensures Count(a + b, v) == Count(a, v) + Count(b, v)
  {
    if b == [] {
      assert a + b == a;
    } else {
      var last := |b| - 1;
      CountConcat(a, b[..last], v);
      CountAppend(a + b[..last], b[last], v);
      assert a + b == (a + b[..last]) + [b[last]];
    }
  }

  function Repeated(k: nat, v: VariantOutcome): seq<VariantOutcome> {
    seq(k, i => v)
  }

  lemma {:induction false} CountRepeated(k: nat, v: VariantOutcome, o: VariantOutcome)
    ensures Count(Repeated(k, v), o) == if o == v then k else 0
  {
    if k > 0 {
      CountRepeated(k - 1, v, o);
      assert Repeated(k, v)[..k - 1] == Repeated(k - 1, v);
    }
  }

  /** The grade after these samples. */
  function Grade(outcomes: seq<VariantOutcome>, bars: Bars, engine: Engine): Tier {
    Classify(YieldOf(outcomes, engine), bars)
  }

  /** The grade in terms of what was counted. */
  function GradeOf(passed: nat, evaluated: nat, bars: Bars, engine: Engine): Tier {
    if evaluated == 0 then Unknown else TierOf(Wilson95(passed, evaluated, engine), bars)
  }

  lemma GradeCounts(outcomes: seq<VariantOutcome>, bars: Bars, engine: Engine)
    ensures Grade(outcomes, bars, engine) == GradeOf(Count(outcomes, Pass), Evaluated(outcomes), bars, engine)
  {
    hide Wilson95, Count;
  }

  /** Whatever `more` evaluated samples follow, errored ones among them, the grade is this tier. */
  ghost predicate Settled(outcomes: seq<VariantOutcome>, more: nat, tier: Tier, bars: Bars, engine: Engine) {
    forall rest :: Evaluated(rest) == more ==> Grade(outcomes + rest, bars, engine) == tier
  }

  /** The same over counts: any number of the further samples may pass, up to `best`. */
  ghost predicate CountsSettled(passed: nat, best: nat, total: nat, tier: Tier, bars: Bars, engine: Engine) {
    forall atEnd: nat | passed <= atEnd <= best :: GradeOf(atEnd, total, bars, engine) == tier
  }

  lemma RestCounts(outcomes: seq<VariantOutcome>, rest: seq<VariantOutcome>, bars: Bars, engine: Engine)
    ensures Grade(outcomes + rest, bars, engine)
         == GradeOf(Count(outcomes, Pass) + Count(rest, Pass), Evaluated(outcomes) + Evaluated(rest), bars, engine)
  {
    hide GradeOf, Grade, Count;
    CountConcat(outcomes, rest, Pass);
    CountConcat(outcomes, rest, Fail);
    GradeCounts(outcomes + rest, bars, engine);
  }

  /** Some samples of which this many pass. */
  function SomeRest(passing: nat, more: nat): seq<VariantOutcome>
    requires passing <= more
  {
    Repeated(passing, Pass) + Repeated(more - passing, Fail)
  }

  lemma SomeRestCounts(passing: nat, more: nat)
    requires passing <= more
    ensures Count(SomeRest(passing, more), Pass) == passing && Evaluated(SomeRest(passing, more)) == more
  {
    hide Count, Repeated;
    CountConcat(Repeated(passing, Pass), Repeated(more - passing, Fail), Pass);
    CountConcat(Repeated(passing, Pass), Repeated(more - passing, Fail), Fail);
    CountRepeated(passing, Pass, Pass);
    CountRepeated(passing, Pass, Fail);
    CountRepeated(more - passing, Fail, Pass);
    CountRepeated(more - passing, Fail, Fail);
  }

  lemma SettledByCounts(outcomes: seq<VariantOutcome>, more: nat, tier: Tier, bars: Bars, engine: Engine)
    ensures Settled(outcomes, more, tier, bars, engine)
       <==> CountsSettled(Count(outcomes, Pass), Count(outcomes, Pass) + more, Evaluated(outcomes) + more, tier,
                          bars, engine)
  {
    hide Grade, GradeOf, Count, SomeRest;
    var passed, total := Count(outcomes, Pass), Evaluated(outcomes) + more;
    if Settled(outcomes, more, tier, bars, engine) {
      forall atEnd: nat | passed <= atEnd <= passed + more
        ensures GradeOf(atEnd, total, bars, engine) == tier
      {
        var rest := SomeRest(atEnd - passed, more);
        SomeRestCounts(atEnd - passed, more);
        RestCounts(outcomes, rest, bars, engine);
      }
    }
    if CountsSettled(passed, passed + more, total, tier, bars, engine) {
      forall rest | Evaluated(rest) == more
        ensures Grade(outcomes + rest, bars, engine) == tier
      {
        var atEnd: nat := passed + Count(rest, Pass);
        RestCounts(outcomes, rest, bars, engine);
        assert GradeOf(atEnd, total, bars, engine) == tier;
      }
    }
  }

  ghost predicate Between(ci: Interval, worst: Interval, best: Interval) {
    worst.low <= ci.low <= best.low && ci.low <= ci.high <= best.high
  }

  /** The two extreme endings bound the interval of every other. */
  lemma EndsBound(passed: nat, best: nat, total: nat, engine: Engine)
    requires passed <= best <= total && total > 0 && IsExact(engine)
    ensures forall atEnd: nat | passed <= atEnd <= best ::
              Between(Wilson95(atEnd, total, engine), Wilson95(passed, total, engine), Wilson95(best, total, engine))
  {
    hide Wilson95;
    forall atEnd: nat | passed <= atEnd <= best
      ensures Between(Wilson95(atEnd, total, engine), Wilson95(passed, total, engine), Wilson95(best, total, engine))
    {
      BoundsMonotone(passed, atEnd, total, engine);
      BoundsMonotone(atEnd, best, total, engine);
      BoundsAreTheRoots(atEnd, total, engine);
    }
  }

  /** `robust` stands whatever `more` samples follow exactly when it stands even if they all fail. */
  lemma RobustSettledExactlyWhen(outcomes: seq<VariantOutcome>, more: nat, bars: Bars, engine: Engine)
    requires Evaluated(outcomes) + more > 0 && IsExact(engine)
    ensures Settled(outcomes, more, Robust, bars, engine) <==>
            Wilson95(Count(outcomes, Pass), Evaluated(outcomes) + more, engine).low >= bars.robustMin
  {
    hide Wilson95, Count, Settled;
    var passed, total := Count(outcomes, Pass), Evaluated(outcomes) + more;
    SettledByCounts(outcomes, more, Robust, bars, engine);
    EndsBound(passed, passed + more, total, engine);
    assert CountsSettled(passed, passed + more, total, Robust, bars, engine)
           ==> GradeOf(passed, total, bars, engine) == Robust;
  }

  /** `at-risk` stands exactly when it stands even if they all pass. */
  lemma AtRiskSettledExactlyWhen(outcomes: seq<VariantOutcome>, more: nat, bars: Bars, engine: Engine)
    requires Evaluated(outcomes) + more > 0 && bars.marginalMin <= bars.robustMin && IsExact(engine)
    ensures Settled(outcomes, more, AtRisk, bars, engine) <==>
            Wilson95(Count(outcomes, Pass) + more, Evaluated(outcomes) + more, engine).high < bars.marginalMin
  {
    hide Wilson95, Count, Settled;
    var passed, best, total := Count(outcomes, Pass), Count(outcomes, Pass) + more, Evaluated(outcomes) + more;
    SettledByCounts(outcomes, more, AtRisk, bars, engine);
    EndsBound(passed, best, total, engine);
    assert CountsSettled(passed, best, total, AtRisk, bars, engine) ==> GradeOf(best, total, bars, engine) == AtRisk;
  }

  /** `marginal` stands exactly when failing throughout keeps the lower bar and passing throughout misses the upper. */
  lemma MarginalSettledExactlyWhen(outcomes: seq<VariantOutcome>, more: nat, bars: Bars, engine: Engine)
    requires Evaluated(outcomes) + more > 0 && IsExact(engine)
    ensures Settled(outcomes, more, Marginal, bars, engine) <==>
            && Wilson95(Count(outcomes, Pass), Evaluated(outcomes) + more, engine).low >= bars.marginalMin
            && Wilson95(Count(outcomes, Pass) + more, Evaluated(outcomes) + more, engine).low < bars.robustMin
  {
    hide Wilson95, Count, Settled;
    var passed, best, total := Count(outcomes, Pass), Count(outcomes, Pass) + more, Evaluated(outcomes) + more;
    SettledByCounts(outcomes, more, Marginal, bars, engine);
    EndsBound(passed, best, total, engine);
    assert CountsSettled(passed, best, total, Marginal, bars, engine) ==>
           GradeOf(passed, total, bars, engine) == Marginal && GradeOf(best, total, bars, engine) == Marginal;
  }

  // ------------------------------------------------------------------------------------------------------
  // Decided, and revoked by later samples
  // ------------------------------------------------------------------------------------------------------

  /** The bars of the consumer profile. */
  const CONSUMER := Bars(0.99, 0.9)

  /** The grade before and after some more samples, by their counts. */
  lemma Revoked(passed: nat, evaluated: nat, passing: nat, more: nat, bars: Bars, engine: Engine)
    requires passed <= evaluated && passing <= more && evaluated > 0
    ensures Grade(SomeRest(passed, evaluated), bars, engine) == GradeOf(passed, evaluated, bars, engine)
    ensures Evaluated(SomeRest(passed, evaluated)) == evaluated && Evaluated(SomeRest(passing, more)) == more
    ensures YieldOf(SomeRest(passed, evaluated), engine).ci95 == Wilson95(passed, evaluated, engine)
    ensures Grade(SomeRest(passed, evaluated) + SomeRest(passing, more), bars, engine)
         == GradeOf(passed + passing, evaluated + more, bars, engine)
  {
    hide Wilson95, Count, Grade, GradeOf, SomeRest;
    SomeRestCounts(passed, evaluated);
    SomeRestCounts(passing, more);
    GradeCounts(SomeRest(passed, evaluated), bars, engine);
    RestCounts(SomeRest(passed, evaluated), SomeRest(passing, more), bars, engine);
  }

  /** All 381 samples the bar asks for pass and the tier is decided; one more, failing, lowers the grade.  That sample
      is one past the default target, so only a run with a larger explicit count would have drawn it; the other two
      decisions fall within the target. */
  lemma RobustCanBeRevoked(engine: Engine)
    requires IsExact(engine) && 3.84 < engine.zz < 3.842
    ensures RequiredRunsForBar(CONSUMER.robustMin, engine) == 381
    ensures var clean, one := SomeRest(381, 381), SomeRest(0, 1);
            && TierDecided(YieldOf(clean, engine).ci95, CONSUMER) && Grade(clean, CONSUMER, engine) == Robust
            && Evaluated(one) == 1 && Grade(clean + one, CONSUMER, engine) == Marginal
  {
    AllPassing(381, engine);
    CleanTarget(engine);
    NearlyClean(engine);
    BoundsAreTheRoots(381, 382, engine);
    hide Wilson95, Count, Grade, SomeRest, Excess, RequiredRunsForBar, IsExact, Share, Spread;
    Revoked(381, 381, 0, 1, CONSUMER, engine);
  }

  lemma CleanTarget(engine: Engine)
    requires 3.84 < engine.zz < 3.842
    ensures RequiredRunsForBar(CONSUMER.robustMin, engine) == 381
    ensures CleanBound(381, engine) >= CONSUMER.robustMin
  {
  }

  lemma NearlyClean(engine: Engine)
    requires 3.84 < engine.zz < 3.842
    ensures Share(381, 382) > 0.9
    ensures Excess(Share(381, 382), Spread(382, engine), 0.9) > 0.0
    ensures Excess(Share(381, 382), Spread(382, engine), 0.99) < 0.0
  {
  }

  /** Twenty-four failing samples decide `at-risk`; if the rest of the 381 pass, the design is not at risk. */
  lemma AtRiskCanBeRevoked(engine: Engine)
    requires IsExact(engine) && 3.84 < engine.zz < 3.842
    ensures var failing, rest := SomeRest(0, 24), SomeRest(357, 357);
            && TierDecided(YieldOf(failing, engine).ci95, CONSUMER) && Grade(failing, CONSUMER, engine) == AtRisk
            && Evaluated(rest) == 357 && Grade(failing + rest, CONSUMER, engine) == Marginal
  {
    FailsAndPasses(engine);
    BoundsAreTheRoots(0, 24, engine);
    BoundsAreTheRoots(357, 381, engine);
    hide Wilson95, Count, Grade, SomeRest, Excess, IsExact, Share, Spread;
    Revoked(0, 24, 357, 357, CONSUMER, engine);
  }

  lemma FailsAndPasses(engine: Engine)
    requires 3.84 < engine.zz < 3.842
    ensures Share(0, 24) < 0.9 < Share(357, 381) < 0.99
    ensures Excess(Share(0, 24), Spread(24, engine), 0.9) > 0.0
    ensures Excess(Share(357, 381), Spread(381, engine), 0.9) >= 0.0
  {
  }

  /** 189 passes of 200 decide `marginal`; if the rest of the 381 fail, the design is at risk. */
  lemma MarginalCanBeRevoked(engine: Engine)
    requires IsExact(engine) && 3.84 < engine.zz < 3.842
    ensures var mixed, rest := SomeRest(189, 200), SomeRest(0, 181);
            && TierDecided(YieldOf(mixed, engine).ci95, CONSUMER) && Grade(mixed, CONSUMER, engine) == Marginal
            && Evaluated(rest) == 181 && Grade(mixed + rest, CONSUMER, engine) == AtRisk
  {
    BandAndHalf(engine);
    BoundsAreTheRoots(189, 200, engine);
    BoundsAreTheRoots(189, 381, engine);
    hide Wilson95, Count, Grade, SomeRest, Excess, IsExact, Share, Spread;
    Revoked(189, 200, 0, 181, CONSUMER, engine);
  }

  lemma BandAndHalf(engine: Engine)
    requires 3.84 < engine.zz < 3.842
    ensures Share(189, 381) < 0.9 < Share(189, 200) < 0.99
    ensures Excess(Share(189, 200), Spread(200, engine), 0.9) >= 0.0
    ensures Excess(Share(189, 200), Spread(200, engine), 0.99) > 0.0
    ensures Excess(Share(189, 381), Spread(381, engine), 0.9) > 0.0
  {
  }
}
