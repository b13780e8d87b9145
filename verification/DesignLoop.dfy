/** The agentic design loop: check, simulate, judge, and ask for a fix, for a bounded number of rounds.  The language
    model, the rule check, the simulator and the judge are arbitrary functions of what they are given. */
module DesignLoop {
  import opened Optional
  import opened Picking
  import opened Criteria

  datatype Component = Component(kind: string, designator: string, value: string)

  datatype Circuit = Circuit(components: seq<Component>, nets: seq<string>, models: seq<string>)

  datatype Analysis = Analysis(kind: string, fourier: Option<string>, tf: Option<string>)

  datatype Assertion = Assertion(about: Criterion, pass: bool)

  datatype Design = Design(circuit: Circuit, analysis: Analysis, criteria: seq<Criterion>)

  datatype JobStatus = Succeeded | Failed | TimedOut

  /** What one simulation came to: no capacity, a throw, or a finished job. */
  datatype SimOutcome =
    | NoCapacity(canceled: bool)
    | Threw(intentful: bool)
    | Finished(status: JobStatus, infra: bool, points: int, measurements: seq<string>, error: bool)

  datatype RoundStatus = Job(status: JobStatus) | PollTimeout | JobCanceled | ErcError | NetlistError | InfraError

  datatype Record = Record(round: int, status: RoundStatus, points: int)

  datatype Problem = ErcErrors(codes: seq<string>) | NetlistFailed | Unhealthy | SpecsUnmet |
      QuantitiesUnmeasured(missing: set<Dimension>)

  /** The world outside.  What can differ from call to call also takes the round; `None` from the fixer is a throw. */
  datatype World = World(
    withModels: Circuit -> Circuit,
    ercErrors: Circuit -> seq<string>,
    netlist: (Circuit, Analysis, seq<string>) -> Option<string>,
    simulate: (int, string, Analysis) -> SimOutcome,
    judge: (seq<string>, Analysis, seq<Criterion>, Circuit) -> seq<Assertion>,
    fix: (int, Circuit, Analysis, Problem) -> Option<Design>,
    aborted: (int, bool) -> bool,
    read: Reading)

  datatype Warning = ErcStuck | SpecMiss | CoverageMiss | NoSimulation

  datatype DesignResult =
    | Verdict(ok: bool, verified: bool, circuit: Circuit, analysis: Analysis, criteria: seq<Criterion>,
        assertions: seq<Assertion>,
              rounds: int, history: seq<Record>, warning: Option<Warning>)
    | Inconclusive(circuit: Circuit, analysis: Analysis, rounds: int, history: seq<Record>)

  datatype Cause = Canceled | FixerThrew | IntentfulError

  datatype Outcome = Returned(result: DesignResult) | Thrown(cause: Cause)

  // ------------------------------------------------------------------------------------------------------
  // Pieces
  // ------------------------------------------------------------------------------------------------------

  function RoundLimit(maxRounds: Option<int>): int {
    var wanted := if maxRounds.Some? then maxRounds.value else 2;
    if wanted < 1 then 1 else if wanted > 4 then 4 else wanted
  }

  /** At least one round and at most four, as near to what was asked as that allows; two when nothing was. */
  lemma LimitIsNearest(maxRounds: Option<int>, n: int)
    requires 1 <= n <= 4
    ensures 1 <= RoundLimit(maxRounds) <= 4 && RoundLimit(None) == 2
    ensures maxRounds.Some? ==>
              var off, off' := RoundLimit(maxRounds) - maxRounds.value, n - maxRounds.value;
              (if off < 0 then -off else off) <= (if off' < 0 then -off' else off')
  {
  }

  function Probes(cs: seq<Criterion>, read: Reading): seq<string> {
    if cs == [] then []
    else Probes(cs[..|cs| - 1], read) + if read.isCurrent(cs[|cs| - 1].probe) then [cs[|cs| - 1].probe] else []
  }

  predicate AllPass(results: seq<Assertion>) {
    forall i | 0 <= i < |results| :: results[i].pass
  }

  predicate Healthy(sim: SimOutcome) {
    sim.Finished? && sim.status == Succeeded && sim.points > 0
  }

  predicate Measures(cs: seq<Criterion>, metric: string) {
    exists i | 0 <= i < |cs| :: cs[i].metric == metric
  }

  /** A request a criterion needs is carried over when a fix drops it and keeps the analysis type. */
  function PreserveMetricOverlays(prev: Analysis, next: Analysis, cs: seq<Criterion>): Analysis {
    var out :=
      if Measures(cs, "thd") && prev.kind == "tran" && prev.fourier.Some? && next.kind == "tran" && next.fourier.None?
      then next.(fourier := prev.fourier) else next;
    if Measures(cs, "gain") && prev.kind == "op" && prev.tf.Some? && out.kind == "op" && out.tf.None?
    then out.(tf := prev.tf) else out
  }

  /** A fix's own requests stand. One it dropped is back exactly when a criterion needs it, the design before had it,
      and both analyses are of the kind that makes it; the analysis is otherwise the fix's. */
  lemma OverlaysKept(prev: Analysis, next: Analysis, cs: seq<Criterion>)
    ensures var out := PreserveMetricOverlays(prev, next, cs);
            && out.kind == next.kind
            && (next.fourier.Some? ==> out.fourier == next.fourier)
            && (next.fourier.None? ==> out.fourier in {None, prev.fourier})
            && (next.fourier.None? && prev.fourier.Some? ==>
                  (out.fourier.Some? <==>
                   prev.kind == next.kind == "tran" && exists i :: 0 <= i < |cs| && cs[i].metric == "thd"))
            && (next.tf.Some? ==> out.tf == next.tf)
            && (next.tf.None? ==> out.tf in {None, prev.tf})
            && (next.tf.None? && prev.tf.Some? ==>
                  (out.tf.Some? <==>
                   prev.kind == next.kind == "op" && exists i :: 0 <= i < |cs| && cs[i].metric == "gain"))
  {
  }

  /** What the loop carries from round to round. */
  datatype Loop = Loop(circuit: Circuit, analysis: Analysis, criteria: seq<Criterion>, probes: seq<string>,
      assertions: seq<Assertion>,
                       history: seq<Record>)

  datatype Step = Exit(outcome: Outcome) | OutOfRounds(last: Loop) | Again(next: Loop)

  // ------------------------------------------------------------------------------------------------------
  // What a run is
  // ------------------------------------------------------------------------------------------------------

  /** A request for a fix: the round, the design that fell short, and why. */
  datatype Ask = Ask(round: int, design: Design, problem: Problem)

  function DesignOf(s: Loop): Design {
    Design(s.circuit, s.analysis, s.criteria)
  }

  function TextOf(w: World, d: Design): Option<string> {
    w.netlist(d.circuit, d.analysis, Probes(d.criteria, w.read))
  }

  /** In `round` the design passed the rule check, could be written out, and was simulated with this outcome. */
  ghost predicate Simulated(w: World, round: int, d: Design, sim: SimOutcome) {
    w.ercErrors(d.circuit) == [] && TextOf(w, d).Some? && sim == w.simulate(round, TextOf(w, d).value, d.analysis)
  }

  /** In `round` this very design passed the rule check, simulated to usable data, and was judged on its own
      criteria. */
  ghost predicate Checked(w: World, round: int, d: Design, results: seq<Assertion>) {
    exists sim :: Settles(w, round, d, sim) && Healthy(sim) && results == Verdicts(w, d, sim)
  }

  /** In `round` the design was simulated, and the job that finished says something about it. */
  ghost predicate Settles(w: World, round: int, d: Design, sim: SimOutcome) {
    Simulated(w, round, d, sim) && sim.Finished? && !GivesNoAnswer(sim, d.criteria)
  }

  function Verdicts(w: World, d: Design, sim: SimOutcome): seq<Assertion>
    requires sim.Finished?
  {
    if d.criteria == [] then [] else w.judge(sim.measurements, d.analysis, d.criteria, d.circuit)
  }

  ghost predicate NeverSimulated(w: World, round: int, d: Design) {
    w.ercErrors(d.circuit) == [] && (TextOf(w, d).None? || exists sim :: Settles(w, round, d, sim) && !Healthy(sim))
  }

  /** The problem put to the fixer is what this design really fell short of. */
  ghost predicate Justified(w: World, required: set<Dimension>, a: Ask) {
    && !w.aborted(a.round, false)
    && (!a.problem.NetlistFailed? ==> !w.aborted(a.round, true))
    && match a.problem
       case ErcErrors(codes) => codes == w.ercErrors(a.design.circuit) && codes != []
       case NetlistFailed => w.ercErrors(a.design.circuit) == [] && TextOf(w, a.design).None?
       case Unhealthy => exists sim :: Settles(w, a.round, a.design, sim) && !Healthy(sim)
       case SpecsUnmet => exists results :: Checked(w, a.round, a.design, results) && !AllPass(results)
       case QuantitiesUnmeasured(missing) =>
         && missing == Uncovered(required, a.design.criteria, w.read) && missing != {}
         && exists results :: Checked(w, a.round, a.design, results) && AllPass(results)
  }

  function FixOf(w: World, a: Ask): Option<Design> {
    w.fix(a.round, a.design.circuit, a.design.analysis, a.problem)
  }

  /** The next round's design is the fixer's, with its criteria merged and needed overlays kept; after a netlist failure
      the criteria stay and nothing is carried over. */
  ghost predicate Follows(w: World, required: set<Dimension>, a: Ask, d: Design) {
    && FixOf(w, a).Some?
    && var f := FixOf(w, a).value;
       && d.circuit == w.withModels(f.circuit)
       && if a.problem.NetlistFailed? then d.analysis == f.analysis && d.criteria == a.design.criteria
          else
            && Merged(d.criteria, a.design.criteria, f.criteria, required, w.read)
            && d.analysis == PreserveMetricOverlays(a.design.analysis, f.analysis, d.criteria)
  }

  /** `d` is where these requests lead from the start: one a round, each justified, each answered by the next design. */
  ghost predicate Traced(w: World, start: Design, required: set<Dimension>, asks: seq<Ask>, d: Design) {
    if asks == [] then d == Design(w.withModels(start.circuit), start.analysis, start.criteria)
    else
      var a := asks[|asks| - 1];
      && a.round == |asks|
      && Justified(w, required, a)
      && Follows(w, required, a, d)
      && Traced(w, start, required, asks[..|asks| - 1], a.design)
  }

  /** The problem of a round whose design was judged. */
  predicate Judged(problem: Problem) {
    problem.SpecsUnmet? || problem.QuantitiesUnmeasured?
  }

  /** The assertions left by the last of these requests' rounds that judged its design; none if no round did. */
  ghost predicate LeftOver(w: World, asks: seq<Ask>, results: seq<Assertion>) {
    if asks == [] then results == []
    else
      var a := asks[|asks| - 1];
      if Judged(a.problem) then Checked(w, a.round, a.design, results) else LeftOver(w, asks[..|asks| - 1], results)
  }

  /** Criteria are those of the start, and any later one measures a required quantity that nothing measured then. */
  ghost predicate Grown(cs: seq<Criterion>, start: seq<Criterion>, required: set<Dimension>, read: Reading) {
    && start <= cs
    && forall i :: |start| <= i < |cs| ==> DimensionOf(cs[i], read) in required - Covered(start, read)
  }

  /** What the history shows of a round with this design. */
  ghost function Entry(w: World, round: int, d: Design): Record {
    if w.ercErrors(d.circuit) != [] then Record(round, ErcError, 0)
    else if TextOf(w, d).None? then Record(round, NetlistError, 0)
    else
      match w.simulate(round, TextOf(w, d).value, d.analysis)
      case NoCapacity(canceled) => Record(round, if canceled then JobCanceled else PollTimeout, 0)
      case Threw(_) => Record(round, InfraError, 0)
      case Finished(status, infra, points, _, _) =>
        Record(round, Job(status), if status != Succeeded && infra then 0 else points)
  }

  /** One record for the round of each request. */
  ghost function LogOf(w: World, asks: seq<Ask>): (log: seq<Record>)
    ensures |log| == |asks|
  {
    if asks == [] then []
    else
      var last := |asks| - 1;
      LogOf(w, asks[..last]) + [Entry(w, last + 1, asks[last].design)]
  }

  /** The history after these requests and a further round with design `d`. */
  ghost predicate Recorded(w: World, asks: seq<Ask>, d: Design, history: seq<Record>) {
    history == LogOf(w, asks) + [Entry(w, |asks| + 1, d)]
  }

  function Final(r: DesignResult): Design
    requires r.Verdict?
  {
    Design(r.circuit, r.analysis, r.criteria)
  }

  /** A positive verdict: checked in its own last round, everything passed, and no required quantity left unmeasured. */
  ghost predicate Earned(w: World, required: set<Dimension>, r: DesignResult)
    requires r.Verdict?
  {
    && Checked(w, r.rounds, Final(r), r.assertions)
    && AllPass(r.assertions)
    && Uncovered(required, r.criteria, w.read) == {}
    && (r.verified <==> r.criteria != [])
  }

  /** A negative verdict spends every round, is never called verified, and its warning names what stood in the way last.
      If the last round judged nothing, its assertions are those of an earlier round that did. */
  ghost predicate Explained(w: World, required: set<Dimension>, asks: seq<Ask>, r: DesignResult, limit: int)
    requires r.Verdict?
  {
    && !r.verified && r.rounds == limit
    && match r.warning
       case None => false
       case Some(ErcStuck) => w.ercErrors(r.circuit) != [] && LeftOver(w, asks, r.assertions)
       case Some(SpecMiss) => Checked(w, limit, Final(r), r.assertions) && !AllPass(r.assertions)
       case Some(CoverageMiss) =>
         Checked(w, limit, Final(r), r.assertions) && AllPass(r.assertions)
           && Uncovered(required, r.criteria, w.read) != {}
       case Some(NoSimulation) => NeverSimulated(w, limit, Final(r)) && LeftOver(w, asks, r.assertions)
  }

  /** What makes a run inconclusive: its last simulation gave no answer about the design. */
  ghost predicate NoAnswer(w: World, round: int, d: Design) {
    exists sim :: Simulated(w, round, d, sim) && GivesNoAnswer(sim, d.criteria)
  }

  predicate GivesNoAnswer(sim: SimOutcome, cs: seq<Criterion>) {
    match sim
    case NoCapacity(_) => true
    case Threw(intentful) => !intentful
    case Finished(status, infra, _, measurements, error) =>
      (status != Succeeded && infra) || (Healthy(sim) && cs != [] && measurements == [] && error)
  }

  /** No capacity and a throw nobody meant say nothing of the design; a job that failed does, unless the machinery
      failed; a job that succeeded without data does; and one with data does too, unless there was something to judge
      and the readings were lost. */
  lemma NoAnswerMeans(sim: SimOutcome, cs: seq<Criterion>)
    ensures sim.NoCapacity? ==> GivesNoAnswer(sim, cs)
    ensures sim.Threw? ==> (GivesNoAnswer(sim, cs) <==> !sim.intentful)
    ensures sim.Finished? && sim.status != Succeeded ==> (GivesNoAnswer(sim, cs) <==> sim.infra)
    ensures sim.Finished? && sim.status == Succeeded && sim.points <= 0 ==> !GivesNoAnswer(sim, cs)
    ensures sim.Finished? && sim.status == Succeeded && sim.points > 0 ==>
              (GivesNoAnswer(sim, cs) <==> cs != [] && sim.measurements == [] && sim.error)
  {
  }

  /** The whole meaning of an outcome after these requests. */
  ghost predicate Sound(w: World, start: Design, required: set<Dimension>, limit: int, asks: seq<Ask>, out: Outcome) {
    match out
    case Thrown(Canceled) => exists round, late :: 0 <= round <= limit && w.aborted(round, late)
    case Thrown(FixerThrew) =>
      && asks != []
      && var a := asks[|asks| - 1];
         && a.round == |asks| < limit && Justified(w, required, a) && FixOf(w, a).None?
         && Traced(w, start, required, asks[..|asks| - 1], a.design)
    case Thrown(IntentfulError) =>
      exists d :: Traced(w, start, required, asks, d) && Simulated(w, |asks| + 1, d, Threw(true))
    case Returned(r) =>
      && r.rounds == |r.history| == |asks| + 1 <= limit && !w.aborted(r.rounds, false)
      && if r.Inconclusive? then
           exists cs :: Traced(w, start, required, asks, Design(r.circuit, r.analysis, cs))
             && NoAnswer(w, r.rounds, Design(r.circuit, r.analysis, cs))
             && Recorded(w, asks, Design(r.circuit, r.analysis, cs), r.history)
         else
           && Traced(w, start, required, asks, Final(r)) && Recorded(w, asks, Final(r), r.history)
           && (r.ok ==> Earned(w, required, r))
           && (!r.ok ==> Explained(w, required, asks, r, limit))
  }

  /** However many fixes a run went through, the criteria it ends with only extend those it began with. */
  lemma {:induction false} CriteriaOnlyGrow(w: World, start: Design, required: set<Dimension>, asks: seq<Ask>,
                                            d: Design)
    requires Traced(w, start, required, asks, d)
    ensures Grown(d.criteria, start.criteria, required, w.read)
  {
    hide Justified;
    if asks != [] {
      var a := asks[|asks| - 1];
      CriteriaOnlyGrow(w, start, required, asks[..|asks| - 1], a.design);
      if !a.problem.NetlistFailed? {
        GrownFurther(a.design.criteria, d.criteria, FixOf(w, a).value.criteria, start.criteria, required, w.read);
      }
    }
  }

  lemma GrownFurther(cs: seq<Criterion>, more: seq<Criterion>, returned: seq<Criterion>, start: seq<Criterion>,
                     required: set<Dimension>, read: Reading)
    requires Grown(cs, start, required, read) && Extends(more, cs, returned, required - Covered(cs, read), read)
    ensures Grown(more, start, required, read)
  {
    ExtendingCovers(cs, start, required, read);
  }

  // ------------------------------------------------------------------------------------------------------
  // One round
  // ------------------------------------------------------------------------------------------------------

  ghost predicate Invariant(w: World, start: Design, required: set<Dimension>, s: Loop, asks: seq<Ask>) {
    && s.history == LogOf(w, asks)
    && Traced(w, start, required, asks, DesignOf(s))
    && s.probes == Probes(s.criteria, w.read)
    && (s.criteria == [] ==> s.assertions == [])
    && LeftOver(w, asks, s.assertions)
  }

  /** What is known when the last round leaves without a verdict. */
  ghost predicate LastRound(w: World, required: set<Dimension>, limit: int, s: Loop, asks: seq<Ask>) {
    && s.history != []
    && !w.aborted(limit, false)
    && var last := s.history[|s.history| - 1];
       && (last.status == ErcError <==> w.ercErrors(s.circuit) != [])
       && (last.status == Job(Succeeded) && last.points > 0 ==>
            && Checked(w, limit, DesignOf(s), s.assertions)
            && !(AllPass(s.assertions) && Uncovered(required, s.criteria, w.read) == {}))
       && (last.status == ErcError || (last.status == Job(Succeeded) && last.points > 0)
           || NeverSimulated(w, limit, DesignOf(s)))
       && ((last.status == Job(Succeeded) && last.points > 0) || LeftOver(w, asks, s.assertions))
  }

  /** Contract of one round: the requests after it, and what it came to. */
  ghost predicate RoundDone(w: World, start: Design, required: set<Dimension>, limit: int, step: Step, asks0: seq<Ask>,
                            asks: seq<Ask>) {
    match step
    case Exit(out) => Sound(w, start, required, limit, asks, out) && |asks| <= limit - 1
    case OutOfRounds(last) =>
      && asks == asks0 && |asks| + 1 == limit
      && Recorded(w, asks, DesignOf(last), last.history) && Traced(w, start, required, asks, DesignOf(last))
      && LastRound(w, required, limit, last, asks)
    case Again(next) => |asks| == |asks0| + 1 < limit && Invariant(w, start, required, next, asks)
  }

  function Log(s: Loop, round: int, status: RoundStatus, points: int): Loop {
    s.(history := s.history + [Record(round, status, points)])
  }

  /** Ask for a fix of `problem` and carry its design into the next round. */
  method Fix(w: World, round: int, limit: int, s: Loop, problem: Problem, required: set<Dimension>,
             ghost start: Design, asks0: seq<Ask>)
    returns (step: Step, asks: seq<Ask>)
    requires 1 <= round == |asks0| + 1 < limit && Recorded(w, asks0, DesignOf(s), s.history)
    requires (s.criteria == [] ==> s.assertions == [])
    requires Traced(w, start, required, asks0, DesignOf(s)) && s.probes == Probes(s.criteria, w.read)
    requires problem.NetlistFailed? || !w.aborted(round, true) ==>
               Justified(w, required, Ask(round, DesignOf(s), problem))
    requires if Judged(problem) then Checked(w, round, DesignOf(s), s.assertions) else LeftOver(w, asks0, s.assertions)
    ensures RoundDone(w, start, required, limit, step, asks0, asks)
  {
    hide Justified, Entry, Checked;
    var a := Ask(round, DesignOf(s), problem);
    asks := asks0 + [a];
    assert asks[..|asks| - 1] == asks0;
    if !problem.NetlistFailed? && w.aborted(round, true) {
      assert 0 <= round <= limit && w.aborted(round, true);
      return Exit(Thrown(Canceled)), asks;
    }
    var fixed := w.fix(round, s.circuit, s.analysis, problem);
    if fixed.None? {
      return Exit(Thrown(FixerThrew)), asks;
    }
    var circuit := w.withModels(fixed.value.circuit);
    if problem.NetlistFailed? {
      return Again(s.(circuit := circuit, analysis := fixed.value.analysis)), asks;
    }
    var criteria := MergeCriteria(s.criteria, fixed.value.criteria, required, w.read);
    var analysis := PreserveMetricOverlays(s.analysis, fixed.value.analysis, criteria);
    assert criteria == [] ==> s.criteria == [];
    return Again(Loop(circuit, analysis, criteria, Probes(criteria, w.read), s.assertions, s.history)), asks;
  }

  method Round(w: World, required: set<Dimension>, limit: int, round: int, s0: Loop, ghost start: Design,
               asks0: seq<Ask>)
    returns (step: Step, asks: seq<Ask>)
    requires 1 <= round == |asks0| + 1 <= limit && Invariant(w, start, required, s0, asks0)
    ensures RoundDone(w, start, required, limit, step, asks0, asks)
  {
    hide Traced, Probes, LeftOver;
    asks := asks0;
    if w.aborted(round, false) {
      return Exit(Thrown(Canceled)), asks0;
    }
    var ercErrors := w.ercErrors(s0.circuit);
    if ercErrors != [] {
      var s := Log(s0, round, ErcError, 0);
      if round >= limit {
        return OutOfRounds(s), asks0;
      }
      step, asks := Fix(w, round, limit, s, ErcErrors(ercErrors), required, start, asks0);
      return;
    }
    var text := w.netlist(s0.circuit, s0.analysis, s0.probes);
    if text.None? {
      var s := Log(s0, round, NetlistError, 0);
      if round >= limit {
        return OutOfRounds(s), asks0;
      }
      step, asks := Fix(w, round, limit, s, NetlistFailed, required, start, asks0);
      return;
    }
    var sim := w.simulate(round, text.value, s0.analysis);
    assert Simulated(w, round, DesignOf(s0), sim);
    match sim {
      case Threw(intentful) =>
        if intentful {
          return Exit(Thrown(IntentfulError)), asks0;
        }
        step := GiveUp(w, required, limit, Log(s0, round, InfraError, 0), sim, start, asks0);
      case NoCapacity(canceled) =>
        step := GiveUp(w, required, limit, Log(s0, round, if canceled then JobCanceled else PollTimeout, 0), sim,
          start, asks0);
      case Finished(status, infra, points, measurements, error) =>
        if status != Succeeded && infra {
          step := GiveUp(w, required, limit, Log(s0, round, Job(status), 0), sim, start, asks0);
          return;
        }
        var healthy := status == Succeeded && points > 0;
        if healthy && s0.criteria != [] && measurements == [] && error {
          step := GiveUp(w, required, limit, Log(s0, round, Job(status), points), sim, start, asks0);
          return;
        }
        step, asks := Judge(w, required, limit, round, s0, sim, start, asks0);
    }
  }

  /** End the run without a verdict. */
  method GiveUp(w: World, ghost required: set<Dimension>, ghost limit: int, s: Loop, ghost sim: SimOutcome,
                ghost start: Design, asks: seq<Ask>)
    returns (step: Step)
    requires |asks| + 1 <= limit && Recorded(w, asks, DesignOf(s), s.history) && !w.aborted(|asks| + 1, false)
    requires Traced(w, start, required, asks, DesignOf(s)) && Simulated(w, |asks| + 1, DesignOf(s), sim)
    requires GivesNoAnswer(sim, s.criteria)
    ensures step.Exit? && Sound(w, start, required, limit, asks, step.outcome)
  {
    hide Traced, Simulated, GivesNoAnswer;
    assert DesignOf(s) == Design(s.circuit, s.analysis, s.criteria);
    assert |s.history| == |asks| + 1;
    step := Exit(Returned(Inconclusive(s.circuit, s.analysis, |s.history|, s.history)));
  }

  /** Second half of a round: judge a finished simulation, return a positive verdict or ask for the fix it calls for. */
  method Judge(w: World, required: set<Dimension>, limit: int, round: int, s0: Loop, sim: SimOutcome,
               ghost start: Design, asks0: seq<Ask>)
    returns (step: Step, asks: seq<Ask>)
    requires 1 <= round == |asks0| + 1 <= limit && Invariant(w, start, required, s0, asks0) && !w.aborted(round, false)
    requires Settles(w, round, DesignOf(s0), sim)
    ensures RoundDone(w, start, required, limit, step, asks0, asks)
  {
    hide Traced, Probes, LeftOver;
    asks := asks0;
    var healthy := sim.status == Succeeded && sim.points > 0;
    var assertions := s0.assertions;
    if healthy && s0.criteria != [] {
      assertions := w.judge(sim.measurements, s0.analysis, s0.criteria, s0.circuit);
    }
    var specsMet := AllPass(assertions);
    var missing := if healthy && specsMet then Uncovered(required, s0.criteria, w.read) else {};
    var s := Log(s0, round, Job(sim.status), sim.points).(assertions := assertions);
    assert DesignOf(s) == DesignOf(s0);
    assert healthy ==> assertions == Verdicts(w, DesignOf(s), sim) && Checked(w, round, DesignOf(s), assertions);
    assert !healthy ==> NeverSimulated(w, round, DesignOf(s));
    hide Simulated, Settles, Verdicts;
    if healthy && specsMet && missing == {} {
      return Exit(Returned(Verdict(true, s.criteria != [], s.circuit, s.analysis, s.criteria, assertions, round,
        s.history, None))), asks0;
    }
    if round >= limit {
      return OutOfRounds(s), asks0;
    }
    var problem := if !healthy then Unhealthy else if !specsMet then SpecsUnmet else QuantitiesUnmeasured(missing);
    step, asks := Fix(w, round, limit, s, problem, required, start, asks0);
  }

  /** The verdict when the rounds run out. */
  method Exhausted(w: World, required: set<Dimension>, limit: int, s: Loop, ghost start: Design, asks: seq<Ask>)
    returns (r: DesignResult)
    requires limit >= 1 && |asks| + 1 == limit && Recorded(w, asks, DesignOf(s), s.history)
    requires Traced(w, start, required, asks, DesignOf(s))
    requires LastRound(w, required, limit, s, asks)
    ensures Sound(w, start, required, limit, asks, Returned(r)) && r.Verdict? && !r.ok
  {
    hide Traced, Checked, NeverSimulated, LeftOver;
    var last := s.history[|s.history| - 1];
    var healthy := last.status == Job(Succeeded) && last.points > 0;
    var specMiss := healthy && s.assertions != [] && !AllPass(s.assertions);
    var missing := if healthy then Uncovered(required, s.criteria, w.read) else {};
    var coverageMiss := healthy && !specMiss && missing != {};
    var warning := if last.status == ErcError then ErcStuck
                   else if specMiss then SpecMiss
                   else if coverageMiss then CoverageMiss
                   else NoSimulation;
    r := Verdict(false, false, s.circuit, s.analysis, s.criteria, s.assertions, |s.history|, s.history, Some(warning));
  }

  /** The loop.  Fixes are asked for at most once a round and never in the last, so there are fewer of them than
      rounds. */
  method RunDesignLoop(w: World, start: Design, maxRounds: Option<int>, required: set<Dimension>)
    returns (out: Outcome, asks: seq<Ask>)
    ensures Sound(w, start, required, RoundLimit(maxRounds), asks, out)
    ensures |asks| <= RoundLimit(maxRounds) - 1
  {
    hide Sound, LastRound, Invariant, Traced;
    var limit := RoundLimit(maxRounds);
    asks := [];
    if w.aborted(0, false) {
      CanceledAtStart(w, start, required, limit);
      return Thrown(Canceled), asks;
    }
    var s := Loop(w.withModels(start.circuit), start.analysis, start.criteria, Probes(start.criteria, w.read), [], []);
    StartsWell(w, start, required, s);
    var round := 1;
    while round <= limit
      invariant 1 <= round == |asks| + 1 <= limit && Invariant(w, start, required, s, asks)
      decreases limit - round
    {
      var step;
      step, asks := Round(w, required, limit, round, s, start, asks);
      match step {
        case Exit(o) =>
          return o, asks;
        case OutOfRounds(last) =>
          var r := Exhausted(w, required, limit, last, start, asks);
          return Returned(r), asks;
        case Again(next) =>
          s := next;
      }
      round := round + 1;
    }
  }

  lemma CanceledAtStart(w: World, start: Design, required: set<Dimension>, limit: int)
    requires limit >= 1 && w.aborted(0, false)
    ensures Sound(w, start, required, limit, [], Thrown(Canceled))
  {
  }

  lemma StartsWell(w: World, start: Design, required: set<Dimension>, s: Loop)
    requires s == Loop(w.withModels(start.circuit), start.analysis, start.criteria, Probes(start.criteria, w.read), [],
               [])
    ensures Invariant(w, start, required, s, [])
  {
  }

  /** A verdict that is given leaves every enforceable quantity of the prompt measured by a criterion that passed. */
  lemma RequiredQuantityPassed(w: World, required: set<Dimension>, r: DesignResult, d: Dimension) returns (i: nat)
    requires r.Verdict? && Earned(w, required, r) && d in required && d != Voltage
    requires forall m, a, cs, c :: |w.judge(m, a, cs, c)| == |cs|
    ensures i < |r.criteria| == |r.assertions| && DimensionOf(r.criteria[i], w.read) == d && r.assertions[i].pass
    ensures ReadsQuantity(r.criteria[i], w.read, d)
    ensures r.verified
  {
    assert d in Covered(r.criteria, w.read) by {
      assert d !in Uncovered(required, r.criteria, w.read);
    }
    i :| 0 <= i < |r.criteria| && DimensionOf(r.criteria[i], w.read) == d;
  }

  /** What a positive verdict says of the design it shows, in the loop's own round: no rule error, a netlist probing
      every current the criteria read, a simulation that succeeded with data, every criterion passed, and every quantity
      asked for measured. */
  lemma PositiveVerdictMeans(w: World, required: set<Dimension>, r: DesignResult)
    requires r.Verdict? && Earned(w, required, r)
    ensures w.ercErrors(r.circuit) == []
    ensures Picked(r.criteria, ReadsCurrent(w.read), ProbeOf, Probes(r.criteria, w.read))
    ensures exists text, sim: SimOutcome ::
              && w.netlist(r.circuit, r.analysis, Probes(r.criteria, w.read)) == Some(text)
              && w.simulate(r.rounds, text, r.analysis) == sim && sim.Finished? && sim.status == Succeeded
              && sim.points > 0
              && r.assertions == (if r.criteria == [] then []
                                  else w.judge(sim.measurements, r.analysis, r.criteria, r.circuit))
    ensures forall i :: 0 <= i < |r.assertions| ==> r.assertions[i].pass
    ensures forall d :: d in required && d != Voltage ==> MeasuresQuantity(r.criteria, w.read, d)
    ensures r.verified <==> r.criteria != []
  {
    ProbesCurrents(r.criteria, w.read);
    forall d | d in required && d != Voltage
      ensures MeasuresQuantity(r.criteria, w.read, d)
    {
      MissingMeans(required, r.criteria, w.read, d);
    }
    hide Probes, Uncovered, MeasuresQuantity, Picked;
    var sim :| Simulated(w, r.rounds, Final(r), sim) && Healthy(sim) && r.assertions == Verdicts(w, Final(r), sim);
    assert w.netlist(r.circuit, r.analysis, Probes(r.criteria, w.read)) == Some(TextOf(w, Final(r)).value);
  }

  ghost function ReadsCurrent(read: Reading): Criterion -> bool {
    (c: Criterion) => read.isCurrent(c.probe)
  }

  ghost function ProbeOf(c: Criterion): string {
    c.probe
  }

  /** The probes are those of the criteria that read a current, in order. */
  lemma {:induction false} ProbesCurrents(cs: seq<Criterion>, read: Reading)
    ensures Picked(cs, ReadsCurrent(read), ProbeOf, Probes(cs, read))
  {
    hide Picked;
    if cs == [] {
      PickedFromNone(ReadsCurrent(read), ProbeOf);
    } else {
      var init := cs[..|cs| - 1];
      ProbesCurrents(init, read);
      var keep, show, last := ReadsCurrent(read), ProbeOf, cs[|cs| - 1];
      PickedWithOneMore(init, keep, show, Probes(init, read), last);
      assert cs == init + [last];
      assert Probes(cs, read) == if keep(last) then Probes(init, read) + [show(last)] else Probes(init, read);
    }
  }

  /** Assertions left over are those of an earlier round's design. */
  lemma {:induction false} LeftOverIsEarlier(w: World, start: Design, required: set<Dimension>, asks: seq<Ask>,
                                             d: Design, results: seq<Assertion>) returns (k: nat)
    requires Traced(w, start, required, asks, d) && LeftOver(w, asks, results) && results != []
    ensures k < |asks| && asks[k].round == k + 1 && Checked(w, k + 1, asks[k].design, results)
  {
    hide Checked, Justified, Follows;
    var last := |asks| - 1;
    if Judged(asks[last].problem) {
      k := last;
    } else {
      k := LeftOverIsEarlier(w, start, required, asks[..last], asks[last].design, results);
    }
  }

  // ------------------------------------------------------------------------------------------------------
  // A failed result with an earlier round's assertions
  // ------------------------------------------------------------------------------------------------------

  /** Every circuit but `broken` passes the rule check; whatever is simulated fails its criteria; the one fix there is
      leads to `broken`. */
  function Unlucky(broken: Circuit, analysis: Analysis): World {
    World(c => c,
          c => if c == broken then ["E"] else [],
          (c, a, probes) => Some(""),
          (round, text, a) => Finished(Succeeded, false, 1, ["m"], false),
          (ms, a, cs, c) => seq(|cs|, i requires 0 <= i < |cs| => Assertion(cs[i], false)),
          (round, c, a, p) => Some(Design(broken, analysis, [])),
          (round, late) => false,
          Reading(probe => false, (c: Criterion) => c.probe))
  }

  /** The result shows the circuit of the second round, which failed the rule check and was never simulated, with the
      assertions of the first. */
  method StaleAssertions(first: Circuit, broken: Circuit, analysis: Analysis, c: Criterion)
    returns (r: DesignResult)
    requires first != broken
    ensures r.Verdict? && !r.ok && r.rounds == 2 && r.circuit == broken && r.warning == Some(ErcStuck)
    ensures r.assertions == [Assertion(c, false)]
    ensures Unlucky(broken, analysis).ercErrors(broken) != []
  {
    var w := Unlucky(broken, analysis);
    var start := Design(first, analysis, [c]);
    var out, asks := RunDesignLoop(w, start, Some(2), {});
    UnluckyRun(w, broken, analysis, start, asks, out);
    r := out.result;
  }

  /** What is simulated is healthy, is not `broken`, and fails. */
  lemma UnluckyRound(broken: Circuit, analysis: Analysis, round: int, d: Design)
    ensures forall sim :: Simulated(Unlucky(broken, analysis), round, d, sim) ==>
              d.circuit != broken && Healthy(sim) && !sim.infra && sim.measurements != []
    ensures forall results :: Checked(Unlucky(broken, analysis), round, d, results) ==>
              d.circuit != broken && |results| == |d.criteria|
              && forall i :: 0 <= i < |results| ==> results[i] == Assertion(d.criteria[i], false)
  {
  }

  /** The first round's design can only have fallen short of its specification, and the fix is `broken`. */
  lemma UnluckyFix(broken: Circuit, analysis: Analysis, start: Design, asks: seq<Ask>, d: Design)
    requires start.circuit != broken && |start.criteria| == 1
    requires |asks| == 1 && Traced(Unlucky(broken, analysis), start, {}, asks, d)
    ensures asks[0].problem == SpecsUnmet && asks[0].design == start && d.circuit == broken
  {
    var w, a := Unlucky(broken, analysis), asks[0];
    assert asks[..0] == [];
    assert Traced(w, start, {}, asks[..0], a.design);
    UnluckyRound(broken, analysis, a.round, a.design);
    hide Simulated, Checked;
  }

  lemma UnluckyRun(w: World, broken: Circuit, analysis: Analysis, start: Design, asks: seq<Ask>, out: Outcome)
    requires w == Unlucky(broken, analysis) && start.circuit != broken && |start.criteria| == 1
    requires Sound(w, start, {}, 2, asks, out) && |asks| <= 1
    ensures out.Returned? && out.result.Verdict?
    ensures var r := out.result;
            && !r.ok && r.rounds == 2 && r.circuit == broken && r.warning == Some(ErcStuck)
            && r.assertions == [Assertion(start.criteria[0], false)]
  {
    forall d, round, sim | Simulated(w, round, d, sim)
      ensures Healthy(sim) && !sim.infra && sim.measurements != []
    {
      UnluckyRound(broken, analysis, round, d);
    }
    hide Simulated, Justified, Follows;
    assert out.Returned?;
    assert out.result.Verdict?;
    UnluckyVerdict(w, broken, analysis, start, asks, out.result);
  }

  lemma UnluckyVerdict(w: World, broken: Circuit, analysis: Analysis, start: Design, asks: seq<Ask>, r: DesignResult)
    requires w == Unlucky(broken, analysis) && start.circuit != broken && |start.criteria| == 1
    requires r.Verdict? && Sound(w, start, {}, 2, asks, Returned(r)) && |asks| <= 1
    ensures !r.ok && r.rounds == 2 && r.circuit == broken && r.warning == Some(ErcStuck)
    ensures r.assertions == [Assertion(start.criteria[0], false)]
  {
    hide Simulated, Justified, Follows, Earned, Explained, NeverSimulated;
    assert Traced(w, start, {}, asks, Final(r));
    if asks != [] {
      UnluckyFix(broken, analysis, start, asks, Final(r));
    }
    NotEarned(w, broken, analysis, start, asks, r);
    if asks == [] {
      assert Explained(w, {}, asks, r, 2);
      OneRoundIsShort(w, asks, r);
    }
    StuckAtLast(w, broken, analysis, start, asks, r);
  }

  /** No result of a single judged criterion passes. */
  lemma NotEarned(w: World, broken: Circuit, analysis: Analysis, start: Design, asks: seq<Ask>, r: DesignResult)
    requires w == Unlucky(broken, analysis) && |start.criteria| == 1 && r.Verdict?
    requires if asks == [] then Final(r) == Design(start.circuit, start.analysis, start.criteria)
             else r.circuit == broken
    ensures !Earned(w, {}, r)
  {
    UnluckyRound(broken, analysis, r.rounds, Final(r));
    hide Checked;
  }

  lemma OneRoundIsShort(w: World, asks: seq<Ask>, r: DesignResult)
    requires r.Verdict? && Explained(w, {}, asks, r, 2)
    ensures r.rounds == 2
  {
  }

  lemma StuckAtLast(w: World, broken: Circuit, analysis: Analysis, start: Design, asks: seq<Ask>, r: DesignResult)
    requires w == Unlucky(broken, analysis) && |start.criteria| == 1 && |asks| == 1
    requires r.Verdict? && Explained(w, {}, asks, r, 2) && r.circuit == broken
    requires asks[0].problem == SpecsUnmet && asks[0].design == start
    ensures r.warning == Some(ErcStuck) && r.assertions == [Assertion(start.criteria[0], false)]
  {
    assert w.ercErrors(broken) != [];
    UnluckyRound(broken, analysis, 2, Final(r));
    UnluckyRound(broken, analysis, asks[0].round, start);
    hide Simulated, Checked, Unlucky;
  }
}
