/** Shapley blame over the trials of a validation scenario: what the walk, its repeats and the single-step
    pass come to once every trial is decided by the scenario's rule. */
module ScenarioBlame {
  import opened Seqs
  import opened Tapes
  import opened Conversations
  import opened PerturbedRuns
  import opened ShapleyWalk
  import opened ShapleyRank
  import opened ShapleyEfficiency
  import ShapleyBlocks
  import ShapleyRun

  function TrialsFor(sc: Scenario, wire: Wire, m: Matcher): Trials {
    (e: nat, t: nat, s: set<nat>) => TrialOf(sc, wire, m, s)
  }

  /** The single-step pass: trial `t` of step `e` forks at it. */
  function SinglesFor(sc: Scenario, wire: Wire, m: Matcher): Trials {
    (e: nat, t: nat, s: set<nat>) => if e < sc.turns then SingleTrialOf(sc, wire, m, e) else Undefined(false)
  }

  /** It comes to what coalition trials of the step alone would. */
  lemma SinglesAreCoalitions(sc: Scenario, wire: Wire, m: Matcher, j: nat, k: nat)
    requires j < sc.turns
    ensures TallyOf(SinglesFor(sc, wire, m), j, {j}, k) == TallyOf(TrialsFor(sc, wire, m), j, {j}, k)
  {
    SingleTrialIsCoalition(sc, wire, m, j);
    TalliesAgree(SinglesFor(sc, wire, m), TrialsFor(sc, wire, m), j, {j}, k);
  }

  lemma {:induction false} TalliesAgree(a: Trials, b: Trials, e: nat, s: set<nat>, k: nat)
    requires forall t: nat :: a(e, t, s) == b(e, t, s)
    ensures TallyOf(a, e, s, k) == TallyOf(b, e, s, k)
  {
    if k > 0 {
      TalliesAgree(a, b, e, s, k - 1);
    }
  }

  // ---- identical trials -----------------------------------------------------------------------------------

  ghost predicate Always(trials: Trials, s: set<nat>, v: Verdict) {
    forall e, t :: trials(e, t, s) == v
  }

  lemma {:induction false} IdenticalTrials(trials: Trials, e: nat, s: set<nat>, k: nat, v: Verdict)
    requires Always(trials, s, v)
    ensures var t := TallyOf(trials, e, s, k);
            && t.flips == (if v.Flip? then k else 0) && t.noFlips == (if v.NoFlip? then k else 0)
  {
    if k > 0 {
      IdenticalTrials(trials, e, s, k - 1, v);
      assert trials(e, k - 1, s) == v;
    }
  }

  /** The rate of a coalition whose trials all agree. */
  function RateOf(v: Verdict, k: nat): Option<real> {
    if k == 0 || v.Undefined? then None else Some(if v.Flip? then 1.0 else 0.0)
  }

  lemma SteadyRate(trials: Trials, e: nat, s: set<nat>, k: nat, v: Verdict)
    requires Always(trials, s, v)
    ensures GameOf(trials, k)(e, s) == RateOf(v, k)
    ensures TallyOf(trials, e, s, k).Rate() == RateOf(v, k)
  {
    IdenticalTrials(trials, e, s, k, v);
    RateOfTally(TallyOf(trials, e, s, k), k, v);
  }

  lemma RateOfTally(t: Tally, k: nat, v: Verdict)
    requires t.flips == (if v.Flip? then k else 0) && t.noFlips == (if v.NoFlip? then k else 0)
    ensures t.Rate() == RateOf(v, k)
  {
    if k > 0 && !v.Undefined? {
      assert t.Valid() == k;
      var kr := k as real;
      assert kr / kr == 1.0 && 0.0 / kr == 0.0;
      assert t.flips as real == if v.Flip? then kr else 0.0;
    }
  }

  /** The single-step flip rate when all trials agree; an undefined one reads 0. */
  function AgreedRate(v: Verdict, k: nat): real {
    if k > 0 && v.Flip? then 1.0 else 0.0
  }

  lemma SteadyFlipRate(trials: Trials, e: nat, s: set<nat>, k: nat, v: Verdict)
    requires Always(trials, s, v)
    ensures FlipRate(TallyOf(trials, e, s, k)) == AgreedRate(v, k)
  {
    SteadyRate(trials, e, s, k, v);
  }

  // ---- a walk that adds one step at a time ----------------------------------------------------------------

  /** The game's value of the first `i` steps, whenever it is asked for. */
  ghost predicate PrefixValues(g: Game, n: nat, v: nat -> Option<real>) {
    forall e: nat, i: nat :: 1 <= i <= n ==> g(e, FirstSteps(i)) == v(i)
  }

  /** The value the walk holds after the first `i` steps. */
  function HeldAfter(v: nat -> Option<real>, i: nat): real {
    if i == 0 then 0.0 else Held(v(i), HeldAfter(v, i - 1))
  }

  ghost predicate Earned(w: Walk, v: nat -> Option<real>, j: nat) {
    Credit(w)(j) == HeldAfter(v, j + 1) - HeldAfter(v, j)
  }

  /** `w` has added the first `i` steps, each credited with its rise. */
  ghost predicate Added(w: Walk, v: nat -> Option<real>, i: nat) {
    && w.coalition == FirstSteps(i) && w.base == HeldAfter(v, i)
    && forall j: nat :: j < i ==> Earned(w, v, j)
  }

  lemma {:induction false} WalkOneByOne(g: Game, clock: nat, n: nat, v: nat -> Option<real>, i: nat)
    ensures PrefixValues(g, n, v) && i <= n ==> Added(WalkBlocks(g, clock, ShapleyBlocks.OneByOne(i)), v, i)
  {
    if i == 0 {
      NothingAdded(g, clock, v);
    } else {
      WalkOneByOne(g, clock, n, v, i - 1);
      LastOfOneByOne(g, clock, i);
      AddNext(g, WalkBlocks(g, clock, ShapleyBlocks.OneByOne(i - 1)), n, v, i - 1);
    }
  }

  lemma NothingAdded(g: Game, clock: nat, v: nat -> Option<real>)
    ensures Added(WalkBlocks(g, clock, ShapleyBlocks.OneByOne(0)), v, 0)
  {
    assert ShapleyBlocks.OneByOne(0) == [];
  }

  lemma AddNext(g: Game, w: Walk, n: nat, v: nat -> Option<real>, i: nat)
    ensures PrefixValues(g, n, v) && i < n && Added(w, v, i) ==> Added(AfterBlock(g, w, [i]), v, i + 1)
  {
    if PrefixValues(g, n, v) && i < n && Added(w, v, i) {
      assert g(w.clock, FirstSteps(i + 1)) == v(i + 1);
      AddOne(g, w, v, i);
    }
  }

  lemma LastOfOneByOne(g: Game, clock: nat, i: nat)
    requires i > 0
    ensures WalkBlocks(g, clock, ShapleyBlocks.OneByOne(i))
         == AfterBlock(g, WalkBlocks(g, clock, ShapleyBlocks.OneByOne(i - 1)), [i - 1])
  {
    assert ShapleyBlocks.OneByOne(i)[..i - 1] == ShapleyBlocks.OneByOne(i - 1);
    assert ShapleyBlocks.OneByOne(i)[i - 1] == [i - 1];
  }

  /** `after` is `w` with step `i` added at value `full`. */
  ghost predicate OneMore(w: Walk, after: Walk, i: nat, full: real) {
    && after.coalition == FirstSteps(i + 1) && after.base == full
    && Credit(after)(i) == full - w.base
    && forall j: nat :: j != i ==> Credit(after)(j) == Credit(w)(j)
  }

  lemma AddOne(g: Game, w: Walk, v: nat -> Option<real>, i: nat)
    requires Added(w, v, i) && g(w.clock, FirstSteps(i + 1)) == v(i + 1)
    ensures Added(AfterBlock(g, w, [i]), v, i + 1)
  {
    OneMoreStep(g, w, i);
    CreditOne(w, AfterBlock(g, w, [i]), v, i, Held(v(i + 1), w.base));
  }

  lemma CreditOne(w: Walk, after: Walk, v: nat -> Option<real>, i: nat, full: real)
    requires Added(w, v, i) && OneMore(w, after, i, full) && full == Held(v(i + 1), w.base)
    ensures Added(after, v, i + 1)
  {
    forall j: nat | j < i + 1 ensures Earned(after, v, j) {
      if j < i {
        assert Earned(w, v, j) && Credit(after)(j) == Credit(w)(j);
      }
    }
  }

  lemma OneMoreStep(g: Game, w: Walk, step: nat)
    requires w.coalition == FirstSteps(step)
    ensures OneMore(w, AfterBlock(g, w, [step]), step, Held(g(w.clock, FirstSteps(step + 1)), w.base))
  {
    var full := Held(g(w.clock, FirstSteps(step + 1)), w.base);
    assert FirstSteps(step) + {step} == FirstSteps(step + 1);
    SingletonBlock(g, w.clock, w.coalition, w.base, step);
    SingletonSamples(g, w, step, full);
  }

  lemma CreditOneByOne(g: Game, clock: nat, n: nat, v: nat -> Option<real>, j: nat)
    ensures PrefixValues(g, n, v) && j < n ==>
              Credit(WalkBlocks(g, clock, ShapleyBlocks.OneByOne(n)))(j) == HeldAfter(v, j + 1) - HeldAfter(v, j)
  {
    WalkOneByOne(g, clock, n, v, n);
    assert PrefixValues(g, n, v) && j < n ==> Earned(WalkBlocks(g, clock, ShapleyBlocks.OneByOne(n)), v, j);
  }

  lemma {:induction false} ValueOneByOne(g: Game, n: nat, v: nat -> Option<real>, m: nat, j: nat)
    requires PrefixValues(g, n, v) && j < n
    ensures ShapleyValue(Repeats(g, ShapleyBlocks.OneByOne(n), m))(j)
         == if m == 0 then 0.0 else HeldAfter(v, j + 1) - HeldAfter(v, j)
  {
    if m > 0 {
      var walks := Repeats(g, ShapleyBlocks.OneByOne(n), m);
      var credit := HeldAfter(v, j + 1) - HeldAfter(v, j);
      forall r | 0 <= r < m ensures CreditsOf(walks, j)[r] == credit {
        RepeatsAt(g, ShapleyBlocks.OneByOne(n), m, r);
        CreditOneByOne(g, StartClock(g, ShapleyBlocks.OneByOne(n), r), n, v, j);
      }
      MeanOfConstant(CreditsOf(walks, j), credit);
    }
  }

  // ---- scenarios ------------------------------------------------------------------------------------------

  lemma ScenarioTrials(sc: Scenario, wire: Wire, m: Matcher, s: set<nat>)
    requires WellFormed(sc) && wire.Contract() && m.Contract() && Proper(sc, s)
    ensures Always(TrialsFor(sc, wire, m), s, Outcome(sc, s))
  {
    CoalitionOutcome(sc, wire, m, s);
    SameTrials(sc, wire, m, s, Outcome(sc, s));
  }

  lemma SameTrials(sc: Scenario, wire: Wire, m: Matcher, s: set<nat>, v: Verdict)
    requires TrialOf(sc, wire, m, s) == v
    ensures Always(TrialsFor(sc, wire, m), s, v)
  {
  }

  /** The trials of a tape of `turns` steps agree, and flip exactly for the coalitions that satisfy `trips`;
      those holding the final step are undefined. */
  ghost predicate Ruled(trials: Trials, turns: nat, trips: set<nat> -> bool) {
    forall s :: s != {} && s <= FirstSteps(turns) ==> Always(trials, s, RuledOutcome(turns, trips, s))
  }

  function RuledOutcome(turns: nat, trips: set<nat> -> bool, s: set<nat>): Verdict {
    if turns - 1 in s then Undefined(false) else if trips(s) then Flip else NoFlip
  }

  /** `trips` says which coalitions short of the final step trip the scenario's rule. */
  ghost predicate Agrees(sc: Scenario, trips: set<nat> -> bool) {
    forall s :: s <= FirstSteps(sc.turns) && sc.turns - 1 !in s ==> Trips(sc, s) == trips(s)
  }

  lemma ScenarioIsRuled(sc: Scenario, wire: Wire, m: Matcher, trips: set<nat> -> bool)
    ensures WellFormed(sc) && wire.Contract() && m.Contract() && Agrees(sc, trips) ==>
              Ruled(TrialsFor(sc, wire, m), sc.turns, trips)
  {
    if WellFormed(sc) && wire.Contract() && m.Contract() && Agrees(sc, trips) {
      forall s | s != {} && s <= FirstSteps(sc.turns)
        ensures Always(TrialsFor(sc, wire, m), s, RuledOutcome(sc.turns, trips, s))
      {
        ScenarioTrials(sc, wire, m, s);
        assert Outcome(sc, s) == RuledOutcome(sc.turns, trips, s);
      }
    }
  }

  // ---- blame of ruled trials ------------------------------------------------------------------------------

  /** `v({0..i-1})` */
  function PrefixRate(turns: nat, trips: set<nat> -> bool, k: nat): nat -> Option<real> {
    (i: nat) => RateOf(RuledOutcome(turns, trips, FirstSteps(i)), k)
  }

  lemma RuledPrefixes(trials: Trials, turns: nat, trips: set<nat> -> bool, k: nat)
    requires Ruled(trials, turns, trips)
    ensures PrefixValues(GameOf(trials, k), turns, PrefixRate(turns, trips, k))
  {
    forall e: nat, i: nat | 1 <= i <= turns
      ensures GameOf(trials, k)(e, FirstSteps(i)) == PrefixRate(turns, trips, k)(i)
    {
      assert 0 in FirstSteps(i);
      SteadyRate(trials, e, FirstSteps(i), k, RuledOutcome(turns, trips, FirstSteps(i)));
    }
  }

  /** The rule trips on a prefix exactly from length `from` on. */
  ghost predicate TripsFrom(turns: nat, trips: set<nat> -> bool, from: nat) {
    forall i: nat :: 1 <= i < turns ==> (trips(FirstSteps(i)) <==> i >= from)
  }

  lemma {:induction false} HeldFrom(turns: nat, trips: set<nat> -> bool, k: nat, from: nat, i: nat)
    requires TripsFrom(turns, trips, from) && 1 <= from && from != turns && i <= turns
    ensures HeldAfter(PrefixRate(turns, trips, k), i) == if k > 0 && i >= from then 1.0 else 0.0
  {
    if i > 0 {
      HeldFrom(turns, trips, k, from, i - 1);
      assert turns - 1 in FirstSteps(i) <==> i == turns;
      assert i < turns ==> (trips(FirstSteps(i)) <==> i >= from);
    }
  }

  /** Where the rule trips from prefix length `from` on, only step `from - 1` earns anything. */
  lemma RuledValue(trials: Trials, turns: nat, trips: set<nat> -> bool, k: nat, samples: nat, from: nat, j: nat)
    requires Ruled(trials, turns, trips) && j < turns
    requires TripsFrom(turns, trips, from) && 1 <= from && from != turns
    ensures ShapleyValue(Repeats(GameOf(trials, k), ShapleyBlocks.OneByOne(turns), samples))(j)
         == if k > 0 && samples > 0 && j + 1 == from then 1.0 else 0.0
  {
    RuledPrefixes(trials, turns, trips, k);
    ValueOneByOne(GameOf(trials, k), turns, PrefixRate(turns, trips, k), samples, j);
    HeldFrom(turns, trips, k, from, j);
    HeldFrom(turns, trips, k, from, j + 1);
  }

  /** Nothing of the agent is left to run once the final step is forced, so every repeat's estimate of the full
      coalition is UNDEFINED: the values add up to what the walk held before the final step. */
  lemma RuledFullIsUndefined(trials: Trials, turns: nat, trips: set<nat> -> bool, k: nat, samples: nat, r: nat)
    requires Ruled(trials, turns, trips) && turns > 0 && r < samples
    ensures var g := GameOf(trials, k);
            FullEstimate(g, Repeats(g, ShapleyBlocks.OneByOne(turns), samples)[r]).None?
  {
    var g, blocks := GameOf(trials, k), ShapleyBlocks.OneByOne(turns);
    RepeatsAt(g, blocks, samples, r);
    RuledPrefixes(trials, turns, trips, k);
    FullIsPrefix(g, StartClock(g, blocks, r), turns, PrefixRate(turns, trips, k));
    assert turns - 1 in FirstSteps(turns);
  }

  lemma FullIsPrefix(g: Game, clock: nat, n: nat, v: nat -> Option<real>)
    requires PrefixValues(g, n, v) && n > 0
    ensures FullEstimate(g, WalkBlocks(g, clock, ShapleyBlocks.OneByOne(n))) == v(n)
  {
    var blocks := ShapleyBlocks.OneByOne(n);
    var w := WalkBlocks(g, clock, blocks);
    WalkOneByOne(g, clock, n, v, n);
    FinalBase(g, clock, blocks, WalkBlocks(g, clock, blocks[..n - 1]));
    assert 0 in FirstSteps(n);
    assert g(w.clock - 1, FirstSteps(n)) == v(n);
  }

  /** The single-step flip rate of a step. */
  lemma RuledSingle(trials: Trials, turns: nat, trips: set<nat> -> bool, k: nat, e: nat, j: nat)
    requires Ruled(trials, turns, trips) && j < turns
    ensures FlipRate(TallyOf(trials, e, {j}, k)) == if k > 0 && j + 1 < turns && trips({j}) then 1.0 else 0.0
  {
    assert {j} <= FirstSteps(turns) && {j} != {};
    SteadyFlipRate(trials, e, {j}, k, RuledOutcome(turns, trips, {j}));
  }

  /** What `shapley_rank` must report about a step of a ruled tape, with both thresholds at 1/2. */
  ghost predicate Reading(r: ShapleyResult, j: nat, turns: nat, trips: set<nat> -> bool, from: nat, k: nat, samples: nat) {
    && r.step == j
    && r.shapleyValue == (if k > 0 && samples > 0 && j + 1 == from then 1.0 else 0.0)
    && r.sufficiencyScore == (if k > 0 && j + 1 < turns && trips({j}) then 1.0 else 0.0)
    && (r.necessity <==> k > 0 && samples > 0 && j + 1 == from)
    && (r.sufficiency <==> k > 0 && j + 1 < turns && trips({j}))
  }

  /** A whole `shapley_rank` run over a scenario. */
  method BlameScenario(
    sc: Scenario, wire: Wire, m: Matcher, k: nat, samples: nat, ghost trips: set<nat> -> bool, ghost from: nat)
    returns (results: seq<ShapleyResult>)
    requires sc.turns > 0 && Ruled(TrialsFor(sc, wire, m), sc.turns, trips)
    requires TripsFrom(sc.turns, trips, from) && 1 <= from && from != sc.turns
    ensures |results| == sc.turns
    ensures forall j :: 0 <= j < sc.turns ==> Reading(results[j], j, sc.turns, trips, from, k, samples)
  {
    var trials := TrialsFor(sc, wire, m);
    var singles := SinglesFor(sc, wire, m);
    var report, blocks := ShapleyRun.Run(singles, trials, sc.turns, k, samples, [], 0.5, 0.5);
    ShapleyBlocks.OneByOneBlocks(sc.turns);
    results := report.results;
    forall j | 0 <= j < sc.turns ensures Reading(results[j], j, sc.turns, trips, from, k, samples) {
      RuledValue(trials, sc.turns, trips, k, samples, from, j);
      RuledSingle(trials, sc.turns, trips, k, j, j);
      SinglesAreCoalitions(sc, wire, m, j, k);
      assert ShapleyRun.Reported(results[j], j, Repeats(GameOf(trials, k), blocks, samples), singles, k, 0.5, 0.5);
      ShapleyRun.ScoredOnce(results[j].sufficiencyScore, singles, j, k);
    }
  }
}
