/** The concurrent-branch validation suite: one setup turn, `n` sibling branches that raced, a merge turn and a
    final turn, with a fault planted in exactly one branch, or in none. */
module ConcurrentValidate {
  import opened Tapes
  import opened Text
  import opened Conversations
  import opened PerturbedRuns
  import opened Seqs
  import opened ShapleyWalk
  import opened ShapleyRank
  import opened ScenarioBlame
  import opened SingleCause
  import ShapleyBlocks

  const BRANCH_DONE := " - concurrent branch run complete"
  const BRANCH_FAULT := " - concurrent branch fault triggered"
  const BRANCH_VOICE := Voice("SUCCESS" + BRANCH_DONE, "FAIL" + BRANCH_FAULT, Graded)

  lemma BranchTextsInert()
    ensures Inert(BRANCH_DONE) && Inert(BRANCH_FAULT) && 'S' !in BRANCH_FAULT
  {
  }

  lemma BranchVoiceSpeaks()
    ensures Speaks(BRANCH_VOICE)
  {
    BranchTextsInert();
    TextsSpeak(BRANCH_DONE, BRANCH_FAULT);
  }

  // ---- the multi-branch agent -----------------------------------------------------------------------------

  function TotalTurns(n: nat): nat { n + 3 }

  /** `" | ".join(texts)` */
  function Merged(texts: seq<string>): string {
    if texts == [] then ""
    else if |texts| == 1 then texts[0]
    else Merged(texts[..|texts| - 1]) + [' '] + ['|'] + [' '] + texts[|texts| - 1]
  }

  function BranchBase(setup: string): seq<Message> {
    [Message("user", "start")] + Echo(setup)
  }

  function SlotText(i: nat): string {
    "branch-" + Decimal(i) + "-check"
  }

  function MergeMessages(base: seq<Message>, replies: seq<string>): seq<Message> {
    base + Echo(Merged(replies))
  }

  /** The conversation sent after some texts: a branch never sees its siblings, the merge sees them all. */
  function BranchTranscript(n: nat): seq<string> -> seq<Message> {
    (texts: seq<string>) =>
      if texts == [] then [Message("user", "start")]
      else
        var base := BranchBase(texts[0]);
        if |texts| <= n then base + [Message("user", SlotText(|texts| - 1))]
        else
          var merge := MergeMessages(base, texts[1..n + 1]);
          if |texts| == n + 1 then merge
          else merge + Echo(texts[n + 1])
  }

  /** A branch asks for its own slot behind the setup, and sees no sibling. */
  lemma BranchAsks(n: nat, texts: seq<string>)
    requires 1 <= |texts| <= n
    ensures BranchTranscript(n)(texts)
         == [Message("user", "start")] + Echo(texts[0]) + [Message("user", SlotText(|texts| - 1))]
  {
  }

  lemma BarMarker(a: string, b: string, m: string)
    requires IsMarker(m)
    ensures Contains(a + [' '] + ['|'] + [' '] + b, m) <==> Contains(a, m) || Contains(b, m)
  {
    var empty := "";
    Delimited(a + [' '] + ['|'], ' ', b, m);
    Delimited(a + [' '], '|', empty, m);
    assert a + [' '] + ['|'] + empty == a + [' '] + ['|'];
    Delimited(a, ' ', empty, m);
    assert a + [' '] + empty == a + [' '];
    NotInInert(empty, m);
  }

  lemma {:induction false} MergedShows(texts: seq<string>, m: string)
    requires IsMarker(m)
    ensures Contains(Merged(texts), m) <==> SomeText(texts, m)
  {
    if texts == [] {
      NotInInert("", m);
    } else {
      var front, last := texts[..|texts| - 1], texts[|texts| - 1];
      assert front + [last] == texts;
      SomeTextAppend(front, last, m);
      if |texts| == 1 {
        assert front == [];
      } else {
        MergedShows(front, m);
        BarMarker(Merged(front), last, m);
      }
    }
  }

  lemma BaseShows(setup: string, m: string)
    requires IsMarker(m)
    ensures (Shown(BranchBase(setup), m) <==> Contains(setup, m)) && PlainRoles(BranchBase(setup))
  {
    InertMessage(Message("user", "start"), m);
    EchoShows(setup, m);
    ShownAppend([Message("user", "start")], Echo(setup), m);
  }

  /** What the final turn sends. */
  function FinalMessages(setup: string, branches: seq<string>, merge: string): seq<Message> {
    MergeMessages(BranchBase(setup), branches) + Echo(merge)
  }

  lemma FinalShows(setup: string, branches: seq<string>, merge: string, m: string)
    requires IsMarker(m)
    ensures Shown(FinalMessages(setup, branches, merge), m)
        <==> Contains(setup, m) || SomeText(branches, m) || Contains(merge, m)
    ensures PlainRoles(FinalMessages(setup, branches, merge))
  {
    BaseShows(setup, m);
    EchoShows(Merged(branches), m);
    EchoShows(merge, m);
    MergedShows(branches, m);
    ShownAppend(BranchBase(setup), Echo(Merged(branches)), m);
    ShownAppend(MergeMessages(BranchBase(setup), branches), Echo(merge), m);
  }

  lemma SplitTexts(n: nat, texts: seq<string>, m: string)
    requires |texts| == n + 2
    ensures SomeText(texts, m)
        <==> Contains(texts[0], m) || SomeText(texts[1..n + 1], m) || Contains(texts[n + 1], m)
  {
    var branches := texts[1..n + 1];
    if SomeText(texts, m) {
      var t :| 0 <= t < |texts| && Contains(texts[t], m);
      if 1 <= t <= n {
        assert branches[t - 1] == texts[t];
      }
    }
    if SomeText(branches, m) {
      var t :| 0 <= t < |branches| && Contains(branches[t], m);
      assert texts[t + 1] == branches[t];
    }
  }

  lemma AsksFinal(n: nat, texts: seq<string>)
    requires |texts| == n + 2
    ensures BranchTranscript(n)(texts) == FinalMessages(texts[0], texts[1..n + 1], texts[n + 1])
  {
  }

  lemma BranchBodyShows(n: nat, texts: seq<string>, m: string)
    requires |texts| == n + 2 && IsMarker(m)
    ensures Contains(Body(BranchTranscript(n)(texts)), m) <==> SomeText(texts, m)
  {
    AsksFinal(n, texts);
    FinalShows(texts[0], texts[1..n + 1], texts[n + 1], m);
    BodyShows(FinalMessages(texts[0], texts[1..n + 1], texts[n + 1]), m);
    SplitTexts(n, texts, m);
  }

  lemma BranchesShowAll(sc: Scenario, n: nat, texts: seq<string>)
    requires sc.ask == BranchTranscript(n) && sc.turns == TotalTurns(n)
    ensures ShowsAll(sc, texts)
  {
    if |texts| == n + 2 {
      forall m: string | IsMarker(m) ensures Contains(Body(sc.ask(texts)), m) <==> SomeText(texts, m) {
        BranchBodyShows(n, texts, m);
      }
    }
  }

  // ---- the planted fault ----------------------------------------------------------------------------------

  const FAULT_MARKER := "FAULT_MARKER"

  function FaultText(): string { "branch fault triggered " + FAULT_MARKER }

  /** The marker at the guilty step and filler everywhere else; `None` is the negative control. */
  function InjectedAt(guilty: Option<nat>): nat -> string {
    (step: nat) => if guilty == Some(step) then FaultText() else NEUTRAL
  }

  function BranchScenario(v: Voice, n: nat, guilty: Option<nat>): Scenario {
    Scenario(TotalTurns(n), BranchTranscript(n), InjectedAt(guilty), AnyOf([FAULT_MARKER]), v)
  }

  lemma FaultIsMarker()
    ensures IsMarker(FAULT_MARKER)
  {
  }

  lemma FaultShows()
    ensures Contains(FaultText(), FAULT_MARKER) && !Contains(NEUTRAL, FAULT_MARKER)
  {
    EndsIn("branch fault triggered ", FAULT_MARKER);
    FaultIsMarker();
    NeutralIsAmbiguous();
    NotInInert(NEUTRAL, FAULT_MARKER);
  }

  lemma BranchesTell(sc: Scenario, n: nat)
    requires sc.ask == BranchTranscript(n) && sc.turns == TotalTurns(n)
    requires forall i :: 0 <= i < |sc.rule.markers| ==> IsMarker(sc.rule.markers[i])
    ensures Telling(sc)
  {
    forall texts: seq<string> ensures ShowsAll(sc, texts) {
      BranchesShowAll(sc, n, texts);
    }
  }

  lemma OneMarkerTells(sc: Scenario, n: nat, marker: string)
    requires sc.ask == BranchTranscript(n) && sc.turns == TotalTurns(n)
    requires sc.rule == AnyOf([marker]) && IsMarker(marker)
    ensures Telling(sc)
  {
    BranchesTell(sc, n);
  }

  lemma BranchIsQuiet(v: Voice, n: nat, guilty: Option<nat>)
    requires Speaks(v)
    ensures Quiet(BranchScenario(v, n, guilty)) && Gradable(BranchScenario(v, n, guilty).voice)
  {
  }

  lemma BranchGuards(v: Voice, n: nat, guilty: Option<nat>)
    requires guilty.Some? ==> 1 <= guilty.value <= n
    ensures Guarded(BranchScenario(v, n, guilty))
  {
  }

  lemma BranchTells(v: Voice, n: nat, guilty: Option<nat>)
    ensures Telling(BranchScenario(v, n, guilty))
  {
    FaultIsMarker();
    OneMarkerTells(BranchScenario(v, n, guilty), n, FAULT_MARKER);
  }

  lemma BranchIsWellFormed(v: Voice, n: nat, guilty: Option<nat>)
    requires Speaks(v) && (guilty.Some? ==> 1 <= guilty.value <= n)
    ensures PerturbedRuns.WellFormed(BranchScenario(v, n, guilty))
  {
    BranchIsQuiet(v, n, guilty);
    BranchTells(v, n, guilty);
    BranchGuards(v, n, guilty);
  }

  /** A coalition trips the rule exactly when it forces the guilty branch. */
  lemma BranchAgrees(v: Voice, n: nat, guilty: Option<nat>)
    ensures Agrees(BranchScenario(v, n, guilty), HitBy(guilty))
  {
    forall s: set<nat> ensures Trips(BranchScenario(v, n, guilty), s) == HitBy(guilty)(s) {
      BranchTrips(v, n, guilty, s);
    }
  }

  lemma InjectedFault(guilty: Option<nat>, x: nat)
    ensures Contains(InjectedAt(guilty)(x), FAULT_MARKER) <==> guilty == Some(x)
  {
    FaultShows();
  }

  lemma BranchTrips(v: Voice, n: nat, guilty: Option<nat>, s: set<nat>)
    ensures Trips(BranchScenario(v, n, guilty), s) == Hit(guilty, s)
  {
    var sc := BranchScenario(v, n, guilty);
    forall x: nat ensures Contains(sc.injected(x), FAULT_MARKER) <==> guilty == Some(x) {
      InjectedFault(guilty, x);
    }
    assert sc.rule.markers[0] == FAULT_MARKER;
    if Hit(guilty, s) {
      assert Contains(sc.injected(guilty.value), FAULT_MARKER);
    }
  }

  lemma BranchIsRuled(v: Voice, wire: Wire, m: Matcher, n: nat, guilty: Option<nat>)
    requires Speaks(v) && wire.Contract() && m.Contract() && (guilty.Some? ==> 1 <= guilty.value <= n)
    ensures Ruled(TrialsFor(BranchScenario(v, n, guilty), wire, m), TotalTurns(n), HitBy(guilty))
  {
    assert BranchScenario(v, n, guilty).turns == TotalTurns(n);
    BranchIsWellFormed(v, n, guilty);
    BranchAgrees(v, n, guilty);
    ScenarioIsRuled(BranchScenario(v, n, guilty), wire, m, HitBy(guilty));
  }

  // ---- the suite ------------------------------------------------------------------------------------------

  /** The recorded batches: the siblings as one batch, if there are at least two. */
  function Siblings(n: nat): (batches: seq<seq<int>>)
  {
    if n < 2 then [] else [seq(n, i requires 0 <= i < n => i + 1)]
  }

  /** The batch holds the steps of the branches, all of them and no other. */
  lemma SiblingsAre(n: nat)
    requires n >= 2
    ensures |Siblings(n)| == 1 && forall j: int :: j in Siblings(n)[0] <==> 1 <= j <= n
  {
    forall j: int | 1 <= j <= n ensures j in Siblings(n)[0] {
      assert Siblings(n)[0][j - 1] == j;
    }
  }

  lemma SiblingsWellFormed(n: nat)
    ensures ShapleyBlocks.WellFormed(TotalTurns(n), Siblings(n))
    ensures TotalTurns(n) - 1 !in ShapleyBlocks.Concat(Siblings(n))
  {
    if n >= 2 {
      var batch := Siblings(n)[0];
      assert Siblings(n)[..0] == [];
      assert ShapleyBlocks.Concat(Siblings(n)) == batch;
    }
  }

  method RunShapley(wire: Wire, m: Matcher, n: nat, guilty: Option<nat>, k: nat, samples: nat)
    returns (results: seq<ShapleyResult>)
    requires wire.Contract() && m.Contract() && (guilty.Some? ==> 1 <= guilty.value <= n)
    ensures |results| == TotalTurns(n)
    ensures forall x :: 0 <= x < TotalTurns(n) ==> Reads(results[x], x, Found(guilty, k, samples))
  {
    BranchVoiceSpeaks();
    BranchIsRuled(BRANCH_VOICE, wire, m, n, guilty);
    SiblingsWellFormed(n);
    var sc := BranchScenario(BRANCH_VOICE, n, guilty);
    results := BlameSingleCause(SinglesFor(sc, wire, m), TrialsFor(sc, wire, m), TotalTurns(n), guilty, Siblings(n), k,
                                samples);
  }

  datatype BranchReport = Ran(results: seq<ShapleyResult>) | ValueError

  /** Every step reads as if `cause` were the guilty one. */
  ghost predicate AllRead(results: seq<ShapleyResult>, n: nat, cause: Option<nat>) {
    |results| == TotalTurns(n) && forall x :: 0 <= x < TotalTurns(n) ==> Reads(results[x], x, cause)
  }

  /** For every number of branches and every guilty one, the run credits the guilty branch with 1 and every
      other step with 0 if and only if there are trials and repeats; otherwise every step reads 0. */
  method RunShapleyMultiBranch(wire: Wire, m: Matcher, faulty: int, n: nat, k: nat, samples: nat)
    returns (r: BranchReport)
    requires wire.Contract() && m.Contract()
    ensures r.ValueError? <==> !(1 <= faulty <= n)
    ensures r.Ran? ==>
              && 1 <= faulty && AllRead(r.results, n, Found(Some(faulty), k, samples))
              && (AllRead(r.results, n, Some(faulty)) <==> k > 0 && samples > 0)
  {
    if !(1 <= faulty <= n) {
      return ValueError;
    }
    var results := RunShapley(wire, m, n, Some(faulty), k, samples);
    assert Reads(results[faulty], faulty, Found(Some(faulty), k, samples));
    return Ran(results);
  }

  /** With no marker planted anywhere every step reads 0 and none is necessary. */
  method RunShapleyNegativeControl(wire: Wire, m: Matcher, n: nat, k: nat, samples: nat)
    returns (results: seq<ShapleyResult>)
    requires wire.Contract() && m.Contract()
    ensures |results| == TotalTurns(n)
    ensures forall x :: 0 <= x < TotalTurns(n) ==> results[x].shapleyValue == 0.0 && !results[x].necessity
  {
    results := RunShapley(wire, m, n, None, k, samples);
    assert forall x :: 0 <= x < TotalTurns(n) ==> Reads(results[x], x, None);
  }

  datatype ValidationReport = ValidationReport(runs: nat, top1Correct: nat, controlMax: real)

  /** The first step of the sorted report: a step of greatest value, the earliest of equals. */
  function TopStep(results: seq<ShapleyResult>): (i: nat)
    requires results != []
    ensures i < |results|
  {
    if |results| == 1 then 0
    else
      var best := TopStep(results[..|results| - 1]);
      if results[|results| - 1].shapleyValue > results[best].shapleyValue then |results| - 1 else best
  }

  lemma {:induction false} TopIs(results: seq<ShapleyResult>, x: nat)
    requires x < |results|
    requires forall i :: 0 <= i < |results| ==> results[i].shapleyValue == if i == x then 1.0 else 0.0
    ensures TopStep(results) == x
  {
    var front := results[..|results| - 1];
    if x < |front| {
      TopIs(front, x);
    } else if front != [] {
      assert front[TopStep(front)] == results[TopStep(front)];
    }
  }

  function MaxValue(results: seq<ShapleyResult>): real {
    if results == [] then 0.0 else results[TopStep(results)].shapleyValue
  }

  lemma {:induction false} TopOfEquals(results: seq<ShapleyResult>)
    requires results != [] && forall i :: 0 <= i < |results| ==> results[i].shapleyValue == 0.0
    ensures TopStep(results) == 0
  {
    if |results| > 1 {
      TopOfEquals(results[..|results| - 1]);
    }
  }

  lemma TopRead(results: seq<ShapleyResult>, n: nat, faulty: nat, k: nat, samples: nat)
    requires AllRead(results, n, Found(Some(faulty), k, samples)) && 1 <= faulty <= n
    ensures results[TopStep(results)].step == if k > 0 && samples > 0 then faulty else 0
  {
    assert forall x :: 0 <= x < |results| ==> Reads(results[x], x, Found(Some(faulty), k, samples));
    if k > 0 && samples > 0 {
      TopIs(results, faulty);
    } else {
      TopOfEquals(results);
    }
  }

  /** The whole sweep: with trials and repeats every guilty branch is ranked first, and without them none; the negative
      control reads 0. */
  method RunConcurrentBranchValidation(wire: Wire, m: Matcher, n: nat, k: nat, samples: nat)
    returns (report: ValidationReport)
    requires wire.Contract() && m.Contract()
    ensures report == ValidationReport(n, if k > 0 && samples > 0 then n else 0, 0.0)
  {
    var correct := 0;
    for faulty := 1 to n + 1
      invariant correct == if k > 0 && samples > 0 then faulty - 1 else 0
    {
      var r := RunShapleyMultiBranch(wire, m, faulty, n, k, samples);
      TopRead(r.results, n, faulty, k, samples);
      if r.results[TopStep(r.results)].step == faulty {
        correct := correct + 1;
      }
    }
    var control := RunShapleyNegativeControl(wire, m, n, k, samples);
    return ValidationReport(n, correct, MaxValue(control));
  }
}
