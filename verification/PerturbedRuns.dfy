/** Trials of a validation scenario: a transcript-carrying agent is re-run through a coalition fork of its
    clean tape, with a rule-driven tail behind it, and the outcome of the branch is graded.

    `CoalitionOutcome` reduces a trial of any coalition to the scenario's rule. The archetypes and the
    concurrent-branch suite are instances. */
module PerturbedRuns {
  import opened Tapes
  import opened Transports
  import opened ForkEngine
  import opened Text
  import opened Conversations
  import opened ShapleyRank
  import ForkTheorems

  /** When a tail answers FAIL: some marker, or every marker, is in the request. */
  datatype Rule = AnyOf(markers: seq<string>) | AllOf(markers: seq<string>)

  predicate Fails(rule: Rule, body: Bytes) {
    match rule
    case AnyOf(markers) => exists i :: 0 <= i < |markers| && Contains(body, markers[i])
    case AllOf(markers) => forall i :: 0 <= i < |markers| ==> Contains(body, markers[i])
  }

  const NEUTRAL := "ok, continuing"

  /** The texts of a passing and a failing run, and the oracle that grades them. */
  datatype Voice = Voice(success: string, failed: string, oracle: string -> Grade)

  /** `ask` is the conversation sent after hearing some texts; `injected` is the text the perturbation
      factory forces at a step. */
  datatype Scenario = Scenario(
    turns: nat, ask: seq<string> -> seq<Message>, injected: nat -> string, rule: Rule, voice: Voice)

  ghost predicate Gradable(v: Voice) {
    v.oracle(v.success) == Success && v.oracle(v.failed) == Failure && v.oracle(NEUTRAL) == Ambiguous
  }

  /** A voice whose texts carry no marker and grade as they should. */
  ghost predicate Speaks(v: Voice) {
    Inert(v.success) && Inert(v.failed) && Gradable(v)
  }

  lemma NeutralIsAmbiguous()
    ensures Graded(NEUTRAL) == Ambiguous && Inert(NEUTRAL)
  {
    NotWithout(NEUTRAL, "SUCCESS", 'S');
    NotWithout(NEUTRAL, "FAIL", 'F');
  }

  /** The suites' texts, under the string-match oracle. */
  lemma TextsSpeak(passed: string, fault: string)
    requires Inert(passed) && Inert(fault) && 'S' !in fault
    ensures Speaks(Voice("SUCCESS" + passed, "FAIL" + fault, Graded))
  {
    SuccessSpeaks(passed);
    FailureSpeaks(fault);
    NeutralIsAmbiguous();
  }

  lemma SuccessSpeaks(passed: string)
    requires Inert(passed)
    ensures Graded("SUCCESS" + passed) == Success && Inert("SUCCESS" + passed)
  {
    StartsWith("SUCCESS", passed);
  }

  lemma FailureSpeaks(fault: string)
    requires Inert(fault) && 'S' !in fault
    ensures Graded("FAIL" + fault) == Failure && Inert("FAIL" + fault)
  {
    StartsWith("FAIL", fault);
    NotWithout("FAIL" + fault, "SUCCESS", 'S');
  }

  // ---- agent, clean tape, tail ----------------------------------------------------------------------------

  predicate AnyRaised(replies: seq<Reply>) {
    exists i :: 0 <= i < |replies| && replies[i].Raised?
  }

  function TextOf(wire: Wire, reply: Reply): string {
    if reply.Answer? then wire.text(reply.body) else ""
  }

  function Heard(wire: Wire, replies: seq<Reply>): (texts: seq<string>)
    ensures |texts| == |replies|
  {
    seq(|replies|, i requires 0 <= i < |replies| => TextOf(wire, replies[i]))
  }

  /** Sends one request per turn and returns the last text; an exception escapes it. */
  function AgentOf(sc: Scenario, wire: Wire): Agent {
    (replies: seq<Reply>) =>
      if AnyRaised(replies) then Throw
      else if |replies| < sc.turns then Send(RequestOf(sc.ask(Heard(wire, replies))))
      else Return(if replies == [] then "" else TextOf(wire, replies[|replies| - 1]))
  }

  function CleanText(sc: Scenario, t: nat): string {
    if t + 1 == sc.turns then sc.voice.success else NEUTRAL
  }

  function CleanTexts(sc: Scenario, t: nat): (texts: seq<string>)
    ensures |texts| == t
  {
    seq(t, u requires 0 <= u < t => CleanText(sc, u))
  }

  /** The recorded parent: the agent against a script of neutral replies ending in success. */
  function CleanTape(sc: Scenario, wire: Wire, m: Matcher): (tape: Tape)
    ensures |tape| == sc.turns
  {
    seq(sc.turns, t requires 0 <= t < sc.turns =>
      Exchange(m.stored(RequestOf(sc.ask(CleanTexts(sc, t)))), wire.build(CleanText(sc, t))))
  }

  lemma HeardOneMore(sc: Scenario, wire: Wire, replies: seq<Reply>)
    requires wire.Contract() && Heard(wire, replies) == CleanTexts(sc, |replies|)
    ensures Heard(wire, replies + [Answer(wire.build(CleanText(sc, |replies|)))]) == CleanTexts(sc, |replies| + 1)
  {
    var more := replies + [Answer(wire.build(CleanText(sc, |replies|)))];
    forall u | 0 <= u < |more| ensures Heard(wire, more)[u] == CleanText(sc, u) {
      if u < |replies| {
        assert Heard(wire, more)[u] == Heard(wire, replies)[u];
      }
    }
  }

  method RecordCleanTape(sc: Scenario, wire: Wire, m: Matcher) returns (tape: Tape)
    requires wire.Contract()
    ensures tape == CleanTape(sc, wire, m)
  {
    tape := [];
    var replies: seq<Reply> := [];
    for t := 0 to sc.turns
      invariant |tape| == |replies| == t && !AnyRaised(replies)
      invariant tape == CleanTape(sc, wire, m)[..t]
      invariant Heard(wire, replies) == CleanTexts(sc, t)
    {
      var request := AgentOf(sc, wire)(replies).request;
      var response := wire.build(CleanText(sc, t));
      HeardOneMore(sc, wire, replies);
      tape := tape + [Exchange(m.stored(request), response)];
      replies := replies + [Answer(response)];
    }
  }

  function TailText(sc: Scenario, remaining: int, seen: nat, request: Bytes): string {
    if Fails(sc.rule, request) then sc.voice.failed
    else if seen >= remaining then sc.voice.success
    else NEUTRAL
  }

  /** What the tail transport answers to the last of `sent`. */
  function TailOf(sc: Scenario, wire: Wire, remaining: int): Upstream {
    (sent: seq<Request>) =>
      Answer(wire.build(TailText(sc, remaining, |sent|, if sent == [] then "" else sent[|sent| - 1].body)))
  }

  /** The synthetic tail transport, which counts the calls it has seen. */
  class RuleTail {
    const sc: Scenario
    const wire: Wire
    const remaining: int
    var seen: nat
    ghost var sent: seq<Request>

    ghost predicate Valid()
      reads this
    {
      seen == |sent|
    }

    constructor (sc: Scenario, wire: Wire, remaining: int)
      ensures Valid() && sent == []
      ensures this.sc == sc && this.wire == wire && this.remaining == remaining
    {
      this.sc, this.wire, this.remaining, seen, sent := sc, wire, remaining, 0, [];
    }

    method HandleRequest(q: Request) returns (reply: Reply)
      requires Valid()
      modifies this
      ensures Valid() && sent == old(sent) + [q]
      ensures reply == TailOf(sc, wire, remaining)(sent)
    {
      seen := seen + 1;
      sent := sent + [q];
      var isLast := seen >= remaining;
      if Fails(sc.rule, q.body) {
        reply := Answer(wire.build(sc.voice.failed));
      } else if isLast {
        reply := Answer(wire.build(sc.voice.success));
      } else {
        reply := Answer(wire.build(NEUTRAL));
      }
    }
  }

  // ---- a coalition trial ----------------------------------------------------------------------------------

  ghost predicate Rising(s: seq<nat>) {
    |s| >= 2 ==> s[|s| - 2] < s[|s| - 1] && Rising(s[..|s| - 1])
  }

  /** The members of `s` below `n`, ascending. */
  function Ordered(s: set<nat>, n: nat): (r: seq<nat>)
    ensures Rising(r) && forall x: nat :: x in r <==> x in s && x < n
  {
    if n == 0 then []
    else
      var before := Ordered(s, n - 1);
      if n - 1 !in s then before
      else
        var r := before + [n - 1];
        assert r[..|r| - 1] == before;
        assert before != [] ==> before[|before| - 1] in before;
        r
  }

  lemma {:induction false} RisingMeans(s: seq<nat>, i: nat, j: nat)
    requires Rising(s) && i < j < |s|
    ensures s[i] < s[j]
  {
    if j == |s| - 1 {
      if i < j - 1 {
        RisingMeans(s[..j], i, j - 1);
      }
    } else {
      RisingMeans(s[..|s| - 1], i, j);
    }
  }

  function Interventions(sc: Scenario, wire: Wire, steps: seq<nat>): (ivs: seq<StepIntervention>)
    ensures |ivs| == |steps|
  {
    seq(|steps|, i requires 0 <= i < |steps| => StepIntervention(steps[i], wire.build(sc.injected(steps[i]))))
  }

  /** The steps of a coalition that is asked for: a non-empty set of tape steps. */
  predicate Proper(sc: Scenario, s: set<nat>) {
    s != {} && forall x :: x in s ==> x < sc.turns
  }

  function Steps(sc: Scenario, s: set<nat>): (steps: seq<nat>)
    requires Proper(sc, s)
    ensures steps != [] && Rising(steps) && forall x :: x in steps <==> x in s
  {
    var steps := Ordered(s, sc.turns);
    var x :| x in s;
    assert x in steps;
    steps
  }

  function First(sc: Scenario, s: set<nat>): nat
    requires Proper(sc, s)
  {
    Steps(sc, s)[0]
  }

  function Top(sc: Scenario, s: set<nat>): nat
    requires Proper(sc, s)
  {
    Steps(sc, s)[|Steps(sc, s)| - 1]
  }

  function PlanFor(sc: Scenario, wire: Wire, tape: Tape, s: set<nat>): Plan
    requires Proper(sc, s)
  {
    Coalition(tape, ForcedMap(Interventions(sc, wire, Steps(sc, s))), First(sc, s))
  }

  /** What every trial of a scenario shares; `tails` makes a tail from the calls it should expect. */
  datatype Stage = Stage(tape: Tape, agent: Agent, tails: int -> Upstream, m: Matcher)

  function StageOf(sc: Scenario, wire: Wire, m: Matcher): Stage {
    Stage(CleanTape(sc, wire, m), AgentOf(sc, wire), (remaining: int) => TailOf(sc, wire, remaining), m)
  }

  /** The tail belongs to the highest step of the coalition. */
  function ResultFor(sc: Scenario, wire: Wire, st: Stage, s: set<nat>): ForkResult
    requires Proper(sc, s)
  {
    Finish(PlanFor(sc, wire, st.tape, s), Steps(sc, s), st.tails(sc.turns - (Top(sc, s) + 1)), st.m, st.agent, sc.turns)
  }

  /** A branch is graded by the text of the last exchange of its delta tape. */
  function GradeOf(oracle: string -> Grade, wire: Wire, tape: Tape): Grade {
    if tape == [] then Ambiguous else oracle(wire.text(tape[|tape| - 1].response))
  }

  function VerdictOn(oracle: string -> Grade, wire: Wire, parent: Tape, r: ForkResult): Verdict {
    if !r.Made? then Undefined(false)
    else
      var outcome, graded := GradeOf(oracle, wire, parent), GradeOf(oracle, wire, r.branch.delta);
      if graded == Ambiguous || outcome == Ambiguous then Undefined(false)
      else if graded != outcome then Flip
      else NoFlip
  }

  /** A trial compares two grades and takes no side: a branch flips its parent exactly when the parent would flip the
      branch, both grades known and different. */
  lemma VerdictIsSymmetric(oracle: string -> Grade, wire: Wire, parent: Tape, branch: Branch)
    ensures VerdictOn(oracle, wire, parent, Made(branch))
         == VerdictOn(oracle, wire, branch.delta, Made(branch.(delta := parent)))
    ensures VerdictOn(oracle, wire, parent, Made(branch)).Undefined? <==>
            GradeOf(oracle, wire, parent) == Ambiguous || GradeOf(oracle, wire, branch.delta) == Ambiguous
    ensures VerdictOn(oracle, wire, branch.delta, Made(branch)) != Flip
  {
  }

  /** One coalition trial. */
  function TrialOf(sc: Scenario, wire: Wire, m: Matcher, s: set<nat>): Verdict {
    var st := StageOf(sc, wire, m);
    if Proper(sc, s) then VerdictOn(sc.voice.oracle, wire, st.tape, ResultFor(sc, wire, st, s))
    else Undefined(false)
  }

  function SingleResultFor(sc: Scenario, wire: Wire, st: Stage, step: nat): ForkResult {
    Finish(ForkAt(st.tape, step, wire.build(sc.injected(step))), [step],
           st.tails(sc.turns - (step + 1)), st.m, st.agent, sc.turns)
  }

  /** One single-step trial, by a classic fork. */
  function SingleTrialOf(sc: Scenario, wire: Wire, m: Matcher, step: nat): Verdict
    requires step < sc.turns
  {
    var st := StageOf(sc, wire, m);
    VerdictOn(sc.voice.oracle, wire, st.tape, SingleResultFor(sc, wire, st, step))
  }

  lemma SingletonSteps(sc: Scenario, step: nat)
    requires step < sc.turns
    ensures Steps(sc, {step}) == [step]
  {
    var steps := Steps(sc, {step});
    forall i | 0 <= i < |steps| ensures steps[i] == step {
      assert steps[i] in steps;
    }
  }

  lemma SingletonInterventions(sc: Scenario, wire: Wire, step: nat)
    ensures Interventions(sc, wire, [step]) == [StepIntervention(step, wire.build(sc.injected(step)))]
    ensures StepsOf([StepIntervention(step, wire.build(sc.injected(step)))]) == [step]
  {
  }

  lemma SingleResult(sc: Scenario, wire: Wire, st: Stage, step: nat)
    requires step < sc.turns
    ensures ResultFor(sc, wire, st, {step}) == SingleResultFor(sc, wire, st, step)
  {
    SingletonSteps(sc, step);
    SingletonInterventions(sc, wire, step);
    SingleCoalitionBranch(st.tape, step, wire.build(sc.injected(step)), st.tails(sc.turns - (step + 1)), st.m, st.agent,
                          sc.turns);
  }

  lemma SingleTrialIsCoalition(sc: Scenario, wire: Wire, m: Matcher, step: nat)
    requires step < sc.turns
    ensures SingleTrialOf(sc, wire, m, step) == TrialOf(sc, wire, m, {step})
  {
    SingleResult(sc, wire, StageOf(sc, wire, m), step);
  }

  lemma RisingSpec(sc: Scenario, wire: Wire, steps: seq<nat>)
    requires Rising(steps)
    ensures Ascending(Interventions(sc, wire, steps))
  {
    forall i, j | 0 <= i < j < |steps| ensures steps[i] < steps[j] {
      RisingMeans(steps, i, j);
    }
  }

  lemma SpecFor(sc: Scenario, wire: Wire, tape: Tape, s: set<nat>)
    requires Proper(sc, s)
    ensures var spec := Interventions(sc, wire, Steps(sc, s));
            && spec != [] && Ascending(spec) && StepsOf(spec) == Steps(sc, s)
            && InRange(spec, sc.turns)
            && Coalition(tape, ForcedMap(spec), spec[0].step) == PlanFor(sc, wire, tape, s)
  {
    var steps := Steps(sc, s);
    RisingSpec(sc, wire, steps);
    forall i | 0 <= i < |steps| ensures steps[i] < sc.turns {
      assert steps[i] in s;
    }
  }

  lemma ResultIsFork(sc: Scenario, wire: Wire, st: Stage, s: set<nat>, spec: seq<StepIntervention>, tail: Upstream)
    requires Proper(sc, s) && spec == Interventions(sc, wire, Steps(sc, s))
    requires tail == st.tails(sc.turns - (Top(sc, s) + 1))
    ensures spec != [] && Ascending(spec) && InRange(spec, sc.turns)
    ensures Finish(Coalition(st.tape, ForcedMap(spec), spec[0].step), StepsOf(spec), tail, st.m, st.agent, sc.turns)
         == ResultFor(sc, wire, st, s)
  {
    SpecFor(sc, wire, st.tape, s);
  }

  /** The branch of a coalition trial, through the fork engine. */
  method ForkTrial(sc: Scenario, wire: Wire, st: Stage, s: set<nat>) returns (r: ForkResult)
    requires Proper(sc, s) && |st.tape| == sc.turns
    ensures r == ResultFor(sc, wire, st, s)
  {
    var ordered := Steps(sc, s);
    var spec := Interventions(sc, wire, ordered);
    var top := ordered[|ordered| - 1];
    var tail := st.tails(sc.turns - (top + 1));
    ResultIsFork(sc, wire, st, s, spec, tail);
    r := ForkCoalition(st.tape, spec, st.agent, tail, st.m, sc.turns);
  }

  /** A coalition trial as it runs. */
  method RunTrial(sc: Scenario, wire: Wire, m: Matcher, s: set<nat>) returns (v: Verdict)
    requires Proper(sc, s) && wire.Contract()
    ensures v == TrialOf(sc, wire, m, s)
  {
    var tape := RecordCleanTape(sc, wire, m);
    var st := StageOf(sc, wire, m);
    var branch := ForkTrial(sc, wire, st.(tape := tape), s);
    v := VerdictOn(sc.voice.oracle, wire, tape, branch);
  }

  // ---- what a trial comes to ------------------------------------------------------------------------------

  /** A conversation after `turns - 1` texts shows exactly the markers heard. */
  ghost predicate ShowsAll(sc: Scenario, texts: seq<string>) {
    |texts| == sc.turns - 1 ==> forall m: string :: IsMarker(m) ==>
      (Contains(Body(sc.ask(texts)), m) <==> SomeText(texts, m))
  }

  /** Nothing the tail or the clean tape says looks like a marker. */
  ghost predicate Quiet(sc: Scenario) {
    sc.turns >= 1 && Inert(sc.voice.success) && Inert(sc.voice.failed)
  }

  /** The last request shows the tail every marker the coalition has injected. */
  ghost predicate Telling(sc: Scenario) {
    && (forall i :: 0 <= i < |sc.rule.markers| ==> IsMarker(sc.rule.markers[i]))
    && forall texts: seq<string> :: ShowsAll(sc, texts)
  }

  /** The factory never plants a marker in the exchange that is graded. */
  ghost predicate Guarded(sc: Scenario) {
    sc.turns >= 1 && sc.injected(sc.turns - 1) == NEUTRAL
  }

  ghost predicate WellFormed(sc: Scenario) {
    Quiet(sc) && Telling(sc) && Gradable(sc.voice) && Guarded(sc)
  }

  /** Some member of the coalition carries the marker. */
  ghost predicate Lit(sc: Scenario, s: set<nat>, marker: string) {
    exists x :: x in s && Contains(sc.injected(x), marker)
  }

  /** The rule, applied to the markers a coalition injects. */
  ghost predicate Trips(sc: Scenario, s: set<nat>) {
    match sc.rule
    case AnyOf(markers) => exists i :: 0 <= i < |markers| && Lit(sc, s, markers[i])
    case AllOf(markers) => forall i :: 0 <= i < |markers| ==> Lit(sc, s, markers[i])
  }

  /** The plan of a trial: forces the injected texts of some steps onto the clean tape. */
  ghost predicate TrialPlan(sc: Scenario, wire: Wire, m: Matcher, p: Plan) {
    && p.Coalition? && p.Valid() && p.parent == CleanTape(sc, wire, m)
    && forall x :: x in p.forced ==> x < sc.turns && p.forced[x] == wire.build(sc.injected(x))
  }

  /** The texts heard so far: the injected one at a coalition step, the parent's before the first of
      them, some inert one elsewhere. */
  ghost predicate ReplyFits(sc: Scenario, wire: Wire, p: Plan, u: nat, reply: Reply)
    requires p.Coalition?
  {
    && reply.Answer?
    && (u in p.forced ==> reply.body == wire.build(sc.injected(u)))
    && (u !in p.forced ==> Inert(wire.text(reply.body)))
    && (u < p.first ==> reply.body == wire.build(CleanText(sc, u)))
  }

  ghost predicate OnCourse(sc: Scenario, wire: Wire, p: Plan, t: Trace) {
    && p.Coalition?
    && t.state.i == |t.requests| == |t.replies| <= sc.turns
    && forall u :: 0 <= u < |t.replies| ==> ReplyFits(sc, wire, p, u, t.replies[u])
  }

  lemma NotRaised(sc: Scenario, wire: Wire, p: Plan, t: Trace)
    requires OnCourse(sc, wire, p, t)
    ensures !AnyRaised(t.replies)
  {
    forall u | 0 <= u < |t.replies| ensures t.replies[u].Answer? {
      assert ReplyFits(sc, wire, p, u, t.replies[u]);
    }
  }

  /** While a run is on course, the request of a step up to the first intervention is the recorded one. */
  lemma SameRequest(sc: Scenario, wire: Wire, m: Matcher, p: Plan, t: Trace)
    requires wire.Contract() && m.Contract() && OnCourse(sc, wire, p, t)
    requires t.state.i <= p.first && t.state.i < sc.turns
    ensures Check(CleanTape(sc, wire, m), t.state.i, m, RequestOf(sc.ask(Heard(wire, t.replies)))) == []
  {
    var texts := Heard(wire, t.replies);
    forall u | 0 <= u < |texts| ensures texts[u] == CleanText(sc, u) {
      assert ReplyFits(sc, wire, p, u, t.replies[u]);
    }
    assert texts == CleanTexts(sc, t.state.i);
  }

  // ---- the run, for whatever agent and upstream behave as prescribed --------------------------------------

  /** The request of a turn. */
  function Asked(sc: Scenario, wire: Wire, replies: seq<Reply>): Request {
    RequestOf(sc.ask(Heard(wire, replies)))
  }

  ghost predicate AgentAt(sc: Scenario, wire: Wire, agent: Agent, replies: seq<Reply>) {
    !AnyRaised(replies) ==>
      if |replies| < sc.turns then agent(replies) == Send(Asked(sc, wire, replies)) else agent(replies).Return?
  }

  ghost predicate TailAt(sc: Scenario, wire: Wire, remaining: int, inner: Upstream, before: seq<Request>, q: Request) {
    inner(before + [q]) == Answer(wire.build(TailText(sc, remaining, |before| + 1, q.body)))
  }

  /** What the run of a trial involves. */
  datatype Cast = Cast(p: Plan, inner: Upstream, m: Matcher, agent: Agent)

  ghost predicate CastFor(sc: Scenario, wire: Wire, remaining: int, c: Cast) {
    && wire.Contract() && c.m.Contract() && TrialPlan(sc, wire, c.m, c.p)
    && (forall replies :: AgentAt(sc, wire, c.agent, replies))
    && forall before, q :: TailAt(sc, wire, remaining, c.inner, before, q)
  }

  function Run(c: Cast, n: nat): Trace {
    Drive(c.p, c.inner, c.m, c.agent, n)
  }

  lemma TailInert(sc: Scenario, wire: Wire, remaining: int, inner: Upstream, before: seq<Request>, q: Request)
    requires Quiet(sc) && wire.Contract() && TailAt(sc, wire, remaining, inner, before, q)
    ensures inner(before + [q]).Answer? && Inert(wire.text(inner(before + [q]).body))
  {
  }

  lemma CleanInert(sc: Scenario, u: nat)
    requires Quiet(sc)
    ensures Inert(CleanText(sc, u))
  {
  }

  /** One step of a run on course. */
  lemma StepFits(sc: Scenario, wire: Wire, remaining: int, c: Cast, t: Trace)
    requires Quiet(sc) && CastFor(sc, wire, remaining, c) && OnCourse(sc, wire, c.p, t) && |t.replies| < sc.turns
    ensures var q := Asked(sc, wire, t.replies);
            var o := Step(c.p, c.inner, c.m, t.state, q);
            && ReplyFits(sc, wire, c.p, t.state.i, o.reply)
            && o.state.i == t.state.i + 1
            && (t.state.i !in c.p.forced && c.p.first < t.state.i ==> o.reply == c.inner(t.state.sent + [q]))
  {
    var i, q := t.state.i, Asked(sc, wire, t.replies);
    if i <= c.p.first {
      SameRequest(sc, wire, c.m, c.p, t);
      CleanInert(sc, i);
    } else if i !in c.p.forced {
      assert TailAt(sc, wire, remaining, c.inner, t.state.sent, q);
      TailInert(sc, wire, remaining, c.inner, t.state.sent, q);
    }
  }

  lemma Next(sc: Scenario, wire: Wire, remaining: int, c: Cast, t: Trace)
    requires Quiet(sc) && CastFor(sc, wire, remaining, c) && OnCourse(sc, wire, c.p, t) && |t.replies| < sc.turns
    ensures var o := Step(c.p, c.inner, c.m, t.state, Asked(sc, wire, t.replies));
            var after := Advance(c.p, c.inner, c.m, c.agent, t);
            && after.state == o.state && after.replies == t.replies + [o.reply] && OnCourse(sc, wire, c.p, after)
  {
    NotRaised(sc, wire, c.p, t);
    StepFits(sc, wire, remaining, c, t);
    assert AgentAt(sc, wire, c.agent, t.replies);
  }

  lemma {:induction false} StaysOnCourse(sc: Scenario, wire: Wire, remaining: int, c: Cast, n: nat)
    requires Quiet(sc) && CastFor(sc, wire, remaining, c) && n <= sc.turns
    ensures |Run(c, n).replies| == n && OnCourse(sc, wire, c.p, Run(c, n))
  {
    if n > 0 {
      StaysOnCourse(sc, wire, remaining, c, n - 1);
      Next(sc, wire, remaining, c, Run(c, n - 1));
    }
  }

  /** The markers in the last request are those the coalition injected. */
  lemma LastRequestShows(sc: Scenario, wire: Wire, p: Plan, t: Trace, marker: string)
    requires Telling(sc) && wire.Contract() && OnCourse(sc, wire, p, t) && IsMarker(marker)
    requires |t.replies| == sc.turns - 1 && forall x :: x in p.forced ==> x < sc.turns - 1
    ensures Contains(Asked(sc, wire, t.replies).body, marker) <==> Lit(sc, p.forced.Keys, marker)
  {
    var texts := Heard(wire, t.replies);
    assert ShowsAll(sc, texts);
    forall u | 0 <= u < |texts|
      ensures Contains(texts[u], marker) <==> u in p.forced && Contains(sc.injected(u), marker)
    {
      assert ReplyFits(sc, wire, p, u, t.replies[u]);
      if u !in p.forced {
        NotInInert(texts[u], marker);
      }
    }
    if Lit(sc, p.forced.Keys, marker) {
      var x :| x in p.forced.Keys && Contains(sc.injected(x), marker);
      assert Contains(texts[x], marker);
    }
  }

  lemma LastRequestFails(sc: Scenario, wire: Wire, p: Plan, t: Trace)
    requires Telling(sc) && wire.Contract() && OnCourse(sc, wire, p, t)
    requires |t.replies| == sc.turns - 1 && forall x :: x in p.forced ==> x < sc.turns - 1
    ensures Fails(sc.rule, Asked(sc, wire, t.replies).body) <==> Trips(sc, p.forced.Keys)
  {
    forall i | 0 <= i < |sc.rule.markers|
      ensures Contains(Asked(sc, wire, t.replies).body, sc.rule.markers[i]) <==> Lit(sc, p.forced.Keys, sc.rule.markers[i])
    {
      LastRequestShows(sc, wire, p, t, sc.rule.markers[i]);
    }
  }

  /** After `n` requests the tail has seen all but the steps up to the highest intervention, at least. */
  lemma TailCalls(c: Cast, top: nat, n: nat)
    requires c.p.Coalition? && c.p.Valid() && c.p.first <= top < n && forall x :: x in c.p.forced ==> x <= top
    requires Run(c, n).state.i == n
    ensures |Run(c, n).state.sent| + top + 1 >= n
  {
    ForkTheorems.TailAccounting(c.p, c.inner, c.m, c.agent, n);
    assert ForkTheorems.Below(c.p.forced.Keys, n) == c.p.forced.Keys;
    ForkTheorems.BelowIsMost(c.p.forced.Keys, c.p.first, top + 1);
    assert ForkTheorems.Below(c.p.forced.Keys, c.p.first) == {};
  }

  /** The text a trial is graded on. */
  function LastText(sc: Scenario, s: set<nat>, trips: bool): string {
    if sc.turns - 1 in s then NEUTRAL else if trips then sc.voice.failed else sc.voice.success
  }

  lemma LastStep(sc: Scenario, wire: Wire, remaining: int, c: Cast, top: nat, t: Trace)
    requires Quiet(sc) && Telling(sc) && Guarded(sc) && CastFor(sc, wire, remaining, c)
    requires OnCourse(sc, wire, c.p, t) && |t.replies| == sc.turns - 1
    requires top < sc.turns && top in c.p.forced && forall x :: x in c.p.forced ==> x <= top
    requires top < sc.turns - 1 ==> |t.state.sent| + 1 >= remaining
    ensures Step(c.p, c.inner, c.m, t.state, Asked(sc, wire, t.replies)).reply
         == Answer(wire.build(LastText(sc, c.p.forced.Keys, Trips(sc, c.p.forced.Keys))))
  {
    StepFits(sc, wire, remaining, c, t);
    if sc.turns - 1 !in c.p.forced {
      LastRequestFails(sc, wire, c.p, t);
      assert TailAt(sc, wire, remaining, c.inner, t.state.sent, Asked(sc, wire, t.replies));
    }
  }

  lemma LastReply(sc: Scenario, wire: Wire, remaining: int, c: Cast, top: nat)
    requires Quiet(sc) && Telling(sc) && Guarded(sc) && CastFor(sc, wire, remaining, c)
    requires remaining == sc.turns - (top + 1) && top in c.p.forced && forall x :: x in c.p.forced ==> x <= top
    ensures var t := Run(c, sc.turns);
            && |t.replies| == sc.turns && OnCourse(sc, wire, c.p, t)
            && t.replies[sc.turns - 1] == Answer(wire.build(LastText(sc, c.p.forced.Keys, Trips(sc, c.p.forced.Keys))))
  {
    StaysOnCourse(sc, wire, remaining, c, sc.turns - 1);
    if top < sc.turns - 1 {
      TailCalls(c, top, sc.turns - 1);
    }
    LastStep(sc, wire, remaining, c, top, Run(c, sc.turns - 1));
    Next(sc, wire, remaining, c, Run(c, sc.turns - 1));
  }

  lemma LastOfDelta(c: Cast, n: nat)
    requires n > c.p.First() && |Run(c, n).replies| == n && Run(c, n).replies[n - 1].Answer?
    ensures var t := Run(c, n);
            t.state.delta != [] && t.state.delta[|t.state.delta| - 1].response == t.replies[n - 1].body
  {
    ForkTheorems.DeltaLaw(c.p, c.inner, c.m, c.agent, n);
  }

  lemma CastOutcome(sc: Scenario, wire: Wire, remaining: int, c: Cast, top: nat, steps: seq<int>)
    requires Quiet(sc) && Telling(sc) && Guarded(sc) && CastFor(sc, wire, remaining, c)
    requires remaining == sc.turns - (top + 1) && top in c.p.forced && forall x :: x in c.p.forced ==> x <= top
    ensures var r := Finish(c.p, steps, c.inner, c.m, c.agent, sc.turns);
            && r.Made? && r.branch.delta != []
            && r.branch.delta[|r.branch.delta| - 1].response
               == wire.build(LastText(sc, c.p.forced.Keys, Trips(sc, c.p.forced.Keys)))
  {
    LastReply(sc, wire, remaining, c, top);
    LastOfDelta(c, sc.turns);
    NotRaised(sc, wire, c.p, Run(c, sc.turns));
    assert AgentAt(sc, wire, c.agent, Run(c, sc.turns).replies);
  }

  // ---- the actual trial -----------------------------------------------------------------------------------

  ghost predicate TailsAt(sc: Scenario, wire: Wire, tails: int -> Upstream, remaining: int) {
    forall before, q :: TailAt(sc, wire, remaining, tails(remaining), before, q)
  }

  ghost predicate StageFor(sc: Scenario, wire: Wire, st: Stage) {
    && wire.Contract() && st.m.Contract() && st.tape == CleanTape(sc, wire, st.m)
    && (forall replies :: AgentAt(sc, wire, st.agent, replies))
    && forall remaining :: TailsAt(sc, wire, st.tails, remaining)
  }

  lemma StageHolds(sc: Scenario, wire: Wire, m: Matcher)
    requires wire.Contract() && m.Contract()
    ensures StageFor(sc, wire, StageOf(sc, wire, m))
  {
    forall replies ensures AgentAt(sc, wire, AgentOf(sc, wire), replies) {
    }
    forall remaining: int ensures TailsAt(sc, wire, StageOf(sc, wire, m).tails, remaining) {
      forall before, q ensures TailAt(sc, wire, remaining, TailOf(sc, wire, remaining), before, q) {
      }
    }
  }

  function CastOf(sc: Scenario, wire: Wire, st: Stage, s: set<nat>): Cast
    requires Proper(sc, s)
  {
    Cast(PlanFor(sc, wire, st.tape, s), st.tails(sc.turns - (Top(sc, s) + 1)), st.m, st.agent)
  }

  lemma CastHolds(sc: Scenario, wire: Wire, st: Stage, s: set<nat>)
    requires Proper(sc, s) && StageFor(sc, wire, st)
    ensures CastFor(sc, wire, sc.turns - (Top(sc, s) + 1), CastOf(sc, wire, st, s))
  {
    PlanFacts(sc, wire, st.m, s);
    assert TailsAt(sc, wire, st.tails, sc.turns - (Top(sc, s) + 1));
  }

  lemma PlanFacts(sc: Scenario, wire: Wire, m: Matcher, s: set<nat>)
    requires Proper(sc, s)
    ensures var p := PlanFor(sc, wire, CleanTape(sc, wire, m), s);
            && TrialPlan(sc, wire, m, p) && p.forced.Keys == s
            && Top(sc, s) in s && forall x :: x in s ==> x <= Top(sc, s)
  {
    var steps := Steps(sc, s);
    ForcedSteps(sc, wire, steps);
    assert steps[0] in steps && steps[|steps| - 1] in steps;
    forall x | x in s ensures First(sc, s) <= x <= Top(sc, s) {
      Between(steps, x);
    }
  }

  lemma Between(steps: seq<nat>, x: nat)
    requires Rising(steps) && x in steps
    ensures steps[0] <= x <= steps[|steps| - 1]
  {
    var i :| 0 <= i < |steps| && steps[i] == x;
    if 0 < i {
      RisingMeans(steps, 0, i);
    }
    if i < |steps| - 1 {
      RisingMeans(steps, i, |steps| - 1);
    }
  }

  lemma {:induction false} ForcedSteps(sc: Scenario, wire: Wire, steps: seq<nat>)
    ensures var forced := ForcedMap(Interventions(sc, wire, steps));
            && (forall x: nat :: x in forced <==> x in steps)
            && forall x: nat :: x in forced ==> forced[x] == wire.build(sc.injected(x))
  {
    if steps != [] {
      var last := |steps| - 1;
      ForcedSteps(sc, wire, steps[..last]);
      assert Interventions(sc, wire, steps)[..last] == Interventions(sc, wire, steps[..last]);
    }
  }

  ghost function Outcome(sc: Scenario, s: set<nat>): Verdict {
    if sc.turns - 1 in s then Undefined(false) else if Trips(sc, s) then Flip else NoFlip
  }

  /** A trial of any coalition of steps: UNDEFINED if the final step is forced, and otherwise a flip exactly
      when the markers the coalition injects trip the rule. */
  lemma CoalitionOutcome(sc: Scenario, wire: Wire, m: Matcher, s: set<nat>)
    requires WellFormed(sc) && wire.Contract() && m.Contract() && Proper(sc, s)
    ensures TrialOf(sc, wire, m, s) == Outcome(sc, s)
  {
    var st := StageOf(sc, wire, m);
    StageHolds(sc, wire, m);
    ResultText(sc, wire, st, s);
    CleanTapeSucceeds(sc, wire, m);
    OutcomeOn(sc, wire, st.tape, s, ResultFor(sc, wire, st, s), Trips(sc, s));
  }

  lemma OutcomeOn(sc: Scenario, wire: Wire, tape: Tape, s: set<nat>, r: ForkResult, trips: bool)
    requires Gradable(sc.voice) && wire.Contract() && GradeOf(sc.voice.oracle, wire, tape) == Success
    requires EndsWith(wire, r, LastText(sc, s, trips))
    ensures VerdictOn(sc.voice.oracle, wire, tape, r)
         == if sc.turns - 1 in s then Undefined(false) else if trips then Flip else NoFlip
  {
    VerdictFromText(sc.voice.oracle, wire, tape, r, LastText(sc, s, trips));
  }

  /** The branch of a trial was made, and `text` is what it is graded on. */
  ghost predicate EndsWith(wire: Wire, r: ForkResult, text: string) {
    r.Made? && r.branch.delta != [] && r.branch.delta[|r.branch.delta| - 1].response == wire.build(text)
  }

  lemma ResultText(sc: Scenario, wire: Wire, st: Stage, s: set<nat>)
    requires Quiet(sc) && Telling(sc) && Guarded(sc) && StageFor(sc, wire, st) && Proper(sc, s)
    ensures EndsWith(wire, ResultFor(sc, wire, st, s), LastText(sc, s, Trips(sc, s)))
  {
    var top := Top(sc, s);
    assert top in s && (forall x :: x in s ==> x <= top) && PlanFor(sc, wire, st.tape, s).forced.Keys == s by {
      PlanFacts(sc, wire, st.m, s);
    }
    CastHolds(sc, wire, st, s);
    CastOutcome(sc, wire, sc.turns - (top + 1), CastOf(sc, wire, st, s), top, Steps(sc, s));
  }

  lemma VerdictFromText(oracle: string -> Grade, wire: Wire, tape: Tape, r: ForkResult, text: string)
    requires wire.Contract() && GradeOf(oracle, wire, tape) == Success && EndsWith(wire, r, text)
    ensures VerdictOn(oracle, wire, tape, r)
         == match oracle(text) case Ambiguous => Undefined(false) case Failure => Flip case Success => NoFlip
  {
  }

  /** The parent's texts are filler but for the passing one at the end, and each of its requests is what is asked after
      hearing those before. */
  lemma CleanTapeIs(sc: Scenario, wire: Wire, m: Matcher, t: nat)
    requires wire.Contract() && t < sc.turns
    ensures var tape, heard := CleanTape(sc, wire, m), Fillers(t);
            && |tape| == sc.turns
            && wire.text(tape[t].response) == (if t < sc.turns - 1 then NEUTRAL else sc.voice.success)
            && tape[t].request == m.stored(RequestOf(sc.ask(heard)))
  {
    assert CleanTexts(sc, t) == Fillers(t);
    var x := CleanTape(sc, wire, m)[t];
    assert x == Exchange(m.stored(RequestOf(sc.ask(CleanTexts(sc, t)))), wire.build(CleanText(sc, t)));
    assert wire.text(wire.build(CleanText(sc, t))) == CleanText(sc, t);
  }

  function Fillers(t: nat): (texts: seq<string>)
    ensures |texts| == t && forall u :: 0 <= u < t ==> texts[u] == NEUTRAL
  {
    seq(t, _ => NEUTRAL)
  }

  lemma CleanTapeSucceeds(sc: Scenario, wire: Wire, m: Matcher)
    requires sc.turns >= 1 && Gradable(sc.voice) && wire.Contract()
    ensures GradeOf(sc.voice.oracle, wire, CleanTape(sc, wire, m)) == Success
  {
    var tape, last := CleanTape(sc, wire, m), sc.turns - 1;
    assert CleanText(sc, last) == sc.voice.success;
    assert tape[last].response == wire.build(CleanText(sc, last));
  }

  // ---- the whole transcript -------------------------------------------------------------------------------

  /** The steps from `first` up to `u` that are not forced: those the tail answers. */
  ghost function TailSteps(s: set<nat>, first: nat, u: nat): set<nat> {
    set v: nat | first <= v <= u && v !in s
  }

  lemma {:induction false} TailStepCount(s: set<nat>, first: nat, u: nat)
    requires first in s && (forall x :: x in s ==> first <= x) && first <= u
    ensures |TailSteps(s, first, u)| + |ForkTheorems.Below(s, u + 1)| == u + 1 - first
  {
    ForkTheorems.BelowNext(s, u);
    if u == first {
      assert TailSteps(s, first, u) == {} && ForkTheorems.Below(s, u) == {};
    } else {
      TailStepCount(s, first, u - 1);
      assert TailSteps(s, first, u) == TailSteps(s, first, u - 1) + if u in s then {} else {u};
    }
  }

  /** What a trial's agent hears at step `u`: the injected text at a forced step; before the first of them filler, as the
      parent says it; behind it the failing text if the request of the step trips the rule, and if not the passing text once
      the tail has answered as many steps as lie behind the highest forced one, and filler until then. */
  ghost function Said(sc: Scenario, s: set<nat>, first: nat, top: nat, u: nat, request: Bytes): string {
    if u in s then sc.injected(u)
    else if u < first then NEUTRAL
    else if Fails(sc.rule, request) then sc.voice.failed
    else if |TailSteps(s, first, u)| >= sc.turns - (top + 1) then sc.voice.success
    else NEUTRAL
  }

  lemma SaidNext(sc: Scenario, wire: Wire, remaining: int, c: Cast, top: nat, u: nat)
    requires Quiet(sc) && CastFor(sc, wire, remaining, c) && u < sc.turns && remaining == sc.turns - (top + 1)
    ensures var t, next := Run(c, u), Run(c, u + 1);
            && |t.replies| == u && |next.replies| == u + 1 && next.replies[..u] == t.replies
            && next.replies[u] == Answer(wire.build(
                 Said(sc, c.p.forced.Keys, c.p.first, top, u, Asked(sc, wire, t.replies).body)))
  {
    StaysOnCourse(sc, wire, remaining, c, u);
    var t, q := Run(c, u), Asked(sc, wire, Run(c, u).replies);
    StepFits(sc, wire, remaining, c, t);
    Next(sc, wire, remaining, c, t);
    assert c.p.first in c.p.forced && c.p.first < sc.turns;
    assert (t.replies + [Step(c.p, c.inner, c.m, t.state, q).reply])[..u] == t.replies;
    if u !in c.p.forced && c.p.first < u {
      assert TailAt(sc, wire, remaining, c.inner, t.state.sent, q);
      ForkTheorems.TailAccounting(c.p, c.inner, c.m, c.agent, u);
      TailStepCount(c.p.forced.Keys, c.p.first, u);
      ForkTheorems.BelowNext(c.p.forced.Keys, u);
    }
  }

  ghost predicate SaysAt(sc: Scenario, wire: Wire, p: Plan, top: nat, replies: seq<Reply>, u: nat)
    requires u < |replies| && p.Coalition?
  {
    replies[u] == Answer(wire.build(Said(sc, p.forced.Keys, p.first, top, u, Asked(sc, wire, replies[..u]).body)))
  }

  lemma {:induction false} AllSaid(sc: Scenario, wire: Wire, remaining: int, c: Cast, top: nat, n: nat, u: nat)
    requires Quiet(sc) && CastFor(sc, wire, remaining, c) && u < n <= sc.turns && remaining == sc.turns - (top + 1)
    ensures |Run(c, n).replies| == n && SaysAt(sc, wire, c.p, top, Run(c, n).replies, u)
  {
    SaidNext(sc, wire, remaining, c, top, n - 1);
    if u < n - 1 {
      AllSaid(sc, wire, remaining, c, top, n - 1, u);
      assert Run(c, n).replies[..u] == Run(c, n - 1).replies[..u];
    }
  }

  /** Every text of every trial, for any coalition of steps. */
  lemma TrialTranscript(sc: Scenario, wire: Wire, m: Matcher, s: set<nat>, u: nat)
    requires Quiet(sc) && wire.Contract() && m.Contract() && Proper(sc, s) && u < sc.turns
    ensures var c := CastOf(sc, wire, StageOf(sc, wire, m), s);
            && Bounds(s, c.p, Top(sc, s))
            && |Run(c, sc.turns).replies| == sc.turns
            && SaysAt(sc, wire, c.p, Top(sc, s), Run(c, sc.turns).replies, u)
  {
    var st := StageOf(sc, wire, m);
    StageHolds(sc, wire, m);
    BoundsHold(sc, wire, m, s);
    CastHolds(sc, wire, st, s);
    AllSaid(sc, wire, sc.turns - (Top(sc, s) + 1), CastOf(sc, wire, st, s), Top(sc, s), sc.turns, u);
  }

  lemma BoundsHold(sc: Scenario, wire: Wire, m: Matcher, s: set<nat>)
    requires Proper(sc, s)
    ensures Bounds(s, CastOf(sc, wire, StageOf(sc, wire, m), s).p, Top(sc, s))
  {
    PlanFacts(sc, wire, m, s);
  }

  /** The plan forces the coalition, from its least step to its highest. */
  ghost predicate Bounds(s: set<nat>, p: Plan, top: nat) {
    match p
    case Coalition(_, forced, first) => forced.Keys == s && first in s && top in s && forall x :: x in s ==> first <= x <= top
    case _ => false
  }
}
