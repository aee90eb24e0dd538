/** The archetype fault scenarios: a linear transcript-carrying agent, roles placed at steps of its tape, and
    three rules by which injected markers fail a run.

    Each archetype's whole Shapley run is proved to read its ground truth for every size. */
module Archetypes {
  import opened Tapes
  import opened Text
  import opened Conversations
  import opened ForkEngine
  import opened PerturbedRuns
  import opened Transports
  import opened ShapleyEfficiency
  import opened ShapleyRank
  import opened ScenarioBlame

  const ARCHETYPE_VOICE :=
    Voice("SUCCESS" + " - archetype run complete", "FAIL" + " - archetype fault triggered", Graded)

  lemma ArchetypeVoiceSpeaks()
    ensures Speaks(ARCHETYPE_VOICE)
  {
    TextsSpeak(" - archetype run complete", " - archetype fault triggered");
  }

  /** `ARCHETYPE_MARKER::` and the role. */
  function Marker(role: string): string {
    "ARCHETYPE_" + [MARK] + ("ARKER::" + role)
  }

  function MutatedText(role: string): string {
    role + " fault marker fired " + Marker(role)
  }

  // ---- the linear agent -----------------------------------------------------------------------------------

  /** The transcript after some replies: each is echoed, then the user says to go on. */
  function LinearTranscript(texts: seq<string>): seq<Message> {
    if texts == [] then [Message("user", "start")]
    else
      LinearTranscript(texts[..|texts| - 1]) + Echo(texts[|texts| - 1])
  }

  lemma {:induction false} TranscriptRoles(texts: seq<string>)
    ensures PlainRoles(LinearTranscript(texts))
  {
    if texts != [] {
      TranscriptRoles(texts[..|texts| - 1]);
    }
  }

  lemma {:induction false} TranscriptShows(texts: seq<string>, m: string)
    requires IsMarker(m)
    ensures Shown(LinearTranscript(texts), m) <==> SomeText(texts, m)
  {
    if texts == [] {
      InertMessage(Message("user", "start"), m);
    } else {
      var front, last := texts[..|texts| - 1], texts[|texts| - 1];
      TranscriptShows(front, m);
      EchoShows(last, m);
      ShownAppend(LinearTranscript(front), Echo(last), m);
      SomeTextAppend(front, last, m);
      assert front + [last] == texts;
    }
  }

  lemma HeardAppend(wire: Wire, replies: seq<Reply>, reply: Reply)
    ensures Heard(wire, replies + [reply]) == Heard(wire, replies) + [TextOf(wire, reply)]
    ensures AnyRaised(replies + [reply]) <==> AnyRaised(replies) || reply.Raised?
    ensures LinearTranscript(Heard(wire, replies + [reply]))
         == LinearTranscript(Heard(wire, replies)) + Echo(TextOf(wire, reply))
  {
    var more := replies + [reply];
    assert forall i :: 0 <= i < |replies| ==> more[i] == replies[i];
    assert more[|replies|] == reply;
    assert Heard(wire, more) == Heard(wire, replies) + [TextOf(wire, reply)];
    assert Heard(wire, more)[..|replies|] == Heard(wire, replies);
  }

  /** The linear agent as a loop over its turns, run against a coalition transport: it makes the requests, and
      stops as, the agent of its scenario does. */
  method LinearAgent(sc: Scenario, wire: Wire, transport: CoalitionForkTransport)
    returns (threw: bool, lastText: string)
    requires sc.turns >= 1 && sc.ask == LinearTranscript
    requires transport.firstStep in transport.interventions
    requires transport.Now() == Initial(transport.Built(), transport.matcher)
    modifies transport
    ensures AgentRan(sc, wire, transport.Built(), transport.inner, transport.matcher, transport.Now(), threw, lastText)
  {
    var messages := [Message("user", "start")];
    lastText := "";
    ghost var p, inner, m := transport.Built(), transport.inner, transport.matcher;
    ghost var replies: seq<Reply> := [];
    RunStarts(sc, wire, p, inner, m, messages);
    for turn := 0 to sc.turns
      invariant MidRun(sc, wire, p, inner, m, transport.Now(), replies, turn, messages, lastText)
    {
      TurnStep(sc, wire, p, inner, m, transport.Now(), replies, turn, messages, lastText);
      var reply := transport.HandleRequest(RequestOf(messages));
      if reply.Raised? {
        return true, lastText;
      }
      replies := replies + [reply];
      lastText := wire.text(reply.body);
      messages := messages + [Message("assistant", lastText)];
      if turn < sc.turns - 1 {
        messages := messages + [Message("user", "continue")];
      }
    }
    RunEnds(sc, wire, p, inner, m, transport.Now(), replies, messages, lastText);
    return false, lastText;
  }

  /** The agent of the scenario, driven against the same transport, stops in this state and in this way. */
  ghost predicate AgentRan(
    sc: Scenario, wire: Wire, p: Plan, inner: Upstream, m: Matcher, state: State, threw: bool, lastText: string)
  {
    var t := Drive(p, inner, m, AgentOf(sc, wire), sc.turns);
    state == t.state && AgentOf(sc, wire)(t.replies) == if threw then Throw else Return(lastText)
  }

  /** Nothing has raised in the first `turn` turns. */
  ghost predicate MidRun(
    sc: Scenario, wire: Wire, p: Plan, inner: Upstream, m: Matcher, state: State, replies: seq<Reply>, turn: nat,
    messages: seq<Message>, lastText: string)
  {
    DrivenTo(sc, wire, p, inner, m, state, replies, turn) && TextsFit(sc, wire, replies, turn, messages, lastText)
  }

  ghost predicate DrivenTo(
    sc: Scenario, wire: Wire, p: Plan, inner: Upstream, m: Matcher, state: State, replies: seq<Reply>, turn: nat)
  {
    var t := Drive(p, inner, m, AgentOf(sc, wire), turn);
    state == t.state && replies == t.replies && |replies| == turn && !AnyRaised(replies)
  }

  ghost predicate TextsFit(
    sc: Scenario, wire: Wire, replies: seq<Reply>, turn: nat, messages: seq<Message>, lastText: string)
  {
    && lastText == (if replies == [] then "" else TextOf(wire, replies[|replies| - 1]))
    && (turn < sc.turns ==> messages == sc.ask(Heard(wire, replies)))
  }

  lemma RunStarts(sc: Scenario, wire: Wire, p: Plan, inner: Upstream, m: Matcher, messages: seq<Message>)
    requires sc.ask == LinearTranscript && messages == [Message("user", "start")]
    ensures MidRun(sc, wire, p, inner, m, Initial(p, m), [], 0, messages, "")
  {
  }

  lemma RunEnds(
    sc: Scenario, wire: Wire, p: Plan, inner: Upstream, m: Matcher, state: State, replies: seq<Reply>,
    messages: seq<Message>, lastText: string)
    ensures MidRun(sc, wire, p, inner, m, state, replies, sc.turns, messages, lastText) ==>
              AgentRan(sc, wire, p, inner, m, state, false, lastText)
  {
  }

  /** The transcript after one more reply; nobody says to go on after the last. */
  function NextMessages(sc: Scenario, turn: nat, messages: seq<Message>, text: string): seq<Message> {
    messages + [Message("assistant", text)] + if turn < sc.turns - 1 then [Message("user", "continue")] else []
  }

  lemma TextsStillFit(
    sc: Scenario, wire: Wire, replies: seq<Reply>, turn: nat, messages: seq<Message>, lastText: string, reply: Reply)
    requires turn < sc.turns && sc.ask == LinearTranscript && reply.Answer?
    ensures TextsFit(sc, wire, replies, turn, messages, lastText) ==>
              TextsFit(sc, wire, replies + [reply], turn + 1,
                       NextMessages(sc, turn, messages, wire.text(reply.body)), wire.text(reply.body))
  {
    HeardAppend(wire, replies, reply);
    var text := wire.text(reply.body);
    assert turn < sc.turns - 1 ==> NextMessages(sc, turn, messages, text) == messages + Echo(text);
  }

  lemma TurnDriven(
    sc: Scenario, wire: Wire, p: Plan, inner: Upstream, m: Matcher, state: State, replies: seq<Reply>, turn: nat,
    q: Request)
    requires turn < sc.turns && q == RequestOf(sc.ask(Heard(wire, replies)))
    ensures var o := Step(p, inner, m, state, q);
            DrivenTo(sc, wire, p, inner, m, state, replies, turn) ==>
            if o.reply.Answer? then DrivenTo(sc, wire, p, inner, m, o.state, replies + [o.reply], turn + 1)
            else AgentRan(sc, wire, p, inner, m, o.state, true, "")
  {
    if DrivenTo(sc, wire, p, inner, m, state, replies, turn) {
      var agent, o := AgentOf(sc, wire), Step(p, inner, m, state, q);
      NextRequest(sc, wire, replies);
      HeardAppend(wire, replies, o.reply);
      OneMoreRequest(p, inner, m, agent, turn, q);
      if o.reply.Raised? {
        ThrowsAfter(sc, wire, replies + [o.reply]);
        StoppedStays(p, inner, m, agent, turn + 1, sc.turns);
      }
    }
  }

  /** One turn: the next request is the transcript, and the run goes on or has thrown for good. */
  lemma TurnStep(
    sc: Scenario, wire: Wire, p: Plan, inner: Upstream, m: Matcher, state: State, replies: seq<Reply>, turn: nat,
    messages: seq<Message>, lastText: string)
    requires turn < sc.turns && sc.ask == LinearTranscript
    ensures var o := Step(p, inner, m, state, RequestOf(messages));
            MidRun(sc, wire, p, inner, m, state, replies, turn, messages, lastText) ==>
            match o.reply
            case Raised(_) => AgentRan(sc, wire, p, inner, m, o.state, true, lastText)
            case Answer(body) =>
              MidRun(sc, wire, p, inner, m, o.state, replies + [o.reply], turn + 1,
                     NextMessages(sc, turn, messages, wire.text(body)), wire.text(body))
  {
    var q := RequestOf(messages);
    var o := Step(p, inner, m, state, q);
    if TextsFit(sc, wire, replies, turn, messages, lastText) {
      TurnDriven(sc, wire, p, inner, m, state, replies, turn, q);
      if o.reply.Answer? {
        TextsStillFit(sc, wire, replies, turn, messages, lastText, o.reply);
      }
    }
  }

  lemma OneMoreRequest(p: Plan, inner: Upstream, m: Matcher, agent: Agent, turn: nat, q: Request)
    requires agent(Drive(p, inner, m, agent, turn).replies) == Send(q)
    ensures var t, o := Drive(p, inner, m, agent, turn), Step(p, inner, m, Drive(p, inner, m, agent, turn).state, q);
            && Drive(p, inner, m, agent, turn + 1).state == o.state
            && Drive(p, inner, m, agent, turn + 1).replies == t.replies + [o.reply]
  {
  }

  lemma NextRequest(sc: Scenario, wire: Wire, replies: seq<Reply>)
    requires |replies| < sc.turns && !AnyRaised(replies)
    ensures AgentOf(sc, wire)(replies) == Send(RequestOf(sc.ask(Heard(wire, replies))))
  {
  }

  lemma ThrowsAfter(sc: Scenario, wire: Wire, replies: seq<Reply>)
    requires AnyRaised(replies)
    ensures AgentOf(sc, wire)(replies) == Throw
  {
  }

  // ---- roles ----------------------------------------------------------------------------------------------

  lemma SuffixIs(x: string, y: string)
    ensures (x + y)[|x + y| - |y|..] == y
  {
  }

  lemma PrefixAfter(x: string, r: string, role: string)
    ensures x + r <= x + role <==> r <= role
  {
    assert (x + r)[|x|..] == r && (x + role)[|x|..] == role;
    if x + r <= x + role {
      assert (x + role)[..|x + r|] == x + r;
      assert role[..|r|] == (x + role)[|x|..|x + r|];
    }
  }

  lemma MarkerSplit(stem: string, head: string, rest: string, r: string, role: string)
    requires Inert(stem) && Inert(head) && Inert(rest) && Inert(r) && Inert(role)
    ensures Contains(stem + (head + [MARK] + (rest + role)), head + [MARK] + (rest + r)) <==> r <= role
  {
    assert stem + (head + [MARK] + (rest + role)) == (stem + head) + [MARK] + (rest + role);
    AlignedOn(MARK, stem + head, rest + role, head, rest + r);
    SuffixIs(stem, head);
    PrefixAfter(rest, r, role);
  }

  lemma MarkerInMutated(r: string, role: string)
    requires Inert(r) && Inert(role)
    ensures Contains(MutatedText(role), Marker(r)) <==> r <= role
  {
    MarkerSplit(role + " fault marker fired ", "ARCHETYPE_", "ARKER::", r, role);
  }

  /** What the factory injects: an active role's marker text, and filler everywhere else. */
  function InjectedAt(positions: map<nat, string>, active: set<string>): nat -> string {
    (step: nat) => if step in positions && positions[step] in active then MutatedText(positions[step]) else NEUTRAL
  }

  function ArchetypeScenario(v: Voice, turns: nat, positions: map<nat, string>, active: set<string>, rule: Rule): Scenario {
    Scenario(turns, LinearTranscript, InjectedAt(positions, active), rule, v)
  }

  /** The factory's own check: every role is placed before the final step. */
  predicate FactoryAccepts(turns: nat, positions: map<nat, string>) {
    turns >= 1 && forall p :: p in positions ==> p + 1 < turns
  }

  ghost predicate InertRoles(positions: map<nat, string>) {
    forall p :: p in positions ==> Inert(positions[p])
  }

  lemma InjectedShows(positions: map<nat, string>, active: set<string>, step: nat, r: string)
    requires InertRoles(positions) && Inert(r)
    ensures Contains(InjectedAt(positions, active)(step), Marker(r)) <==>
              step in positions && positions[step] in active && r <= positions[step]
  {
    if step in positions && positions[step] in active {
      MarkerInMutated(r, positions[step]);
    } else {
      NeutralIsQuiet(r);
    }
  }

  lemma NeutralIsQuiet(r: string)
    ensures !Contains(NEUTRAL, Marker(r)) && ('\"' !in r && ' ' !in r && '|' !in r ==> IsMarker(Marker(r)))
  {
    assert MARK in Marker(r);
    if Contains(NEUTRAL, Marker(r)) {
      FoundIn(NEUTRAL, Marker(r), MARK);
    }
  }

  lemma LinearShowsAll(sc: Scenario, texts: seq<string>)
    requires sc.ask == LinearTranscript
    ensures ShowsAll(sc, texts)
  {
    TranscriptRoles(texts);
    forall m: string | IsMarker(m)
      ensures Contains(Body(sc.ask(texts)), m) <==> SomeText(texts, m)
    {
      TranscriptShows(texts, m);
      BodyShows(LinearTranscript(texts), m);
    }
  }

  lemma LinearTells(sc: Scenario)
    requires sc.ask == LinearTranscript && forall i :: 0 <= i < |sc.rule.markers| ==> IsMarker(sc.rule.markers[i])
    ensures Telling(sc)
  {
    forall texts: seq<string> ensures ShowsAll(sc, texts) {
      LinearShowsAll(sc, texts);
    }
  }

  lemma FactoryGuards(v: Voice, turns: nat, positions: map<nat, string>, active: set<string>, rule: Rule)
    requires FactoryAccepts(turns, positions)
    ensures Guarded(ArchetypeScenario(v, turns, positions, active, rule))
  {
  }

  lemma ArchetypeIsWellFormed(v: Voice, turns: nat, positions: map<nat, string>, active: set<string>, rule: Rule)
    requires Speaks(v)
    requires FactoryAccepts(turns, positions)
    requires forall i :: 0 <= i < |rule.markers| ==> IsMarker(rule.markers[i])
    ensures WellFormed(ArchetypeScenario(v, turns, positions, active, rule))
  {
    var sc := ArchetypeScenario(v, turns, positions, active, rule);
    LinearTells(sc);
    FactoryGuards(v, turns, positions, active, rule);
  }

  // ---- ground truth ---------------------------------------------------------------------------------------

  datatype ExpectedCase = ExpectedCase(step: nat, role: string, necessity: bool, sufficiency: bool)

  /** Every expected case reads as derived. */
  predicate MatchesExpected(results: seq<ShapleyResult>, expected: seq<ExpectedCase>) {
    forall i :: 0 <= i < |expected| ==> CaseMatches(results, expected[i])
  }

  predicate CaseMatches(results: seq<ShapleyResult>, e: ExpectedCase) {
    && e.step < |results|
    && results[e.step].necessity == e.necessity
    && results[e.step].sufficiency == e.sufficiency
  }

  /** The roles at the injected steps of a coalition that show the marker of `r`. */
  ghost predicate ShowsRole(positions: map<nat, string>, active: set<string>, s: set<nat>, r: string) {
    exists x :: x in s && x in positions && positions[x] in active && r <= positions[x]
  }

  lemma LitIsShown(v: Voice, turns: nat, positions: map<nat, string>, active: set<string>, rule: Rule, s: set<nat>, r: string)
    requires InertRoles(positions) && Inert(r)
    ensures Lit(ArchetypeScenario(v, turns, positions, active, rule), s, Marker(r)) <==> ShowsRole(positions, active, s, r)
  {
    forall x | x in s
      ensures Contains(InjectedAt(positions, active)(x), Marker(r)) <==>
                x in positions && positions[x] in active && r <= positions[x]
    {
      InjectedShows(positions, active, x, r);
    }
  }

  // ---- OR-redundancy --------------------------------------------------------------------------------------

  const CAUSE_A := "cause_a"
  const CAUSE_B := "cause_b"

  datatype ArchetypeResult =
    | Ran(results: seq<ShapleyResult>, expected: seq<ExpectedCase>)
    | ValueError

  function CausePositions(posA: nat, posB: nat): map<nat, string> {
    map[posA := CAUSE_A, posB := CAUSE_B]
  }

  function OrRule(): Rule {
    AnyOf([Marker(CAUSE_A), Marker(CAUSE_B)])
  }

  /** Some active cause is in the coalition. */
  predicate CauseIn(posA: nat, posB: nat, active: set<string>, s: set<nat>) {
    (CAUSE_A in active && posA in s) || (CAUSE_B in active && posB in s)
  }

  function CauseTrips(posA: nat, posB: nat, active: set<string>): set<nat> -> bool {
    (s: set<nat>) => CauseIn(posA, posB, active, s)
  }

  lemma CausesApart()
    ensures Inert(CAUSE_A) && Inert(CAUSE_B) && !(CAUSE_A <= CAUSE_B) && !(CAUSE_B <= CAUSE_A)
    ensures IsMarker(Marker(CAUSE_A)) && IsMarker(Marker(CAUSE_B))
  {
    assert CAUSE_A[6] != CAUSE_B[6];
    NeutralIsQuiet(CAUSE_A);
    NeutralIsQuiet(CAUSE_B);
  }

  lemma CausesShown(posA: nat, posB: nat, active: set<string>, s: set<nat>)
    requires posA < posB
    ensures ShowsRole(CausePositions(posA, posB), active, s, CAUSE_A) <==> CAUSE_A in active && posA in s
    ensures ShowsRole(CausePositions(posA, posB), active, s, CAUSE_B) <==> CAUSE_B in active && posB in s
  {
    CausesApart();
    var positions := CausePositions(posA, posB);
    assert posA in positions && posB in positions && positions[posA] == CAUSE_A && positions[posB] == CAUSE_B;
  }

  lemma OrTrips(v: Voice, turns: nat, posA: nat, posB: nat, active: set<string>, s: set<nat>)
    requires posA < posB
    ensures Trips(ArchetypeScenario(v, turns, CausePositions(posA, posB), active, OrRule()), s)
        <==> CauseIn(posA, posB, active, s)
  {
    var positions := CausePositions(posA, posB);
    CausesApart();
    CausesShown(posA, posB, active, s);
    LitIsShown(v, turns, positions, active, OrRule(), s, CAUSE_A);
    LitIsShown(v, turns, positions, active, OrRule(), s, CAUSE_B);
    assert OrRule().markers[0] == Marker(CAUSE_A) && OrRule().markers[1] == Marker(CAUSE_B);
  }

  /** From this prefix length on an active cause is in play; past the tape if there is none. */
  function FirstActive(posA: nat, posB: nat, turns: nat, active: set<string>): nat {
    if CAUSE_A in active then posA + 1 else if CAUSE_B in active then posB + 1 else turns + 1
  }

  function ExpectedOr(posA: nat, posB: nat, active: set<string>): seq<ExpectedCase> {
    [if CAUSE_A in active then ExpectedCase(posA, CAUSE_A, true, true) else ExpectedCase(posA, CAUSE_A, false, false),
     if CAUSE_B in active then ExpectedCase(posB, CAUSE_B, CAUSE_A !in active, true)
     else ExpectedCase(posB, CAUSE_B, false, false)]
  }

  function OrScenario(v: Voice, posA: nat, posB: nat, turns: nat, active: set<string>): Scenario {
    ArchetypeScenario(v, turns, CausePositions(posA, posB), active, OrRule())
  }

  lemma OrIsWellFormed(v: Voice, posA: nat, posB: nat, turns: nat, active: set<string>)
    requires Speaks(v)
    requires posA < posB && posB + 1 < turns
    ensures WellFormed(OrScenario(v, posA, posB, turns, active))
  {
    CausesApart();
    ArchetypeIsWellFormed(v, turns, CausePositions(posA, posB), active, OrRule());
  }

  lemma OrAgrees(v: Voice, posA: nat, posB: nat, turns: nat, active: set<string>)
    requires posA < posB
    ensures Agrees(OrScenario(v, posA, posB, turns, active), CauseTrips(posA, posB, active))
  {
    forall s: set<nat>
      ensures Trips(OrScenario(v, posA, posB, turns, active), s) == CauseTrips(posA, posB, active)(s)
    {
      OrTrips(v, turns, posA, posB, active, s);
    }
  }

  lemma OrFacts(v: Voice, wire: Wire, m: Matcher, posA: nat, posB: nat, turns: nat, active: set<string>)
    requires Speaks(v)
    requires wire.Contract() && m.Contract() && posA < posB && posB + 1 < turns
    ensures Ruled(TrialsFor(OrScenario(v, posA, posB, turns, active), wire, m), turns, CauseTrips(posA, posB, active))
    ensures TripsFrom(turns, CauseTrips(posA, posB, active), FirstActive(posA, posB, turns, active))
  {
    assert Ruled(TrialsFor(OrScenario(v, posA, posB, turns, active), wire, m), turns, CauseTrips(posA, posB, active)) by {
      OrIsWellFormed(v, posA, posB, turns, active);
      OrAgrees(v, posA, posB, turns, active);
      ScenarioIsRuled(OrScenario(v, posA, posB, turns, active), wire, m, CauseTrips(posA, posB, active));
    }
  }

  /** Both causes at any two steps before the last, any of them active: the earliest active cause alone is
      necessary, and every active cause is sufficient. The reading needs trials and repeats exactly when
      there is something to find. */
  method RunOrRedundancy(
    wire: Wire, m: Matcher, posA: int, posB: int, turns: int, active: set<string>, k: nat, samples: nat)
    returns (r: ArchetypeResult)
    requires wire.Contract() && m.Contract()
    ensures r.ValueError? <==> !(0 <= posA < posB < turns) || !(active <= {CAUSE_A, CAUSE_B}) || posB == turns - 1
    ensures r.Ran? ==>
              && 0 <= posA < posB && r.expected == ExpectedOr(posA, posB, active)
              && (MatchesExpected(r.results, r.expected) <==> active == {} || (k > 0 && samples > 0))
  {
    ArchetypeVoiceSpeaks();
    if !(0 <= posA < posB < turns) || !(active <= {CAUSE_A, CAUSE_B}) || posB == turns - 1 {
      return ValueError;
    }
    OrFacts(ARCHETYPE_VOICE, wire, m, posA, posB, turns, active);
    var results := BlameScenario(OrScenario(ARCHETYPE_VOICE, posA, posB, turns, active), wire, m, k, samples,
                                 CauseTrips(posA, posB, active), FirstActive(posA, posB, turns, active));
    OrReads(results, posA, posB, turns, active, k, samples);
    return Ran(results, ExpectedOr(posA, posB, active));
  }

  lemma OrReads(results: seq<ShapleyResult>, posA: nat, posB: nat, turns: nat, active: set<string>, k: nat, samples: nat)
    requires posA < posB && posB + 1 < turns == |results| && active <= {CAUSE_A, CAUSE_B}
    requires forall j :: 0 <= j < turns ==>
               Reading(results[j], j, turns, CauseTrips(posA, posB, active), FirstActive(posA, posB, turns, active), k, samples)
    ensures MatchesExpected(results, ExpectedOr(posA, posB, active)) <==> active == {} || (k > 0 && samples > 0)
  {
    var expected := ExpectedOr(posA, posB, active);
    assert Reading(results[posA], posA, turns, CauseTrips(posA, posB, active), FirstActive(posA, posB, turns, active), k, samples);
    assert Reading(results[posB], posB, turns, CauseTrips(posA, posB, active), FirstActive(posA, posB, turns, active), k, samples);
    assert CaseMatches(results, expected[0]) <==> CAUSE_A !in active || (k > 0 && samples > 0);
    assert CaseMatches(results, expected[1]) <==>
             CAUSE_B !in active || (if CAUSE_A in active then k > 0 else k > 0 && samples > 0);
    assert active != {} ==> CAUSE_A in active || CAUSE_B in active;
  }

  // ---- n-way conjunction ----------------------------------------------------------------------------------

  function Part(i: nat): string {
    "part_" + Decimal(i)
  }

  function PartPositions(arity: nat): map<nat, string> {
    map i: nat | 0 <= i < arity :: Part(i)
  }

  function Parts(arity: nat): set<string> {
    set i: nat | 0 <= i < arity :: Part(i)
  }

  function AndRule(arity: nat): Rule {
    AllOf(seq(arity, i requires 0 <= i < arity => Marker(Part(i))))
  }

  /** The marker of part `i` shows: in its own text, or in that of a part whose numeral extends its own. */
  ghost predicate PartShown(arity: nat, s: set<nat>, i: nat) {
    exists x :: x in s && x < arity && Decimal(i) <= Decimal(x)
  }

  ghost predicate AllShown(arity: nat, s: set<nat>) {
    forall i: nat :: i < arity ==> PartShown(arity, s, i)
  }

  ghost function AllTrips(arity: nat): set<nat> -> bool {
    (s: set<nat>) => AllShown(arity, s)
  }

  lemma PartIsInert(i: nat)
    ensures Inert(Part(i)) && IsMarker(Marker(Part(i)))
  {
    DecimalReads(i);
    NeutralIsQuiet(Part(i));
  }

  lemma PartPrefix(i: nat, x: nat)
    ensures Part(i) <= Part(x) <==> Decimal(i) <= Decimal(x)
  {
    assert Part(i)[5..] == Decimal(i) && Part(x)[5..] == Decimal(x);
  }

  lemma AndTrips(v: Voice, arity: nat, s: set<nat>)
    ensures Trips(ArchetypeScenario(v, arity + 1, PartPositions(arity), Parts(arity), AndRule(arity)), s)
        <==> AllShown(arity, s)
  {
    var sc := ArchetypeScenario(v, arity + 1, PartPositions(arity), Parts(arity), AndRule(arity));
    forall i: nat | i < arity
      ensures sc.rule.markers[i] == Marker(Part(i)) && (Lit(sc, s, Marker(Part(i))) <==> PartShown(arity, s, i))
    {
      PartLit(v, arity, s, i);
    }
  }

  lemma PartLit(v: Voice, arity: nat, s: set<nat>, i: nat)
    ensures Lit(ArchetypeScenario(v, arity + 1, PartPositions(arity), Parts(arity), AndRule(arity)), s, Marker(Part(i)))
        <==> PartShown(arity, s, i)
  {
    PartsAreInert(arity);
    PartIsInert(i);
    LitIsShown(v, arity + 1, PartPositions(arity), Parts(arity), AndRule(arity), s, Part(i));
    forall x: nat | x < arity
      ensures PartPositions(arity)[x] in Parts(arity) && (Part(i) <= PartPositions(arity)[x] <==> Decimal(i) <= Decimal(x))
    {
      PartPrefix(i, x);
    }
  }

  lemma PartsAreInert(arity: nat)
    ensures InertRoles(PartPositions(arity))
  {
    forall p | p in PartPositions(arity) ensures Inert(PartPositions(arity)[p]) {
      PartIsInert(p);
    }
  }

  /** The conjunction completes on a prefix exactly when the last part has joined. */
  lemma AndCompletesLast(arity: nat, i: nat)
    requires arity >= 2 && i <= arity
    ensures AllShown(arity, FirstSteps(i)) <==> i == arity
  {
    if i == arity {
      forall p: nat | p < arity ensures PartShown(arity, FirstSteps(i), p) {
        assert p in FirstSteps(i);
      }
    } else {
      NotShownBelow(arity, FirstSteps(i), arity - 1);
      assert !PartShown(arity, FirstSteps(i), arity - 1);
    }
  }

  /** A part is not shown by lower-numbered ones. */
  lemma NotShownBelow(arity: nat, s: set<nat>, i: nat)
    requires forall x :: x in s ==> x < i
    ensures !PartShown(arity, s, i)
  {
    if PartShown(arity, s, i) {
      var x :| x in s && x < arity && Decimal(i) <= Decimal(x);
      PrefixIsSmaller(i, x);
    }
  }

  /** No single part completes a conjunction of two or more. */
  lemma NoPartSuffices(arity: nat, j: nat)
    requires arity >= 2
    ensures !AllShown(arity, {j})
  {
    if AllShown(arity, {j}) {
      assert PartShown(arity, {j}, 0) && PartShown(arity, {j}, arity - 1);
      PrefixIsSmaller(0, j);
      PrefixIsSmaller(arity - 1, j);
    }
  }

  function AndScenario(v: Voice, arity: nat): Scenario {
    ArchetypeScenario(v, arity + 1, PartPositions(arity), Parts(arity), AndRule(arity))
  }

  /** The rule trips on a set of parts exactly when all of them are in it. */
  ghost predicate IsConjunction(v: Voice, arity: nat) {
    forall s: set<nat> :: s <= FirstSteps(arity) ==> (Trips(AndScenario(v, arity), s) <==> s == FirstSteps(arity))
  }

  /** A finding: the rule is the conjunction of its parts for at most ten of them. The marker of part 1 occurs
      inside that of part 10, so from eleven parts on the coalition of all parts but part 1 fails the run as well.
      No walk visits such a coalition. */
  lemma ConjunctionIff(v: Voice, arity: nat)
    ensures IsConjunction(v, arity) <==> arity <= 10
  {
    if arity <= 10 {
      forall s: set<nat> | s <= FirstSteps(arity)
        ensures Trips(AndScenario(v, arity), s) <==> s == FirstSteps(arity)
      {
        AndTrips(v, arity, s);
        OneDigitParts(arity, s);
      }
    } else {
      var s := FirstSteps(arity) - {1};
      AndTrips(v, arity, s);
      MarkersOverlap(arity);
      assert Trips(AndScenario(v, arity), s) && 1 in FirstSteps(arity) && s <= FirstSteps(arity);
      assert !IsConjunction(v, arity);
    }
  }

  lemma OneDigitParts(arity: nat, s: set<nat>)
    requires arity <= 10 && s <= FirstSteps(arity)
    ensures AllShown(arity, s) <==> s == FirstSteps(arity)
  {
    forall i: nat | i < arity ensures PartShown(arity, s, i) <==> i in s {
      if PartShown(arity, s, i) {
        var x :| x in s && x < arity && Decimal(i) <= Decimal(x);
        assert |Decimal(i)| == |Decimal(x)| == 1;
        assert Decimal(i) == Decimal(x);
        DecimalReads(i);
        DecimalReads(x);
      }
    }
  }

  lemma MarkersOverlap(arity: nat)
    requires arity >= 11
    ensures AllShown(arity, FirstSteps(arity) - {1})
  {
    var s := FirstSteps(arity) - {1};
    forall i: nat | i < arity ensures PartShown(arity, s, i) {
      if i == 1 {
        assert Decimal(10) == Decimal(1) + Decimal(0);
        assert 10 in s && Decimal(1) <= Decimal(10);
      } else {
        assert i in s;
      }
    }
  }

  lemma AndIsWellFormed(v: Voice, arity: nat)
    requires Speaks(v)
    requires arity >= 1
    ensures WellFormed(AndScenario(v, arity))
  {
    forall i | 0 <= i < |AndRule(arity).markers| ensures IsMarker(AndRule(arity).markers[i]) {
      PartIsInert(i);
    }
    ArchetypeIsWellFormed(v, arity + 1, PartPositions(arity), Parts(arity), AndRule(arity));
  }

  lemma AndAgrees(v: Voice, arity: nat)
    ensures Agrees(AndScenario(v, arity), AllTrips(arity))
  {
    forall s: set<nat> ensures Trips(AndScenario(v, arity), s) == AllTrips(arity)(s) {
      AndTrips(v, arity, s);
    }
  }

  lemma AndIsRuled(v: Voice, wire: Wire, m: Matcher, arity: nat)
    requires Speaks(v)
    requires wire.Contract() && m.Contract() && arity >= 1
    ensures Ruled(TrialsFor(AndScenario(v, arity), wire, m), arity + 1, AllTrips(arity))
  {
    AndIsWellFormed(v, arity);
    AndRules(v, wire, m, arity);
  }

  lemma AndRules(v: Voice, wire: Wire, m: Matcher, arity: nat)
    ensures WellFormed(AndScenario(v, arity)) && wire.Contract() && m.Contract() ==>
              Ruled(TrialsFor(AndScenario(v, arity), wire, m), arity + 1, AllTrips(arity))
  {
    assert AndScenario(v, arity).turns == arity + 1;
    AndAgrees(v, arity);
    ScenarioIsRuled(AndScenario(v, arity), wire, m, AllTrips(arity));
  }

  lemma AndTripsFrom(arity: nat)
    requires arity >= 2
    ensures TripsFrom(arity + 1, AllTrips(arity), arity)
  {
    forall i: nat | 1 <= i < arity + 1 ensures AllTrips(arity)(FirstSteps(i)) <==> i >= arity {
      AndCompletesLast(arity, i);
    }
  }

  function ExpectedConjunction(arity: nat): (expected: seq<ExpectedCase>)
    ensures |expected| == arity
    ensures forall j :: 0 <= j < arity ==> expected[j] == ExpectedCase(j, Part(j), j + 1 == arity, false)
  {
    seq(arity, i requires 0 <= i < arity => ExpectedCase(i, Part(i), i == arity - 1, false))
  }

  /** For every arity the last part to join is the only necessary one and no part is sufficient. */
  method RunConjunction(wire: Wire, m: Matcher, arity: int, k: nat, samples: nat) returns (r: ArchetypeResult)
    requires wire.Contract() && m.Contract()
    ensures r.ValueError? <==> arity < 2
    ensures r.Ran? ==>
              && arity >= 2 && r.expected == ExpectedConjunction(arity)
              && (MatchesExpected(r.results, r.expected) <==> k > 0 && samples > 0)
  {
    ArchetypeVoiceSpeaks();
    if arity < 2 {
      return ValueError;
    }
    AndIsRuled(ARCHETYPE_VOICE, wire, m, arity);
    AndTripsFrom(arity);
    var results := BlameScenario(AndScenario(ARCHETYPE_VOICE, arity), wire, m, k, samples, AllTrips(arity), arity);
    ConjunctionReads(results, arity, k, samples);
    return Ran(results, ExpectedConjunction(arity));
  }

  lemma ConjunctionReads(results: seq<ShapleyResult>, arity: nat, k: nat, samples: nat)
    requires arity >= 2 && |results| == arity + 1
    requires forall j :: 0 <= j <= arity ==> Reading(results[j], j, arity + 1, AllTrips(arity), arity, k, samples)
    ensures MatchesExpected(results, ExpectedConjunction(arity)) <==> k > 0 && samples > 0
  {
    var expected := ExpectedConjunction(arity);
    forall i | 0 <= i < arity
      ensures CaseMatches(results, expected[i]) <==> i < arity - 1 || (k > 0 && samples > 0)
    {
      assert Reading(results[i], i, arity + 1, AllTrips(arity), arity, k, samples);
      NoPartSuffices(arity, i);
    }
    assert CaseMatches(results, expected[arity - 1]) <==> k > 0 && samples > 0;
  }

  // ---- long relay -----------------------------------------------------------------------------------------

  const ROOT := "root"

  function RootRule(): Rule {
    AnyOf([Marker(ROOT)])
  }

  function RootTrips(): set<nat> -> bool {
    (s: set<nat>) => 0 in s
  }

  lemma RootIsMarker()
    ensures Inert(ROOT) && IsMarker(Marker(ROOT))
  {
    NeutralIsQuiet(ROOT);
  }

  function RelayScenario(v: Voice, nRelay: nat): Scenario {
    ArchetypeScenario(v, nRelay + 2, map[0 := ROOT], {ROOT}, RootRule())
  }

  lemma RelayIsWellFormed(v: Voice, nRelay: nat)
    requires Speaks(v)
    ensures WellFormed(RelayScenario(v, nRelay))
  {
    RootIsMarker();
    ArchetypeIsWellFormed(v, nRelay + 2, map[0 := ROOT], {ROOT}, RootRule());
  }

  lemma RelayAgrees(v: Voice, nRelay: nat)
    ensures Agrees(RelayScenario(v, nRelay), RootTrips())
  {
    RootIsMarker();
    forall s: set<nat> ensures Trips(RelayScenario(v, nRelay), s) == RootTrips()(s) {
      LitIsShown(v, nRelay + 2, map[0 := ROOT], {ROOT}, RootRule(), s, ROOT);
      assert RootRule().markers[0] == Marker(ROOT);
    }
  }

  lemma RelayFacts(v: Voice, wire: Wire, m: Matcher, nRelay: nat)
    requires Speaks(v)
    requires wire.Contract() && m.Contract()
    ensures Ruled(TrialsFor(RelayScenario(v, nRelay), wire, m), nRelay + 2, RootTrips())
    ensures TripsFrom(nRelay + 2, RootTrips(), 1)
  {
    assert Ruled(TrialsFor(RelayScenario(v, nRelay), wire, m), nRelay + 2, RootTrips()) by {
      RelayIsWellFormed(v, nRelay);
      RelayAgrees(v, nRelay);
      ScenarioIsRuled(RelayScenario(v, nRelay), wire, m, RootTrips());
    }
  }

  function ExpectedRelay(nRelay: nat): (expected: seq<ExpectedCase>)
    ensures |expected| == nRelay + 1
    ensures forall j :: 0 <= j <= nRelay ==>
              expected[j] == ExpectedCase(j, if j == 0 then ROOT else "relay_decoy", j == 0, j == 0)
  {
    [ExpectedCase(0, ROOT, true, true)]
    + seq(nRelay, i requires 0 <= i < nRelay => ExpectedCase(i + 1, "relay_decoy", false, false))
  }

  /** Whatever the length of the relay chain, the root alone is necessary and sufficient. */
  method RunLongRelay(wire: Wire, m: Matcher, nRelay: int, k: nat, samples: nat) returns (r: ArchetypeResult)
    requires wire.Contract() && m.Contract()
    ensures r.ValueError? <==> nRelay < 0
    ensures r.Ran? ==>
              && nRelay >= 0 && r.expected == ExpectedRelay(nRelay)
              && (MatchesExpected(r.results, r.expected) <==> k > 0 && samples > 0)
              && (k > 0 && samples > 0 ==> r.results != [] && r.results[0].shapleyValue == 1.0)
  {
    ArchetypeVoiceSpeaks();
    if nRelay < 0 {
      return ValueError;
    }
    RelayFacts(ARCHETYPE_VOICE, wire, m, nRelay);
    var results := BlameScenario(RelayScenario(ARCHETYPE_VOICE, nRelay), wire, m, k, samples, RootTrips(), 1);
    RelayReads(results, nRelay, k, samples);
    assert Reading(results[0], 0, nRelay + 2, RootTrips(), 1, k, samples);
    return Ran(results, ExpectedRelay(nRelay));
  }

  lemma RelayReads(results: seq<ShapleyResult>, nRelay: nat, k: nat, samples: nat)
    requires |results| == nRelay + 2
    requires forall j :: 0 <= j < nRelay + 2 ==> Reading(results[j], j, nRelay + 2, RootTrips(), 1, k, samples)
    ensures MatchesExpected(results, ExpectedRelay(nRelay)) <==> k > 0 && samples > 0
  {
    var expected := ExpectedRelay(nRelay);
    forall i | 0 <= i < |expected|
      ensures CaseMatches(results, expected[i]) <==> i > 0 || (k > 0 && samples > 0)
    {
      assert Reading(results[i], i, nRelay + 2, RootTrips(), 1, k, samples);
    }
    assert CaseMatches(results, expected[0]) <==> k > 0 && samples > 0;
  }
}
