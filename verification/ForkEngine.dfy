/** The fork engine: three stateful transports and the three entry points that run an agent
    through them. */
module ForkEngine {
  import opened Tapes
  import opened Transports
  import ForkTheorems
  import RebaseTheorems
  import opened Seqs
  import Sorting

  class ForkTransport {
    const parent: Tape
    const k: nat
    const mutated: Bytes
    const inner: Upstream
    const matcher: Matcher
    var delta: Tape
    var i: nat
    var prefixReplayed: nat
    var tailRecorded: nat
    var sent: seq<Request>  // what the inner transport has received
    ghost var forced: nat

    function Built(): Plan { ForkAt(parent, k, mutated) }

    ghost function Now(): State
      reads this
    {
      State(i, delta, prefixReplayed, forced, 0, tailRecorded, map[], sent)
    }

    constructor (parent: Tape, k: nat, mutated: Bytes, inner: Upstream, matcher: Matcher)
      ensures Built() == ForkAt(parent, k, mutated) && this.inner == inner && this.matcher == matcher
      ensures Now() == Initial(Built(), matcher)
    {
      this.parent, this.k, this.mutated, this.inner, this.matcher := parent, k, mutated, inner, matcher;
      delta, i, prefixReplayed, tailRecorded, sent, forced := [], 0, 0, 0, [], 0;
    }

    method HandleRequest(q: Request) returns (reply: Reply)
      modifies this
      ensures var o := Step(Built(), inner, matcher, old(Now()), q); Now() == o.state && reply == o.reply
    {
      var at := i;
      i := i + 1;
      if at <= k {
        var failure := Check(parent, at, matcher, q);
        if failure != [] {
          return Raised(failure[0]);
        }
        if at < k {
          prefixReplayed := prefixReplayed + 1;
          return Answer(parent[at].response);
        }
        delta := delta + [Exchange(matcher.stored(q), mutated)];
        forced := forced + 1;
        return Answer(mutated);
      }
      sent := sent + [q];
      reply := inner(sent);
      if reply.Answer? {
        delta := delta + [Exchange(matcher.stored(q), reply.body)];
        tailRecorded := tailRecorded + 1;
      }
    }
  }

  class CoalitionForkTransport {
    const parent: Tape
    const interventions: map<nat, Bytes>
    const firstStep: nat
    const inner: Upstream
    const matcher: Matcher
    var delta: Tape
    var i: nat
    var prefixReplayed: nat
    var tailRecorded: nat
    var interventionsApplied: nat
    var sent: seq<Request>

    function Built(): Plan { Coalition(parent, interventions, firstStep) }

    ghost function Now(): State
      reads this
    {
      State(i, delta, prefixReplayed, interventionsApplied, 0, tailRecorded, map[], sent)
    }

    constructor (parent: Tape, interventions: map<nat, Bytes>, firstStep: nat, inner: Upstream, matcher: Matcher)
      ensures Built() == Coalition(parent, interventions, firstStep)
      ensures this.inner == inner && this.matcher == matcher
      ensures Now() == Initial(Built(), matcher)
    {
      this.parent, this.interventions, this.firstStep := parent, interventions, firstStep;
      this.inner, this.matcher := inner, matcher;
      delta, i, prefixReplayed, tailRecorded, interventionsApplied, sent := [], 0, 0, 0, 0, [];
    }

    method HandleRequest(q: Request) returns (reply: Reply)
      requires firstStep in interventions
      modifies this
      ensures var o := Step(Built(), inner, matcher, old(Now()), q); Now() == o.state && reply == o.reply
    {
      var at := i;
      i := i + 1;
      if at <= firstStep {
        var failure := Check(parent, at, matcher, q);
        if failure != [] {
          return Raised(failure[0]);
        }
      }
      if at < firstStep {
        prefixReplayed := prefixReplayed + 1;
        return Answer(parent[at].response);
      }
      if at in interventions {
        delta := delta + [Exchange(matcher.stored(q), interventions[at])];
        interventionsApplied := interventionsApplied + 1;
        return Answer(interventions[at]);
      }
      sent := sent + [q];
      reply := inner(sent);
      if reply.Answer? {
        delta := delta + [Exchange(matcher.stored(q), reply.body)];
        tailRecorded := tailRecorded + 1;
      }
    }
  }

  class RebaseTransport {
    const newParent: Tape
    const oldDelta: Tape
    const intervened: set<nat>
    const firstStep: nat
    const inner: Upstream
    const matcher: Matcher
    var delta: Tape
    var tailQueue: map<Fingerprint, seq<Bytes>>
    var i: nat
    var prefixReplayed: nat
    var interventionsApplied: nat
    var tailReused: nat
    var tailRecorded: nat
    var sent: seq<Request>

    function Built(): Plan { Rebase(newParent, oldDelta, intervened, firstStep) }

    ghost function Now(): State
      reads this
    {
      State(i, delta, prefixReplayed, interventionsApplied, tailReused, tailRecorded, tailQueue, sent)
    }

    constructor (newParent: Tape, oldDelta: Tape, intervened: set<nat>, firstStep: nat, inner: Upstream, matcher: Matcher)
      ensures Built() == Rebase(newParent, oldDelta, intervened, firstStep)
      ensures this.inner == inner && this.matcher == matcher
      ensures Now() == Initial(Built(), matcher)
    {
      this.newParent, this.oldDelta, this.intervened, this.firstStep := newParent, oldDelta, intervened, firstStep;
      this.inner, this.matcher := inner, matcher;
      delta, i, prefixReplayed, interventionsApplied, tailReused, tailRecorded, sent := [], 0, 0, 0, 0, 0, [];
      var queue: map<Fingerprint, seq<Bytes>> := map[];
      for j := 0 to |oldDelta|
        invariant queue == TailQueue(matcher, oldDelta, firstStep, intervened, j)
      {
        if firstStep + j !in intervened {
          var f := matcher.storedPrint(oldDelta[j].request);
          queue := queue[f := Queued(queue, f) + [oldDelta[j].response]];
        }
      }
      tailQueue := queue;
    }

    method HandleRequest(q: Request) returns (reply: Reply)
      modifies this
      ensures var o := Step(Built(), inner, matcher, old(Now()), q); Now() == o.state && reply == o.reply
    {
      var at := i;
      i := i + 1;
      if at < firstStep {
        var failure := Check(newParent, at, matcher, q);
        if failure != [] {
          return Raised(failure[0]);
        }
        prefixReplayed := prefixReplayed + 1;
        return Answer(newParent[at].response);
      }
      var storedReq := matcher.stored(q);
      if at in intervened {
        if at - firstStep >= |oldDelta| {
          return Raised(NoSuchExchange(at));
        }
        var response := oldDelta[at - firstStep].response;
        delta := delta + [Exchange(storedReq, response)];
        interventionsApplied := interventionsApplied + 1;
        return Answer(response);
      }
      var f := matcher.live(q);
      if Queued(tailQueue, f) != [] {
        var response := tailQueue[f][0];
        tailQueue := tailQueue[f := tailQueue[f][1..]];
        delta := delta + [Exchange(storedReq, response)];
        tailReused := tailReused + 1;
        return Answer(response);
      }
      sent := sent + [q];
      reply := inner(sent);
      if reply.Answer? {
        delta := delta + [Exchange(storedReq, reply.body)];
        tailRecorded := tailRecorded + 1;
      }
    }
  }

  // ---- coalition specs ------------------------------------------------------------------------------------

  datatype StepIntervention = StepIntervention(step: int, mutated: Bytes)

  datatype SpecResult = Spec(interventions: seq<StepIntervention>) | EmptySpec | DuplicateSteps

  predicate ByStep(a: StepIntervention, b: StepIntervention) { a.step <= b.step }

  ghost predicate Ascending(ivs: seq<StepIntervention>) {
    forall i, j :: 0 <= i < j < |ivs| ==> ivs[i].step < ivs[j].step
  }

  function StepsOf(ivs: seq<StepIntervention>): seq<int> {
    seq(|ivs|, i requires 0 <= i < |ivs| => ivs[i].step)
  }

  /** Rejects an empty or repeating coalition; otherwise the same interventions by ascending step, so
      that the first one is the first point of divergence. */
  method NewCoalitionSpec(ivs: seq<StepIntervention>) returns (r: SpecResult)
    ensures r.EmptySpec? <==> ivs == []
    ensures r.DuplicateSteps? <==> !Distinct(StepsOf(ivs))
    ensures r.Spec? ==> multiset(r.interventions) == multiset(ivs) && r.interventions != [] && Ascending(r.interventions)
  {
    if ivs == [] {
      return EmptySpec;
    }
    var steps := StepsOf(ivs);
    DistinctIffCounted(steps);
    if |steps| != |set s | s in steps| {
      return DuplicateSteps;
    }
    var sorted := Sorting.Sort(ByStep, ivs);
    Sorting.SortIsSorted(ByStep, ivs);
    DistinctStepsAscend(ivs, sorted);
    return Spec(sorted);
  }

  lemma DistinctStepsAscend(ivs: seq<StepIntervention>, sorted: seq<StepIntervention>)
    requires Distinct(StepsOf(ivs)) && multiset(sorted) == multiset(ivs) && Sorting.Sorted(ByStep, sorted)
    ensures Ascending(sorted)
  {
    forall i, j | 0 <= i < j < |sorted|
      ensures sorted[i].step < sorted[j].step
    {
      assert ByStep(sorted[i], sorted[j]);
      if sorted[i].step == sorted[j].step {
        assert sorted[i] in multiset(ivs) && sorted[j] in multiset(ivs);
        var x :| 0 <= x < |ivs| && ivs[x] == sorted[i];
        var y :| 0 <= y < |ivs| && ivs[y] == sorted[j];
        assert StepsOf(ivs)[x] == StepsOf(ivs)[y];
        assert x == y;
        TwiceInMultiset(sorted, i, j);
        OnceInMultiset(ivs, x);
        assert false;
      }
    }
  }

  lemma TwiceInMultiset<T>(s: seq<T>, i: nat, j: nat)
    requires i < j < |s| && s[i] == s[j]
    ensures multiset(s)[s[i]] >= 2
  {
    assert s == s[..j] + s[j..];
    assert s[..j][i] == s[i] && s[j..][0] == s[i];
    assert s[i] in multiset(s[..j]) && s[i] in multiset(s[j..]);
  }

  lemma OnceInMultiset(ivs: seq<StepIntervention>, x: nat)
    requires x < |ivs| && Distinct(StepsOf(ivs))
    ensures multiset(ivs)[ivs[x]] == 1
  {
    assert ivs == ivs[..x] + [ivs[x]] + ivs[x + 1..];
    forall y | 0 <= y < |ivs| && y != x ensures ivs[y] != ivs[x] {
      assert StepsOf(ivs)[x] != StepsOf(ivs)[y];
    }
    assert ivs[x] !in ivs[..x] && ivs[x] !in ivs[x + 1..];
  }

  /** The transport's lookup table. */
  function ForcedMap(ivs: seq<StepIntervention>): map<nat, Bytes>
    requires forall i :: 0 <= i < |ivs| ==> 0 <= ivs[i].step
  {
    if ivs == [] then map[]
    else
      var last := |ivs| - 1;
      ForcedMap(ivs[..last])[ivs[last].step := ivs[last].mutated]
  }

  lemma {:induction false} ForcedMapMeans(ivs: seq<StepIntervention>)
    requires forall i :: 0 <= i < |ivs| ==> 0 <= ivs[i].step
    ensures forall s: nat :: s in ForcedMap(ivs) <==> exists i :: 0 <= i < |ivs| && ivs[i].step == s
    ensures Ascending(ivs) ==> forall i :: 0 <= i < |ivs| ==> ForcedMap(ivs)[ivs[i].step] == ivs[i].mutated
  {
    if ivs != [] {
      ForcedMapMeans(ivs[..|ivs| - 1]);
    }
  }

  // ---- the engine -----------------------------------------------------------------------------------------

  datatype Branch = Branch(
    parent: Tape,
    divergenceStep: nat,
    delta: Tape,
    prefixReplayed: nat,
    tailRecorded: nat,
    tailReused: nat,
    intervenedSteps: seq<int>)

  datatype ForkResult =
    | Made(branch: Branch)
    | OutOfRange(step: int)
    | AgentThrew
    | NeverDiverged  // rebase only: the agent stopped before the fork point
    | Unfinished     // the agent wants to make more than `n` requests

  function BranchOf(p: Plan, steps: seq<int>, s: State): Branch {
    Branch(p.parent, p.First(), s.delta, s.prefixReplayed, s.tailRecorded, s.tailReused, steps)
  }

  /** What an entry point returns for the agent's last move and the transport's last state. */
  function Concluded(p: Plan, steps: seq<int>, move: Action, s: State): ForkResult {
    match move
    case Send(_) => Unfinished
    case Throw => AgentThrew
    case Return(_) => if p.Rebase? && s.delta == [] then NeverDiverged else Made(BranchOf(p, steps, s))
  }

  /** What an entry point returns once the agent has been driven for up to `n` requests. */
  function Finish(p: Plan, steps: seq<int>, inner: Upstream, m: Matcher, agent: Agent, n: nat): ForkResult {
    var t := Drive(p, inner, m, agent, n);
    Concluded(p, steps, agent(t.replies), t.state)
  }

  lemma {:induction false} StoppedStays(p: Plan, inner: Upstream, m: Matcher, agent: Agent, k: nat, n: nat)
    requires k <= n && !agent(Drive(p, inner, m, agent, k).replies).Send?
    ensures Drive(p, inner, m, agent, n) == Drive(p, inner, m, agent, k)
  {
    if k < n {
      StoppedStays(p, inner, m, agent, k, n - 1);
    }
  }

  // The three entry points drive the agent in the same loop; these two lemmas are its proof.

  /** After `k` requests the transport is in state `s` and the agent has heard `replies`. */
  ghost predicate Driven(
    p: Plan, inner: Upstream, m: Matcher, agent: Agent, k: nat, s: State, replies: seq<Reply>)
  {
    var t := Drive(p, inner, m, agent, k);
    t.state == s && t.replies == replies
  }

  lemma DriveOn(
    p: Plan, inner: Upstream, m: Matcher, agent: Agent, k: nat, s: State, replies: seq<Reply>)
    requires agent(replies).Send?
    ensures var o := Step(p, inner, m, s, agent(replies).request);
            Driven(p, inner, m, agent, k, s, replies) ==>
              Driven(p, inner, m, agent, k + 1, o.state, replies + [o.reply])
  {
  }

  lemma DriveEnds(
    p: Plan, steps: seq<int>, inner: Upstream, m: Matcher, agent: Agent, k: nat, n: nat, s: State, replies: seq<Reply>)
    requires k == n || (k < n && !agent(replies).Send?)
    ensures Driven(p, inner, m, agent, k, s, replies) ==>
              Finish(p, steps, inner, m, agent, n) == Concluded(p, steps, agent(replies), s)
  {
    if k < n && Driven(p, inner, m, agent, k, s, replies) {
      StoppedStays(p, inner, m, agent, k, n);
    }
  }

  method Fork(parent: Tape, step: int, mutated: Bytes, agent: Agent, inner: Upstream, m: Matcher, n: nat)
    returns (r: ForkResult)
    ensures r == if 0 <= step < |parent|
                 then Finish(ForkAt(parent, step, mutated), [step], inner, m, agent, n)
                 else OutOfRange(step)
  {
    if step < 0 || step >= |parent| {
      return OutOfRange(step);
    }
    var transport := new ForkTransport(parent, step, mutated, inner, m);
    ghost var p := transport.Built();
    var replies: seq<Reply> := [];
    var k := 0;
    while k < n && agent(replies).Send?
      invariant k <= n && transport.Built() == p && transport.inner == inner && transport.matcher == m
      invariant Driven(p, inner, m, agent, k, transport.Now(), replies)
    {
      DriveOn(p, inner, m, agent, k, transport.Now(), replies);
      var reply := transport.HandleRequest(agent(replies).request);
      replies := replies + [reply];
      k := k + 1;
    }
    DriveEnds(p, [step], inner, m, agent, k, n, transport.Now(), replies);
    match agent(replies)
    case Send(_) => return Unfinished;
    case Throw => return AgentThrew;
    case Return(_) =>
      return Made(Branch(parent, step, transport.delta, transport.prefixReplayed, transport.tailRecorded, 0, [step]));
  }

  ghost predicate InRange(spec: seq<StepIntervention>, n: nat) {
    forall i :: 0 <= i < |spec| ==> 0 <= spec[i].step < n
  }

  /** `step` is the first step of the coalition that the tape does not have. */
  ghost predicate FirstOutside(spec: seq<StepIntervention>, n: nat, step: int) {
    exists i :: 0 <= i < |spec| && spec[i].step == step && !(0 <= step < n) && InRange(spec[..i], n)
  }

  /** The first step of the coalition that the tape does not have, if there is one. */
  method FindOutside(spec: seq<StepIntervention>, n: nat) returns (outside: seq<int>)
    ensures outside == [] <==> InRange(spec, n)
    ensures outside != [] ==> FirstOutside(spec, n, outside[0])
  {
    for i := 0 to |spec|
      invariant InRange(spec[..i], n)
    {
      if spec[i].step < 0 || spec[i].step >= n {
        return [spec[i].step];
      }
    }
    assert spec[..|spec|] == spec;
    return [];
  }

  lemma ForcedMapValid(parent: Tape, spec: seq<StepIntervention>)
    requires spec != [] && Ascending(spec) && InRange(spec, |parent|)
    ensures Coalition(parent, ForcedMap(spec), spec[0].step).Valid()
  {
    ForcedMapMeans(spec);
  }

  /** Drives the agent through a coalition's transport. */
  method DriveCoalition(
    parent: Tape, forced: map<nat, Bytes>, first: nat, steps: seq<int>,
    agent: Agent, inner: Upstream, m: Matcher, n: nat)
    returns (r: ForkResult)
    requires first in forced
    ensures r == Finish(Coalition(parent, forced, first), steps, inner, m, agent, n)
  {
    var transport := new CoalitionForkTransport(parent, forced, first, inner, m);
    ghost var p := transport.Built();
    var replies: seq<Reply> := [];
    var k := 0;
    while k < n && agent(replies).Send?
      invariant k <= n && transport.Built() == p && transport.inner == inner && transport.matcher == m
      invariant Driven(p, inner, m, agent, k, transport.Now(), replies)
    {
      DriveOn(p, inner, m, agent, k, transport.Now(), replies);
      var reply := transport.HandleRequest(agent(replies).request);
      replies := replies + [reply];
      k := k + 1;
    }
    DriveEnds(p, steps, inner, m, agent, k, n, transport.Now(), replies);
    match agent(replies)
    case Send(_) => return Unfinished;
    case Throw => return AgentThrew;
    case Return(_) =>
      return Made(Branch(parent, first, transport.delta, transport.prefixReplayed,
                         transport.tailRecorded, 0, steps));
  }

  method ForkCoalition(
    parent: Tape, spec: seq<StepIntervention>, agent: Agent, inner: Upstream, m: Matcher, n: nat)
    returns (r: ForkResult)
    requires spec != [] && Ascending(spec)
    ensures r.OutOfRange? <==> !InRange(spec, |parent|)
    ensures r.OutOfRange? ==> FirstOutside(spec, |parent|, r.step)
    ensures InRange(spec, |parent|) ==>
              && Coalition(parent, ForcedMap(spec), spec[0].step).Valid()
              && r == Finish(Coalition(parent, ForcedMap(spec), spec[0].step), StepsOf(spec), inner, m, agent, n)
  {
    var outside := FindOutside(spec, |parent|);
    if outside != [] {
      return OutOfRange(outside[0]);
    }
    ForcedMapValid(parent, spec);
    r := DriveCoalition(parent, ForcedMap(spec), spec[0].step, StepsOf(spec), agent, inner, m, n);
  }

  function ToSet(steps: seq<int>): (r: set<nat>)
    ensures forall s: nat :: s in r <==> s as int in steps
  {
    set s | s in steps && 0 <= s :: s
  }

  method RebaseBranch(earlier: Branch, newParent: Tape, agent: Agent, inner: Upstream, m: Matcher, n: nat)
    returns (r: ForkResult)
    ensures r == if earlier.divergenceStep <= |newParent|
                 then Finish(Rebase(newParent, earlier.delta, ToSet(earlier.intervenedSteps), earlier.divergenceStep),
                             earlier.intervenedSteps, inner, m, agent, n)
                 else OutOfRange(earlier.divergenceStep)
  {
    if earlier.divergenceStep > |newParent| {
      return OutOfRange(earlier.divergenceStep);
    }
    var transport := new RebaseTransport(newParent, earlier.delta, ToSet(earlier.intervenedSteps),
                                         earlier.divergenceStep, inner, m);
    ghost var p := transport.Built();
    var replies: seq<Reply> := [];
    var k := 0;
    while k < n && agent(replies).Send?
      invariant k <= n && transport.Built() == p && transport.inner == inner && transport.matcher == m
      invariant Driven(p, inner, m, agent, k, transport.Now(), replies)
    {
      DriveOn(p, inner, m, agent, k, transport.Now(), replies);
      var reply := transport.HandleRequest(agent(replies).request);
      replies := replies + [reply];
      k := k + 1;
    }
    DriveEnds(p, earlier.intervenedSteps, inner, m, agent, k, n, transport.Now(), replies);
    match agent(replies)
    case Send(_) => return Unfinished;
    case Throw => return AgentThrew;
    case Return(_) =>
      if transport.delta == [] {
        return NeverDiverged;
      }
      return Made(Branch(newParent, earlier.divergenceStep, transport.delta, transport.prefixReplayed,
                         transport.tailRecorded, transport.tailReused, earlier.intervenedSteps));
  }

  // ---- the branches themselves ----------------------------------------------------------------------------

  /** A one-element coalition makes the very branch the classic fork makes. */
  lemma SingleCoalitionBranch(
    parent: Tape, step: nat, mutated: Bytes, inner: Upstream, m: Matcher, agent: Agent, n: nat)
    ensures var spec := [StepIntervention(step, mutated)];
            Finish(Coalition(parent, ForcedMap(spec), step), StepsOf(spec), inner, m, agent, n) ==
            Finish(ForkAt(parent, step, mutated), [step], inner, m, agent, n)
  {
    var spec := [StepIntervention(step, mutated)];
    assert ForcedMap(spec) == map[step := mutated];
    assert StepsOf(spec) == [step];
    ForkTheorems.SingleCoalitionIsFork(parent, step, mutated, inner, m, agent, n);
  }

  /** Rebasing a branch onto its own parent gives back its delta tape with the whole tail reused and nothing asked of the
      upstream, if no request past the fork point raised; otherwise the agent hears something else, or the upstream is
      asked again. */
  lemma RebaseOwnBranch(
    p: Plan, steps: seq<int>, inner: Upstream, later: Upstream, m: Matcher, agent: Agent, n: nat)
    requires !p.Rebase? && p.Valid() && m.Contract() && p.First() < |p.parent|
    requires ToSet(steps) == RebaseTheorems.ForcedSteps(p)
    requires Finish(p, steps, inner, m, agent, n).Made?
    ensures var b, fork := Finish(p, steps, inner, m, agent, n).branch, Drive(p, inner, m, agent, n);
            var onto := Rebase(p.parent, b.delta, ToSet(b.intervenedSteps), b.divergenceStep);
            var again, rebased := Finish(onto, b.intervenedSteps, later, m, agent, n), Drive(onto, later, m, agent, n);
            if FailuresFrom(p.First(), fork.replies) == 0 then
              && rebased.state.sent == []
              && again == if b.delta == [] then NeverDiverged else Made(b.(tailRecorded := 0, tailReused := b.tailRecorded))
            else rebased.replies != fork.replies || rebased.state.sent != []
  {
    RebaseTheorems.RebaseOntoOwnParent(p, inner, later, m, agent, n);
  }
}
