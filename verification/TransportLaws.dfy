/** What every request of every run of a fork transport gets, said of the request's own place in the run: which answers
    are the parent's, which are forced, which the earlier branch's, and which are paid for. */
module TransportLaws {
  import opened Tapes
  import opened Transports
  import RebaseTheorems
  import ForkEngine
  import opened Seqs

  // ---- the places of a run --------------------------------------------------------------------------------

  /** Step `j` is one the plan forces. */
  ghost predicate Forced(p: Plan, j: nat) {
    match p
    case ForkAt(_, step, _) => j == step
    case Coalition(_, forced, _) => j in forced
    case Rebase(_, _, intervened, first) => first <= j && j in intervened
  }

  /** What it is forced to; a rebase has nothing to force where the earlier branch recorded nothing. */
  ghost function Body(p: Plan, j: nat): Option<Bytes>
    requires Forced(p, j)
  {
    match p
    case ForkAt(_, _, mutated) => Some(mutated)
    case Coalition(_, forced, _) => Some(forced[j])
    case Rebase(_, oldDelta, _, first) => if j - first < |oldDelta| then Some(oldDelta[j - first].response) else None
  }

  /** Step `j` is left to the tail. */
  ghost predicate Tail(p: Plan, j: nat) {
    p.First() <= j && !Forced(p, j)
  }

  /** The earlier requests of the tail with the fingerprint of request `j`. */
  ghost function Twins(p: Plan, m: Matcher, reqs: seq<Request>, j: nat): set<nat>
    requires j < |reqs|
  {
    Asked(p, m, reqs, m.live(reqs[j]), j)
  }

  ghost function Asked(p: Plan, m: Matcher, reqs: seq<Request>, f: Fingerprint, j: nat): set<nat>
    requires j <= |reqs|
  {
    set i: nat | i < j && AsksFor(p, m, reqs, f, i)
  }

  /** Request `i` is of the tail and of fingerprint `f`. */
  ghost predicate AsksFor(p: Plan, m: Matcher, reqs: seq<Request>, f: Fingerprint, i: nat)
    requires i < |reqs|
  {
    Tail(p, i) && m.live(reqs[i]) == f
  }

  /** Offset `d` of the earlier branch is an unforced exchange of fingerprint `f`. */
  ghost predicate Offers(p: Plan, m: Matcher, f: Fingerprint, d: nat) {
    p.Rebase? && d < |p.oldDelta| && p.first + d !in p.intervened && m.storedPrint(p.oldDelta[d].request) == f
  }

  ghost function Offered(p: Plan, m: Matcher, f: Fingerprint, from: nat, to: nat): set<nat> {
    set d: nat | from <= d < to && Offers(p, m, f, d)
  }

  /** How many exchanges of fingerprint `f` there are to reuse. */
  ghost function Supply(p: Plan, m: Matcher, f: Fingerprint): nat {
    if p.Rebase? then |Offered(p, m, f, 0, |p.oldDelta|)| else 0
  }

  /** Request `j` is of the tail, and every exchange of its fingerprint has gone to an earlier request. */
  ghost predicate Paid(p: Plan, m: Matcher, reqs: seq<Request>, j: nat)
    requires j < |reqs|
  {
    Tail(p, j) && |Twins(p, m, reqs, j)| >= Supply(p, m, m.live(reqs[j]))
  }

  ghost function PaidAt(p: Plan, m: Matcher, reqs: seq<Request>): nat -> bool {
    (i: nat) => i < |reqs| && Paid(p, m, reqs, i)
  }

  /** The requests before `j` that are paid for. */
  ghost function PaidBefore(p: Plan, m: Matcher, reqs: seq<Request>, j: nat): set<nat> {
    KeptUpTo(PaidAt(p, m, reqs), j)
  }

  // ---- a run as a list of requests ------------------------------------------------------------------------

  function Moves(p: Plan, inner: Upstream, m: Matcher): (State, Request) -> State {
    (s: State, q: Request) => Step(p, inner, m, s, q).state
  }

  function After(p: Plan, inner: Upstream, m: Matcher, reqs: seq<Request>, j: nat): State
    requires j <= |reqs|
  {
    Folded(Moves(p, inner, m), Initial(p, m), reqs, j)
  }

  function ReplyTo(p: Plan, inner: Upstream, m: Matcher, reqs: seq<Request>, j: nat): Reply
    requires j < |reqs|
  {
    Step(p, inner, m, After(p, inner, m, reqs, j), reqs[j]).reply
  }

  lemma AfterLonger(p: Plan, inner: Upstream, m: Matcher, reqs: seq<Request>, q: Request, j: nat)
    requires j <= |reqs|
    ensures After(p, inner, m, reqs + [q], j) == After(p, inner, m, reqs, j)
  {
    FoldedPrefix(Moves(p, inner, m), Initial(p, m), reqs, reqs + [q], j);
  }

  /** `t` is the run of its own requests. */
  ghost predicate RunOfRequests(p: Plan, inner: Upstream, m: Matcher, t: Trace) {
    && |t.requests| == |t.replies|
    && t.state == After(p, inner, m, t.requests, |t.requests|)
    && Hears(p, inner, m, t.requests, t.replies)
  }

  ghost predicate Hears(p: Plan, inner: Upstream, m: Matcher, reqs: seq<Request>, replies: seq<Reply>)
    requires |reqs| == |replies|
  {
    forall j :: 0 <= j < |reqs| ==> HearsAt(p, inner, m, reqs, replies, j)
  }

  ghost predicate HearsAt(p: Plan, inner: Upstream, m: Matcher, reqs: seq<Request>, replies: seq<Reply>, j: nat)
    requires j < |reqs| && j < |replies|
  {
    replies[j] == ReplyTo(p, inner, m, reqs, j)
  }

  lemma {:induction false} DriveIsRun(p: Plan, inner: Upstream, m: Matcher, agent: Agent, n: nat)
    ensures RunOfRequests(p, inner, m, Drive(p, inner, m, agent, n))
  {
    if n > 0 {
      DriveIsRun(p, inner, m, agent, n - 1);
      AdvanceIsRun(p, inner, m, agent, Drive(p, inner, m, agent, n - 1));
    }
  }

  lemma ReplyLonger(p: Plan, inner: Upstream, m: Matcher, reqs: seq<Request>, q: Request, j: nat)
    requires j <= |reqs|
    ensures ReplyTo(p, inner, m, reqs + [q], j)
         == if j < |reqs| then ReplyTo(p, inner, m, reqs, j) else Step(p, inner, m, After(p, inner, m, reqs, j), q).reply
  {
    AfterLonger(p, inner, m, reqs, q, j);
  }

  lemma AfterLast(p: Plan, inner: Upstream, m: Matcher, reqs: seq<Request>, q: Request)
    ensures After(p, inner, m, reqs + [q], |reqs| + 1) == Step(p, inner, m, After(p, inner, m, reqs, |reqs|), q).state
  {
    AfterLonger(p, inner, m, reqs, q, |reqs|);
  }

  lemma AdvanceIsRun(p: Plan, inner: Upstream, m: Matcher, agent: Agent, t: Trace)
    requires RunOfRequests(p, inner, m, t)
    ensures RunOfRequests(p, inner, m, Advance(p, inner, m, agent, t))
  {
    if agent(t.replies).Send? {
      var q := agent(t.replies).request;
      AfterLast(p, inner, m, t.requests, q);
      HearsMore(p, inner, m, t.requests, t.replies, q, Step(p, inner, m, t.state, q).reply);
    }
  }

  lemma HearsMore(
    p: Plan, inner: Upstream, m: Matcher, reqs: seq<Request>, replies: seq<Reply>, q: Request, reply: Reply)
    requires |reqs| == |replies| && Hears(p, inner, m, reqs, replies)
    requires reply == Step(p, inner, m, After(p, inner, m, reqs, |reqs|), q).reply
    ensures Hears(p, inner, m, reqs + [q], replies + [reply])
  {
    forall j | 0 <= j < |reqs + [q]| ensures HearsAt(p, inner, m, reqs + [q], replies + [reply], j) {
      HearsMoreAt(p, inner, m, reqs, replies, q, reply, j);
    }
  }

  lemma HearsMoreAt(
    p: Plan, inner: Upstream, m: Matcher, reqs: seq<Request>, replies: seq<Reply>, q: Request, reply: Reply, j: nat)
    requires |reqs| == |replies| && j <= |reqs| && (j < |reqs| ==> HearsAt(p, inner, m, reqs, replies, j))
    requires reply == Step(p, inner, m, After(p, inner, m, reqs, |reqs|), q).reply
    ensures HearsAt(p, inner, m, reqs + [q], replies + [reply], j)
  {
    ReplyLonger(p, inner, m, reqs, q, j);
  }

  lemma StepCounts(p: Plan, inner: Upstream, m: Matcher, s: State, q: Request)
    ensures Step(p, inner, m, s, q).state.i == s.i + 1
  {
  }

  lemma {:induction false} Counted(p: Plan, inner: Upstream, m: Matcher, reqs: seq<Request>, j: nat)
    requires j <= |reqs|
    ensures After(p, inner, m, reqs, j).i == j
  {
    if j > 0 {
      Counted(p, inner, m, reqs, j - 1);
      StepCounts(p, inner, m, After(p, inner, m, reqs, j - 1), reqs[j - 1]);
    }
  }

  // ---- the queues of a rebase -----------------------------------------------------------------------------

  /** Exchange `d`, of rank `r` among those of its fingerprint, is the one queued in place `r`. */
  lemma {:induction false} QueuedAt(p: Plan, m: Matcher, f: Fingerprint, j: nat, r: nat) returns (d: nat)
    requires p.Rebase? && j <= |p.oldDelta|
    requires r < |RebaseTheorems.Waiting(m, p.oldDelta, p.first, p.intervened, f, j)|
    ensures j <= d && Offers(p, m, f, d) && |Offered(p, m, f, j, d)| == r
    ensures RebaseTheorems.Waiting(m, p.oldDelta, p.first, p.intervened, f, j)[r] == p.oldDelta[d].response
    decreases |p.oldDelta| - j
  {
    if Offers(p, m, f, j) && r == 0 {
      d := j;
      assert Offered(p, m, f, j, d) == {};
    } else {
      d := QueuedAt(p, m, f, j + 1, if Offers(p, m, f, j) then r - 1 else r);
      OfferedFrom(p, m, f, j, d);
    }
  }

  lemma OfferedFrom(p: Plan, m: Matcher, f: Fingerprint, j: nat, to: nat)
    requires j < to
    ensures |Offered(p, m, f, j, to)| == |Offered(p, m, f, j + 1, to)| + if Offers(p, m, f, j) then 1 else 0
  {
    assert Offered(p, m, f, j, to) == Offered(p, m, f, j + 1, to) + if Offers(p, m, f, j) then {j} else {};
  }

  lemma {:induction false} WaitingIsSupply(p: Plan, m: Matcher, f: Fingerprint, j: nat)
    requires p.Rebase? && j <= |p.oldDelta|
    ensures |RebaseTheorems.Waiting(m, p.oldDelta, p.first, p.intervened, f, j)| == |Offered(p, m, f, j, |p.oldDelta|)|
    decreases |p.oldDelta| - j
  {
    if j == |p.oldDelta| {
      assert Offered(p, m, f, j, |p.oldDelta|) == {};
    } else {
      WaitingIsSupply(p, m, f, j + 1);
      OfferedFrom(p, m, f, j, |p.oldDelta|);
    }
  }

  function Min(a: nat, b: nat): nat {
    if a <= b then a else b
  }

  /** What waits for `f` after `j` requests: the exchanges of `f` less one for each request of `f` in the tail. */
  ghost predicate QueueAt(p: Plan, m: Matcher, reqs: seq<Request>, f: Fingerprint, j: nat, queue: seq<Bytes>)
    requires p.Rebase? && j <= |reqs|
  {
    var all := RebaseTheorems.Waiting(m, p.oldDelta, p.first, p.intervened, f, 0);
    queue == all[Min(|Asked(p, m, reqs, f, j)|, |all|)..]
  }

  lemma AskedNext(p: Plan, m: Matcher, reqs: seq<Request>, f: Fingerprint, j: nat)
    requires j < |reqs|
    ensures |Asked(p, m, reqs, f, j + 1)|
         == |Asked(p, m, reqs, f, j)| + if Tail(p, j) && m.live(reqs[j]) == f then 1 else 0
  {
    assert Asked(p, m, reqs, f, j + 1) == Asked(p, m, reqs, f, j) + if AsksFor(p, m, reqs, f, j) then {j} else {};
  }

  /** One request takes the head of the queue of its own fingerprint, if it is of the tail. */
  lemma QueueStep(p: Plan, inner: Upstream, m: Matcher, s: State, q: Request, f: Fingerprint)
    requires p.Rebase?
    ensures var before, after := Queued(s.queue, f), Queued(Step(p, inner, m, s, q).state.queue, f);
            after == if Tail(p, s.i) && m.live(q) == f && before != [] then before[1..] else before
  {
  }

  lemma {:induction false} QueuesLaw(p: Plan, inner: Upstream, m: Matcher, reqs: seq<Request>, f: Fingerprint, j: nat)
    requires p.Rebase? && j <= |reqs|
    ensures QueueAt(p, m, reqs, f, j, Queued(After(p, inner, m, reqs, j).queue, f))
  {
    if j == 0 {
      RebaseTheorems.QueueOffersTheTail(m, p.oldDelta, p.first, p.intervened, f, |p.oldDelta|);
      assert Asked(p, m, reqs, f, 0) == {};
    } else {
      QueuesLaw(p, inner, m, reqs, f, j - 1);
      Counted(p, inner, m, reqs, j - 1);
      QueueStep(p, inner, m, After(p, inner, m, reqs, j - 1), reqs[j - 1], f);
      QueueNext(p, m, reqs, f, j - 1, Queued(After(p, inner, m, reqs, j - 1).queue, f),
                Queued(After(p, inner, m, reqs, j).queue, f));
    }
  }

  lemma QueueNext(
    p: Plan, m: Matcher, reqs: seq<Request>, f: Fingerprint, j: nat, before: seq<Bytes>, after: seq<Bytes>)
    requires p.Rebase? && j < |reqs| && QueueAt(p, m, reqs, f, j, before)
    requires after == if Tail(p, j) && m.live(reqs[j]) == f && before != [] then before[1..] else before
    ensures QueueAt(p, m, reqs, f, j + 1, after)
  {
    AskedNext(p, m, reqs, f, j);
  }

  // ---- what each request gets -----------------------------------------------------------------------------

  /** The parent's own answer, if the request is the one recorded there. */
  function FromParent(p: Plan, m: Matcher, q: Request, j: nat): Reply {
    if j >= |p.parent| then Raised(NoSuchExchange(j))
    else if m.storedPrint(p.parent[j].request) != m.live(q) then Raised(Diverged(j))
    else Answer(p.parent[j].response)
  }

  /** Before the first intervention, and at it but for a rebase, a request must be the recorded one. */
  lemma PrefixReply(p: Plan, inner: Upstream, m: Matcher, reqs: seq<Request>, j: nat)
    requires j < |reqs| && j < p.First()
    ensures ReplyTo(p, inner, m, reqs, j) == FromParent(p, m, reqs[j], j)
  {
    Counted(p, inner, m, reqs, j);
  }

  /** A forced step gets its body, whatever has happened before: at the first intervention of a fork if the request is
      the recorded one, and everywhere else whatever the request is. */
  lemma ForcedReply(p: Plan, inner: Upstream, m: Matcher, reqs: seq<Request>, j: nat)
    requires p.Valid() && j < |reqs| && Forced(p, j)
    ensures ReplyTo(p, inner, m, reqs, j) ==
            if !p.Rebase? && j == p.First() && FromParent(p, m, reqs[j], j).Raised? then FromParent(p, m, reqs[j], j)
            else if Body(p, j).Some? then Answer(Body(p, j).value)
            else Raised(NoSuchExchange(j))
  {
    Counted(p, inner, m, reqs, j);
  }

  /** Whether the transport finds anything to reuse for request `j`. */
  lemma ReuseIff(p: Plan, inner: Upstream, m: Matcher, reqs: seq<Request>, j: nat)
    requires p.Rebase? && j < |reqs| && Tail(p, j)
    ensures Paid(p, m, reqs, j) <==> Queued(After(p, inner, m, reqs, j).queue, m.live(reqs[j])) == []
  {
    QueuesLaw(p, inner, m, reqs, m.live(reqs[j]), j);
    WaitingIsSupply(p, m, m.live(reqs[j]), 0);
  }

  /** A request of the tail that is not paid for gets the recorded response of its own fingerprint and rank. */
  lemma ReusedReply(p: Plan, inner: Upstream, m: Matcher, reqs: seq<Request>, j: nat) returns (d: nat)
    requires j < |reqs| && Tail(p, j) && !Paid(p, m, reqs, j)
    ensures p.Rebase? && Offers(p, m, m.live(reqs[j]), d)
    ensures |Offered(p, m, m.live(reqs[j]), 0, d)| == |Twins(p, m, reqs, j)|
    ensures ReplyTo(p, inner, m, reqs, j) == Answer(p.oldDelta[d].response)
  {
    var f := m.live(reqs[j]);
    Counted(p, inner, m, reqs, j);
    ReuseIff(p, inner, m, reqs, j);
    QueuesLaw(p, inner, m, reqs, f, j);
    WaitingIsSupply(p, m, f, 0);
    d := QueuedAt(p, m, f, 0, |Twins(p, m, reqs, j)|);
  }

  /** One request reaches the upstream exactly when it is paid for, and then gets the upstream's reply. */
  lemma SentNext(p: Plan, inner: Upstream, m: Matcher, reqs: seq<Request>, j: nat)
    requires p.Valid() && j < |reqs|
    ensures var before, after := After(p, inner, m, reqs, j).sent, After(p, inner, m, reqs, j + 1).sent;
            && after == before + (if Paid(p, m, reqs, j) then [reqs[j]] else [])
            && (Paid(p, m, reqs, j) ==> ReplyTo(p, inner, m, reqs, j) == inner(after))
  {
    Counted(p, inner, m, reqs, j);
    if p.Rebase? && Tail(p, j) {
      ReuseIff(p, inner, m, reqs, j);
    }
  }

  ghost function SentAt(p: Plan, inner: Upstream, m: Matcher, reqs: seq<Request>): nat -> seq<Request> {
    (i: nat) => if i <= |reqs| then After(p, inner, m, reqs, i).sent else []
  }

  ghost function RequestAt(reqs: seq<Request>): nat -> Request
    requires reqs != []
  {
    (i: nat) => reqs[if i < |reqs| then i else 0]
  }

  lemma SentAtNext(p: Plan, inner: Upstream, m: Matcher, reqs: seq<Request>, i: nat)
    requires p.Valid() && i < |reqs|
    ensures CollectsAt(SentAt(p, inner, m, reqs), PaidAt(p, m, reqs), RequestAt(reqs), i)
  {
    SentNext(p, inner, m, reqs, i);
  }

  /** What the upstream has received is exactly the requests paid for, in the order of the run. */
  lemma SentCollects(p: Plan, inner: Upstream, m: Matcher, reqs: seq<Request>, n: nat, j: nat)
    requires p.Valid() && n <= |reqs| && j <= n
    ensures |After(p, inner, m, reqs, n).sent| == |PaidBefore(p, m, reqs, n)|
    ensures j < n && Paid(p, m, reqs, j) ==>
              && |PaidBefore(p, m, reqs, j)| < |After(p, inner, m, reqs, n).sent|
              && After(p, inner, m, reqs, n).sent[|PaidBefore(p, m, reqs, j)|] == reqs[j]
  {
    if n == 0 {
      assert PaidBefore(p, m, reqs, 0) == {};
    } else {
      forall i: nat | i < n ensures CollectsAt(SentAt(p, inner, m, reqs), PaidAt(p, m, reqs), RequestAt(reqs), i) {
        SentAtNext(p, inner, m, reqs, i);
      }
      Collected(SentAt(p, inner, m, reqs), PaidAt(p, m, reqs), RequestAt(reqs), n, j);
    }
  }

  lemma {:induction false} SentGrows(p: Plan, inner: Upstream, m: Matcher, reqs: seq<Request>, j: nat, n: nat)
    requires j <= n <= |reqs|
    ensures After(p, inner, m, reqs, j).sent <= After(p, inner, m, reqs, n).sent
    decreases n - j
  {
    if j < n {
      SentGrows(p, inner, m, reqs, j, n - 1);
      StepSends(p, inner, m, After(p, inner, m, reqs, n - 1), reqs[n - 1]);
    }
  }

  lemma StepSends(p: Plan, inner: Upstream, m: Matcher, s: State, q: Request)
    ensures s.sent <= Step(p, inner, m, s, q).state.sent
  {
  }

  /** A request that is paid for is the upstream's next, in the order of the run, and gets its reply. */
  lemma PaidReply(p: Plan, inner: Upstream, m: Matcher, reqs: seq<Request>, j: nat)
    requires p.Valid() && j < |reqs| && Paid(p, m, reqs, j)
    ensures var sent, k := After(p, inner, m, reqs, |reqs|).sent, |PaidBefore(p, m, reqs, j)|;
            k < |sent| && sent[k] == reqs[j] && ReplyTo(p, inner, m, reqs, j) == inner(sent[..k + 1])
  {
    var before, now, sent := SentBy(p, inner, m, reqs, j), SentBy(p, inner, m, reqs, j + 1), SentBy(p, inner, m, reqs, |reqs|);
    SentCollects(p, inner, m, reqs, j, j);
    SentNext(p, inner, m, reqs, j);
    SentGrows(p, inner, m, reqs, j + 1, |reqs|);
    InPlace(before, reqs[j], sent);
  }

  function SentBy(p: Plan, inner: Upstream, m: Matcher, reqs: seq<Request>, j: nat): seq<Request>
    requires j <= |reqs|
  {
    After(p, inner, m, reqs, j).sent
  }

  lemma InPlace<T>(before: seq<T>, x: T, sent: seq<T>)
    requires before + [x] <= sent
    ensures |before| < |sent| && sent[|before|] == x && sent[..|before| + 1] == before + [x]
  {
    assert sent[|before|] == (before + [x])[|before|];
  }

  // ---- what is counted and kept ---------------------------------------------------------------------------

  /** Which part of a run request `j` is of. */
  ghost function PartOf(p: Plan, m: Matcher, reqs: seq<Request>, j: nat): Source
    requires j < |reqs|
  {
    if j < p.First() then Source.Prefix
    else if Forced(p, j) then Source.Forced
    else if Paid(p, m, reqs, j) then Source.Recorded
    else Source.Reused
  }

  ghost predicate AnsweredAs(p: Plan, inner: Upstream, m: Matcher, reqs: seq<Request>, part: Source, j: nat)
    requires j < |reqs|
  {
    PartOf(p, m, reqs, j) == part && ReplyTo(p, inner, m, reqs, j).Answer?
  }

  ghost function AnsweredAt(p: Plan, inner: Upstream, m: Matcher, reqs: seq<Request>, part: Source): nat -> bool {
    (i: nat) => i < |reqs| && AnsweredAs(p, inner, m, reqs, part, i)
  }

  /** The counter of one part of a run. */
  function CounterOf(s: State, part: Source): nat {
    match part
    case Prefix => s.prefixReplayed
    case Forced => s.applied
    case Reused => s.tailReused
    case Recorded => s.tailRecorded
    case Failed => 0
  }

  /** Each counter moves with the answered requests of its own part. */
  lemma CounterNext(p: Plan, inner: Upstream, m: Matcher, reqs: seq<Request>, part: Source, j: nat)
    requires p.Valid() && j < |reqs|
    ensures CounterOf(After(p, inner, m, reqs, j + 1), part)
         == CounterOf(After(p, inner, m, reqs, j), part) + if AnsweredAs(p, inner, m, reqs, part, j) then 1 else 0
  {
    Counted(p, inner, m, reqs, j);
    if p.Rebase? && Tail(p, j) {
      ReuseIff(p, inner, m, reqs, j);
    }
  }

  ghost function CounterAt(p: Plan, inner: Upstream, m: Matcher, reqs: seq<Request>, part: Source): nat -> nat {
    (i: nat) => if i <= |reqs| then CounterOf(After(p, inner, m, reqs, i), part) else 0
  }

  lemma CounterAtNext(p: Plan, inner: Upstream, m: Matcher, reqs: seq<Request>, part: Source, i: nat)
    requires p.Valid() && i < |reqs|
    ensures TotalsAt(CounterAt(p, inner, m, reqs, part), AnsweredAt(p, inner, m, reqs, part), i)
  {
    CounterNext(p, inner, m, reqs, part, i);
  }

  /** The counters a branch reports are the numbers of answered requests of each part. */
  lemma CountersLaw(p: Plan, inner: Upstream, m: Matcher, reqs: seq<Request>, part: Source, n: nat)
    requires p.Valid() && n <= |reqs|
    ensures CounterOf(After(p, inner, m, reqs, n), part) == |KeptUpTo(AnsweredAt(p, inner, m, reqs, part), n)|
  {
    forall i: nat | i < n
      ensures TotalsAt(CounterAt(p, inner, m, reqs, part), AnsweredAt(p, inner, m, reqs, part), i)
    {
      CounterAtNext(p, inner, m, reqs, part, i);
    }
    Totalled(CounterAt(p, inner, m, reqs, part), AnsweredAt(p, inner, m, reqs, part), n);
  }

  ghost predicate Kept(p: Plan, inner: Upstream, m: Matcher, reqs: seq<Request>, j: nat)
    requires j < |reqs|
  {
    p.First() <= j && ReplyTo(p, inner, m, reqs, j).Answer?
  }

  /** The answered requests from the first intervention on. */
  ghost function KeptAt(p: Plan, inner: Upstream, m: Matcher, reqs: seq<Request>): nat -> bool {
    (i: nat) => i < |reqs| && Kept(p, inner, m, reqs, i)
  }

  lemma StepKeeps(p: Plan, inner: Upstream, m: Matcher, s: State, q: Request)
    ensures var o := Step(p, inner, m, s, q);
            o.state.delta
            == s.delta + if p.First() <= s.i && o.reply.Answer? then [Exchange(m.stored(q), o.reply.body)] else []
  {
  }

  lemma DeltaNext(p: Plan, inner: Upstream, m: Matcher, reqs: seq<Request>, j: nat)
    requires j < |reqs|
    ensures After(p, inner, m, reqs, j + 1).delta == After(p, inner, m, reqs, j).delta
            + if Kept(p, inner, m, reqs, j) then [EntryOf(p, inner, m, reqs, j)] else []
  {
    Counted(p, inner, m, reqs, j);
    StepKeeps(p, inner, m, After(p, inner, m, reqs, j), reqs[j]);
  }

  ghost function DeltaAt(p: Plan, inner: Upstream, m: Matcher, reqs: seq<Request>): nat -> Tape {
    (i: nat) => if i <= |reqs| then After(p, inner, m, reqs, i).delta else []
  }

  ghost function EntryAt(p: Plan, inner: Upstream, m: Matcher, reqs: seq<Request>): nat -> Exchange {
    (i: nat) => EntryOf(p, inner, m, reqs, i)
  }

  lemma DeltaAtNext(p: Plan, inner: Upstream, m: Matcher, reqs: seq<Request>, i: nat)
    requires i < |reqs|
    ensures CollectsAt(DeltaAt(p, inner, m, reqs), KeptAt(p, inner, m, reqs), EntryAt(p, inner, m, reqs), i)
  {
    DeltaNext(p, inner, m, reqs, i);
  }

  /** The delta tape has an entry for each of them and no other, in the order of the run. */
  lemma DeltaPlaces(p: Plan, inner: Upstream, m: Matcher, reqs: seq<Request>, j: nat)
    ensures |After(p, inner, m, reqs, |reqs|).delta| == |KeptUpTo(KeptAt(p, inner, m, reqs), |reqs|)|
    ensures j < |reqs| && Kept(p, inner, m, reqs, j) ==>
              var delta, k := After(p, inner, m, reqs, |reqs|).delta, |KeptUpTo(KeptAt(p, inner, m, reqs), j)|;
              k < |delta| && delta[k] == EntryOf(p, inner, m, reqs, j)
  {
    forall i: nat | i < |reqs|
      ensures CollectsAt(DeltaAt(p, inner, m, reqs), KeptAt(p, inner, m, reqs), EntryAt(p, inner, m, reqs), i)
    {
      DeltaAtNext(p, inner, m, reqs, i);
    }
    Collected(DeltaAt(p, inner, m, reqs), KeptAt(p, inner, m, reqs), EntryAt(p, inner, m, reqs), |reqs|, j);
  }

  /** What is kept of a request that is answered. */
  function EntryOf(p: Plan, inner: Upstream, m: Matcher, reqs: seq<Request>, j: nat): Exchange {
    if j < |reqs| && ReplyTo(p, inner, m, reqs, j).Answer?
    then Exchange(m.stored(reqs[j]), ReplyTo(p, inner, m, reqs, j).body) else Exchange("", "")
  }

  // ---- the same, of driven agents -------------------------------------------------------------------------

  /** Request `j` of a run got what its place says. */
  ghost predicate Lawful(p: Plan, inner: Upstream, m: Matcher, t: Trace, j: nat)
    requires |t.requests| == |t.replies| && j < |t.requests|
  {
    var q, reply, k := t.requests[j], t.replies[j], |PaidBefore(p, m, t.requests, j)|;
    if j < p.First() then reply == FromParent(p, m, q, j)
    else if Forced(p, j) then
      reply == if !p.Rebase? && j == p.First() && FromParent(p, m, q, j).Raised? then FromParent(p, m, q, j)
               else if Body(p, j).Some? then Answer(Body(p, j).value)
               else Raised(NoSuchExchange(j))
    else if Paid(p, m, t.requests, j) then
      k < |t.state.sent| && t.state.sent[k] == q && reply == inner(t.state.sent[..k + 1])
    else
      exists d: nat :: Reuses(p, m, t.requests, j, d) && reply == Answer(p.oldDelta[d].response)
  }

  /** Exchange `d` of the earlier branch is the one for request `j`: of its fingerprint, and of its rank. */
  ghost predicate Reuses(p: Plan, m: Matcher, reqs: seq<Request>, j: nat, d: nat)
    requires j < |reqs|
  {
    Offers(p, m, m.live(reqs[j]), d) && |Offered(p, m, m.live(reqs[j]), 0, d)| == |Twins(p, m, reqs, j)|
  }

  /** The requests are those the agent makes of what it has heard so far, up to `n` or until it stops. */
  ghost predicate Asks(agent: Agent, t: Trace, n: nat) {
    && |t.requests| == |t.replies| <= n
    && (|t.requests| < n ==> !agent(t.replies).Send?)
    && forall j :: 0 <= j < |t.requests| ==> agent(t.replies[..j]) == Send(t.requests[j])
  }

  lemma {:induction false} DriveAsks(p: Plan, inner: Upstream, m: Matcher, agent: Agent, n: nat)
    ensures Asks(agent, Drive(p, inner, m, agent, n), n)
  {
    if n > 0 {
      DriveAsks(p, inner, m, agent, n - 1);
      AdvanceAsks(p, inner, m, agent, Drive(p, inner, m, agent, n - 1), n - 1);
    }
  }

  lemma AdvanceAsks(p: Plan, inner: Upstream, m: Matcher, agent: Agent, t: Trace, n: nat)
    requires Asks(agent, t, n)
    ensures Asks(agent, Advance(p, inner, m, agent, t), n + 1)
  {
    var next := Advance(p, inner, m, agent, t);
    forall j | 0 <= j < |t.requests| ensures next.replies[..j] == t.replies[..j] && next.requests[j] == t.requests[j] {
    }
    if agent(t.replies).Send? {
      assert next.replies[..|t.replies|] == t.replies;
    }
  }

  /** For every plan, new parent, upstream and agent: before the fork point a request gets the parent's answer to it or an
      exception; a forced step gets its forced response; any other gets the earlier branch's response of its fingerprint
      and rank, or goes to the upstream if there is none, and nothing else does. */
  lemma EveryRequest(p: Plan, inner: Upstream, m: Matcher, agent: Agent, n: nat)
    requires p.Valid()
    ensures var t := Drive(p, inner, m, agent, n);
            && Asks(agent, t, n)
            && |t.state.sent| == |PaidBefore(p, m, t.requests, |t.requests|)|
            && (forall j :: 0 <= j < |t.requests| ==> Lawful(p, inner, m, t, j))
  {
    var t := Drive(p, inner, m, agent, n);
    DriveIsRun(p, inner, m, agent, n);
    DriveAsks(p, inner, m, agent, n);
    SentCollects(p, inner, m, t.requests, |t.requests|, |t.requests|);
    forall j | 0 <= j < |t.requests| ensures Lawful(p, inner, m, t, j) {
      OneRequest(p, inner, m, t, j);
    }
  }

  lemma OneRequest(p: Plan, inner: Upstream, m: Matcher, t: Trace, j: nat)
    requires p.Valid() && RunOfRequests(p, inner, m, t) && j < |t.requests|
    ensures Lawful(p, inner, m, t, j)
  {
    assert HearsAt(p, inner, m, t.requests, t.replies, j);
    if j < p.First() {
      PrefixReply(p, inner, m, t.requests, j);
    } else if Forced(p, j) {
      ForcedReply(p, inner, m, t.requests, j);
    } else if Paid(p, m, t.requests, j) {
      PaidReply(p, inner, m, t.requests, j);
    } else {
      var d := ReusedReply(p, inner, m, t.requests, j);
      assert Reuses(p, m, t.requests, j, d);
    }
  }

  /** The answered requests of one part of a run, by its replies. */
  ghost function AnsweredOf(p: Plan, m: Matcher, t: Trace, part: Source): set<nat>
    requires |t.requests| == |t.replies|
  {
    set j: nat | j < |t.requests| && PartOf(p, m, t.requests, j) == part && t.replies[j].Answer?
  }

  lemma AnsweredAlike(p: Plan, inner: Upstream, m: Matcher, t: Trace, part: Source)
    requires RunOfRequests(p, inner, m, t)
    ensures AnsweredOf(p, m, t, part) == KeptUpTo(AnsweredAt(p, inner, m, t.requests, part), |t.requests|)
  {
    forall j: nat | j < |t.requests|
      ensures AnsweredAs(p, inner, m, t.requests, part, j)
         <==> PartOf(p, m, t.requests, j) == part && t.replies[j].Answer?
    {
      assert HearsAt(p, inner, m, t.requests, t.replies, j);
    }
  }

  /** The counters of a branch say how many requests of each part were answered. */
  lemma EveryCounter(p: Plan, inner: Upstream, m: Matcher, agent: Agent, n: nat)
    requires p.Valid()
    ensures var t := Drive(p, inner, m, agent, n);
            && |t.requests| == |t.replies|
            && forall part: Source :: !part.Failed? ==> CounterOf(t.state, part) == |AnsweredOf(p, m, t, part)|
  {
    var t := Drive(p, inner, m, agent, n);
    DriveIsRun(p, inner, m, agent, n);
    forall part: Source
      ensures CounterOf(t.state, part) == |AnsweredOf(p, m, t, part)|
    {
      CountersLaw(p, inner, m, t.requests, part, |t.requests|);
      AnsweredAlike(p, inner, m, t, part);
    }
  }

  ghost function KeptOf(p: Plan, t: Trace, n: nat): set<nat>
    requires n <= |t.replies|
  {
    set j: nat | p.First() <= j < n && t.replies[j].Answer?
  }

  lemma KeptAlike(p: Plan, inner: Upstream, m: Matcher, t: Trace, n: nat)
    requires RunOfRequests(p, inner, m, t) && n <= |t.requests|
    ensures KeptOf(p, t, n) == KeptUpTo(KeptAt(p, inner, m, t.requests), n)
  {
    forall j: nat | j < n
      ensures Kept(p, inner, m, t.requests, j) <==> p.First() <= j && t.replies[j].Answer?
    {
      assert HearsAt(p, inner, m, t.requests, t.replies, j);
    }
  }

  /** The delta tape has one entry for each answered request from the first intervention on, as it is stored with its
      answer, in the order of the run, and no other. */
  lemma EveryEntry(p: Plan, inner: Upstream, m: Matcher, agent: Agent, n: nat, j: nat)
    ensures var t := Drive(p, inner, m, agent, n);
            && |t.requests| == |t.replies|
            && |t.state.delta| == |KeptOf(p, t, |t.replies|)|
            && (j in KeptOf(p, t, |t.replies|) ==>
                  var k := |KeptOf(p, t, j)|;
                  && k < |t.state.delta|
                  && t.state.delta[k] == Exchange(m.stored(t.requests[j]), t.replies[j].body))
  {
    var t := Drive(p, inner, m, agent, n);
    DriveIsRun(p, inner, m, agent, n);
    DeltaPlaces(p, inner, m, t.requests, if j < |t.requests| then j else 0);
    KeptAlike(p, inner, m, t, |t.requests|);
    if j < |t.requests| {
      KeptAlike(p, inner, m, t, j);
      EntryAlike(p, inner, m, t, j);
    }
  }

  lemma EntryAlike(p: Plan, inner: Upstream, m: Matcher, t: Trace, j: nat)
    requires RunOfRequests(p, inner, m, t) && j < |t.requests|
    ensures t.replies[j].Answer? ==>
              EntryOf(p, inner, m, t.requests, j) == Exchange(m.stored(t.requests[j]), t.replies[j].body)
    ensures Kept(p, inner, m, t.requests, j) <==> p.First() <= j && t.replies[j].Answer?
  {
    assert HearsAt(p, inner, m, t.requests, t.replies, j);
  }

  // ---- the branches ---------------------------------------------------------------------------------------

  /** Entry `k` of the delta tape is that of answered request `j`. */
  ghost predicate Holds(m: Matcher, delta: Tape, t: Trace, j: nat, k: nat)
    requires |t.requests| == |t.replies| && j < |t.replies| && t.replies[j].Answer?
  {
    k < |delta| && delta[k] == Exchange(m.stored(t.requests[j]), t.replies[j].body)
  }

  /** What a fork, a coalition fork or a rebase returns: a branch if the agent returned (and, of a rebase, kept
      anything), with the fork point, the steps asked for, the number of answered requests of each part, and the entries
      of those from the fork point on. */
  lemma BranchIs(p: Plan, steps: seq<int>, inner: Upstream, m: Matcher, agent: Agent, n: nat)
    requires p.Valid()
    ensures var t := Drive(p, inner, m, agent, n);
            && |t.requests| == |t.replies|
            && match ForkEngine.Finish(p, steps, inner, m, agent, n)
               case Made(b) =>
                 && agent(t.replies).Return? && (p.Rebase? ==> KeptOf(p, t, |t.replies|) != {})
                 && b.parent == p.parent && b.divergenceStep == p.First() && b.intervenedSteps == steps
                 && b.prefixReplayed == |AnsweredOf(p, m, t, Source.Prefix)|
                 && b.tailReused == |AnsweredOf(p, m, t, Source.Reused)|
                 && b.tailRecorded == |AnsweredOf(p, m, t, Source.Recorded)|
                 && |b.delta| == |KeptOf(p, t, |t.replies|)|
                 && forall j :: j in KeptOf(p, t, |t.replies|) ==> Holds(m, b.delta, t, j, |KeptOf(p, t, j)|)
               case NeverDiverged => p.Rebase? && agent(t.replies).Return? && KeptOf(p, t, |t.replies|) == {}
               case AgentThrew => agent(t.replies).Throw?
               case Unfinished => agent(t.replies).Send? && |t.requests| == n
               case OutOfRange(_) => false
  {
    var t := Drive(p, inner, m, agent, n);
    DriveAsks(p, inner, m, agent, n);
    EveryCounter(p, inner, m, agent, n);
    assert CounterOf(t.state, Source.Prefix) == t.state.prefixReplayed;
    assert CounterOf(t.state, Source.Reused) == t.state.tailReused;
    assert CounterOf(t.state, Source.Recorded) == t.state.tailRecorded;
    EveryEntry(p, inner, m, agent, n, 0);
    forall j | j in KeptOf(p, t, |t.replies|) ensures Holds(m, t.state.delta, t, j, |KeptOf(p, t, j)|) {
      EveryEntry(p, inner, m, agent, n, j);
    }
  }
}
