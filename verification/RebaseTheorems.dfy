/** What `rebase` does with the tail an earlier branch has already paid for. */
module RebaseTheorems {
  import opened Tapes
  import opened Transports
  import opened ForkTheorems

  /** The responses of fingerprint `f` that the earlier branch recorded, from offset `j` on, at steps
      that were not forced: the reuse candidates, in recorded order. */
  function Waiting(m: Matcher, earlier: Tape, first: nat, intervened: set<nat>, f: Fingerprint, j: nat): seq<Bytes>
    requires j <= |earlier|
    decreases |earlier| - j
  {
    if j == |earlier| then []
    else
      (if first + j !in intervened && m.storedPrint(earlier[j].request) == f then [earlier[j].response] else [])
      + Waiting(m, earlier, first, intervened, f, j + 1)
  }

  /** The queue the transport builds offers exactly those responses. */
  lemma {:induction false} QueueOffersTheTail(
    m: Matcher, earlier: Tape, first: nat, intervened: set<nat>, f: Fingerprint, j: nat)
    requires j <= |earlier|
    ensures Queued(TailQueue(m, earlier, first, intervened, j), f) + Waiting(m, earlier, first, intervened, f, j)
         == Waiting(m, earlier, first, intervened, f, 0)
  {
    if j > 0 {
      QueueOffersTheTail(m, earlier, first, intervened, f, j - 1);
      QueueGrows(m, earlier, first, intervened, f, j - 1);
      WaitingNext(m, earlier, first, intervened, f, j - 1);
      Regroup(Queued(TailQueue(m, earlier, first, intervened, j - 1), f),
              Candidate(m, earlier, first, intervened, f, j - 1), Waiting(m, earlier, first, intervened, f, j));
    }
  }

  /** What offset `j` contributes to the queue of `f`. */
  function Candidate(m: Matcher, earlier: Tape, first: nat, intervened: set<nat>, f: Fingerprint, j: nat): seq<Bytes>
    requires j < |earlier|
  {
    if first + j !in intervened && m.storedPrint(earlier[j].request) == f then [earlier[j].response] else []
  }

  lemma Regroup(a: seq<Bytes>, b: seq<Bytes>, c: seq<Bytes>)
    ensures (a + b) + c == a + (b + c)
  {
  }

  lemma WaitingNext(m: Matcher, earlier: Tape, first: nat, intervened: set<nat>, f: Fingerprint, j: nat)
    requires j < |earlier|
    ensures Waiting(m, earlier, first, intervened, f, j)
         == Candidate(m, earlier, first, intervened, f, j) + Waiting(m, earlier, first, intervened, f, j + 1)
  {
  }

  lemma QueueGrows(m: Matcher, earlier: Tape, first: nat, intervened: set<nat>, f: Fingerprint, j: nat)
    requires j < |earlier|
    ensures Queued(TailQueue(m, earlier, first, intervened, j + 1), f)
         == Queued(TailQueue(m, earlier, first, intervened, j), f) + Candidate(m, earlier, first, intervened, f, j)
  {
  }

  /** The responses reused so far for requests of fingerprint `f`, in the order they were handed out. */
  function Handed(m: Matcher, f: Fingerprint, requests: seq<Request>, replies: seq<Reply>, sources: seq<Source>)
    : seq<Bytes>
    requires |requests| == |replies| == |sources|
  {
    if requests == [] then []
    else
      var last := |requests| - 1;
      Handed(m, f, requests[..last], replies[..last], sources[..last])
      + if sources[last] == Reused && m.live(requests[last]) == f && replies[last].Answer?
        then [replies[last].body] else []
  }

  lemma HandedAppend(
    m: Matcher, f: Fingerprint, requests: seq<Request>, replies: seq<Reply>, sources: seq<Source>,
    q: Request, r: Reply, s: Source)
    requires |requests| == |replies| == |sources|
    ensures Handed(m, f, requests + [q], replies + [r], sources + [s])
         == Handed(m, f, requests, replies, sources)
            + if s == Reused && m.live(q) == f && r.Answer? then [r.body] else []
  {
    var n := |requests|;
    assert (requests + [q])[..n] == requests;
    assert (replies + [r])[..n] == replies;
    assert (sources + [s])[..n] == sources;
  }

  lemma QueueEffect(p: Plan, inner: Upstream, m: Matcher, s: State, q: Request, f: Fingerprint)
    requires p.Rebase?
    ensures var o := Step(p, inner, m, s, q);
            && Queued(s.queue, f)
               == (if o.source == Reused && m.live(q) == f && o.reply.Answer? then [o.reply.body] else [])
                  + Queued(o.state.queue, f)
            && (o.source == Recorded && m.live(q) == f ==> Queued(s.queue, f) == [])
  {
  }

  ghost predicate Fifo(p: Plan, m: Matcher, f: Fingerprint, t: Trace)
    requires p.Rebase?
  {
    && |t.requests| == |t.replies| == |t.sources|
    && Handed(m, f, t.requests, t.replies, t.sources) + Queued(t.state.queue, f)
       == Waiting(m, p.oldDelta, p.first, p.intervened, f, 0)
    && (t.sources != [] && t.sources[|t.sources| - 1] == Recorded
        && m.live(t.requests[|t.sources| - 1]) == f ==>
          Handed(m, f, t.requests, t.replies, t.sources)
          == Waiting(m, p.oldDelta, p.first, p.intervened, f, 0))
  }

  lemma FifoStep(p: Plan, inner: Upstream, m: Matcher, agent: Agent, f: Fingerprint, t: Trace)
    requires p.Rebase? && Fifo(p, m, f, t)
    ensures Fifo(p, m, f, Advance(p, inner, m, agent, t))
  {
    if agent(t.replies).Send? {
      var q := agent(t.replies).request;
      var o := Step(p, inner, m, t.state, q);
      QueueEffect(p, inner, m, t.state, q, f);
      HandedAppend(m, f, t.requests, t.replies, t.sources, q, o.reply, o.source);
      var handed := Handed(m, f, t.requests, t.replies, t.sources);
      var here := if o.source == Reused && m.live(q) == f && o.reply.Answer? then [o.reply.body] else [];
      Regroup(handed, here, Queued(o.state.queue, f));
    }
  }

  /** FIFO conservation, on any new parent: per fingerprint, what has been handed out followed by
      what still waits is what the earlier branch recorded. So a response is handed out at most once,
      only to a request of its own fingerprint, and in recorded order. The upstream is consulted only
      when nothing of the request's fingerprint is left. */
  lemma {:induction false} TailIsReusedInOrder(
    p: Plan, inner: Upstream, m: Matcher, agent: Agent, n: nat, f: Fingerprint)
    requires p.Rebase?
    ensures Fifo(p, m, f, Drive(p, inner, m, agent, n))
  {
    if n == 0 {
      QueueOffersTheTail(m, p.oldDelta, p.first, p.intervened, f, |p.oldDelta|);
    } else {
      TailIsReusedInOrder(p, inner, m, agent, n - 1, f);
      FifoStep(p, inner, m, agent, f, Drive(p, inner, m, agent, n - 1));
    }
  }

  // ---- rebasing a branch onto its own parent --------------------------------------------------------------

  /** The steps a branch was forced at, as its `intervened_steps` records them. */
  function ForcedSteps(p: Plan): set<nat>
    requires !p.Rebase?
  {
    if p.ForkAt? then {p.step} else p.forced.Keys
  }

  /** The rebase of a branch of `p` onto the tape it was forked from. */
  function OwnRebaseOf(p: Plan, delta: Tape): Plan
    requires !p.Rebase?
  {
    Plan.Rebase(p.parent, delta, ForcedSteps(p), p.First())
  }

  /** Per fingerprint, what still waits is what the tail recorded from offset `d` on. */
  ghost predicate SameQueues(m: Matcher, r: Plan, queue: map<Fingerprint, seq<Bytes>>, d: nat)
    requires r.Rebase? && d <= |r.oldDelta|
  {
    forall f :: Queued(queue, f) == Waiting(m, r.oldDelta, r.first, r.intervened, f, d)
  }

  /** The state of the rebase, against that of the fork. */
  ghost predicate StatesInStep(m: Matcher, r: Plan, s: State, c: State)
    requires r.Rebase? && |s.delta| <= |r.oldDelta|
  {
    && c.i == s.i && c.delta == s.delta
    && c.prefixReplayed == s.prefixReplayed && c.applied == s.applied
    && c.tailReused == s.tailRecorded && c.tailRecorded == 0 && c.sent == []
    && SameQueues(m, r, c.queue, |s.delta|)
  }

  /** Step `k` of the rebase, against step `k` of the fork. */
  ghost predicate InStep(m: Matcher, r: Plan, original: Trace, rebased: Trace)
    requires r.Rebase? && |original.state.delta| <= |r.oldDelta|
  {
    && rebased.requests == original.requests && rebased.replies == original.replies
    && StatesInStep(m, r, original.state, rebased.state)
  }

  /** What the fork did next agrees with what the finished branch recorded there. */
  ghost predicate Foreseen(r: Plan, original: Trace, next: Trace)
    requires r.Rebase?
  {
    && |original.state.delta| == (if original.state.i <= r.first then 0 else original.state.i - r.first)
    && next.state.delta <= r.oldDelta
    && |original.replies| <= |next.replies|
    && (r.first <= original.state.i && |original.replies| < |next.replies| ==>
          next.replies[|original.replies|].Answer?)
  }

  /** The transports of a branch and of its rebase agree on what step `i` is. */
  ghost predicate OwnRebase(p: Plan, r: Plan) {
    !p.Rebase? && p.Valid() && r.Rebase? && r.parent == p.parent && r.first == p.First()
    && r.intervened == ForcedSteps(p)
  }

  /** Step `d` of the tail was forced: no queue moves on. */
  lemma ForcedWaits(m: Matcher, r: Plan, queue: map<Fingerprint, seq<Bytes>>, d: nat)
    requires r.Rebase? && d < |r.oldDelta| && r.first + d in r.intervened
    ensures SameQueues(m, r, queue, d) ==> SameQueues(m, r, queue, d + 1)
  {
    if SameQueues(m, r, queue, d) {
      forall f ensures Queued(queue, f) == Waiting(m, r.oldDelta, r.first, r.intervened, f, d + 1) {
        WaitingNext(m, r.oldDelta, r.first, r.intervened, f, d);
      }
    }
  }

  /** Step `d` of the tail was paid for: its response heads the queue of its own fingerprint. */
  lemma PaidWaits(m: Matcher, r: Plan, s: State, q: Request, d: nat)
    requires r.Rebase? && d < |r.oldDelta| && r.first + d !in r.intervened && SameQueues(m, r, s.queue, d)
    requires m.storedPrint(r.oldDelta[d].request) == m.live(q)
    ensures Queued(s.queue, m.live(q)) != [] && Queued(s.queue, m.live(q))[0] == r.oldDelta[d].response
    ensures SameQueues(m, r, Reuse(m, s, q).state.queue, d + 1)
  {
    WaitingNext(m, r.oldDelta, r.first, r.intervened, m.live(q), d);
    var queue := Reuse(m, s, q).state.queue;
    forall f ensures Queued(queue, f) == Waiting(m, r.oldDelta, r.first, r.intervened, f, d + 1) {
      WaitingNext(m, r.oldDelta, r.first, r.intervened, f, d);
    }
  }

  /** A request before the first intervention is answered alike. */
  lemma PrefixInStep(
    p: Plan, r: Plan, inner: Upstream, later: Upstream, m: Matcher, s: State, c: State, q: Request)
    requires OwnRebase(p, r) && s.i < r.first && |s.delta| <= |r.oldDelta| && StatesInStep(m, r, s, c)
    ensures var o, d := Step(p, inner, m, s, q), Step(r, later, m, c, q);
            d.reply == o.reply && o.state.delta == s.delta && StatesInStep(m, r, o.state, d.state)
  {
    assert Step(p, inner, m, s, q) == Replay(p.parent, m, s, q);
    assert Step(r, later, m, c, q) == Replay(p.parent, m, c, q);
  }

  /** A request at a forced step gets the recorded response again. */
  lemma ForcedInStep(
    p: Plan, r: Plan, inner: Upstream, later: Upstream, m: Matcher, s: State, c: State, q: Request)
    requires OwnRebase(p, r) && s.i in r.intervened && Step(p, inner, m, s, q).reply.Answer?
    requires r.first <= s.i && |s.delta| == s.i - r.first < |r.oldDelta| && StatesInStep(m, r, s, c)
    requires r.oldDelta[|s.delta|].response == Step(p, inner, m, s, q).reply.body
    ensures var o, d := Step(p, inner, m, s, q), Step(r, later, m, c, q);
            d.reply == o.reply && |o.state.delta| == |s.delta| + 1 && StatesInStep(m, r, o.state, d.state)
  {
    var body := r.oldDelta[|s.delta|].response;
    assert Step(p, inner, m, s, q) == Force(m, s, q, body);
    assert Step(r, later, m, c, q) == Force(m, c, q, body);
    ForceKeepsStep(m, r, s, c, q, body);
  }

  lemma ForceKeepsStep(m: Matcher, r: Plan, s: State, c: State, q: Request, body: Bytes)
    requires r.Rebase? && |s.delta| < |r.oldDelta| && r.first + |s.delta| in r.intervened
    ensures StatesInStep(m, r, s, c) ==> StatesInStep(m, r, Force(m, s, q, body).state, Force(m, c, q, body).state)
  {
    ForcedWaits(m, r, c.queue, |s.delta|);
  }

  /** A request of the tail is answered from the queue instead of by the upstream. */
  lemma TailInStep(
    p: Plan, r: Plan, inner: Upstream, later: Upstream, m: Matcher, s: State, c: State, q: Request)
    requires OwnRebase(p, r) && s.i !in r.intervened && Step(p, inner, m, s, q).reply.Answer?
    requires r.first <= s.i && |s.delta| == s.i - r.first < |r.oldDelta| && StatesInStep(m, r, s, c)
    requires r.oldDelta[|s.delta|].response == Step(p, inner, m, s, q).reply.body
    requires m.storedPrint(r.oldDelta[|s.delta|].request) == m.live(q)
    ensures var o, d := Step(p, inner, m, s, q), Step(r, later, m, c, q);
            d.reply == o.reply && |o.state.delta| == |s.delta| + 1 && StatesInStep(m, r, o.state, d.state)
  {
    PaidWaits(m, r, c, q, |s.delta|);
    assert Step(p, inner, m, s, q) == Forward(inner, m, s, q);
    assert Step(r, later, m, c, q) == Reuse(m, c, q);
    assert SameQueues(m, r, Reuse(m, c, q).state.queue, |s.delta| + 1);
  }

  lemma OneRequestInStep(
    p: Plan, r: Plan, inner: Upstream, later: Upstream, m: Matcher, s: State, c: State, q: Request)
    requires OwnRebase(p, r) && m.Contract()
    requires |s.delta| == if s.i <= r.first then 0 else s.i - r.first
    requires |s.delta| <= |r.oldDelta| && StatesInStep(m, r, s, c)
    requires var o := Step(p, inner, m, s, q);
             (r.first <= s.i ==> o.reply.Answer?) && o.state.delta <= r.oldDelta
    ensures var o, d := Step(p, inner, m, s, q), Step(r, later, m, c, q);
            d.reply == o.reply && |o.state.delta| <= |r.oldDelta| && StatesInStep(m, r, o.state, d.state)
  {
    if s.i < r.first {
      PrefixInStep(p, r, inner, later, m, s, c, q);
    } else {
      var o, d := Step(p, inner, m, s, q), |s.delta|;
      StepEffect(p, inner, m, s, q);
      assert r.oldDelta[d] == o.state.delta[d] == Exchange(m.stored(q), o.reply.body);
      if s.i in r.intervened {
        ForcedInStep(p, r, inner, later, m, s, c, q);
      } else {
        TailInStep(p, r, inner, later, m, s, c, q);
      }
    }
  }

  lemma AdvanceInStep(
    p: Plan, r: Plan, inner: Upstream, later: Upstream, m: Matcher, agent: Agent, original: Trace, rebased: Trace)
    requires OwnRebase(p, r) && m.Contract()
    requires |original.state.delta| <= |r.oldDelta| && InStep(m, r, original, rebased)
    requires Foreseen(r, original, Advance(p, inner, m, agent, original))
    ensures var next := Advance(p, inner, m, agent, original);
            |next.state.delta| <= |r.oldDelta| && InStep(m, r, next, Advance(r, later, m, agent, rebased))
  {
    if agent(original.replies).Send? {
      OneRequestInStep(p, r, inner, later, m, original.state, rebased.state, agent(original.replies).request);
    }
  }

  lemma ForeseenInPrefix(r: Plan, original: Trace, next: Trace, full: Trace)
    requires r.Rebase? && r.oldDelta == full.state.delta
    requires |original.requests| == |original.replies| == original.state.i
    requires FailuresFrom(r.first, full.replies) == 0
    requires |original.state.delta| + FailuresFrom(r.first, original.replies)
          == if original.state.i <= r.first then 0 else original.state.i - r.first
    requires original.replies <= next.replies <= full.replies && next.state.delta <= full.state.delta
    ensures Foreseen(r, original, next)
  {
    FailuresShrink(r.first, full.replies, |original.replies|);
    assert full.replies[..|original.replies|] == original.replies;
  }

  lemma NextIsForeseen(p: Plan, r: Plan, inner: Upstream, m: Matcher, agent: Agent, n: nat, k: nat)
    requires !p.Rebase? && k < n
    requires r == OwnRebaseOf(p, Drive(p, inner, m, agent, n).state.delta)
    requires FailuresFrom(p.First(), Drive(p, inner, m, agent, n).replies) == 0
    ensures Foreseen(r, Drive(p, inner, m, agent, k), Advance(p, inner, m, agent, Drive(p, inner, m, agent, k)))
  {
    DeltaLaw(p, inner, m, agent, k);
    Extends(p, inner, m, agent, k, k + 1);
    Extends(p, inner, m, agent, k + 1, n);
    assert Drive(p, inner, m, agent, k + 1) == Advance(p, inner, m, agent, Drive(p, inner, m, agent, k));
    ForeseenInPrefix(r, Drive(p, inner, m, agent, k), Drive(p, inner, m, agent, k + 1), Drive(p, inner, m, agent, n));
  }

  lemma {:induction false} RebaseStaysInStep(
    p: Plan, r: Plan, inner: Upstream, later: Upstream, m: Matcher, agent: Agent, n: nat, k: nat)
    requires !p.Rebase? && p.Valid() && m.Contract() && k <= n
    requires r == OwnRebaseOf(p, Drive(p, inner, m, agent, n).state.delta)
    requires FailuresFrom(p.First(), Drive(p, inner, m, agent, n).replies) == 0
    ensures var original := Drive(p, inner, m, agent, k);
            |original.state.delta| <= |r.oldDelta| && InStep(m, r, original, Drive(r, later, m, agent, k))
  {
    if k == 0 {
      forall f {
        QueueOffersTheTail(m, r.oldDelta, r.first, r.intervened, f, |r.oldDelta|);
      }
    } else {
      RebaseStaysInStep(p, r, inner, later, m, agent, n, k - 1);
      NextIsForeseen(p, r, inner, m, agent, n, k - 1);
      AdvanceInStep(p, r, inner, later, m, agent, Drive(p, inner, m, agent, k - 1), Drive(r, later, m, agent, k - 1));
    }
  }

  /** The rebase did what the fork did, from the queue: nothing was asked of the upstream. */
  ghost predicate Reproduced(branch: Trace, again: Trace) {
    && again.replies == branch.replies && again.requests == branch.requests
    && again.state.delta == branch.state.delta
    && again.state.sent == [] && again.state.tailRecorded == 0
    && again.state.tailReused == branch.state.tailRecorded
    && again.state.prefixReplayed == branch.state.prefixReplayed
    && again.state.applied == branch.state.applied
  }

  /** A rebase cannot give back an exception of the fork's tail without asking the upstream again. */
  lemma SameReplyIsAnswer(
    p: Plan, r: Plan, inner: Upstream, later: Upstream, m: Matcher, s: State, c: State, q: Request)
    requires OwnRebase(p, r) && s.i == c.i >= r.first && r.first < |p.parent|
    requires Step(p, inner, m, s, q).reply == Step(r, later, m, c, q).reply
    requires |Step(r, later, m, c, q).state.sent| == |c.sent|
    ensures Step(p, inner, m, s, q).reply.Answer?
  {
  }

  lemma NothingUnsent(p: Plan, inner: Upstream, m: Matcher, s: State, q: Request)
    ensures s.sent <= Step(p, inner, m, s, q).state.sent
  {
  }

  lemma {:induction false} SentGrows(p: Plan, inner: Upstream, m: Matcher, agent: Agent, k: nat, n: nat)
    requires k <= n
    ensures Drive(p, inner, m, agent, k).state.sent <= Drive(p, inner, m, agent, n).state.sent
  {
    if k < n {
      SentGrows(p, inner, m, agent, k, n - 1);
      var t := Drive(p, inner, m, agent, n - 1);
      if agent(t.replies).Send? {
        NothingUnsent(p, inner, m, t.state, agent(t.replies).request);
      }
    }
  }

  /** If a rebase ends with the fork's replies and nothing asked, no request of the fork's tail raised. */
  lemma {:induction false} EqualRepliesMeanNoFailure(
    p: Plan, r: Plan, inner: Upstream, later: Upstream, m: Matcher, agent: Agent, n: nat, k: nat)
    requires OwnRebase(p, r) && r.first < |p.parent| && k <= n
    requires Drive(r, later, m, agent, n).replies == Drive(p, inner, m, agent, n).replies
    requires Drive(r, later, m, agent, n).state.sent == []
    ensures Drive(r, later, m, agent, k).replies == Drive(p, inner, m, agent, k).replies
    ensures FailuresFrom(p.First(), Drive(p, inner, m, agent, k).replies) == 0
  {
    if k > 0 {
      EqualRepliesMeanNoFailure(p, r, inner, later, m, agent, n, k - 1);
      Extends(p, inner, m, agent, k, n);
      Extends(r, later, m, agent, k, n);
      SentGrows(r, later, m, agent, k - 1, n);
      SentGrows(r, later, m, agent, k, n);
      NextRepliesAgree(p, r, inner, later, m, agent, Drive(p, inner, m, agent, n).replies, k - 1);
    }
  }

  lemma NextRepliesAgree(
    p: Plan, r: Plan, inner: Upstream, later: Upstream, m: Matcher, agent: Agent, all: seq<Reply>, k: nat)
    requires OwnRebase(p, r) && r.first < |p.parent|
    requires Drive(r, later, m, agent, k).replies == Drive(p, inner, m, agent, k).replies
    requires FailuresFrom(p.First(), Drive(p, inner, m, agent, k).replies) == 0
    requires Drive(p, inner, m, agent, k + 1).replies <= all && Drive(r, later, m, agent, k + 1).replies <= all
    requires Drive(r, later, m, agent, k).state.sent == [] && Drive(r, later, m, agent, k + 1).state.sent == []
    ensures Drive(r, later, m, agent, k + 1).replies == Drive(p, inner, m, agent, k + 1).replies
    ensures FailuresFrom(p.First(), Drive(p, inner, m, agent, k + 1).replies) == 0
  {
    Shape(p, inner, m, agent, k);
    Shape(r, later, m, agent, k);
    var t, u := Drive(p, inner, m, agent, k), Drive(r, later, m, agent, k);
    if agent(t.replies).Send? {
      var q := agent(t.replies).request;
      var a, b := Step(p, inner, m, t.state, q).reply, Step(r, later, m, u.state, q).reply;
      assert a == all[|t.replies|] == b;
      if p.First() <= t.state.i {
        SameReplyIsAnswer(p, r, inner, later, m, t.state, u.state, q);
      }
      AnsweredAppend(m, p.First(), t.requests, t.replies, q, a);
    }
  }

  /** Rebasing a branch onto its own parent with the same agent and matcher, whatever the upstream is by then, gives
      the same replies, the delta tape exactly, every tail exchange reused and no call to the upstream, if and only if
      no request past the fork point raised. */
  lemma RebaseOntoOwnParent(p: Plan, inner: Upstream, later: Upstream, m: Matcher, agent: Agent, n: nat)
    requires !p.Rebase? && p.Valid() && m.Contract() && p.First() < |p.parent|
    ensures var branch := Drive(p, inner, m, agent, n);
            var again := Drive(OwnRebaseOf(p, branch.state.delta), later, m, agent, n);
            && (Reproduced(branch, again) <==> FailuresFrom(p.First(), branch.replies) == 0)
            && (again.replies == branch.replies && again.state.sent == [] ==> Reproduced(branch, again))
  {
    var r := OwnRebaseOf(p, Drive(p, inner, m, agent, n).state.delta);
    if FailuresFrom(p.First(), Drive(p, inner, m, agent, n).replies) == 0 {
      RebaseStaysInStep(p, r, inner, later, m, agent, n, n);
    }
    var branch, again := Drive(p, inner, m, agent, n), Drive(r, later, m, agent, n);
    if again.replies == branch.replies && again.state.sent == [] {
      EqualRepliesMeanNoFailure(p, r, inner, later, m, agent, n, n);
    }
  }

  /** A concrete agent whose branch a rebase does not give back: it swallows the exception its upstream raises at step
      1 and stops; the rebase asks the upstream again. */
  lemma SwallowedExceptionIsAskedAgain(q: Request, m: Matcher)
    requires m.Contract()
    ensures var agent: Agent := replies => if |replies| < 2 then Send(q) else Return("");
            var inner: Upstream, later: Upstream := sent => Raised(UpstreamFailed), sent => Answer("late");
            var p := ForkAt([Exchange(m.stored(q), "clean")], 0, "mutated");
            var branch := Drive(p, inner, m, agent, 2);
            var again := Drive(OwnRebaseOf(p, branch.state.delta), later, m, agent, 2);
            && branch.replies == [Answer("mutated"), Raised(UpstreamFailed)]
            && again.replies == [Answer("mutated"), Answer("late")] && again.state.sent == [q]
  {
    var agent: Agent := replies => if |replies| < 2 then Send(q) else Return("");
    var inner: Upstream, later: Upstream := sent => Raised(UpstreamFailed), sent => Answer("late");
    var p := ForkAt([Exchange(m.stored(q), "clean")], 0, "mutated");
    assert m.storedPrint(m.stored(q)) == m.live(q);
    var t0, t1 := Drive(p, inner, m, agent, 0), Drive(p, inner, m, agent, 1);
    assert t1 == Advance(p, inner, m, agent, t0) && t1.replies == [Answer("mutated")];
    assert Drive(p, inner, m, agent, 2) == Advance(p, inner, m, agent, t1);
    var r := OwnRebaseOf(p, Drive(p, inner, m, agent, 2).state.delta);
    SwallowedRebase(q, m, agent, later, r);
  }

  lemma SwallowedRebase(q: Request, m: Matcher, agent: Agent, later: Upstream, r: Plan)
    requires agent([]) == Send(q) && agent([Answer("mutated")]) == Send(q) && later([q]) == Answer("late")
    requires r == Plan.Rebase([Exchange(m.stored(q), "clean")], [Exchange(m.stored(q), "mutated")], {0}, 0)
    ensures Drive(r, later, m, agent, 2).replies == [Answer("mutated"), Answer("late")]
    ensures Drive(r, later, m, agent, 2).state.sent == [q]
  {
    var u0, u1 := Drive(r, later, m, agent, 0), Drive(r, later, m, agent, 1);
    assert TailQueue(m, r.oldDelta, 0, {0}, 1) == TailQueue(m, r.oldDelta, 0, {0}, 0) == map[];
    assert u1 == Advance(r, later, m, agent, u0) && u1.replies == [Answer("mutated")];
    assert [] + [q] == [q];
    assert Drive(r, later, m, agent, 2) == Advance(r, later, m, agent, u1);
  }
}
