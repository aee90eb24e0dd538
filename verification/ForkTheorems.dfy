/** What every run of the fork transports keeps, for every agent, upstream, matcher and tape. */
module ForkTheorems {
  import opened Tapes
  import opened Transports

  lemma {:induction false} Shape(p: Plan, inner: Upstream, m: Matcher, agent: Agent, n: nat)
    ensures var t := Drive(p, inner, m, agent, n);
            t.state.i == |t.requests| == |t.replies| == |t.sources| <= n
  {
    if n > 0 {
      Shape(p, inner, m, agent, n - 1);
      AdvanceKeepsShape(p, inner, m, agent, Drive(p, inner, m, agent, n - 1));
    }
  }

  lemma AdvanceKeepsShape(p: Plan, inner: Upstream, m: Matcher, agent: Agent, t: Trace)
    requires t.state.i == |t.requests| == |t.replies| == |t.sources|
    ensures var next := Advance(p, inner, m, agent, t);
            next.state.i == |next.requests| == |next.replies| == |next.sources| <= t.state.i + 1
  {
  }

  /** A longer run extends a shorter one. */
  lemma {:induction false} Extends(p: Plan, inner: Upstream, m: Matcher, agent: Agent, k: nat, n: nat)
    requires k <= n
    ensures var s, t := Drive(p, inner, m, agent, k), Drive(p, inner, m, agent, n);
            && s.requests <= t.requests && s.replies <= t.replies
            && s.sources <= t.sources && s.state.delta <= t.state.delta
  {
    if k < n {
      Extends(p, inner, m, agent, k, n - 1);
      AdvanceExtends(p, inner, m, agent, Drive(p, inner, m, agent, n - 1));
    }
  }

  lemma AdvanceExtends(p: Plan, inner: Upstream, m: Matcher, agent: Agent, t: Trace)
    ensures var next := Advance(p, inner, m, agent, t);
            && t.requests <= next.requests && t.replies <= next.replies
            && t.sources <= next.sources && t.state.delta <= next.state.delta
  {
    if agent(t.replies).Send? {
      StepEffect(p, inner, m, t.state, agent(t.replies).request);
    }
  }

  lemma StepEffect(p: Plan, inner: Upstream, m: Matcher, s: State, q: Request)
    ensures var o := Step(p, inner, m, s, q);
            && o.state.i == s.i + 1
            && o.state.delta == s.delta + (if p.First() <= s.i && o.reply.Answer?
                                           then [Exchange(m.stored(q), o.reply.body)] else [])
            && (!p.Rebase? && s.i <= p.First() && p.Valid() ==> o.state.sent == s.sent)
            && (s.i < p.First() && o.reply.Answer? ==>
                  s.i < |p.parent| && o.reply == Answer(p.parent[s.i].response))
  {
  }

  // ---- the delta tape -------------------------------------------------------------------------------------

  lemma AnsweredAppend(m: Matcher, first: nat, requests: seq<Request>, replies: seq<Reply>, q: Request, r: Reply)
    requires |requests| == |replies|
    ensures Answered(m, first, requests + [q], replies + [r])
         == Answered(m, first, requests, replies)
            + if first <= |requests| && r.Answer? then [Exchange(m.stored(q), r.body)] else []
    ensures FailuresFrom(first, replies + [r])
         == FailuresFrom(first, replies) + if first <= |replies| && r.Raised? then 1 else 0
  {
    assert (requests + [q])[..|requests|] == requests;
    assert (replies + [r])[..|replies|] == replies;
  }

  /** In every reachable state the delta tape holds the answered exchanges from the first
      intervention on, in order; so it has one exchange per request past that point exactly as long
      as none of those requests raised. */
  lemma {:induction false} DeltaLaw(p: Plan, inner: Upstream, m: Matcher, agent: Agent, n: nat)
    ensures var t := Drive(p, inner, m, agent, n);
            && |t.requests| == |t.replies| == t.state.i
            && t.state.delta == Answered(m, p.First(), t.requests, t.replies)
            && |t.state.delta| + FailuresFrom(p.First(), t.replies)
               == if t.state.i <= p.First() then 0 else t.state.i - p.First()
  {
    if n > 0 {
      DeltaLaw(p, inner, m, agent, n - 1);
      AdvanceKeepsDelta(p, inner, m, agent, Drive(p, inner, m, agent, n - 1));
    }
  }

  lemma AdvanceKeepsDelta(p: Plan, inner: Upstream, m: Matcher, agent: Agent, t: Trace)
    requires |t.requests| == |t.replies| == t.state.i
    requires t.state.delta == Answered(m, p.First(), t.requests, t.replies)
    requires |t.state.delta| + FailuresFrom(p.First(), t.replies)
          == if t.state.i <= p.First() then 0 else t.state.i - p.First()
    ensures var next := Advance(p, inner, m, agent, t);
            && |next.requests| == |next.replies| == next.state.i
            && next.state.delta == Answered(m, p.First(), next.requests, next.replies)
            && |next.state.delta| + FailuresFrom(p.First(), next.replies)
               == if next.state.i <= p.First() then 0 else next.state.i - p.First()
  {
    if agent(t.replies).Send? {
      var q := agent(t.replies).request;
      StepEffect(p, inner, m, t.state, q);
      AnsweredAppend(m, p.First(), t.requests, t.replies, q, Step(p, inner, m, t.state, q).reply);
    }
  }

  lemma {:induction false} FailuresShrink(first: nat, replies: seq<Reply>, k: nat)
    requires k <= |replies|
    ensures FailuresFrom(first, replies[..k]) <= FailuresFrom(first, replies)
    ensures FailuresFrom(first, replies) == 0 ==>
              forall j :: first <= j < |replies| ==> replies[j].Answer?
  {
    if |replies| > first {
      var shorter := replies[..|replies| - 1];
      if k < |replies| {
        assert shorter[..k] == replies[..k];
        FailuresShrink(first, shorter, k);
      } else {
        assert replies[..k] == replies;
        FailuresShrink(first, shorter, |shorter|);
      }
    }
  }

  lemma {:induction false} AnsweredAt(m: Matcher, first: nat, requests: seq<Request>, replies: seq<Reply>, j: nat)
    requires |requests| == |replies| && first + j < |requests|
    requires FailuresFrom(first, replies) == 0
    ensures |Answered(m, first, requests, replies)| == |requests| - first
    ensures replies[first + j].Answer?
    ensures Answered(m, first, requests, replies)[j]
         == Exchange(m.stored(requests[first + j]), replies[first + j].body)
  {
    var last := |requests| - 1;
    FailuresShrink(first, replies, last);
    if first < last {
      AnsweredAt(m, first, requests[..last], replies[..last], if j < last - first then j else 0);
    }
  }

  lemma {:induction false} AnsweredGrows(m: Matcher, first: nat, requests: seq<Request>, replies: seq<Reply>, k: nat)
    requires |requests| == |replies| && k <= |requests|
    ensures Answered(m, first, requests[..k], replies[..k]) <= Answered(m, first, requests, replies)
  {
    if k == |requests| {
      assert requests[..k] == requests && replies[..k] == replies;
    } else {
      var last := |requests| - 1;
      assert requests[..last][..k] == requests[..k] && replies[..last][..k] == replies[..k];
      AnsweredGrows(m, first, requests[..last], replies[..last], k);
    }
  }

  /** The answered requests up to the first failure: every one of them, from `first` on. */
  lemma {:induction false} AnsweredUpTo(m: Matcher, first: nat, requests: seq<Request>, replies: seq<Reply>)
    requires |requests| == |replies| && FailuresFrom(first, replies) == 0
    ensures |Answered(m, first, requests, replies)| == if |requests| <= first then 0 else |requests| - first
  {
    if first < |requests| {
      AnsweredAt(m, first, requests, replies, 0);
    }
  }

  lemma {:induction false} FirstFailure(first: nat, replies: seq<Reply>) returns (f: nat)
    requires FailuresFrom(first, replies) != 0
    ensures first <= f < |replies| && replies[f].Raised? && FailuresFrom(first, replies[..f]) == 0
  {
    f := |replies| - 1;
    if FailuresFrom(first, replies[..f]) != 0 {
      var shorter := replies[..f];
      f := FirstFailure(first, shorter);
      assert shorter[..f] == replies[..f];
    }
  }

  /** From the first failure on, no request was answered. */
  ghost predicate SilentAfterFailure(first: nat, replies: seq<Reply>) {
    forall i, k :: first <= i < k < |replies| && replies[i].Raised? ==> replies[k].Raised?
  }

  lemma {:induction false} SilentAnswered(
    m: Matcher, first: nat, requests: seq<Request>, replies: seq<Reply>, f: nat)
    requires |requests| == |replies| && first <= f < |replies| && replies[f].Raised?
    requires SilentAfterFailure(first, replies)
    ensures Answered(m, first, requests, replies) == Answered(m, first, requests[..f], replies[..f])
  {
    var last := |requests| - 1;
    if f < last {
      assert requests[..last][..f] == requests[..f] && replies[..last][..f] == replies[..f];
      SilentAnswered(m, first, requests[..last], replies[..last], f);
    }
  }

  lemma AnsweredNext(m: Matcher, first: nat, requests: seq<Request>, replies: seq<Reply>, k: nat)
    requires |requests| == |replies| && first <= k < |replies| && replies[k].Answer?
    ensures |Answered(m, first, requests[..k + 1], replies[..k + 1])|
         == |Answered(m, first, requests[..k], replies[..k])| + 1
  {
    assert requests[..k + 1][..k] == requests[..k] && replies[..k + 1][..k] == replies[..k];
  }

  lemma AnsweredBy(m: Matcher, first: nat, requests: seq<Request>, replies: seq<Reply>, f: nat, k: nat)
    requires |requests| == |replies| && f <= k <= |replies|
    ensures |Answered(m, first, requests[..f], replies[..f])| <= |Answered(m, first, requests[..k], replies[..k])|
  {
    assert requests[..k][..f] == requests[..f] && replies[..k][..f] == replies[..f];
    AnsweredGrows(m, first, requests[..k], replies[..k], f);
  }

  lemma LaterAnswerCounts(
    m: Matcher, first: nat, requests: seq<Request>, replies: seq<Reply>, f: nat, k: nat)
    requires |requests| == |replies| && first <= f < k < |replies| && replies[k].Answer?
    requires FailuresFrom(first, replies[..f]) == 0
    ensures |Answered(m, first, requests, replies)| > f - first
  {
    AnsweredUpTo(m, first, requests[..f], replies[..f]);
    AnsweredBy(m, first, requests, replies, f, k);
    AnsweredNext(m, first, requests, replies, k);
    AnsweredGrows(m, first, requests, replies, k + 1);
  }

  /** Entry `j` of the delta tape is the exchange of absolute step `first + j`. */
  ghost predicate AtOffset(
    m: Matcher, first: nat, delta: Tape, requests: seq<Request>, replies: seq<Reply>, j: nat)
    requires |requests| == |replies| && j < |delta|
  {
    && first + j < |replies|
    && replies[first + j].Answer?
    && delta[j] == Exchange(m.stored(requests[first + j]), replies[first + j].body)
  }

  /** Every entry of the delta tape sits at its own offset. */
  ghost predicate AllAtOffset(m: Matcher, first: nat, delta: Tape, requests: seq<Request>, replies: seq<Reply>)
    requires |requests| == |replies|
  {
    forall j :: 0 <= j < |delta| ==> AtOffset(m, first, delta, requests, replies, j)
  }

  lemma SilentMeansOffset(m: Matcher, first: nat, requests: seq<Request>, replies: seq<Reply>, j: nat)
    requires |requests| == |replies| && j < |Answered(m, first, requests, replies)|
    requires SilentAfterFailure(first, replies)
    ensures AtOffset(m, first, Answered(m, first, requests, replies), requests, replies, j)
  {
    if FailuresFrom(first, replies) == 0 {
      AnsweredUpTo(m, first, requests, replies);
      AnsweredAt(m, first, requests, replies, j);
    } else {
      var f := FirstFailure(first, replies);
      SilentAnswered(m, first, requests, replies, f);
      AnsweredUpTo(m, first, requests[..f], replies[..f]);
      AnsweredAt(m, first, requests[..f], replies[..f], j);
    }
  }

  lemma NoFailureBefore(first: nat, replies: seq<Reply>, f: nat, i: nat)
    requires first <= f <= |replies| && FailuresFrom(first, replies[..f]) == 0
    requires first <= i < |replies| && replies[i].Raised?
    ensures f <= i
  {
    FailuresShrink(first, replies[..f], 0);
    forall l | first <= l < f ensures replies[l].Answer? {
      assert replies[..f][l] == replies[l];
    }
  }

  lemma OffsetsMeanSilent(m: Matcher, first: nat, requests: seq<Request>, replies: seq<Reply>, i: nat, k: nat)
    requires |requests| == |replies|
    requires AllAtOffset(m, first, Answered(m, first, requests, replies), requests, replies)
    requires first <= i < k < |replies| && replies[i].Raised?
    ensures replies[k].Raised?
  {
    var delta := Answered(m, first, requests, replies);
    FailuresShrink(first, replies, 0);
    var f := FirstFailure(first, replies);
    NoFailureBefore(first, replies, f, i);
    assert f - first < |delta| ==> AtOffset(m, first, delta, requests, replies, f - first);
    if replies[k].Answer? {
      LaterAnswerCounts(m, first, requests, replies, f, k);
    }
  }

  lemma OffsetsIffSilent(m: Matcher, first: nat, requests: seq<Request>, replies: seq<Reply>)
    requires |requests| == |replies|
    ensures AllAtOffset(m, first, Answered(m, first, requests, replies), requests, replies)
        <==> SilentAfterFailure(first, replies)
  {
    var delta := Answered(m, first, requests, replies);
    if SilentAfterFailure(first, replies) {
      forall j | 0 <= j < |delta| ensures AtOffset(m, first, delta, requests, replies, j) {
        SilentMeansOffset(m, first, requests, replies, j);
      }
    }
    if AllAtOffset(m, first, delta, requests, replies) {
      forall i, k | first <= i < k < |replies| && replies[i].Raised? ensures replies[k].Raised? {
        OffsetsMeanSilent(m, first, requests, replies, i, k);
      }
    }
  }

  /** The offset arithmetic `rebase` relies on. Entry `j` of the delta tape is absolute step `first + j`, for every
      entry, exactly when no request from `first` on is answered after one that raised; there is an entry for every
      such request exactly when none of them raised. */
  lemma DeltaOffsets(p: Plan, inner: Upstream, m: Matcher, agent: Agent, n: nat)
    ensures var t := Drive(p, inner, m, agent, n);
            && |t.requests| == |t.replies| == t.state.i
            && (AllAtOffset(m, p.First(), t.state.delta, t.requests, t.replies)
                <==> SilentAfterFailure(p.First(), t.replies))
            && (|t.state.delta| == (if t.state.i <= p.First() then 0 else t.state.i - p.First())
                <==> FailuresFrom(p.First(), t.replies) == 0)
  {
    DeltaLaw(p, inner, m, agent, n);
    var t := Drive(p, inner, m, agent, n);
    OffsetsIffSilent(m, p.First(), t.requests, t.replies);
  }

  /** An exception swallowed on the last request leaves every entry at its own offset, though one request has no
      entry. */
  lemma TrailingFailureKeepsOffsets(q: Request, m: Matcher)
    requires m.storedPrint(m.stored(q)) == m.live(q)
    ensures var agent: Agent := replies => if |replies| < 2 then Send(q) else Return("");
            var inner: Upstream := sent => Raised(UpstreamFailed);
            var t := Drive(ForkAt([Exchange(m.stored(q), "clean")], 0, "mutated"), inner, m, agent, 2);
            && t.replies == [Answer("mutated"), Raised(UpstreamFailed)]
            && FailuresFrom(0, t.replies) == 1 && SilentAfterFailure(0, t.replies)
            && t.requests == [q, q] && t.state.delta == [Exchange(m.stored(q), "mutated")]
  {
    var agent: Agent := replies => if |replies| < 2 then Send(q) else Return("");
    var inner: Upstream := sent => Raised(UpstreamFailed);
    var p := ForkAt([Exchange(m.stored(q), "clean")], 0, "mutated");
    var t0 := Drive(p, inner, m, agent, 0);
    var t1 := Drive(p, inner, m, agent, 1);
    assert t1.replies == [Answer("mutated")];
    var t2 := Drive(p, inner, m, agent, 2);
    assert t2 == Advance(p, inner, m, agent, t1);
    assert t2.replies[..1] == t1.replies;
    assert FailuresFrom(0, t1.replies) == 0 by { assert t1.replies[..0] == []; }
  }

  /** A concrete agent for which the arithmetic fails: it swallows the exception its upstream
      raises at step 1 and goes on, so entry 1 of the delta tape is step 2. */
  lemma OffsetsFailWhenAnExceptionIsSwallowed(q: Request, m: Matcher)
    requires m.storedPrint(m.stored(q)) == m.live(q)
    ensures var agent: Agent := replies => if |replies| < 3 then Send(q) else Return("");
            var inner: Upstream := sent => if |sent| == 1 then Raised(UpstreamFailed) else Answer("late");
            var t := Drive(ForkAt([Exchange(m.stored(q), "clean")], 0, "mutated"), inner, m, agent, 3);
            && t.replies == [Answer("mutated"), Raised(UpstreamFailed), Answer("late")]
            && t.state.delta == [Exchange(m.stored(q), "mutated"), Exchange(m.stored(q), "late")]
  {
    var agent: Agent := replies => if |replies| < 3 then Send(q) else Return("");
    var inner: Upstream := sent => if |sent| == 1 then Raised(UpstreamFailed) else Answer("late");
    var p := ForkAt([Exchange(m.stored(q), "clean")], 0, "mutated");
    var t0 := Drive(p, inner, m, agent, 0);
    var t1 := Drive(p, inner, m, agent, 1);
    assert t1.replies == [Answer("mutated")];
    var t2 := Drive(p, inner, m, agent, 2);
    assert t2.replies == [Answer("mutated"), Raised(UpstreamFailed)];
    assert t2 == Advance(p, inner, m, agent, t1);
    var t3 := Drive(p, inner, m, agent, 3);
    assert t3 == Advance(p, inner, m, agent, t2);
  }

  // ---- the prefix -----------------------------------------------------------------------------------------

  /** Up to and including the first intervention nothing reaches the upstream, and every answer
      before it is the parent's own. */
  lemma {:induction false} PrefixIsFree(p: Plan, inner: Upstream, m: Matcher, agent: Agent, n: nat)
    ensures var t := Drive(p, inner, m, agent, n);
            && |t.replies| == t.state.i
            && (!p.Rebase? && p.Valid() && t.state.i <= p.First() + 1 ==> t.state.sent == [])
            && forall j :: 0 <= j < t.state.i && j < p.First() ==> FromParent(p, t.replies[j], j)
  {
    if n > 0 {
      PrefixIsFree(p, inner, m, agent, n - 1);
      AdvanceKeepsPrefix(p, inner, m, agent, Drive(p, inner, m, agent, n - 1));
    }
  }

  ghost predicate FromParent(p: Plan, reply: Reply, j: nat) {
    reply.Answer? ==> j < |p.parent| && reply == Answer(p.parent[j].response)
  }

  lemma AdvanceKeepsPrefix(p: Plan, inner: Upstream, m: Matcher, agent: Agent, t: Trace)
    requires |t.replies| == t.state.i
    requires !p.Rebase? && p.Valid() && t.state.i <= p.First() + 1 ==> t.state.sent == []
    requires forall j :: 0 <= j < t.state.i && j < p.First() ==> FromParent(p, t.replies[j], j)
    ensures var next := Advance(p, inner, m, agent, t);
            && |next.replies| == next.state.i
            && (!p.Rebase? && p.Valid() && next.state.i <= p.First() + 1 ==> next.state.sent == [])
            && forall j :: 0 <= j < next.state.i && j < p.First() ==> FromParent(p, next.replies[j], j)
  {
    if agent(t.replies).Send? {
      var q := agent(t.replies).request;
      StepEffect(p, inner, m, t.state, q);
      var o := Step(p, inner, m, t.state, q);
      assert t.state.i < p.First() ==> FromParent(p, o.reply, t.state.i);
    }
  }

  // ---- single-step coalitions are classic forks -----------------------------------------------------------

  /** Forking a one-element coalition is the classic fork: same requests, replies, delta tape,
      upstream calls and counters, after any number of requests. */
  lemma {:induction false} SingleCoalitionIsFork(
    parent: Tape, step: nat, mutated: Bytes, inner: Upstream, m: Matcher, agent: Agent, n: nat)
    ensures Drive(Coalition(parent, map[step := mutated], step), inner, m, agent, n)
         == Drive(ForkAt(parent, step, mutated), inner, m, agent, n)
  {
    if n > 0 {
      SingleCoalitionIsFork(parent, step, mutated, inner, m, agent, n - 1);
    }
  }

  // ---- how much of the tail is paid for -------------------------------------------------------------------

  ghost function Below(forced: set<nat>, i: nat): set<nat> {
    set s | s in forced && s < i
  }

  /** Past the first step every request is either forced or forwarded. */
  lemma {:induction false} TailAccounting(p: Plan, inner: Upstream, m: Matcher, agent: Agent, n: nat)
    requires p.Coalition? && p.Valid()
    ensures var s := Drive(p, inner, m, agent, n).state;
            |s.sent| + |Below(p.forced.Keys, s.i)| == if s.i <= p.first then 0 else s.i - p.first
  {
    if n == 0 {
      assert Below(p.forced.Keys, 0) == {};
    } else {
      TailAccounting(p, inner, m, agent, n - 1);
      AdvanceKeepsAccount(p, inner, m, agent, Drive(p, inner, m, agent, n - 1));
    }
  }

  lemma AdvanceKeepsAccount(p: Plan, inner: Upstream, m: Matcher, agent: Agent, t: Trace)
    requires p.Coalition? && p.Valid()
    requires |t.state.sent| + |Below(p.forced.Keys, t.state.i)|
          == if t.state.i <= p.first then 0 else t.state.i - p.first
    ensures var s := Advance(p, inner, m, agent, t).state;
            |s.sent| + |Below(p.forced.Keys, s.i)| == if s.i <= p.first then 0 else s.i - p.first
  {
    if agent(t.replies).Send? {
      BelowNext(p.forced.Keys, t.state.i);
      ForcedOrSent(p, inner, m, t.state, agent(t.replies).request);
    }
  }

  lemma BelowNext(forced: set<nat>, i: nat)
    ensures |Below(forced, i + 1)| == |Below(forced, i)| + if i in forced then 1 else 0
  {
    assert Below(forced, i + 1) == Below(forced, i) + if i in forced then {i} else {};
  }

  lemma ForcedOrSent(p: Plan, inner: Upstream, m: Matcher, s: State, q: Request)
    requires p.Coalition? && p.Valid()
    ensures var o := Step(p, inner, m, s, q).state;
            && o.i == s.i + 1
            && |o.sent| == |s.sent| + (if p.first <= s.i && s.i !in p.forced.Keys then 1 else 0)
            && (s.i < p.first ==> s.i !in p.forced.Keys)
  {
  }

  lemma {:induction false} BelowIsMost(forced: set<nat>, i: nat, n: nat)
    requires i <= n && forall s :: s in forced ==> s < n
    ensures |forced| <= |Below(forced, i)| + n - i
    decreases n - i
  {
    if i == n {
      assert Below(forced, n) == forced;
    } else {
      BelowIsMost(forced, i + 1, n);
      assert Below(forced, i + 1) <= Below(forced, i) + {i};
      CardinalityOfSubset(Below(forced, i + 1), Below(forced, i) + {i});
    }
  }

  lemma {:induction false} CardinalityOfSubset(a: set<nat>, b: set<nat>)
    requires a <= b
    ensures |a| <= |b|
  {
    if a != {} {
      var x :| x in a;
      CardinalityOfSubset(a - {x}, b - {x});
    }
  }

  /** An agent that makes at most `n` requests makes at most `n - first - |S|` calls to the paid
      tail of a coalition fork of `S`. */
  lemma TailCallBound(p: Plan, inner: Upstream, m: Matcher, agent: Agent, n: nat, k: nat)
    requires p.Coalition? && p.Valid() && forall s :: s in p.forced ==> s < n
    requires Drive(p, inner, m, agent, k).state.i <= n
    ensures |Drive(p, inner, m, agent, k).state.sent| + |p.forced.Keys| + p.first <= n
  {
    TailAccounting(p, inner, m, agent, k);
    var i := Drive(p, inner, m, agent, k).state.i;
    if i <= p.first {
      BelowIsMost(p.forced.Keys, p.first, n);
      assert Below(p.forced.Keys, p.first) == {};
    } else {
      BelowIsMost(p.forced.Keys, i, n);
    }
  }
}
