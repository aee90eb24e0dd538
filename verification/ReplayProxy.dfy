/** The replay proxy: a queue of exchange indices per fingerprint, served to requests that may arrive in any
    order. */
module ReplayProxy {
  import opened Seqs
  import opened Tapes

  function Prints(tape: Tape, m: Matcher): (prints: seq<Fingerprint>)
    ensures |prints| == |tape|
  {
    seq(|tape|, i requires 0 <= i < |tape| => m.storedPrint(tape[i].request))
  }

  /** The indices of `f`, ascending. */
  function Positions(prints: seq<Fingerprint>, f: Fingerprint): seq<nat> {
    if prints == [] then []
    else
      var last := |prints| - 1;
      Positions(prints[..last], f) + if prints[last] == f then [last] else []
  }

  /** How many entries before `i` are the same as entry `i`. */
  function Rank(prints: seq<Fingerprint>, i: nat): nat
    requires i < |prints|
  {
    multiset(prints[..i])[prints[i]]
  }

  /** The index served to request `j` of `asked`: the recorded exchange of the same fingerprint and rank. */
  function Served(prints: seq<Fingerprint>, asked: seq<Fingerprint>, j: nat): Option<nat>
    requires j < |asked|
  {
    var waiting := Positions(prints, asked[j]);
    if Rank(asked, j) < |waiting| then Some(waiting[Rank(asked, j)]) else None
  }

  /** How many requests were served. */
  function Matched(prints: seq<Fingerprint>, asked: seq<Fingerprint>): nat {
    if asked == [] then 0
    else Matched(prints, asked[..|asked| - 1]) + if Served(prints, asked, |asked| - 1).Some? then 1 else 0
  }

  function At(queue: map<Fingerprint, seq<nat>>, f: Fingerprint): seq<nat> {
    if f in queue then queue[f] else []
  }

  function Min(a: nat, b: nat): nat {
    if a <= b then a else b
  }

  /** The recorded positions, queued per fingerprint. */
  function Built(prints: seq<Fingerprint>): map<Fingerprint, seq<nat>> {
    if prints == [] then map[]
    else
      var last := |prints| - 1;
      var queue := Built(prints[..last]);
      queue[prints[last] := At(queue, prints[last]) + [last]]
  }

  function Popped(queues: map<Fingerprint, seq<nat>>, f: Fingerprint): map<Fingerprint, seq<nat>> {
    if At(queues, f) == [] then queues else queues[f := At(queues, f)[1..]]
  }

  /** The queues after the requests `asked`. */
  function Queues(prints: seq<Fingerprint>, asked: seq<Fingerprint>): map<Fingerprint, seq<nat>> {
    if asked == [] then Built(prints) else Popped(Queues(prints, asked[..|asked| - 1]), asked[|asked| - 1])
  }

  /** The response of the exchange served to the last request. */
  function LastReply(tape: Tape, m: Matcher, asked: seq<Fingerprint>): Option<Bytes>
    requires asked != []
  {
    var served := Served(Prints(tape, m), asked, |asked| - 1);
    if served.None? then None
    else
      PositionsHold(Prints(tape, m), asked[|asked| - 1]);
      Some(tape[served.value].response)
  }

  class ReplayProxy {
    const tape: Tape
    const matcher: Matcher
    var matched: nat
    var fpQueue: map<Fingerprint, seq<nat>>
    ghost var asked: seq<Fingerprint>

    ghost predicate Valid()
      reads this
    {
      && fpQueue == Queues(Prints(tape, matcher), asked)
      && matched == Matched(Prints(tape, matcher), asked)
    }

    constructor (tape: Tape, matcher: Matcher)
      ensures Valid() && asked == [] && this.tape == tape && this.matcher == matcher
    {
      this.tape, this.matcher, matched, asked := tape, matcher, 0, [];
      var queue := BuildQueue(Prints(tape, matcher));
      fpQueue := queue;
    }

    static method BuildQueue(prints: seq<Fingerprint>) returns (queue: map<Fingerprint, seq<nat>>)
      ensures queue == Built(prints)
    {
      queue := map[];
      for idx := 0 to |prints|
        invariant queue == Built(prints[..idx])
      {
        var fp := prints[idx];
        assert prints[..idx + 1][..idx] == prints[..idx];
        queue := queue[fp := At(queue, fp) + [idx]];
      }
      assert prints[..|prints|] == prints;
    }

    /** `None` is the divergence error. */
    method Handle(q: Request) returns (r: Option<Bytes>)
      requires Valid()
      modifies this
      ensures Valid() && asked == old(asked) + [matcher.live(q)]
      ensures r == LastReply(tape, matcher, asked)
    {
      var liveFp := matcher.live(q);
      var queue := At(fpQueue, liveFp);
      AfterAsk(tape, matcher, asked, liveFp);
      asked := asked + [liveFp];
      if queue == [] {
        return None;
      }
      var idx := queue[0];
      fpQueue := fpQueue[liveFp := queue[1..]];
      matched := matched + 1;
      return Some(tape[idx].response);
    }

    predicate FullyConsumed()
      requires Valid()
      reads this
      ensures FullyConsumed() <==> multiset(Prints(tape, matcher)) <= multiset(asked)
    {
      FullyConsumedIff(Prints(tape, matcher), asked);
      matched == |tape|
    }
  }

  /** What is still queued of `f`: its recorded positions less as many as have been asked for. */
  ghost predicate Waiting(all: seq<nat>, asked: seq<Fingerprint>, f: Fingerprint, queue: seq<nat>) {
    queue == all[Min(multiset(asked)[f], |all|)..]
  }

  ghost predicate QueuesHold(prints: seq<Fingerprint>, asked: seq<Fingerprint>, queues: map<Fingerprint, seq<nat>>) {
    forall f :: Waiting(Positions(prints, f), asked, f, At(queues, f))
  }

  lemma NextWaiting(all: seq<nat>, asked: seq<Fingerprint>, f: Fingerprint, queue: seq<nat>)
    requires Waiting(all, asked, f, queue)
    ensures Waiting(all, asked + [f], f, if queue == [] then [] else queue[1..])
    ensures queue == [] <==> multiset(asked)[f] >= |all|
    ensures queue != [] ==> queue[0] == all[multiset(asked)[f]]
  {
    assert multiset(asked + [f])[f] == multiset(asked)[f] + 1;
  }

  lemma StillWaiting(all: seq<nat>, asked: seq<Fingerprint>, f: Fingerprint, g: Fingerprint, queue: seq<nat>)
    requires Waiting(all, asked, f, queue) && f != g
    ensures Waiting(all, asked + [g], f, queue)
  {
    assert multiset(asked + [g])[f] == multiset(asked)[f];
  }

  /** One request: what its queue holds, and what the queues hold afterwards. */
  lemma AfterAsk(tape: Tape, m: Matcher, asked: seq<Fingerprint>, f: Fingerprint)
    ensures var prints, now := Prints(tape, m), asked + [f];
            var queue := At(Queues(prints, asked), f);
            && Queues(prints, now) == Popped(Queues(prints, asked), f)
            && Matched(prints, now) == Matched(prints, asked) + (if queue == [] then 0 else 1)
            && (queue != [] ==> queue[0] < |tape|)
            && LastReply(tape, m, now) == if queue == [] then None else Some(tape[queue[0]].response)
  {
    var prints := Prints(tape, m);
    assert (asked + [f])[..|asked|] == asked;
    QueuesAlwaysHold(prints, asked);
    NextServed(prints, asked, Queues(prints, asked), f);
  }

  lemma {:induction false} BuiltHolds(prints: seq<Fingerprint>, f: Fingerprint)
    ensures At(Built(prints), f) == Positions(prints, f)
  {
    if prints != [] {
      BuiltHolds(prints[..|prints| - 1], f);
    }
  }

  /** After any requests, each queue holds the recorded positions of its fingerprint less those asked for. */
  lemma {:induction false} QueuesAlwaysHold(prints: seq<Fingerprint>, asked: seq<Fingerprint>)
    ensures QueuesHold(prints, asked, Queues(prints, asked))
  {
    if asked == [] {
      forall f ensures Waiting(Positions(prints, f), asked, f, At(Queues(prints, asked), f)) {
        BuiltHolds(prints, f);
      }
    } else {
      var front, last := asked[..|asked| - 1], asked[|asked| - 1];
      QueuesAlwaysHold(prints, front);
      QueuesAfterAsk(prints, front, Queues(prints, front), last);
      assert front + [last] == asked;
    }
  }

  lemma NextServed(prints: seq<Fingerprint>, asked: seq<Fingerprint>, queues: map<Fingerprint, seq<nat>>, f: Fingerprint)
    requires QueuesHold(prints, asked, queues)
    ensures var queue, now := At(queues, f), asked + [f];
            && (queue != [] ==> queue[0] < |prints|)
            && Served(prints, now, |asked|) == (if queue == [] then None else Some(queue[0]))
            && Matched(prints, now) == Matched(prints, asked) + if queue == [] then 0 else 1
  {
    var queue, now := At(queues, f), asked + [f];
    assert now[..|asked|] == asked;
    NextWaiting(Positions(prints, f), asked, f, queue);
    PositionsHold(prints, f);
  }

  lemma QueuesAfterAsk(
    prints: seq<Fingerprint>, asked: seq<Fingerprint>, queues: map<Fingerprint, seq<nat>>, f: Fingerprint)
    requires QueuesHold(prints, asked, queues)
    ensures QueuesHold(prints, asked + [f], Popped(queues, f))
  {
    var queue, now := At(queues, f), asked + [f];
    var after := Popped(queues, f);
    NextWaiting(Positions(prints, f), asked, f, queue);
    forall g ensures Waiting(Positions(prints, g), now, g, At(after, g)) {
      if g != f {
        StillWaiting(Positions(prints, g), asked, g, f, At(queues, g));
      }
    }
  }

  // ---- who is served what ---------------------------------------------------------------------------------

  lemma CountOneMore(s: seq<Fingerprint>, i: nat, f: Fingerprint)
    requires i < |s|
    ensures multiset(s[..i + 1])[f] == multiset(s[..i])[f] + if s[i] == f then 1 else 0
  {
    assert s[..i + 1] == s[..i] + [s[i]];
  }

  lemma {:induction false} CountGrows(s: seq<Fingerprint>, i: nat, j: nat, f: Fingerprint)
    requires i <= j <= |s|
    ensures multiset(s[..i])[f] <= multiset(s[..j])[f]
    decreases j - i
  {
    if i < j {
      CountGrows(s, i, j - 1, f);
      CountOneMore(s, j - 1, f);
    }
  }

  /** Rank `k` of `f` is held by exactly one position. */
  lemma {:induction false} PositionsHold(prints: seq<Fingerprint>, f: Fingerprint)
    ensures |Positions(prints, f)| == multiset(prints)[f]
    ensures forall k :: 0 <= k < |Positions(prints, f)| ==> Holds(prints, f, k, Positions(prints, f)[k])
  {
    if prints != [] {
      var last := |prints| - 1;
      PositionsHold(prints[..last], f);
      CountOneMore(prints, last, f);
      assert prints[..last + 1] == prints;
      forall k | 0 <= k < |Positions(prints[..last], f)|
        ensures Holds(prints, f, k, Positions(prints[..last], f)[k])
      {
        HoldsLonger(prints, f, k, Positions(prints[..last], f)[k]);
      }
    }
  }

  /** Position `i` is the one of rank `k` among those of `f`. */
  ghost predicate Holds(prints: seq<Fingerprint>, f: Fingerprint, k: nat, i: nat) {
    i < |prints| && prints[i] == f && Rank(prints, i) == k
  }

  lemma HoldsLonger(prints: seq<Fingerprint>, f: Fingerprint, k: nat, i: nat)
    requires prints != [] && Holds(prints[..|prints| - 1], f, k, i)
    ensures Holds(prints, f, k, i)
  {
    assert prints[..|prints| - 1][..i] == prints[..i];
  }

  lemma RankBelowCount(s: seq<Fingerprint>, i: nat)
    requires i < |s|
    ensures Rank(s, i) < multiset(s)[s[i]]
  {
    CountOneMore(s, i, s[i]);
    CountGrows(s, i + 1, |s|, s[i]);
    assert s[..|s|] == s;
  }

  /** Entries of the same fingerprint have different ranks. */
  lemma RanksDiffer(s: seq<Fingerprint>, i: nat, j: nat)
    requires i < j < |s| && s[i] == s[j]
    ensures Rank(s, i) < Rank(s, j)
  {
    CountOneMore(s, i, s[i]);
    CountGrows(s, i + 1, j, s[i]);
  }

  lemma SameRank(s: seq<Fingerprint>, i: nat, j: nat)
    requires i < |s| && j < |s| && s[i] == s[j] && Rank(s, i) == Rank(s, j)
    ensures i == j
  {
    if i < j {
      RanksDiffer(s, i, j);
    } else if j < i {
      RanksDiffer(s, j, i);
    }
  }

  /** A request is served the recorded exchange of its fingerprint and rank: how the requests of different
      fingerprints interleave does not matter. */
  lemma ServedIff(prints: seq<Fingerprint>, asked: seq<Fingerprint>, j: nat, i: nat)
    requires j < |asked|
    ensures Served(prints, asked, j) == Some(i) <==>
              i < |prints| && prints[i] == asked[j] && Rank(prints, i) == Rank(asked, j)
  {
    PositionsHold(prints, asked[j]);
    if i < |prints| && prints[i] == asked[j] && Rank(prints, i) == Rank(asked, j) {
      RankBelowCount(prints, i);
      var held := Positions(prints, asked[j])[Rank(asked, j)];
      SameRank(prints, held, i);
    }
  }

  /** A request fails exactly when its fingerprint has been asked for as often as it was recorded. */
  lemma FailsIff(prints: seq<Fingerprint>, asked: seq<Fingerprint>, j: nat)
    requires j < |asked|
    ensures Served(prints, asked, j).None? <==> Rank(asked, j) >= multiset(prints)[asked[j]]
  {
    PositionsHold(prints, asked[j]);
  }

  /** No exchange is served twice. */
  lemma ServedOnce(prints: seq<Fingerprint>, asked: seq<Fingerprint>, j: nat, k: nat)
    requires j < |asked| && k < |asked|
    requires Served(prints, asked, j) == Served(prints, asked, k) && Served(prints, asked, j).Some?
    ensures j == k
  {
    var i := Served(prints, asked, j).value;
    ServedIff(prints, asked, j, i);
    ServedIff(prints, asked, k, i);
    SameRank(asked, j, k);
  }

  /** All requests succeed exactly when no fingerprint is asked for more often than it was recorded. */
  lemma AllServedIff(prints: seq<Fingerprint>, asked: seq<Fingerprint>)
    ensures (forall j :: 0 <= j < |asked| ==> Served(prints, asked, j).Some?) <==>
            multiset(asked) <= multiset(prints)
  {
    if forall j :: 0 <= j < |asked| ==> Served(prints, asked, j).Some? {
      forall f ensures multiset(asked)[f] <= multiset(prints)[f] {
        LastAskFits(prints, asked, f, |asked|);
        assert asked[..|asked|] == asked;
      }
    }
    if multiset(asked) <= multiset(prints) {
      forall j | 0 <= j < |asked| ensures Served(prints, asked, j).Some? {
        RankBelowCount(asked, j);
        FailsIff(prints, asked, j);
      }
    }
  }

  lemma {:induction false} LastAskFits(prints: seq<Fingerprint>, asked: seq<Fingerprint>, f: Fingerprint, n: nat)
    requires n <= |asked| && forall j :: 0 <= j < |asked| ==> Served(prints, asked, j).Some?
    ensures multiset(asked[..n])[f] <= multiset(prints)[f]
  {
    if n > 0 {
      CountOneMore(asked, n - 1, f);
      if asked[n - 1] == f {
        FailsIff(prints, asked, n - 1);
      } else {
        LastAskFits(prints, asked, f, n - 1);
      }
    }
  }

  // ---- the count ------------------------------------------------------------------------------------------

  /** The exchanges served so far. */
  ghost function ServedSet(prints: seq<Fingerprint>, asked: seq<Fingerprint>): set<nat> {
    set i | 0 <= i < |prints| && Rank(prints, i) < multiset(asked)[prints[i]]
  }

  lemma ServedSetIs(prints: seq<Fingerprint>, asked: seq<Fingerprint>, i: nat)
    requires i < |prints|
    ensures i in ServedSet(prints, asked) <==> exists j :: 0 <= j < |asked| && Served(prints, asked, j) == Some(i)
  {
    if i in ServedSet(prints, asked) {
      PositionsHold(asked, prints[i]);
      var j := Positions(asked, prints[i])[Rank(prints, i)];
      ServedIff(prints, asked, j, i);
    }
    if j :| 0 <= j < |asked| && Served(prints, asked, j) == Some(i) {
      ServedIff(prints, asked, j, i);
      RankBelowCount(asked, j);
    }
  }

  /** Every recorded position has been served or is still queued, under its own fingerprint, and never both. */
  lemma ServedOrQueued(prints: seq<Fingerprint>, asked: seq<Fingerprint>, i: nat, f: Fingerprint)
    requires i < |prints|
    ensures i in ServedSet(prints, asked) <==> i !in At(Queues(prints, asked), prints[i])
    ensures i in At(Queues(prints, asked), f) ==> f == prints[i]
  {
    var queues := Queues(prints, asked);
    QueuesAlwaysHold(prints, asked);
    PositionsHold(prints, f);
    assert Waiting(Positions(prints, f), asked, f, At(queues, f));
    StillQueued(prints, asked, i, At(queues, prints[i]));
  }

  lemma StillQueued(prints: seq<Fingerprint>, asked: seq<Fingerprint>, i: nat, queue: seq<nat>)
    requires i < |prints| && Waiting(Positions(prints, prints[i]), asked, prints[i], queue)
    ensures i in queue <==> Rank(prints, i) >= multiset(asked)[prints[i]]
  {
    var f := prints[i];
    var all, count := Positions(prints, f), multiset(asked)[f];
    RankIsPlace(prints, i);
    InSuffix(all, Min(count, |all|), Rank(prints, i));
  }

  /** Position `i` stands in its fingerprint's list at its rank. */
  lemma RankIsPlace(prints: seq<Fingerprint>, i: nat)
    requires i < |prints|
    ensures var all := Positions(prints, prints[i]);
            && Rank(prints, i) < |all| && all[Rank(prints, i)] == i
            && forall x, y :: 0 <= x < y < |all| ==> all[x] != all[y]
  {
    PositionsHold(prints, prints[i]);
    RankBelowCount(prints, i);
    SameRank(prints, Positions(prints, prints[i])[Rank(prints, i)], i);
  }

  lemma InSuffix(all: seq<nat>, gone: nat, r: nat)
    requires r < |all| && gone <= |all| && forall x, y :: 0 <= x < y < |all| ==> all[x] != all[y]
    ensures all[r] in all[gone..] <==> r >= gone
  {
    if r >= gone {
      assert all[gone..][r - gone] == all[r];
    }
  }

  /** `matched` counts the exchanges served. */
  lemma {:induction false} MatchedCounts(prints: seq<Fingerprint>, asked: seq<Fingerprint>)
    ensures Matched(prints, asked) == |ServedSet(prints, asked)|
  {
    if asked == [] {
      assert ServedSet(prints, asked) == {};
    } else {
      var last := |asked| - 1;
      var front, f := asked[..last], asked[last];
      MatchedCounts(prints, front);
      OneMoreServed(prints, asked);
    }
  }

  lemma OneMoreServed(prints: seq<Fingerprint>, asked: seq<Fingerprint>)
    requires asked != []
    ensures var last := |asked| - 1;
            var now, before := ServedSet(prints, asked), ServedSet(prints, asked[..last]);
            match Served(prints, asked, last)
            case None => now == before
            case Some(i) => i !in before && now == before + {i}
  {
    var last := |asked| - 1;
    var front, f := asked[..last], asked[last];
    assert asked == front + [f];
    forall i: nat | i < |prints|
      ensures i in ServedSet(prints, asked) <==>
                i in ServedSet(prints, front) || Served(prints, asked, last) == Some(i)
      ensures Served(prints, asked, last) == Some(i) ==> i !in ServedSet(prints, front)
    {
      ServedIff(prints, asked, last, i);
      assert multiset(asked)[prints[i]] == multiset(front)[prints[i]] + if prints[i] == f then 1 else 0;
    }
    if Served(prints, asked, last).Some? {
      ServedIff(prints, asked, last, Served(prints, asked, last).value);
    }
  }

  /** The tape is fully consumed exactly when every fingerprint has been asked for at least as often as it was
      recorded. */
  lemma FullyConsumedIff(prints: seq<Fingerprint>, asked: seq<Fingerprint>)
    ensures Matched(prints, asked) == |prints| <==> multiset(prints) <= multiset(asked)
  {
    MatchedCounts(prints, asked);
    var all := set i | 0 <= i < |prints| && i in Indices(|prints|);
    IndicesCount(|prints|);
    assert all == Indices(|prints|);
    assert ServedSet(prints, asked) <= all;
    if multiset(prints) <= multiset(asked) {
      forall i | i in all ensures i in ServedSet(prints, asked) {
        RankBelowCount(prints, i);
      }
      assert ServedSet(prints, asked) == all;
    }
    if Matched(prints, asked) == |prints| {
      FullSubset(ServedSet(prints, asked), all);
      forall f ensures multiset(prints)[f] <= multiset(asked)[f] {
        PositionsHold(prints, f);
        if multiset(prints)[f] > 0 {
          var top := Positions(prints, f)[multiset(prints)[f] - 1];
          assert top in all;
        }
      }
    }
  }

  function Indices(n: nat): set<nat> {
    if n == 0 then {} else Indices(n - 1) + {n - 1}
  }

  lemma {:induction false} IndicesCount(n: nat)
    ensures |Indices(n)| == n && forall i: nat :: i in Indices(n) <==> i < n
  {
    if n > 0 {
      IndicesCount(n - 1);
    }
  }

  lemma FullSubset(a: set<nat>, b: set<nat>)
    requires a <= b && |a| == |b|
    ensures a == b
  {
    var gone := b - a;
    assert b == a + gone;
  }

  /** A replay is clean, with no error and nothing left over, exactly when the requests are the recorded ones in
      some order. */
  lemma CleanReplayIff(tape: Tape, m: Matcher, asked: seq<Fingerprint>)
    ensures (forall j :: 0 <= j < |asked| ==> Served(Prints(tape, m), asked, j).Some?)
            && Matched(Prints(tape, m), asked) == |tape|
        <==> multiset(asked) == multiset(Prints(tape, m))
  {
    AllServedIff(Prints(tape, m), asked);
    FullyConsumedIff(Prints(tape, m), asked);
  }
}
