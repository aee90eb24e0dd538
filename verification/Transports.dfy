/** The three fork transports as one request/reply machine.

    A `Plan` says what a transport was built with; a `State` is what its fields hold after some
    requests; `Step` is one request. The classes in `ForkEngine` are proved against `Step`, and
    the theorems about whole runs are stated over `Drive`. */
module Transports {
  import opened Tapes

  datatype Plan =
    | ForkAt(parent: Tape, step: nat, mutated: Bytes)
    | Coalition(parent: Tape, forced: map<nat, Bytes>, first: nat)
    | Rebase(parent: Tape, oldDelta: Tape, intervened: set<nat>, first: nat)
  {
    function First(): nat {
      if ForkAt? then step else first
    }

    /** A coalition is non-empty and `first` is its least step. */
    ghost predicate Valid() {
      Coalition? ==> first in forced && forall s :: s in forced ==> first <= s
    }
  }

  /** Where the reply to a request came from. */
  datatype Source = Prefix | Forced | Reused | Recorded | Failed

  datatype State = State(
    i: nat,
    delta: Tape,
    prefixReplayed: nat,
    applied: nat,
    tailReused: nat,
    tailRecorded: nat,
    queue: map<Fingerprint, seq<Bytes>>,
    sent: seq<Request>)

  datatype Outcome = Outcome(state: State, reply: Reply, source: Source)

  function Queued(queue: map<Fingerprint, seq<Bytes>>, f: Fingerprint): seq<Bytes> {
    if f in queue then queue[f] else []
  }

  /** FIFO per fingerprint over the exchanges of `earlier` from offset `j` on, skipping forced steps. */
  function TailQueue(m: Matcher, earlier: Tape, first: nat, intervened: set<nat>, j: nat): map<Fingerprint, seq<Bytes>>
    requires j <= |earlier|
  {
    if j == 0 then map[]
    else
      var q := TailQueue(m, earlier, first, intervened, j - 1);
      if first + j - 1 in intervened then q
      else
        var f := m.storedPrint(earlier[j - 1].request);
        q[f := Queued(q, f) + [earlier[j - 1].response]]
  }

  function Initial(p: Plan, m: Matcher): State {
    State(0, [], 0, 0, 0, 0,
          if p.Rebase? then TailQueue(m, p.oldDelta, p.first, p.intervened, |p.oldDelta|) else map[],
          [])
  }

  /** What a request must pass that must still be the recorded one. */
  function Check(parent: Tape, i: nat, m: Matcher, q: Request): (failure: seq<Failure>)
    ensures failure == [] ==> i < |parent| && m.storedPrint(parent[i].request) == m.live(q)
  {
    if i >= |parent| then [NoSuchExchange(i)]
    else if m.storedPrint(parent[i].request) != m.live(q) then [Diverged(i)]
    else []
  }

  /** Reply with `body` and append the exchange to the delta tape. */
  function Keep(m: Matcher, s: State, q: Request, body: Bytes): State {
    s.(delta := s.delta + [Exchange(m.stored(q), body)])
  }

  function Replay(parent: Tape, m: Matcher, s: State, q: Request): Outcome {
    var failure := Check(parent, s.i, m, q);
    var t := s.(i := s.i + 1);
    if failure != [] then Outcome(t, Raised(failure[0]), Failed)
    else Outcome(t.(prefixReplayed := s.prefixReplayed + 1), Answer(parent[s.i].response), Prefix)
  }

  function Force(m: Matcher, s: State, q: Request, body: Bytes): Outcome {
    Outcome(Keep(m, s, q, body).(i := s.i + 1, applied := s.applied + 1), Answer(body), Forced)
  }

  function CheckedForce(parent: Tape, m: Matcher, s: State, q: Request, body: Bytes): Outcome {
    var failure := Check(parent, s.i, m, q);
    if failure != [] then Outcome(s.(i := s.i + 1), Raised(failure[0]), Failed)
    else Force(m, s, q, body)
  }

  function Forward(inner: Upstream, m: Matcher, s: State, q: Request): Outcome {
    var t := s.(i := s.i + 1, sent := s.sent + [q]);
    match inner(t.sent)
    case Raised(f) => Outcome(t, Raised(f), Failed)
    case Answer(b) => Outcome(Keep(m, t, q, b).(tailRecorded := s.tailRecorded + 1), Answer(b), Recorded)
  }

  function Reuse(m: Matcher, s: State, q: Request): Outcome
    requires Queued(s.queue, m.live(q)) != []
  {
    var waiting := s.queue[m.live(q)];
    Outcome(Keep(m, s, q, waiting[0]).(i := s.i + 1, tailReused := s.tailReused + 1,
                                       queue := s.queue[m.live(q) := waiting[1..]]),
            Answer(waiting[0]), Reused)
  }

  /** One request. */
  function Step(p: Plan, inner: Upstream, m: Matcher, s: State, q: Request): Outcome {
    match p
    case ForkAt(parent, step, mutated) =>
      if s.i < step then Replay(parent, m, s, q)
      else if s.i == step then CheckedForce(parent, m, s, q, mutated)
      else Forward(inner, m, s, q)
    case Coalition(parent, forced, first) =>
      if s.i < first then Replay(parent, m, s, q)
      else if s.i == first && s.i in forced then CheckedForce(parent, m, s, q, forced[s.i])
      else if s.i in forced then Force(m, s, q, forced[s.i])
      else Forward(inner, m, s, q)
    case Rebase(parent, oldDelta, intervened, first) =>
      if s.i < first then Replay(parent, m, s, q)
      else if s.i in intervened then
        if s.i - first < |oldDelta| then Force(m, s, q, oldDelta[s.i - first].response)
        else Outcome(s.(i := s.i + 1), Raised(NoSuchExchange(s.i)), Failed)
      else if Queued(s.queue, m.live(q)) != [] then Reuse(m, s, q)
      else Forward(inner, m, s, q)
  }

  /** What an agent and a transport have exchanged so far. */
  datatype Trace = Trace(state: State, requests: seq<Request>, replies: seq<Reply>, sources: seq<Source>)

  /** The first `n` requests of `agent` (fewer if it stops earlier). */
  function Drive(p: Plan, inner: Upstream, m: Matcher, agent: Agent, n: nat): Trace
  {
    if n == 0 then Trace(Initial(p, m), [], [], [])
    else Advance(p, inner, m, agent, Drive(p, inner, m, agent, n - 1))
  }

  function Advance(p: Plan, inner: Upstream, m: Matcher, agent: Agent, t: Trace): Trace {
    match agent(t.replies)
    case Send(q) =>
      var o := Step(p, inner, m, t.state, q);
      Trace(o.state, t.requests + [q], t.replies + [o.reply], t.sources + [o.source])
    case _ => t
  }

  /** The exchanges a delta tape must hold: one per answered request from `first` on. */
  function Answered(m: Matcher, first: nat, requests: seq<Request>, replies: seq<Reply>): Tape
    requires |requests| == |replies|
  {
    if |requests| <= first then []
    else
      var last := |requests| - 1;
      Answered(m, first, requests[..last], replies[..last])
      + if replies[last].Answer? then [Exchange(m.stored(requests[last]), replies[last].body)] else []
  }

  /** How many of the replies from index `first` on were exceptions. */
  function FailuresFrom(first: nat, replies: seq<Reply>): nat {
    if |replies| <= first then 0
    else FailuresFrom(first, replies[..|replies| - 1]) + if replies[|replies| - 1].Raised? then 1 else 0
  }
}
