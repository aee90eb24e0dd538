/** The cross-tape step order of a session: every spawned run is spliced into its parent at the step that spawned
    it, each run once, whatever cycles and diamonds the spawn edges form.

    `Expand` is proved to list a tree of runs; what the order promises is then proved of such trees. */
module SessionOrder {
  import opened Seqs

  type RunId = string

  /** `spawn` is the parent's step that spawned the child; old edges have none. */
  datatype Edge = Edge(parent: RunId, child: RunId, spawn: Option<int>)

  /** `steps` is the number of exchanges of a run's tape. */
  datatype Session = Session(root: RunId, edges: seq<Edge>, steps: RunId -> nat)

  datatype RunRef = RunRef(run: RunId, step: nat)

  // ---- trees of runs --------------------------------------------------------------------------------------

  datatype Tree = Node(run: RunId, slots: Slots, deferred: Forest)

  /** What follows each step of a run, in step order. */
  datatype Slots = NoSlots | Slot(front: Slots, children: Forest)

  datatype Forest = Empty | Grow(front: Forest, last: Tree)

  function Width(s: Slots): nat {
    if s.NoSlots? then 0 else Width(s.front) + 1
  }

  /** The order a tree of runs lists. */
  function Listed(t: Tree): seq<RunRef>
    decreases t
  {
    ListedSlots(t.run, t.slots) + ListedForest(t.deferred)
  }

  function ListedSlots(run: RunId, s: Slots): seq<RunRef>
    decreases s
  {
    if s.NoSlots? then []
    else ListedSlots(run, s.front) + [RunRef(run, Width(s.front))] + ListedForest(s.children)
  }

  function ListedForest(f: Forest): seq<RunRef>
    decreases f
  {
    if f.Empty? then [] else ListedForest(f.front) + Listed(f.last)
  }

  function Runs(t: Tree): set<RunId> {
    {t.run} + RunsInSlots(t.slots) + RunsIn(t.deferred)
  }

  function RunsInSlots(s: Slots): set<RunId> {
    if s.NoSlots? then {} else RunsInSlots(s.front) + RunsIn(s.children)
  }

  function RunsIn(f: Forest): set<RunId> {
    if f.Empty? then {} else RunsIn(f.front) + Runs(f.last)
  }

  // ---- the tree the edges grow ----------------------------------------------------------------------------

  /** The children spawned by a run at `spawn`, in edge order. */
  function Children(edges: seq<Edge>, run: RunId, spawn: Option<int>): seq<RunId> {
    if edges == [] then []
    else
      var last := edges[|edges| - 1];
      Children(edges[..|edges| - 1], run, spawn)
      + if last.parent == run && last.spawn == spawn then [last.child] else []
  }

  /** `t` grows from a run when the runs of `placed` are taken: after each step its children of that step, then
      those of no step; a child that is already placed is passed over. */
  ghost predicate Grown(session: Session, t: Tree, placed: set<RunId>)
    decreases t, 0
  {
    && Width(t.slots) == session.steps(t.run)
    && GrownSlots(session, t.run, t.slots, placed + {t.run})
    && GrownForest(session, Children(session.edges, t.run, None), t.deferred,
                   placed + {t.run} + RunsInSlots(t.slots))
  }

  ghost predicate GrownSlots(session: Session, run: RunId, s: Slots, placed: set<RunId>)
    decreases s, 0
  {
    s.Slot? ==>
      && GrownSlots(session, run, s.front, placed)
      && GrownForest(session, Children(session.edges, run, Some(Width(s.front))), s.children,
                     placed + RunsInSlots(s.front))
  }

  ghost predicate GrownForest(session: Session, children: seq<RunId>, f: Forest, placed: set<RunId>)
    decreases f, |children|
  {
    if children == [] then f.Empty?
    else
      var front, child := children[..|children| - 1], children[|children| - 1];
      || (child in placed + RunsIn(f) && GrownForest(session, front, f, placed))
      || (&& f.Grow? && f.last.run == child && child !in placed + RunsIn(f.front)
          && GrownForest(session, front, f.front, placed)
          && Grown(session, f.last, placed + RunsIn(f.front)))
  }

  // ---- the expansion --------------------------------------------------------------------------------------

  function AllRuns(session: Session): set<RunId> {
    {session.root} + set e | e in session.edges :: e.child
  }

  /** The children in `c` that are not in `placed`. */
  function Fresh(c: seq<RunId>, placed: set<RunId>): seq<RunId> {
    if c == [] then []
    else Fresh(c[..|c| - 1], placed) + if c[|c| - 1] in placed then [] else [c[|c| - 1]]
  }

  /** Leaving out children that are placed anyway changes nothing. */
  lemma {:induction false} FreshSuffices(session: Session, c: seq<RunId>, skipped: set<RunId>, f: Forest, placed: set<RunId>)
    requires skipped <= placed && GrownForest(session, Fresh(c, skipped), f, placed)
    ensures GrownForest(session, c, f, placed)
    decreases |c|
  {
    if c != [] {
      var front, child := c[..|c| - 1], c[|c| - 1];
      if child in skipped {
        assert Fresh(c, skipped) == Fresh(front, skipped);
        FreshSuffices(session, front, skipped, f, placed);
      } else {
        var kept := Fresh(c, skipped);
        assert kept[..|kept| - 1] == Fresh(front, skipped);
        if child in placed + RunsIn(f) && GrownForest(session, Fresh(front, skipped), f, placed) {
          FreshSuffices(session, front, skipped, f, placed);
        } else {
          FreshSuffices(session, front, skipped, f.front, placed);
        }
      }
    }
  }

  lemma {:induction false} ChildrenAreRuns(session: Session, edges: seq<Edge>, run: RunId, spawn: Option<int>)
    requires forall e :: e in edges ==> e in session.edges
    ensures forall c :: c in Children(edges, run, spawn) ==> c in AllRuns(session)
  {
    if edges != [] {
      ChildrenAreRuns(session, edges[..|edges| - 1], run, spawn);
      assert edges[|edges| - 1] in session.edges;
    }
  }

  lemma {:induction false} FreshMembers(c: seq<RunId>, placed: set<RunId>)
    ensures forall x :: x in Fresh(c, placed) ==> x in c
  {
    if c != [] {
      FreshMembers(c[..|c| - 1], placed);
    }
  }

  lemma PassOver(session: Session, front: seq<RunId>, child: RunId, f: Forest, placed: set<RunId>)
    requires GrownForest(session, front, f, placed) && child in placed + RunsIn(f)
    ensures GrownForest(session, front + [child], f, placed)
  {
    assert (front + [child])[..|front|] == front;
  }

  lemma GrowOne(session: Session, front: seq<RunId>, f: Forest, t: Tree, placed: set<RunId>)
    requires GrownForest(session, front, f, placed) && t.run !in placed + RunsIn(f)
    requires Grown(session, t, placed + RunsIn(f))
    ensures GrownForest(session, front + [t.run], Grow(f, t), placed)
  {
    assert (front + [t.run])[..|front|] == front;
  }

  class Expansion {
    const session: Session
    var placed: set<RunId>

    constructor (session: Session)
      ensures this.session == session && placed == {}
    {
      this.session, placed := session, {};
    }

    /** The children of one step, or the deferred ones, each expanded unless placed by now. */
    method ExpandChildren(children: seq<RunId>) returns (result: seq<RunRef>, ghost f: Forest)
      requires placed <= AllRuns(session) && forall c :: c in children ==> c in AllRuns(session)
      modifies this
      ensures placed == old(placed) + RunsIn(f) && placed <= AllRuns(session)
      ensures GrownForest(session, children, f, old(placed)) && result == ListedForest(f)
      decreases |AllRuns(session) - placed|, 2
    {
      result, f := [], Empty;
      ghost var start := placed;
      for i := 0 to |children|
        invariant start <= placed <= AllRuns(session)
        invariant GrownTo(session, children[..i], f, start, placed, result)
      {
        Smaller(AllRuns(session), start, placed);
        assert children[..i + 1] == children[..i] + [children[i]];
        var spliced;
        spliced, f := ExpandUnlessPlaced(children[i], children[..i], f, start);
        result := result + spliced;
      }
      assert children[..|children|] == children;
    }

    method ExpandUnlessPlaced(child: RunId, ghost front: seq<RunId>, ghost before: Forest, ghost start: set<RunId>)
      returns (spliced: seq<RunRef>, ghost f: Forest)
      requires placed <= AllRuns(session) && child in AllRuns(session)
      requires placed == start + RunsIn(before) && GrownForest(session, front, before, start)
      modifies this
      ensures placed == start + RunsIn(f) && placed <= AllRuns(session)
      ensures GrownForest(session, front + [child], f, start) && ListedForest(f) == ListedForest(before) + spliced
      decreases |AllRuns(session) - placed|, 1
    {
      if child in placed {
        PassOver(session, front, child, before, start);
        spliced, f := [], before;
      } else {
        ghost var t;
        spliced, t := Expand(child);
        GrowOne(session, front, before, t, start);
        f := Grow(before, t);
      }
    }

    /** The edges out of `run` to children not placed yet: by spawning step, and those without one. */
    method ChildrenByStep(run: RunId) returns (byStep: map<int, seq<RunId>>, deferred: seq<RunId>)
      ensures Buckets(session.edges, run, placed, byStep, deferred)
    {
      byStep, deferred := map[], [];
      for i := 0 to |session.edges|
        invariant Buckets(session.edges[..i], run, placed, byStep, deferred)
      {
        var edge := session.edges[i];
        NextEdge(session.edges[..i], edge, run, placed, byStep, deferred);
        assert session.edges[..i + 1] == session.edges[..i] + [edge];
        if edge.parent == run && edge.child !in placed {
          match edge.spawn
          case None => deferred := deferred + [edge.child];
          case Some(step) => byStep := byStep[step := At(byStep, step) + [edge.child]];
        }
      }
      assert session.edges[..|session.edges|] == session.edges;
    }

    /** The children of `run` at `spawn`, given those of them that were not placed when its expansion started. */
    method Splice(run: RunId, spawn: Option<int>, children: seq<RunId>, ghost start: set<RunId>)
      returns (result: seq<RunRef>, ghost f: Forest)
      requires start <= placed <= AllRuns(session) && children == Fresh(Children(session.edges, run, spawn), start)
      modifies this
      ensures placed == old(placed) + RunsIn(f) && placed <= AllRuns(session)
      ensures GrownForest(session, Children(session.edges, run, spawn), f, old(placed)) && result == ListedForest(f)
      decreases |AllRuns(session) - placed|, 3
    {
      FreshChildren(session, run, spawn, start);
      ghost var before := placed;
      result, f := ExpandChildren(children);
      FreshSuffices(session, Children(session.edges, run, spawn), start, f, before);
    }

    /** The steps of a run, each followed by the children it spawned. */
    method ExpandSteps(run: RunId, byStep: map<int, seq<RunId>>, deferred: seq<RunId>)
      returns (result: seq<RunRef>, ghost slots: Slots)
      requires placed <= AllRuns(session) && Buckets(session.edges, run, placed, byStep, deferred)
      modifies this
      ensures placed == old(placed) + RunsInSlots(slots) && placed <= AllRuns(session)
      ensures Width(slots) == session.steps(run)
      ensures GrownSlots(session, run, slots, old(placed)) && result == ListedSlots(run, slots)
      decreases |AllRuns(session) - placed|, 4
    {
      result, slots := [], NoSlots;
      ghost var start := placed;
      for step := 0 to session.steps(run)
        invariant start <= placed <= AllRuns(session)
        invariant SteppedTo(session, run, slots, start, placed, result, step)
      {
        Smaller(AllRuns(session), start, placed);
        ghost var before := placed;
        assert Bucket(session.edges, run, start, byStep, step);
        var spliced, f := Splice(run, Some(step), At(byStep, step), start);
        NextSlot(session, run, slots, start, before, result, step, f);
        result := result + [RunRef(run, step)] + spliced;
        slots := Slot(slots, f);
      }
    }

    method Expand(run: RunId) returns (result: seq<RunRef>, ghost t: Tree)
      requires placed <= AllRuns(session) && run in AllRuns(session) && run !in placed
      modifies this
      ensures placed == old(placed) + Runs(t) && placed <= AllRuns(session)
      ensures t.run == run && Grown(session, t, old(placed)) && result == Listed(t)
      decreases |AllRuns(session) - placed|, 0
    {
      placed := placed + {run};
      Smaller(AllRuns(session), old(placed), placed);
      ghost var start := placed;
      var byStep, deferred := ChildrenByStep(run);
      ghost var slots;
      result, slots := ExpandSteps(run, byStep, deferred);
      Smaller(AllRuns(session), start, placed);
      var spliced, f := Splice(run, None, deferred, start);
      GrowNode(session, run, slots, f, old(placed));
      result := result + spliced;
      t := Node(run, slots, f);
    }
  }

  /** `f` holds the expansions of `children`, and `result` lists them. */
  ghost predicate GrownTo(
    session: Session, children: seq<RunId>, f: Forest, start: set<RunId>, placed: set<RunId>, result: seq<RunRef>)
  {
    placed == start + RunsIn(f) && GrownForest(session, children, f, start) && result == ListedForest(f)
  }

  /** `slots` holds the expansions spliced in up to `step`, and `result` lists them. */
  ghost predicate SteppedTo(
    session: Session, run: RunId, slots: Slots, start: set<RunId>, placed: set<RunId>, result: seq<RunRef>, step: nat)
  {
    && Width(slots) == step && placed == start + RunsInSlots(slots)
    && GrownSlots(session, run, slots, start) && result == ListedSlots(run, slots)
  }

  lemma NextSlot(
    session: Session, run: RunId, slots: Slots, start: set<RunId>, placed: set<RunId>, result: seq<RunRef>, step: nat,
    f: Forest)
    requires SteppedTo(session, run, slots, start, placed, result, step)
    requires GrownForest(session, Children(session.edges, run, Some(step)), f, placed)
    ensures SteppedTo(session, run, Slot(slots, f), start, placed + RunsIn(f),
                      result + [RunRef(run, step)] + ListedForest(f), step + 1)
  {
  }

  lemma GrowNode(session: Session, run: RunId, slots: Slots, f: Forest, placed: set<RunId>)
    requires Width(slots) == session.steps(run) && GrownSlots(session, run, slots, placed + {run})
    requires GrownForest(session, Children(session.edges, run, None), f, placed + {run} + RunsInSlots(slots))
    ensures var t := Node(run, slots, f);
            && Grown(session, t, placed)
            && placed + Runs(t) == placed + {run} + RunsInSlots(slots) + RunsIn(f)
            && Listed(t) == ListedSlots(run, slots) + ListedForest(f)
  {
  }

  function At(byStep: map<int, seq<RunId>>, step: int): seq<RunId> {
    if step in byStep then byStep[step] else []
  }

  /** The fresh children of every step, and the deferred ones. */
  ghost predicate Buckets(edges: seq<Edge>, run: RunId, placed: set<RunId>, byStep: map<int, seq<RunId>>, deferred: seq<RunId>) {
    && deferred == Fresh(Children(edges, run, None), placed)
    && forall k: int :: Bucket(edges, run, placed, byStep, k)
  }

  ghost predicate Bucket(edges: seq<Edge>, run: RunId, placed: set<RunId>, byStep: map<int, seq<RunId>>, k: int) {
    At(byStep, k) == Fresh(Children(edges, run, Some(k)), placed)
  }

  lemma OneMoreEdge(edges: seq<Edge>, edge: Edge, run: RunId, spawn: Option<int>, placed: set<RunId>)
    ensures Fresh(Children(edges + [edge], run, spawn), placed)
         == Fresh(Children(edges, run, spawn), placed)
            + if edge.parent == run && edge.spawn == spawn && edge.child !in placed then [edge.child] else []
  {
    assert (edges + [edge])[..|edges|] == edges;
    FreshOneMore(Children(edges, run, spawn), edge.child, placed);
  }

  predicate Live(edge: Edge, run: RunId, placed: set<RunId>) {
    edge.parent == run && edge.child !in placed
  }

  /** The bucket of step `k` is right once `edge` is filed. */
  lemma NextBucket(edges: seq<Edge>, edge: Edge, run: RunId, placed: set<RunId>, byStep: map<int, seq<RunId>>, k: int)
    requires Bucket(edges, run, placed, byStep, k)
    ensures Bucket(edges + [edge], run, placed, Filed(byStep, edge, Live(edge, run, placed)), k)
  {
    OneMoreEdge(edges, edge, run, Some(k), placed);
  }

  function Filed(byStep: map<int, seq<RunId>>, edge: Edge, live: bool): map<int, seq<RunId>> {
    if live && edge.spawn.Some? then byStep[edge.spawn.value := At(byStep, edge.spawn.value) + [edge.child]] else byStep
  }

  lemma NextEdge(
    edges: seq<Edge>, edge: Edge, run: RunId, placed: set<RunId>, byStep: map<int, seq<RunId>>, deferred: seq<RunId>)
    requires Buckets(edges, run, placed, byStep, deferred)
    ensures var live := Live(edge, run, placed);
            Buckets(edges + [edge], run, placed, Filed(byStep, edge, live),
                    if live && edge.spawn.None? then deferred + [edge.child] else deferred)
  {
    OneMoreEdge(edges, edge, run, None, placed);
    forall k: int ensures Bucket(edges + [edge], run, placed, Filed(byStep, edge, Live(edge, run, placed)), k) {
      NextBucket(edges, edge, run, placed, byStep, k);
    }
  }

  lemma FreshOneMore(c: seq<RunId>, child: RunId, placed: set<RunId>)
    ensures Fresh(c + [child], placed) == Fresh(c, placed) + if child in placed then [] else [child]
    ensures Fresh(c + [], placed) == Fresh(c, placed)
  {
    assert (c + [child])[..|c|] == c;
    assert c + [] == c;
  }

  lemma FreshChildren(session: Session, run: RunId, spawn: Option<int>, placed: set<RunId>)
    ensures forall c :: c in Fresh(Children(session.edges, run, spawn), placed) ==> c in AllRuns(session)
  {
    ChildrenAreRuns(session, session.edges, run, spawn);
    FreshMembers(Children(session.edges, run, spawn), placed);
  }

  lemma Smaller(all: set<RunId>, before: set<RunId>, placed: set<RunId>)
    requires before <= placed
    ensures |all - placed| <= |all - before|
    ensures before < placed <= all ==> |all - placed| < |all - before|
  {
    var gone := (all - before) - (all - placed);
    assert all - before == (all - placed) + gone;
    if before < placed <= all {
      var x :| x in placed && x !in before;
      assert x in gone;
    }
  }

  // ---- every run once -------------------------------------------------------------------------------------

  lemma {:induction false} GrownApart(session: Session, t: Tree, placed: set<RunId>)
    requires Grown(session, t, placed) && t.run !in placed
    ensures Runs(t) !! placed
    decreases t, 0
  {
    SlotsApart(session, t.run, t.slots, placed + {t.run});
    ForestApart(session, Children(session.edges, t.run, None), t.deferred, placed + {t.run} + RunsInSlots(t.slots));
  }

  lemma {:induction false} SlotsApart(session: Session, run: RunId, s: Slots, placed: set<RunId>)
    requires GrownSlots(session, run, s, placed)
    ensures RunsInSlots(s) !! placed
    decreases s, 0
  {
    if s.Slot? {
      SlotsApart(session, run, s.front, placed);
      ForestApart(session, Children(session.edges, run, Some(Width(s.front))), s.children, placed + RunsInSlots(s.front));
    }
  }

  lemma {:induction false} ForestApart(session: Session, children: seq<RunId>, f: Forest, placed: set<RunId>)
    requires GrownForest(session, children, f, placed)
    ensures RunsIn(f) !! placed
    ensures f.Grow? ==> RunsIn(f.front) !! Runs(f.last)
    decreases f, |children|
  {
    if children != [] {
      var front, child := children[..|children| - 1], children[|children| - 1];
      if child in placed + RunsIn(f) && GrownForest(session, front, f, placed) {
        ForestApart(session, front, f, placed);
      } else {
        ForestApart(session, front, f.front, placed);
        GrownApart(session, f.last, placed + RunsIn(f.front));
      }
    }
  }

  function Times(session: Session, runs: set<RunId>, ref: RunRef): nat {
    if ref.run in runs && ref.step < session.steps(ref.run) then 1 else 0
  }

  /** A tree lists every step of every one of its runs exactly once, and nothing else. */
  lemma {:induction false} ListedOnce(session: Session, t: Tree, placed: set<RunId>, ref: RunRef)
    requires Grown(session, t, placed) && t.run !in placed
    ensures multiset(Listed(t))[ref] == Times(session, Runs(t), ref)
    decreases t, 0
  {
    SlotsListedOnce(session, t.run, t.slots, placed + {t.run}, ref);
    SlotsApart(session, t.run, t.slots, placed + {t.run});
    ForestListedOnce(session, Children(session.edges, t.run, None), t.deferred,
                     placed + {t.run} + RunsInSlots(t.slots), ref);
    ForestApart(session, Children(session.edges, t.run, None), t.deferred, placed + {t.run} + RunsInSlots(t.slots));
  }

  lemma CountThree(a: seq<RunRef>, b: RunRef, c: seq<RunRef>, ref: RunRef)
    ensures multiset(a + [b] + c)[ref] == multiset(a)[ref] + (if ref == b then 1 else 0) + multiset(c)[ref]
  {
    assert multiset(a + [b] + c) == multiset(a) + multiset{b} + multiset(c);
  }

  lemma {:induction false} SlotsListedOnce(session: Session, run: RunId, s: Slots, placed: set<RunId>, ref: RunRef)
    requires GrownSlots(session, run, s, placed) && run in placed
    ensures multiset(ListedSlots(run, s))[ref]
         == if ref.run == run then (if ref.step < Width(s) then 1 else 0) else Times(session, RunsInSlots(s), ref)
    decreases s, 0
  {
    if s.Slot? {
      SlotsListedOnce(session, run, s.front, placed, ref);
      SlotsApart(session, run, s.front, placed);
      var children := Children(session.edges, run, Some(Width(s.front)));
      CountThree(ListedSlots(run, s.front), RunRef(run, Width(s.front)), ListedForest(s.children), ref);
      ForestListedOnce(session, children, s.children, placed + RunsInSlots(s.front), ref);
      ForestApart(session, children, s.children, placed + RunsInSlots(s.front));
    }
  }

  lemma {:induction false} ForestListedOnce(session: Session, children: seq<RunId>, f: Forest, placed: set<RunId>, ref: RunRef)
    requires GrownForest(session, children, f, placed)
    ensures multiset(ListedForest(f))[ref] == Times(session, RunsIn(f), ref)
    decreases f, |children|
  {
    if children != [] {
      var front, child := children[..|children| - 1], children[|children| - 1];
      ForestApart(session, children, f, placed);
      if child in placed + RunsIn(f) && GrownForest(session, front, f, placed) {
        ForestListedOnce(session, front, f, placed, ref);
      } else {
        ForestListedOnce(session, front, f.front, placed, ref);
        ListedOnce(session, f.last, placed + RunsIn(f.front), ref);
      }
    }
  }

  // ---- steps ascend ---------------------------------------------------------------------------------------

  ghost predicate Mentions(list: seq<RunRef>, runs: set<RunId>) {
    forall i :: 0 <= i < |list| ==> list[i].run in runs
  }

  /** The steps of each run appear in ascending order. */
  ghost predicate StepsAscend(list: seq<RunRef>) {
    forall i, j :: 0 <= i < j < |list| && list[i].run == list[j].run ==> list[i].step < list[j].step
  }

  lemma {:induction false} OnlyItsRuns(t: Tree)
    ensures Mentions(Listed(t), Runs(t))
    decreases t
  {
    OnlySlotRuns(t.run, t.slots);
    OnlyForestRuns(t.deferred);
  }

  lemma {:induction false} OnlySlotRuns(run: RunId, s: Slots)
    ensures Mentions(ListedSlots(run, s), {run} + RunsInSlots(s))
    decreases s
  {
    if s.Slot? {
      OnlySlotRuns(run, s.front);
      OnlyForestRuns(s.children);
    }
  }

  lemma {:induction false} OnlyForestRuns(f: Forest)
    ensures Mentions(ListedForest(f), RunsIn(f))
    decreases f
  {
    if f.Grow? {
      OnlyForestRuns(f.front);
      OnlyItsRuns(f.last);
    }
  }

  lemma ApartAscend(a: seq<RunRef>, b: seq<RunRef>, inA: set<RunId>, inB: set<RunId>)
    requires StepsAscend(a) && StepsAscend(b) && Mentions(a, inA) && Mentions(b, inB) && inA !! inB
    ensures StepsAscend(a + b)
  {
    forall i, j | 0 <= i < |a| && 0 <= j < |b| ensures a[i].run != b[j].run {
      assert a[i].run in inA && b[j].run in inB;
    }
  }

  lemma {:induction false} ListedAscends(session: Session, t: Tree, placed: set<RunId>)
    requires Grown(session, t, placed) && t.run !in placed
    ensures StepsAscend(Listed(t))
    decreases t, 0
  {
    var children, taken := Children(session.edges, t.run, None), placed + {t.run} + RunsInSlots(t.slots);
    SlotsAscend(session, t.run, t.slots, placed + {t.run});
    ForestAscends(session, children, t.deferred, taken);
    ForestApart(session, children, t.deferred, taken);
    OnlySlotRuns(t.run, t.slots);
    OnlyForestRuns(t.deferred);
    ApartAscend(ListedSlots(t.run, t.slots), ListedForest(t.deferred), {t.run} + RunsInSlots(t.slots), RunsIn(t.deferred));
  }

  /** Within the slots the parent's own steps are those so far. */
  ghost predicate Below(list: seq<RunRef>, run: RunId, width: nat) {
    forall i :: 0 <= i < |list| && list[i].run == run ==> list[i].step < width
  }

  lemma {:induction false} SlotsAscend(session: Session, run: RunId, s: Slots, placed: set<RunId>)
    requires GrownSlots(session, run, s, placed) && run in placed
    ensures StepsAscend(ListedSlots(run, s)) && Below(ListedSlots(run, s), run, Width(s))
    decreases s, 0
  {
    if s.Slot? {
      var children, taken := Children(session.edges, run, Some(Width(s.front))), placed + RunsInSlots(s.front);
      SlotsAscend(session, run, s.front, placed);
      ForestAscends(session, children, s.children, taken);
      ForestApart(session, children, s.children, taken);
      OnlySlotRuns(run, s.front);
      OnlyForestRuns(s.children);
      NextSlotAscends(ListedSlots(run, s.front), run, Width(s.front), ListedForest(s.children),
                      {run} + RunsInSlots(s.front), RunsIn(s.children));
    }
  }

  lemma NextSlotAscends(
    before: seq<RunRef>, run: RunId, width: nat, after: seq<RunRef>, inBefore: set<RunId>, inAfter: set<RunId>)
    requires StepsAscend(before) && Below(before, run, width) && StepsAscend(after)
    requires Mentions(before, inBefore) && Mentions(after, inAfter) && inBefore !! inAfter && run in inBefore
    ensures StepsAscend(before + [RunRef(run, width)] + after) && Below(before + [RunRef(run, width)] + after, run, width + 1)
  {
    var head := before + [RunRef(run, width)];
    assert StepsAscend(head) && Mentions(head, inBefore);
    ApartAscend(head, after, inBefore, inAfter);
    forall i | 0 <= i < |after| ensures after[i].run != run {
      assert after[i].run in inAfter;
    }
  }

  lemma {:induction false} ForestAscends(session: Session, children: seq<RunId>, f: Forest, placed: set<RunId>)
    requires GrownForest(session, children, f, placed)
    ensures StepsAscend(ListedForest(f))
    decreases f, |children|
  {
    if children != [] {
      var front, child := children[..|children| - 1], children[|children| - 1];
      if child in placed + RunsIn(f) && GrownForest(session, front, f, placed) {
        ForestAscends(session, front, f, placed);
      } else {
        ForestAscends(session, front, f.front, placed);
        ListedAscends(session, f.last, placed + RunsIn(f.front));
        GrownApart(session, f.last, placed + RunsIn(f.front));
        OnlyForestRuns(f.front);
        OnlyItsRuns(f.last);
        ApartAscend(ListedForest(f.front), Listed(f.last), RunsIn(f.front), Runs(f.last));
      }
    }
  }

  // ---- children are spliced in one piece ------------------------------------------------------------------

  /** `u` hangs in the tree under run `parent`, after its step `spawn` or deferred. */
  ghost predicate Hangs(t: Tree, u: Tree, parent: RunId, spawn: Option<int>)
    decreases t
  {
    HangsInSlots(t.run, t.slots, u, parent, spawn) || HangsIn(t.run, None, t.deferred, u, parent, spawn)
  }

  ghost predicate HangsInSlots(run: RunId, s: Slots, u: Tree, parent: RunId, spawn: Option<int>)
    decreases s
  {
    s.Slot? && (HangsInSlots(run, s.front, u, parent, spawn)
                || HangsIn(run, Some(Width(s.front)), s.children, u, parent, spawn))
  }

  ghost predicate HangsIn(run: RunId, at: Option<int>, f: Forest, u: Tree, parent: RunId, spawn: Option<int>)
    decreases f
  {
    f.Grow? && (HangsIn(run, at, f.front, u, parent, spawn)
                || (f.last == u && run == parent && at == spawn)
                || Hangs(f.last, u, parent, spawn))
  }

  /** What `list` has of the parent is steps up to `spawn`. */
  ghost predicate Early(list: seq<RunRef>, parent: RunId, spawn: Option<int>) {
    forall i :: 0 <= i < |list| && list[i].run == parent && spawn.Some? ==> list[i].step <= spawn.value
  }

  /** What `list` has of the parent is steps after `spawn`; after a deferred child there is none. */
  ghost predicate Late(list: seq<RunRef>, parent: RunId, spawn: Option<int>) {
    forall i :: 0 <= i < |list| && list[i].run == parent ==> spawn.Some? && spawn.value < list[i].step
  }

  /** The whole expansion of `u` is one piece, between the parent's step `spawn` and its next. */
  ghost predicate Span(list: seq<RunRef>, u: Tree, parent: RunId, spawn: Option<int>) {
    exists before, after :: SpanOf(list, before, after, u, parent, spawn)
  }

  ghost predicate SpanOf(
    list: seq<RunRef>, before: seq<RunRef>, after: seq<RunRef>, u: Tree, parent: RunId, spawn: Option<int>)
  {
    list == before + Listed(u) + after && Early(before, parent, spawn) && Late(after, parent, spawn)
  }

  lemma Unmentioned(list: seq<RunRef>, runs: set<RunId>, parent: RunId, spawn: Option<int>)
    requires Mentions(list, runs) && parent !in runs
    ensures Early(list, parent, spawn) && Late(list, parent, spawn)
  {
    forall i | 0 <= i < |list| ensures list[i].run != parent {
      assert list[i].run in runs;
    }
  }

  lemma Widen(pre: seq<RunRef>, list: seq<RunRef>, post: seq<RunRef>, u: Tree, parent: RunId, spawn: Option<int>)
    requires Span(list, u, parent, spawn) && Early(pre, parent, spawn) && Late(post, parent, spawn)
    ensures Span(pre + list + post, u, parent, spawn)
  {
    var before, after :| SpanOf(list, before, after, u, parent, spawn);
    assert pre + list + post == (pre + before) + Listed(u) + (after + post);
    assert SpanOf(pre + list + post, pre + before, after + post, u, parent, spawn);
  }

  lemma {:induction false} HangsUnder(t: Tree, u: Tree, parent: RunId, spawn: Option<int>)
    ensures Hangs(t, u, parent, spawn) ==> parent in Runs(t)
    decreases t
  {
    HangsUnderSlots(t.run, t.slots, u, parent, spawn);
    HangsUnderForest(t.run, None, t.deferred, u, parent, spawn);
  }

  lemma {:induction false} HangsUnderSlots(run: RunId, s: Slots, u: Tree, parent: RunId, spawn: Option<int>)
    ensures HangsInSlots(run, s, u, parent, spawn) ==>
              parent in RunsInSlots(s) || (parent == run && spawn.Some? && 0 <= spawn.value < Width(s))
    decreases s
  {
    if s.Slot? {
      HangsUnderSlots(run, s.front, u, parent, spawn);
      HangsUnderForest(run, Some(Width(s.front)), s.children, u, parent, spawn);
    }
  }

  lemma {:induction false} HangsUnderForest(
    run: RunId, at: Option<int>, f: Forest, u: Tree, parent: RunId, spawn: Option<int>)
    ensures HangsIn(run, at, f, u, parent, spawn) ==> parent in RunsIn(f) || (parent == run && spawn == at)
    decreases f
  {
    if f.Grow? {
      HangsUnderForest(run, at, f.front, u, parent, spawn);
      HangsUnder(f.last, u, parent, spawn);
    }
  }

  /** Every spliced child's whole expansion, nested ones included, lies in one piece between its parent's spawning
      step and the next; a deferred child's lies after all of its parent's steps. */
  lemma {:induction false} ChildSpan(session: Session, t: Tree, placed: set<RunId>, u: Tree, parent: RunId, spawn: Option<int>)
    requires Grown(session, t, placed) && t.run !in placed && Hangs(t, u, parent, spawn)
    ensures Span(Listed(t), u, parent, spawn)
    decreases t, 0
  {
    var children, taken := Children(session.edges, t.run, None), placed + {t.run} + RunsInSlots(t.slots);
    var front, back := ListedSlots(t.run, t.slots), ListedForest(t.deferred);
    ForestApart(session, children, t.deferred, taken);
    OnlySlotRuns(t.run, t.slots);
    OnlyForestRuns(t.deferred);
    if HangsInSlots(t.run, t.slots, u, parent, spawn) {
      SlotSpan(session, t.run, t.slots, placed + {t.run}, u, parent, spawn);
      HangsUnderSlots(t.run, t.slots, u, parent, spawn);
      Unmentioned(back, RunsIn(t.deferred), parent, spawn);
      Widen([], front, back, u, parent, spawn);
      assert [] + front + back == Listed(t);
    } else {
      ForestSpan(session, t.run, None, children, t.deferred, taken, u, parent, spawn);
      HangsUnderForest(t.run, None, t.deferred, u, parent, spawn);
      if parent in RunsIn(t.deferred) {
        Unmentioned(front, {t.run} + RunsInSlots(t.slots), parent, spawn);
      }
      Widen(front, back, [], u, parent, spawn);
      assert front + back + [] == Listed(t);
    }
  }

  lemma {:induction false} SlotSpan(
    session: Session, run: RunId, s: Slots, placed: set<RunId>, u: Tree, parent: RunId, spawn: Option<int>)
    requires GrownSlots(session, run, s, placed) && run in placed && HangsInSlots(run, s, u, parent, spawn)
    ensures Span(ListedSlots(run, s), u, parent, spawn)
    decreases s, 1
  {
    if HangsInSlots(run, s.front, u, parent, spawn) {
      EarlierSlotSpan(session, run, s, placed, u, parent, spawn);
    } else {
      LastSlotSpan(session, run, s, placed, u, parent, spawn);
    }
  }

  lemma {:induction false} EarlierSlotSpan(
    session: Session, run: RunId, s: Slots, placed: set<RunId>, u: Tree, parent: RunId, spawn: Option<int>)
    requires s.Slot? && GrownSlots(session, run, s, placed) && run in placed
    requires HangsInSlots(run, s.front, u, parent, spawn)
    ensures Span(ListedSlots(run, s), u, parent, spawn)
    decreases s, 0
  {
    var w := Width(s.front);
    var front, head, back := ListedSlots(run, s.front), [RunRef(run, w)], ListedForest(s.children);
    SlotSpan(session, run, s.front, placed, u, parent, spawn);
    ForestApart(session, Children(session.edges, run, Some(w)), s.children, placed + RunsInSlots(s.front));
    SlotsApart(session, run, s.front, placed);
    OnlyForestRuns(s.children);
    HangsUnderSlots(run, s.front, u, parent, spawn);
    Unmentioned(back, RunsIn(s.children), parent, spawn);
    Widen([], front, head + back, u, parent, spawn);
    assert [] + front + (head + back) == ListedSlots(run, s);
  }

  lemma {:induction false} LastSlotSpan(
    session: Session, run: RunId, s: Slots, placed: set<RunId>, u: Tree, parent: RunId, spawn: Option<int>)
    requires s.Slot? && GrownSlots(session, run, s, placed) && run in placed
    requires HangsIn(run, Some(Width(s.front)), s.children, u, parent, spawn)
    ensures Span(ListedSlots(run, s), u, parent, spawn)
    decreases s, 0
  {
    var w := Width(s.front);
    var children, taken := Children(session.edges, run, Some(w)), placed + RunsInSlots(s.front);
    var front, head, back := ListedSlots(run, s.front), [RunRef(run, w)], ListedForest(s.children);
    ForestSpan(session, run, Some(w), children, s.children, taken, u, parent, spawn);
    ForestApart(session, children, s.children, taken);
    SlotsApart(session, run, s.front, placed);
    OnlySlotRuns(run, s.front);
    HangsUnderForest(run, Some(w), s.children, u, parent, spawn);
    if parent in RunsIn(s.children) {
      Unmentioned(front, {run} + RunsInSlots(s.front), parent, spawn);
    } else {
      SlotsAscend(session, run, s.front, placed);
    }
    Widen(front + head, back, [], u, parent, spawn);
    assert front + head + back + [] == ListedSlots(run, s);
  }

  lemma {:induction false} ForestSpan(
    session: Session, run: RunId, at: Option<int>, children: seq<RunId>, f: Forest, placed: set<RunId>,
    u: Tree, parent: RunId, spawn: Option<int>)
    requires GrownForest(session, children, f, placed) && run in placed && HangsIn(run, at, f, u, parent, spawn)
    ensures Span(ListedForest(f), u, parent, spawn)
    decreases f, |children|
  {
    var front, child := children[..|children| - 1], children[|children| - 1];
    if child in placed + RunsIn(f) && GrownForest(session, front, f, placed) {
      ForestSpan(session, run, at, front, f, placed, u, parent, spawn);
    } else {
      var before, last := ListedForest(f.front), Listed(f.last);
      ForestApart(session, front, f.front, placed);
      GrownApart(session, f.last, placed + RunsIn(f.front));
      OnlyForestRuns(f.front);
      OnlyItsRuns(f.last);
      if HangsIn(run, at, f.front, u, parent, spawn) {
        ForestSpan(session, run, at, front, f.front, placed, u, parent, spawn);
        HangsUnderForest(run, at, f.front, u, parent, spawn);
        Unmentioned(last, Runs(f.last), parent, spawn);
        Widen([], before, last, u, parent, spawn);
        assert [] + before + last == ListedForest(f);
      } else if Hangs(f.last, u, parent, spawn) {
        ChildSpan(session, f.last, placed + RunsIn(f.front), u, parent, spawn);
        HangsUnder(f.last, u, parent, spawn);
        Unmentioned(before, RunsIn(f.front), parent, spawn);
        Widen(before, last, [], u, parent, spawn);
        assert before + last + [] == ListedForest(f);
      } else {
        Unmentioned(before, RunsIn(f.front), parent, spawn);
        assert SpanOf(ListedForest(f), before, [], u, parent, spawn);
      }
    }
  }

  // ---- which runs are placed ------------------------------------------------------------------------------

  /** The parent's expansion gets to this edge. */
  ghost predicate Effective(session: Session, e: Edge) {
    e.spawn.Some? ==> 0 <= e.spawn.value < session.steps(e.parent)
  }

  ghost predicate Link(session: Session, a: RunId, b: RunId) {
    exists e :: e in session.edges && e.parent == a && e.child == b && Effective(session, e)
  }

  ghost predicate Trail(session: Session, path: seq<RunId>) {
    path != [] && path[0] == session.root && forall i :: 0 <= i < |path| - 1 ==> Link(session, path[i], path[i + 1])
  }

  ghost predicate Reachable(session: Session, run: RunId) {
    exists path :: Trail(session, path) && path[|path| - 1] == run
  }

  lemma Onward(session: Session, a: RunId, b: RunId)
    requires Reachable(session, a) && Link(session, a, b)
    ensures Reachable(session, b)
  {
    var path :| Trail(session, path) && path[|path| - 1] == a;
    var longer := path + [b];
    assert Trail(session, longer) && longer[|longer| - 1] == b;
  }

  lemma {:induction false} ChildrenAre(edges: seq<Edge>, run: RunId, spawn: Option<int>, child: RunId)
    ensures child in Children(edges, run, spawn) <==>
              exists e :: e in edges && e.parent == run && e.spawn == spawn && e.child == child
  {
    if edges != [] {
      var front, last := edges[..|edges| - 1], edges[|edges| - 1];
      ChildrenAre(front, run, spawn, child);
      assert edges == front + [last];
    }
  }

  lemma {:induction false} ChildrenPlaced(session: Session, children: seq<RunId>, f: Forest, placed: set<RunId>, child: RunId)
    requires GrownForest(session, children, f, placed) && child in children
    ensures child in placed + RunsIn(f)
    decreases f, |children|
  {
    var front, last := children[..|children| - 1], children[|children| - 1];
    assert children == front + [last];
    if child != last {
      if last in placed + RunsIn(f) && GrownForest(session, front, f, placed) {
        ChildrenPlaced(session, front, f, placed, child);
      } else {
        ChildrenPlaced(session, front, f.front, placed, child);
      }
    }
  }

  lemma {:induction false} StepChildrenPlaced(
    session: Session, run: RunId, s: Slots, placed: set<RunId>, step: nat, child: RunId)
    requires GrownSlots(session, run, s, placed) && step < Width(s)
    requires child in Children(session.edges, run, Some(step))
    ensures child in placed + RunsInSlots(s)
    decreases s, 0
  {
    if step == Width(s.front) {
      ChildrenPlaced(session, Children(session.edges, run, Some(step)), s.children, placed + RunsInSlots(s.front), child);
    } else {
      StepChildrenPlaced(session, run, s.front, placed, step, child);
    }
  }

  /** Every effective edge out of a placed run leads to a placed run. */
  lemma {:induction false} Closed(session: Session, t: Tree, placed: set<RunId>, e: Edge)
    requires Grown(session, t, placed) && e in session.edges && Effective(session, e) && e.parent in Runs(t)
    ensures e.child in placed + Runs(t)
    decreases t, 0
  {
    var children, taken := Children(session.edges, t.run, None), placed + {t.run} + RunsInSlots(t.slots);
    ChildrenAre(session.edges, e.parent, e.spawn, e.child);
    if e.parent == t.run {
      if e.spawn.None? {
        ChildrenPlaced(session, children, t.deferred, taken, e.child);
      } else {
        StepChildrenPlaced(session, t.run, t.slots, placed + {t.run}, e.spawn.value, e.child);
      }
    } else if e.parent in RunsInSlots(t.slots) {
      SlotsClosed(session, t.run, t.slots, placed + {t.run}, e);
    } else {
      ForestClosed(session, children, t.deferred, taken, e);
    }
  }

  lemma {:induction false} SlotsClosed(session: Session, run: RunId, s: Slots, placed: set<RunId>, e: Edge)
    requires GrownSlots(session, run, s, placed)
    requires e in session.edges && Effective(session, e) && e.parent in RunsInSlots(s)
    ensures e.child in placed + RunsInSlots(s)
    decreases s, 0
  {
    if e.parent in RunsInSlots(s.front) {
      SlotsClosed(session, run, s.front, placed, e);
    } else {
      ForestClosed(session, Children(session.edges, run, Some(Width(s.front))), s.children,
                   placed + RunsInSlots(s.front), e);
    }
  }

  lemma {:induction false} ForestClosed(session: Session, children: seq<RunId>, f: Forest, placed: set<RunId>, e: Edge)
    requires GrownForest(session, children, f, placed)
    requires e in session.edges && Effective(session, e) && e.parent in RunsIn(f)
    ensures e.child in placed + RunsIn(f)
    decreases f, |children|
  {
    var front, child := children[..|children| - 1], children[|children| - 1];
    if child in placed + RunsIn(f) && GrownForest(session, front, f, placed) {
      ForestClosed(session, front, f, placed, e);
    } else if e.parent in RunsIn(f.front) {
      ForestClosed(session, front, f.front, placed, e);
    } else {
      Closed(session, f.last, placed + RunsIn(f.front), e);
    }
  }

  lemma {:induction false} TrailPlaced(session: Session, t: Tree, path: seq<RunId>)
    requires Grown(session, t, {}) && t.run == session.root && Trail(session, path)
    ensures path[|path| - 1] in Runs(t)
  {
    if |path| > 1 {
      var front := path[..|path| - 1];
      TrailPlaced(session, t, front);
      assert Link(session, path[|path| - 2], path[|path| - 1]);
      var e :| e in session.edges && e.parent == path[|path| - 2] && e.child == path[|path| - 1] && Effective(session, e);
      Closed(session, t, {}, e);
    }
  }

  ghost predicate AllReachable(session: Session, runs: set<RunId>) {
    forall r :: r in runs ==> Reachable(session, r)
  }

  lemma {:induction false} PlacedReachable(session: Session, t: Tree, placed: set<RunId>)
    requires Grown(session, t, placed) && Reachable(session, t.run)
    ensures AllReachable(session, Runs(t))
    decreases t, 0
  {
    SlotsReachable(session, t.run, t.slots, placed + {t.run});
    ForestReachable(session, t.run, None, Children(session.edges, t.run, None), t.deferred,
                    placed + {t.run} + RunsInSlots(t.slots));
  }

  lemma {:induction false} SlotsReachable(session: Session, run: RunId, s: Slots, placed: set<RunId>)
    requires GrownSlots(session, run, s, placed) && Reachable(session, run) && Width(s) <= session.steps(run)
    ensures AllReachable(session, RunsInSlots(s))
    decreases s, 0
  {
    if s.Slot? {
      var w := Width(s.front);
      SlotsReachable(session, run, s.front, placed);
      ForestReachable(session, run, Some(w), Children(session.edges, run, Some(w)), s.children,
                      placed + RunsInSlots(s.front));
    }
  }

  lemma {:induction false} ForestReachable(
    session: Session, run: RunId, spawn: Option<int>, children: seq<RunId>, f: Forest, placed: set<RunId>)
    requires GrownForest(session, children, f, placed) && Reachable(session, run)
    requires spawn.Some? ==> 0 <= spawn.value < session.steps(run)
    requires forall c :: c in children ==> c in Children(session.edges, run, spawn)
    ensures AllReachable(session, RunsIn(f))
    decreases f, |children|
  {
    if children != [] {
      var front, child := children[..|children| - 1], children[|children| - 1];
      if child in placed + RunsIn(f) && GrownForest(session, front, f, placed) {
        ForestReachable(session, run, spawn, front, f, placed);
      } else {
        ForestReachable(session, run, spawn, front, f.front, placed);
        ChildLinked(session, run, spawn, child);
        Onward(session, run, child);
        PlacedReachable(session, f.last, placed + RunsIn(f.front));
      }
    }
  }

  lemma ChildLinked(session: Session, run: RunId, spawn: Option<int>, child: RunId)
    requires child in Children(session.edges, run, spawn)
    requires spawn.Some? ==> 0 <= spawn.value < session.steps(run)
    ensures Link(session, run, child)
  {
    ChildrenAre(session.edges, run, spawn, child);
  }

  /** The placed runs are those reachable from the root by edges whose spawning step the parent has. */
  lemma PlacedIffReachable(session: Session, t: Tree, run: RunId)
    requires Grown(session, t, {}) && t.run == session.root
    ensures run in Runs(t) <==> Reachable(session, run)
  {
    assert Trail(session, [session.root]);
    assert Reachable(session, session.root);
    PlacedReachable(session, t, {});
    if Reachable(session, run) {
      var path :| Trail(session, path) && path[|path| - 1] == run;
      TrailPlaced(session, t, path);
    }
  }

  // ---- the whole order ------------------------------------------------------------------------------------

  /** For any edges: terminates; lists every step of every run it can reach exactly once and nothing else; each
      run's steps ascend; and `t` says where every child is spliced. */
  method TopologicalOrder(session: Session) returns (order: seq<RunRef>, ghost t: Tree)
    ensures t.run == session.root && Grown(session, t, {}) && order == Listed(t)
    ensures forall ref :: multiset(order)[ref]
                          == if Reachable(session, ref.run) && ref.step < session.steps(ref.run) then 1 else 0
    ensures StepsAscend(order)
    ensures forall u, parent, spawn :: Hangs(t, u, parent, spawn) ==> Span(order, u, parent, spawn)
  {
    var expansion := new Expansion(session);
    order, t := expansion.Expand(session.root);
    forall ref ensures multiset(order)[ref]
                       == if Reachable(session, ref.run) && ref.step < session.steps(ref.run) then 1 else 0
    {
      ListedOnce(session, t, {}, ref);
      PlacedIffReachable(session, t, ref.run);
    }
    ListedAscends(session, t, {});
    forall u, parent, spawn | Hangs(t, u, parent, spawn) ensures Span(order, u, parent, spawn) {
      ChildSpan(session, t, {}, u, parent, spawn);
    }
  }

  function LateSpawn(root: RunId, child: RunId): Session {
    Session(root, [Edge(root, child, Some(1))], (r: RunId) => 1)
  }

  lemma OnlyRootReachable(root: RunId, child: RunId, run: RunId)
    ensures Reachable(LateSpawn(root, child), run) <==> run == root
  {
    var session := LateSpawn(root, child);
    assert Trail(session, [root]);
    forall e | e in session.edges ensures !Effective(session, e) {
    }
    if Reachable(session, run) {
      var path :| Trail(session, path) && path[|path| - 1] == run;
      assert |path| > 1 ==> Link(session, path[0], path[1]);
    }
  }

  lemma OneEntry(order: seq<RunRef>, only: RunRef)
    requires forall ref :: multiset(order)[ref] == if ref == only then 1 else 0
    ensures order == [only]
  {
    assert multiset(order) == multiset{only};
    assert |multiset(order)| == |order|;
    assert order[0] in multiset(order);
  }

  lemma LateSpawnListing(root: RunId, child: RunId, order: seq<RunRef>)
    requires forall ref :: multiset(order)[ref]
                           == if Reachable(LateSpawn(root, child), ref.run) && ref.step < 1 then 1 else 0
    ensures order == [RunRef(root, 0)]
  {
    forall ref ensures multiset(order)[ref] == if ref == RunRef(root, 0) then 1 else 0 {
      OnlyRootReachable(root, child, ref.run);
    }
    OneEntry(order, RunRef(root, 0));
  }

  /** A child recorded at a step its parent does not have is lost: of this session of two one-step tapes, the order
      lists the root's step and no step of the child. */
  method OutOfRangeChildIsLost(root: RunId, child: RunId) returns (order: seq<RunRef>)
    ensures order == [RunRef(root, 0)]
    ensures root != child ==> forall i :: 0 <= i < |order| ==> order[i].run != child
  {
    var session := LateSpawn(root, child);
    ghost var t;
    order, t := TopologicalOrder(session);
    LateSpawnListing(root, child, order);
  }
}
