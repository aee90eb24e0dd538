/** Where the cross-tape order splices what: at a recorded edge, no later than any other edge to the same run asks for,
    and after the runs of the earlier edges out of the same step. */
module SpliceOrder {
  import opened Seqs
  import opened SessionOrder

  ghost predicate Precedes(list: seq<RunRef>, a: RunRef, b: RunRef) {
    exists i, j :: 0 <= i < j < |list| && list[i] == a && list[j] == b
  }

  /** Unless `c` is among the runs taken before, or has no steps, its first step comes before `ref`. */
  ghost predicate Before(session: Session, list: seq<RunRef>, placed: set<RunId>, c: RunId, ref: RunRef) {
    c in placed || session.steps(c) == 0 || Precedes(list, RunRef(c, 0), ref)
  }

  ghost predicate Starts(session: Session, list: seq<RunRef>, runs: set<RunId>) {
    forall r :: r in runs && session.steps(r) > 0 ==> RunRef(r, 0) in list
  }

  lemma Wider(
    session: Session, pre: seq<RunRef>, list: seq<RunRef>, post: seq<RunRef>, placed: set<RunId>, c: RunId, ref: RunRef)
    requires Before(session, list, placed, c, ref)
    ensures Before(session, pre + list + post, placed, c, ref)
  {
    if Precedes(list, RunRef(c, 0), ref) {
      var i, j :| 0 <= i < j < |list| && list[i] == RunRef(c, 0) && list[j] == ref;
      var all := pre + list + post;
      assert all[|pre| + i] == RunRef(c, 0) && all[|pre| + j] == ref;
    }
  }

  /** Behind a list that starts the runs in `earlier`, those come before as well. */
  lemma Behind(
    session: Session, pre: seq<RunRef>, list: seq<RunRef>, placed: set<RunId>, earlier: set<RunId>, c: RunId, ref: RunRef)
    requires Before(session, list, placed + earlier, c, ref) && Starts(session, pre, earlier) && ref in list
    ensures Before(session, pre + list, placed, c, ref)
  {
    if Precedes(list, RunRef(c, 0), ref) {
      Wider(session, pre, list, [], placed, c, ref);
      assert pre + list + [] == pre + list;
    } else if c in earlier && session.steps(c) > 0 {
      InOrder(pre, list, RunRef(c, 0), ref);
    }
  }

  lemma InOrder(a: seq<RunRef>, b: seq<RunRef>, x: RunRef, y: RunRef)
    requires x in a && y in b
    ensures Precedes(a + b, x, y)
  {
    var i :| 0 <= i < |a| && a[i] == x;
    var j :| 0 <= j < |b| && b[j] == y;
    assert (a + b)[i] == x && (a + b)[|a| + j] == y;
  }

  // ---- what each part lists -------------------------------------------------------------------------------

  lemma Counted(list: seq<RunRef>, ref: RunRef)
    requires multiset(list)[ref] == 1
    ensures ref in list
  {
    assert ref in multiset(list);
  }

  lemma ForestLists(session: Session, children: seq<RunId>, f: Forest, placed: set<RunId>, ref: RunRef)
    requires GrownForest(session, children, f, placed) && ref.run in RunsIn(f) && ref.step < session.steps(ref.run)
    ensures ref in ListedForest(f)
  {
    ForestListedOnce(session, children, f, placed, ref);
    Counted(ListedForest(f), ref);
  }

  lemma SlotsList(session: Session, run: RunId, s: Slots, placed: set<RunId>, ref: RunRef)
    requires GrownSlots(session, run, s, placed) && run in placed
    requires if ref.run == run then ref.step < Width(s) else ref.run in RunsInSlots(s) && ref.step < session.steps(ref.run)
    ensures ref in ListedSlots(run, s)
  {
    SlotsListedOnce(session, run, s, placed, ref);
    Counted(ListedSlots(run, s), ref);
  }

  lemma TreeLists(session: Session, t: Tree, placed: set<RunId>, ref: RunRef)
    requires Grown(session, t, placed) && t.run !in placed && ref.run in Runs(t) && ref.step < session.steps(ref.run)
    ensures ref in Listed(t)
  {
    ListedOnce(session, t, placed, ref);
    Counted(Listed(t), ref);
  }

  lemma ForestStarts(session: Session, children: seq<RunId>, f: Forest, placed: set<RunId>)
    requires GrownForest(session, children, f, placed)
    ensures Starts(session, ListedForest(f), RunsIn(f))
  {
    forall r | r in RunsIn(f) && session.steps(r) > 0 ensures RunRef(r, 0) in ListedForest(f) {
      ForestLists(session, children, f, placed, RunRef(r, 0));
    }
  }

  lemma SlotsStart(session: Session, run: RunId, s: Slots, placed: set<RunId>)
    requires GrownSlots(session, run, s, placed) && run in placed
    ensures Starts(session, ListedSlots(run, s), RunsInSlots(s))
    ensures s.Slot? ==> RunRef(run, 0) in ListedSlots(run, s)
  {
    SlotsApart(session, run, s, placed);
    forall r | r in RunsInSlots(s) && session.steps(r) > 0 ensures RunRef(r, 0) in ListedSlots(run, s) {
      SlotsList(session, run, s, placed, RunRef(r, 0));
    }
    if s.Slot? {
      SlotsList(session, run, s, placed, RunRef(run, 0));
    }
  }

  /** A run's first step is the first entry of its expansion. */
  lemma {:induction false} FirstEntry(run: RunId, s: Slots)
    requires s.Slot?
    ensures ListedSlots(run, s) != [] && ListedSlots(run, s)[0] == RunRef(run, 0)
    decreases s
  {
    if s.front.Slot? {
      FirstEntry(run, s.front);
    }
  }

  /** So it comes before any other entry of it. */
  lemma RootFirst(session: Session, t: Tree, placed: set<RunId>, c: RunId, ref: RunRef)
    requires Width(t.slots) == session.steps(t.run) && ref in Listed(t) && ref != RunRef(t.run, 0)
    requires Before(session, Listed(t), placed + {t.run}, c, ref)
    ensures Before(session, Listed(t), placed, c, ref)
  {
    if c == t.run && session.steps(c) > 0 {
      FirstEntry(t.run, t.slots);
      var j :| 0 <= j < |Listed(t)| && Listed(t)[j] == ref;
      assert Listed(t)[0] == ListedSlots(t.run, t.slots)[0] == RunRef(c, 0);
    }
  }

  // ---- no later than any edge asks ------------------------------------------------------------------------

  /** The step after the one that spawned. */
  function NextStep(e: Edge): RunRef
    requires e.spawn.Some? && e.spawn.value >= 0
  {
    RunRef(e.parent, e.spawn.value + 1)
  }

  ghost predicate Followed(session: Session, e: Edge) {
    e in session.edges && e.spawn.Some? && 0 <= e.spawn.value && e.spawn.value + 1 < session.steps(e.parent)
  }

  lemma {:induction false} TreeSplicesInTime(session: Session, t: Tree, placed: set<RunId>, e: Edge)
    requires Grown(session, t, placed) && t.run !in placed && Followed(session, e) && e.parent in Runs(t)
    ensures Before(session, Listed(t), placed, e.child, NextStep(e))
    decreases t, 0
  {
    var children, taken := Children(session.edges, t.run, None), placed + {t.run} + RunsInSlots(t.slots);
    var front, back := ListedSlots(t.run, t.slots), ListedForest(t.deferred);
    if e.parent == t.run || e.parent in RunsInSlots(t.slots) {
      SlotsSpliceInTime(session, t.run, t.slots, placed + {t.run}, e);
      Wider(session, [], front, back, placed + {t.run}, e.child, NextStep(e));
      assert [] + front + back == Listed(t);
    } else {
      ForestSplicesInTime(session, children, t.deferred, taken, e);
      ForestLists(session, children, t.deferred, taken, NextStep(e));
      SlotsStart(session, t.run, t.slots, placed + {t.run});
      Behind(session, front, back, placed + {t.run}, RunsInSlots(t.slots), e.child, NextStep(e));
    }
    TreeLists(session, t, placed, NextStep(e));
    RootFirst(session, t, placed, e.child, NextStep(e));
  }

  lemma {:induction false} SlotsSpliceInTime(session: Session, run: RunId, s: Slots, placed: set<RunId>, e: Edge)
    requires GrownSlots(session, run, s, placed) && run in placed && Followed(session, e)
    requires if e.parent == run then e.spawn.value + 1 < Width(s) else e.parent in RunsInSlots(s)
    ensures Before(session, ListedSlots(run, s), placed, e.child, NextStep(e))
    decreases s, 1
  {
    var w := Width(s.front);
    var front, head, back := ListedSlots(run, s.front), [RunRef(run, w)], ListedForest(s.children);
    if e.parent == run && e.spawn.value + 1 == w {
      ChildrenAre(session.edges, run, e.spawn, e.child);
      StepChildrenPlaced(session, run, s.front, placed, e.spawn.value, e.child);
      SlotsStart(session, run, s.front, placed);
      Behind(session, front, head, placed, RunsInSlots(s.front), e.child, NextStep(e));
      Wider(session, [], front + head, back, placed, e.child, NextStep(e));
      assert [] + (front + head) + back == ListedSlots(run, s);
    } else if e.parent == run || e.parent in RunsInSlots(s.front) {
      SlotsSpliceInTime(session, run, s.front, placed, e);
      Wider(session, [], front, head + back, placed, e.child, NextStep(e));
      assert [] + front + (head + back) == ListedSlots(run, s);
    } else {
      LastSlotSplicesInTime(session, run, s, placed, e);
    }
  }

  lemma {:induction false} LastSlotSplicesInTime(session: Session, run: RunId, s: Slots, placed: set<RunId>, e: Edge)
    requires s.Slot? && GrownSlots(session, run, s, placed) && run in placed && Followed(session, e)
    requires e.parent in RunsIn(s.children)
    ensures Before(session, ListedSlots(run, s), placed, e.child, NextStep(e))
    decreases s, 0
  {
    var w := Width(s.front);
    var front, head, back := ListedSlots(run, s.front), [RunRef(run, w)], ListedForest(s.children);
    var children := Children(session.edges, run, Some(w));
    ForestSplicesInTime(session, children, s.children, placed + RunsInSlots(s.front), e);
    ForestLists(session, children, s.children, placed + RunsInSlots(s.front), NextStep(e));
    SlotsStart(session, run, s.front, placed);
    Behind(session, front + head, back, placed, RunsInSlots(s.front), e.child, NextStep(e));
  }

  lemma {:induction false} ForestSplicesInTime(
    session: Session, children: seq<RunId>, f: Forest, placed: set<RunId>, e: Edge)
    requires GrownForest(session, children, f, placed) && Followed(session, e) && e.parent in RunsIn(f)
    ensures Before(session, ListedForest(f), placed, e.child, NextStep(e))
    decreases f, |children|
  {
    var front, child := children[..|children| - 1], children[|children| - 1];
    if child in placed + RunsIn(f) && GrownForest(session, front, f, placed) {
      ForestSplicesInTime(session, front, f, placed, e);
    } else {
      var before, last := ListedForest(f.front), Listed(f.last);
      if e.parent in RunsIn(f.front) {
        ForestSplicesInTime(session, front, f.front, placed, e);
        Wider(session, [], before, last, placed, e.child, NextStep(e));
        assert [] + before + last == ListedForest(f);
      } else {
        TreeSplicesInTime(session, f.last, placed + RunsIn(f.front), e);
        TreeLists(session, f.last, placed + RunsIn(f.front), NextStep(e));
        ForestStarts(session, front, f.front, placed);
        Behind(session, before, last, placed, RunsIn(f.front), e.child, NextStep(e));
      }
    }
  }

  /** Whichever edge a run is spliced at, its first step comes before the step after the spawning one of every edge
      that leads to it. */
  lemma SplicedInTime(session: Session, t: Tree, e: Edge)
    requires Grown(session, t, {}) && t.run == session.root && Followed(session, e)
    requires Reachable(session, e.parent) && session.steps(e.child) > 0
    ensures Precedes(Listed(t), RunRef(e.child, 0), NextStep(e))
  {
    PlacedIffReachable(session, t, e.parent);
    TreeSplicesInTime(session, t, {}, e);
  }

  // ---- siblings in edge order -----------------------------------------------------------------------------

  /** `c` comes in `children` before `r` does. */
  ghost predicate Ahead(children: seq<RunId>, c: RunId, r: RunId) {
    exists k :: 0 <= k < |children| && children[k] == c && r !in children[..k + 1]
  }

  /** Some edge to `c` out of this step comes before every one to `r`. */
  ghost predicate EarlierEdge(edges: seq<Edge>, parent: RunId, spawn: Option<int>, c: RunId, r: RunId) {
    exists k :: 0 <= k < |edges| && edges[k] == Edge(parent, c, spawn) && Edge(parent, r, spawn) !in edges[..k + 1]
  }

  lemma {:induction false} AheadByEdge(edges: seq<Edge>, parent: RunId, spawn: Option<int>, c: RunId, r: RunId)
    requires EarlierEdge(edges, parent, spawn, c, r)
    ensures Ahead(Children(edges, parent, spawn), c, r)
  {
    var k :| 0 <= k < |edges| && edges[k] == Edge(parent, c, spawn) && Edge(parent, r, spawn) !in edges[..k + 1];
    var front := edges[..|edges| - 1];
    if k < |front| {
      assert front[..k + 1] == edges[..k + 1];
      AheadByEdge(front, parent, spawn, c, r);
      StaysAhead(Children(front, parent, spawn), Children(edges, parent, spawn), c, r);
    } else {
      assert edges[..k + 1] == edges;
      NoEdgeNoChild(edges, parent, spawn, r);
      LastIsAhead(Children(front, parent, spawn), c, r);
    }
  }

  lemma NoEdgeNoChild(edges: seq<Edge>, parent: RunId, spawn: Option<int>, r: RunId)
    requires Edge(parent, r, spawn) !in edges
    ensures r !in Children(edges, parent, spawn)
  {
    ChildrenAre(edges, parent, spawn, r);
  }

  lemma LastIsAhead(front: seq<RunId>, c: RunId, r: RunId)
    ensures r !in front + [c] ==> Ahead(front + [c], c, r)
  {
    var children := front + [c];
    assert children[|front|] == c && children[..|front| + 1] == children;
  }

  lemma StaysAhead(front: seq<RunId>, children: seq<RunId>, c: RunId, r: RunId)
    requires Ahead(front, c, r) && front <= children
    ensures Ahead(children, c, r)
  {
    var k :| 0 <= k < |front| && front[k] == c && r !in front[..k + 1];
    assert children[..k + 1] == front[..k + 1];
  }

  lemma AheadOfLast(children: seq<RunId>, c: RunId, r: RunId)
    requires Ahead(children, c, r) && r in children
    ensures Ahead(children[..|children| - 1], c, r)
  {
    var k :| 0 <= k < |children| && children[k] == c && r !in children[..k + 1];
    var front := children[..|children| - 1];
    assert children[..|children|] == children;
    assert k < |front|;
    assert front[k] == c && front[..k + 1] == children[..k + 1];
  }

  /** `u` is one of the trees of `f` itself. */
  ghost predicate Stands(f: Forest, u: Tree) {
    f.Grow? && (f.last == u || Stands(f.front, u))
  }

  lemma {:induction false} StandsAsChild(session: Session, children: seq<RunId>, f: Forest, placed: set<RunId>, u: Tree)
    requires GrownForest(session, children, f, placed) && Stands(f, u)
    ensures u.run in children && u.run in RunsIn(f)
    decreases f, |children|
  {
    var front, child := children[..|children| - 1], children[|children| - 1];
    if child in placed + RunsIn(f) && GrownForest(session, front, f, placed) {
      StandsAsChild(session, front, f, placed, u);
    } else if f.last != u {
      StandsAsChild(session, front, f.front, placed, u);
    }
  }

  lemma {:induction false} StandsInOrder(
    session: Session, children: seq<RunId>, f: Forest, placed: set<RunId>, u: Tree, c: RunId)
    requires GrownForest(session, children, f, placed) && Stands(f, u) && Ahead(children, c, u.run)
    requires session.steps(u.run) > 0
    ensures Before(session, ListedForest(f), placed, c, RunRef(u.run, 0))
    decreases f, |children|
  {
    var front, child := children[..|children| - 1], children[|children| - 1];
    var ref := RunRef(u.run, 0);
    StandsAsChild(session, children, f, placed, u);
    AheadOfLast(children, c, u.run);
    if child in placed + RunsIn(f) && GrownForest(session, front, f, placed) {
      StandsInOrder(session, front, f, placed, u, c);
    } else if Stands(f.front, u) {
      StandsInOrder(session, front, f.front, placed, u, c);
      Wider(session, [], ListedForest(f.front), Listed(f.last), placed, c, ref);
      assert [] + ListedForest(f.front) + Listed(f.last) == ListedForest(f);
    } else {
      ChildrenPlaced(session, front, f.front, placed, c);
      TreeLists(session, f.last, placed + RunsIn(f.front), ref);
      ForestStarts(session, front, f.front, placed);
      Behind(session, ListedForest(f.front), Listed(f.last), placed, RunsIn(f.front), c, ref);
    }
  }

  lemma {:induction false} HungListed(t: Tree, u: Tree, parent: RunId, spawn: Option<int>)
    ensures Hangs(t, u, parent, spawn) ==> u.run in Runs(t)
    decreases t
  {
    HungInSlots(t.run, t.slots, u, parent, spawn);
    HungInForest(t.run, None, t.deferred, u, parent, spawn);
  }

  lemma {:induction false} HungInSlots(run: RunId, s: Slots, u: Tree, parent: RunId, spawn: Option<int>)
    ensures HangsInSlots(run, s, u, parent, spawn) ==> u.run in RunsInSlots(s)
    decreases s
  {
    if s.Slot? {
      HungInSlots(run, s.front, u, parent, spawn);
      HungInForest(run, Some(Width(s.front)), s.children, u, parent, spawn);
    }
  }

  lemma {:induction false} HungInForest(
    run: RunId, at: Option<int>, f: Forest, u: Tree, parent: RunId, spawn: Option<int>)
    ensures HangsIn(run, at, f, u, parent, spawn) ==> u.run in RunsIn(f)
    decreases f
  {
    if f.Grow? {
      HungInForest(run, at, f.front, u, parent, spawn);
      HungListed(f.last, u, parent, spawn);
    }
  }

  /** The siblings `c` and `u`, out of step `spawn` of `parent`, the edge to `c` first. */
  ghost predicate Siblings(session: Session, parent: RunId, spawn: Option<int>, c: RunId, u: Tree) {
    Ahead(Children(session.edges, parent, spawn), c, u.run) && session.steps(u.run) > 0
  }

  lemma {:induction false} TreeKeepsEdgeOrder(
    session: Session, t: Tree, placed: set<RunId>, u: Tree, parent: RunId, spawn: Option<int>, c: RunId)
    requires Grown(session, t, placed) && t.run !in placed && Hangs(t, u, parent, spawn)
    requires Siblings(session, parent, spawn, c, u)
    ensures Before(session, Listed(t), placed, c, RunRef(u.run, 0))
    decreases t, 0
  {
    var children, taken := Children(session.edges, t.run, None), placed + {t.run} + RunsInSlots(t.slots);
    var front, back, ref := ListedSlots(t.run, t.slots), ListedForest(t.deferred), RunRef(u.run, 0);
    if HangsInSlots(t.run, t.slots, u, parent, spawn) {
      SlotsKeepEdgeOrder(session, t.run, t.slots, placed + {t.run}, u, parent, spawn, c);
      Wider(session, [], front, back, placed + {t.run}, c, ref);
      assert [] + front + back == Listed(t);
    } else {
      ForestKeepsEdgeOrder(session, t.run, None, children, t.deferred, taken, u, parent, spawn, c);
      HungInForest(t.run, None, t.deferred, u, parent, spawn);
      ForestLists(session, children, t.deferred, taken, ref);
      SlotsStart(session, t.run, t.slots, placed + {t.run});
      Behind(session, front, back, placed + {t.run}, RunsInSlots(t.slots), c, ref);
    }
    HungBelow(session, t, placed, u, parent, spawn);
    TreeLists(session, t, placed, ref);
    RootFirst(session, t, placed, c, ref);
  }

  /** What hangs in a tree is not its root. */
  lemma HungBelow(session: Session, t: Tree, placed: set<RunId>, u: Tree, parent: RunId, spawn: Option<int>)
    requires Grown(session, t, placed) && Hangs(t, u, parent, spawn)
    ensures u.run in Runs(t) && u.run != t.run
  {
    HungInSlots(t.run, t.slots, u, parent, spawn);
    HungInForest(t.run, None, t.deferred, u, parent, spawn);
    SlotsApart(session, t.run, t.slots, placed + {t.run});
    ForestApart(session, Children(session.edges, t.run, None), t.deferred, placed + {t.run} + RunsInSlots(t.slots));
  }

  lemma {:induction false} SlotsKeepEdgeOrder(
    session: Session, run: RunId, s: Slots, placed: set<RunId>, u: Tree, parent: RunId, spawn: Option<int>, c: RunId)
    requires GrownSlots(session, run, s, placed) && run in placed && HangsInSlots(run, s, u, parent, spawn)
    requires Siblings(session, parent, spawn, c, u)
    ensures Before(session, ListedSlots(run, s), placed, c, RunRef(u.run, 0))
    decreases s, 1
  {
    var front, head, back := ListedSlots(run, s.front), [RunRef(run, Width(s.front))], ListedForest(s.children);
    if HangsInSlots(run, s.front, u, parent, spawn) {
      SlotsKeepEdgeOrder(session, run, s.front, placed, u, parent, spawn, c);
      Wider(session, [], front, head + back, placed, c, RunRef(u.run, 0));
      assert [] + front + (head + back) == ListedSlots(run, s);
    } else {
      LastSlotKeepsEdgeOrder(session, run, s, placed, u, parent, spawn, c);
    }
  }

  lemma {:induction false} LastSlotKeepsEdgeOrder(
    session: Session, run: RunId, s: Slots, placed: set<RunId>, u: Tree, parent: RunId, spawn: Option<int>, c: RunId)
    requires s.Slot? && GrownSlots(session, run, s, placed) && run in placed
    requires HangsIn(run, Some(Width(s.front)), s.children, u, parent, spawn)
    requires Siblings(session, parent, spawn, c, u)
    ensures Before(session, ListedSlots(run, s), placed, c, RunRef(u.run, 0))
    decreases s, 0
  {
    var w, ref := Width(s.front), RunRef(u.run, 0);
    var front, head, back := ListedSlots(run, s.front), [RunRef(run, w)], ListedForest(s.children);
    var children, taken := Children(session.edges, run, Some(w)), placed + RunsInSlots(s.front);
    ForestKeepsEdgeOrder(session, run, Some(w), children, s.children, taken, u, parent, spawn, c);
    HungInForest(run, Some(w), s.children, u, parent, spawn);
    ForestLists(session, children, s.children, taken, ref);
    SlotsStart(session, run, s.front, placed);
    Behind(session, front + head, back, placed, RunsInSlots(s.front), c, ref);
  }

  /** Either `u` stands in the forest, or it hangs deeper. */
  lemma {:induction false} StandsOrDeeper(
    run: RunId, at: Option<int>, f: Forest, u: Tree, parent: RunId, spawn: Option<int>)
    requires HangsIn(run, at, f, u, parent, spawn)
    ensures (Stands(f, u) && run == parent && at == spawn) || Deeper(f, u, parent, spawn)
  {
    if HangsIn(run, at, f.front, u, parent, spawn) {
      StandsOrDeeper(run, at, f.front, u, parent, spawn);
    }
  }

  ghost predicate Deeper(f: Forest, u: Tree, parent: RunId, spawn: Option<int>) {
    f.Grow? && (Deeper(f.front, u, parent, spawn) || Hangs(f.last, u, parent, spawn))
  }

  lemma {:induction false} ForestKeepsEdgeOrder(
    session: Session, run: RunId, at: Option<int>, children: seq<RunId>, f: Forest, placed: set<RunId>,
    u: Tree, parent: RunId, spawn: Option<int>, c: RunId)
    requires GrownForest(session, children, f, placed) && children == Children(session.edges, run, at)
    requires HangsIn(run, at, f, u, parent, spawn) && Siblings(session, parent, spawn, c, u)
    ensures Before(session, ListedForest(f), placed, c, RunRef(u.run, 0))
    decreases f, |children| + 1
  {
    StandsOrDeeper(run, at, f, u, parent, spawn);
    if Stands(f, u) && run == parent && at == spawn {
      StandsInOrder(session, children, f, placed, u, c);
    } else {
      DeeperKeepsEdgeOrder(session, children, f, placed, u, parent, spawn, c);
    }
  }

  lemma {:induction false} DeeperKeepsEdgeOrder(
    session: Session, children: seq<RunId>, f: Forest, placed: set<RunId>,
    u: Tree, parent: RunId, spawn: Option<int>, c: RunId)
    requires GrownForest(session, children, f, placed) && Deeper(f, u, parent, spawn)
    requires Siblings(session, parent, spawn, c, u)
    ensures Before(session, ListedForest(f), placed, c, RunRef(u.run, 0))
    decreases f, |children|
  {
    var front, child := children[..|children| - 1], children[|children| - 1];
    if child in placed + RunsIn(f) && GrownForest(session, front, f, placed) {
      DeeperKeepsEdgeOrder(session, front, f, placed, u, parent, spawn, c);
    } else {
      var before, last, ref := ListedForest(f.front), Listed(f.last), RunRef(u.run, 0);
      if Deeper(f.front, u, parent, spawn) {
        DeeperKeepsEdgeOrder(session, front, f.front, placed, u, parent, spawn, c);
        Wider(session, [], before, last, placed, c, ref);
        assert [] + before + last == ListedForest(f);
      } else {
        TreeKeepsEdgeOrder(session, f.last, placed + RunsIn(f.front), u, parent, spawn, c);
        HungListed(f.last, u, parent, spawn);
        TreeLists(session, f.last, placed + RunsIn(f.front), ref);
        ForestStarts(session, front, f.front, placed);
        Behind(session, before, last, placed, RunsIn(f.front), c, ref);
      }
    }
  }

  /** Of two runs spawned by one step, or deferred by one run, the one whose first edge comes first starts first,
      wherever it is spliced. */
  lemma SiblingsInEdgeOrder(session: Session, t: Tree, u: Tree, parent: RunId, spawn: Option<int>, c: RunId)
    requires Grown(session, t, {}) && Hangs(t, u, parent, spawn)
    requires EarlierEdge(session.edges, parent, spawn, c, u.run)
    requires session.steps(c) > 0 && session.steps(u.run) > 0
    ensures Precedes(Listed(t), RunRef(c, 0), RunRef(u.run, 0))
  {
    AheadByEdge(session.edges, parent, spawn, c, u.run);
    TreeKeepsEdgeOrder(session, t, {}, u, parent, spawn, c);
  }

  // ---- splices are recorded edges -------------------------------------------------------------------------

  lemma {:induction false} TreeHangsByEdge(
    session: Session, t: Tree, placed: set<RunId>, u: Tree, parent: RunId, spawn: Option<int>)
    requires Grown(session, t, placed) && Hangs(t, u, parent, spawn)
    ensures Edge(parent, u.run, spawn) in session.edges && Effective(session, Edge(parent, u.run, spawn))
    decreases t, 0
  {
    if HangsInSlots(t.run, t.slots, u, parent, spawn) {
      SlotsHangByEdge(session, t.run, t.slots, placed + {t.run}, u, parent, spawn);
    } else {
      ForestHangsByEdge(session, t.run, None, Children(session.edges, t.run, None), t.deferred,
                        placed + {t.run} + RunsInSlots(t.slots), u, parent, spawn);
    }
  }

  lemma {:induction false} SlotsHangByEdge(
    session: Session, run: RunId, s: Slots, placed: set<RunId>, u: Tree, parent: RunId, spawn: Option<int>)
    requires GrownSlots(session, run, s, placed) && HangsInSlots(run, s, u, parent, spawn)
    requires Width(s) <= session.steps(run)
    ensures Edge(parent, u.run, spawn) in session.edges && Effective(session, Edge(parent, u.run, spawn))
    decreases s, 0
  {
    var w := Width(s.front);
    if HangsInSlots(run, s.front, u, parent, spawn) {
      SlotsHangByEdge(session, run, s.front, placed, u, parent, spawn);
    } else {
      ForestHangsByEdge(session, run, Some(w), Children(session.edges, run, Some(w)), s.children,
                        placed + RunsInSlots(s.front), u, parent, spawn);
    }
  }

  lemma {:induction false} ForestHangsByEdge(
    session: Session, run: RunId, at: Option<int>, children: seq<RunId>, f: Forest, placed: set<RunId>,
    u: Tree, parent: RunId, spawn: Option<int>)
    requires GrownForest(session, children, f, placed) && HangsIn(run, at, f, u, parent, spawn)
    requires forall c :: c in children ==> c in Children(session.edges, run, at)
    requires at.Some? ==> 0 <= at.value < session.steps(run)
    ensures Edge(parent, u.run, spawn) in session.edges && Effective(session, Edge(parent, u.run, spawn))
    decreases f, |children|
  {
    var front, child := children[..|children| - 1], children[|children| - 1];
    if child in placed + RunsIn(f) && GrownForest(session, front, f, placed) {
      ForestHangsByEdge(session, run, at, front, f, placed, u, parent, spawn);
    } else if HangsIn(run, at, f.front, u, parent, spawn) {
      ForestHangsByEdge(session, run, at, front, f.front, placed, u, parent, spawn);
    } else if Hangs(f.last, u, parent, spawn) {
      TreeHangsByEdge(session, f.last, placed + RunsIn(f.front), u, parent, spawn);
    } else {
      ChildrenAre(session.edges, run, at, child);
    }
  }

  /** Every listed run but the root is spliced somewhere. */
  lemma {:induction false} EveryRunHangs(t: Tree, r: RunId) returns (u: Tree, parent: RunId, spawn: Option<int>)
    requires r in Runs(t) && r != t.run
    ensures Hangs(t, u, parent, spawn) && u.run == r
    decreases t
  {
    if r in RunsInSlots(t.slots) {
      u, parent, spawn := SlotRunHangs(t.run, t.slots, r);
    } else {
      u, parent, spawn := ForestRunHangs(t.run, None, t.deferred, r);
    }
  }

  lemma {:induction false} SlotRunHangs(run: RunId, s: Slots, r: RunId)
    returns (u: Tree, parent: RunId, spawn: Option<int>)
    requires r in RunsInSlots(s)
    ensures HangsInSlots(run, s, u, parent, spawn) && u.run == r
    decreases s
  {
    if r in RunsInSlots(s.front) {
      u, parent, spawn := SlotRunHangs(run, s.front, r);
    } else {
      u, parent, spawn := ForestRunHangs(run, Some(Width(s.front)), s.children, r);
    }
  }

  lemma {:induction false} ForestRunHangs(run: RunId, at: Option<int>, f: Forest, r: RunId)
    returns (u: Tree, parent: RunId, spawn: Option<int>)
    requires r in RunsIn(f)
    ensures HangsIn(run, at, f, u, parent, spawn) && u.run == r
    decreases f
  {
    if r in RunsIn(f.front) {
      u, parent, spawn := ForestRunHangs(run, at, f.front, r);
    } else if r == f.last.run {
      u, parent, spawn := f.last, run, at;
    } else {
      u, parent, spawn := EveryRunHangs(f.last, r);
    }
  }

  /** The splices of an order: each reachable run but the root has one, at a recorded edge that its parent's steps
      reach, and there alone is its whole expansion. */
  lemma SplicedAtAnEdge(session: Session, t: Tree, r: RunId) returns (u: Tree, parent: RunId, spawn: Option<int>)
    requires Grown(session, t, {}) && t.run == session.root && Reachable(session, r) && r != session.root
    ensures u.run == r && Hangs(t, u, parent, spawn) && Span(Listed(t), u, parent, spawn)
    ensures Edge(parent, r, spawn) in session.edges && Effective(session, Edge(parent, r, spawn))
  {
    PlacedIffReachable(session, t, r);
    u, parent, spawn := EveryRunHangs(t, r);
    ChildSpan(session, t, {}, u, parent, spawn);
    TreeHangsByEdge(session, t, {}, u, parent, spawn);
  }
}
