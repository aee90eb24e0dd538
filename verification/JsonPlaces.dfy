/** Where differences are reported: exactly at the places where two documents part, each once, in order. */
module JsonPlaces {
  import opened Seqs
  import opened JsonDiff
  import Sorting

  // ---- where two documents part ---------------------------------------------------------------------------

  /** Both sides have a container here, and of one kind: the comparison goes on inside. */
  ghost predicate Alike(x: Option<Json>, y: Option<Json>) {
    x.Some? && y.Some? && ((x.value.List? && y.value.List?) || (x.value.Dict? && y.value.Dict?))
  }

  /** One side has nothing here, or both have something that is neither compared further nor equal in Python's sense. */
  ghost predicate Apart(x: Option<Json>, y: Option<Json>) {
    x.Some? != y.Some? || (x.Some? && y.Some? && !Alike(x, y) && !Same(x.value, y.value))
  }

  /** The documents go together up to `p` and part there. */
  ghost predicate PartAt(a: Json, b: Json, p: seq<Place>) {
    && (forall i :: 0 <= i < |p| ==> Alike(Resolve(a, p[..i]), Resolve(b, p[..i])))
    && Apart(Resolve(a, p), Resolve(b, p))
  }

  ghost predicate Has(ds: seq<Diff>, p: seq<Place>) {
    exists i :: 0 <= i < |ds| && ds[i].path == p
  }

  function Child(doc: Json, k: Place): Option<Json> {
    match k
    case Key(name) => if doc.Dict? && name in doc.fields then Some(doc.fields[name]) else None
    case Index(i) => if doc.List? && i < |doc.items| then Some(doc.items[i]) else None
  }

  lemma ResolveChild(doc: Json, p: seq<Place>)
    requires p != []
    ensures Resolve(doc, p) == if Child(doc, p[0]).Some? then Resolve(Child(doc, p[0]).value, p[1..]) else None
  {
  }

  /** Parting at a place below the root is being alike at the root and parting there one level down. */
  lemma PartBelow(a: Json, b: Json, p: seq<Place>)
    requires p != []
    ensures var x, y := Child(a, p[0]), Child(b, p[0]);
            PartAt(a, b, p) <==>
            && Alike(Some(a), Some(b))
            && (if x.Some? && y.Some? then PartAt(x.value, y.value, p[1..]) else x.Some? != y.Some? && |p| == 1)
  {
    var x, y := Child(a, p[0]), Child(b, p[0]);
    ResolveChild(a, p);
    ResolveChild(b, p);
    assert p[..0] == [] && Resolve(a, []) == Some(a) && Resolve(b, []) == Some(b);
    forall i | 0 < i <= |p|
      ensures p[..i][0] == p[0] && p[..i][1..] == p[1..][..i - 1]
    {
    }
    forall i | 0 < i < |p|
      ensures x.Some? && y.Some? ==>
                (Alike(Resolve(a, p[..i]), Resolve(b, p[..i]))
                 <==> Alike(Resolve(x.value, p[1..][..i - 1]), Resolve(y.value, p[1..][..i - 1])))
      ensures x.None? || y.None? ==> !Alike(Resolve(a, p[..i]), Resolve(b, p[..i]))
    {
      ResolveChild(a, p[..i]);
      ResolveChild(b, p[..i]);
    }
    if x.Some? && y.Some? && Alike(Some(a), Some(b)) {
      PartInside(a, b, p, x.value, y.value);
    }
    if PartAt(a, b, p) {
      assert Alike(Resolve(a, p[..0]), Resolve(b, p[..0]));
      assert |p| > 1 ==> Alike(Resolve(a, p[..1]), Resolve(b, p[..1]));
    }
    if !(x.Some? && y.Some?) && |p| == 1 && Alike(Some(a), Some(b)) {
      assert p[1..] == [];
    }
  }

  lemma PartInside(a: Json, b: Json, p: seq<Place>, x: Json, y: Json)
    requires p != [] && Alike(Some(a), Some(b))
    requires Resolve(a, p) == Resolve(x, p[1..]) && Resolve(b, p) == Resolve(y, p[1..])
    requires forall i :: 0 < i < |p| ==>
               (Alike(Resolve(a, p[..i]), Resolve(b, p[..i]))
                <==> Alike(Resolve(x, p[1..][..i - 1]), Resolve(y, p[1..][..i - 1])))
    ensures PartAt(a, b, p) <==> PartAt(x, y, p[1..])
  {
    assert p[..0] == [];
    if PartAt(a, b, p) {
      forall i | 0 <= i < |p[1..]| ensures Alike(Resolve(x, p[1..][..i]), Resolve(y, p[1..][..i])) {
        assert Alike(Resolve(a, p[..i + 1]), Resolve(b, p[..i + 1]));
      }
    }
    if PartAt(x, y, p[1..]) {
      forall i | 0 <= i < |p| ensures Alike(Resolve(a, p[..i]), Resolve(b, p[..i])) {
        if i > 0 {
          assert Alike(Resolve(x, p[1..][..i - 1]), Resolve(y, p[1..][..i - 1]));
        }
      }
    }
  }

  // ---- which places are reported --------------------------------------------------------------------------

  lemma HasUnder(k: Place, ds: seq<Diff>, p: seq<Place>)
    ensures Has(Under(k, ds), p) <==> p != [] && p[0] == k && Has(ds, p[1..])
  {
    var under := Under(k, ds);
    if Has(under, p) {
      var i :| 0 <= i < |under| && under[i].path == p;
      assert p[1..] == ds[i].path;
    }
    if p != [] && p[0] == k && Has(ds, p[1..]) {
      var i :| 0 <= i < |ds| && ds[i].path == p[1..];
      assert under[i].path == [k] + p[1..] == p;
    }
  }

  lemma HasAppend(a: seq<Diff>, b: seq<Diff>, p: seq<Place>)
    ensures Has(a + b, p) <==> Has(a, p) || Has(b, p)
  {
    if i :| 0 <= i < |a| && a[i].path == p {
      assert (a + b)[i].path == p;
    }
    if i :| 0 <= i < |b| && b[i].path == p {
      assert (a + b)[|a| + i].path == p;
    }
  }

  lemma {:induction false} HasDict(a: Json, b: Json, keys: seq<string>, p: seq<Place>)
    ensures Has(DictDiffs(a, b, keys), p) <==>
            p != [] && p[0].Key? && p[0].name in keys && Has(AtKey(a, b, p[0].name), p[1..])
    decreases |keys|
  {
    if keys != [] {
      var front, k := keys[..|keys| - 1], keys[|keys| - 1];
      HasDict(a, b, front, p);
      HasUnder(Key(k), AtKey(a, b, k), p);
      HasAppend(DictDiffs(a, b, front), Under(Key(k), AtKey(a, b, k)), p);
      assert keys == front + [k];
    }
  }

  lemma {:induction false} HasList(a: Json, b: Json, n: nat, p: seq<Place>)
    ensures Has(ListDiffs(a, b, n), p) <==>
            p != [] && p[0].Index? && p[0].i < n && Has(AtIndex(a, b, p[0].i), p[1..])
    decreases n
  {
    if n > 0 {
      HasList(a, b, n - 1, p);
      HasUnder(Index(n - 1), AtIndex(a, b, n - 1), p);
      HasAppend(ListDiffs(a, b, n - 1), Under(Index(n - 1), AtIndex(a, b, n - 1)), p);
    }
  }

  ghost function AtPlace(a: Json, b: Json, k: Place): seq<Diff> {
    match k
    case Key(name) => AtKey(a, b, name)
    case Index(i) => AtIndex(a, b, i)
  }

  /** A reported place is the root where the comparison stops, or lies below one of its members. */
  lemma HasBelow(a: Json, b: Json, p: seq<Place>)
    ensures Alike(Some(a), Some(b)) ==> (Has(Diffs(a, b), p) <==> p != [] && Has(AtPlace(a, b, p[0]), p[1..]))
    ensures !Alike(Some(a), Some(b)) ==> (Has(Diffs(a, b), p) <==> p == [] && !Same(a, b))
  {
    match (a, b)
    case (Dict(f), Dict(g)) =>
      var all := f.Keys + g.Keys;
      InOrderHolds(all);
      HasDict(a, b, InOrder(all), p);
      if p != [] && p[0].Key? {
        assert p[0].name in InOrder(all) <==> p[0].name in Members(InOrder(all));
      }
    case (List(s), List(t)) =>
      HasList(a, b, Max(|s|, |t|), p);
    case _ =>
      if !Same(a, b) {
        assert Diffs(a, b)[0].path == [];
      }
  }

  lemma AtPlaceIs(a: Json, b: Json, k: Place)
    requires Alike(Some(a), Some(b))
    ensures var x, y := Child(a, k), Child(b, k);
            AtPlace(a, b, k) == if x.Some? && y.Some? then Diffs(x.value, y.value)
                                else if x.Some? || y.Some? then [Diff([], x, y)] else []
  {
  }

  /** A difference is reported at a place if and only if the documents part there. */
  lemma {:induction false} ReportedIffPart(a: Json, b: Json, p: seq<Place>)
    ensures Has(Diffs(a, b), p) <==> PartAt(a, b, p)
    decreases |p|
  {
    HasBelow(a, b, p);
    if p == [] {
      assert Resolve(a, []) == Some(a) && Resolve(b, []) == Some(b);
    } else {
      var x, y := Child(a, p[0]), Child(b, p[0]);
      PartBelow(a, b, p);
      if Alike(Some(a), Some(b)) {
        AtPlaceIs(a, b, p[0]);
        if x.Some? && y.Some? {
          ReportedIffPart(x.value, y.value, p[1..]);
        } else {
          HasOne(Diff([], x, y), p[1..]);
        }
      }
    }
  }

  lemma HasOne(d: Diff, p: seq<Place>)
    ensures Has([d], p) <==> p == d.path
  {
    assert [d][0].path == d.path;
  }

  // ---- their order ----------------------------------------------------------------------------------------

  /** Keys by code point, indices by number. */
  predicate PlaceBefore(j: Place, k: Place) {
    match (j, k)
    case (Key(x), Key(y)) => x != y && AtMost(x, y)
    case (Index(x), Index(y)) => x < y
    case _ => false
  }

  /** `p` comes first: the two agree up to a place where its own comes first. */
  predicate PathBefore(p: seq<Place>, q: seq<Place>) {
    p != [] && q != [] && (PlaceBefore(p[0], q[0]) || (p[0] == q[0] && PathBefore(p[1..], q[1..])))
  }

  ghost predicate Ascends(ds: seq<Diff>) {
    forall i, j :: 0 <= i < j < |ds| ==> PathBefore(ds[i].path, ds[j].path)
  }

  lemma {:induction false} NotBeforeItself(p: seq<Place>)
    ensures !PathBefore(p, p)
  {
    if p != [] {
      NotBeforeItself(p[1..]);
    }
  }

  lemma UnderAscends(k: Place, ds: seq<Diff>)
    requires Ascends(ds)
    ensures Ascends(Under(k, ds))
  {
    var under := Under(k, ds);
    forall i, j | 0 <= i < j < |under| ensures PathBefore(under[i].path, under[j].path) {
      assert ([k] + ds[i].path)[1..] == ds[i].path && ([k] + ds[j].path)[1..] == ds[j].path;
    }
  }

  /** Every path of `ds` starts with a place before `k`. */
  ghost predicate StartBefore(ds: seq<Diff>, k: Place) {
    forall i :: 0 <= i < |ds| ==> ds[i].path != [] && PlaceBefore(ds[i].path[0], k)
  }

  lemma AppendAscends(ds: seq<Diff>, k: Place, more: seq<Diff>)
    requires Ascends(ds) && StartBefore(ds, k) && Ascends(more)
    ensures Ascends(ds + Under(k, more))
  {
    var under, all := Under(k, more), ds + Under(k, more);
    UnderAscends(k, more);
    forall i, j | 0 <= i < j < |all| ensures PathBefore(all[i].path, all[j].path) {
      if j < |ds| {
        assert all[i] == ds[i] && all[j] == ds[j];
      } else if i >= |ds| {
        assert all[i] == under[i - |ds|] && all[j] == under[j - |ds|];
      } else {
        assert all[i] == ds[i] && all[j].path[0] == k;
      }
    }
  }

  /** The differences come in the order of their places, so none is reported twice. */
  lemma {:induction false} DiffsAscend(a: Json, b: Json)
    ensures Ascends(Diffs(a, b))
    decreases a, 1, 0
  {
    match (a, b)
    case (Dict(f), Dict(g)) =>
      InOrderHolds(f.Keys + g.Keys);
      DictAscends(a, b, InOrder(f.Keys + g.Keys));
    case (List(s), List(t)) => ListAscends(a, b, Max(|s|, |t|));
    case _ =>
  }

  lemma {:induction false} AtPlaceAscends(a: Json, b: Json, k: Place)
    ensures Ascends(AtPlace(a, b, k))
    decreases a, 0, 0
  {
    if Alike(Some(a), Some(b)) {
      AtPlaceIs(a, b, k);
      if Child(a, k).Some? && Child(b, k).Some? {
        DiffsAscend(Child(a, k).value, Child(b, k).value);
      }
    }
  }

  lemma {:induction false} DictAscends(a: Json, b: Json, keys: seq<string>)
    requires Distinct(keys) && Sorting.Sorted(AtMost, keys)
    ensures Ascends(DictDiffs(a, b, keys))
    decreases a, 0, |keys| + 1
  {
    if keys != [] {
      var front, k := keys[..|keys| - 1], keys[|keys| - 1];
      DictAscends(a, b, front);
      AtPlaceAscends(a, b, Key(k));
      DictStarts(a, b, front, k);
      AppendAscends(DictDiffs(a, b, front), Key(k), AtKey(a, b, k));
    }
  }

  lemma DictStarts(a: Json, b: Json, keys: seq<string>, k: string)
    requires forall i :: 0 <= i < |keys| ==> keys[i] != k && AtMost(keys[i], k)
    ensures StartBefore(DictDiffs(a, b, keys), Key(k))
  {
    var ds := DictDiffs(a, b, keys);
    forall i | 0 <= i < |ds| ensures ds[i].path != [] && PlaceBefore(ds[i].path[0], Key(k)) {
      assert Has(ds, ds[i].path);
      HasDict(a, b, keys, ds[i].path);
    }
  }

  lemma {:induction false} ListAscends(a: Json, b: Json, n: nat)
    ensures Ascends(ListDiffs(a, b, n))
    decreases a, 0, n + 1
  {
    if n > 0 {
      ListAscends(a, b, n - 1);
      AtPlaceAscends(a, b, Index(n - 1));
      ListStarts(a, b, n - 1);
      AppendAscends(ListDiffs(a, b, n - 1), Index(n - 1), AtIndex(a, b, n - 1));
    }
  }

  lemma ListStarts(a: Json, b: Json, n: nat)
    ensures StartBefore(ListDiffs(a, b, n), Index(n))
  {
    var ds := ListDiffs(a, b, n);
    forall i | 0 <= i < |ds| ensures ds[i].path != [] && PlaceBefore(ds[i].path[0], Index(n)) {
      assert Has(ds, ds[i].path);
      HasList(a, b, n, ds[i].path);
    }
  }

  /** No place is reported twice. */
  lemma ReportedOnce(a: Json, b: Json, i: nat, j: nat)
    requires i < |Diffs(a, b)| && j < |Diffs(a, b)|
    ensures Diffs(a, b)[i].path == Diffs(a, b)[j].path ==> i == j
  {
    DiffsAscend(a, b);
    NotBeforeItself(Diffs(a, b)[i].path);
  }
}
