/** Structural comparison of two JSON documents: which leaves differ, where, and on which side they exist. */
module JsonDiff {
  import opened Seqs
  import Sorting
  import opened Text

  /** Parsed scalars; `NotANumber` is the float that is unequal to itself. */
  datatype Leaf = Null | Bool(b: bool) | Number(n: real) | NotANumber | Str(s: string)

  datatype Json = Scalar(leaf: Leaf) | List(items: seq<Json>) | Dict(fields: map<string, Json>)

  /** `==` on scalars: booleans compare as the numbers 0 and 1. */
  predicate PyEqual(a: Leaf, b: Leaf) {
    match (a, b)
    case (NotANumber, _) => false
    case (_, NotANumber) => false
    case (Bool(p), Number(x)) => x == if p then 1.0 else 0.0
    case (Number(x), Bool(p)) => x == if p then 1.0 else 0.0
    case _ => a == b
  }

  /** What a scalar counts as a number. */
  function AsNumber(x: Leaf): Option<real> {
    match x
    case Bool(b) => Some(if b then 1.0 else 0.0)
    case Number(n) => Some(n)
    case _ => None
  }

  /** Two scalars are equal as numbers, or else are the same scalar and not the one that equals nothing. */
  lemma PyEqualIff(x: Leaf, y: Leaf)
    ensures PyEqual(x, y) <==>
            if AsNumber(x).Some? then AsNumber(x) == AsNumber(y) else x == y && !x.NotANumber?
  {
  }

  type Relation = (Leaf, Leaf) -> bool

  /** The documents have the same shape and related leaves. */
  ghost predicate Related(rel: Relation, a: Json, b: Json)
    decreases a
  {
    match (a, b)
    case (Scalar(x), Scalar(y)) => rel(x, y)
    case (List(s), List(t)) => |s| == |t| && forall i :: 0 <= i < |s| ==> Related(rel, s[i], t[i])
    case (Dict(f), Dict(g)) => f.Keys == g.Keys && forall k :: k in f && k in g ==> Related(rel, f[k], g[k])
    case _ => false
  }

  /** Python's equality, leaf by leaf. */
  ghost predicate Same(a: Json, b: Json) {
    Related(PyEqual, a, b)
  }

  predicate EqualOrIdentical(x: Leaf, y: Leaf) {
    x == y || PyEqual(x, y)
  }

  /** The same up to leaves Python takes for equal. */
  ghost predicate Agrees(a: Json, b: Json) {
    Related(EqualOrIdentical, a, b)
  }

  lemma {:induction false} AgreesWithItself(a: Json)
    ensures Agrees(a, a)
    decreases a
  {
    match a
    case Scalar(_) =>
    case List(s) =>
      forall i | 0 <= i < |s| ensures Agrees(s[i], s[i]) {
        AgreesWithItself(s[i]);
      }
    case Dict(f) =>
      forall k | k in f ensures Agrees(f[k], f[k]) {
        AgreesWithItself(f[k]);
      }
  }

  // ---- keys in order --------------------------------------------------------------------------------------

  /** Code-point order on strings. */
  predicate AtMost(a: string, b: string) {
    if a == "" then true
    else if b == "" then false
    else if a[0] != b[0] then a[0] < b[0]
    else AtMost(a[1..], b[1..])
  }

  /** `a` and `b` first part at `i`, where `a` has the smaller character. */
  ghost predicate PartsAt(a: string, b: string, i: int) {
    0 <= i < |a| && i < |b| && a[..i] == b[..i] && a[i] < b[i]
  }

  ghost predicate PartsBelow(a: string, b: string) {
    exists i :: PartsAt(a, b, i)
  }

  lemma PartsNext(c: char, a: string, b: string, i: nat)
    ensures PartsAt([c] + a, [c] + b, i + 1) <==> PartsAt(a, b, i)
  {
    if i <= |a| && i <= |b| {
      assert ([c] + a)[..i + 1] == [c] + a[..i] && ([c] + b)[..i + 1] == [c] + b[..i];
      assert ([c] + a[..i])[1..] == a[..i] && ([c] + b[..i])[1..] == b[..i];
    }
  }

  lemma PartsBehind(c: char, a: string, b: string)
    ensures PartsBelow([c] + a, [c] + b) <==> PartsBelow(a, b)
    ensures [c] + a <= [c] + b <==> a <= b
  {
    assert ([c] + a)[1..] == a && ([c] + b)[1..] == b;
    if i :| PartsAt(a, b, i) {
      PartsNext(c, a, b, i);
    }
    if i :| PartsAt([c] + a, [c] + b, i) {
      PartsNext(c, a, b, i - 1);
    }
  }

  lemma PartsAtOnce(a: string, b: string)
    requires a != "" && b != "" && a[0] != b[0]
    ensures PartsBelow(a, b) <==> a[0] < b[0]
    ensures !(a <= b)
  {
    if a[0] < b[0] {
      assert PartsAt(a, b, 0);
    }
    if i :| PartsAt(a, b, i) {
      assert i > 0 ==> a[..i][0] == b[..i][0];
    }
  }

  /** One string is at most another if it begins it or is smaller where they first part. */
  lemma {:induction false} AtMostIff(a: string, b: string)
    ensures AtMost(a, b) <==> a <= b || PartsBelow(a, b)
  {
    if a != "" && b != "" {
      if a[0] == b[0] {
        AtMostIff(a[1..], b[1..]);
        PartsBehind(a[0], a[1..], b[1..]);
        assert [a[0]] + a[1..] == a && [b[0]] + b[1..] == b;
      } else {
        PartsAtOnce(a, b);
      }
    }
  }

  lemma {:induction false} AtMostTotal(a: string, b: string)
    ensures AtMost(a, b) || AtMost(b, a)
    ensures AtMost(a, b) && AtMost(b, a) ==> a == b
  {
    if a != "" && b != "" && a[0] == b[0] {
      AtMostTotal(a[1..], b[1..]);
      assert a == [a[0]] + a[1..] && b == [b[0]] + b[1..];
    }
  }

  lemma {:induction false} AtMostTransitive(a: string, b: string, c: string)
    requires AtMost(a, b) && AtMost(b, c)
    ensures AtMost(a, c)
  {
    if a != "" && b != "" && c != "" && a[0] == b[0] == c[0] {
      AtMostTransitive(a[1..], b[1..], c[1..]);
    }
  }

  lemma AtMostIsPreorder()
    ensures Sorting.TotalPreorder(AtMost)
  {
    forall a, b ensures AtMost(a, b) || AtMost(b, a) {
      AtMostTotal(a, b);
    }
    forall a, b, c | AtMost(a, b) && AtMost(b, c) ensures AtMost(a, c) {
      AtMostTransitive(a, b, c);
    }
  }

  ghost predicate Enumerates(keys: seq<string>, all: set<string>) {
    Distinct(keys) && Members(keys) == all
  }

  /** `sorted(keys)` */
  ghost predicate IsSorted(keys: seq<string>, all: set<string>) {
    Enumerates(keys, all) && Sorting.Sorted(AtMost, keys)
  }

  lemma SortEnumerates(listed: seq<string>, all: set<string>)
    requires Enumerates(listed, all)
    ensures IsSorted(Sorting.Sort(AtMost, listed), all)
  {
    AtMostIsPreorder();
    Sorting.SortIsSorted(AtMost, listed);
    MultisetDistinct(listed, Sorting.Sort(AtMost, listed));
    assert Members(Sorting.Sort(AtMost, listed)) == Members(listed);
  }

  method SortedKeys(all: set<string>) returns (keys: seq<string>)
    ensures IsSorted(keys, all)
  {
    var listed: seq<string> := [];
    var rest := all;
    while rest != {}
      invariant Distinct(listed) && Members(listed) == all - rest && rest <= all
      decreases |rest|
    {
      var k :| k in rest;
      assert k !in Members(listed);
      DistinctAppend(listed, [k]);
      assert Members(listed + [k]) == Members(listed) + {k};
      listed, rest := listed + [k], rest - {k};
    }
    SortEnumerates(listed, all);
    return Sorting.Sort(AtMost, listed);
  }

  /** There is only one sorted list of a set of keys. */
  lemma {:induction false} SortedUnique(a: seq<string>, b: seq<string>, all: set<string>)
    requires IsSorted(a, all) && IsSorted(b, all)
    ensures a == b
    decreases |a|
  {
    DistinctCount(a);
    DistinctCount(b);
    if a != [] {
      assert a[0] in Members(b) && b[0] in Members(a);
      var i :| 0 <= i < |b| && b[i] == a[0];
      var j :| 0 <= j < |a| && a[j] == b[0];
      assert i == 0 || AtMost(b[0], b[i]);
      assert j == 0 || AtMost(a[0], a[j]);
      AtMostTotal(a[0], b[0]);
      TailSorted(a, all);
      TailSorted(b, all);
      SortedUnique(a[1..], b[1..], all - {a[0]});
      assert a == [a[0]] + a[1..] && b == [b[0]] + b[1..];
    }
  }

  lemma TailSorted(a: seq<string>, all: set<string>)
    requires IsSorted(a, all) && a != []
    ensures IsSorted(a[1..], all - {a[0]})
  {
    assert a == [a[0]] + a[1..];
    assert a[0] !in a[1..];
    assert Members(a) == {a[0]} + Members(a[1..]);
  }

  lemma SortedExists(all: set<string>) returns (keys: seq<string>)
    ensures IsSorted(keys, all)
  {
    var listed := ListOf(all);
    SortEnumerates(listed, all);
    keys := Sorting.Sort(AtMost, listed);
  }

  lemma {:induction false} ListOf(all: set<string>) returns (listed: seq<string>)
    ensures Enumerates(listed, all)
  {
    if all == {} {
      listed := [];
    } else {
      var k :| k in all;
      var rest := ListOf(all - {k});
      assert k !in Members(rest);
      DistinctAppend(rest, [k]);
      listed := rest + [k];
      assert Members(listed) == Members(rest) + {k};
    }
  }

  /** The keys of a set in order, as a value. */
  ghost function InOrder(all: set<string>): seq<string> {
    SomeSorted(all);
    var keys :| IsSorted(keys, all);
    keys
  }

  lemma SomeSorted(all: set<string>)
    ensures exists keys :: IsSorted(keys, all)
  {
    var keys := SortedExists(all);
  }

  lemma InOrderHolds(all: set<string>)
    ensures IsSorted(InOrder(all), all)
  {
    SomeSorted(all);
  }

  // ---- differences ----------------------------------------------------------------------------------------

  datatype Place = Key(name: string) | Index(i: nat)

  /** One difference, with the absent side as `None`. */
  datatype Diff = Diff(path: seq<Place>, recorded: Option<Json>, live: Option<Json>)

  function Under(p: Place, ds: seq<Diff>): (r: seq<Diff>)
    ensures |r| == |ds| && forall i :: 0 <= i < |ds| ==> r[i] == ds[i].(path := [p] + ds[i].path)
  {
    seq(|ds|, i requires 0 <= i < |ds| => ds[i].(path := [p] + ds[i].path))
  }

  ghost function Diffs(a: Json, b: Json): seq<Diff>
    decreases a, 1, 0
  {
    match (a, b)
    case (Dict(f), Dict(g)) => DictDiffs(a, b, InOrder(f.Keys + g.Keys))
    case (List(s), List(t)) => ListDiffs(a, b, Max(|s|, |t|))
    case _ => if a.Scalar? && b.Scalar? && PyEqual(a.leaf, b.leaf) then [] else [Diff([], Some(a), Some(b))]
  }

  function Max(a: nat, b: nat): nat {
    if a >= b then a else b
  }

  /** The differences at some keys, in their order. */
  ghost function DictDiffs(a: Json, b: Json, keys: seq<string>): seq<Diff>
    decreases a, 0, |keys|
  {
    if keys == [] then []
    else
      var k := keys[|keys| - 1];
      DictDiffs(a, b, keys[..|keys| - 1]) + Under(Key(k), AtKey(a, b, k))
  }

  ghost function AtKey(a: Json, b: Json, k: string): seq<Diff>
    decreases a, 0, 0
  {
    if !a.Dict? || !b.Dict? then []
    else if k !in a.fields then (if k in b.fields then [Diff([], None, Some(b.fields[k]))] else [])
    else if k !in b.fields then [Diff([], Some(a.fields[k]), None)]
    else Diffs(a.fields[k], b.fields[k])
  }

  /** The differences at the first `n` indices. */
  ghost function ListDiffs(a: Json, b: Json, n: nat): seq<Diff>
    decreases a, 0, n
  {
    if n == 0 then [] else ListDiffs(a, b, n - 1) + Under(Index(n - 1), AtIndex(a, b, n - 1))
  }

  ghost function AtIndex(a: Json, b: Json, i: nat): seq<Diff>
    decreases a, 0, 0
  {
    if !a.List? || !b.List? then []
    else if i >= |a.items| then (if i < |b.items| then [Diff([], None, Some(b.items[i]))] else [])
    else if i >= |b.items| then [Diff([], Some(a.items[i]), None)]
    else Diffs(a.items[i], b.items[i])
  }

  // ---- the reported form ----------------------------------------------------------------------------------

  /** The sentinel for an absent side is a string like any other. */
  const MISSING := Scalar(Str("\U{2205}"))

  datatype FieldDiff = FieldDiff(path: string, recorded: Json, live: Json)

  function PrintPlace(p: Place): string {
    match p
    case Key(name) => "." + name
    case Index(i) => "[" + Decimal(i) + "]"
  }

  function PrintPath(path: seq<Place>): string {
    if path == [] then "" else PrintPlace(path[0]) + PrintPath(path[1..])
  }

  function Shown(v: Option<Json>): Json {
    if v.Some? then v.value else MISSING
  }

  function Report(path: string, d: Diff): FieldDiff {
    FieldDiff(path + PrintPath(d.path), Shown(d.recorded), Shown(d.live))
  }

  function Reports(path: string, ds: seq<Diff>): (r: seq<FieldDiff>)
    ensures |r| == |ds| && forall i :: 0 <= i < |ds| ==> r[i] == Report(path, ds[i])
  {
    seq(|ds|, i requires 0 <= i < |ds| => Report(path, ds[i]))
  }

  lemma PrintUnder(path: string, p: Place, rest: seq<Place>)
    ensures path + PrintPath([p] + rest) == path + PrintPlace(p) + PrintPath(rest)
  {
    assert ([p] + rest)[1..] == rest;
    Associates(path, PrintPlace(p), PrintPath(rest));
  }

  lemma Associates(a: string, b: string, c: string)
    ensures a + (b + c) == a + b + c
  {
  }

  lemma ReportsUnder(path: string, p: Place, ds: seq<Diff>)
    ensures Reports(path, Under(p, ds)) == Reports(path + PrintPlace(p), ds)
  {
    forall i | 0 <= i < |ds| ensures Report(path, Under(p, ds)[i]) == Report(path + PrintPlace(p), ds[i]) {
      PrintUnder(path, p, ds[i].path);
    }
  }

  lemma ReportsAppend(path: string, a: seq<Diff>, b: seq<Diff>)
    ensures Reports(path, a + b) == Reports(path, a) + Reports(path, b)
  {
  }

  /** The comparison as it runs, with the path built up as text. */
  method DiffJson(recorded: Json, live: Json, path: string) returns (diffs: seq<FieldDiff>)
    ensures diffs == Reports(path, Diffs(recorded, live))
    decreases recorded, 1
  {
    if recorded.Dict? && live.Dict? {
      diffs := DiffDict(recorded, live, path);
      return;
    }
    if recorded.List? && live.List? {
      diffs := DiffList(recorded, live, path);
      return;
    }
    if recorded.Scalar? && live.Scalar? && PyEqual(recorded.leaf, live.leaf) {
      return [];
    }
    assert path + PrintPath([]) == path;
    return [FieldDiff(path, recorded, live)];
  }

  method DiffDict(recorded: Json, live: Json, path: string) returns (diffs: seq<FieldDiff>)
    requires recorded.Dict? && live.Dict?
    ensures diffs == Reports(path, Diffs(recorded, live))
    decreases recorded, 0, 2
  {
    var all := recorded.fields.Keys + live.fields.Keys;
    var keys := SortedKeys(all);
    InOrderHolds(all);
    SortedUnique(keys, InOrder(all), all);
    forall k | k in keys ensures k in recorded.fields || k in live.fields {
      assert k in Members(keys);
    }
    diffs := DiffKeys(recorded, live, keys, path);
  }

  method DiffKeys(recorded: Json, live: Json, keys: seq<string>, path: string) returns (diffs: seq<FieldDiff>)
    requires recorded.Dict? && live.Dict? && forall k :: k in keys ==> k in recorded.fields || k in live.fields
    ensures diffs == Reports(path, DictDiffs(recorded, live, keys))
    decreases recorded, 0, 1
  {
    diffs := [];
    for n := 0 to |keys|
      invariant diffs == Reports(path, DictDiffs(recorded, live, keys[..n]))
    {
      var found := DiffKey(recorded, live, keys[n], path);
      ReportsAppend(path, DictDiffs(recorded, live, keys[..n]), Under(Key(keys[n]), AtKey(recorded, live, keys[n])));
      assert keys[..n + 1][..n] == keys[..n];
      diffs := diffs + found;
    }
    assert keys[..|keys|] == keys;
  }

  method DiffKey(recorded: Json, live: Json, key: string, path: string) returns (found: seq<FieldDiff>)
    requires recorded.Dict? && live.Dict? && (key in recorded.fields || key in live.fields)
    ensures found == Reports(path, Under(Key(key), AtKey(recorded, live, key)))
    decreases recorded, 0, 0
  {
    var child := path + PrintPlace(Key(key));
    ReportsUnder(path, Key(key), AtKey(recorded, live, key));
    assert child + PrintPath([]) == child;
    if key !in recorded.fields {
      found := [FieldDiff(child, MISSING, live.fields[key])];
    } else if key !in live.fields {
      found := [FieldDiff(child, recorded.fields[key], MISSING)];
    } else {
      found := DiffJson(recorded.fields[key], live.fields[key], child);
    }
  }

  method DiffList(recorded: Json, live: Json, path: string) returns (diffs: seq<FieldDiff>)
    requires recorded.List? && live.List?
    ensures diffs == Reports(path, Diffs(recorded, live))
    decreases recorded, 0, 1
  {
    diffs := [];
    for i := 0 to Max(|recorded.items|, |live.items|)
      invariant diffs == Reports(path, ListDiffs(recorded, live, i))
    {
      var found := DiffIndex(recorded, live, i, path);
      ReportsAppend(path, ListDiffs(recorded, live, i), Under(Index(i), AtIndex(recorded, live, i)));
      diffs := diffs + found;
    }
  }

  method DiffIndex(recorded: Json, live: Json, i: nat, path: string) returns (found: seq<FieldDiff>)
    requires recorded.List? && live.List? && i < Max(|recorded.items|, |live.items|)
    ensures found == Reports(path, Under(Index(i), AtIndex(recorded, live, i)))
    decreases recorded, 0, 0
  {
    var child := path + PrintPlace(Index(i));
    ReportsUnder(path, Index(i), AtIndex(recorded, live, i));
    assert child + PrintPath([]) == child;
    if i >= |recorded.items| {
      found := [FieldDiff(child, MISSING, live.items[i])];
    } else if i >= |live.items| {
      found := [FieldDiff(child, recorded.items[i], MISSING)];
    } else {
      found := DiffJson(recorded.items[i], live.items[i], child);
    }
  }

  // ---- no difference means equal --------------------------------------------------------------------------

  lemma {:induction false} NoDictDiffs(a: Json, b: Json, keys: seq<string>)
    requires a.Dict? && b.Dict?
    ensures DictDiffs(a, b, keys) == [] <==> forall k :: k in keys ==> AtKey(a, b, k) == []
    decreases |keys|
  {
    if keys != [] {
      var front, last := keys[..|keys| - 1], keys[|keys| - 1];
      NoDictDiffs(a, b, front);
      assert |DictDiffs(a, b, keys)| == |DictDiffs(a, b, front)| + |AtKey(a, b, last)|;
      forall k ensures k in keys <==> k in front || k == last {
        assert keys == front + [last];
      }
    }
  }

  lemma {:induction false} NoListDiffs(a: Json, b: Json, n: nat)
    requires a.List? && b.List?
    ensures ListDiffs(a, b, n) == [] <==> forall i :: 0 <= i < n ==> AtIndex(a, b, i) == []
    decreases n
  {
    if n > 0 {
      NoListDiffs(a, b, n - 1);
      assert |Under(Index(n - 1), AtIndex(a, b, n - 1))| == |AtIndex(a, b, n - 1)|;
    }
  }

  /** The comparison finds nothing exactly for documents that are equal in Python's sense, key order and
      container identity aside. */
  lemma {:induction false} EmptyIffSame(a: Json, b: Json)
    ensures Diffs(a, b) == [] <==> Same(a, b)
    decreases a
  {
    match (a, b)
    case (Dict(f), Dict(g)) => EmptyIffSameDict(a, b);
    case (List(s), List(t)) => EmptyIffSameList(a, b);
    case _ =>
  }

  lemma {:induction false} EmptyIffSameDict(a: Json, b: Json)
    requires a.Dict? && b.Dict?
    ensures Diffs(a, b) == [] <==> Same(a, b)
    decreases a, 0
  {
    NoDiffsAtKeys(a, b);
    forall k | k in a.fields && k in b.fields
      ensures AtKey(a, b, k) == [] <==> Same(a.fields[k], b.fields[k])
    {
      EmptyIffSame(a.fields[k], b.fields[k]);
    }
    if Diffs(a, b) == [] {
      forall k ensures k in a.fields <==> k in b.fields {
        assert k in a.fields || k in b.fields ==> AtKey(a, b, k) == [];
      }
    }
  }

  lemma NoDiffsAtKeys(a: Json, b: Json)
    requires a.Dict? && b.Dict?
    ensures Diffs(a, b) == [] <==> forall k :: k in a.fields || k in b.fields ==> AtKey(a, b, k) == []
  {
    var all := a.fields.Keys + b.fields.Keys;
    NoDictDiffs(a, b, InOrder(all));
    InOrderHolds(all);
    assert forall k :: k in InOrder(all) <==> k in Members(InOrder(all));
  }

  lemma {:induction false} EmptyIffSameList(a: Json, b: Json)
    requires a.List? && b.List?
    ensures Diffs(a, b) == [] <==> Same(a, b)
    decreases a, 0
  {
    var n := Max(|a.items|, |b.items|);
    assert Diffs(a, b) == ListDiffs(a, b, n);
    NoListDiffs(a, b, n);
    if |a.items| != |b.items| {
      assert AtIndex(a, b, n - 1) != [];
    } else {
      forall i | 0 <= i < n ensures SameAt(a, b, i) <==> AtIndex(a, b, i) == [] {
        EmptyIffSame(a.items[i], b.items[i]);
      }
      SameItems(a, b, n);
      if Diffs(a, b) == [] {
        forall i | 0 <= i < n ensures SameAt(a, b, i) {
          assert AtIndex(a, b, i) == [];
        }
      }
      if Same(a, b) {
        forall i | 0 <= i < n ensures AtIndex(a, b, i) == [] {
          assert SameAt(a, b, i);
        }
      }
    }
  }

  ghost predicate SameAt(a: Json, b: Json, i: nat)
    requires a.List? && b.List? && i < |a.items| && i < |b.items|
  {
    Same(a.items[i], b.items[i])
  }

  lemma SameItems(a: Json, b: Json, n: nat)
    requires a.List? && b.List? && |a.items| == |b.items| == n
    ensures Same(a, b) <==> forall i :: 0 <= i < n ==> SameAt(a, b, i)
  {
    if forall i :: 0 <= i < n ==> SameAt(a, b, i) {
      forall i | 0 <= i < n ensures Related(PyEqual, a.items[i], b.items[i]) {
        assert SameAt(a, b, i);
      }
    }
  }

  // ---- what a difference reports --------------------------------------------------------------------------

  /** The value at a path, if the document has it. */
  function Resolve(doc: Json, path: seq<Place>): Option<Json> {
    if path == [] then Some(doc)
    else
      match path[0]
      case Key(name) => if doc.Dict? && name in doc.fields then Resolve(doc.fields[name], path[1..]) else None
      case Index(i) => if doc.List? && i < |doc.items| then Resolve(doc.items[i], path[1..]) else None
  }

  /** A difference reports each side's own value at its path, and absence exactly where the path does not
      resolve. */
  ghost predicate Accurate(a: Json, b: Json, d: Diff) {
    Resolve(a, d.path) == d.recorded && Resolve(b, d.path) == d.live
  }

  ghost predicate AllAccurate(a: Json, b: Json, ds: seq<Diff>) {
    forall d :: d in ds ==> Accurate(a, b, d)
  }

  lemma {:induction false} DiffsAreAccurate(a: Json, b: Json)
    ensures AllAccurate(a, b, Diffs(a, b))
    decreases a, 1, 0
  {
    match (a, b)
    case (Dict(f), Dict(g)) => DictAccurate(a, b, InOrder(f.Keys + g.Keys));
    case (List(s), List(t)) => ListAccurate(a, b, Max(|s|, |t|));
    case _ =>
  }

  lemma {:induction false} DictAccurate(a: Json, b: Json, keys: seq<string>)
    requires a.Dict? && b.Dict?
    ensures AllAccurate(a, b, DictDiffs(a, b, keys))
    decreases a, 0, |keys|
  {
    if keys != [] {
      var k := keys[|keys| - 1];
      DictAccurate(a, b, keys[..|keys| - 1]);
      if k in a.fields && k in b.fields {
        DiffsAreAccurate(a.fields[k], b.fields[k]);
      }
      UnderKey(a, b, k);
    }
  }

  lemma UnderKey(a: Json, b: Json, k: string)
    requires a.Dict? && b.Dict?
    requires k in a.fields && k in b.fields ==> AllAccurate(a.fields[k], b.fields[k], Diffs(a.fields[k], b.fields[k]))
    ensures AllAccurate(a, b, Under(Key(k), AtKey(a, b, k)))
  {
    var ds := AtKey(a, b, k);
    forall d | d in Under(Key(k), ds) ensures Accurate(a, b, d) {
      var i :| 0 <= i < |ds| && d == ds[i].(path := [Key(k)] + ds[i].path);
      assert ([Key(k)] + ds[i].path)[1..] == ds[i].path;
      if k in a.fields && k in b.fields {
        assert Accurate(a.fields[k], b.fields[k], ds[i]);
      }
    }
  }

  lemma {:induction false} ListAccurate(a: Json, b: Json, n: nat)
    requires a.List? && b.List?
    ensures AllAccurate(a, b, ListDiffs(a, b, n))
    decreases a, 0, n
  {
    if n > 0 {
      ListAccurate(a, b, n - 1);
      if n - 1 < |a.items| && n - 1 < |b.items| {
        DiffsAreAccurate(a.items[n - 1], b.items[n - 1]);
      }
      UnderIndex(a, b, n - 1);
    }
  }

  lemma UnderIndex(a: Json, b: Json, i: nat)
    requires a.List? && b.List?
    requires i < |a.items| && i < |b.items| ==> AllAccurate(a.items[i], b.items[i], Diffs(a.items[i], b.items[i]))
    ensures AllAccurate(a, b, Under(Index(i), AtIndex(a, b, i)))
  {
    var ds := AtIndex(a, b, i);
    forall d | d in Under(Index(i), ds) ensures Accurate(a, b, d) {
      var j :| 0 <= j < |ds| && d == ds[j].(path := [Index(i)] + ds[j].path);
      assert ([Index(i)] + ds[j].path)[1..] == ds[j].path;
      if i < |a.items| && i < |b.items| {
        assert Accurate(a.items[i], b.items[i], ds[j]);
      }
    }
  }

  // ---- differences as a patch -----------------------------------------------------------------------------

  /** Put `v` at a path, or remove what is there: a key, or a list from that index on. */
  function Apply(doc: Json, path: seq<Place>, v: Option<Json>): Json {
    if path == [] then (if v.Some? then v.value else doc)
    else
      match path[0]
      case Key(name) =>
        if !doc.Dict? then doc
        else if |path| == 1 then Dict(if v.Some? then doc.fields[name := v.value] else doc.fields - {name})
        else if name in doc.fields then Dict(doc.fields[name := Apply(doc.fields[name], path[1..], v)])
        else doc
      case Index(i) =>
        if !doc.List? then doc
        else if i < |doc.items| then
          if |path| == 1 && v.None? then List(doc.items[..i])
          else List(doc.items[i := Apply(doc.items[i], path[1..], v)])
        else if i == |doc.items| && |path| == 1 && v.Some? then List(doc.items + [v.value])
        else doc
  }

  /** Give the document the live side of every difference, in order. */
  function Patch(doc: Json, ds: seq<Diff>): Json {
    if ds == [] then doc
    else
      var last := ds[|ds| - 1];
      Apply(Patch(doc, ds[..|ds| - 1]), last.path, last.live)
  }

  lemma {:induction false} PatchAppend(doc: Json, a: seq<Diff>, b: seq<Diff>)
    ensures Patch(doc, a + b) == Patch(Patch(doc, a), b)
    decreases |b|
  {
    if b == [] {
      assert a + b == a;
    } else {
      var front, last := b[..|b| - 1], b[|b| - 1];
      PatchAppend(doc, a, front);
      assert (a + b)[..|a + b| - 1] == a + front;
    }
  }

  /** Differences all below one key change only that key's value. */
  lemma {:induction false} PatchUnderKey(doc: Json, k: string, ds: seq<Diff>)
    requires doc.Dict? && k in doc.fields
    requires forall d :: d in ds ==> d.path != [] || d.live.Some?
    ensures Patch(doc, Under(Key(k), ds)) == Dict(doc.fields[k := Patch(doc.fields[k], ds)])
    decreases |ds|
  {
    var under := Under(Key(k), ds);
    if ds == [] {
      assert doc.fields[k := doc.fields[k]] == doc.fields;
    } else {
      var front, last := ds[..|ds| - 1], ds[|ds| - 1];
      assert under[..|ds| - 1] == Under(Key(k), front);
      PatchUnderKey(doc, k, front);
      var path := [Key(k)] + last.path;
      assert path[1..] == last.path;
      assert last in ds;
    }
  }

  lemma {:induction false} PatchUnderIndex(doc: Json, i: nat, ds: seq<Diff>)
    requires doc.List? && i < |doc.items|
    requires forall d :: d in ds ==> d.path != [] || d.live.Some?
    ensures Patch(doc, Under(Index(i), ds)) == List(doc.items[i := Patch(doc.items[i], ds)])
    decreases |ds|
  {
    var under := Under(Index(i), ds);
    if ds == [] {
      assert doc.items[i := doc.items[i]] == doc.items;
    } else {
      var front, last := ds[..|ds| - 1], ds[|ds| - 1];
      assert under[..|ds| - 1] == Under(Index(i), front);
      PatchUnderIndex(doc, i, front);
      var path := [Index(i)] + last.path;
      assert path[1..] == last.path;
      assert last in ds;
    }
  }

  /** Only the whole of a document can differ at the empty path, and then both sides are there. */
  lemma RootDiffs(a: Json, b: Json)
    ensures forall d :: d in Diffs(a, b) ==> d.path != [] || d.live.Some?
  {
    DiffsAreAccurate(a, b);
    forall d | d in Diffs(a, b) ensures d.path != [] || d.live.Some? {
      assert Accurate(a, b, d);
    }
  }

  /** `now` has the live side's fields at the keys done, and the recorded side's elsewhere. */
  ghost predicate DictSoFar(a: Json, b: Json, now: Json, finished: set<string>)
    requires a.Dict? && b.Dict?
  {
    && now.Dict?
    && (forall k :: k in finished ==> (k in now.fields <==> k in b.fields))
    && (forall k :: k in finished && k in now.fields && k in b.fields ==> Agrees(now.fields[k], b.fields[k]))
    && (forall k :: k !in finished ==> (k in now.fields <==> k in a.fields))
    && forall k :: k !in finished && k in now.fields && k in a.fields ==> now.fields[k] == a.fields[k]
  }

  /** Applying the differences to the recorded document gives the live one. */
  lemma {:induction false} PatchGivesLive(a: Json, b: Json)
    ensures Agrees(Patch(a, Diffs(a, b)), b)
    decreases a, 1, 0
  {
    match (a, b)
    case (Dict(f), Dict(g)) =>
      var all := f.Keys + g.Keys;
      InOrderHolds(all);
      PatchDict(a, b, InOrder(all));
      DictDone(a, b, Patch(a, Diffs(a, b)), all);
    case (List(s), List(t)) =>
      var p := PatchItems(a, b, Min(|s|, |t|));
      PatchList(s, t, p);
      MixedEnds(s, t, p);
      RestAgrees(p, t, |p|);
    case _ =>
      PatchScalar(a, b);
  }

  lemma PatchScalar(a: Json, b: Json)
    requires !(a.Dict? && b.Dict?) && !(a.List? && b.List?)
    ensures Agrees(Patch(a, Diffs(a, b)), b)
  {
    AgreesWithItself(b);
    if Diffs(a, b) != [] {
      assert Diffs(a, b)[..0] == [];
    }
  }

  lemma DictDone(a: Json, b: Json, now: Json, all: set<string>)
    requires a.Dict? && b.Dict? && all == a.fields.Keys + b.fields.Keys && DictSoFar(a, b, now, all)
    ensures Agrees(now, b)
  {
    assert now.fields.Keys == b.fields.Keys;
  }

  lemma {:induction false} PatchDict(a: Json, b: Json, keys: seq<string>)
    requires a.Dict? && b.Dict? && Distinct(keys)
    ensures DictSoFar(a, b, Patch(a, DictDiffs(a, b, keys)), Members(keys))
    decreases a, 0, |keys|
  {
    if keys != [] {
      var front, k := keys[..|keys| - 1], keys[|keys| - 1];
      PatchDict(a, b, front);
      var before := Patch(a, DictDiffs(a, b, front));
      PatchAppend(a, DictDiffs(a, b, front), Under(Key(k), AtKey(a, b, k)));
      if k in a.fields && k in b.fields {
        PatchGivesLive(a.fields[k], b.fields[k]);
      }
      assert k !in front;
      PatchOneKey(a, b, before, k, Members(front));
      assert Members(keys) == Members(front) + {k};
    }
  }

  lemma PatchOneKey(a: Json, b: Json, before: Json, k: string, finished: set<string>)
    requires a.Dict? && b.Dict? && DictSoFar(a, b, before, finished) && k !in finished
    requires k in a.fields && k in b.fields ==> Agrees(Patch(a.fields[k], Diffs(a.fields[k], b.fields[k])), b.fields[k])
    ensures DictSoFar(a, b, Patch(before, Under(Key(k), AtKey(a, b, k))), finished + {k})
  {
    var ds := AtKey(a, b, k);
    if k in a.fields && k in b.fields {
      RootDiffs(a.fields[k], b.fields[k]);
      PatchUnderKey(before, k, ds);
    } else if k in a.fields || k in b.fields {
      assert Under(Key(k), ds)[..0] == [];
      assert Patch(before, Under(Key(k), ds)) == Apply(before, [Key(k)], ds[0].live);
      if k in b.fields {
        AgreesWithItself(b.fields[k]);
      }
    }
  }

  function Min(a: nat, b: nat): nat {
    if a <= b then a else b
  }

  /** The items both sides have, patched. */
  ghost predicate Patched(s: seq<Json>, t: seq<Json>, p: seq<Json>) {
    |p| == Min(|s|, |t|) && forall i: nat :: i < |p| ==> PatchedAt(s, t, p, i)
  }

  ghost predicate PatchedAt(s: seq<Json>, t: seq<Json>, p: seq<Json>, i: nat) {
    i < |p| && i < |s| && i < |t| && p[i] == Patch(s[i], Diffs(s[i], t[i]))
  }

  /** The recorded list with the differences at its first `n` indices applied, given the patched items. */
  function Mixed(s: seq<Json>, t: seq<Json>, p: seq<Json>, n: nat): seq<Json> {
    if n <= |p| && n <= |s| then p[..n] + s[n..]
    else if |s| <= n <= |t| then p + t[|s|..n]
    else p
  }

  lemma MixedNext(s: seq<Json>, t: seq<Json>, p: seq<Json>, i: nat)
    requires |p| == Min(|s|, |t|) && i < Max(|s|, |t|)
    ensures i < |p| ==> |Mixed(s, t, p, i)| > i && Mixed(s, t, p, i)[i] == s[i]
                        && Mixed(s, t, p, i)[i := p[i]] == Mixed(s, t, p, i + 1)
    ensures |s| <= i ==> |Mixed(s, t, p, i)| == i && i < |t| && Mixed(s, t, p, i) + [t[i]] == Mixed(s, t, p, i + 1)
    ensures |t| <= i ==> |t| <= |Mixed(s, t, p, i)| && Mixed(s, t, p, i + 1) == p
                         && (if i < |Mixed(s, t, p, i)| then Mixed(s, t, p, i)[..i] == p else Mixed(s, t, p, i) == p)
  {
    if |s| <= i {
      assert t[|s|..i] + [t[i]] == t[|s|..i + 1];
      assert p[..|p|] == p;
    }
  }

  lemma MixedEnds(s: seq<Json>, t: seq<Json>, p: seq<Json>)
    requires |p| == Min(|s|, |t|)
    ensures Mixed(s, t, p, 0) == s
    ensures Mixed(s, t, p, Max(|s|, |t|)) == p + t[|p|..]
  {
    assert p[..0] == [] && p[..|p|] == p;
  }

  /** The differences at the first `n` indices bring the recorded list this far. */
  ghost predicate PatchedUpTo(s: seq<Json>, t: seq<Json>, p: seq<Json>, n: nat) {
    Patch(List(s), ListDiffs(List(s), List(t), n)) == List(Mixed(s, t, p, n))
  }

  lemma PatchStart(s: seq<Json>, t: seq<Json>, p: seq<Json>)
    requires |p| == Min(|s|, |t|)
    ensures PatchedUpTo(s, t, p, 0)
  {
    MixedEnds(s, t, p);
  }

  lemma PatchList(s: seq<Json>, t: seq<Json>, p: seq<Json>)
    requires Patched(s, t, p)
    ensures PatchedUpTo(s, t, p, Max(|s|, |t|))
  {
    PatchStart(s, t, p);
    var upTo := (n: nat) => PatchedUpTo(s, t, p, n);
    forall i: nat | i < Max(|s|, |t|) && upTo(i) ensures upTo(i + 1) {
      PatchNext(s, t, p, i);
    }
    StepByStep(upTo, Max(|s|, |t|));
    assert upTo(Max(|s|, |t|));
  }

  lemma {:induction false} StepByStep(holds: nat -> bool, n: nat)
    requires holds(0) && forall i: nat :: i < n && holds(i) ==> holds(i + 1)
    ensures holds(n)
  {
    if n > 0 {
      StepByStep(holds, n - 1);
    }
  }

  lemma PatchNext(s: seq<Json>, t: seq<Json>, p: seq<Json>, i: nat)
    requires |p| == Min(|s|, |t|) && i < Max(|s|, |t|)
    ensures Patched(s, t, p) && PatchedUpTo(s, t, p, i) ==> PatchedUpTo(s, t, p, i + 1)
  {
    if Patched(s, t, p) && PatchedUpTo(s, t, p, i) {
      assert i < |p| ==> PatchedAt(s, t, p, i);
      PatchIndex(s, t, p, i, Mixed(s, t, p, i));
      PatchMore(List(s), ListDiffs(List(s), List(t), i), Under(Index(i), AtIndex(List(s), List(t), i)),
                List(Mixed(s, t, p, i)), List(Mixed(s, t, p, i + 1)));
    }
  }

  lemma PatchMore(doc: Json, a: seq<Diff>, b: seq<Diff>, mid: Json, end: Json)
    requires Patch(doc, a) == mid && Patch(mid, b) == end
    ensures Patch(doc, a + b) == end
  {
    PatchAppend(doc, a, b);
  }

  lemma PatchIndex(s: seq<Json>, t: seq<Json>, p: seq<Json>, i: nat, before: seq<Json>)
    requires |p| == Min(|s|, |t|) && i < Max(|s|, |t|) && before == Mixed(s, t, p, i)
    ensures (i < |p| ==> PatchedAt(s, t, p, i)) ==>
              Patch(List(before), Under(Index(i), AtIndex(List(s), List(t), i))) == List(Mixed(s, t, p, i + 1))
  {
    MixedNext(s, t, p, i);
    if i < |p| {
      PatchShared(s[i], t[i], i, before);
    } else if i < |t| {
      PatchAdded(i, before, t[i]);
    } else {
      PatchDropped(i, before, s[i]);
    }
  }

  lemma PatchShared(x: Json, y: Json, i: nat, before: seq<Json>)
    requires i < |before| && before[i] == x
    ensures Patch(List(before), Under(Index(i), Diffs(x, y))) == List(before[i := Patch(x, Diffs(x, y))])
  {
    RootDiffs(x, y);
    PatchUnderIndex(List(before), i, Diffs(x, y));
  }

  lemma PatchOne(doc: Json, p: Place, recorded: Option<Json>, live: Option<Json>)
    ensures Patch(doc, Under(p, [Diff([], recorded, live)])) == Apply(doc, [p], live)
  {
    var d := Diff([p], recorded, live);
    assert [p] + [] == [p];
    assert Under(p, [Diff([], recorded, live)]) == [d];
    assert [d][..0] == [];
  }

  lemma PatchAdded(i: nat, before: seq<Json>, y: Json)
    requires i == |before|
    ensures Patch(List(before), Under(Index(i), [Diff([], None, Some(y))])) == List(before + [y])
  {
    PatchOne(List(before), Index(i), None, Some(y));
  }

  lemma PatchDropped(i: nat, before: seq<Json>, x: Json)
    ensures Patch(List(before), Under(Index(i), [Diff([], Some(x), None)]))
         == List(if i < |before| then before[..i] else before)
  {
    PatchOne(List(before), Index(i), Some(x), None);
  }

  lemma {:induction false} PatchItems(a: Json, b: Json, n: nat) returns (p: seq<Json>)
    requires a.List? && b.List? && n <= Min(|a.items|, |b.items|)
    ensures |p| == n && forall i: nat :: i < n ==> PatchedAt(a.items, b.items, p, i) && Agrees(p[i], b.items[i])
    decreases a, 0, n
  {
    if n == 0 {
      p := [];
    } else {
      var front := PatchItems(a, b, n - 1);
      PatchGivesLive(a.items[n - 1], b.items[n - 1]);
      p := front + [Patch(a.items[n - 1], Diffs(a.items[n - 1], b.items[n - 1]))];
      forall i: nat | i < n ensures PatchedAt(a.items, b.items, p, i) && Agrees(p[i], b.items[i]) {
        if i < n - 1 {
          assert PatchedAt(a.items, b.items, front, i);
        }
      }
    }
  }

  lemma RestAgrees(front: seq<Json>, items: seq<Json>, n: nat)
    requires |front| == n <= |items| && forall i :: 0 <= i < n ==> Agrees(front[i], items[i])
    ensures Agrees(List(front + items[n..]), List(items))
  {
    forall i | n <= i < |items| ensures Agrees(items[i], items[i]) {
      AgreesWithItself(items[i]);
    }
  }

  // ---- the missing-value sentinel --------------------------------------------------------------------------

  /** A side is reported as the sentinel exactly when its value is absent or is the sentinel's own text. */
  lemma ReportedMissingIff(a: Json, b: Json, path: string, d: Diff)
    requires d in Diffs(a, b)
    ensures Report(path, d).recorded == MISSING <==> Resolve(a, d.path) == None || Resolve(a, d.path) == Some(MISSING)
    ensures Report(path, d).live == MISSING <==> Resolve(b, d.path) == None || Resolve(b, d.path) == Some(MISSING)
    ensures Resolve(a, d.path) == d.recorded && Resolve(b, d.path) == d.live
  {
    DiffsAreAccurate(a, b);
    assert Accurate(a, b, d);
  }

  /** Every difference reports a side missing exactly where its path does not resolve. */
  ghost predicate TellsAbsence(a: Json, b: Json) {
    forall d :: d in Diffs(a, b) ==>
      && (Report("$", d).recorded == MISSING <==> Resolve(a, d.path) == None)
      && (Report("$", d).live == MISSING <==> Resolve(b, d.path) == None)
  }

  ghost predicate FreeOfSentinel(ds: seq<Diff>) {
    forall d :: d in ds ==> d.recorded != Some(MISSING) && d.live != Some(MISSING)
  }

  /** The reports tell absence if and only if no difference carries the sentinel's text. */
  lemma TellsAbsenceIff(a: Json, b: Json)
    ensures TellsAbsence(a, b) <==> FreeOfSentinel(Diffs(a, b))
  {
    forall d | d in Diffs(a, b)
      ensures && (Report("$", d).recorded == MISSING <==> Resolve(a, d.path) == None)
              && (Report("$", d).live == MISSING <==> Resolve(b, d.path) == None)
              <==> d.recorded != Some(MISSING) && d.live != Some(MISSING)
    {
      ReportedMissingIff(a, b, "$", d);
    }
  }

  /** Some leaf of the document is the sentinel's text. */
  ghost predicate HoldsSentinel(doc: Json)
    decreases doc
  {
    match doc
    case Scalar(_) => doc == MISSING
    case List(s) => exists i :: 0 <= i < |s| && HoldsSentinel(s[i])
    case Dict(f) => exists k :: k in f && HoldsSentinel(f[k])
  }

  lemma {:induction false} ResolvedLeafIsHeld(doc: Json, path: seq<Place>)
    requires Resolve(doc, path) == Some(MISSING)
    ensures HoldsSentinel(doc)
    decreases |path|
  {
    if path != [] {
      match path[0]
      case Key(name) => ResolvedLeafIsHeld(doc.fields[name], path[1..]);
      case Index(i) => ResolvedLeafIsHeld(doc.items[i], path[1..]);
    }
  }

  /** So they do for all documents without such a leaf. */
  lemma SentinelFreeDocumentsTellAbsence(a: Json, b: Json)
    requires !HoldsSentinel(a) && !HoldsSentinel(b)
    ensures FreeOfSentinel(Diffs(a, b)) && TellsAbsence(a, b)
  {
    DiffsAreAccurate(a, b);
    forall d | d in Diffs(a, b) ensures d.recorded != Some(MISSING) && d.live != Some(MISSING) {
      assert Accurate(a, b, d);
      if d.recorded == Some(MISSING) {
        ResolvedLeafIsHeld(a, d.path);
      }
      if d.live == Some(MISSING) {
        ResolvedLeafIsHeld(b, d.path);
      }
    }
    TellsAbsenceIff(a, b);
  }

  /** The sentinel is an ordinary string: a key that is gone and a key that appears with the sentinel's text as its
      value are reported alike. */
  lemma SentinelIsAmbiguous(k: string)
    ensures var none, some := Dict(map[]), Dict(map[k := MISSING]);
            && Diffs(none, some) != Diffs(some, none)
            && Reports("$", Diffs(none, some)) == Reports("$", Diffs(some, none))
            && !Same(none, some)
  {
    var none, some := Dict(map[]), Dict(map[k := MISSING]);
    OneKey(none, some, k);
    OneKey(some, none, k);
    assert AtKey(none, some, k) == [Diff([], None, Some(MISSING))];
    assert AtKey(some, none, k) == [Diff([], Some(MISSING), None)];
    assert Diffs(none, some)[0].recorded != Diffs(some, none)[0].recorded;
    assert Reports("$", Diffs(none, some))[0] == Reports("$", Diffs(some, none))[0];
  }

  lemma OneKey(a: Json, b: Json, k: string)
    requires a.Dict? && b.Dict? && a.fields.Keys + b.fields.Keys == {k}
    ensures Diffs(a, b) == Under(Key(k), AtKey(a, b, k))
  {
    var keys := InOrder({k});
    InOrderHolds({k});
    DistinctCount(keys);
    assert keys[0] in Members(keys);
    assert keys == [k];
    assert keys[..0] == [] && DictDiffs(a, b, []) == [];
    assert [] + Under(Key(k), AtKey(a, b, k)) == Under(Key(k), AtKey(a, b, k));
    assert DictDiffs(a, b, keys) == Under(Key(k), AtKey(a, b, k));
  }
}
