/** The two listings: all providers, and the providers of one namespace. */
module ProviderList {
  import opened Text
  import opened Maps
  import opened FileNames
  import opened ProviderFiles

  type Order = (Spec, Spec) -> bool

  predicate ByName(a: Spec, b: Spec) { Less(a.name, b.name) }

  predicate ByKey(a: Spec, b: Spec) {
    Less(a.namespace, b.namespace) || (a.namespace == b.namespace && Less(a.name, b.name))
  }

  ghost predicate IsOrder(less: Order) {
    && (forall a :: !less(a, a))
    && (forall a, b, c :: less(a, b) && less(b, c) ==> less(a, c))
  }

  ghost predicate Strictly(less: Order, xs: seq<Spec>) { forall i, j | 0 <= i < j < |xs| :: less(xs[i], xs[j]) }

  /** Any two different items are in order one way or the other. */
  ghost predicate Comparable(less: Order, xs: seq<Spec>) {
    forall i, j | 0 <= i < j < |xs| :: less(xs[i], xs[j]) || less(xs[j], xs[i])
  }

  function Insert(less: Order, x: Spec, xs: seq<Spec>): seq<Spec> {
    if xs == [] || less(x, xs[0]) then [x] + xs else [xs[0]] + Insert(less, x, xs[1..])
  }

  function Sort(less: Order, xs: seq<Spec>): seq<Spec> {
    if xs == [] then [] else Insert(less, xs[0], Sort(less, xs[1..]))
  }

  function InNamespace(xs: seq<Spec>, namespace: string): seq<Spec> {
    if xs == [] then []
    else (if xs[0].namespace == namespace then [xs[0]] else []) + InNamespace(xs[1..], namespace)
  }

  /** The values of the map, in the order some iteration over it happens to take. */
  function Values(m: map<Key, Spec>, keys: seq<Key>): seq<Spec>
    requires forall k | k in keys :: k in m
  {
    seq(|keys|, i requires 0 <= i < |keys| => assert keys[i] in keys; m[keys[i]])
  }

  function ListAll(m: map<Key, Spec>, keys: seq<Key>): seq<Spec>
    requires forall k | k in keys :: k in m
  {
    Sort(ByKey, Values(m, keys))
  }

  function ListOf(m: map<Key, Spec>, keys: seq<Key>, namespace: string): seq<Spec>
    requires forall k | k in keys :: k in m
  {
    Sort(ByName, InNamespace(Values(m, keys), namespace))
  }

  // ---- sorting ---------------------------------------------------------------------

  lemma NameAndKeyAreOrders()
    ensures IsOrder(ByName) && IsOrder(ByKey)
  {
    forall a: Spec ensures !ByName(a, a) && !ByKey(a, a) { LessIrreflexive(a.name); LessIrreflexive(a.namespace); }
    forall a: Spec, b: Spec, c: Spec | ByName(a, b) && ByName(b, c) ensures ByName(a, c) {
      LessTransitive(a.name, b.name, c.name);
    }
    forall a: Spec, b: Spec, c: Spec | ByKey(a, b) && ByKey(b, c) ensures ByKey(a, c) {
      if Less(a.namespace, b.namespace) && Less(b.namespace, c.namespace) {
        LessTransitive(a.namespace, b.namespace, c.namespace);
      } else if a.namespace == c.namespace {
        if Less(a.namespace, b.namespace) { LessAsymmetric(a.namespace, b.namespace); }
        LessTransitive(a.name, b.name, c.name);
      }
    }
  }

  lemma {:induction false} InsertSorts(less: Order, x: Spec, xs: seq<Spec>)
    requires IsOrder(less) && Strictly(less, xs) && forall y | y in xs :: less(x, y) || less(y, x)
    ensures Strictly(less, Insert(less, x, xs))
  {
    if xs != [] && !less(x, xs[0]) {
      InsertSorts(less, x, xs[1..]);
      InsertKeepsItems(less, x, xs[1..]);
      forall y | y in Insert(less, x, xs[1..]) ensures less(xs[0], y) {
        assert y in multiset(Insert(less, x, xs[1..])) && xs[0] in xs;
        assert y == x || y in xs[1..];
      }
    }
  }

  lemma {:induction false} InsertKeepsItems(less: Order, x: Spec, xs: seq<Spec>)
    ensures multiset(Insert(less, x, xs)) == multiset(xs) + multiset{x}
  {
    if xs != [] && !less(x, xs[0]) {
      InsertKeepsItems(less, x, xs[1..]);
      assert xs == [xs[0]] + xs[1..];
    }
  }

  lemma {:induction false} SortSorts(less: Order, xs: seq<Spec>)
    requires IsOrder(less) && Comparable(less, xs)
    ensures Strictly(less, Sort(less, xs)) && multiset(Sort(less, xs)) == multiset(xs)
  {
    if xs != [] {
      var rest := Sort(less, xs[1..]);
      SortSorts(less, xs[1..]);
      assert xs == [xs[0]] + xs[1..];
      forall y | y in rest ensures less(xs[0], y) || less(y, xs[0]) {
        assert y in multiset(rest) && y in xs[1..];
      }
      InsertSorts(less, xs[0], rest);
      InsertKeepsItems(less, xs[0], rest);
    }
  }

  /** A strictly sorted sequence is determined by its items. */
  lemma {:induction false} StrictlySortedIsUnique(less: Order, xs: seq<Spec>, ys: seq<Spec>)
    requires IsOrder(less) && Strictly(less, xs) && Strictly(less, ys)
    requires forall s :: s in xs <==> s in ys
    ensures xs == ys
  {
    assert xs != [] ==> xs[0] in ys;
    assert ys != [] ==> ys[0] in xs;
    if xs != [] {
      var x, y := xs[0], ys[0];
      assert x in ys && y in xs;
      assert x == y;
      forall s ensures s in xs[1..] <==> s in ys[1..] {
        assert s in xs[1..] ==> less(x, s) && s in ys;
        assert s in ys[1..] ==> less(x, s) && s in xs;
      }
      StrictlySortedIsUnique(less, xs[1..], ys[1..]);
    }
  }

  lemma {:induction false} SliceItems(xs: seq<Spec>, namespace: string)
    ensures forall s :: s in InNamespace(xs, namespace) <==> s in xs && s.namespace == namespace
  {
    if xs != [] {
      SliceItems(xs[1..], namespace);
      assert forall s :: s in xs <==> s == xs[0] || s in xs[1..];
    }
  }

  /** Every item is related to every later one. */
  ghost predicate Pairwise(related: Order, xs: seq<Spec>) {
    xs != [] ==> (forall y | y in xs[1..] :: related(xs[0], y)) && Pairwise(related, xs[1..])
  }

  lemma {:induction false} PairwiseIndexed(related: Order, xs: seq<Spec>)
    ensures Pairwise(related, xs) <==> forall i, j | 0 <= i < j < |xs| :: related(xs[i], xs[j])
  {
    if xs != [] {
      PairwiseIndexed(related, xs[1..]);
      var rest := xs[1..];
      if Pairwise(related, xs) {
        forall i, j | 0 <= i < j < |xs| ensures related(xs[i], xs[j]) {
          if i == 0 { assert rest[j - 1] in rest; } else { assert related(rest[i - 1], rest[j - 1]); }
        }
      }
      if forall i, j | 0 <= i < j < |xs| :: related(xs[i], xs[j]) {
        forall i, j | 0 <= i < j < |rest| ensures related(rest[i], rest[j]) {
          assert related(xs[i + 1], xs[j + 1]);
        }
        forall y | y in rest ensures related(xs[0], y) {
          var j :| 0 <= j < |rest| && rest[j] == y;
          assert related(xs[0], xs[j + 1]);
        }
      }
    }
  }

  lemma {:induction false} SliceKeepsPairs(related: Order, xs: seq<Spec>, namespace: string)
    requires Pairwise(related, xs)
    ensures Pairwise(related, InNamespace(xs, namespace))
  {
    if xs != [] {
      var rest := InNamespace(xs[1..], namespace);
      SliceKeepsPairs(related, xs[1..], namespace);
      SliceItems(xs[1..], namespace);
      assert [] + rest == rest && ([xs[0]] + rest)[1..] == rest;
    }
  }

  lemma SliceKeepsOrder(less: Order, xs: seq<Spec>, namespace: string)
    requires Strictly(less, xs)
    ensures Strictly(less, InNamespace(xs, namespace))
  {
    PairwiseIndexed(less, xs);
    SliceKeepsPairs(less, xs, namespace);
    PairwiseIndexed(less, InNamespace(xs, namespace));
  }

  lemma SliceKeepsComparable(less: Order, xs: seq<Spec>, namespace: string)
    requires Comparable(less, xs)
    ensures Comparable(less, InNamespace(xs, namespace))
  {
    var either: Order := (a, b) => less(a, b) || less(b, a);
    PairwiseIndexed(either, xs);
    SliceKeepsPairs(either, xs, namespace);
    PairwiseIndexed(either, InNamespace(xs, namespace));
  }

  // ---- the listings ------------------------------------------------------------------

  /** Every provider is stored under its own key. */
  predicate Keyed(m: map<Key, Spec>) { forall k | k in m :: KeyOf(m[k]) == k }

  /** One iteration over the map: it visits each key once, in some order. */
  ghost predicate Iterates(m: map<Key, Spec>, keys: seq<Key>) {
    (forall k :: k in keys <==> k in m) && (forall i, j | 0 <= i < j < |keys| :: keys[i] != keys[j])
  }

  ghost predicate Visits(m: map<Key, Spec>, keys: seq<Key>) { Keyed(m) && Iterates(m, keys) }

  lemma ValuesAreComparable(m: map<Key, Spec>, keys: seq<Key>)
    requires Visits(m, keys)
    ensures Comparable(ByKey, Values(m, keys))
    ensures forall s :: s in Values(m, keys) <==> Get(m, KeyOf(s)) == Some(s)
  {
    var xs := Values(m, keys);
    forall i, j | 0 <= i < j < |xs| ensures ByKey(xs[i], xs[j]) || ByKey(xs[j], xs[i]) {
      assert keys[i] in keys && keys[j] in keys;
      LessTotal(xs[i].namespace, xs[j].namespace);
      LessTotal(xs[i].name, xs[j].name);
    }
    forall s ensures s in xs <==> Get(m, KeyOf(s)) == Some(s) {
      if s in xs {
        var i :| 0 <= i < |xs| && xs[i] == s;
        assert keys[i] in keys;
      }
      if Get(m, KeyOf(s)) == Some(s) {
        assert KeyOf(s) in keys;
        var i :| 0 <= i < |keys| && keys[i] == KeyOf(s);
        assert xs[i] == s;
      }
    }
  }

  lemma SameNamespaceByName(xs: seq<Spec>, namespace: string)
    requires forall s | s in xs :: s.namespace == namespace
    ensures Strictly(ByKey, xs) ==> Strictly(ByName, xs)
    ensures Comparable(ByKey, xs) ==> Comparable(ByName, xs)
  {
    LessIrreflexive(namespace);
    assert forall i | 0 <= i < |xs| :: xs[i] in xs;
  }

  lemma ListAllSorted(m: map<Key, Spec>, keys: seq<Key>)
    requires Visits(m, keys)
    ensures Strictly(ByKey, ListAll(m, keys))
    ensures forall s :: s in ListAll(m, keys) <==> Get(m, KeyOf(s)) == Some(s)
  {
    NameAndKeyAreOrders();
    ValuesAreComparable(m, keys);
    SortSorts(ByKey, Values(m, keys));
    assert forall s :: s in ListAll(m, keys) <==> s in multiset(ListAll(m, keys));
  }

  lemma ListOfSorted(m: map<Key, Spec>, keys: seq<Key>, namespace: string)
    requires Visits(m, keys)
    ensures Strictly(ByName, ListOf(m, keys, namespace))
    ensures forall s :: s in ListOf(m, keys, namespace) <==> Get(m, KeyOf(s)) == Some(s) && s.namespace == namespace
  {
    NameAndKeyAreOrders();
    ValuesAreComparable(m, keys);
    var slice := InNamespace(Values(m, keys), namespace);
    SliceItems(Values(m, keys), namespace);
    SliceKeepsComparable(ByKey, Values(m, keys), namespace);
    SameNamespaceByName(slice, namespace);
    SortSorts(ByName, slice);
    assert forall s :: s in ListOf(m, keys, namespace) <==> s in multiset(ListOf(m, keys, namespace));
  }

  /** Any two listings with these contracts agree: each is the only one, whatever
      order the map is visited in, and the listing of a namespace is that slice of
      the full one. */
  lemma ListingsAgree(m: map<Key, Spec>, all: seq<Spec>, some: seq<Spec>, namespace: string)
    requires Strictly(ByKey, all) && forall s :: s in all <==> Get(m, KeyOf(s)) == Some(s)
    requires Strictly(ByName, some) && forall s :: s in some <==> Get(m, KeyOf(s)) == Some(s) && s.namespace == namespace
    ensures some == InNamespace(all, namespace)
    ensures forall keys | Visits(m, keys) :: all == ListAll(m, keys) && some == ListOf(m, keys, namespace)
  {
    NameAndKeyAreOrders();
    var slice := InNamespace(all, namespace);
    SliceItems(all, namespace);
    SliceKeepsOrder(ByKey, all, namespace);
    SameNamespaceByName(slice, namespace);
    StrictlySortedIsUnique(ByName, some, slice);
    forall keys | Visits(m, keys) ensures all == ListAll(m, keys) && some == ListOf(m, keys, namespace) {
      ListAllSorted(m, keys);
      ListOfSorted(m, keys, namespace);
      StrictlySortedIsUnique(ByKey, all, ListAll(m, keys));
      StrictlySortedIsUnique(ByName, some, ListOf(m, keys, namespace));
    }
  }
}
