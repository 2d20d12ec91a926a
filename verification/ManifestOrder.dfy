/**
 The manifests in the status of an Atlas. They are collected from Go maps, whose order is not fixed,
 sorted by kind and name, and written only if they differ from what is there.
 */
module ManifestOrder {
  import opened Ordering
  import opened IndexMap

  datatype Manifest = Manifest(kind: string, name: string, body: string)

  predicate Before(x: Manifest, y: Manifest)
  {
    if x.kind != y.kind then Less(x.kind, y.kind) else Less(x.name, y.name)
  }

  predicate SameKey(x: Manifest, y: Manifest)
  {
    x.kind == y.kind && x.name == y.name
  }

  lemma BeforeOrders()
    ensures StrictWeakOrder(Before)
    ensures forall x, y :: Tied(Before, x, y) <==> SameKey(x, y)
  {
    LessOrders();
    forall x, y ensures Tied(Before, x, y) <==> SameKey(x, y) {
      LessTotal(x.kind, y.kind);
      LessTotal(x.name, y.name);
    }
    forall x, y, z | Before(x, y) && Before(y, z) ensures Before(x, z) {
      BeforeTransitive(x, y, z);
    }
    forall x, y, z | Before(x, z) ensures Before(x, y) || Before(y, z) {
      LessTotal(x.kind, y.kind);
      LessTotal(x.name, y.name);
      if !Before(x, y) && !SameKey(x, y) {
        BeforeTransitive(y, x, z);
      }
    }
  }

  lemma BeforeTransitive(x: Manifest, y: Manifest, z: Manifest)
    requires Before(x, y) && Before(y, z)
    ensures Before(x, z)
  {
    LessIrreflexive(x.kind);
    if x.kind == y.kind && y.kind == z.kind {
      LessTransitive(x.name, y.name, z.name);
    } else if x.kind != y.kind && y.kind != z.kind {
      LessTransitive(x.kind, y.kind, z.kind);
      if x.kind == z.kind {
        LessIrreflexive(x.kind);
      }
    }
  }

  // ----- Values of a Go map -----

  ghost function Any(keys: set<string>): (k: string)
    requires keys != {}
    ensures k in keys
  {
    var k :| k in keys; k
  }

  ghost function BagOf(m: map<string, Manifest>, keys: set<string>): multiset<Manifest>
    requires keys <= m.Keys
    decreases keys
  {
    if keys == {} then multiset{} else multiset{m[Any(keys)]} + BagOf(m, keys - {Any(keys)})
  }

  /** The values of a map with their multiplicities. */
  ghost function Bag(m: map<string, Manifest>): multiset<Manifest>
  {
    BagOf(m, m.Keys)
  }

  lemma {:induction false} BagWithout(m: map<string, Manifest>, keys: set<string>, k: string)
    requires k in keys && keys <= m.Keys
    ensures BagOf(m, keys) == multiset{m[k]} + BagOf(m, keys - {k})
    decreases keys
  {
    var k' := Any(keys);
    if k' != k {
      BagWithout(m, keys - {k'}, k);
      BagWithout(m, keys - {k}, k');
      assert keys - {k'} - {k} == keys - {k} - {k'};
    }
  }

  /** `lo.Values`: the values in the order in which the map is walked. */
  method Values(m: map<string, Manifest>) returns (s: seq<Manifest>)
    ensures multiset(s) == Bag(m)
  {
    s := [];
    var todo := m.Keys;
    while todo != {}
      invariant todo <= m.Keys && multiset(s) + BagOf(m, todo) == Bag(m)
      decreases todo
    {
      var k :| k in todo;
      BagWithout(m, todo, k);
      s := s + [m[k]];
      todo := todo - {k};
    }
  }

  // ----- Sorting -----

  ghost predicate KeysDetermine(xs: multiset<Manifest>)
  {
    forall x, y | x in xs && y in xs && SameKey(x, y) :: x == y
  }

  /** A list of copies of one element has only its length. */
  lemma {:induction false} Copies(s: seq<Manifest>, t: seq<Manifest>, x: Manifest)
    requires forall i | 0 <= i < |s| :: s[i] == x
    requires forall i | 0 <= i < |t| :: t[i] == x
    requires multiset(s)[x] == multiset(t)[x]
    ensures s == t
  {
    CopiesCount(s, x);
    CopiesCount(t, x);
  }

  lemma {:induction false} CopiesCount(s: seq<Manifest>, x: Manifest)
    requires forall i | 0 <= i < |s| :: s[i] == x
    ensures multiset(s)[x] == |s|
  {
    if s != [] {
      CopiesCount(s[1..], x);
      assert s == [s[0]] + s[1..];
    }
  }

  lemma {:induction false} TiedCount(s: seq<Manifest>, y: Manifest, x: Manifest)
    requires Tied(Before, x, y)
    ensures multiset(TiedWith(Before, s, y))[x] == multiset(s)[x]
  {
    if s != [] {
      TiedCount(s[1..], y, x);
      assert s == [s[0]] + s[1..];
    }
  }

  lemma {:induction false} TiedAppend(s: seq<Manifest>, t: seq<Manifest>, y: Manifest)
    ensures TiedWith(Before, s + t, y) == TiedWith(Before, s, y) + TiedWith(Before, t, y)
  {
    if s == [] {
      assert s + t == t;
    } else {
      TiedAppend(s[1..], t, y);
      assert (s + t)[1..] == s[1..] + t && (s + t)[0] == s[0];
      var h := if Tied(Before, s[0], y) then [s[0]] else [];
      assert h + (TiedWith(Before, s[1..], y) + TiedWith(Before, t, y))
          == h + TiedWith(Before, s[1..], y) + TiedWith(Before, t, y);
    }
  }

  /** Where keys determine the manifest, everything tied with `y` is one and the same. */
  lemma TiesAreCopies(s: seq<Manifest>, y: Manifest, x: Manifest)
    requires KeysDetermine(multiset(s)) && x in multiset(s) && Tied(Before, x, y)
    ensures forall i | 0 <= i < |TiedWith(Before, s, y)| :: TiedWith(Before, s, y)[i] == x
  {
    BeforeOrders();
    TiedWithMembers(Before, s, y);
    var a := TiedWith(Before, s, y);
    forall i | 0 <= i < |a| ensures a[i] == x {
      assert a[i] in a;
      assert a[i] in s && a[i] in multiset(s) && SameKey(a[i], y) && SameKey(x, y);
    }
  }

  lemma SameTies(s: seq<Manifest>, t: seq<Manifest>, y: Manifest)
    requires multiset(s) == multiset(t) && KeysDetermine(multiset(s))
    ensures TiedWith(Before, s, y) == TiedWith(Before, t, y)
  {
    if x :| x in multiset(s) && Tied(Before, x, y) {
      TiesAreCopies(s, y, x);
      TiesAreCopies(t, y, x);
      TiedCount(s, y, x);
      TiedCount(t, y, x);
      Copies(TiedWith(Before, s, y), TiedWith(Before, t, y), x);
    } else {
      NoTies(s, y);
      NoTies(t, y);
    }
  }

  lemma NoTies(s: seq<Manifest>, y: Manifest)
    requires forall x | x in multiset(s) :: !Tied(Before, x, y)
    ensures TiedWith(Before, s, y) == []
  {
    TiedWithMembers(Before, s, y);
  }

  /** Lists with the same ties and the same elements have the same stable sort. */
  lemma SameSort(s: seq<Manifest>, t: seq<Manifest>)
    requires multiset(s) == multiset(t)
    requires forall y :: TiedWith(Before, s, y) == TiedWith(Before, t, y)
    ensures SortBy(Before, s) == SortBy(Before, t)
  {
    BeforeOrders();
    SortFacts(Before, s);
    SortFacts(Before, t);
    var a, b := SortBy(Before, s), SortBy(Before, t);
    assert |a| == |multiset(a)| == |multiset(b)| == |b|;
    UniqueStableSort(Before, a, b);
  }

  /** The status for the manifests `xs` of the providers and `ys` of the clusters or machines. */
  function StatusOf(xs: seq<Manifest>, ys: seq<Manifest>): seq<Manifest>
  {
    SortBy(Before, xs + ys)
  }

  /** The status holds the manifests of both, by kind and, within a kind, by name, in the order of Go's strings. */
  lemma StatusInOrder(xs: seq<Manifest>, ys: seq<Manifest>, i: nat, j: nat)
    requires i < j < |StatusOf(xs, ys)|
    ensures multiset(StatusOf(xs, ys)) == multiset(xs) + multiset(ys)
    ensures var x, y := StatusOf(xs, ys)[i], StatusOf(xs, ys)[j];
            Less(x.kind, y.kind) || (x.kind == y.kind && (x.name == y.name || Less(x.name, y.name)))
  {
    BeforeOrders();
    SortFacts(Before, xs + ys);
    var x, y := StatusOf(xs, ys)[i], StatusOf(xs, ys)[j];
    assert !Before(y, x);
    LessTotal(x.kind, y.kind);
    LessTotal(x.name, y.name);
  }

  /** Of manifests with one kind and name, the providers' come first, and each part keeps its order. */
  lemma ProvidersFirst(xs: seq<Manifest>, ys: seq<Manifest>, y: Manifest)
    ensures TiedWith(Before, StatusOf(xs, ys), y) == TiedWith(Before, xs, y) + TiedWith(Before, ys, y)
    ensures forall x | x in TiedWith(Before, StatusOf(xs, ys), y) :: x.kind == y.kind && x.name == y.name
  {
    BeforeOrders();
    SortFacts(Before, xs + ys);
    TiedAppend(xs, ys, y);
    TiedWithMembers(Before, StatusOf(xs, ys), y);
  }

  /** Every order of the maps gives the same status if, within each map, kind and name determine the manifest. */
  lemma SameStatus(xs: seq<Manifest>, xs': seq<Manifest>, ys: seq<Manifest>, ys': seq<Manifest>)
    requires multiset(xs) == multiset(xs') && multiset(ys) == multiset(ys')
    requires KeysDetermine(multiset(xs))
    requires KeysDetermine(multiset(ys)) || ys == ys'
    ensures StatusOf(xs, ys) == StatusOf(xs', ys')
  {
    forall y ensures TiedWith(Before, xs + ys, y) == TiedWith(Before, xs' + ys', y) {
      TiedAppend(xs, ys, y);
      TiedAppend(xs', ys', y);
      SameTies(xs, xs', y);
      if ys != ys' {
        SameTies(ys, ys', y);
      }
    }
    SameSort(xs + ys, xs' + ys');
  }

  /** Otherwise two orders give two different statuses. */
  lemma TwoStatuses(bag: multiset<Manifest>, ys: seq<Manifest>, x: Manifest, y: Manifest)
      returns (xs: seq<Manifest>, xs': seq<Manifest>)
    requires x in bag && y in bag && x != y && SameKey(x, y)
    ensures multiset(xs) == bag && multiset(xs') == bag && StatusOf(xs, ys) != StatusOf(xs', ys)
  {
    assert y in bag - multiset{x};
    var rest := Listed(bag - multiset{x} - multiset{y});
    xs, xs' := [x] + ([y] + rest), [y] + ([x] + rest);
    Swapped(x, y, rest, ys);
  }

  lemma Swapped(x: Manifest, y: Manifest, rest: seq<Manifest>, ys: seq<Manifest>)
    requires x != y && SameKey(x, y)
    ensures StatusOf([x] + ([y] + rest), ys) != StatusOf([y] + ([x] + rest), ys)
  {
    FirstTie(x, [y] + rest + ys, x);
    FirstTie(y, [x] + rest + ys, x);
    assert [x] + ([y] + rest) + ys == [x] + ([y] + rest + ys);
    assert [y] + ([x] + rest) + ys == [y] + ([x] + rest + ys);
  }

  /** The stable sort keeps the first of a group of ties first. */
  lemma FirstTie(first: Manifest, rest: seq<Manifest>, y: Manifest)
    requires SameKey(first, y)
    ensures var ties := TiedWith(Before, SortBy(Before, [first] + rest), y); ties != [] && ties[0] == first
  {
    BeforeOrders();
    SortFacts(Before, [first] + rest);
    assert TiedWith(Before, [first] + rest, y) == [first] + TiedWith(Before, rest, y) by {
      assert ([first] + rest)[1..] == rest && Tied(Before, first, y);
    }
  }

  lemma Listed(bag: multiset<Manifest>) returns (s: seq<Manifest>)
    ensures multiset(s) == bag
  {
    if bag == multiset{} {
      s := [];
    } else {
      var x :| x in bag;
      var t := Listed(bag - multiset{x});
      s := [x] + t;
    }
  }

  /**
   For manifests collected from a map: the status is independent of the order exactly when kind and
   name determine the manifest.
   */
  lemma OrderIndependence(bag: multiset<Manifest>, ys: seq<Manifest>)
    ensures KeysDetermine(bag) <==>
      forall xs, xs' | multiset(xs) == bag && multiset(xs') == bag :: StatusOf(xs, ys) == StatusOf(xs', ys)
  {
    if KeysDetermine(bag) {
      forall xs, xs' | multiset(xs) == bag && multiset(xs') == bag ensures StatusOf(xs, ys) == StatusOf(xs', ys) {
        SameStatus(xs, xs', ys, ys);
      }
    } else {
      var x, y :| x in bag && y in bag && SameKey(x, y) && x != y;
      var xs, xs' := TwoStatuses(bag, ys, x, y);
    }
  }

  lemma SortKeepsTies(s: seq<Manifest>, t: seq<Manifest>, y: Manifest)
    requires SortBy(Before, s) == SortBy(Before, t)
    ensures TiedWith(Before, s, y) == TiedWith(Before, t, y)
  {
    BeforeOrders();
    SortFacts(Before, s);
    SortFacts(Before, t);
  }

  /** The second map's order shows as well if its keys do not determine its manifests. */
  lemma TwoStatusesOfSecond(xs: seq<Manifest>, bag: multiset<Manifest>, x: Manifest, y: Manifest)
    returns (ys: seq<Manifest>, ys': seq<Manifest>)
    requires x in bag && y in bag && x != y && SameKey(x, y)
    ensures multiset(ys) == bag && multiset(ys') == bag && StatusOf(xs, ys) != StatusOf(xs, ys')
  {
    assert y in bag - multiset{x};
    var rest := Listed(bag - multiset{x} - multiset{y});
    ys, ys' := [x] + ([y] + rest), [y] + ([x] + rest);
    TieAfter(xs, x, [y] + rest, x);
    TieAfter(xs, y, [x] + rest, x);
    if StatusOf(xs, ys) == StatusOf(xs, ys') {
      SortKeepsTies(xs + ys, xs + ys', x);
    }
  }

  /** The first of the second list's ties stands behind all of the first list's. */
  lemma TieAfter(xs: seq<Manifest>, first: Manifest, rest: seq<Manifest>, y: Manifest)
    requires SameKey(first, y)
    ensures var before, ties := TiedWith(Before, xs, y), TiedWith(Before, xs + ([first] + rest), y);
            |before| < |ties| && ties[|before|] == first
  {
    TiedAppend(xs, [first] + rest, y);
    FirstOfTied(first, rest, y);
  }

  lemma FirstOfTied(first: Manifest, rest: seq<Manifest>, y: Manifest)
    requires SameKey(first, y)
    ensures var ties := TiedWith(Before, [first] + rest, y); ties != [] && ties[0] == first
  {
    BeforeOrders();
    assert ([first] + rest)[1..] == rest && Tied(Before, first, y);
  }

  /**
   Of the two maps together: one status for all orders exactly when within each map kind and name
   determine the manifest.
   */
  lemma OneStatus(providers: multiset<Manifest>, clusters: multiset<Manifest>)
    ensures KeysDetermine(providers) && KeysDetermine(clusters) <==>
      forall xs, xs', ys, ys' | && multiset(xs) == providers && multiset(xs') == providers
                                && multiset(ys) == clusters && multiset(ys') == clusters ::
        StatusOf(xs, ys) == StatusOf(xs', ys')
  {
    if KeysDetermine(providers) && KeysDetermine(clusters) {
      forall xs, xs', ys, ys' | && multiset(xs) == providers && multiset(xs') == providers
                                && multiset(ys) == clusters && multiset(ys') == clusters
        ensures StatusOf(xs, ys) == StatusOf(xs', ys')
      {
        SameStatus(xs, xs', ys, ys');
      }
    } else if !KeysDetermine(providers) {
      var x, y :| x in providers && y in providers && SameKey(x, y) && x != y;
      var ys := Listed(clusters);
      var xs, xs' := TwoStatuses(providers, ys, x, y);
    } else {
      var x, y :| x in clusters && y in clusters && SameKey(x, y) && x != y;
      var xs := Listed(providers);
      var ys, ys' := TwoStatusesOfSecond(xs, clusters, x, y);
    }
  }

  // ----- The status -----

  class Atlas {
    /** The status manifests, and how often they were written. */
    var manifests: seq<Manifest>
    var writes: nat

    /** Collects, sorts, compares, and writes if something has changed. */
    method SyncStatus(providers: map<string, Manifest>, clusters: map<string, Manifest>)
      modifies this
      ensures exists xs, ys ::
        multiset(xs) == Bag(providers) && multiset(ys) == Bag(clusters) && manifests == StatusOf(xs, ys)
      ensures writes == old(writes) + (if manifests == old(manifests) then 0 else 1)
    {
      var xs := Values(providers);
      var ys := Values(clusters);
      var list := SortBy(Before, xs + ys);
      assert list == StatusOf(xs, ys);
      if manifests != list {
        manifests := list;
        writes := writes + 1;
      }
    }

    /** The same where the second part is a list in the order of the plan, as it is for virtual machines. */
    method SyncStatusOfList(providers: map<string, Manifest>, machines: seq<Manifest>)
      modifies this
      ensures exists xs :: multiset(xs) == Bag(providers) && manifests == StatusOf(xs, machines)
      ensures writes == old(writes) + (if manifests == old(manifests) then 0 else 1)
    {
      var xs := Values(providers);
      var list := SortBy(Before, xs + machines);
      assert list == StatusOf(xs, machines);
      if manifests != list {
        manifests := list;
        writes := writes + 1;
      }
    }

    /** Two reconciles in a row of the same deployment write at most once if the keys determine the manifests. */
    method SyncTwice(providers: map<string, Manifest>, clusters: map<string, Manifest>)
      requires KeysDetermine(Bag(providers)) && KeysDetermine(Bag(clusters))
      modifies this
      ensures writes <= old(writes) + 1
    {
      SyncStatus(providers, clusters);
      ghost var xs, ys :| multiset(xs) == Bag(providers) && multiset(ys) == Bag(clusters)
          && manifests == StatusOf(xs, ys);
      SyncStatus(providers, clusters);
      ghost var xs', ys' :| multiset(xs') == Bag(providers) && multiset(ys') == Bag(clusters)
          && manifests == StatusOf(xs', ys');
      SameStatus(xs, xs', ys, ys');
    }

    /**
     Two reconciles in a row of the same virtual machines write at most once if the keys determine the
     providers' manifests, whatever the machines are: all machines of a plan have one name, and their
     order is that of the plan.
     */
    method SyncListTwice(providers: map<string, Manifest>, machines: seq<Manifest>)
      requires KeysDetermine(Bag(providers))
      modifies this
      ensures writes <= old(writes) + 1
    {
      SyncStatusOfList(providers, machines);
      ghost var xs :| multiset(xs) == Bag(providers) && manifests == StatusOf(xs, machines);
      SyncStatusOfList(providers, machines);
      ghost var xs' :| multiset(xs') == Bag(providers) && manifests == StatusOf(xs', machines);
      SameStatus(xs, xs', machines, machines);
    }
  }
}
