/**
 Failover labelling of the service mesh (`derivePriorities`).

 Every edge writes labels into maps that all edges share. Istio sends traffic to the endpoint
 that matches the longest prefix of the ordered label list, so the labels of one edge must
 survive what every other edge writes. `RankingExact` says when they do.
 */
module Failover {
  import opened Wrappers
  import opened Ordering

  datatype Provider = Provider(name: string, regionAlias: string, region: string, zone: string)

  /** A component of the deployment plan, placed on a provider. */
  datatype Component = Component(kind: string, name: string, provider: Provider)

  datatype Edge = Edge(from: Component, to: Component)

  datatype Label = Label(key: string, value: string)

  /** `source` maps a target to the ordered labels of its destination rule; `all` is the pod's own labels. */
  datatype PriorityLabels = PriorityLabels(source: map<string, seq<Label>>, all: map<string, string>)

  type Priorities = map<string, PriorityLabels>

  function UniqueName(c: Component): string
  {
    c.name + "-" + c.provider.name
  }

  // ----- The backup of an edge -----

  /** How many location attributes of `c` match `from`. */
  function Score(from: Provider, c: Component): nat
  {
    (if c.provider.regionAlias == from.regionAlias then 1 else 0)
    + (if c.provider.region == from.region then 1 else 0)
    + (if c.provider.zone == from.zone then 1 else 0)
  }

  /** What the location of a provider is made of. */
  datatype Attribute = RegionAlias | Region | Zone

  function ValueOf(p: Provider, a: Attribute): string
  {
    match a
    case RegionAlias => p.regionAlias
    case Region => p.region
    case Zone => p.zone
  }

  /** The attributes in which two locations agree. */
  function Agreeing(p: Provider, q: Provider): set<Attribute>
  {
    set a: Attribute | ValueOf(p, a) == ValueOf(q, a)
  }

  lemma ScoreCountsAgreeing(from: Provider, c: Component)
    ensures Score(from, c) == |Agreeing(from, c.provider)|
  {
    CountAttributes(Agreeing(from, c.provider));
  }

  lemma CountAttributes(s: set<Attribute>)
    ensures |s| == (if RegionAlias in s then 1 else 0) + (if Region in s then 1 else 0) + (if Zone in s then 1 else 0)
  {
    var alias := if RegionAlias in s then {RegionAlias} else {};
    var region := if Region in s then {Region} else {};
    var zone := if Zone in s then {Zone} else {};
    forall a: Attribute ensures a in s <==> a in alias + (region + zone) {
      match a {
        case RegionAlias =>
        case Region =>
        case Zone =>
      }
    }
    assert s == alias + (region + zone);
    DisjointCount(region, zone);
    DisjointCount(alias, region + zone);
  }

  lemma DisjointCount<T>(a: set<T>, b: set<T>)
    requires a !! b
    ensures |a + b| == |a| + |b|
  {
  }

  predicate Preferred(from: Provider, a: Component, b: Component)
  {
    if Score(from, a) == Score(from, b) then Less(a.provider.name, b.provider.name)
    else Score(from, a) > Score(from, b)
  }

  /** The other placements of the component that `to` is a placement of. */
  function Replicas(cmpnts: seq<Component>, to: Component): seq<Component>
  {
    if cmpnts == [] then []
    else (if cmpnts[0].name == to.name && cmpnts[0].provider.name != to.provider.name then [cmpnts[0]] else [])
         + Replicas(cmpnts[1..], to)
  }

  function Backups(cmpnts: seq<Component>, e: Edge): seq<Component>
  {
    SortBy((a, b) => Preferred(e.from.provider, a, b), Replicas(cmpnts, e.to))
  }

  function Backup(cmpnts: seq<Component>, e: Edge): Option<Component>
  {
    var backups := Backups(cmpnts, e);
    if backups == [] then None else Some(backups[0])
  }

  lemma PreferredIsOrder(from: Provider)
    ensures StrictWeakOrder((a, b) => Preferred(from, a, b))
  {
    var lt := (a, b) => Preferred(from, a, b);
    forall x ensures !lt(x, x) {
      LessIrreflexive(x.provider.name);
    }
    forall x, y, z | lt(x, y) && lt(y, z) ensures lt(x, z) {
      if Score(from, x) == Score(from, y) == Score(from, z) {
        LessTransitive(x.provider.name, y.provider.name, z.provider.name);
      }
    }
    forall x, y, z | lt(x, z) ensures lt(x, y) || lt(y, z) {
      if Score(from, x) == Score(from, y) == Score(from, z) {
        LessTotal(x.provider.name, y.provider.name);
        LessTotal(y.provider.name, z.provider.name);
      }
    }
  }

  lemma {:induction false} ReplicasMembers(cmpnts: seq<Component>, to: Component)
    ensures forall c :: c in Replicas(cmpnts, to)
                    <==> c in cmpnts && c.name == to.name && c.provider.name != to.provider.name
  {
    if cmpnts != [] {
      ReplicasMembers(cmpnts[1..], to);
      assert cmpnts == [cmpnts[0]] + cmpnts[1..];
    }
  }

  lemma BackupScoresMost(cmpnts: seq<Component>, e: Edge)
    ensures Backup(cmpnts, e).None?
       <==> forall c | c in cmpnts && c.name == e.to.name :: c.provider.name == e.to.provider.name
    ensures Backup(cmpnts, e).Some? ==>
              var b := Backup(cmpnts, e).value;
              && b in cmpnts && b.name == e.to.name && b.provider.name != e.to.provider.name
              && (forall c | c in cmpnts && c.name == e.to.name && c.provider.name != e.to.provider.name ::
                    && Score(e.from.provider, c) <= Score(e.from.provider, b)
                    && (Score(e.from.provider, c) == Score(e.from.provider, b)
                        ==> !Less(c.provider.name, b.provider.name)))
  {
    var rs, sorted := Replicas(cmpnts, e.to), Backups(cmpnts, e);
    ReplicasMembers(cmpnts, e.to);
    FirstIsPreferred(e.from.provider, rs);
    if sorted != [] {
      forall c | c in rs ensures !Preferred(e.from.provider, c, sorted[0]) {
      }
    }
  }

  /**
   `b` is the placement of the same component on another provider that shares the most of region
   alias, region and zone with the source, the lesser provider name deciding among equals.
   */
  ghost predicate Nearest(cmpnts: seq<Component>, e: Edge, b: Component)
  {
    var from := e.from.provider;
    && b in cmpnts && b.name == e.to.name && b.provider.name != e.to.provider.name
    && forall c | c in cmpnts && c.name == e.to.name && c.provider.name != e.to.provider.name ::
      && |Agreeing(from, c.provider)| <= |Agreeing(from, b.provider)|
      && (|Agreeing(from, c.provider)| == |Agreeing(from, b.provider)| ==> !Less(c.provider.name, b.provider.name))
  }

  /** The backup is the nearest other placement; there is none only when the component has no other. */
  lemma BackupIsNearest(cmpnts: seq<Component>, e: Edge)
    ensures Backup(cmpnts, e).None?
       <==> forall c | c in cmpnts && c.name == e.to.name :: c.provider.name == e.to.provider.name
    ensures Backup(cmpnts, e).Some? ==> Nearest(cmpnts, e, Backup(cmpnts, e).value)
  {
    BackupScoresMost(cmpnts, e);
    forall c {
      ScoreCountsAgreeing(e.from.provider, c);
    }
  }

  /** A placement at the very location of the source is not passed over for one elsewhere. */
  lemma BackupInPlace(cmpnts: seq<Component>, e: Edge, c: Component)
    requires c in cmpnts && c.name == e.to.name && c.provider.name != e.to.provider.name
    requires c.provider.regionAlias == e.from.provider.regionAlias
    requires c.provider.region == e.from.provider.region && c.provider.zone == e.from.provider.zone
    ensures Backup(cmpnts, e).Some?
    ensures var b := Backup(cmpnts, e).value.provider;
            && b.regionAlias == e.from.provider.regionAlias
            && b.region == e.from.provider.region && b.zone == e.from.provider.zone
  {
    BackupIsNearest(cmpnts, e);
    ScoreCountsAgreeing(e.from.provider, c);
    ScoreCountsAgreeing(e.from.provider, Backup(cmpnts, e).value);
  }

  /** Sorting puts one first to which none is preferred. */
  lemma FirstIsPreferred(from: Provider, rs: seq<Component>)
    ensures var sorted := SortBy((a, b) => Preferred(from, a, b), rs);
      && (sorted == [] <==> forall c :: c !in rs)
      && (sorted != [] ==> sorted[0] in rs && forall c | c in rs :: !Preferred(from, c, sorted[0]))
  {
    var lt := (a, b) => Preferred(from, a, b);
    PreferredIsOrder(from);
    SortFacts(lt, rs);
    SortedFirst(lt, rs, SortBy(lt, rs));
  }

  lemma SortedFirst<T(!new)>(lt: (T, T) -> bool, rs: seq<T>, sorted: seq<T>)
    requires StrictWeakOrder(lt) && Sorted(lt, sorted) && multiset(sorted) == multiset(rs)
    ensures sorted == [] <==> forall c :: c !in rs
    ensures sorted != [] ==> sorted[0] in rs && forall c | c in rs :: !lt(c, sorted[0])
  {
    assert forall c :: c in rs <==> c in multiset(rs);
    assert forall c :: c in sorted <==> c in multiset(sorted);
    if sorted != [] {
      assert sorted[0] in sorted;
      forall c | c in rs ensures !lt(c, sorted[0]) {
        var i :| 0 <= i < |sorted| && sorted[i] == c;
      }
    } else {
      assert forall c :: c !in sorted;
    }
  }

  // ----- The labels -----

  function LabelKey(shorten: string -> string, from: string, to: string): string
  {
    shorten("failover/" + from + "-" + to)
  }

  function LabelValue(shorten: string -> string, from: string, to: string): string
  {
    shorten(from + "-" + to)
  }

  function PrimaryLabel(shorten: string -> string, from: string, to: string): Label
  {
    Label(LabelKey(shorten, from, to), LabelValue(shorten, from, to))
  }

  function BackupLabel(shorten: string -> string, from: string, to: string): Label
  {
    Label(LabelKey(shorten, from, to), LabelValue(shorten, from, to) + "-backup")
  }

  /** What an edge means for labelling: the names of its source, its primary and its backup. */
  datatype Names = Names(from: string, to: string, backup: Option<string>)

  function NamesOf(cmpnts: seq<Component>, e: Edge): (n: Names)
    ensures n.backup != Some(n.to)
  {
    var b := Backup(cmpnts, e);
    BackupScoresMost(cmpnts, e);
    assert b.Some? ==> UniqueName(b.value) != UniqueName(e.to) by {
      if b.Some? {
        var p := e.to.name + "-";
        assert UniqueName(b.value)[|p|..] == b.value.provider.name;
        assert UniqueName(e.to)[|p|..] == e.to.provider.name;
      }
    }
    Names(UniqueName(e.from), UniqueName(e.to), if b.None? then None else Some(UniqueName(b.value)))
  }

  function Ensure(ls: Priorities, name: string): Priorities
  {
    if name in ls then ls else ls[name := PriorityLabels(map[], map[])]
  }

  function AddSource(ls: Priorities, from: string, to: string, l: Label): Priorities
    requires from in ls
  {
    var prior := if to in ls[from].source then ls[from].source[to] else [];
    ls[from := ls[from].(source := ls[from].source[to := prior + [l]])]
  }

  function AddPodLabel(ls: Priorities, name: string, l: Label): Priorities
    requires name in ls
  {
    ls[name := ls[name].(all := ls[name].all[l.key := l.value])]
  }

  /** What one edge does to the shared labels. */
  function AddEdge(shorten: string -> string, ls: Priorities, n: Names): Priorities
  {
    var ls := Ensure(Ensure(ls, n.from), n.to);
    var primary := PrimaryLabel(shorten, n.from, n.to);
    var ls := AddPodLabel(AddSource(ls, n.from, n.to, primary), n.to, primary);
    match n.backup
    case None => ls
    case Some(b) =>
      var backup := BackupLabel(shorten, n.from, b);
      var ls := AddSource(Ensure(ls, b), n.from, n.to, backup);
      AddPodLabel(AddPodLabel(ls, n.to, backup), b, primary)
  }

  /** The labels after the edges of `ns`, in order. */
  function Derive(shorten: string -> string, ns: seq<Names>): Priorities
  {
    if ns == [] then map[] else AddEdge(shorten, Derive(shorten, ns[..|ns| - 1]), ns[|ns| - 1])
  }

  predicate Mentions(n: Names, x: string)
  {
    x == n.from || x == n.to || Some(x) == n.backup
  }

  lemma AddEdgeNames(shorten: string -> string, ls: Priorities, n: Names, x: string)
    ensures x in AddEdge(shorten, ls, n) <==> x in ls || Mentions(n, x)
  {
  }

  /** The labels have an entry for exactly the sources, targets and backups of the edges. */
  lemma {:induction false} DerivedNames(shorten: string -> string, ns: seq<Names>, x: string)
    ensures x in Derive(shorten, ns) <==> exists n | n in ns :: Mentions(n, x)
  {
    if ns != [] {
      var k := |ns| - 1;
      assert ns == ns[..k] + [ns[k]];
      DerivedNames(shorten, ns[..k], x);
      AddEdgeNames(shorten, Derive(shorten, ns[..k]), ns[k], x);
    }
  }

  /** Some edge goes from, goes to, or falls back to the placement called `x`. */
  ghost predicate Named(cmpnts: seq<Component>, edges: seq<Edge>, x: string)
  {
    exists e | e in edges :: Touches(cmpnts, e, x)
  }

  predicate Touches(cmpnts: seq<Component>, e: Edge, x: string)
  {
    x == UniqueName(e.from) || x == UniqueName(e.to)
        || (Backup(cmpnts, e).Some? && x == UniqueName(Backup(cmpnts, e).value))
  }

  lemma TouchedIsMentioned(cmpnts: seq<Component>, e: Edge, x: string)
    ensures Mentions(NamesOf(cmpnts, e), x) <==> Touches(cmpnts, e, x)
  {
  }

  lemma NamedExact(shorten: string -> string, cmpnts: seq<Component>, edges: seq<Edge>, x: string)
    ensures x in Derive(shorten, AllNames(cmpnts, edges)) <==> Named(cmpnts, edges, x)
  {
    var ns := AllNames(cmpnts, edges);
    DerivedNames(shorten, ns, x);
    forall i | 0 <= i < |edges| ensures Mentions(ns[i], x) <==> Touches(cmpnts, edges[i], x) {
      TouchedIsMentioned(cmpnts, edges[i], x);
    }
    if e :| e in edges && Touches(cmpnts, e, x) {
      var i :| 0 <= i < |edges| && edges[i] == e;
      assert ns[i] in ns;
    }
    if n :| n in ns && Mentions(n, x) {
      var i :| 0 <= i < |ns| && ns[i] == n;
      assert edges[i] in edges;
    }
  }

  function AllNames(cmpnts: seq<Component>, edges: seq<Edge>): (ns: seq<Names>)
    ensures |ns| == |edges|
  {
    seq(|edges|, i requires 0 <= i < |edges| => NamesOf(cmpnts, edges[i]))
  }

  method DerivePriorities(cmpnts: seq<Component>, edges: seq<Edge>, shorten: string -> string)
    returns (labels: Priorities)
    ensures labels == Derive(shorten, AllNames(cmpnts, edges))
  {
    labels := map[];
    ghost var ns := AllNames(cmpnts, edges);
    for i := 0 to |edges|
      invariant labels == Derive(shorten, ns[..i])
    {
      assert ns[..i + 1][..i] == ns[..i];
      assert Derive(shorten, ns[..i + 1]) == AddEdge(shorten, labels, ns[i]);
      var from, to := edges[i].from, edges[i].to;
      var fromName, toName := UniqueName(from), UniqueName(to);
      if fromName !in labels {
        labels := labels[fromName := PriorityLabels(map[], map[])];
      }
      if toName !in labels {
        labels := labels[toName := PriorityLabels(map[], map[])];
      }
      var toLabel := Label(shorten("failover/" + fromName + "-" + toName), shorten(fromName + "-" + toName));
      labels := AddSource(labels, fromName, toName, toLabel);
      labels := AddPodLabel(labels, toName, toLabel);

      var backups := Backups(cmpnts, edges[i]);
      if backups == [] {
        continue;
      }
      var bkName := UniqueName(backups[0]);
      if bkName !in labels {
        labels := labels[bkName := PriorityLabels(map[], map[])];
      }
      var bkLabel := Label(shorten("failover/" + fromName + "-" + bkName),
          shorten(fromName + "-" + bkName) + "-backup");
      labels := AddSource(labels, fromName, toName, bkLabel);
      labels := AddPodLabel(labels, toName, bkLabel);
      labels := AddPodLabel(labels, bkName, toLabel);
    }
    assert ns[..|edges|] == ns;
  }
}
