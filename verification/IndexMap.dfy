/**
 Which row of the address tables a provider gets: its place among the providers of its platform,
 however Go's maps are walked.
 */
module IndexMap {
  import opened Ordering

  /** A component's provider: name and platform. */
  datatype ProviderRef = ProviderRef(name: string, platform: string)

  /** No earlier reference has the name of the one at `i`. */
  predicate FirstReference(refs: seq<ProviderRef>, i: nat)
    requires i < |refs|
  {
    forall j | 0 <= j < i :: refs[j].name != refs[i].name
  }

  /** `m` has the names of `refs`, each with the platform of its first reference. */
  ghost predicate FirstPlatforms(refs: seq<ProviderRef>, m: map<string, string>)
  {
    && (forall n :: n in m <==> exists i :: 0 <= i < |refs| && refs[i].name == n)
    && (forall i | 0 <= i < |refs| && FirstReference(refs, i) :: m[refs[i].name] == refs[i].platform)
  }

  /** The providers of the components; of two references to one name the first counts. */
  method UniqueProviders(refs: seq<ProviderRef>) returns (m: map<string, string>)
    ensures FirstPlatforms(refs, m)
  {
    m := map[];
    for i := 0 to |refs|
      invariant FirstPlatforms(refs[..i], m)
    {
      OneMoreReference(refs[..i], refs[i], m);
      assert refs[..i + 1] == refs[..i] + [refs[i]];
      if refs[i].name !in m {
        m := m[refs[i].name := refs[i].platform];
      }
    }
    assert refs[..|refs|] == refs;
  }

  lemma OneMoreReference(refs: seq<ProviderRef>, ref: ProviderRef, m: map<string, string>)
    requires FirstPlatforms(refs, m)
    ensures FirstPlatforms(refs + [ref], if ref.name in m then m else m[ref.name := ref.platform])
  {
    var all := refs + [ref];
    var m' := if ref.name in m then m else m[ref.name := ref.platform];
    forall n ensures n in m' <==> exists i :: 0 <= i < |all| && all[i].name == n {
      if i :| 0 <= i < |refs| && refs[i].name == n { assert all[i].name == n; }
      assert all[|refs|].name == ref.name;
    }
    if ref.name in m {
      var j :| 0 <= j < |refs| && refs[j].name == ref.name;
      assert all[j].name == all[|refs|].name;
    }
    forall i | 0 <= i < |all| && FirstReference(all, i) ensures m'[all[i].name] == all[i].platform {
      if i < |refs| {
        assert forall j | 0 <= j < i :: refs[j] == all[j];
        assert FirstReference(refs, i);
      }
    }
  }

  lemma FirstOf(refs: seq<ProviderRef>, k: nat) returns (i: nat)
    requires k < |refs|
    ensures i <= k && refs[i].name == refs[k].name && FirstReference(refs, i)
  {
    if j :| 0 <= j < k && refs[j].name == refs[k].name {
      i := FirstOf(refs, j);
    } else {
      i := k;
    }
  }

  /** That leaves no freedom: a provider's row depends on the order of the components only through these platforms. */
  lemma PlatformsUnique(refs: seq<ProviderRef>, m: map<string, string>, m': map<string, string>)
    requires FirstPlatforms(refs, m) && FirstPlatforms(refs, m')
    ensures m == m'
  {
    forall n | n in m ensures n in m' && m[n] == m'[n] {
      var k :| 0 <= k < |refs| && refs[k].name == n;
      var i := FirstOf(refs, k);
    }
    assert m.Keys == m'.Keys;
  }

  // ----- Ranks -----

  function Names(pvs: map<string, string>, platform: string): set<string>
  {
    set n | n in pvs && pvs[n] == platform
  }

  function Below(names: set<string>, n: string): set<string>
  {
    set m | m in names && Less(m, n)
  }

  /** The place of `n` among the names of its platform. */
  function Rank(pvs: map<string, string>, n: string): nat
    requires n in pvs
  {
    |Below(Names(pvs, pvs[n]), n)|
  }

  ghost predicate IsIndexMap(pvs: map<string, string>, r: map<string, map<string, nat>>)
  {
    && r.Keys == pvs.Values
    && (forall p | p in r :: r[p].Keys == Names(pvs, p))
    && (forall p | p in r :: forall n | n in r[p] :: n in pvs && r[p][n] == Rank(pvs, n))
  }

  lemma LessOrders()
    ensures StrictWeakOrder(Less)
  {
    forall x ensures !Less(x, x) {
      LessIrreflexive(x);
    }
    forall x, y, z | Less(x, y) && Less(y, z) ensures Less(x, z) {
      LessTransitive(x, y, z);
    }
    forall x, y, z | Less(x, z) ensures Less(x, y) || Less(y, z) {
      LessTotal(x, y);
      LessTotal(y, z);
      if Less(y, x) {
        LessTransitive(y, x, z);
      }
    }
  }

  ghost predicate Increasing(s: seq<string>)
  {
    forall i, j | 0 <= i < j < |s| :: Less(s[i], s[j])
  }

  /** `sort.Strings` on distinct names. */
  method SortStrings(s: seq<string>) returns (r: seq<string>)
    requires |set n | n in s| == |s|
    ensures multiset(r) == multiset(s) && Increasing(r)
  {
    LessOrders();
    SortFacts(Less, s);
    r := SortBy(Less, s);
    assert (set n | n in r) == (set n | n in s) by {
      assert forall n :: n in r <==> n in multiset(r);
      assert forall n :: n in s <==> n in multiset(s);
    }
    assert |r| == |multiset(r)| == |multiset(s)| == |s|;
    forall i, j | 0 <= i < j < |r| ensures Less(r[i], r[j]) {
      LessTotal(r[i], r[j]);
      if r[i] == r[j] {
        FewerNames(r, i, j);
      }
    }
  }

  lemma FewerNames(s: seq<string>, i: nat, j: nat)
    requires i < j < |s| && s[i] == s[j]
    ensures |set n | n in s| < |s|
  {
    var t := s[..j] + s[j + 1..];
    assert forall n :: n in s ==> n in t by {
      forall n | n in s ensures n in t {
        var k :| 0 <= k < |s| && s[k] == n;
        if k < j { assert t[k] == n; } else if k > j { assert t[k - 1] == n; } else { assert t[i] == n; }
      }
    }
    NoMoreThan(t);
    assert (set n | n in s) <= (set n | n in t);
    Smaller(set n | n in s, set n | n in t);
  }

  lemma Smaller(a: set<string>, b: set<string>)
    requires a <= b
    ensures |a| <= |b|
  {
    assert |b - a| == |b| - |a|;
  }

  lemma {:induction false} NoMoreThan(s: seq<string>)
    ensures |set n | n in s| <= |s|
  {
    if s != [] {
      NoMoreThan(s[1..]);
      assert s == [s[0]] + s[1..];
      assert (set n | n in s) == {s[0]} + (set n | n in s[1..]);
    }
  }

  /** In an increasing list of exactly the names of a platform, a name stands at its rank. */
  lemma PlaceIsRank(names: set<string>, s: seq<string>, k: nat)
    requires Increasing(s) && k < |s| && names == set n | n in s
    ensures |Below(names, s[k])| == k
  {
    var before := s[..k];
    forall n ensures n in Below(names, s[k]) <==> n in before {
      if n in Below(names, s[k]) {
        var j :| 0 <= j < |s| && s[j] == n;
        LessIrreflexive(n);
        if j > k {
          LessTransitive(s[k], s[j], s[k]);
          LessIrreflexive(s[k]);
        }
        assert before[j] == n;
      }
    }
    assert Below(names, s[k]) == set n | n in before;
    Size(before);
  }

  lemma LastIsNew(s: seq<string>)
    requires Increasing(s) && s != []
    ensures s[|s| - 1] !in s[..|s| - 1]
  {
    LessIrreflexive(s[|s| - 1]);
  }

  lemma {:induction false} Size(s: seq<string>)
    requires Increasing(s)
    ensures |set n | n in s| == |s|
  {
    if s != [] {
      var init, last := s[..|s| - 1], s[|s| - 1];
      Size(init);
      assert s == init + [last];
      LastIsNew(s);
      assert (set n | n in s) == (set n | n in init) + {last};
    }
  }

  // ----- Building the map -----

  /** The names of every platform met so far, each once, in the order they were met. */
  ghost predicate Grouped(pvs: map<string, string>, done: set<string>, typed: map<string, seq<string>>)
  {
    && typed.Keys == (set n | n in done && n in pvs :: pvs[n])
    && (forall p | p in typed :: (set n | n in typed[p]) == (set n | n in done && n in pvs && pvs[n] == p))
    && (forall p | p in typed :: |set n | n in typed[p]| == |typed[p]|)
  }

  lemma AppendName(s: seq<string>, n: string)
    requires |set m | m in s| == |s| && n !in s
    ensures (set m | m in s + [n]) == (set m | m in s) + {n} && |set m | m in s + [n]| == |s + [n]|
  {
    assert (set m | m in s + [n]) == (set m | m in s) + {n};
  }

  method GroupByPlatform(pvs: map<string, string>) returns (typed: map<string, seq<string>>)
    ensures Grouped(pvs, pvs.Keys, typed)
  {
    typed := map[];
    var todo := pvs.Keys;
    while todo != {}
      invariant todo <= pvs.Keys && Grouped(pvs, pvs.Keys - todo, typed)
      decreases todo
    {
      var n :| n in todo;
      var platform := pvs[n];
      if platform !in typed {
        typed := typed[platform := []];
      }
      ghost var before := typed;
      AppendName(typed[platform], n);
      typed := typed[platform := typed[platform] + [n]];
      todo := todo - {n};
    }
    assert pvs.Keys - todo == pvs.Keys;
  }

  method IndexNames(names: seq<string>) returns (m: map<string, nat>)
    requires Increasing(names)
    ensures m.Keys == set n | n in names
    ensures forall k | 0 <= k < |names| :: m[names[k]] == k
  {
    m := map[];
    for id := 0 to |names|
      invariant m.Keys == set n | n in names[..id]
      invariant forall k | 0 <= k < id :: names[k] in m && m[names[k]] == k
    {
      forall k | 0 <= k < id ensures names[k] != names[id] {
        LessIrreflexive(names[k]);
      }
      m := m[names[id] := id];
      assert names[..id + 1] == names[..id] + [names[id]];
    }
    assert names[..|names|] == names;
  }

  method IndexPlatform(pvs: map<string, string>, platform: string, names: seq<string>) returns (m: map<string, nat>)
    requires (set n | n in names) == Names(pvs, platform) && |set n | n in names| == |names|
    ensures m.Keys == Names(pvs, platform)
    ensures forall n | n in m :: n in pvs && m[n] == Rank(pvs, n)
  {
    var sorted := SortStrings(names);
    assert forall n :: n in sorted <==> n in multiset(sorted);
    assert forall n :: n in names <==> n in multiset(names);
    assert (set n | n in sorted) == Names(pvs, platform);
    m := IndexNames(sorted);
    forall n | n in m ensures n in pvs && m[n] == Rank(pvs, n) {
      var k :| 0 <= k < |sorted| && sorted[k] == n;
      PlaceIsRank(Names(pvs, platform), sorted, k);
    }
  }

  method BuildIndexMap(pvs: map<string, string>) returns (r: map<string, map<string, nat>>)
    ensures IsIndexMap(pvs, r)
  {
    var typed := GroupByPlatform(pvs);
    r := map[];
    var todo := typed.Keys;
    while todo != {}
      invariant todo <= typed.Keys && r.Keys == typed.Keys - todo
      invariant forall p | p in r :: r[p].Keys == Names(pvs, p)
      invariant forall p | p in r :: forall n | n in r[p] :: n in pvs && r[p][n] == Rank(pvs, n)
      decreases todo
    {
      var platform :| platform in todo;
      assert (set n | n in typed[platform]) == Names(pvs, platform);
      var m := IndexPlatform(pvs, platform, typed[platform]);
      r := r[platform := m];
      todo := todo - {platform};
    }
    assert typed.Keys == pvs.Values;
  }

  // ----- What the map gives -----

  /** There is one index map, so the orders in which the maps were walked do not show. */
  lemma OrderDoesNotShow(pvs: map<string, string>, r: map<string, map<string, nat>>, r': map<string, map<string, nat>>)
    requires IsIndexMap(pvs, r) && IsIndexMap(pvs, r')
    ensures r == r'
  {
    forall p | p in r ensures r[p] == r'[p] {
      OnePlatform(pvs, r, r', p);
    }
  }

  lemma OnePlatform(pvs: map<string, string>, r: map<string, map<string, nat>>, r': map<string, map<string, nat>>,
      p: string)
    requires IsIndexMap(pvs, r) && IsIndexMap(pvs, r') && p in r && p in r'
    ensures r[p] == r'[p]
  {
    var a, b := r[p], r'[p];
    assert a.Keys == b.Keys;
    forall n | n in a ensures a[n] == b[n] {
      assert a[n] == Rank(pvs, n) == b[n];
    }
  }

  /** The names and platforms of the components' providers, and the index map made of them. */
  method IndexProviders(refs: seq<ProviderRef>) returns (pvs: map<string, string>, r: map<string, map<string, nat>>)
    ensures FirstPlatforms(refs, pvs) && IsIndexMap(pvs, r)
  {
    pvs := UniqueProviders(refs);
    r := BuildIndexMap(pvs);
  }

  /** References of one name name one platform. */
  predicate Consistent(refs: seq<ProviderRef>)
  {
    forall i, j | 0 <= i < |refs| && 0 <= j < |refs| && refs[i].name == refs[j].name ::
        refs[i].platform == refs[j].platform
  }

  /**
   With consistent references, neither the order of the components nor how often they name a provider
   shows in any row.
   */
  lemma PlanOrderDoesNotShow(refs: seq<ProviderRef>, pvs: map<string, string>, r: map<string, map<string, nat>>,
                             refs': seq<ProviderRef>, pvs': map<string, string>, r': map<string, map<string, nat>>)
    requires Consistent(refs) && forall x :: x in refs <==> x in refs'
    requires FirstPlatforms(refs, pvs) && IsIndexMap(pvs, r) && FirstPlatforms(refs', pvs') && IsIndexMap(pvs', r')
    ensures pvs == pvs' && r == r'
  {
    SamePlatforms(refs, pvs, refs', pvs');
    OrderDoesNotShow(pvs, r, r');
  }

  lemma SamePlatforms(refs: seq<ProviderRef>, pvs: map<string, string>, refs': seq<ProviderRef>,
      pvs': map<string, string>)
    requires Consistent(refs) && forall x :: x in refs <==> x in refs'
    requires FirstPlatforms(refs, pvs) && FirstPlatforms(refs', pvs')
    ensures pvs == pvs'
  {
    forall n ensures (n in pvs <==> n in pvs') && (n in pvs ==> pvs[n] == pvs'[n]) {
      if n in pvs {
        var x := ReferenceTo(refs, pvs, n);
        PlatformOf(refs, pvs, x, refs);
        PlatformOf(refs', pvs', x, refs);
      } else if n in pvs' {
        var x := ReferenceTo(refs', pvs', n);
        PlatformOf(refs, pvs, x, refs);
      }
    }
    assert pvs.Keys == pvs'.Keys;
  }

  lemma ReferenceTo(refs: seq<ProviderRef>, pvs: map<string, string>, n: string) returns (x: ProviderRef)
    requires FirstPlatforms(refs, pvs) && n in pvs
    ensures x in refs && x.name == n
  {
    var i :| 0 <= i < |refs| && refs[i].name == n;
    x := refs[i];
  }

  lemma PlatformOf(refs: seq<ProviderRef>, pvs: map<string, string>, x: ProviderRef, all: seq<ProviderRef>)
    requires FirstPlatforms(refs, pvs) && x in refs && Consistent(all) && forall y :: y in refs ==> y in all
    ensures x.name in pvs && pvs[x.name] == x.platform
  {
    var k :| 0 <= k < |refs| && refs[k] == x;
    var i := FirstOf(refs, k);
    assert refs[i] in all && x in all;
    var a :| 0 <= a < |all| && all[a] == refs[i];
    var b :| 0 <= b < |all| && all[b] == x;
  }

  /** On each platform the ranks run through 0 .. n - 1, in the order of the names. */
  lemma RanksAreABijection(pvs: map<string, string>, platform: string) returns (s: seq<string>)
    ensures Increasing(s) && Names(pvs, platform) == (set n | n in s) && |s| == |Names(pvs, platform)|
    ensures forall k | 0 <= k < |s| :: s[k] in pvs && Rank(pvs, s[k]) == k
  {
    s := InOrder(Names(pvs, platform));
    forall k | 0 <= k < |s| ensures s[k] in pvs && Rank(pvs, s[k]) == k {
      assert s[k] in Names(pvs, platform);
      PlaceIsRank(Names(pvs, platform), s, k);
    }
  }

  lemma RanksDiffer(pvs: map<string, string>, n: string, m: string)
    requires n in pvs && m in pvs && n != m && pvs[n] == pvs[m]
    ensures Rank(pvs, n) != Rank(pvs, m)
  {
    var s := RanksAreABijection(pvs, pvs[n]);
    assert n in Names(pvs, pvs[n]) && m in Names(pvs, pvs[n]);
    var i :| 0 <= i < |s| && s[i] == n;
    var j :| 0 <= j < |s| && s[j] == m;
  }

  lemma InOrder(names: set<string>) returns (s: seq<string>)
    ensures Increasing(s) && names == set n | n in s
    ensures |s| == |names|
  {
    if names == {} {
      s := [];
    } else {
      var last := Greatest(names);
      var init := InOrder(names - {last});
      s := init + [last];
      AppendGreatest(names, init, last);
    }
  }

  lemma AppendGreatest(names: set<string>, init: seq<string>, last: string)
    requires last in names && (forall n | n in names && n != last :: Less(n, last))
    requires Increasing(init) && names - {last} == set n | n in init
    ensures Increasing(init + [last]) && names == (set n | n in init + [last]) && |init + [last]| == |names|
  {
    var s := init + [last];
    assert (set n | n in s) == (set n | n in init) + {last};
    forall i | 0 <= i < |init| ensures Less(init[i], last) {
      var inits := set n | n in init;
      assert init[i] in inits;
      assert init[i] in names && init[i] != last;
    }
    Size(s);
  }

  lemma Greatest(names: set<string>) returns (g: string)
    requires names != {}
    ensures g in names && forall n | n in names && n != g :: Less(n, g)
  {
    var n :| n in names;
    if names == {n} {
      g := n;
    } else {
      assert names - {n} != {};
      var h := Greatest(names - {n});
      LessTotal(n, h);
      g := if Less(n, h) then h else n;
      forall m | m in names && m != g ensures Less(m, g) {
        if m != n && m != h && Less(h, n) {
          LessTransitive(m, h, n);
        }
      }
    }
  }

  /** A row of the address tables. */
  datatype TableRow = TableRow(platform: string, index: nat)

  function ProviderRow(pvs: map<string, string>, n: string): TableRow
    requires n in pvs
  {
    TableRow(pvs[n], Rank(pvs, n))
  }

  /**
   The row of a cluster: it goes by the platform of the provider's profile, and a name that is not
   under that platform reads as index 0.
   */
  function KubeRow(r: map<string, map<string, nat>>, profilePlatform: string, n: string): TableRow
  {
    TableRow(profilePlatform, if profilePlatform in r && n in r[profilePlatform] then r[profilePlatform][n] else 0)
  }

  /** No two providers share a row. */
  lemma ProviderRowsDiffer(pvs: map<string, string>, n: string, m: string)
    requires n in pvs && m in pvs && n != m
    ensures ProviderRow(pvs, n) != ProviderRow(pvs, m)
  {
    if pvs[n] == pvs[m] {
      RanksDiffer(pvs, n, m);
    }
  }

  /**
   A provider and its cluster use the same row when the reference and the profile name the same platform,
   and only then.
   */
  lemma SameRowIffPlatformsAgree(pvs: map<string, string>, r: map<string, map<string, nat>>, profilePlatform: string,
      n: string)
    requires IsIndexMap(pvs, r) && n in pvs
    ensures KubeRow(r, profilePlatform, n) == ProviderRow(pvs, n) <==> profilePlatform == pvs[n]
  {
    assert pvs[n] in pvs.Values;
  }

  /**
   Clusters of two providers share a row exactly when their profiles name one platform on which both
   have index 0, the one as its first provider or not at all, the other not at all.
   */
  lemma SharedKubeRow(pvs: map<string, string>, r: map<string, map<string, nat>>, a: string, pa: string, b: string,
      pb: string)
    requires IsIndexMap(pvs, r) && a in pvs && b in pvs && a != b
    ensures KubeRow(r, pa, a) == KubeRow(r, pb, b)
        <==> pa == pb && KubeRow(r, pa, a).index == 0 && KubeRow(r, pb, b).index == 0
    ensures pvs[a] == pa && pvs[b] == pb ==> KubeRow(r, pa, a) != KubeRow(r, pb, b)
  {
    if pvs[a] == pa && pvs[b] == pb {
      SameRowIffPlatformsAgree(pvs, r, pa, a);
      SameRowIffPlatformsAgree(pvs, r, pb, b);
      ProviderRowsDiffer(pvs, a, b);
    }
  }
}
