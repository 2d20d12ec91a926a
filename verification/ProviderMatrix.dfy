/**
 The two tables handed to the optimizer: every enabled zone, and the latency and egress cost of
 every ordered pair of them.
 */
module ProviderMatrix {
  import opened Wrappers
  import opened Text
  import opened Ordering

  /** A measured or configured number: missing, not a number, or a value. */
  datatype Reading = Absent | Malformed | Number(value: real)

  datatype EgressCost = EgressCost(kind: string, tiers: seq<Reading>)

  datatype Zone = Zone(name: string, kind: string, enabled: bool, isDefault: bool)

  /** A provider profile: `costs` are the egress costs of its status. */
  datatype Profile = Profile(name: string, platform: string, region: string, regionAlias: string, zones: seq<Zone>,
      costs: seq<EgressCost>)

  datatype Latency = Latency(pair: string, p95: Reading, p99: Reading, last: Reading)

  /** One endpoint of the table: a zone of a profile. */
  datatype End = End(profile: Profile, zone: Zone)

  /** `zone` is empty where the table leaves it out. */
  datatype Place = Place(platform: string, region: string, zone: string)

  datatype Attr = Attr(srcName: string, dstName: string, src: Place, dst: Place, latency: real, egress: real)

  // ----- Names and pair keys -----

  function NameOf(e: End): string
  {
    e.profile.platform + "-" + e.profile.region + "-" + e.zone.name
  }

  function SiteName(p: Profile): string
  {
    p.platform + "-" + p.region
  }

  function CanonicalPair(a: string, b: string): (string, string)
  {
    if Less(b, a) then (b, a) else (a, b)
  }

  /** The key does not depend on who asks. */
  lemma CanonicalPairSymmetric(a: string, b: string)
    ensures CanonicalPair(a, b) == CanonicalPair(b, a)
  {
    LessTotal(a, b);
    if Less(a, b) && Less(b, a) {
      LessTransitive(a, b, a);
      LessIrreflexive(a);
    }
  }

  function SanitizeChar(c: char): char
  {
    if 'a' <= c <= 'z' || '0' <= c <= '9' || c == '-' then c else '-'
  }

  function SanitizeLower(s: string): (r: string)
    ensures |r| == |s|
    ensures forall i | 0 <= i < |s| :: r[i] == SanitizeChar(s[i])
  {
    if s == [] then [] else [SanitizeChar(s[0])] + SanitizeLower(s[1..])
  }

  function SanitizeName(s: string): string
  {
    SanitizeLower(Lower(s))
  }

  function PairLabel(p: Profile, q: Profile): string
  {
    var pair := CanonicalPair(SiteName(p), SiteName(q));
    SanitizeName(pair.0) + "-" + SanitizeName(pair.1)
  }

  // ----- What a key tells -----

  /** Sanitizing lowers capitals, keeps lower-case letters, digits and dashes, and makes a dash of all else. */
  lemma SanitizeExact(s: string, i: nat)
    requires i < |s|
    ensures var r := SanitizeName(s);
            && |r| == |s|
            && r[i] == if 'A' <= s[i] <= 'Z' then (s[i] as int + 32) as char
                       else if 'a' <= s[i] <= 'z' || '0' <= s[i] <= '9' then s[i] else '-'
  {
    LowerExact(s, i);
  }

  /** The sanitized name of the site of `p`. */
  function SiteKey(p: Profile): string
  {
    SanitizeName(p.platform + "-" + p.region)
  }

  /** The profiles are of one site, or neither sanitized site name begins with the other and a dash. */
  predicate Apart(p: Profile, q: Profile)
  {
    || (p.platform == q.platform && p.region == q.region)
    || !(SiteKey(p) + "-" <= SiteKey(q) + "-" || SiteKey(q) + "-" <= SiteKey(p) + "-")
  }

  /** The two pairs of profiles are of the same two sites, in whichever order. */
  predicate SameSites(p: Profile, q: Profile, p': Profile, q': Profile)
  {
    var (a, b) := ((p.platform, p.region), (q.platform, q.region));
    var (c, d) := ((p'.platform, p'.region), (q'.platform, q'.region));
    (a == c && b == d) || (a == d && b == c)
  }

  predicate PairsApart(p: Profile, q: Profile, p': Profile, q': Profile)
  {
    Apart(p, p') && Apart(p, q') && Apart(q, p') && Apart(q, q')
  }

  lemma OneOrder(p: Profile, q: Profile)
    ensures PairLabel(p, q) in {SiteKey(p) + "-" + SiteKey(q), SiteKey(q) + "-" + SiteKey(p)}
  {
  }

  /** Joined keys of sites that are apart can be taken apart again. */
  lemma JoinedSites(p: Profile, q: Profile, p': Profile, q': Profile)
    requires Apart(p, p') && Apart(q, q')
    requires SiteKey(p) + "-" + SiteKey(q) == SiteKey(p') + "-" + SiteKey(q')
    ensures p.platform == p'.platform && p.region == p'.region && q.platform == q'.platform && q.region == q'.region
  {
    JoinExact(SiteKey(p), SiteKey(q), SiteKey(p'), SiteKey(q'));
    var s := SiteKey(p) + "-" + SiteKey(q);
    assert SiteKey(p) + "-" == s[..|SiteKey(p)| + 1] && SiteKey(p') + "-" == s[..|SiteKey(p')| + 1];
    assert SiteKey(p) + "-" <= s && SiteKey(p') + "-" <= s;
    PrefixesOfOne(SiteKey(p) + "-", SiteKey(p') + "-", s);
    assert SiteKey(p) == SiteKey(p') ==> SiteKey(q) == SiteKey(q');
  }

  lemma PrefixesOfOne(a: string, b: string, s: string)
    requires a <= s && b <= s
    ensures a <= b || b <= a
  {
  }

  /** The key tells sites apart: two pairs of profiles have the same one exactly if they are of the same two sites. */
  lemma PairLabelExact(p: Profile, q: Profile, p': Profile, q': Profile)
    requires PairsApart(p, q, p', q')
    ensures PairLabel(p, q) == PairLabel(p', q') <==> SameSites(p, q, p', q')
  {
    PairLabelSymmetric(p, q);
    if PairLabel(p, q) == PairLabel(p', q') {
      OneOrder(p, q);
      OneOrder(p', q');
      if PairLabel(p, q) == SiteKey(p) + "-" + SiteKey(q) {
        if PairLabel(p', q') == SiteKey(p') + "-" + SiteKey(q') {
          JoinedSites(p, q, p', q');
        } else {
          JoinedSites(p, q, q', p');
        }
      } else {
        if PairLabel(p', q') == SiteKey(p') + "-" + SiteKey(q') {
          JoinedSites(q, p, p', q');
        } else {
          JoinedSites(q, p, q', p');
        }
      }
    }
  }

  /**
   Without that condition: with each pair named in string order, two keys are the same exactly if the
   sanitized names are, or a dash of the key can be read as the one between the names in two ways.
   */
  lemma CollisionExact(p: Profile, q: Profile, p': Profile, q': Profile)
    requires !Less(q.platform + "-" + q.region, p.platform + "-" + p.region)
    requires !Less(q'.platform + "-" + q'.region, p'.platform + "-" + p'.region)
    ensures PairLabel(p, q) == PairLabel(p', q') <==>
              || (SiteKey(p) == SiteKey(p') && SiteKey(q) == SiteKey(q'))
              || (exists w :: SiteKey(p') == SiteKey(p) + "-" + w && SiteKey(q) == w + "-" + SiteKey(q'))
              || (exists w :: SiteKey(p) == SiteKey(p') + "-" + w && SiteKey(q') == w + "-" + SiteKey(q))
  {
    JoinExact(SiteKey(p), SiteKey(q), SiteKey(p'), SiteKey(q'));
  }

  /** Region "us_east" has the keys of region "us-east" of the same platform with every site of gcp. */
  lemma SanitizedSitesCollide(p: Profile, p': Profile, q: Profile)
    requires p.platform == p'.platform == "aws" && q.platform == "gcp"
    requires p.region == "us_east" && p'.region == "us-east"
    ensures PairLabel(p, q) == PairLabel(p', q) && !SameSites(p, q, p', q)
  {
    var a, b := p.platform + "-" + p.region, p'.platform + "-" + p'.region;
    assert a[..4] == b[..4] == "aws-";
    assert |a| == |b| == 11 && forall i | 0 <= i < 11 && i != 6 :: a[i] == b[i];
    SanitizeExact(a, 0);
    SanitizeExact(b, 0);
    forall i | 0 <= i < 11 ensures SanitizeName(a)[i] == SanitizeName(b)[i] {
      SanitizeExact(a, i);
      SanitizeExact(b, i);
    }
    assert SanitizeName(a) == SanitizeName(b);
    var c := q.platform + "-" + q.region;
    assert a[0] == b[0] == 'a' && c[0] == 'g';
    assert !Less(c, a) && !Less(c, b);
    assert p.region[2] != p'.region[2];
  }

  /** A dash inside a platform or a region: one site name for two sites, and one key with every third. */
  lemma JoinedSitesCollide(p: Profile, p': Profile, q: Profile)
    requires p.platform == "a" && p.region == "b-c" && p'.platform == "a-b" && p'.region == "c"
    ensures PairLabel(p, q) == PairLabel(p', q)
    ensures q.platform != "a" && q.platform != "a-b" ==> !SameSites(p, q, p', q)
  {
    assert p.platform + "-" + p.region == "a-b-c" == p'.platform + "-" + p'.region;
    assert |p.platform| != |p'.platform|;
  }

  // ----- One entry -----

  function CostOf(costs: seq<EgressCost>, kind: string): Option<EgressCost>
  {
    if costs == [] then None
    else if costs[0].kind == kind then Some(costs[0])
    else CostOf(costs[1..], kind)
  }

  /** The first tier of the first cost of the kind; reading it panics if either is missing. */
  function FirstTier(p: Profile, kind: string): Result<Reading>
  {
    var cost := CostOf(p.costs, kind);
    if cost.Some? && cost.value.tiers != [] then Ok(cost.value.tiers[0]) else Panic
  }

  function FindLatency(lats: seq<Latency>, pair: string): Option<Latency>
  {
    if lats == [] then None
    else if lats[0].pair == pair then Some(lats[0])
    else FindLatency(lats[1..], pair)
  }

  /** The value used: the first of P95, P99 and the last measurement that is there. */
  function Measured(lat: Latency): Reading
  {
    if lat.p95 != Absent then lat.p95 else if lat.p99 != Absent then lat.p99 else lat.last
  }

  predicate SameSite(p: Profile, q: Profile)
  {
    p.platform == q.platform && p.region == q.region
  }

  /** The kind of egress cost between two profiles. */
  function CostKind(p: Profile, q: Profile): string
  {
    if SameSite(p, q) then "inter-zone" else if p.platform == q.platform then "inter-region" else "internet"
  }

  /** The entry of two zones, or why it cannot be made. */
  function Entry(u: End, v: End, lats: seq<Latency>): Result<Attr>
  {
    var tier := FirstTier(u.profile, CostKind(u.profile, v.profile));
    if !tier.Ok? then Panic
    else if SameSite(u.profile, v.profile) then
      if !tier.value.Number? then Err("inter-zone cost does not parse")
      else Ok(Attr(NameOf(u), NameOf(v), Place(u.profile.platform, u.profile.region, u.zone.name),
                   Place(v.profile.platform, v.profile.region, v.zone.name), 0.0,
                   if u.zone.name == v.zone.name then 0.0 else tier.value.value))
    else
      var lat := FindLatency(lats, PairLabel(u.profile, v.profile));
      if lat.None? then Err("no latency object")
      else if Measured(lat.value) == Absent then Err("no latency value")
      else if !Measured(lat.value).Number? || !tier.value.Number? then Err("latency or cost does not parse")
      else Ok(Attr(NameOf(u), NameOf(v), Place(u.profile.platform, u.profile.region, ""),
                   Place(v.profile.platform, v.profile.region, ""), Measured(lat.value).value, tier.value.value))
  }

  // ----- All pairs -----

  function Enabled(p: Profile, zones: seq<Zone>): seq<End>
  {
    if zones == [] then []
    else (if zones[0].enabled then [End(p, zones[0])] else []) + Enabled(p, zones[1..])
  }

  /** The enabled zones of all profiles. */
  function Ends(ps: seq<Profile>): seq<End>
  {
    if ps == [] then [] else Enabled(ps[0], ps[0].zones) + Ends(ps[1..])
  }

  type Pair = (End, End)

  function With(u: End, vs: seq<End>): seq<Pair>
  {
    if vs == [] then [] else [(u, vs[0])] + With(u, vs[1..])
  }

  /** Every ordered pair, in the order of a table. */
  function Grid(us: seq<End>, vs: seq<End>): seq<Pair>
  {
    if us == [] then [] else With(us[0], vs) + Grid(us[1..], vs)
  }

  /** The pairs in the order of the loops: profile, profile, zone, zone. */
  function PairsOfOne(p: Profile, qs: seq<Profile>): seq<Pair>
  {
    if qs == [] then [] else Grid(Enabled(p, p.zones), Enabled(qs[0], qs[0].zones)) + PairsOfOne(p, qs[1..])
  }

  function PairsInOrder(ps: seq<Profile>, qs: seq<Profile>): seq<Pair>
  {
    if ps == [] then [] else PairsOfOne(ps[0], qs) + PairsInOrder(ps[1..], qs)
  }

  function Add(list: seq<Attr>, entry: Result<Attr>): Result<seq<Attr>>
  {
    match entry
    case Ok(a) => Ok(list + [a])
    case Err(m) => Err(m)
    case Panic => Panic
  }

  /** The table so far extended by the entries of `pairs`; the first failure is the result. */
  function Extend(acc: Result<seq<Attr>>, pairs: seq<Pair>, entry: Pair -> Result<Attr>): Result<seq<Attr>>
    decreases pairs
  {
    if pairs == [] || !acc.Ok? then acc
    else Extend(Add(acc.value, entry(pairs[0])), pairs[1..], entry)
  }

  lemma {:induction false} ExtendAppend(acc: Result<seq<Attr>>, a: seq<Pair>, b: seq<Pair>, entry: Pair -> Result<Attr>)
    ensures Extend(acc, a + b, entry) == Extend(Extend(acc, a, entry), b, entry)
    decreases a
  {
    if a == [] {
      assert a + b == b;
    } else if acc.Ok? {
      ExtendAppend(Add(acc.value, entry(a[0])), a[1..], b, entry);
      assert (a + b)[1..] == a[1..] + b && (a + b)[0] == a[0];
    }
  }

  /** The table has the entry of each pair at its place; it fails on any pair without one. */
  lemma {:induction false} TableEntries(list: seq<Attr>, pairs: seq<Pair>, entry: Pair -> Result<Attr>)
    ensures var r := Extend(Ok(list), pairs, entry);
      && (r.Ok? <==> forall k | 0 <= k < |pairs| :: entry(pairs[k]).Ok?)
      && (r.Ok? ==>
            && |r.value| == |list| + |pairs|
            && (forall k | 0 <= k < |list| :: r.value[k] == list[k])
            && (forall k | 0 <= k < |pairs| :: entry(pairs[k]) == Ok(r.value[|list| + k])))
    decreases pairs
  {
    if pairs != [] {
      var first, rest := entry(pairs[0]), pairs[1..];
      assert forall k | 0 < k < |pairs| :: pairs[k] == rest[k - 1];
      if first.Ok? {
        TableEntries(list + [first.value], rest, entry);
      }
    }
  }

  function EntryOf(lats: seq<Latency>): Pair -> Result<Attr>
  {
    (pair: Pair) => Entry(pair.0, pair.1, lats)
  }

  // ----- The loops -----

  /** The innermost loop: zone `z` of `p` against the zones of `q`. */
  method PairZone(p: Profile, z: Zone, q: Profile, lats: seq<Latency>, list: seq<Attr>) returns (r: Result<seq<Attr>>)
    ensures r == Extend(Ok(list), With(End(p, z), Enabled(q, q.zones)), EntryOf(lats))
  {
    var u := End(p, z);
    r := Ok(list);
    for b := 0 to |q.zones|
      invariant r.Ok?
      invariant Extend(Ok(list), With(u, Enabled(q, q.zones)), EntryOf(lats))
          == Extend(r, With(u, Enabled(q, q.zones[b..])), EntryOf(lats))
    {
      assert q.zones[b..][1..] == q.zones[b + 1..];
      ghost var rest := Enabled(q, q.zones[b + 1..]);
      if q.zones[b].enabled {
        assert With(u, Enabled(q, q.zones[b..])) == [(u, End(q, q.zones[b]))] + With(u, rest);
        r := Add(r.value, Entry(u, End(q, q.zones[b]), lats));
        if !r.Ok? {
          return;
        }
      } else {
        assert Enabled(q, q.zones[b..]) == rest;
      }
    }
  }

  /** Two profiles. */
  method PairProfiles(p: Profile, q: Profile, lats: seq<Latency>, list: seq<Attr>) returns (r: Result<seq<Attr>>)
    ensures r == Extend(Ok(list), Grid(Enabled(p, p.zones), Enabled(q, q.zones)), EntryOf(lats))
  {
    ghost var vs := Enabled(q, q.zones);
    r := Ok(list);
    for a := 0 to |p.zones|
      invariant r.Ok?
      invariant Extend(Ok(list), Grid(Enabled(p, p.zones), vs), EntryOf(lats))
          == Extend(r, Grid(Enabled(p, p.zones[a..]), vs), EntryOf(lats))
    {
      assert p.zones[a..][1..] == p.zones[a + 1..];
      ghost var rest := Enabled(p, p.zones[a + 1..]);
      if p.zones[a].enabled {
        assert Enabled(p, p.zones[a..])[1..] == rest;
        ExtendAppend(r, With(End(p, p.zones[a]), vs), Grid(rest, vs), EntryOf(lats));
        r := PairZone(p, p.zones[a], q, lats, r.value);
        if !r.Ok? {
          return;
        }
      } else {
        assert Enabled(p, p.zones[a..]) == rest;
      }
    }
  }

  method GenerateProvidersAttr(ps: seq<Profile>, lats: seq<Latency>) returns (r: Result<seq<Attr>>)
    ensures r == Extend(Ok([]), PairsInOrder(ps, ps), EntryOf(lats))
  {
    r := Ok([]);
    for i := 0 to |ps|
      invariant r.Ok?
      invariant Extend(Ok([]), PairsInOrder(ps, ps), EntryOf(lats))
          == Extend(r, PairsInOrder(ps[i..], ps), EntryOf(lats))
    {
      ghost var before := r;
      ghost var later := PairsInOrder(ps[i + 1..], ps);
      assert ps[i..][1..] == ps[i + 1..];
      ExtendAppend(r, PairsOfOne(ps[i], ps), later, EntryOf(lats));
      for j := 0 to |ps|
        invariant r.Ok?
        invariant Extend(before, PairsOfOne(ps[i], ps), EntryOf(lats))
            == Extend(r, PairsOfOne(ps[i], ps[j..]), EntryOf(lats))
      {
        assert ps[j..][1..] == ps[j + 1..];
        ExtendAppend(r, Grid(Enabled(ps[i], ps[i].zones), Enabled(ps[j], ps[j].zones)), PairsOfOne(ps[i], ps[j + 1..]),
            EntryOf(lats));
        r := PairProfiles(ps[i], ps[j], lats, r.value);
        if !r.Ok? {
          return;
        }
      }
    }
  }

  /** A row of the providers table. */
  datatype ProviderRow = ProviderRow(
    upstreamName: string,
    name: string,
    platform: string,
    regionAlias: string,
    zone: string,
    kind: string,
    region: string)

  function RowOf(e: End): ProviderRow
  {
    ProviderRow(e.profile.name, NameOf(e), e.profile.platform, e.profile.regionAlias, e.zone.name, e.zone.kind,
        e.profile.region)
  }

  function Map<T, U>(f: T -> U, s: seq<T>): seq<U>
  {
    if s == [] then [] else [f(s[0])] + Map(f, s[1..])
  }

  lemma {:induction false} MapAppend<T, U>(f: T -> U, a: seq<T>, b: seq<T>)
    ensures Map(f, a + b) == Map(f, a) + Map(f, b)
  {
    if a == [] {
      assert a + b == b;
    } else {
      MapAppend(f, a[1..], b);
      assert (a + b)[1..] == a[1..] + b && (a + b)[0] == a[0];
    }
  }

  lemma {:induction false} MapMembers<T, U(!new)>(f: T -> U, s: seq<T>)
    ensures forall y :: y in Map(f, s) <==> exists x :: x in s && f(x) == y
  {
    if s != [] {
      MapMembers(f, s[1..]);
      assert s == [s[0]] + s[1..];
    }
  }

  function RowsOf(ends: seq<End>): seq<ProviderRow>
  {
    Map(RowOf, ends)
  }

  lemma RowsAppend(a: seq<End>, b: seq<End>)
    ensures RowsOf(a + b) == RowsOf(a) + RowsOf(b)
  {
    MapAppend(RowOf, a, b);
  }

  lemma RowsStep(ps: seq<Profile>, rows: seq<ProviderRow>)
    requires ps != []
    ensures rows + RowsOf(Ends(ps)) == rows + RowsOf(Enabled(ps[0], ps[0].zones)) + RowsOf(Ends(ps[1..]))
  {
    var a, b := RowsOf(Enabled(ps[0], ps[0].zones)), RowsOf(Ends(ps[1..]));
    RowsAppend(Enabled(ps[0], ps[0].zones), Ends(ps[1..]));
    assert rows + (a + b) == rows + a + b;
  }

  method ListZones(p: Profile, rows: seq<ProviderRow>) returns (r: seq<ProviderRow>)
    ensures r == rows + RowsOf(Enabled(p, p.zones))
  {
    r := rows;
    for a := 0 to |p.zones|
      invariant rows + RowsOf(Enabled(p, p.zones)) == r + RowsOf(Enabled(p, p.zones[a..]))
    {
      assert p.zones[a..][1..] == p.zones[a + 1..];
      if p.zones[a].enabled {
        var name := p.platform + "-" + p.region + "-" + p.zones[a].name;
        r := r + [ProviderRow(p.name, name, p.platform, p.regionAlias, p.zones[a].name, p.zones[a].kind, p.region)];
      } else {
        assert Enabled(p, p.zones[a..]) == Enabled(p, p.zones[a + 1..]);
      }
    }
  }

  /** The providers table: one row for every enabled zone. */
  method GenerateProviders(ps: seq<Profile>) returns (rows: seq<ProviderRow>)
    ensures rows == RowsOf(Ends(ps))
  {
    rows := [];
    for i := 0 to |ps|
      invariant RowsOf(Ends(ps)) == rows + RowsOf(Ends(ps[i..]))
    {
      RowsStep(ps[i..], rows);
      assert ps[i..][1..] == ps[i + 1..];
      rows := ListZones(ps[i], rows);
    }
  }

  // ----- What the tables say -----

  lemma {:induction false} WithMembers(u: End, vs: seq<End>)
    ensures |With(u, vs)| == |vs|
    ensures forall x :: x in With(u, vs) <==> x.0 == u && x.1 in vs
  {
    if vs != [] {
      WithMembers(u, vs[1..]);
      assert vs == [vs[0]] + vs[1..];
    }
  }

  lemma {:induction false} GridSize(us: seq<End>, vs: seq<End>)
    ensures |Grid(us, vs)| == |us| * |vs|
  {
    if us != [] {
      WithMembers(us[0], vs);
      GridSize(us[1..], vs);
      GridStep(us, vs);
      OneRowMore(|us| - 1, |vs|);
    }
  }

  lemma OneRowMore(rows: nat, columns: nat)
    ensures (rows + 1) * columns == columns + rows * columns
  {
  }

  lemma {:induction false} GridMembers(us: seq<End>, vs: seq<End>)
    ensures forall x :: x in Grid(us, vs) <==> x.0 in us && x.1 in vs
  {
    if us != [] {
      GridMembers(us[1..], vs);
      WithMembers(us[0], vs);
      assert us == [us[0]] + us[1..];
    }
  }

  lemma Regroup(a: seq<Pair>, b: seq<Pair>, c: seq<Pair>)
    ensures (a + b) + c == a + (b + c)
  {
  }

  lemma GridStep(us: seq<End>, vs: seq<End>)
    requires us != []
    ensures Grid(us, vs) == With(us[0], vs) + Grid(us[1..], vs)
  {
  }

  lemma {:induction false} GridRows(us: seq<End>, us': seq<End>, vs: seq<End>)
    ensures Grid(us + us', vs) == Grid(us, vs) + Grid(us', vs)
  {
    if us == [] {
      assert us + us' == us';
    } else {
      GridRows(us[1..], us', vs);
      GridStep(us, vs);
      GridStep(us + us', vs);
      assert (us + us')[1..] == us[1..] + us' && (us + us')[0] == us[0];
      Regroup(With(us[0], vs), Grid(us[1..], vs), Grid(us', vs));
    }
  }

  lemma {:induction false} WithAppend(u: End, vs: seq<End>, vs': seq<End>)
    ensures With(u, vs + vs') == With(u, vs) + With(u, vs')
  {
    if vs == [] {
      assert vs + vs' == vs';
    } else {
      WithAppend(u, vs[1..], vs');
      assert (vs + vs')[1..] == vs[1..] + vs' && (vs + vs')[0] == vs[0];
    }
  }

  lemma {:induction false} GridColumns(us: seq<End>, vs: seq<End>, vs': seq<End>)
    ensures multiset(Grid(us, vs + vs')) == multiset(Grid(us, vs)) + multiset(Grid(us, vs'))
  {
    if us != [] {
      WithAppend(us[0], vs, vs');
      GridColumns(us[1..], vs, vs');
    }
  }

  lemma {:induction false} GridOfNone(us: seq<End>)
    ensures Grid(us, []) == []
  {
    if us != [] {
      WithMembers(us[0], []);
      GridOfNone(us[1..]);
    }
  }

  lemma {:induction false} PairsOfOneAreAGrid(p: Profile, qs: seq<Profile>)
    ensures multiset(PairsOfOne(p, qs)) == multiset(Grid(Enabled(p, p.zones), Ends(qs)))
  {
    var us := Enabled(p, p.zones);
    if qs == [] {
      GridOfNone(us);
    } else {
      PairsOfOneAreAGrid(p, qs[1..]);
      GridColumns(us, Enabled(qs[0], qs[0].zones), Ends(qs[1..]));
    }
  }

  /** The loops visit every ordered pair of enabled zones exactly once. */
  lemma {:induction false} PairsAreAGrid(ps: seq<Profile>, qs: seq<Profile>)
    ensures multiset(PairsInOrder(ps, qs)) == multiset(Grid(Ends(ps), Ends(qs)))
  {
    if ps != [] {
      PairsAreAGrid(ps[1..], qs);
      PairsOfOneAreAGrid(ps[0], qs);
      GridRows(Enabled(ps[0], ps[0].zones), Ends(ps[1..]), Ends(qs));
    }
  }

  // ----- Egress costs -----

  /** The egress costs a profile gets when its spec has none. */
  function DefaultCosts(platform: string): seq<EgressCost>
  {
    var p := Lower(platform);
    if p == "aws" then
      [EgressCost("internet", [Number(0.09)]), EgressCost("inter-zone", [Number(0.01)]),
          EgressCost("inter-region", [Number(0.02)])]
    else if p == "azure" then
      [EgressCost("internet", [Number(0.087)]), EgressCost("inter-zone", [Number(0.01)]),
          EgressCost("inter-region", [Number(0.02)])]
    else if p == "gcp" then
      [EgressCost("internet", [Number(0.12)]), EgressCost("inter-zone", [Number(0.01)]),
          EgressCost("inter-region", [Number(0.02)])]
    else
      [EgressCost("internet", [Number(0.0)])]
  }

  predicate PublicCloud(platform: string)
  {
    Lower(platform) == "aws" || Lower(platform) == "azure" || Lower(platform) == "gcp"
  }

  /** The costs in the status of a profile: those of its spec, or the defaults. */
  function EnsuredCosts(platform: string, spec: seq<EgressCost>): seq<EgressCost>
  {
    if spec == [] then DefaultCosts(platform) else spec
  }

  method EnsureEgressCosts(platform: string, spec: seq<EgressCost>) returns (costs: seq<EgressCost>)
    ensures costs == EnsuredCosts(platform, spec)
  {
    costs := [];
    for i := 0 to |spec|
      invariant costs == spec[..i]
    {
      costs := costs + [EgressCost(spec[i].kind, spec[i].tiers)];
    }
    if |costs| == 0 {
      costs := DefaultCosts(platform);
    }
  }

  lemma OneCost(c: EgressCost, rest: seq<EgressCost>, kind: string)
    ensures CostOf([c] + rest, kind) == if c.kind == kind then Some(c) else CostOf(rest, kind)
  {
    assert ([c] + rest)[1..] == rest;
  }

  lemma ThreeCosts(a: EgressCost, b: EgressCost, c: EgressCost, kind: string)
    ensures CostOf([a, b, c], kind)
         == if a.kind == kind then Some(a) else if b.kind == kind then Some(b) else if c.kind == kind then Some(c)
             else None
  {
    OneCost(c, [], kind);
    OneCost(b, [c], kind);
    OneCost(a, [b, c], kind);
    assert [a] + [b, c] == [a, b, c] && [b] + [c] == [b, c] && [c] + [] == [c];
  }

  predicate HasTier(p: Profile, kind: string)
  {
    FirstTier(p, kind).Ok? && FirstTier(p, kind).value.Number?
  }

  /** The defaults of the public clouds price every kind of link; everyone else's price only the internet. */
  lemma DefaultsCover(p: Profile, q: Profile)
    requires Defaulted(p)
    ensures HasTier(p, CostKind(p, q)) <==> PublicCloud(p.platform) || p.platform != q.platform
    ensures PublicCloud(p.platform) || p.platform != q.platform || FirstTier(p, CostKind(p, q)) == Panic
  {
    var kind := CostKind(p, q);
    DistinctKinds();
    if PublicCloud(p.platform) {
      ThreeCosts(p.costs[0], p.costs[1], p.costs[2], kind);
      assert p.costs == [p.costs[0], p.costs[1], p.costs[2]];
    } else {
      OneCost(p.costs[0], [], kind);
      assert p.costs == [p.costs[0]] + [];
    }
  }

  /** Every kind of link has a price. */
  predicate FullyPriced(p: Profile)
  {
    HasTier(p, "inter-zone") && HasTier(p, "inter-region") && HasTier(p, "internet")
  }

  lemma DefaultsPrice(p: Profile)
    requires PublicCloud(p.platform) && Defaulted(p)
    ensures FullyPriced(p)
  {
    DistinctKinds();
    ThreeCosts(p.costs[0], p.costs[1], p.costs[2], "inter-zone");
    ThreeCosts(p.costs[0], p.costs[1], p.costs[2], "inter-region");
    ThreeCosts(p.costs[0], p.costs[1], p.costs[2], "internet");
    assert p.costs == [p.costs[0], p.costs[1], p.costs[2]];
  }

  lemma DistinctKinds()
    ensures "internet" != "inter-zone" && "internet" != "inter-region" && "inter-zone" != "inter-region"
  {
    assert "internet"[5] != "inter-zone"[5] && "internet"[5] != "inter-region"[5]
        && "inter-zone"[6] != "inter-region"[6];
  }

  // ----- The matrix -----

  /** A latency that can be read is recorded under the key of the two profiles. */
  predicate Measurable(p: Profile, q: Profile, lats: seq<Latency>)
  {
    var lat := FindLatency(lats, PairLabel(p, q));
    lat.Some? && Measured(lat.value).Number?
  }

  /** An entry can be made exactly when the source prices the link and, between sites, the latency is known. */
  lemma EntryExists(u: End, v: End, lats: seq<Latency>)
    ensures Entry(u, v, lats).Ok? <==>
      HasTier(u.profile, CostKind(u.profile, v.profile))
          && (SameSite(u.profile, v.profile) || Measurable(u.profile, v.profile, lats))
    ensures Entry(u, v, lats).Panic? <==> !FirstTier(u.profile, CostKind(u.profile, v.profile)).Ok?
  {
  }

  lemma PairLabelSymmetric(p: Profile, q: Profile)
    ensures PairLabel(p, q) == PairLabel(q, p)
  {
    CanonicalPairSymmetric(SiteName(p), SiteName(q));
  }

  /** Both directions of a pair have the same latency, whatever their costs; it is 0 within a site. */
  lemma LatencySymmetric(u: End, v: End, lats: seq<Latency>)
    requires Entry(u, v, lats).Ok? && Entry(v, u, lats).Ok?
    ensures Entry(u, v, lats).value.latency == Entry(v, u, lats).value.latency
    ensures SameSite(u.profile, v.profile) ==> Entry(u, v, lats).value.latency == 0.0
  {
    PairLabelSymmetric(u.profile, v.profile);
  }

  /** The cost is the source's own first tier for the kind of link, and 0 within one zone of a site. */
  lemma EgressIsTheSources(u: End, v: End, lats: seq<Latency>)
    requires Entry(u, v, lats).Ok?
    ensures var e := Entry(u, v, lats).value;
      && e.srcName == NameOf(u) && e.dstName == NameOf(v)
      && e.egress == if SameSite(u.profile, v.profile) && u.zone.name == v.zone.name then 0.0
                     else FirstTier(u.profile, CostKind(u.profile, v.profile)).value.value
  {
  }

  /** Entry `k` of the table is the entry of pair `k`. */
  ghost predicate Describes(table: seq<Attr>, pairs: seq<Pair>, entry: Pair -> Result<Attr>)
  {
    |table| == |pairs| && forall k | 0 <= k < |pairs| :: entry(pairs[k]) == Ok(table[k])
  }

  ghost predicate AllEntries(ends: seq<End>, entry: Pair -> Result<Attr>)
  {
    forall x: Pair | x.0 in ends && x.1 in ends :: entry(x).Ok?
  }

  /**
   On success the table is a complete matrix: its entries are those of all ordered pairs of enabled
   zones, each pair once, so there are N * N of them. It succeeds exactly when every pair has an
   entry.
   */
  lemma CompleteMatrix(ps: seq<Profile>, entry: Pair -> Result<Attr>)
    ensures var r, pairs := Extend(Ok([]), PairsInOrder(ps, ps), entry), PairsInOrder(ps, ps);
      && (r.Ok? <==> AllEntries(Ends(ps), entry))
      && multiset(pairs) == multiset(Grid(Ends(ps), Ends(ps)))
      && (r.Ok? ==> |r.value| == |Ends(ps)| * |Ends(ps)| && Describes(r.value, pairs, entry))
  {
    var pairs := PairsInOrder(ps, ps);
    TableEntries([], pairs, entry);
    PairsAreAGrid(ps, ps);
    AllPairs(ps);
    GridSize(Ends(ps), Ends(ps));
    assert |pairs| == |multiset(pairs)| == |multiset(Grid(Ends(ps), Ends(ps)))| == |Grid(Ends(ps), Ends(ps))|;
    assert (forall k | 0 <= k < |pairs| :: entry(pairs[k]).Ok?) <==> (forall x | x in pairs :: entry(x).Ok?);
  }

  /** A finished table: row `k` is the entry of pair `k`. */
  ghost predicate Finished(ps: seq<Profile>, lats: seq<Latency>, table: seq<Attr>)
  {
    Extend(Ok([]), PairsInOrder(ps, ps), EntryOf(lats)) == Ok(table)
  }

  lemma RowOfPair(ps: seq<Profile>, lats: seq<Latency>, table: seq<Attr>, k: nat)
    requires Finished(ps, lats, table) && k < |table|
    ensures |table| == |PairsInOrder(ps, ps)|
    ensures var (u, v) := PairsInOrder(ps, ps)[k]; u in Ends(ps) && v in Ends(ps) && Entry(u, v, lats) == Ok(table[k])
  {
    var pairs := PairsInOrder(ps, ps);
    CompleteMatrix(ps, EntryOf(lats));
    AllPairs(ps);
    assert EntryOf(lats)(pairs[k]) == Ok(table[k]);
    assert pairs[k] in pairs;
  }

  /** Rows `k` and `k'` are of the two directions of one pair of zones. */
  ghost predicate Opposite(ps: seq<Profile>, k: int, k': int)
  {
    var pairs := PairsInOrder(ps, ps);
    0 <= k < |pairs| && 0 <= k' < |pairs| && pairs[k'] == (pairs[k].1, pairs[k].0)
  }

  /** In every finished table, each row has one for the opposite direction. */
  lemma OppositeRow(ps: seq<Profile>, lats: seq<Latency>, table: seq<Attr>, k: nat) returns (k': nat)
    requires Finished(ps, lats, table) && k < |table|
    ensures k' < |table| && Opposite(ps, k, k')
  {
    var pairs := PairsInOrder(ps, ps);
    RowOfPair(ps, lats, table, k);
    AllPairs(ps);
    assert (pairs[k].1, pairs[k].0) in pairs;
    k' :| 0 <= k' < |pairs| && pairs[k'] == (pairs[k].1, pairs[k].0);
  }

  /** In every finished table, all rows of opposite directions have one latency, and it is 0 within a site. */
  lemma TableSymmetric(ps: seq<Profile>, lats: seq<Latency>, table: seq<Attr>, k: nat, k': nat)
    requires Finished(ps, lats, table) && Opposite(ps, k, k')
    ensures |table| == |PairsInOrder(ps, ps)| && table[k].latency == table[k'].latency
    ensures var (u, v) := PairsInOrder(ps, ps)[k]; SameSite(u.profile, v.profile) ==> table[k].latency == 0.0
  {
    var (u, v) := PairsInOrder(ps, ps)[k];
    CompleteMatrix(ps, EntryOf(lats));
    RowOfPair(ps, lats, table, k);
    RowOfPair(ps, lats, table, k');
    LatencySymmetric(u, v, lats);
  }

  /**
   In every finished table, each row is named after its two zones and its egress cost is the first tier of
   its source for the kind of link, or 0 within one zone of a site.
   */
  lemma TableEgress(ps: seq<Profile>, lats: seq<Latency>, table: seq<Attr>, k: nat)
    requires Finished(ps, lats, table) && k < |table|
    ensures |table| == |PairsInOrder(ps, ps)|
    ensures var (u, v) := PairsInOrder(ps, ps)[k];
      && table[k].srcName == NameOf(u) && table[k].dstName == NameOf(v)
      && (if SameSite(u.profile, v.profile) && u.zone.name == v.zone.name then table[k].egress == 0.0
          else FirstTier(u.profile, CostKind(u.profile, v.profile)) == Ok(Number(table[k].egress)))
  {
    RowOfPair(ps, lats, table, k);
    var (u, v) := PairsInOrder(ps, ps)[k];
    EgressIsTheSources(u, v, lats);
    EntryExists(u, v, lats);
  }

  /** `x` is what the object says: its P95, without that its P99, without both its last measurement. */
  predicate Says(lat: Latency, x: real)
  {
    || lat.p95 == Number(x)
    || (lat.p95 == Absent && lat.p99 == Number(x))
    || (lat.p95 == Absent && lat.p99 == Absent && lat.last == Number(x))
  }

  /** The objects were made for pairs of profiles: `of` says which. */
  ghost predicate MadeFor(lats: seq<Latency>, of: Latency -> (Profile, Profile))
  {
    forall lat | lat in lats :: lat.pair == PairLabel(of(lat).0, of(lat).1)
  }

  ghost predicate AllApart(lats: seq<Latency>, of: Latency -> (Profile, Profile), p: Profile, q: Profile)
  {
    forall lat | lat in lats :: PairsApart(of(lat).0, of(lat).1, p, q)
  }

  lemma {:induction false} FoundLatency(lats: seq<Latency>, pair: string)
    ensures var lat := FindLatency(lats, pair);
            && (lat.Some? ==> lat.value in lats && lat.value.pair == pair)
            && (lat.None? ==> forall x | x in lats :: x.pair != pair)
  {
    if lats != [] {
      FoundLatency(lats[1..], pair);
      assert lats == [lats[0]] + lats[1..];
    }
  }

  /**
   In every finished table, the latency of a row between two sites is what an object says that was made
   for these two sites, in one order or the other, if the sites can be told apart.
   */
  lemma TableLatency(ps: seq<Profile>, lats: seq<Latency>, of: Latency -> (Profile, Profile), table: seq<Attr>, k: nat)
    requires Finished(ps, lats, table) && k < |table| && MadeFor(lats, of)
    requires |table| == |PairsInOrder(ps, ps)|
    requires var (u, v) := PairsInOrder(ps, ps)[k];
             && AllApart(lats, of, u.profile, v.profile)
             && (u.profile.platform != v.profile.platform || u.profile.region != v.profile.region)
    ensures var (u, v) := PairsInOrder(ps, ps)[k];
            exists lat :: lat in lats && SameSites(of(lat).0, of(lat).1, u.profile, v.profile)
                && Says(lat, table[k].latency)
  {
    RowOfPair(ps, lats, table, k);
    var (u, v) := PairsInOrder(ps, ps)[k];
    FoundLatency(lats, PairLabel(u.profile, v.profile));
    var lat := FindLatency(lats, PairLabel(u.profile, v.profile)).value;
    PairLabelExact(of(lat).0, of(lat).1, u.profile, v.profile);
    assert Says(lat, table[k].latency);
  }

  /** Cost `i` is the first of the kind, and `tier` is its first tier. */
  predicate PricedBy(costs: seq<EgressCost>, kind: string, tier: Reading, i: int)
  {
    && 0 <= i < |costs| && costs[i].kind == kind && (forall j | 0 <= j < i :: costs[j].kind != kind)
    && costs[i].tiers != [] && costs[i].tiers[0] == tier
  }

  ghost predicate PricedAt(costs: seq<EgressCost>, kind: string, tier: Reading)
  {
    exists i :: PricedBy(costs, kind, tier, i)
  }

  lemma {:induction false} FirstTierExact(p: Profile, kind: string, tier: Reading)
    ensures FirstTier(p, kind) == Ok(tier) <==> PricedAt(p.costs, kind, tier)
    decreases |p.costs|
  {
    var costs := p.costs;
    if costs != [] {
      if costs[0].kind == kind {
        if FirstTier(p, kind) == Ok(tier) { assert PricedBy(costs, kind, tier, 0); }
      } else {
        FirstTierExact(p.(costs := costs[1..]), kind, tier);
        PricedLater(costs, kind, tier);
      }
    }
  }

  lemma PricedLater(costs: seq<EgressCost>, kind: string, tier: Reading)
    requires costs != [] && costs[0].kind != kind
    ensures PricedAt(costs, kind, tier) <==> PricedAt(costs[1..], kind, tier)
  {
    var rest := costs[1..];
    if i :| PricedBy(rest, kind, tier, i) {
      forall j | 0 <= j < i + 1 ensures costs[j].kind != kind {
        if j > 0 { assert costs[j] == rest[j - 1]; }
      }
      assert PricedBy(costs, kind, tier, i + 1);
    }
    if i :| PricedBy(costs, kind, tier, i) {
      assert PricedBy(rest, kind, tier, i - 1);
    }
  }

  /** The default prices, whatever the case of the platform's name: 0.09, 0.087 and 0.12 over the internet. */
  lemma DefaultPrices(platform: string)
    ensures var p, costs := Lower(platform), DefaultCosts(platform);
            var cloud := p == "aws" || p == "azure" || p == "gcp";
            && PricedAt(costs, "internet", Number(
                 if p == "aws" then 0.09 else if p == "azure" then 0.087 else if p == "gcp" then 0.12 else 0.0))
            && (cloud ==> PricedAt(costs, "inter-zone", Number(0.01)) && PricedAt(costs, "inter-region", Number(0.02)))
            && (!cloud ==> |costs| == 1)
  {
    DistinctKinds();
    var costs := DefaultCosts(platform);
    assert PricedBy(costs, "internet", costs[0].tiers[0], 0);
    if |costs| > 1 {
      assert PricedBy(costs, "inter-zone", costs[1].tiers[0], 1);
      assert PricedBy(costs, "inter-region", costs[2].tiers[0], 2);
    }
  }

  /**
   Row by row: the places of the two zones, without the zones between sites, and a price that is the
   source's for traffic between zones, between regions of a platform, or over the internet.
   */
  lemma TableRow(ps: seq<Profile>, lats: seq<Latency>, table: seq<Attr>, k: nat)
    requires Finished(ps, lats, table) && k < |table|
    ensures |table| == |PairsInOrder(ps, ps)|
    ensures var (u, v) := PairsInOrder(ps, ps)[k];
            var p, q, y, z, row := u.profile, v.profile, u.zone.name, v.zone.name, table[k];
            && row.srcName == p.platform + "-" + p.region + "-" + y
            && row.dstName == q.platform + "-" + q.region + "-" + z
            && if p.platform == q.platform && p.region == q.region then
                && row.src == Place(p.platform, p.region, y) && row.dst == Place(q.platform, q.region, z)
                && row.latency == 0.0
                && (if y == z then row.egress == 0.0 else PricedAt(p.costs, "inter-zone", Number(row.egress)))
              else
                && row.src == Place(p.platform, p.region, "") && row.dst == Place(q.platform, q.region, "")
                && PricedAt(p.costs, if p.platform == q.platform then "inter-region" else "internet",
                            Number(row.egress))
  {
    RowOfPair(ps, lats, table, k);
    var (u, v) := PairsInOrder(ps, ps)[k];
    FirstTierExact(u.profile, CostKind(u.profile, v.profile), Number(table[k].egress));
  }

  /** The source prices the link and, between sites, the latency can be read. */
  predicate Linked(u: End, v: End, lats: seq<Latency>)
  {
    && HasTier(u.profile, CostKind(u.profile, v.profile))
    && (SameSite(u.profile, v.profile) || Measurable(u.profile, v.profile, lats))
  }

  ghost predicate AllLinked(ends: seq<End>, lats: seq<Latency>)
  {
    forall x: Pair | x.0 in ends && x.1 in ends :: Linked(x.0, x.1, lats)
  }

  /** The table is made exactly if every enabled zone is linked to every other and to itself. */
  lemma TableExists(ps: seq<Profile>, lats: seq<Latency>)
    ensures Extend(Ok([]), PairsInOrder(ps, ps), EntryOf(lats)).Ok? <==> AllLinked(Ends(ps), lats)
  {
    CompleteMatrix(ps, EntryOf(lats));
    forall x: Pair | x.0 in Ends(ps) && x.1 in Ends(ps) ensures EntryOf(lats)(x).Ok? <==> Linked(x.0, x.1, lats) {
      EntryExists(x.0, x.1, lats);
    }
  }

  lemma AllPairs(ps: seq<Profile>)
    ensures forall x :: x in PairsInOrder(ps, ps) <==> x.0 in Ends(ps) && x.1 in Ends(ps)
  {
    PairsAreAGrid(ps, ps);
    GridMembers(Ends(ps), Ends(ps));
    var pairs, grid := PairsInOrder(ps, ps), Grid(Ends(ps), Ends(ps));
    assert forall x :: x in pairs <==> x in multiset(pairs);
    assert forall x :: x in grid <==> x in multiset(grid);
  }

  ghost predicate HasName(rows: seq<ProviderRow>, name: string)
  {
    exists row :: row in rows && row.name == name
  }

  /** The endpoints named in the table are exactly the names of the providers table. */
  lemma SameNames(ps: seq<Profile>, lats: seq<Latency>, table: seq<Attr>, name: string)
    requires Describes(table, PairsInOrder(ps, ps), EntryOf(lats))
    ensures (exists k :: 0 <= k < |table| && table[k].srcName == name) <==> HasName(RowsOf(Ends(ps)), name)
    ensures (exists k :: 0 <= k < |table| && table[k].dstName == name) <==> HasName(RowsOf(Ends(ps)), name)
  {
    var pairs := PairsInOrder(ps, ps);
    AllPairs(ps);
    RowNames(Ends(ps), name);
    forall k | 0 <= k < |table|
      ensures table[k].srcName == NameOf(pairs[k].0) && table[k].dstName == NameOf(pairs[k].1)
      ensures pairs[k].0 in Ends(ps) && pairs[k].1 in Ends(ps)
    {
      EgressIsTheSources(pairs[k].0, pairs[k].1, lats);
      assert pairs[k] in pairs;
    }
    if HasName(RowsOf(Ends(ps)), name) {
      var u :| u in Ends(ps) && NameOf(u) == name;
      assert (u, u) in pairs;
      var k :| 0 <= k < |pairs| && pairs[k] == (u, u);
      assert table[k].srcName == name && table[k].dstName == name;
    }
  }

  lemma RowNames(ends: seq<End>, name: string)
    ensures HasName(RowsOf(ends), name) <==> exists u :: u in ends && NameOf(u) == name
  {
    MapMembers(RowOf, ends);
    if u :| u in ends && NameOf(u) == name {
      assert RowOf(u) in RowsOf(ends);
    }
  }

  lemma {:induction false} EnabledZones(p: Profile, zones: seq<Zone>)
    ensures forall u :: u in Enabled(p, zones) <==> u.profile == p && u.zone in zones && u.zone.enabled
  {
    if zones != [] {
      EnabledZones(p, zones[1..]);
      assert zones == [zones[0]] + zones[1..];
    }
  }

  /** The providers table has a row for exactly the enabled zones, with the facts of the zone and its profile. */
  lemma {:induction false} ProviderRows(ps: seq<Profile>, row: ProviderRow)
    ensures row in RowsOf(Ends(ps)) <==>
              exists p, z :: p in ps && z in p.zones && z.enabled
                  && row == ProviderRow(p.name, p.platform + "-" + p.region + "-" + z.name, p.platform, p.regionAlias,
                                        z.name, z.kind, p.region)
  {
    if ps != [] {
      var p := ps[0];
      ProviderRows(ps[1..], row);
      EnabledZones(p, p.zones);
      MapMembers(RowOf, Enabled(p, p.zones));
      RowsAppend(Enabled(p, p.zones), Ends(ps[1..]));
      assert ps == [p] + ps[1..];
      if z :| z in p.zones && z.enabled && row == RowOf(End(p, z)) {
        assert End(p, z) in Enabled(p, p.zones);
      }
    }
  }

  /** Every two zones of different sites have a latency that can be read. */
  ghost predicate AllMeasurable(ends: seq<End>, lats: seq<Latency>)
  {
    forall x: Pair | x.0 in ends && x.1 in ends && !SameSite(x.0.profile, x.1.profile) ::
        Measurable(x.0.profile, x.1.profile, lats)
  }

  predicate Defaulted(p: Profile)
  {
    p.costs == DefaultCosts(p.platform)
  }

  /** With every kind of link priced everywhere, latencies between sites are all that is needed. */
  lemma PricesSuffice(ps: seq<Profile>, lats: seq<Latency>)
    requires forall u | u in Ends(ps) :: FullyPriced(u.profile)
    ensures Extend(Ok([]), PairsInOrder(ps, ps), EntryOf(lats)).Ok? <==> AllMeasurable(Ends(ps), lats)
  {
    CompleteMatrix(ps, EntryOf(lats));
    forall x: Pair | x.0 in Ends(ps) && x.1 in Ends(ps)
      ensures EntryOf(lats)(x).Ok? <==> SameSite(x.0.profile, x.1.profile) || Measurable(x.0.profile, x.1.profile, lats)
    {
      EntryExists(x.0, x.1, lats);
    }
  }

  /** So it is with the default costs of the public clouds everywhere. */
  lemma DefaultsSuffice(ps: seq<Profile>, lats: seq<Latency>)
    requires forall u | u in Ends(ps) :: PublicCloud(u.profile.platform) && Defaulted(u.profile)
    ensures Extend(Ok([]), PairsInOrder(ps, ps), EntryOf(lats)).Ok? <==> AllMeasurable(Ends(ps), lats)
  {
    forall u | u in Ends(ps) ensures FullyPriced(u.profile) {
      DefaultsPrice(u.profile);
    }
    PricesSuffice(ps, lats);
  }

  /**
   Elsewhere they do not suffice: with one enabled zone of a provider that is no public cloud and
   lists no costs, such as openstack, the table is never made, for its own zone has no inter-zone
   tier to read.
   */
  lemma DefaultsPanic(ps: seq<Profile>, lats: seq<Latency>, u: End)
    requires u in Ends(ps) && !PublicCloud(u.profile.platform) && Defaulted(u.profile)
    ensures Entry(u, u, lats) == Panic
    ensures !Extend(Ok([]), PairsInOrder(ps, ps), EntryOf(lats)).Ok?
  {
    CompleteMatrix(ps, EntryOf(lats));
    DefaultsCover(u.profile, u.profile);
    EntryExists(u, u, lats);
    assert EntryOf(lats)((u, u)) == Panic;
  }
}
