/**
 The Kubernetes form of the search: free offerings are skipped and, for a Deployment, only flavors
 on which its pods fit stay in the list.
 */
module K8sSelection {
  import opened Wrappers
  import opened Selection

  /** `count` is the number of nodes asked for, in decimal. */
  datatype Alternative = Alternative(kind: string, spec: Option<Result<Pattern>>, count: string)

  /** The smallest node on which the pods of a deployment fit. */
  datatype Minimum = Minimum(cpu: real, ram: real)

  function Matching(p: Pattern, count: string, profiles: seq<Offering>): seq<Selector>
  {
    if profiles == [] then []
    else
      var off := profiles[|profiles| - 1];
      Matching(p, count, profiles[..|profiles| - 1])
      + (if off.price != 0.0 && OfferingMatches(p, off) then [Selector(off.name, off.price, count)] else [])
  }

  function MatchesOfOne(a: Alternative, profiles: seq<Offering>): seq<Selector>
  {
    if a.spec.Some? && a.spec.value.Ok? then Matching(a.spec.value.value, a.count, profiles) else []
  }

  predicate Fits(off: Offering, least: Minimum)
  {
    off.cpu >= least.cpu && off.ram >= least.ram
  }

  /** The flavors on which the deployment fits. */
  function Deployable(profiles: seq<Offering>, least: Minimum): set<string>
  {
    set off | off in profiles && Fits(off, least) :: off.name
  }

  /** The names a component of this kind may use; `None` is no restriction. */
  function Allowed(kind: string, profiles: seq<Offering>, least: Result<Minimum>): Option<set<string>>
  {
    if kind == "Deployment" && least.Ok? then Some(Deployable(profiles, least.value)) else None
  }

  predicate May(x: Selector, allowed: Option<set<string>>)
  {
    allowed.Some? ==> x.name in allowed.value
  }

  function Usable(s: seq<Selector>, allowed: Option<set<string>>): seq<Selector>
  {
    if s == [] then []
    else Usable(s[..|s| - 1], allowed) + (if May(s[|s| - 1], allowed) then [s[|s| - 1]] else [])
  }

  lemma {:induction false} UsableMembers(s: seq<Selector>, allowed: Option<set<string>>)
    ensures forall x :: x in Usable(s, allowed) <==> x in s && May(x, allowed)
  {
    if s != [] {
      UsableMembers(s[..|s| - 1], allowed);
      assert s == s[..|s| - 1] + [s[|s| - 1]];
    }
  }

  lemma {:induction false} UsableAppend(s: seq<Selector>, t: seq<Selector>, allowed: Option<set<string>>)
    ensures Usable(s + t, allowed) == Usable(s, allowed) + Usable(t, allowed)
  {
    if t == [] {
      assert s + t == s;
    } else {
      var init := t[..|t| - 1];
      UsableAppend(s, init, allowed);
      assert (s + t)[..|s + t| - 1] == s + init;
    }
  }

  lemma {:induction false} UsableOfUsable(s: seq<Selector>, allowed: Option<set<string>>)
    requires forall x | x in s :: May(x, allowed)
    ensures Usable(s, allowed) == s
  {
    if s != [] {
      UsableOfUsable(s[..|s| - 1], allowed);
      assert s == s[..|s| - 1] + [s[|s| - 1]];
    }
  }

  /** Every usable match of every alternative. */
  function Matches(anyOf: seq<Alternative>, profiles: seq<Offering>, allowed: Option<set<string>>): seq<Selector>
  {
    if anyOf == [] then []
    else
      Matches(anyOf[..|anyOf| - 1], profiles, allowed)
      + Usable(MatchesOfOne(anyOf[|anyOf| - 1], profiles), allowed)
  }

  /** The first alternative that matches anything has a usable match; true as well if none matches. */
  predicate FirstMatchUsable(anyOf: seq<Alternative>, profiles: seq<Offering>, allowed: Option<set<string>>)
  {
    anyOf != [] ==>
      (if MatchesOfOne(anyOf[0], profiles) != [] then Usable(MatchesOfOne(anyOf[0], profiles), allowed) != []
       else FirstMatchUsable(anyOf[1..], profiles, allowed))
  }

  /** Read from the other end: nothing usable so far makes the next unusable match fatal. */
  lemma {:induction false} FirstMatchOfLonger(anyOf: seq<Alternative>, profiles: seq<Offering>,
      allowed: Option<set<string>>)
    requires anyOf != []
    ensures var init, last := anyOf[..|anyOf| - 1], MatchesOfOne(anyOf[|anyOf| - 1], profiles);
      FirstMatchUsable(anyOf, profiles, allowed) <==>
        && FirstMatchUsable(init, profiles, allowed)
        && (last != [] && Usable(last, allowed) == [] ==> Matches(init, profiles, allowed) != [])
  {
    if |anyOf| > 1 {
      var init := anyOf[..|anyOf| - 1];
      FirstMatchOfLonger(anyOf[1..], profiles, allowed);
      assert anyOf[1..][..|anyOf| - 2] == init[1..];
      MatchesFromFront(init, profiles, allowed);
    } else {
      assert anyOf[..0] == [];
    }
  }

  lemma Regroup(a: seq<Selector>, b: seq<Selector>, c: seq<Selector>)
    ensures (a + b) + c == a + (b + c)
  {
  }

  function UsableOfOne(a: Alternative, profiles: seq<Offering>, allowed: Option<set<string>>): seq<Selector>
  {
    Usable(MatchesOfOne(a, profiles), allowed)
  }

  lemma MatchesFromBack(anyOf: seq<Alternative>, profiles: seq<Offering>, allowed: Option<set<string>>)
    requires anyOf != []
    ensures Matches(anyOf, profiles, allowed)
         == Matches(anyOf[..|anyOf| - 1], profiles, allowed) + UsableOfOne(anyOf[|anyOf| - 1], profiles, allowed)
  {
  }

  lemma MatchesOfSingle(a: Alternative, profiles: seq<Offering>, allowed: Option<set<string>>)
    ensures Matches([a], profiles, allowed) == UsableOfOne(a, profiles, allowed)
  {
    MatchesFromBack([a], profiles, allowed);
    assert [a][..0] == [];
    assert Matches([], profiles, allowed) == [];
  }

  lemma {:induction false} MatchesFromFront(anyOf: seq<Alternative>, profiles: seq<Offering>,
      allowed: Option<set<string>>)
    requires anyOf != []
    ensures Matches(anyOf, profiles, allowed)
         == UsableOfOne(anyOf[0], profiles, allowed) + Matches(anyOf[1..], profiles, allowed)
    decreases |anyOf|, 1
  {
    if |anyOf| == 1 {
      assert anyOf == [anyOf[0]] && anyOf[1..] == [];
      MatchesOfSingle(anyOf[0], profiles, allowed);
      assert Matches([], profiles, allowed) == [];
    } else {
      MatchesSplit(anyOf, profiles, allowed);
    }
  }

  lemma {:induction false} MatchesSplit(anyOf: seq<Alternative>, profiles: seq<Offering>, allowed: Option<set<string>>)
    requires |anyOf| > 1
    ensures Matches(anyOf, profiles, allowed)
         == UsableOfOne(anyOf[0], profiles, allowed) + Matches(anyOf[1..], profiles, allowed)
    decreases |anyOf|, 0
  {
    var init, tail := anyOf[..|anyOf| - 1], anyOf[1..];
    MatchesFromFront(init, profiles, allowed);
    MatchesFromBack(anyOf, profiles, allowed);
    MatchesFromBack(tail, profiles, allowed);
    assert tail[..|tail| - 1] == init[1..];
    Regroup(UsableOfOne(anyOf[0], profiles, allowed), Matches(init[1..], profiles, allowed),
            UsableOfOne(anyOf[|anyOf| - 1], profiles, allowed));
  }

  predicate ReadableAlternative(a: Alternative, kind: string, profiles: Result<seq<Offering>>, least: Result<Minimum>)
  {
    && a.kind == "ComputeProfile"
    && (a.spec.Some? ==> a.spec.value.Ok? && profiles.Ok? && (kind == "Deployment" ==> least.Ok?))
  }

  predicate AllReadable(anyOf: seq<Alternative>, kind: string, profiles: Result<seq<Offering>>, least: Result<Minimum>)
  {
    forall a | a in anyOf :: ReadableAlternative(a, kind, profiles, least)
  }

  function Offered(profiles: Result<seq<Offering>>): seq<Offering>
  {
    if profiles.Ok? then profiles.value else []
  }

  method CollectMatches(p: Pattern, count: string, profiles: seq<Offering>, list: seq<Selector>)
      returns (r: seq<Selector>)
    ensures r == list + Matching(p, count, profiles)
  {
    r := list;
    for k := 0 to |profiles|
      invariant r == list + Matching(p, count, profiles[..k])
    {
      if !(profiles[k].price == 0.0 || !OfferingMatches(p, profiles[k])) {
        r := r + [Selector(profiles[k].name, profiles[k].price, count)];
      }
      assert profiles[..k + 1][..k] == profiles[..k];
    }
    assert profiles[..|profiles|] == profiles;
  }

  /** The name of every offering that fits, with the last offering of that name. */
  method FindDeployable(profiles: seq<Offering>, least: Minimum) returns (m: map<string, Offering>)
    ensures m.Keys == Deployable(profiles, least)
    ensures forall n | n in m :: m[n] in profiles && Fits(m[n], least) && m[n].name == n
  {
    m := map[];
    for k := 0 to |profiles|
      invariant m.Keys == Deployable(profiles[..k], least)
      invariant forall n | n in m :: m[n] in profiles && Fits(m[n], least) && m[n].name == n
    {
      if profiles[k].cpu >= least.cpu && profiles[k].ram >= least.ram {
        m := m[profiles[k].name := profiles[k]];
      }
      assert profiles[..k + 1] == profiles[..k] + [profiles[k]];
    }
    assert profiles[..|profiles|] == profiles;
  }

  method KeepDeployable(list: seq<Selector>, names: set<string>) returns (r: seq<Selector>)
    ensures r == Usable(list, Some(names))
  {
    r := [];
    for k := 0 to |list|
      invariant r == Usable(list[..k], Some(names))
    {
      if list[k].name in names {
        r := r + [list[k]];
      }
      assert list[..k + 1][..k] == list[..k];
    }
    assert list[..|list|] == list;
  }

  /** One alternative: the longer list, filtered; `Err` if the filter leaves nothing of something. */
  method SearchAlternative(p: Pattern, count: string, kind: string, profiles: seq<Offering>, least: Result<Minimum>,
                           list: seq<Selector>)
    returns (r: Result<seq<Selector>>)
    requires forall x | x in list :: May(x, Allowed(kind, profiles, least))
    ensures !r.Panic?
    ensures var more, allowed := Matching(p, count, profiles), Allowed(kind, profiles, least);
      && (r.Ok? <==> (kind == "Deployment" ==> least.Ok?) && (more != [] && Usable(more, allowed) == [] ==> list != []))
      && (r.Ok? ==> Shortened(list + Usable(more, allowed), r.value, 10))
  {
    ghost var more, allowed := Matching(p, count, profiles), Allowed(kind, profiles, least);
    var longer := CollectMatches(p, count, profiles, list);
    UsableAppend(list, more, allowed);
    UsableOfUsable(list, allowed);
    if kind == "Deployment" {
      if !least.Ok? {
        return Err("minimum compute resource not known");
      }
      var deployable := FindDeployable(profiles, least.value);
      var filtered := KeepDeployable(longer, deployable.Keys);
      if |longer| > 0 && |filtered| == 0 {
        return Err("no suitable alternatives");
      }
      if |filtered| > 0 {
        longer := filtered;
      }
    } else {
      UsableOfUsable(more, allowed);
    }
    var shorter := Shorten(longer);
    return Ok(shorter);
  }

  predicate Found(anyOf: seq<Alternative>, kind: string, profiles: Result<seq<Offering>>, least: Result<Minimum>)
  {
    var offered := Offered(profiles);
    AllReadable(anyOf, kind, profiles, least) && FirstMatchUsable(anyOf, offered, Allowed(kind, offered, least))
  }

  function MatchesOf(anyOf: seq<Alternative>, kind: string, profiles: Result<seq<Offering>>,
      least: Result<Minimum>): seq<Selector>
  {
    var offered := Offered(profiles);
    Matches(anyOf, offered, Allowed(kind, offered, least))
  }

  lemma ReadableNext(before: seq<Alternative>, a: Alternative, kind: string, profiles: Result<seq<Offering>>,
      least: Result<Minimum>)
    requires AllReadable(before, kind, profiles, least)
    ensures AllReadable(before + [a], kind, profiles, least) <==> ReadableAlternative(a, kind, profiles, least)
  {
    assert a in before + [a];
  }

  /** When one more alternative can be searched, given the list so far. */
  lemma FoundNext(before: seq<Alternative>, a: Alternative, kind: string, profiles: Result<seq<Offering>>,
      least: Result<Minimum>, list: seq<Selector>)
    requires Found(before, kind, profiles, least) && Cheapest(MatchesOf(before, kind, profiles, least), list, 10)
    ensures var offered := Offered(profiles);
            var more, allowed := MatchesOfOne(a, offered), Allowed(kind, offered, least);
            Found(before + [a], kind, profiles, least) <==>
              && ReadableAlternative(a, kind, profiles, least)
              && (more != [] && Usable(more, allowed) == [] ==> list != [])
  {
    var offered := Offered(profiles);
    var allowed := Allowed(kind, offered, least);
    assert (before + [a])[..|before|] == before;
    FirstMatchOfLonger(before + [a], offered, allowed);
    ReadableNext(before, a, kind, profiles, least);
    NoneOfNone(Matches(before, offered, allowed), list);
  }

  lemma NoneOfNone(ms: seq<Selector>, kept: seq<Selector>)
    requires Cheapest(ms, kept, 10)
    ensures kept == [] <==> ms == []
  {
    if ms != [] {
      assert ms[0].name in Names(ms);
    }
  }

  lemma MatchesNext(before: seq<Alternative>, a: Alternative, kind: string, profiles: Result<seq<Offering>>,
      least: Result<Minimum>)
    ensures var more := Usable(MatchesOfOne(a, Offered(profiles)), Allowed(kind, Offered(profiles), least));
            MatchesOf(before + [a], kind, profiles, least) == MatchesOf(before, kind, profiles, least) + more
  {
    assert (before + [a])[..|before|] == before;
  }

  /** The next alternative of a constraint. */
  method SearchNext(a: Alternative, kind: string, profiles: Result<seq<Offering>>, least: Result<Minimum>,
      list: seq<Selector>, ghost before: seq<Alternative>)
    returns (r: Result<seq<Selector>>)
    requires Found(before, kind, profiles, least)
    requires TopTen(MatchesOf(before, kind, profiles, least), list)
    ensures !r.Panic?
    ensures r.Ok? <==> Found(before + [a], kind, profiles, least)
    ensures r.Ok? ==> TopTen(MatchesOf(before + [a], kind, profiles, least), r.value)
  {
    assert At(10);
    ghost var offered := Offered(profiles);
    ghost var ms, allowed := MatchesOf(before, kind, profiles, least), Allowed(kind, offered, least);
    FoundNext(before, a, kind, profiles, least, list);
    MatchesNext(before, a, kind, profiles, least);
    if a.kind != "ComputeProfile" {
      return Err("unsupported virtual service kind");
    }
    if a.spec.None? {
      assert ms + [] == ms;
      return Ok(list);
    }
    if !a.spec.value.Ok? || !profiles.Ok? {
      return Err("flavor or profiles cannot be read");
    }
    ListIsUsable(before, offered, allowed, list);
    r := SearchAlternative(a.spec.value.value, a.count, kind, profiles.value, least, list);
    if r.Ok? {
      StreamStep(ms, list, Usable(MatchesOfOne(a, offered), allowed), r.value, 10);
    }
  }

  /** The alternatives of one constraint for a Deployment or an XNodeGroup. */
  method SearchConstraint(anyOf: seq<Alternative>, kind: string, profiles: Result<seq<Offering>>,
      least: Result<Minimum>)
    returns (r: Result<seq<Selector>>)
    ensures !r.Panic?
    ensures r.Ok? <==> anyOf != [] && Found(anyOf, kind, profiles, least)
    ensures r.Ok? ==> TenOf(anyOf, kind, Offered(profiles), least, r.value)
  {
    if |anyOf| == 0 {
      return Err("no virtual service alternatives");
    }
    r := Ok([]);
    NothingFound(kind, profiles, least);
    assert anyOf[..0] == [];
    for i := 0 to |anyOf|
      invariant r.Ok? && Found(anyOf[..i], kind, profiles, least)
      invariant TopTen(MatchesOf(anyOf[..i], kind, profiles, least), r.value)
    {
      assert anyOf[..i + 1] == anyOf[..i] + [anyOf[i]];
      r := SearchNext(anyOf[i], kind, profiles, least, r.value, anyOf[..i]);
      if !r.Ok? {
        FoundOfPrefix(anyOf, i + 1, kind, profiles, least);
        return;
      }
    }
    assert anyOf[..|anyOf|] == anyOf;
    assert At(10);
    CheapestIsTenOf(anyOf, kind, profiles, least, r.value);
  }

  lemma NothingFound(kind: string, profiles: Result<seq<Offering>>, least: Result<Minimum>)
    ensures Found([], kind, profiles, least) && TopTen(MatchesOf([], kind, profiles, least), [])
  {
  }

  lemma FoundOfPrefix(anyOf: seq<Alternative>, i: nat, kind: string, profiles: Result<seq<Offering>>,
      least: Result<Minimum>)
    requires i <= |anyOf|
    ensures Found(anyOf, kind, profiles, least) ==> Found(anyOf[..i], kind, profiles, least)
  {
    var offered := Offered(profiles);
    if Found(anyOf, kind, profiles, least) {
      FirstMatchOfPrefix(anyOf, i, offered, Allowed(kind, offered, least));
    }
  }

  lemma {:induction false} ListIsUsable(anyOf: seq<Alternative>, profiles: seq<Offering>, allowed: Option<set<string>>,
      list: seq<Selector>)
    requires Cheapest(Matches(anyOf, profiles, allowed), list, 10)
    ensures forall x | x in list :: May(x, allowed)
    ensures list == [] <==> Matches(anyOf, profiles, allowed) == []
  {
    AllUsable(anyOf, profiles, allowed);
    var ms := Matches(anyOf, profiles, allowed);
    if ms != [] {
      assert ms[0].name in Names(ms);
    }
  }

  lemma {:induction false} AllUsable(anyOf: seq<Alternative>, profiles: seq<Offering>, allowed: Option<set<string>>)
    ensures forall x | x in Matches(anyOf, profiles, allowed) :: May(x, allowed)
  {
    if anyOf != [] {
      UsableMembers(MatchesOfOne(anyOf[|anyOf| - 1], profiles), allowed);
      AllUsable(anyOf[..|anyOf| - 1], profiles, allowed);
    }
  }

  lemma {:induction false} FirstMatchOfPrefix(anyOf: seq<Alternative>, i: nat, profiles: seq<Offering>,
      allowed: Option<set<string>>)
    requires i <= |anyOf| && FirstMatchUsable(anyOf, profiles, allowed)
    ensures FirstMatchUsable(anyOf[..i], profiles, allowed)
    decreases |anyOf|
  {
    if i < |anyOf| {
      var init := anyOf[..|anyOf| - 1];
      FirstMatchOfLonger(anyOf, profiles, allowed);
      FirstMatchOfPrefix(init, i, profiles, allowed);
      assert init[..i] == anyOf[..i];
    } else {
      assert anyOf[..i] == anyOf;
    }
  }

  // ----- In terms of offerings -----

  /** `a` asks for `off`, which is not free. */
  predicate AsksFor(a: Alternative, off: Offering)
  {
    a.spec.Some? && a.spec.value.Ok? && off.price != 0.0 && OfferingMatches(a.spec.value.value, off)
  }

  /** For a Deployment: an offering of that name is big enough for its pods. */
  ghost predicate BigEnough(off: Offering, kind: string, offered: seq<Offering>, least: Result<Minimum>)
  {
    kind == "Deployment" && least.Ok? ==>
      exists x :: x in offered && x.name == off.name && x.cpu >= least.value.cpu && x.ram >= least.value.ram
  }

  ghost predicate Wants(anyOf: seq<Alternative>, off: Offering)
  {
    exists a :: a in anyOf && AsksFor(a, off)
  }

  /** The offerings that an alternative asks for and that the component may use. */
  ghost function MatchedBy(anyOf: seq<Alternative>, kind: string, offered: seq<Offering>,
      least: Result<Minimum>): set<Offering>
  {
    set off | off in offered && Wants(anyOf, off) && BigEnough(off, kind, offered, least)
  }

  lemma {:induction false} MatchingMembers(p: Pattern, count: string, profiles: seq<Offering>)
    ensures forall m :: m in Matching(p, count, profiles) <==>
              exists off :: off in profiles && off.price != 0.0 && OfferingMatches(p, off)
                  && m == Selector(off.name, off.price, count)
  {
    if profiles != [] {
      var init, last := profiles[..|profiles| - 1], profiles[|profiles| - 1];
      MatchingMembers(p, count, init);
      assert profiles == init + [last];
    }
  }

  lemma {:induction false} MatchesMembers(anyOf: seq<Alternative>, profiles: seq<Offering>,
      allowed: Option<set<string>>)
    ensures forall m :: m in Matches(anyOf, profiles, allowed) <==>
              exists a :: a in anyOf && m in MatchesOfOne(a, profiles) && May(m, allowed)
  {
    if anyOf != [] {
      var init, last := anyOf[..|anyOf| - 1], anyOf[|anyOf| - 1];
      MatchesMembers(init, profiles, allowed);
      UsableMembers(MatchesOfOne(last, profiles), allowed);
      assert anyOf == init + [last];
    }
  }

  lemma MayMeansBigEnough(off: Offering, kind: string, offered: seq<Offering>, least: Result<Minimum>, count: string)
    ensures May(Selector(off.name, off.price, count), Allowed(kind, offered, least))
       <==> BigEnough(off, kind, offered, least)
  {
  }

  /** An entry of a match has the count of the alternative that asked for it. */
  ghost predicate CountAsked(anyOf: seq<Alternative>, offered: seq<Offering>, x: Selector)
  {
    exists a, off :: a in anyOf && off in offered && AsksFor(a, off) && EntryFor(x, off) && x.count == a.count
  }

  lemma EntryOfMatch(anyOf: seq<Alternative>, kind: string, offered: seq<Offering>, least: Result<Minimum>,
      a: Alternative, m: Selector)
    requires a in anyOf && m in MatchesOfOne(a, offered) && May(m, Allowed(kind, offered, least))
    ensures HasOffering(MatchedBy(anyOf, kind, offered, least), m) && CountAsked(anyOf, offered, m)
  {
    MatchingMembers(a.spec.value.value, a.count, offered);
    var off :| off in offered && off.price != 0.0 && OfferingMatches(a.spec.value.value, off)
      && m == Selector(off.name, off.price, a.count);
    assert AsksFor(a, off) && Wants(anyOf, off);
    MayMeansBigEnough(off, kind, offered, least, a.count);
    assert off in MatchedBy(anyOf, kind, offered, least) && EntryFor(m, off);
  }

  lemma MatchOfOffering(anyOf: seq<Alternative>, kind: string, offered: seq<Offering>, least: Result<Minimum>,
      off: Offering)
    requires off in MatchedBy(anyOf, kind, offered, least)
    ensures HasEntry(Matches(anyOf, offered, Allowed(kind, offered, least)), off)
  {
    var allowed := Allowed(kind, offered, least);
    var a :| a in anyOf && AsksFor(a, off);
    var m := Selector(off.name, off.price, a.count);
    MatchesMembers(anyOf, offered, allowed);
    MatchingMembers(a.spec.value.value, a.count, offered);
    MayMeansBigEnough(off, kind, offered, least, a.count);
    assert m in MatchesOfOne(a, offered) && May(m, allowed);
    assert EntryFor(m, off);
  }

  lemma MatchesAreEntries(anyOf: seq<Alternative>, kind: string, offered: seq<Offering>, least: Result<Minimum>)
    ensures var ms := Matches(anyOf, offered, Allowed(kind, offered, least));
            && EntriesFor(ms, MatchedBy(anyOf, kind, offered, least))
            && forall m | m in ms :: CountAsked(anyOf, offered, m)
  {
    var allowed := Allowed(kind, offered, least);
    var ms, offs := Matches(anyOf, offered, allowed), MatchedBy(anyOf, kind, offered, least);
    forall m | m in ms ensures HasOffering(offs, m) && CountAsked(anyOf, offered, m) {
      MatchesMembers(anyOf, offered, allowed);
      var a :| a in anyOf && m in MatchesOfOne(a, offered) && May(m, allowed);
      EntryOfMatch(anyOf, kind, offered, least, a, m);
    }
    forall off | off in offs ensures HasEntry(ms, off) {
      MatchOfOffering(anyOf, kind, offered, least, off);
    }
  }

  /** The ten cheapest of what the alternatives ask for and the component may use, one of each. */
  ghost predicate TenOf(anyOf: seq<Alternative>, kind: string, offered: seq<Offering>, least: Result<Minimum>,
      list: seq<Selector>)
  {
    && TenCheapest(MatchedBy(anyOf, kind, offered, least), list)
    && forall x | x in list :: CountAsked(anyOf, offered, x)
  }

  lemma CheapestIsTenOf(anyOf: seq<Alternative>, kind: string, profiles: Result<seq<Offering>>, least: Result<Minimum>,
      list: seq<Selector>)
    requires Cheapest(MatchesOf(anyOf, kind, profiles, least), list, 10)
    ensures TenOf(anyOf, kind, Offered(profiles), least, list)
  {
    var offered := Offered(profiles);
    MatchesAreEntries(anyOf, kind, offered, least);
    SelectsOfferings(MatchesOf(anyOf, kind, profiles, least), MatchedBy(anyOf, kind, offered, least), list);
  }

  /** Alternative `k` is the first that asks for anything on offer. */
  ghost predicate FirstAsking(anyOf: seq<Alternative>, offered: seq<Offering>, k: int)
  {
    && 0 <= k < |anyOf| && (exists off :: off in offered && AsksFor(anyOf[k], off))
    && forall j | 0 <= j < k :: forall off | off in offered :: !AsksFor(anyOf[j], off)
  }

  /** The error condition over offerings: nothing that the first asking alternative asks for may be used. */
  lemma {:induction false} UsableExact(anyOf: seq<Alternative>, kind: string, offered: seq<Offering>,
      least: Result<Minimum>)
    ensures FirstMatchUsable(anyOf, offered, Allowed(kind, offered, least)) <==>
              forall k | FirstAsking(anyOf, offered, k) ::
                exists off :: off in offered && AsksFor(anyOf[k], off) && BigEnough(off, kind, offered, least)
  {
    if anyOf != [] {
      OneUsableExact(anyOf[0], kind, offered, least);
      if MatchesOfOne(anyOf[0], offered) != [] {
        assert FirstAsking(anyOf, offered, 0);
      } else {
        UsableExact(anyOf[1..], kind, offered, least);
        forall k ensures FirstAsking(anyOf, offered, k) <==> FirstAsking(anyOf[1..], offered, k - 1) {
          FirstAskingShifts(anyOf, offered, k);
        }
        assert forall k | FirstAsking(anyOf[1..], offered, k) :: FirstAsking(anyOf, offered, k + 1);
      }
    }
  }

  /** When the search of a constraint succeeds, over offerings. */
  lemma FoundExact(anyOf: seq<Alternative>, kind: string, profiles: Result<seq<Offering>>, least: Result<Minimum>)
    ensures Found(anyOf, kind, profiles, least) <==>
              && (forall a | a in anyOf ::
                    && a.kind == "ComputeProfile"
                    && (a.spec.Some? ==> a.spec.value.Ok? && profiles.Ok? && (kind == "Deployment" ==> least.Ok?)))
              && (forall k | FirstAsking(anyOf, Offered(profiles), k) ::
                    exists off :: off in Offered(profiles) && AsksFor(anyOf[k], off)
                        && BigEnough(off, kind, Offered(profiles), least))
  {
    UsableExact(anyOf, kind, Offered(profiles), least);
  }

  lemma FirstAskingShifts(anyOf: seq<Alternative>, offered: seq<Offering>, k: int)
    requires anyOf != [] && forall off | off in offered :: !AsksFor(anyOf[0], off)
    ensures FirstAsking(anyOf, offered, k) <==> FirstAsking(anyOf[1..], offered, k - 1)
  {
    assert forall j | 0 <= j < |anyOf| - 1 :: anyOf[1..][j] == anyOf[j + 1];
    if FirstAsking(anyOf[1..], offered, k - 1) {
      forall j | 0 <= j < k ensures forall off | off in offered :: !AsksFor(anyOf[j], off) {
        if j > 0 {
          assert anyOf[j] == anyOf[1..][j - 1];
        }
      }
    }
  }

  lemma OneUsableExact(a: Alternative, kind: string, offered: seq<Offering>, least: Result<Minimum>)
    ensures MatchesOfOne(a, offered) == [] <==> forall off | off in offered :: !AsksFor(a, off)
    ensures Usable(MatchesOfOne(a, offered), Allowed(kind, offered, least)) == [] <==>
              forall off | off in offered :: AsksFor(a, off) ==> !BigEnough(off, kind, offered, least)
  {
    var ms, allowed := MatchesOfOne(a, offered), Allowed(kind, offered, least);
    if a.spec.Some? && a.spec.value.Ok? {
      MatchingMembers(a.spec.value.value, a.count, offered);
      UsableMembers(ms, allowed);
      forall off | off in offered && AsksFor(a, off)
        ensures ms != [] && (BigEnough(off, kind, offered, least) ==> Usable(ms, allowed) != [])
      {
        MayMeansBigEnough(off, kind, offered, least, a.count);
        assert Selector(off.name, off.price, a.count) in ms;
      }
      OneUsed(a, kind, offered, least);
    }
  }

  lemma OneUsed(a: Alternative, kind: string, offered: seq<Offering>, least: Result<Minimum>)
    requires a.spec.Some? && a.spec.value.Ok?
    ensures var ms, used := MatchesOfOne(a, offered), Usable(MatchesOfOne(a, offered), Allowed(kind, offered, least));
            && (ms != [] ==> exists off :: off in offered && AsksFor(a, off))
            && (used != [] ==> exists off :: off in offered && AsksFor(a, off) && BigEnough(off, kind, offered, least))
  {
    var ms, allowed := MatchesOfOne(a, offered), Allowed(kind, offered, least);
    var used := Usable(ms, allowed);
    MatchingMembers(a.spec.value.value, a.count, offered);
    UsableMembers(ms, allowed);
    forall m | m in ms
      ensures exists off ::
        off in offered && AsksFor(a, off) && (May(m, allowed) ==> BigEnough(off, kind, offered, least))
    {
      var off :| off in offered && off.price != 0.0 && OfferingMatches(a.spec.value.value, off)
        && m == Selector(off.name, off.price, a.count);
      MayMeansBigEnough(off, kind, offered, least, a.count);
    }
    if ms != [] { assert ms[0] in ms; }
    if used != [] { assert used[0] in ms && May(used[0], allowed); }
  }

  // ----- No constraints at all -----

  ghost predicate IsCheapestFit(profiles: seq<Offering>, least: Minimum, x: Selector)
  {
    && (exists off :: off in profiles && off.cpu >= least.cpu && off.ram >= least.ram
          && x == Selector(off.name, off.price, ""))
    && ((forall a, b | a in profiles && b in profiles && a.name == b.name :: a.price == b.price) ==>
          forall off | off in profiles && off.cpu >= least.cpu && off.ram >= least.ram :: x.price <= off.price)
  }

  /** The cheapest of the flavors that fit: any of them, if several are. */
  method CheapestDeployable(profiles: seq<Offering>, least: Minimum) returns (r: Option<Selector>)
    ensures r.None? <==> Deployable(profiles, least) == {}
    ensures r.Some? ==> IsCheapestFit(profiles, least, r.value)
  {
    var deployable := FindDeployable(profiles, least);
    var todo := deployable.Keys;
    r := None;
    while todo != {}
      invariant todo <= deployable.Keys
      invariant r.None? <==> todo == deployable.Keys
      invariant r.Some? ==>
        exists n :: n in deployable && r.value == Selector(deployable[n].name, deployable[n].price, "")
      invariant r.Some? ==> forall n | n in deployable && n !in todo :: r.value.price <= deployable[n].price
      decreases todo
    {
      var name :| name in todo;
      if r.None? || deployable[name].price < r.value.price {
        r := Some(Selector(deployable[name].name, deployable[name].price, ""));
      }
      todo := todo - {name};
    }
    assert forall off | off in profiles && Fits(off, least) :: off.name in deployable;
  }

  predicate AllFound(cs: seq<seq<Alternative>>, kind: string, profiles: Result<seq<Offering>>, least: Result<Minimum>)
  {
    forall c | c in cs :: c != [] && Found(c, kind, profiles, least)
  }

  /** One list for each constraint, in order, each the ten cheapest of its usable matches. */
  ghost predicate ListsFor(cs: seq<seq<Alternative>>, kind: string, profiles: Result<seq<Offering>>,
      least: Result<Minimum>, lists: seq<seq<Selector>>)
  {
    && |lists| == |cs|
    && forall i {:trigger At(i)} | 0 <= i < |cs| && At(i) ::
        TenOf(cs[i], kind, Offered(profiles), least, lists[i])
  }

  method SearchMore(kind: string, c: seq<Alternative>, profiles: Result<seq<Offering>>, least: Result<Minimum>,
                    lists: seq<seq<Selector>>, ghost cs: seq<seq<Alternative>>)
    returns (r: Result<seq<seq<Selector>>>)
    requires ListsFor(cs, kind, profiles, least, lists)
    ensures !r.Panic?
    ensures r.Ok? <==> c != [] && Found(c, kind, profiles, least)
    ensures r.Ok? ==> ListsFor(cs + [c], kind, profiles, least, r.value)
  {
    var found := SearchConstraint(c, kind, profiles, least);
    if !found.Ok? {
      return Err("constraint has no usable match");
    }
    return Ok(lists + [found.value]);
  }

  method SearchAll(kind: string, cs: seq<seq<Alternative>>, profiles: Result<seq<Offering>>, least: Result<Minimum>)
    returns (r: Result<seq<seq<Selector>>>)
    ensures !r.Panic?
    ensures r.Ok? <==> AllFound(cs, kind, profiles, least)
    ensures r.Ok? ==> ListsFor(cs, kind, profiles, least, r.value)
  {
    r := Ok([]);
    for i := 0 to |cs|
      invariant r.Ok? && AllFound(cs[..i], kind, profiles, least) && ListsFor(cs[..i], kind, profiles, least, r.value)
    {
      assert cs[..i + 1] == cs[..i] + [cs[i]];
      r := SearchMore(kind, cs[i], profiles, least, r.value, cs[..i]);
      if !r.Ok? {
        assert cs[i] in cs;
        return;
      }
    }
    assert cs[..|cs|] == cs;
  }

  /**
   The lists of one component. Without constraints it is one list with the cheapest flavor that
   fits. With constraints it is one list each, which may be empty.
   */
  method FindServices(kind: string, cs: seq<seq<Alternative>>, profiles: Result<seq<Offering>>, least: Result<Minimum>)
    returns (r: Result<seq<seq<Selector>>>)
    ensures !r.Panic?
    ensures r.Ok? <==>
      && (kind == "Deployment" || kind == "XNodeGroup")
      && AllFound(cs, kind, profiles, least)
      && (cs == [] ==>
            && profiles.Ok? && least.Ok?
            && exists off :: off in profiles.value && off.cpu >= least.value.cpu && off.ram >= least.value.ram)
    ensures r.Ok? && cs != [] ==> ListsFor(cs, kind, profiles, least, r.value)
    ensures r.Ok? && cs == [] ==>
      |r.value| == 1 && |r.value[0]| == 1 && IsCheapestFit(profiles.value, least.value, r.value[0][0])
  {
    if kind != "Deployment" && kind != "XNodeGroup" {
      return Err("unsupported component kind");
    }
    r := SearchAll(kind, cs, profiles, least);
    if r.Err? || |r.value| > 0 {
      return;
    }
    if !profiles.Ok? || !least.Ok? {
      return Err("flavors that fit are not known");
    }
    var cheapest := CheapestDeployable(profiles.value, least.value);
    assert forall off | off in profiles.value && Fits(off, least.value) ::
      off.name in Deployable(profiles.value, least.value);
    if cheapest.None? {
      return Err("no flavor fits");
    }
    return Ok([[cheapest.value]]);
  }
}
