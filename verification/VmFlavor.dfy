/**
 From the virtual service constraints of a policy to the flavor of the virtual machine that is
 created: the search per chosen provider, the manifest attached to the deploy plan, and the flavor
 read back out of it.
 */
module VmFlavor {
  import opened Wrappers
  import opened Selection
  import opened Candidates

  /** `spec` is `None` for an absent spec and an error for one that does not parse. */
  datatype Alternative = Alternative(kind: string, spec: Option<Result<Pattern>>)

  datatype Constraint = Constraint(anyOf: seq<Alternative>)

  /** The provider of a component of the plan: a name, and where it is. */
  datatype ProviderRef = ProviderRef(name: string, at: Location)

  /** The provider profiles there are, and their compute profiles; reading them may fail. */
  datatype Catalog = Catalog(providers: seq<Provider>, profiles: Provider -> Result<seq<Offering>>)

  /** What the search for `ref` looks through: the profiles of every provider that its location admits. */
  function ProfilesAt(catalog: Catalog, ref: ProviderRef): Result<seq<Offering>>
  {
    ProfilesOf(Chosen(catalog.providers, [ref.at]), catalog.profiles)
  }

  function SelectorOf(off: Offering): Selector
  {
    Selector(off.name, off.price, "1")
  }

  function Matching(p: Pattern, profiles: seq<Offering>): seq<Selector>
  {
    if profiles == [] then []
    else
      var off := profiles[|profiles| - 1];
      Matching(p, profiles[..|profiles| - 1]) + (if OfferingMatches(p, off) then [SelectorOf(off)] else [])
  }

  function MatchesOfOne(a: Alternative, profiles: seq<Offering>): seq<Selector>
  {
    if a.spec.Some? && a.spec.value.Ok? then Matching(a.spec.value.value, profiles) else []
  }

  /** Every match of every alternative of a constraint: the batch the streaming search competes with. */
  function Matches(anyOf: seq<Alternative>, profiles: seq<Offering>): seq<Selector>
  {
    if anyOf == [] then []
    else Matches(anyOf[..|anyOf| - 1], profiles) + MatchesOfOne(anyOf[|anyOf| - 1], profiles)
  }

  lemma {:induction false} MatchingMembers(p: Pattern, profiles: seq<Offering>)
    ensures forall m ::
      m in Matching(p, profiles) <==> exists off :: off in profiles && OfferingMatches(p, off) && m == SelectorOf(off)
  {
    if profiles != [] {
      var init, last := profiles[..|profiles| - 1], profiles[|profiles| - 1];
      MatchingMembers(p, init);
      assert profiles == init + [last];
    }
  }

  lemma {:induction false} MatchesMembers(anyOf: seq<Alternative>, profiles: seq<Offering>)
    ensures forall m :: m in Matches(anyOf, profiles) <==> exists a :: a in anyOf && m in MatchesOfOne(a, profiles)
  {
    if anyOf != [] {
      var init, last := anyOf[..|anyOf| - 1], anyOf[|anyOf| - 1];
      MatchesMembers(init, profiles);
      assert anyOf == init + [last];
    }
  }

  lemma SameOfferingsSameMatches(anyOf: seq<Alternative>, offs: seq<Offering>, offs': seq<Offering>)
    requires forall off :: off in offs <==> off in offs'
    ensures forall m :: m in Matches(anyOf, offs) <==> m in Matches(anyOf, offs')
  {
    MatchesMembers(anyOf, offs);
    MatchesMembers(anyOf, offs');
    forall a ensures forall m :: m in MatchesOfOne(a, offs) <==> m in MatchesOfOne(a, offs') {
      if a.spec.Some? && a.spec.value.Ok? {
        MatchingMembers(a.spec.value.value, offs);
        MatchingMembers(a.spec.value.value, offs');
      }
    }
  }

  // ----- In terms of offerings -----

  /** `a` can be read and `off` is what it asks for. */
  predicate AsksFor(a: Alternative, off: Offering)
  {
    a.spec.Some? && a.spec.value.Ok? && OfferingMatches(a.spec.value.value, off)
  }

  ghost predicate Wants(c: Constraint, off: Offering)
  {
    exists a :: a in c.anyOf && AsksFor(a, off)
  }

  /** The offerings that some alternative of `c` asks for. */
  ghost function MatchedBy(c: Constraint, offered: seq<Offering>): set<Offering>
  {
    set off | off in offered && Wants(c, off)
  }

  lemma MatchesAreEntries(c: Constraint, offered: seq<Offering>)
    ensures EntriesFor(Matches(c.anyOf, offered), MatchedBy(c, offered))
    ensures forall m | m in Matches(c.anyOf, offered) :: m.count == "1"
    ensures Matches(c.anyOf, offered) != [] <==> MatchedBy(c, offered) != {}
  {
    var ms, offs := Matches(c.anyOf, offered), MatchedBy(c, offered);
    MatchesMembers(c.anyOf, offered);
    forall m | m in ms ensures HasOffering(offs, m) && m.count == "1" {
      var a :| a in c.anyOf && m in MatchesOfOne(a, offered);
      EntryOfMatch(c, a, offered, m);
    }
    forall off | off in offs ensures HasEntry(ms, off) {
      var a :| a in c.anyOf && AsksFor(a, off);
      MatchingMembers(a.spec.value.value, offered);
      assert SelectorOf(off) in MatchesOfOne(a, offered);
    }
    if off :| off in offs {
      assert HasEntry(ms, off);
    }
    if ms != [] {
      assert HasOffering(offs, ms[0]);
    }
  }

  lemma EntryOfMatch(c: Constraint, a: Alternative, offered: seq<Offering>, m: Selector)
    requires a in c.anyOf && m in MatchesOfOne(a, offered)
    ensures HasOffering(MatchedBy(c, offered), m) && m.count == "1"
  {
    MatchingMembers(a.spec.value.value, offered);
    var off :| off in offered && OfferingMatches(a.spec.value.value, off) && m == SelectorOf(off);
    assert AsksFor(a, off) && Wants(c, off);
    assert off in MatchedBy(c, offered) && EntryFor(m, off);
  }

  /** The ten cheapest of what `c` asks for, one of each. */
  ghost predicate TenOf(c: Constraint, offered: seq<Offering>, list: seq<Selector>)
  {
    TenCheapest(MatchedBy(c, offered), list) && forall x | x in list :: x.count == "1"
  }

  lemma CheapestIsTenOf(c: Constraint, offered: seq<Offering>, list: seq<Selector>)
    requires Cheapest(Matches(c.anyOf, offered), list, 10)
    ensures TenOf(c, offered, list)
  {
    MatchesAreEntries(c, offered);
    SelectsOfferings(Matches(c.anyOf, offered), MatchedBy(c, offered), list);
  }

  /**
   Permitted locations only count as a set: two filters that admit the same providers, however often
   they name them, allow the same selections of a constraint.
   */
  lemma LocationsCountOnce(providers: seq<Provider>, f: seq<Location>, g: seq<Location>,
      table: Provider -> Result<seq<Offering>>, anyOf: seq<Alternative>, kept: seq<Selector>)
    requires forall p | p in providers :: Permitted(f, p) <==> Permitted(g, p)
    ensures var a, b := ProfilesOf(Chosen(providers, f), table), ProfilesOf(Chosen(providers, g), table);
      && (a.Ok? <==> b.Ok?)
      && (a.Ok? ==> (Cheapest(Matches(anyOf, a.value), kept, 10) <==> Cheapest(Matches(anyOf, b.value), kept, 10)))
  {
    OverlappingLocations(providers, f, g, table);
    var a, b := ProfilesOf(Chosen(providers, f), table), ProfilesOf(Chosen(providers, g), table);
    if a.Ok? {
      SameOfferingsSameMatches(anyOf, a.value, b.value);
      DuplicatesDoNotMatter(Matches(anyOf, a.value), Matches(anyOf, b.value), kept, 10);
    }
  }

  predicate ReadableAlternative(a: Alternative, profiles: Result<seq<Offering>>)
  {
    a.kind == "ComputeProfile" && (a.spec.Some? ==> a.spec.value.Ok? && profiles.Ok?)
  }

  /** What the search needs of a constraint not to return an error. */
  predicate Readable(c: Constraint, profiles: Result<seq<Offering>>)
  {
    c.anyOf != [] && ReadableAlternatives(c.anyOf, profiles)
  }

  predicate ReadableAlternatives(anyOf: seq<Alternative>, profiles: Result<seq<Offering>>)
  {
    forall a | a in anyOf :: ReadableAlternative(a, profiles)
  }

  function Offered(profiles: Result<seq<Offering>>): seq<Offering>
  {
    if profiles.Ok? then profiles.value else []
  }

  method CollectMatches(p: Pattern, profiles: seq<Offering>, list: seq<Selector>) returns (r: seq<Selector>)
    ensures r == list + Matching(p, profiles)
  {
    r := list;
    for k := 0 to |profiles|
      invariant r == list + Matching(p, profiles[..k])
    {
      if OfferingMatches(p, profiles[k]) {
        r := r + [SelectorOf(profiles[k])];
      }
      assert profiles[..k + 1][..k] == profiles[..k];
    }
    assert profiles[..|profiles|] == profiles;
  }

  /** One alternative: its matches go into the list, which is cut down again. */
  method SearchAlternative(a: Alternative, catalog: Catalog, ref: ProviderRef, list: seq<Selector>,
                           ghost profiles: Result<seq<Offering>>, ghost before: seq<Alternative>)
    returns (r: Result<seq<Selector>>)
    requires profiles == ProfilesAt(catalog, ref)
    requires TopTen(Matches(before, Offered(profiles)), list)
    ensures !r.Panic?
    ensures r.Ok? <==> ReadableAlternative(a, profiles)
    ensures r.Ok? ==> TopTen(Matches(before + [a], Offered(profiles)), r.value)
  {
    assert At(10);
    ghost var ms := Matches(before, Offered(profiles));
    assert (before + [a])[..|before|] == before;
    if a.kind != "ComputeProfile" {
      return Err("unsupported virtual service kind");
    }
    if a.spec.None? {
      assert ms + [] == ms;
      return Ok(list);
    }
    if !a.spec.value.Ok? {
      return Err("flavor does not parse");
    }
    var offered := GetAllComputeProfiles(catalog.providers, [ref.at], catalog.profiles);
    if !offered.Ok? {
      return Err("compute profiles not available");
    }
    var longer := CollectMatches(a.spec.value.value, offered.value, list);
    var shorter := Shorten(longer);
    StreamStep(ms, list, Matching(a.spec.value.value, profiles.value), shorter, 10);
    return Ok(shorter);
  }

  /** The alternatives of one constraint, one after the other, with the list cut down after each. */
  method SearchConstraint(c: Constraint, catalog: Catalog, ref: ProviderRef, ghost profiles: Result<seq<Offering>>)
    returns (r: Result<seq<Selector>>)
    requires profiles == ProfilesAt(catalog, ref)
    ensures !r.Panic?
    ensures r.Ok? <==> Readable(c, profiles)
    ensures r.Ok? <==>
      && c.anyOf != []
      && forall a | a in c.anyOf :: a.kind == "ComputeProfile" && (a.spec.Some? ==> a.spec.value.Ok? && profiles.Ok?)
    ensures r.Ok? ==> TenOf(c, Offered(profiles), r.value)
  {
    if |c.anyOf| == 0 {
      return Err("no virtual service alternatives");
    }
    r := Ok([]);
    NothingYet();
    assert Matches(c.anyOf[..0], Offered(profiles)) == [];
    for i := 0 to |c.anyOf|
      invariant r.Ok? && ReadableAlternatives(c.anyOf[..i], profiles)
      invariant TopTen(Matches(c.anyOf[..i], Offered(profiles)), r.value)
    {
      assert c.anyOf[..i + 1] == c.anyOf[..i] + [c.anyOf[i]];
      r := SearchAlternative(c.anyOf[i], catalog, ref, r.value, profiles, c.anyOf[..i]);
      if !r.Ok? {
        assert c.anyOf[i] in c.anyOf;
        return;
      }
    }
    assert c.anyOf[..|c.anyOf|] == c.anyOf;
    assert Cheapest(Matches(c.anyOf, Offered(profiles)), r.value, 10) by {
      assert At(10);
    }
    CheapestIsTenOf(c, Offered(profiles), r.value);
  }

  lemma EmptyListMeansNoMatch(c: Constraint, offered: seq<Offering>, list: seq<Selector>)
    requires TenOf(c, offered, list)
    ensures list == [] <==> MatchedBy(c, offered) == {}
  {
    if off :| off in MatchedBy(c, offered) {
      assert off.name in OfferingNames(MatchedBy(c, offered));
    }
  }

  /** The constraints at `ks` are those with a match, in order, and the lists are their cheapest tens. */
  ghost predicate ListsAt(cs: seq<Constraint>, offered: seq<Offering>, lists: seq<seq<Selector>>, ks: seq<nat>)
  {
    && |ks| == |lists|
    && (forall i, j | 0 <= i < j < |ks| :: ks[i] < ks[j])
    && (forall k: nat :: k in ks <==> k < |cs| && MatchedBy(cs[k], offered) != {})
    && forall i {:trigger At(i)} | 0 <= i < |ks| && At(i) :: ks[i] < |cs| && TenOf(cs[ks[i]], offered, lists[i])
  }

  /** The lists found for a component: one for each constraint with a match, in order, each its cheapest ten. */
  ghost predicate ListsFor(cs: seq<Constraint>, offered: seq<Offering>, lists: seq<seq<Selector>>)
  {
    exists ks :: ListsAt(cs, offered, lists, ks)
  }

  predicate AllReadable(cs: seq<Constraint>, profiles: Result<seq<Offering>>)
  {
    forall c | c in cs :: Readable(c, profiles)
  }

  lemma ListsForNext(cs: seq<Constraint>, c: Constraint, offered: seq<Offering>, lists: seq<seq<Selector>>,
      found: seq<Selector>)
    requires ListsFor(cs, offered, lists) && TenOf(c, offered, found)
    ensures ListsFor(cs + [c], offered, if found == [] then lists else lists + [found])
  {
    var ks :| ListsAt(cs, offered, lists, ks);
    EmptyListMeansNoMatch(c, offered, found);
    if found == [] {
      assert ListsAt(cs + [c], offered, lists, ks);
    } else {
      OneMoreList(cs, c, offered, lists, found, ks);
    }
  }

  lemma OneMoreList(cs: seq<Constraint>, c: Constraint, offered: seq<Offering>, lists: seq<seq<Selector>>,
      found: seq<Selector>, ks: seq<nat>)
    requires ListsAt(cs, offered, lists, ks) && TenOf(c, offered, found) && MatchedBy(c, offered) != {}
    ensures ListsAt(cs + [c], offered, lists + [found], ks + [|cs|])
  {
    var cs', ks' := cs + [c], ks + [|cs|];
    assert forall k: nat :: k in ks' <==> k in ks || k == |cs|;
    forall i, j | 0 <= i < j < |ks'| ensures ks'[i] < ks'[j] {
      var k := ks[i];
      assert k in ks;
    }
  }

  /** One more constraint: its list is kept if there is anything in it. */
  method SearchNext(c: Constraint, catalog: Catalog, ref: ProviderRef, lists: seq<seq<Selector>>,
                    ghost profiles: Result<seq<Offering>>, ghost cs: seq<Constraint>)
    returns (r: Result<seq<seq<Selector>>>)
    requires profiles == ProfilesAt(catalog, ref)
    requires ListsFor(cs, Offered(profiles), lists)
    ensures !r.Panic?
    ensures r.Ok? <==> Readable(c, profiles)
    ensures r.Ok? ==> ListsFor(cs + [c], Offered(profiles), r.value)
  {
    var found := SearchConstraint(c, catalog, ref, profiles);
    if !found.Ok? {
      return Err("constraint cannot be read");
    }
    ListsForNext(cs, c, Offered(profiles), lists, found.value);
    return Ok(if |found.value| > 0 then lists + [found.value] else lists);
  }

  method FindVMVirtualServicesForProvider(cs: seq<Constraint>, catalog: Catalog, ref: ProviderRef)
    returns (r: Result<seq<seq<Selector>>>)
    ensures !r.Panic?
    ensures r.Ok? <==> AllReadable(cs, ProfilesAt(catalog, ref))
    ensures r.Ok? ==> ListsFor(cs, Offered(ProfilesAt(catalog, ref)), r.value)
  {
    ghost var profiles := ProfilesAt(catalog, ref);
    r := Ok([]);
    assert ListsAt(cs[..0], Offered(profiles), [], []);
    for i := 0 to |cs|
      invariant r.Ok? && AllReadable(cs[..i], profiles) && ListsFor(cs[..i], Offered(profiles), r.value)
    {
      assert cs[..i + 1] == cs[..i] + [cs[i]];
      r := SearchNext(cs[i], catalog, ref, r.value, profiles, cs[..i]);
      if !r.Ok? {
        assert cs[i] in cs;
        return;
      }
    }
    assert cs[..|cs|] == cs;
  }

  /** Constraint `k` is the first with a match. */
  ghost predicate FirstMatched(cs: seq<Constraint>, offered: seq<Offering>, k: int)
  {
    && 0 <= k < |cs| && MatchedBy(cs[k], offered) != {}
    && forall j | 0 <= j < k :: MatchedBy(cs[j], offered) == {}
  }

  /** The first list belongs to the first constraint with a match. */
  lemma FirstList(cs: seq<Constraint>, offered: seq<Offering>, lists: seq<seq<Selector>>)
    requires ListsFor(cs, offered, lists)
    ensures lists == [] ==> forall k :: !FirstMatched(cs, offered, k)
    ensures lists != [] ==>
      exists k :: FirstMatched(cs, offered, k) && TenOf(cs[k], offered, lists[0])
  {
    var ks :| ListsAt(cs, offered, lists, ks);
    if lists != [] {
      assert At(0) && ks[0] in ks;
      forall j: nat | j < ks[0] ensures MatchedBy(cs[j], offered) == {} {
        assert forall i | 0 <= i < |ks| :: ks[i] != j;
      }
      assert FirstMatched(cs, offered, ks[0]);
    }
  }

  // ----- The deploy plan -----

  datatype ComponentRef = ComponentRef(name: string, kind: string, apiVersion: string)

  /**
   The manifest of a component: none, one that does not decode, or its "services" lists, none if the
   entry is missing.
   */
  datatype Manifest = NoManifest | Undecodable | Lists(services: seq<seq<Selector>>)

  datatype Component = Component(ref: ComponentRef, provider: ProviderRef, manifest: Manifest)

  datatype PolicyItem = PolicyItem(ref: ComponentRef, constraints: seq<Constraint>)

  function FindItem(policy: seq<PolicyItem>, ref: ComponentRef): Option<PolicyItem>
  {
    if policy == [] then None
    else if policy[0].ref == ref then Some(policy[0])
    else FindItem(policy[1..], ref)
  }

  method FindMatchingItem(policy: seq<PolicyItem>, ref: ComponentRef) returns (r: Option<PolicyItem>)
    ensures r == FindItem(policy, ref)
  {
    for i := 0 to |policy|
      invariant FindItem(policy, ref) == FindItem(policy[i..], ref)
    {
      if policy[i].ref == ref {
        return Some(policy[i]);
      }
    }
    return None;
  }

  /** What is offered where a provider is. */
  type Table = ProviderRef -> Result<seq<Offering>>

  function TableOf(catalog: Catalog): Table
  {
    ref => ProfilesAt(catalog, ref)
  }

  ghost predicate Tabulates(table: Table, catalog: Catalog)
  {
    forall ref {:trigger ProfilesAt(catalog, ref)} :: table(ref) == ProfilesAt(catalog, ref)
  }

  /** `services` are lists found for `c` where its provider is. */
  ghost predicate Serves(policy: seq<PolicyItem>, table: Table, c: Component, services: seq<seq<Selector>>)
  {
    var item := FindItem(policy, c.ref);
    item.Some? && ListsFor(item.value.constraints, Offered(table(c.provider)), services)
  }

  predicate Servable(policy: seq<PolicyItem>, table: Table, c: Component)
  {
    var item := FindItem(policy, c.ref);
    c.provider.name != "" && item.Some? && AllReadable(item.value.constraints, table(c.provider))
  }

  predicate AllServable(policy: seq<PolicyItem>, table: Table, plan: seq<Component>)
  {
    forall c | c in plan :: Servable(policy, table, c)
  }

  ghost predicate DistinctComponents(plan: seq<Component>)
  {
    forall i, j | 0 <= i < j < |plan| :: plan[i].ref.name != plan[j].ref.name
  }

  method ServicesOf(c: Component, policy: seq<PolicyItem>, catalog: Catalog, ghost table: Table)
    returns (r: Result<seq<seq<Selector>>>)
    requires Tabulates(table, catalog)
    ensures !r.Panic?
    ensures r.Ok? <==> Servable(policy, table, c)
    ensures r.Ok? ==> Serves(policy, table, c, r.value)
  {
    if c.provider.name == "" {
      return Err("provider ref not set");
    }
    var item := FindMatchingItem(policy, c.ref);
    if item.None? {
      return Err("no matching deployment policy item");
    }
    r := FindVMVirtualServicesForProvider(item.value.constraints, catalog, c.provider);
    assert table(c.provider) == ProfilesAt(catalog, c.provider);
  }

  ghost predicate ServesAll(policy: seq<PolicyItem>, table: Table, plan: seq<Component>,
      services: map<string, seq<seq<Selector>>>)
  {
    forall c | c in plan :: c.ref.name in services && Serves(policy, table, c, services[c.ref.name])
  }

  method FindServicesForDeployPlan(plan: seq<Component>, policy: seq<PolicyItem>, catalog: Catalog)
    returns (r: Result<map<string, seq<seq<Selector>>>>)
    ensures !r.Panic?
    ensures r.Ok? <==> AllServable(policy, TableOf(catalog), plan)
    ensures r.Ok? ==> r.value.Keys == set c | c in plan :: c.ref.name
    ensures r.Ok? && DistinctComponents(plan) ==> ServesAll(policy, TableOf(catalog), plan, r.value)
  {
    r := FindServices(plan, policy, catalog, TableOf(catalog));
  }

  /** The loop over the components. */
  method FindServices(plan: seq<Component>, policy: seq<PolicyItem>, catalog: Catalog, ghost table: Table)
    returns (r: Result<map<string, seq<seq<Selector>>>>)
    requires Tabulates(table, catalog)
    ensures !r.Panic?
    ensures r.Ok? <==> AllServable(policy, table, plan)
    ensures r.Ok? ==> r.value.Keys == set c | c in plan :: c.ref.name
    ensures r.Ok? && DistinctComponents(plan) ==> ServesAll(policy, table, plan, r.value)
  {
    var services: map<string, seq<seq<Selector>>> := map[];
    for i := 0 to |plan|
      invariant AllServable(policy, table, plan[..i])
      invariant services.Keys == set c | c in plan[..i] :: c.ref.name
      invariant DistinctComponents(plan) ==> ServesAll(policy, table, plan[..i], services)
    {
      var found := ServicesOf(plan[i], policy, catalog, table);
      if !found.Ok? {
        return Err(found.message);
      }
      services := services[plan[i].ref.name := found.value];
      assert plan[..i + 1] == plan[..i] + [plan[i]];
    }
    assert plan[..|plan|] == plan;
    return Ok(services);
  }

  function TopFive(lists: seq<seq<Selector>>): (r: seq<seq<Selector>>)
    ensures |r| == |lists|
    ensures forall i | 0 <= i < |r| :: r[i] == lists[i][..Min(|lists[i]|, 5)]
  {
    if lists == [] then []
    else
      var last := lists[|lists| - 1];
      TopFive(lists[..|lists| - 1]) + [last[..Min(|last|, 5)]]
  }

  /** One component of the plan found services for itself under its name. */
  function WithManifest(c: Component, services: map<string, seq<seq<Selector>>>): Component
  {
    if c.ref.name in services && services[c.ref.name] != []
    then c.(manifest := Lists(TopFive(services[c.ref.name])))
    else c
  }

  /** The first component of the given name, if any, gets the manifest. */
  method AttachOne(plan: array<Component>, name: string, lists: seq<seq<Selector>>)
    modifies plan
    ensures forall i | 0 <= i < plan.Length ::
      plan[i] == if old(plan[i]).ref.name == name && forall j | 0 <= j < i :: old(plan[j]).ref.name != name
                 then old(plan[i]).(manifest := Lists(TopFive(lists)))
                 else old(plan[i])
  {
    for i := 0 to plan.Length
      invariant forall j | 0 <= j < plan.Length :: plan[j] == old(plan[j])
      invariant forall j | 0 <= j < i :: plan[j].ref.name != name
    {
      if plan[i].ref.name == name {
        var manifest := [];
        for k := 0 to |lists|
          invariant forall j | 0 <= j < plan.Length :: plan[j] == old(plan[j])
          invariant manifest == TopFive(lists[..k])
        {
          manifest := manifest + [lists[k][..Min(|lists[k]|, 5)]];
          assert lists[..k + 1][..k] == lists[..k];
        }
        assert lists[..|lists|] == lists;
        plan[i] := plan[i].(manifest := Lists(manifest));
        return;
      }
    }
  }

  predicate FirstOfName(plan: seq<Component>, i: nat)
    requires i < |plan|
  {
    forall j | 0 <= j < i :: plan[j].ref.name != plan[i].ref.name
  }

  /**
   The services are a Go map, so the names come in any order. Of components of one name only the first
   gets a manifest.
   */
  method AttachServices(plan: array<Component>, services: map<string, seq<seq<Selector>>>)
    modifies plan
    ensures forall i | 0 <= i < plan.Length ::
      plan[i] == if FirstOfName(old(plan[..]), i) then WithManifest(old(plan[i]), services) else old(plan[i])
  {
    ghost var prior := plan[..];
    var todo := services.Keys;
    while todo != {}
      invariant todo <= services.Keys
      invariant forall i | 0 <= i < plan.Length ::
        plan[i] == if FirstOfName(prior, i) && prior[i].ref.name !in todo then WithManifest(prior[i], services)
            else prior[i]
      decreases todo
    {
      var name :| name in todo;
      if |services[name]| != 0 {
        AttachOne(plan, name, services[name]);
      }
      todo := todo - {name};
    }
  }

  // ----- The flavor -----

  /** Which XInstance objects can be fetched, by name. */
  type Instances = string -> bool

  /**
   What an XInstance of the plan comes to: its flavor, which is `svcsMap["services"][0][0]`, an error if
   its object cannot be fetched or its manifest not decoded, or the panic of reading a flavor that is
   not there.
   */
  function FlavorOf(instances: Instances, c: Component): Result<string>
  {
    if !instances(c.ref.name) then Err("error fetching XInstance")
    else
      match c.manifest
      case NoManifest => Panic
      case Undecodable => Err("error unmarshalling virtual services")
      case Lists(lists) => if lists != [] && lists[0] != [] then Ok(lists[0][0].name) else Panic
  }

  /** A machine: the name of its component, and its flavor. */
  type Machine = (string, string)

  function AddMachine(machines: seq<Machine>, name: string, flavor: Result<string>): Result<seq<Machine>>
  {
    match flavor
    case Ok(f) => Ok(machines + [(name, f)])
    case Err(m) => Err(m)
    case Panic => Panic
  }

  /** The machines of the XInstance components, in order, or the first failure. */
  function Machines(instances: Instances, plan: seq<Component>): Result<seq<Machine>>
  {
    if plan == [] then Ok([])
    else
      var rest, c := Machines(instances, plan[..|plan| - 1]), plan[|plan| - 1];
      if !rest.Ok? || c.ref.kind != "XInstance" then rest
      else AddMachine(rest.value, c.ref.name, FlavorOf(instances, c))
  }

  method GenerateVMManifests(plan: seq<Component>, instances: Instances) returns (r: Result<seq<Machine>>)
    ensures r == Machines(instances, plan)
  {
    var machines: seq<Machine> := [];
    for i := 0 to |plan|
      invariant Machines(instances, plan[..i]) == Ok(machines)
    {
      assert plan[..i + 1][..i] == plan[..i];
      var c := plan[i];
      if c.ref.kind == "XInstance" {
        if !instances(c.ref.name) {
          FirstFailureWins(instances, plan, i + 1);
          return Err("error fetching XInstance");
        }
        if c.manifest.Undecodable? {
          FirstFailureWins(instances, plan, i + 1);
          return Err("error unmarshalling virtual services");
        }
        if c.manifest.NoManifest? || |c.manifest.services| == 0 || |c.manifest.services[0]| == 0 {
          FirstFailureWins(instances, plan, i + 1);
          return Panic;
        }
        machines := machines + [(c.ref.name, c.manifest.services[0][0].name)];
      }
    }
    assert plan[..|plan|] == plan;
    return Ok(machines);
  }

  lemma {:induction false} FirstFailureWins(instances: Instances, plan: seq<Component>, i: nat)
    requires i <= |plan| && !Machines(instances, plan[..i]).Ok?
    ensures Machines(instances, plan) == Machines(instances, plan[..i])
    decreases |plan|
  {
    if i == |plan| {
      assert plan[..i] == plan;
    } else {
      var init := plan[..|plan| - 1];
      assert init[..i] == plan[..i];
      FirstFailureWins(instances, init, i);
    }
  }

  predicate Fails(instances: Instances, c: Component)
  {
    c.ref.kind == "XInstance" && !FlavorOf(instances, c).Ok?
  }

  /** `flavor` is that of an XInstance of the plan called `name`. */
  ghost predicate IsMachine(instances: Instances, plan: seq<Component>, machine: Machine)
  {
    exists c :: c in plan && c.ref.kind == "XInstance" && c.ref.name == machine.0
        && FlavorOf(instances, c) == Ok(machine.1)
  }

  /**
   If no XInstance fails there is one machine for each and none beside; otherwise the first that fails
   decides how.
   */
  lemma {:induction false} MachinesExact(instances: Instances, plan: seq<Component>)
    ensures var r := Machines(instances, plan);
      && (r.Ok? <==> forall c | c in plan :: !Fails(instances, c))
      && (r.Ok? ==> forall v :: v in r.value <==> IsMachine(instances, plan, v))
      && (!r.Ok? ==> exists i :: FirstFails(instances, plan, i) && SameFailure(r, FlavorOf(instances, plan[i])))
  {
    if plan != [] {
      var init, c := plan[..|plan| - 1], plan[|plan| - 1];
      MachinesExact(instances, init);
      assert plan == init + [c];
      var before, r := Machines(instances, init), Machines(instances, plan);
      if !before.Ok? {
        var i :| FirstFails(instances, init, i) && SameFailure(before, FlavorOf(instances, init[i]));
        assert FirstFails(instances, plan, i);
      } else if Fails(instances, c) {
        assert FirstFails(instances, plan, |plan| - 1);
      } else {
        OneMoreMachine(instances, init, c, before.value, r.value);
      }
    }
  }

  lemma OneMoreMachine(instances: Instances, init: seq<Component>, c: Component, before: seq<Machine>,
      after: seq<Machine>)
    requires !Fails(instances, c) && forall v :: v in before <==> IsMachine(instances, init, v)
    requires after == if c.ref.kind == "XInstance" then before + [(c.ref.name, FlavorOf(instances, c).value)]
        else before
    ensures forall v :: v in after <==> IsMachine(instances, init + [c], v)
  {
    forall v ensures v in after <==> IsMachine(instances, init + [c], v) {
      assert forall x :: x in init + [c] <==> x in init || x == c;
      assert v in before <==> IsMachine(instances, init, v);
    }
  }

  ghost predicate FirstFails(instances: Instances, plan: seq<Component>, i: int)
  {
    0 <= i < |plan| && Fails(instances, plan[i]) && forall j | 0 <= j < i :: !Fails(instances, plan[j])
  }

  predicate SameFailure(r: Result<seq<Machine>>, flavor: Result<string>)
  {
    (r.Panic? <==> flavor.Panic?) && (r.Err? <==> flavor.Err?)
  }

  /** `flavor` names an offering that matches `c`; if names decide prices, none that does is cheaper. */
  ghost predicate CheapestMatch(flavor: string, c: Constraint, offered: seq<Offering>)
  {
    var offs := MatchedBy(c, offered);
    exists best :: best in offs && best.name == flavor
      && (OnePricePerName(offs) ==> forall off | off in offs :: best.price <= off.price)
  }

  lemma HeadIsCheapestMatch(c: Constraint, offered: seq<Offering>, list: seq<Selector>)
    requires TenOf(c, offered, list) && list != []
    ensures CheapestMatch(list[0].name, c, offered)
  {
    var offs := MatchedBy(c, offered);
    assert list[0] in list;
    var best :| best in offs && EntryFor(list[0], best);
    if OnePricePerName(offs) {
      forall off | off in offs ensures best.price <= off.price {
        HeadIsCheapestOffering(offs, list, off);
      }
    }
  }

  lemma HeadIsCheapestOffering(offs: set<Offering>, list: seq<Selector>, off: Offering)
    requires TenCheapest(offs, list) && OnePricePerName(offs) && list != [] && off in offs
    ensures list[0].price <= off.price
  {
    assert list[0] in list;
    if off.name in Names(list) {
      var j :| 0 <= j < |list| && list[j].name == off.name;
      assert list[j] in list;
      var x :| x in offs && EntryFor(list[j], x);
    }
  }

  /** Item `i` is the first of the policy that is for `ref`. */
  predicate FirstItem(policy: seq<PolicyItem>, ref: ComponentRef, i: int)
  {
    0 <= i < |policy| && policy[i].ref == ref && forall j | 0 <= j < i :: policy[j].ref != ref
  }

  lemma {:induction false} FindItemIsFirst(policy: seq<PolicyItem>, ref: ComponentRef, i: int)
    ensures FirstItem(policy, ref, i) ==> FindItem(policy, ref) == Some(policy[i])
    ensures FindItem(policy, ref).None? ==> forall item | item in policy :: item.ref != ref
  {
    if policy != [] {
      FindItemIsFirst(policy[1..], ref, i - 1);
      assert policy == [policy[0]] + policy[1..];
      if FirstItem(policy, ref, i) && i > 0 {
        assert FirstItem(policy[1..], ref, i - 1) by {
          assert forall j | 0 <= j < i - 1 :: policy[1..][j] == policy[j + 1];
        }
      }
    }
  }

  /** `x` is the first constraint for a component that anything on offer matches. */
  ghost predicate Sought(policy: seq<PolicyItem>, ref: ComponentRef, offered: seq<Offering>, x: Constraint)
  {
    exists i, k :: FirstItem(policy, ref, i) && FirstMatched(policy[i].constraints, offered, k)
        && x == policy[i].constraints[k]
  }

  ghost predicate SeeksAny(policy: seq<PolicyItem>, ref: ComponentRef, offered: seq<Offering>)
  {
    exists x :: Sought(policy, ref, offered, x)
  }

  /** A cheapest match of the constraint `c` seeks; if it seeks none, what its own manifest says. */
  ghost predicate WellChosen(policy: seq<PolicyItem>, table: Table, instances: Instances, c: Component,
      flavor: Result<string>)
  {
    var offered := Offered(table(c.provider));
    if instances(c.ref.name) && SeeksAny(policy, c.ref, offered)
    then flavor.Ok? && forall x | Sought(policy, c.ref, offered, x) :: CheapestMatch(flavor.value, x, offered)
    else flavor == FlavorOf(instances, c)
  }

  /** There is one constraint that is sought: the one of the first list. */
  lemma SoughtIsFirst(policy: seq<PolicyItem>, ref: ComponentRef, offered: seq<Offering>, lists: seq<seq<Selector>>)
    requires FindItem(policy, ref).Some? && ListsFor(FindItem(policy, ref).value.constraints, offered, lists)
    ensures lists == [] <==> !SeeksAny(policy, ref, offered)
    ensures lists != [] ==> forall x | Sought(policy, ref, offered, x) :: TenOf(x, offered, lists[0]) && lists[0] != []
  {
    var cs := FindItem(policy, ref).value.constraints;
    FirstList(cs, offered, lists);
    forall x | Sought(policy, ref, offered, x)
      ensures lists != [] && TenOf(x, offered, lists[0]) && lists[0] != []
    {
      var i, k :| FirstItem(policy, ref, i) && FirstMatched(policy[i].constraints, offered, k)
        && x == policy[i].constraints[k];
      FindItemIsFirst(policy, ref, i);
      EmptyListMeansNoMatch(x, offered, lists[0]);
    }
    if lists != [] {
      var i := ItemIndex(policy, ref);
      FindItemIsFirst(policy, ref, i);
      var k :| FirstMatched(cs, offered, k);
      assert Sought(policy, ref, offered, cs[k]);
    }
  }

  lemma {:induction false} ItemIndex(policy: seq<PolicyItem>, ref: ComponentRef) returns (i: int)
    requires FindItem(policy, ref).Some?
    ensures FirstItem(policy, ref, i)
  {
    i := 0;
    if policy[0].ref != ref {
      i := ItemIndex(policy[1..], ref);
      i := i + 1;
      assert forall j | 0 < j <= i :: policy[1..][j - 1] == policy[j];
    }
  }

  lemma ManifestHead(policy: seq<PolicyItem>, table: Table, instances: Instances, c: Component,
                     services: map<string, seq<seq<Selector>>>)
    requires c.ref.name in services && Serves(policy, table, c, services[c.ref.name])
    ensures WellChosen(policy, table, instances, c, FlavorOf(instances, WithManifest(c, services)))
  {
    var offered, lists := Offered(table(c.provider)), services[c.ref.name];
    SoughtIsFirst(policy, c.ref, offered, lists);
    if lists != [] && instances(c.ref.name) {
      HeadIsSought(policy, c.ref, offered, lists);
      assert WithManifest(c, services).manifest == Lists(TopFive(lists));
      assert TopFive(lists)[0] == lists[0][..Min(|lists[0]|, 5)];
      assert TopFive(lists)[0][0] == lists[0][0];
    }
  }

  lemma HeadIsSought(policy: seq<PolicyItem>, ref: ComponentRef, offered: seq<Offering>, lists: seq<seq<Selector>>)
    requires SeeksAny(policy, ref, offered) && lists != []
    requires forall x | Sought(policy, ref, offered, x) :: TenOf(x, offered, lists[0]) && lists[0] != []
    ensures lists[0] != []
    ensures forall x | Sought(policy, ref, offered, x) :: CheapestMatch(lists[0][0].name, x, offered)
  {
    forall x | Sought(policy, ref, offered, x) ensures lists[0] != [] && CheapestMatch(lists[0][0].name, x, offered) {
      HeadIsCheapestMatch(x, offered, lists[0]);
    }
    var x :| Sought(policy, ref, offered, x);
  }

  ghost predicate MachineFor(policy: seq<PolicyItem>, table: Table, instances: Instances, c: Component,
      machine: Machine)
  {
    c.ref.kind == "XInstance" && c.ref.name == machine.0 && WellChosen(policy, table, instances, c, Ok(machine.1))
  }

  ghost predicate GetsMachine(policy: seq<PolicyItem>, table: Table, instances: Instances, c: Component)
  {
    instances(c.ref.name) && (SeeksAny(policy, c.ref, Offered(table(c.provider))) || FlavorOf(instances, c).Ok?)
  }

  ghost predicate AllGetMachines(policy: seq<PolicyItem>, table: Table, instances: Instances, plan: seq<Component>)
  {
    forall c | c in plan && c.ref.kind == "XInstance" :: GetsMachine(policy, table, instances, c)
  }

  /** One machine for each XInstance of the plan and none beside. */
  ghost predicate MachinesOf(policy: seq<PolicyItem>, table: Table, instances: Instances, plan: seq<Component>,
                             machines: seq<Machine>)
  {
    && (forall v | v in machines :: exists c :: c in plan && MachineFor(policy, table, instances, c, v))
    && (forall c | c in plan && c.ref.kind == "XInstance" ::
          exists v :: v in machines && MachineFor(policy, table, instances, c, v))
  }

  /**
   The whole way, for the virtual machines of a plan that names every component once. If the services
   of all components can be found, the machines are created unless some XInstance cannot be fetched or
   has neither a constraint with a match where its provider is nor a manifest of its own, and the flavor
   of each is a cheapest match of the first such constraint: the cut to ten, the cut to five and the pick
   of the first of the first lose nothing. If they cannot be found, the plan stays as it was.
   */
  method DeployVirtualMachines(plan: array<Component>, policy: seq<PolicyItem>, catalog: Catalog, instances: Instances)
    returns (r: Result<seq<Machine>>)
    requires DistinctComponents(plan[..])
    modifies plan
    ensures WithoutManifests(plan[..]) == WithoutManifests(old(plan[..]))
    ensures !AllServable(policy, TableOf(catalog), old(plan[..])) ==> plan[..] == old(plan[..])
    ensures AllServable(policy, TableOf(catalog), old(plan[..])) ==>
      && (r.Ok? <==> AllGetMachines(policy, TableOf(catalog), instances, old(plan[..])))
      && (r.Ok? ==> MachinesOf(policy, TableOf(catalog), instances, old(plan[..]), r.value))
  {
    ghost var prior := plan[..];
    ghost var services := PrepareManifests(plan, policy, catalog);
    r := GenerateVMManifests(plan[..], instances);
    OnlyManifests(prior, services);
    if AllServable(policy, TableOf(catalog), prior) {
      FlavorsOfPlan(prior, policy, TableOf(catalog), instances, services);
    }
  }

  function WithoutManifests(plan: seq<Component>): seq<Component>
  {
    seq(|plan|, i requires 0 <= i < |plan| => plan[i].(manifest := NoManifest))
  }

  /** The plan with the manifests for `services`. */
  function Attached(plan: seq<Component>, services: map<string, seq<seq<Selector>>>): seq<Component>
  {
    seq(|plan|, i requires 0 <= i < |plan| => WithManifest(plan[i], services))
  }

  lemma OnlyManifests(plan: seq<Component>, services: map<string, seq<seq<Selector>>>)
    ensures WithoutManifests(Attached(plan, services)) == WithoutManifests(plan)
  {
  }

  /** The part of the task controller: it goes on without services if they cannot be found. */
  method PrepareManifests(plan: array<Component>, policy: seq<PolicyItem>, catalog: Catalog)
    returns (ghost services: map<string, seq<seq<Selector>>>)
    requires DistinctComponents(plan[..])
    modifies plan
    ensures plan[..] == Attached(old(plan[..]), services)
    ensures !AllServable(policy, TableOf(catalog), old(plan[..])) ==> services == map[]
    ensures AllServable(policy, TableOf(catalog), old(plan[..]))
        ==> ServesAll(policy, TableOf(catalog), old(plan[..]), services)
    ensures services == map[] ==> plan[..] == old(plan[..])
  {
    var found := FindServicesForDeployPlan(plan[..], policy, catalog);
    services := map[];
    if found.Ok? {
      services := found.value;
      assert forall i | 0 <= i < plan.Length :: FirstOfName(plan[..], i);
      AttachServices(plan, found.value);
    }
  }

  /** Reads the machines off the plan with its manifests. */
  lemma FlavorsOfPlan(prior: seq<Component>, policy: seq<PolicyItem>, table: Table, instances: Instances,
                      services: map<string, seq<seq<Selector>>>)
    requires ServesAll(policy, table, prior, services)
    ensures var r := Machines(instances, Attached(prior, services));
      && (r.Ok? <==> AllGetMachines(policy, table, instances, prior))
      && (r.Ok? ==> MachinesOf(policy, table, instances, prior, r.value))
  {
    var plan := Attached(prior, services);
    MachinesExact(instances, plan);
    forall i | 0 <= i < |plan| ensures WellChosen(policy, table, instances, prior[i], FlavorOf(instances, plan[i])) {
      ManifestHead(policy, table, instances, prior[i], services);
    }
    AllOrNone(prior, plan, policy, table, instances);
    if Machines(instances, plan).Ok? {
      EachHasItsMachine(prior, plan, policy, table, instances, Machines(instances, plan).value);
    }
  }

  /** The attached plan has the components of `prior`, each with a flavor that is well chosen. */
  ghost predicate AllWellChosen(prior: seq<Component>, plan: seq<Component>, policy: seq<PolicyItem>, table: Table,
      instances: Instances)
  {
    |plan| == |prior| && forall i | 0 <= i < |plan| ::
      plan[i].ref == prior[i].ref && WellChosen(policy, table, instances, prior[i], FlavorOf(instances, plan[i]))
  }

  lemma AllOrNone(prior: seq<Component>, plan: seq<Component>, policy: seq<PolicyItem>, table: Table,
      instances: Instances)
    requires AllWellChosen(prior, plan, policy, table, instances)
    ensures (forall c | c in plan :: !Fails(instances, c)) <==> AllGetMachines(policy, table, instances, prior)
  {
    forall i | 0 <= i < |plan| && plan[i].ref.kind == "XInstance"
      ensures FlavorOf(instances, plan[i]).Ok? <==> GetsMachine(policy, table, instances, prior[i])
    {
    }
    forall i | 0 <= i < |plan| ensures plan[i] in plan && prior[i] in prior {
    }
  }

  lemma EachHasItsMachine(prior: seq<Component>, plan: seq<Component>, policy: seq<PolicyItem>, table: Table,
                          instances: Instances, machines: seq<Machine>)
    requires AllWellChosen(prior, plan, policy, table, instances)
    requires forall c | c in plan :: !Fails(instances, c)
    requires forall v :: v in machines <==> IsMachine(instances, plan, v)
    ensures MachinesOf(policy, table, instances, prior, machines)
  {
    forall v | v in machines ensures exists c :: c in prior && MachineFor(policy, table, instances, c, v) {
      var c :| c in plan && c.ref.kind == "XInstance" && c.ref.name == v.0 && FlavorOf(instances, c) == Ok(v.1);
      var i :| 0 <= i < |plan| && plan[i] == c;
      assert prior[i] in prior && MachineFor(policy, table, instances, prior[i], v);
    }
    forall c | c in prior && c.ref.kind == "XInstance"
      ensures exists v :: v in machines && MachineFor(policy, table, instances, c, v)
    {
      var i :| 0 <= i < |prior| && prior[i] == c;
      assert plan[i] in plan && !Fails(instances, plan[i]);
      var v := (c.ref.name, FlavorOf(instances, plan[i]).value);
      assert IsMachine(instances, plan, v);
    }
  }

  // ----- Whose offering it is -----

  /** The offerings looked through are those of the providers that the location admits; the name does not count. */
  lemma OfferedMembers(catalog: Catalog, ref: ProviderRef, off: Offering)
    requires ProfilesAt(catalog, ref).Ok?
    ensures off in ProfilesAt(catalog, ref).value
       <==> exists p ::
              && p in catalog.providers && catalog.profiles(p).Ok? && off in catalog.profiles(p).value
              && ref.at.platform in {"", p.at.platform} && ref.at.region in {"", p.at.region}
              && ref.at.regionAlias in {"", p.at.regionAlias}
  {
    var filter := [ref.at];
    ChosenMembers(catalog.providers, filter);
    ProfilesMembers(Chosen(catalog.providers, filter), catalog.profiles);
    assert forall p :: Permitted(filter, p) <==> Admits(ref.at, p) by {
      assert ref.at in filter;
    }
  }

  /** `p` offers something called `flavor` that an alternative of `c` matches. */
  ghost predicate Offers(catalog: Catalog, p: Provider, c: Constraint, flavor: string)
  {
    exists off, a :: catalog.profiles(p).Ok? && off in catalog.profiles(p).value && off.name == flavor
      && a in c.anyOf && AsksFor(a, off)
  }

  /** The flavor of a machine is offered by a provider in the place of the chosen one. */
  lemma FlavorIsOffered(catalog: Catalog, ref: ProviderRef, c: Constraint, flavor: string) returns (p: Provider)
    requires CheapestMatch(flavor, c, Offered(ProfilesAt(catalog, ref)))
    ensures p in catalog.providers && Admits(ref.at, p) && Offers(catalog, p, c, flavor)
    ensures AdmitsOnlyNamed(catalog.providers, ref) ==> p.name == ref.name
  {
    var offered := Offered(ProfilesAt(catalog, ref));
    var off :| off in MatchedBy(c, offered) && off.name == flavor;
    var a :| a in c.anyOf && AsksFor(a, off);
    OfferedMembers(catalog, ref, off);
    p :| p in catalog.providers && Admits(ref.at, p) && catalog.profiles(p).Ok? && off in catalog.profiles(p).value;
  }

  /** Everything looked through is offered by a provider of the chosen name. */
  ghost predicate OwnOfferings(catalog: Catalog, ref: ProviderRef)
  {
    ProfilesAt(catalog, ref).Ok? ==>
      forall off | off in ProfilesAt(catalog, ref).value ::
        exists p :: p in catalog.providers && p.name == ref.name && catalog.profiles(p).Ok?
            && off in catalog.profiles(p).value
  }

  /** No provider of another name is in that place. */
  predicate AdmitsOnlyNamed(providers: seq<Provider>, ref: ProviderRef)
  {
    forall p | p in providers && Admits(ref.at, p) :: p.name == ref.name
  }

  /** Exactly when the choice is the chosen provider's own, whatever is on offer. */
  lemma OwnOfferingsExact(providers: seq<Provider>, ref: ProviderRef, off: Offering)
    ensures AdmitsOnlyNamed(providers, ref) <==> forall profiles :: OwnOfferings(Catalog(providers, profiles), ref)
  {
    if AdmitsOnlyNamed(providers, ref) {
      forall profiles ensures OwnOfferings(Catalog(providers, profiles), ref) {
        OnlyNamedIsOwn(Catalog(providers, profiles), ref);
      }
    } else {
      var p :| p in providers && Admits(ref.at, p) && p.name != ref.name;
      var profiles := (q: Provider) => if q == p then Ok([off]) else Ok([]);
      NotOwn(Catalog(providers, profiles), ref, p, off);
    }
  }

  lemma OnlyNamedIsOwn(catalog: Catalog, ref: ProviderRef)
    requires AdmitsOnlyNamed(catalog.providers, ref)
    ensures OwnOfferings(catalog, ref)
  {
    if ProfilesAt(catalog, ref).Ok? {
      forall off | off in ProfilesAt(catalog, ref).value
        ensures exists p ::
          p in catalog.providers && p.name == ref.name && catalog.profiles(p).Ok? && off in catalog.profiles(p).value
      {
        OfferedMembers(catalog, ref, off);
      }
    }
  }

  lemma NotOwn(catalog: Catalog, ref: ProviderRef, p: Provider, off: Offering)
    requires p in catalog.providers && Admits(ref.at, p) && p.name != ref.name
    requires forall q :: catalog.profiles(q) == if q == p then Ok([off]) else Ok([])
    ensures !OwnOfferings(catalog, ref) && ProfilesAt(catalog, ref).Ok? && off in ProfilesAt(catalog, ref).value
  {
    ProfilesMembers(Chosen(catalog.providers, [ref.at]), catalog.profiles);
    assert off in catalog.profiles(p).value;
    OfferedMembers(catalog, ref, off);
  }

  /** Two providers in one place, and a component placed on the first: its flavor is one that only the second offers. */
  lemma NeighboursFlavor(at: Location, off: Offering, c: Constraint, a: Alternative)
    requires a in c.anyOf && a.spec.Some? && a.spec.value.Ok? && OfferingMatches(a.spec.value.value, off)
    ensures var first, second := Provider("first", at), Provider("second", at);
            var catalog := Catalog([first, second], q => if q == second then Ok([off]) else Ok([]));
            var offered := Offered(ProfilesAt(catalog, ProviderRef("first", at)));
            && (forall flavor :: CheapestMatch(flavor, c, offered) <==> flavor == off.name)
            && Offers(catalog, second, c, off.name) && !Offers(catalog, first, c, off.name)
  {
    var first, second := Provider("first", at), Provider("second", at);
    var catalog := Catalog([first, second], q => if q == second then Ok([off]) else Ok([]));
    var ref := ProviderRef("first", at);
    assert second in catalog.providers;
    NotOwn(catalog, ref, second, off);
    var offered := Offered(ProfilesAt(catalog, ref));
    forall x | x in offered ensures x == off {
      OfferedMembers(catalog, ref, x);
    }
    OneOffering(c, a, off, offered);
    assert AsksFor(a, off);
  }

  /** With one offering, all matches are that offering. */
  lemma OneOffering(c: Constraint, a: Alternative, off: Offering, offered: seq<Offering>)
    requires a in c.anyOf && a.spec.Some? && a.spec.value.Ok? && OfferingMatches(a.spec.value.value, off)
    requires off in offered && forall x | x in offered :: x == off
    ensures forall flavor :: CheapestMatch(flavor, c, offered) <==> flavor == off.name
  {
    assert AsksFor(a, off);
    assert MatchedBy(c, offered) == {off};
  }
}
