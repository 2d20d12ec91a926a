/**
 Which offerings a component may use: the provider profiles admitted by its permitted locations,
 and the compute profiles of all of them.
 */
module Candidates {
  import opened Wrappers
  import opened Selection

  datatype Location = Location(platform: string, region: string, regionAlias: string)

  datatype Provider = Provider(name: string, at: Location)

  /** An empty field of the filter admits everything. */
  predicate Admits(ref: Location, p: Provider)
  {
    && (ref.platform == "" || p.at.platform == ref.platform)
    && (ref.region == "" || p.at.region == ref.region)
    && (ref.regionAlias == "" || p.at.regionAlias == ref.regionAlias)
  }

  /** An empty filter permits every provider. */
  predicate Permitted(filter: seq<Location>, p: Provider)
  {
    filter == [] || exists ref :: ref in filter && Admits(ref, p)
  }

  /** One copy of `p` per location that admits it. */
  function Copies(p: Provider, filter: seq<Location>): seq<Provider>
  {
    if filter == [] then []
    else Copies(p, filter[..|filter| - 1]) + (if Admits(filter[|filter| - 1], p) then [p] else [])
  }

  function Admitted(providers: seq<Provider>, filter: seq<Location>): seq<Provider>
  {
    if providers == [] then []
    else Admitted(providers[..|providers| - 1], filter) + Copies(providers[|providers| - 1], filter)
  }

  function Chosen(providers: seq<Provider>, filter: seq<Location>): seq<Provider>
  {
    if filter == [] then providers else Admitted(providers, filter)
  }

  method GetCandidateProviders(providers: seq<Provider>, filter: seq<Location>) returns (r: seq<Provider>)
    ensures r == Chosen(providers, filter)
  {
    if |filter| == 0 {
      return providers;
    }
    r := [];
    for i := 0 to |providers|
      invariant r == Admitted(providers[..i], filter)
    {
      ghost var before := r;
      for j := 0 to |filter|
        invariant r == before + Copies(providers[i], filter[..j])
      {
        var matches := true;
        if filter[j].platform != "" && providers[i].at.platform != filter[j].platform {
          matches := false;
        }
        if filter[j].region != "" && providers[i].at.region != filter[j].region {
          matches := false;
        }
        if filter[j].regionAlias != "" && providers[i].at.regionAlias != filter[j].regionAlias {
          matches := false;
        }
        if matches {
          r := r + [providers[i]];
        }
        assert filter[..j + 1][..j] == filter[..j];
      }
      assert filter[..|filter|] == filter;
      assert providers[..i + 1][..i] == providers[..i];
    }
    assert providers[..|providers|] == providers;
  }

  lemma {:induction false} CopiesMembers(p: Provider, filter: seq<Location>)
    ensures forall x :: x in Copies(p, filter) <==> x == p && exists ref :: ref in filter && Admits(ref, p)
  {
    if filter != [] {
      var init, last := filter[..|filter| - 1], filter[|filter| - 1];
      CopiesMembers(p, init);
      assert filter == init + [last];
    }
  }

  lemma {:induction false} AdmittedMembers(providers: seq<Provider>, filter: seq<Location>)
    requires filter != []
    ensures forall x :: x in Admitted(providers, filter) <==> x in providers && Permitted(filter, x)
  {
    if providers != [] {
      var init, last := providers[..|providers| - 1], providers[|providers| - 1];
      AdmittedMembers(init, filter);
      CopiesMembers(last, filter);
      assert providers == init + [last];
    }
  }

  /** Exactly the permitted providers are candidates. */
  lemma ChosenMembers(providers: seq<Provider>, filter: seq<Location>)
    ensures forall x :: x in Chosen(providers, filter) <==> x in providers && Permitted(filter, x)
  {
    if filter != [] {
      AdmittedMembers(providers, filter);
    }
  }

  /** The compute profiles of a list of providers, the first error winning. */
  function ProfilesOf(ps: seq<Provider>, table: Provider -> Result<seq<Offering>>): Result<seq<Offering>>
  {
    if ps == [] then Ok([])
    else
      match ProfilesOf(ps[..|ps| - 1], table)
      case Ok(init) =>
        (match table(ps[|ps| - 1])
         case Ok(last) => Ok(init + last)
         case e => e)
      case e => e
  }

  method GetAllComputeProfiles(providers: seq<Provider>, filter: seq<Location>,
      table: Provider -> Result<seq<Offering>>)
    returns (r: Result<seq<Offering>>)
    ensures r == ProfilesOf(Chosen(providers, filter), table)
  {
    var candidates := GetCandidateProviders(providers, filter);
    var all := [];
    for i := 0 to |candidates|
      invariant ProfilesOf(candidates[..i], table) == Ok(all)
    {
      assert candidates[..i + 1][..i] == candidates[..i];
      var profiles := table(candidates[i]);
      if !profiles.Ok? {
        FirstErrorWins(candidates, i + 1, table);
        return profiles;
      }
      all := all + profiles.value;
    }
    assert candidates[..|candidates|] == candidates;
    return Ok(all);
  }

  lemma {:induction false} FirstErrorWins(ps: seq<Provider>, i: nat, table: Provider -> Result<seq<Offering>>)
    requires i <= |ps| && !ProfilesOf(ps[..i], table).Ok?
    ensures ProfilesOf(ps, table) == ProfilesOf(ps[..i], table)
    decreases |ps|
  {
    if i == |ps| {
      assert ps[..i] == ps;
    } else {
      var init := ps[..|ps| - 1];
      assert init[..i] == ps[..i];
      FirstErrorWins(init, i, table);
    }
  }

  lemma {:induction false} ProfilesMembers(ps: seq<Provider>, table: Provider -> Result<seq<Offering>>)
    ensures ProfilesOf(ps, table).Ok? <==> forall p | p in ps :: table(p).Ok?
    ensures ProfilesOf(ps, table).Ok? ==>
              forall x :: x in ProfilesOf(ps, table).value
                  <==> exists p :: p in ps && table(p).Ok? && x in table(p).value
  {
    if ps != [] {
      var init, last := ps[..|ps| - 1], ps[|ps| - 1];
      ProfilesMembers(init, table);
      assert ps == init + [last];
    }
  }

  /**
   Repeated or overlapping permitted locations only repeat offerings: filters that admit the same
   providers give the same set of offerings, and either both fail or neither does.
   */
  lemma OverlappingLocations(providers: seq<Provider>, f: seq<Location>, g: seq<Location>,
                             table: Provider -> Result<seq<Offering>>)
    requires forall p | p in providers :: Permitted(f, p) <==> Permitted(g, p)
    ensures var a, b := ProfilesOf(Chosen(providers, f), table), ProfilesOf(Chosen(providers, g), table);
      && (a.Ok? <==> b.Ok?)
      && (a.Ok? ==> forall x :: x in a.value <==> x in b.value)
  {
    ChosenMembers(providers, f);
    ChosenMembers(providers, g);
    var a, b := Chosen(providers, f), Chosen(providers, g);
    assert forall p :: p in a <==> p in b;
    ProfilesMembers(a, table);
    ProfilesMembers(b, table);
  }
}
