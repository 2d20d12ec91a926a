/**
 Who creates the Latency objects. Every provider profile is reconciled on its own: it lists the
 profiles there are, creates the objects of its pairs that are missing one by one, and records the
 generation it has seen. Edits, other reconciles, failures and crashes come in between.
 */
module LatencyCoverage {
  import opened Wrappers
  import opened ProviderMatrix

  // ----- One pair -----

  function DefaultZone(zones: seq<Zone>): Option<Zone>
  {
    if zones == [] then None
    else if zones[0].isDefault then Some(zones[0])
    else DefaultZone(zones[1..])
  }

  /** A latency can be made up for the endpoint types of the default zones. */
  predicate Usable(p: Profile)
  {
    var z := DefaultZone(p.zones);
    z.Some? && (z.value.kind == "cloud" || z.value.kind == "edge" || z.value.kind == "nte")
  }

  /** Zone `i` is the default one, the first that is marked so. */
  predicate IsDefault(zones: seq<Zone>, i: int)
  {
    0 <= i < |zones| && zones[i].isDefault && forall j | 0 <= j < i :: !zones[j].isDefault
  }

  /** Usable are the profiles whose default zone is of one of three types. */
  lemma UsableExact(p: Profile)
    ensures Usable(p) <==> exists i :: IsDefault(p.zones, i) && p.zones[i].kind in {"cloud", "edge", "nte"}
  {
    DefaultZoneExact(p.zones);
  }

  lemma {:induction false} DefaultZoneExact(zones: seq<Zone>)
    ensures DefaultZone(zones).Some? ==> exists i :: IsDefault(zones, i)
    ensures forall i | IsDefault(zones, i) :: DefaultZone(zones) == Some(zones[i])
  {
    if zones != [] {
      if zones[0].isDefault {
        assert IsDefault(zones, 0);
      } else {
        DefaultZoneExact(zones[1..]);
        forall i ensures IsDefault(zones, i) <==> IsDefault(zones[1..], i - 1) {
          DefaultLater(zones, i);
        }
        if i :| IsDefault(zones[1..], i) {
          assert IsDefault(zones, i + 1);
        }
      }
    }
  }

  lemma DefaultLater(zones: seq<Zone>, i: int)
    requires zones != [] && !zones[0].isDefault
    ensures IsDefault(zones, i) <==> IsDefault(zones[1..], i - 1)
  {
    if IsDefault(zones[1..], i - 1) {
      forall j | 0 <= j < i ensures !zones[j].isDefault {
        if j > 0 { assert zones[j] == zones[1..][j - 1]; }
      }
    }
  }

  // ----- The machine -----

  /** What a listing showed of a profile. */
  datatype Seen = Seen(name: string, spec: Profile, gen: nat)

  /** Where the reconcile of a profile is. `Listed` holds its copy of the profile and the listing. */
  datatype Pc =
    | Idle
    | Loaded(mine: Seen)
    | Listed(mine: Seen, list: seq<Seen>, next: nat, creating: bool)

  /** A stored profile: `spec` with the costs that it lists itself, and `costs`, those in its status. */
  datatype Row = Row(spec: Profile, gen: nat, observed: nat, costs: seq<EgressCost>, pc: Pc)

  /** `lats` holds the pair labels of the Latency objects; an object's name is "latency-" and its label. */
  datatype State = State(rows: map<string, Row>, lats: set<string>)

  datatype Event =
    | Create(name: string, spec: Profile)
    | Edit(name: string, spec: Profile)
    | Get(name: string)
    | List(name: string, list: seq<Seen>)
    | Lookup(name: string)
    | Post(name: string, reported: bool)
    | Finish(name: string)
    | Fail(name: string)

  function Init(): State
  {
    State(map[], {})
  }

  ghost predicate IsListing(s: State, list: seq<Seen>)
  {
    && (forall i | 0 <= i < |list| :: list[i].name in s.rows
          && list[i] == Seen(list[i].name, s.rows[list[i].name].spec, s.rows[list[i].name].gen))
    && (forall n | n in s.rows :: exists i :: 0 <= i < |list| && list[i].name == n)
  }

  function Set(s: State, n: string, r: Row): State
  {
    s.(rows := s.rows[n := r])
  }

  function At(s: State, n: string, pc: Pc): State
    requires n in s.rows
  {
    Set(s, n, s.rows[n].(pc := pc))
  }

  function Key(pc: Pc): string
    requires pc.Listed? && pc.next < |pc.list|
  {
    PairLabel(pc.mine.spec, pc.list[pc.next].spec)
  }

  function LookupNext(s: State, n: string): State
    requires n in s.rows
  {
    var pc := s.rows[n].pc;
    if !pc.Listed? || pc.creating || pc.next >= |pc.list| then s
    else if pc.list[pc.next].name == n || Key(pc) in s.lats || !Usable(pc.mine.spec) || !Usable(pc.list[pc.next].spec)
    then At(s, n, pc.(next := pc.next + 1))
    else At(s, n, pc.(creating := true))
  }

  /** An object that exists by now is an error, and so is a create whose answer is lost. */
  function PostNext(s: State, n: string, reported: bool): State
    requires n in s.rows
  {
    var pc := s.rows[n].pc;
    if !pc.Listed? || !pc.creating || pc.next >= |pc.list| then s
    else if Key(pc) in s.lats then At(s, n, Idle)
    else
      var s' := s.(lats := s.lats + {Key(pc)});
      if reported then At(s', n, pc.(next := pc.next + 1, creating := false)) else At(s', n, Idle)
  }

  function Costs(spec: Profile): seq<EgressCost>
  {
    EnsuredCosts(spec.platform, spec.costs)
  }

  /**
   The costs are filled in and the generation recorded. The status update carries the resource version,
   so it fails if the spec has changed meanwhile.
   */
  function FinishNext(s: State, n: string): State
    requires n in s.rows
  {
    var r := s.rows[n];
    if !r.pc.Listed? || r.pc.next < |r.pc.list| then s
    else if r.pc.mine.gen == r.gen then Set(s, n, r.(observed := r.gen, costs := Costs(r.pc.mine.spec), pc := Idle))
    else At(s, n, Idle)
  }

  ghost function Next(s: State, e: Event): State
  {
    if e.Create? then
      if e.name in s.rows then s else Set(s, e.name, Row(e.spec, 1, 0, [], Idle))
    else if e.name !in s.rows then s
    else
      var r := s.rows[e.name];
      match e
      case Edit(n, spec) => Set(s, n, r.(spec := spec, gen := r.gen + 1))
      case Get(n) => if r.pc.Idle? then At(s, n, Loaded(Seen(n, r.spec, r.gen))) else s
      case List(n, list) => if r.pc.Loaded? && IsListing(s, list) then At(s, n, Listed(r.pc.mine, list, 0, false))
          else s
      case Lookup(n) => LookupNext(s, n)
      case Post(n, reported) => PostNext(s, n, reported)
      case Finish(n) => FinishNext(s, n)
      case Fail(n) => At(s, n, Idle)
      case Create(n, spec) => s
  }

  ghost function Run(s: State, es: seq<Event>): State
  {
    if es == [] then s else Next(Run(s, es[..|es| - 1]), es[|es| - 1])
  }

  // ----- What every run keeps -----

  /** A copy is never ahead of the profile, and of the same generation it is the same. */
  predicate CopyOf(s: State, x: Seen)
  {
    x.name in s.rows && x.gen <= s.rows[x.name].gen && (x.gen == s.rows[x.name].gen ==> x.spec == s.rows[x.name].spec)
  }

  /** The pairs a reconcile has passed have their object. */
  predicate PassedCovered(pc: Pc, n: string, lats: set<string>)
  {
    pc.Listed? && Usable(pc.mine.spec) ==>
      forall k | 0 <= k < |pc.list| && k < pc.next && pc.list[k].name != n && Usable(pc.list[k].spec) ::
        PairLabel(pc.mine.spec, pc.list[k].spec) in lats
  }

  predicate RowInv(s: State, n: string)
    requires n in s.rows
  {
    var r := s.rows[n];
    && r.observed <= r.gen
    && (!r.pc.Idle? ==> CopyOf(s, r.pc.mine) && r.pc.mine.name == n)
    && (r.pc.Listed? ==> forall k | 0 <= k < |r.pc.list| :: CopyOf(s, r.pc.list[k]))
    && PassedCovered(r.pc, n, s.lats)
  }

  predicate Settled(r: Row)
  {
    r.observed == r.gen
  }

  /** Its reconcile has listed the profiles for the present spec. */
  predicate Fresh(r: Row)
  {
    r.pc.Listed? && r.pc.mine.gen == r.gen
  }

  predicate Shows(list: seq<Seen>, m: string, gen: nat)
  {
    exists k :: 0 <= k < |list| && list[k].name == m && list[k].gen == gen
  }

  /** `n` is on its way with a listing that shows `m` as it is now. */
  predicate WillCover(s: State, n: string, m: string)
    requires n in s.rows && m in s.rows
  {
    !Settled(s.rows[n]) && Fresh(s.rows[n]) && Shows(s.rows[n].pc.list, m, s.rows[m].gen)
  }

  predicate Covered(s: State, n: string, m: string)
    requires n in s.rows && m in s.rows
  {
    Usable(s.rows[n].spec) && Usable(s.rows[m].spec) ==> PairLabel(s.rows[n].spec, s.rows[m].spec) in s.lats
  }

  /** Of two profiles that have both listed, one has seen the other. */
  predicate PairInv(s: State, n: string, m: string)
    requires n in s.rows && m in s.rows
  {
    (Settled(s.rows[n]) || Fresh(s.rows[n])) && (Settled(s.rows[m]) || Fresh(s.rows[m])) ==>
      Covered(s, n, m) || WillCover(s, n, m) || WillCover(s, m, n)
  }

  ghost predicate Inv(s: State)
  {
    && (forall n | n in s.rows :: RowInv(s, n))
    && (forall n, m | n in s.rows && m in s.rows && n != m :: PairInv(s, n, m))
  }

  lemma CoveredSymmetric(s: State, n: string, m: string)
    requires n in s.rows && m in s.rows
    ensures Covered(s, n, m) <==> Covered(s, m, n)
  {
    PairLabelSymmetric(s.rows[n].spec, s.rows[m].spec);
  }

  /** Changing the pc of one row, and adding objects, touches nobody else. */
  lemma RowsKept(s: State, s': State, n: string)
    requires Inv(s) && n in s.rows && s'.rows.Keys == s.rows.Keys && s.lats <= s'.lats
    requires forall m | m in s.rows && m != n :: s'.rows[m] == s.rows[m]
    requires s'.rows[n].gen >= s.rows[n].gen && (s'.rows[n].gen == s.rows[n].gen ==> s'.rows[n].spec == s.rows[n].spec)
    requires RowInv(s', n)
    ensures forall m | m in s'.rows :: RowInv(s', m)
  {
    forall m | m in s'.rows && m != n ensures RowInv(s', m) {
      assert RowInv(s, m);
      assert forall x :: CopyOf(s, x) ==> CopyOf(s', x);
    }
  }

  /** An invariant pair stays one when neither row changes. */
  lemma OtherPairsKept(s: State, s': State, n: string)
    requires Inv(s) && n in s.rows && s'.rows.Keys == s.rows.Keys && s.lats <= s'.lats
    requires forall m | m in s.rows && m != n :: s'.rows[m] == s.rows[m]
    requires forall m | m in s'.rows && m != n :: PairInv(s', n, m)
    ensures forall m, k | m in s'.rows && k in s'.rows && m != k :: PairInv(s', m, k)
  {
    forall m, k | m in s'.rows && k in s'.rows && m != k ensures PairInv(s', m, k) {
      assert PairInv(s, m, k);
      CoveredSymmetric(s', m, k);
      if k == n {
        assert PairInv(s', n, m);
      }
    }
  }

  /** A row that neither is settled nor lists makes no promise. */
  lemma QuietPairs(s': State, n: string)
    requires n in s'.rows && !Settled(s'.rows[n]) && !Fresh(s'.rows[n])
    ensures forall m | m in s'.rows && m != n :: PairInv(s', n, m)
  {
  }

  lemma CreateKeeps(s: State, n: string, spec: Profile)
    requires Inv(s) && n !in s.rows
    ensures Inv(Set(s, n, Row(spec, 1, 0, [], Idle)))
  {
    var s' := Set(s, n, Row(spec, 1, 0, [], Idle));
    forall m | m in s'.rows ensures RowInv(s', m) {
      if m != n {
        assert RowInv(s, m);
        assert forall x :: CopyOf(s, x) ==> CopyOf(s', x);
      }
    }
    QuietPairs(s', n);
    forall m, k | m in s'.rows && k in s'.rows && m != k ensures PairInv(s', m, k) {
      if m != n && k != n {
        assert PairInv(s, m, k);
      }
    }
  }

  lemma EditKeeps(s: State, n: string, spec: Profile)
    requires Inv(s) && n in s.rows
    ensures Inv(Set(s, n, s.rows[n].(spec := spec, gen := s.rows[n].gen + 1)))
  {
    var s' := Set(s, n, s.rows[n].(spec := spec, gen := s.rows[n].gen + 1));
    assert RowInv(s, n);
    assert forall x :: CopyOf(s, x) ==> CopyOf(s', x);
    RowsKept(s, s', n);
    QuietPairs(s', n);
    OtherPairsKept(s, s', n);
  }

  /** A step of a reconcile back to idle, or to the loaded copy. */
  lemma AbandonKeeps(s: State, s': State, n: string, pc: Pc)
    requires Inv(s) && n in s.rows && s.lats <= s'.lats && s'.rows == At(s, n, pc).rows
    requires !pc.Listed? && (pc.Loaded? ==> pc.mine == Seen(n, s.rows[n].spec, s.rows[n].gen))
    ensures Inv(s')
  {
    assert RowInv(s, n);
    RowsKept(s, s', n);
    forall m | m in s'.rows && m != n ensures PairInv(s', n, m) {
      assert PairInv(s, n, m);
    }
    OtherPairsKept(s, s', n);
  }

  lemma ListKeeps(s: State, n: string, list: seq<Seen>)
    requires Inv(s) && n in s.rows && s.rows[n].pc.Loaded? && IsListing(s, list)
    ensures Inv(At(s, n, Listed(s.rows[n].pc.mine, list, 0, false)))
  {
    var s' := At(s, n, Listed(s.rows[n].pc.mine, list, 0, false));
    assert RowInv(s, n);
    assert forall k | 0 <= k < |list| :: CopyOf(s, list[k]);
    assert forall x :: CopyOf(s, x) ==> CopyOf(s', x);
    RowsKept(s, s', n);
    forall m | m in s'.rows && m != n ensures PairInv(s', n, m) {
      assert PairInv(s, n, m);
      var i :| 0 <= i < |list| && list[i].name == m;
      assert Shows(list, m, s.rows[m].gen);
    }
    OtherPairsKept(s, s', n);
  }

  /** Going on with the same listing. */
  lemma AdvanceKeeps(s: State, s': State, n: string, pc: Pc)
    requires Inv(s) && n in s.rows && s.lats <= s'.lats && s'.rows == At(s, n, pc).rows
    requires s.rows[n].pc.Listed? && pc.Listed? && pc.mine == s.rows[n].pc.mine && pc.list == s.rows[n].pc.list
    requires PassedCovered(pc, n, s'.lats)
    ensures Inv(s')
  {
    assert RowInv(s, n);
    assert forall x :: CopyOf(s, x) ==> CopyOf(s', x);
    RowsKept(s, s', n);
    forall m | m in s'.rows && m != n ensures PairInv(s', n, m) {
      assert PairInv(s, n, m);
    }
    OtherPairsKept(s, s', n);
  }

  lemma LookupKeeps(s: State, n: string)
    requires Inv(s) && n in s.rows
    ensures Inv(LookupNext(s, n))
  {
    var pc, s' := s.rows[n].pc, LookupNext(s, n);
    assert RowInv(s, n);
    if pc.Listed? && !pc.creating && pc.next < |pc.list| {
      var pc' := s'.rows[n].pc;
      LookupCovers(s, n);
      assert s' == At(s, n, pc');
      AdvanceKeeps(s, s', n, pc');
    }
  }

  /** A pair is passed over only if its object is there or cannot be made. */
  lemma LookupCovers(s: State, n: string)
    requires n in s.rows && PassedCovered(s.rows[n].pc, n, s.lats)
    requires s.rows[n].pc.Listed? && !s.rows[n].pc.creating && s.rows[n].pc.next < |s.rows[n].pc.list|
    ensures PassedCovered(LookupNext(s, n).rows[n].pc, n, s.lats)
  {
  }

  /** The pair of a created object is covered. */
  lemma PostCovers(pc: Pc, n: string, lats: set<string>)
    requires pc.Listed? && pc.next < |pc.list| && PassedCovered(pc, n, lats)
    ensures PassedCovered(pc.(next := pc.next + 1, creating := false), n, lats + {Key(pc)})
  {
  }

  lemma PostKeeps(s: State, n: string, reported: bool)
    requires Inv(s) && n in s.rows
    ensures Inv(PostNext(s, n, reported))
  {
    var pc, s' := s.rows[n].pc, PostNext(s, n, reported);
    assert RowInv(s, n);
    if pc.Listed? && pc.creating && pc.next < |pc.list| {
      if Key(pc) !in s.lats && reported {
        var pc' := pc.(next := pc.next + 1, creating := false);
        PostCovers(pc, n, s.lats);
        assert s'.rows == At(s, n, pc').rows && s'.lats == s.lats + {Key(pc)};
        AdvanceKeeps(s, s', n, pc');
      } else {
        AbandonKeeps(s, s', n, Idle);
      }
    }
  }

  /** A finished reconcile has covered every profile its listing still shows. */
  lemma FinishedCovers(s: State, n: string, m: string)
    requires Inv(s) && n in s.rows && m in s.rows && n != m
    requires Fresh(s.rows[n]) && s.rows[n].pc.next >= |s.rows[n].pc.list| && Shows(s.rows[n].pc.list, m, s.rows[m].gen)
    ensures Covered(s, n, m)
  {
    var pc := s.rows[n].pc;
    assert RowInv(s, n);
    var k :| 0 <= k < |pc.list| && pc.list[k].name == m && pc.list[k].gen == s.rows[m].gen;
    assert CopyOf(s, pc.list[k]);
  }

  lemma FinishKeeps(s: State, n: string)
    requires Inv(s) && n in s.rows
    ensures Inv(FinishNext(s, n))
  {
    var r, s' := s.rows[n], FinishNext(s, n);
    assert RowInv(s, n);
    if r.pc.Listed? && r.pc.next >= |r.pc.list| {
      if r.pc.mine.gen == r.gen {
        RowsKept(s, s', n);
        forall m | m in s'.rows && m != n ensures PairInv(s', n, m) {
          assert PairInv(s, n, m);
          if WillCover(s, n, m) {
            FinishedCovers(s, n, m);
          }
        }
        OtherPairsKept(s, s', n);
      } else {
        AbandonKeeps(s, s', n, Idle);
      }
    }
  }

  lemma GetKeeps(s: State, n: string)
    requires Inv(s) && n in s.rows
    ensures Inv(Next(s, Get(n)))
  {
    if s.rows[n].pc.Idle? {
      AbandonKeeps(s, Next(s, Get(n)), n, Loaded(Seen(n, s.rows[n].spec, s.rows[n].gen)));
    }
  }

  lemma ListStepKeeps(s: State, n: string, list: seq<Seen>)
    requires Inv(s) && n in s.rows
    ensures Inv(Next(s, List(n, list)))
  {
    if s.rows[n].pc.Loaded? && IsListing(s, list) {
      ListKeeps(s, n, list);
    }
  }

  lemma NextKeeps(s: State, e: Event)
    requires Inv(s)
    ensures Inv(Next(s, e))
  {
    if e.Create? {
      if e.name !in s.rows {
        CreateKeeps(s, e.name, e.spec);
      }
    } else if e.name in s.rows {
      match e
      case Edit(n, spec) => EditKeeps(s, n, spec);
      case Get(n) => GetKeeps(s, n);
      case List(n, list) => ListStepKeeps(s, n, list);
      case Lookup(n) => LookupKeeps(s, n);
      case Post(n, reported) => PostKeeps(s, n, reported);
      case Finish(n) => FinishKeeps(s, n);
      case Fail(n) => AbandonKeeps(s, At(s, n, Idle), n, Idle);
      case Create(n, spec) =>
    }
  }

  lemma {:induction false} RunKeeps(es: seq<Event>)
    ensures Inv(Run(Init(), es))
  {
    if es != [] {
      RunKeeps(es[..|es| - 1]);
      NextKeeps(Run(Init(), es[..|es| - 1]), es[|es| - 1]);
    }
  }

  /**
   Whichever ran first, and however edits, failures and other reconciles came in between: two
   profiles that have both observed their present spec have a Latency object under the key the
   optimizer looks up, if their default zones are of supported types.
   */
  lemma SettledPairsAreCovered(es: seq<Event>, n: string, m: string)
    requires n in Run(Init(), es).rows && m in Run(Init(), es).rows && n != m
    requires Settled(Run(Init(), es).rows[n]) && Settled(Run(Init(), es).rows[m])
    requires Usable(Run(Init(), es).rows[n].spec) && Usable(Run(Init(), es).rows[m].spec)
    ensures var s := Run(Init(), es);
      && PairLabel(s.rows[n].spec, s.rows[m].spec) in s.lats
      && PairLabel(s.rows[m].spec, s.rows[n].spec) in s.lats
  {
    var s := Run(Init(), es);
    RunKeeps(es);
    assert PairInv(s, n, m);
    CoveredSymmetric(s, n, m);
  }

  // ----- What the objects are of -----

  ghost predicate HadAt(es: seq<Event>, i: int, n: string, p: Profile)
  {
    0 <= i <= |es| && n in Run(Init(), es[..i]).rows && Run(Init(), es[..i]).rows[n].spec == p
  }

  /** At some time in the run the profile `n` had the spec `p`. */
  ghost predicate Had(es: seq<Event>, n: string, p: Profile)
  {
    exists i :: HadAt(es, i, n, p)
  }

  lemma HasNow(es: seq<Event>, n: string)
    requires n in Run(Init(), es).rows
    ensures Had(es, n, Run(Init(), es).rows[n].spec)
  {
    assert es[..|es|] == es;
    assert HadAt(es, |es|, n, Run(Init(), es).rows[n].spec);
  }

  lemma HadStays(es: seq<Event>, e: Event, n: string, p: Profile)
    requires Had(es, n, p)
    ensures Had(es + [e], n, p)
  {
    var i :| HadAt(es, i, n, p);
    assert (es + [e])[..i] == es[..i];
    assert HadAt(es + [e], i, n, p);
  }

  /** The copies a reconcile works with are specs that profiles have had. */
  ghost predicate CopiesHad(es: seq<Event>, n: string, pc: Pc)
  {
    && (!pc.Idle? ==> pc.mine.name == n && Had(es, n, pc.mine.spec))
    && (pc.Listed? ==> forall k | 0 <= k < |pc.list| :: Had(es, pc.list[k].name, pc.list[k].spec))
  }

  lemma CopiesStay(es: seq<Event>, e: Event, n: string, pc: Pc)
    requires CopiesHad(es, n, pc)
    ensures CopiesHad(es + [e], n, pc)
  {
    if !pc.Idle? {
      HadStays(es, e, n, pc.mine.spec);
    }
    if pc.Listed? {
      forall k | 0 <= k < |pc.list| ensures Had(es + [e], pc.list[k].name, pc.list[k].spec) {
        HadStays(es, e, pc.list[k].name, pc.list[k].spec);
      }
    }
  }

  predicate SameCopies(pc: Pc, pc': Pc)
  {
    !pc.Idle? && !pc'.Idle? && pc'.mine == pc.mine && (pc'.Listed? ==> pc.Listed? && pc'.list == pc.list)
  }

  /** Where a step can take a reconcile. */
  ghost predicate Takes(s: State, e: Event, n: string, pc': Pc)
    requires n in s.rows
  {
    || pc'.Idle?
    || SameCopies(s.rows[n].pc, pc')
    || pc' == Loaded(Seen(n, s.rows[n].spec, s.rows[n].gen))
    || (e.List? && IsListing(s, e.list) && s.rows[n].pc.Loaded? && pc' == Listed(s.rows[n].pc.mine, e.list, 0, false))
  }

  lemma StepTakes(s: State, e: Event, n: string)
    requires n in Next(s, e).rows
    ensures if n in s.rows then Takes(s, e, n, Next(s, e).rows[n].pc) else Next(s, e).rows[n].pc.Idle?
  {
  }

  /** The copies after a step are those before it, or those of the present profiles. */
  lemma StepCopies(es: seq<Event>, e: Event, n: string, pc': Pc)
    requires var s := Run(Init(), es); n in s.rows && Takes(s, e, n, pc') && CopiesHad(es, n, s.rows[n].pc)
    ensures CopiesHad(es, n, pc')
  {
    var s := Run(Init(), es);
    HasNow(es, n);
    if e.List? && IsListing(s, e.list) {
      forall k | 0 <= k < |e.list| ensures Had(es, e.list[k].name, e.list[k].spec) {
        HasNow(es, e.list[k].name);
      }
    }
  }

  lemma {:induction false} RunCopies(es: seq<Event>)
    ensures forall n | n in Run(Init(), es).rows :: CopiesHad(es, n, Run(Init(), es).rows[n].pc)
  {
    if es != [] {
      var init, e := es[..|es| - 1], es[|es| - 1];
      assert es == init + [e];
      RunCopies(init);
      forall n | n in Run(Init(), es).rows ensures CopiesHad(es, n, Run(Init(), es).rows[n].pc) {
        StepTakes(Run(Init(), init), e, n);
        if n in Run(Init(), init).rows {
          StepCopies(init, e, n, Run(Init(), es).rows[n].pc);
        }
        CopiesStay(init, e, n, Run(Init(), es).rows[n].pc);
      }
    }
  }

  /** A create is only ever pending for another profile, and for usable default zones. */
  predicate Ready(n: string, pc: Pc)
  {
    pc.Listed? && pc.creating ==>
      pc.next < |pc.list| && pc.list[pc.next].name != n && Usable(pc.mine.spec) && Usable(pc.list[pc.next].spec)
  }

  lemma {:induction false} RunReady(es: seq<Event>)
    ensures forall n | n in Run(Init(), es).rows :: Ready(n, Run(Init(), es).rows[n].pc)
  {
    if es != [] {
      RunReady(es[..|es| - 1]);
    }
  }

  /** `key` is the label of specs with usable default zones that two profiles have had. */
  ghost predicate OfPair(es: seq<Event>, key: string, n: string, m: string, p: Profile, q: Profile)
  {
    n != m && Had(es, n, p) && Had(es, m, q) && Usable(p) && Usable(q) && key == PairLabel(p, q)
  }

  /**
   Every object is of two profiles of the run, with specs that they have had; none is made twice, a label
   being one object.
   */
  lemma {:induction false} ObjectsAreOfPairs(es: seq<Event>, key: string)
      returns (n: string, m: string, p: Profile, q: Profile)
    requires key in Run(Init(), es).lats
    ensures OfPair(es, key, n, m, p, q)
  {
    var init, e := es[..|es| - 1], es[|es| - 1];
    var s := Run(Init(), init);
    assert es == init + [e];
    if key in s.lats {
      n, m, p, q := ObjectsAreOfPairs(init, key);
    } else {
      RunReady(init);
      RunCopies(init);
      assert e.Post?;
      n := e.name;
      var pc := s.rows[n].pc;
      m, p, q := pc.list[pc.next].name, pc.mine.spec, pc.list[pc.next].spec;
    }
    HadStays(init, e, n, p);
    HadStays(init, e, m, q);
  }

  /** If the sites can be told apart, an object is of one pair of sites, whoever made it. */
  lemma ObjectIsOfOnePair(es: seq<Event>, key: string, n: string, m: string, p: Profile, q: Profile,
      n': string, m': string, p': Profile, q': Profile)
    requires OfPair(es, key, n, m, p, q) && OfPair(es, key, n', m', p', q') && PairsApart(p, q, p', q')
    ensures SameSites(p, q, p', q')
  {
    PairLabelExact(p, q, p', q');
  }

  /**
   Four settled profiles: each of the two pairs has its object, and it is one object exactly if the pairs
   are of the same two sites.
   */
  lemma PairsHaveTheirObjects(es: seq<Event>, n: string, m: string, n': string, m': string)
      returns (key: string, key': string)
    requires var rows := Run(Init(), es).rows;
             && {n, m, n', m'} <= rows.Keys && n != m && n' != m'
             && (forall x | x in {n, m, n', m'} :: Settled(rows[x]) && Usable(rows[x].spec))
             && PairsApart(rows[n].spec, rows[m].spec, rows[n'].spec, rows[m'].spec)
    ensures var s := Run(Init(), es);
            && key in s.lats && OfPair(es, key, n, m, s.rows[n].spec, s.rows[m].spec)
            && key' in s.lats && OfPair(es, key', n', m', s.rows[n'].spec, s.rows[m'].spec)
            && (key == key' <==> SameSites(s.rows[n].spec, s.rows[m].spec, s.rows[n'].spec, s.rows[m'].spec))
  {
    var rows := Run(Init(), es).rows;
    assert n in {n, m, n', m'} && m in {n, m, n', m'} && n' in {n, m, n', m'} && m' in {n, m, n', m'};
    SettledPairsAreCovered(es, n, m);
    SettledPairsAreCovered(es, n', m');
    HasNow(es, n);
    HasNow(es, m);
    HasNow(es, n');
    HasNow(es, m');
    key, key' := PairLabel(rows[n].spec, rows[m].spec), PairLabel(rows[n'].spec, rows[m'].spec);
    PairLabelExact(rows[n].spec, rows[m].spec, rows[n'].spec, rows[m'].spec);
  }

  // ----- Costs -----

  /** A settled profile has the costs of its present spec. */
  ghost predicate CostsOk(s: State)
  {
    forall n | n in s.rows && Settled(s.rows[n]) :: s.rows[n].costs == Costs(s.rows[n].spec)
  }

  lemma FinishKeepsCosts(s: State, n: string)
    requires Inv(s) && CostsOk(s) && n in s.rows
    ensures CostsOk(FinishNext(s, n))
  {
    assert RowInv(s, n);
  }

  /** Every other event keeps what a profile is, or unsettles it. */
  lemma OtherRow(s: State, e: Event, n: string)
    requires n in s.rows && !e.Finish? && s.rows[n].observed <= s.rows[n].gen
    ensures n in Next(s, e).rows
    ensures var r, r' := s.rows[n], Next(s, e).rows[n];
        Settled(r') ==> Settled(r) && r'.spec == r.spec && r'.costs == r.costs
  {
  }

  lemma NewRow(s: State, e: Event, n: string)
    requires n !in s.rows && n in Next(s, e).rows
    ensures !Settled(Next(s, e).rows[n])
  {
  }

  lemma StepKeepsCosts(s: State, e: Event)
    requires Inv(s) && CostsOk(s)
    ensures CostsOk(Next(s, e))
  {
    if e.Finish? {
      if e.name in s.rows { FinishKeepsCosts(s, e.name); }
    } else {
      forall n | n in Next(s, e).rows && Settled(Next(s, e).rows[n])
        ensures Next(s, e).rows[n].costs == Costs(Next(s, e).rows[n].spec)
      {
        if n in s.rows {
          assert RowInv(s, n);
          OtherRow(s, e, n);
        } else {
          NewRow(s, e, n);
        }
      }
    }
  }

  lemma {:induction false} RunKeepsCosts(es: seq<Event>)
    ensures CostsOk(Run(Init(), es))
  {
    if es != [] {
      RunKeeps(es[..|es| - 1]);
      RunKeepsCosts(es[..|es| - 1]);
      StepKeepsCosts(Run(Init(), es[..|es| - 1]), es[|es| - 1]);
    }
  }

  // ----- Progress -----

  lemma {:induction false} RunAppend(s: State, a: seq<Event>, b: seq<Event>)
    ensures Run(s, a + b) == Run(Run(s, a), b)
    decreases b
  {
    if b == [] {
      assert a + b == a;
    } else {
      RunAppend(s, a, b[..|b| - 1]);
      assert (a + b)[..|a + b| - 1] == a + b[..|b| - 1];
    }
  }

  lemma RunOne(s: State, e: Event)
    ensures Run(s, [e]) == Next(s, e)
  {
    assert [e][..0] == [] && Run(s, []) == s;
  }

  /** The undisturbed rest of a reconcile that has listed the profiles. */
  ghost function RestOf(s: State, n: string): seq<Event>
    requires n in s.rows && s.rows[n].pc.Listed? && !s.rows[n].pc.creating
    decreases |s.rows[n].pc.list| - s.rows[n].pc.next
  {
    var pc := s.rows[n].pc;
    if pc.next >= |pc.list| then [Finish(n)]
    else
      var s1 := LookupNext(s, n);
      if !s1.rows[n].pc.creating then [Lookup(n)] + RestOf(s1, n)
      else [Lookup(n), Post(n, true)] + RestOf(PostNext(s1, n, true), n)
  }

  ghost predicate SettledBy(s: State, s': State, n: string)
    requires n in s.rows
  {
    && s'.rows == s.rows[n := s.rows[n].(observed := s.rows[n].gen, costs := Costs(s.rows[n].spec), pc := Idle)]
    && s.lats <= s'.lats
  }

  /** Two steps on, row `n` has the same spec and generation and the rest is untouched. */
  lemma SettledAfter(s: State, s1: State, s': State, n: string, pc: Pc)
    requires n in s.rows && s1.rows == s.rows[n := s.rows[n].(pc := pc)] && s.lats <= s1.lats && SettledBy(s1, s', n)
    ensures SettledBy(s, s', n)
  {
  }

  lemma {:induction false} RestSettles(s: State, n: string)
    requires n in s.rows && s.rows[n].pc.Listed? && !s.rows[n].pc.creating && Fresh(s.rows[n])
    requires s.rows[n].pc.mine.name == n && s.rows[n].pc.mine.spec == s.rows[n].spec
    ensures SettledBy(s, Run(s, RestOf(s, n)), n)
    ensures !Usable(s.rows[n].pc.mine.spec) ==> Run(s, RestOf(s, n)).lats == s.lats
    decreases |s.rows[n].pc.list| - s.rows[n].pc.next
  {
    if s.rows[n].pc.next >= |s.rows[n].pc.list| {
      RunOne(s, Finish(n));
    } else {
      var s' := OnePair(s, n);
      RestIsRest(s, n, s');
      RestSettles(s', n);
      SettledAfter(s, s', Run(s', RestOf(s', n)), n, s'.rows[n].pc);
    }
  }

  /**
   A reconcile that runs undisturbed settles its profile. If the profile has no default zone of a
   supported type it settles all the same, without any object: the coverage above cannot do without
   that condition.
   */
  lemma UndisturbedReconcileSettles(s: State, n: string, list: seq<Seen>) returns (es: seq<Event>)
    requires n in s.rows && s.rows[n].pc.Idle? && IsListing(s, list)
    ensures SettledBy(s, Run(s, es), n)
    ensures !Usable(s.rows[n].spec) ==> Run(s, es).lats == s.lats
  {
    var mine := Seen(n, s.rows[n].spec, s.rows[n].gen);
    var s1, s2 := At(s, n, Loaded(mine)), At(s, n, Listed(mine, list, 0, false));
    assert Next(s, Get(n)) == s1;
    assert IsListing(s1, list);
    assert Next(s1, List(n, list)) == s2;
    RunOne(s, Get(n));
    RunOne(s1, List(n, list));
    RunAppend(s, [Get(n)], [List(n, list)]);
    RunAppend(s, [Get(n)] + [List(n, list)], RestOf(s2, n));
    es := [Get(n)] + [List(n, list)] + RestOf(s2, n);
    RestSettles(s2, n);
    SettledAfter(s, s2, Run(s2, RestOf(s2, n)), n, s2.rows[n].pc);
  }

  // ----- The loop of one reconcile -----

  /** `key` is the label of the pair, and an object can be made for it. */
  predicate Wanted(mine: Seen, other: Seen, key: string)
  {
    other.name != mine.name && Usable(mine.spec) && Usable(other.spec) && key == PairLabel(mine.spec, other.spec)
  }

  function CoverOne(lats: set<string>, mine: Seen, other: Seen): set<string>
  {
    var key := PairLabel(mine.spec, other.spec);
    if Wanted(mine, other, key) then lats + {key} else lats
  }

  /** The objects there are once `list` has been gone through for the profile `mine`. */
  function CoverAll(lats: set<string>, mine: Seen, list: seq<Seen>): set<string>
    decreases list
  {
    if list == [] then lats else CoverAll(CoverOne(lats, mine, list[0]), mine, list[1..])
  }

  class Namespace {
    /** The pair labels of the Latency objects. */
    var lats: set<string>

    /** `ensureLatencies`: any call may fail, and then the rest of the list is left to a later reconcile. */
    method EnsureLatencies(mine: Seen, list: seq<Seen>) returns (err: bool)
      modifies this
      ensures !err ==> lats == CoverAll(old(lats), mine, list)
      ensures exists k :: 0 <= k <= |list| && lats == CoverAll(old(lats), mine, list[..k])
    {
      assert list[..0] == [];
      for i := 0 to |list|
        invariant lats == CoverAll(old(lats), mine, list[..i])
      {
        CoverOneMore(old(lats), mine, list[..i], list[i]);
        assert list[..i + 1] == list[..i] + [list[i]];
        if list[i].name == mine.name {
          continue;
        }
        var pair := PairLabel(mine.spec, list[i].spec);
        var getFails: bool := *;
        if getFails {
          return true;
        }
        if pair !in lats {
          if !Usable(mine.spec) || !Usable(list[i].spec) {
            continue;
          }
          var rejected, lost: bool := *, *;
          if rejected {
            return true;
          }
          lats := lats + {pair};
          if lost {
            return true;
          }
        } else if Usable(mine.spec) && Usable(list[i].spec) {
          assert lats == lats + {pair};
        }
      }
      assert list[..|list|] == list;
      err := false;
    }
  }

  lemma {:induction false} CoverOneMore(lats: set<string>, mine: Seen, list: seq<Seen>, other: Seen)
    ensures CoverAll(lats, mine, list + [other]) == CoverOne(CoverAll(lats, mine, list), mine, other)
    decreases list
  {
    if list == [] {
      assert [] + [other] == [other] && [other][1..] == [];
    } else {
      CoverOneMore(CoverOne(lats, mine, list[0]), mine, list[1..], other);
      assert (list + [other])[1..] == list[1..] + [other] && (list + [other])[0] == list[0];
    }
  }

  /** Every pair of the list for which an object can be made has one, and nothing else is added. */
  lemma {:induction false} CoverAllMembers(lats: set<string>, mine: Seen, list: seq<Seen>, key: string)
    ensures key in CoverAll(lats, mine, list) <==>
              key in lats || exists other :: other in list && Wanted(mine, other, key)
    decreases list
  {
    if list != [] {
      CoverAllMembers(CoverOne(lats, mine, list[0]), mine, list[1..], key);
      assert list == [list[0]] + list[1..];
    }
  }

  /** Going through the list makes one object for every site of it that can be told apart, and two for two. */
  lemma SitesGetTheirObjects(lats: set<string>, mine: Seen, list: seq<Seen>, x: Seen, y: Seen)
    requires x in list && y in list && x.name != mine.name && y.name != mine.name
    requires Usable(mine.spec) && Usable(x.spec) && Usable(y.spec)
    requires PairsApart(mine.spec, x.spec, mine.spec, y.spec)
    ensures exists a, b :: a in CoverAll(lats, mine, list) && b in CoverAll(lats, mine, list)
              && Wanted(mine, x, a) && Wanted(mine, y, b)
              && (a == b <==> x.spec.platform == y.spec.platform && x.spec.region == y.spec.region)
  {
    var a, b := PairLabel(mine.spec, x.spec), PairLabel(mine.spec, y.spec);
    CoverAllMembers(lats, mine, list, a);
    CoverAllMembers(lats, mine, list, b);
    PairLabelExact(mine.spec, x.spec, mine.spec, y.spec);
    assert Wanted(mine, x, a) && Wanted(mine, y, b);
  }

  /** One pair in the machine, with one call or two, is one pair of the loop. */
  lemma OnePair(s: State, n: string) returns (s': State)
    requires n in s.rows && s.rows[n].pc.Listed? && !s.rows[n].pc.creating && s.rows[n].pc.next < |s.rows[n].pc.list|
    requires s.rows[n].pc.mine.name == n
    ensures var pc, s1 := s.rows[n].pc, LookupNext(s, n);
      && s' == (if s1.rows[n].pc.creating then PostNext(s1, n, true) else s1)
      && s'.rows == s.rows[n := s.rows[n].(pc := pc.(next := pc.next + 1))]
      && s'.lats == CoverOne(s.lats, pc.mine, pc.list[pc.next])
  {
    var s1 := LookupNext(s, n);
    s' := if s1.rows[n].pc.creating then PostNext(s1, n, true) else s1;
  }

  lemma RestAfterPost(s: State, n: string, s1: State, s': State)
    requires n in s.rows && s.rows[n].pc.Listed? && !s.rows[n].pc.creating && s.rows[n].pc.next < |s.rows[n].pc.list|
    requires s1 == LookupNext(s, n) && s1.rows[n].pc.creating && s' == PostNext(s1, n, true)
    requires n in s'.rows && s'.rows[n].pc.Listed? && !s'.rows[n].pc.creating
    ensures Run(s, RestOf(s, n)) == Run(s', RestOf(s', n))
  {
    var two, rest := [Lookup(n), Post(n, true)], RestOf(s', n);
    assert RestOf(s, n) == two + rest;
    RunOne(s, Lookup(n));
    RunOne(s1, Post(n, true));
    assert two == [Lookup(n)] + [Post(n, true)];
    RunAppend(s, [Lookup(n)], [Post(n, true)]);
    RunAppend(s, two, rest);
  }

  lemma RestAfterLookup(s: State, n: string, s1: State)
    requires n in s.rows && s.rows[n].pc.Listed? && !s.rows[n].pc.creating && s.rows[n].pc.next < |s.rows[n].pc.list|
    requires s1 == LookupNext(s, n) && !s1.rows[n].pc.creating
    ensures Run(s, RestOf(s, n)) == Run(s1, RestOf(s1, n))
  {
    RunOne(s, Lookup(n));
    RunAppend(s, [Lookup(n)], RestOf(s1, n));
  }

  lemma RestIsRest(s: State, n: string, s': State)
    requires n in s.rows && s.rows[n].pc.Listed? && !s.rows[n].pc.creating && s.rows[n].pc.next < |s.rows[n].pc.list|
    requires var s1 := LookupNext(s, n); s' == if s1.rows[n].pc.creating then PostNext(s1, n, true) else s1
    requires n in s'.rows && s'.rows[n].pc.Listed? && !s'.rows[n].pc.creating
    ensures Run(s, RestOf(s, n)) == Run(s', RestOf(s', n))
  {
    var s1 := LookupNext(s, n);
    if s1.rows[n].pc.creating {
      RestAfterPost(s, n, s1, s');
    } else {
      RestAfterLookup(s, n, s1);
    }
  }

  /** The undisturbed rest of a reconcile in the machine does what the loop does with the rest of the list. */
  lemma {:induction false} RestCovers(s: State, n: string)
    requires n in s.rows && s.rows[n].pc.Listed? && !s.rows[n].pc.creating && s.rows[n].pc.next <= |s.rows[n].pc.list|
    requires s.rows[n].pc.mine.name == n
    ensures var pc := s.rows[n].pc; Run(s, RestOf(s, n)).lats == CoverAll(s.lats, pc.mine, pc.list[pc.next..])
    decreases |s.rows[n].pc.list| - s.rows[n].pc.next
  {
    var pc := s.rows[n].pc;
    if pc.next == |pc.list| {
      RunOne(s, Finish(n));
    } else {
      var tail := pc.list[pc.next..];
      assert tail[0] == pc.list[pc.next] && tail[1..] == pc.list[pc.next + 1..];
      var s' := OnePair(s, n);
      RestIsRest(s, n, s');
      RestCovers(s', n);
    }
  }

  // ----- The optimizer's table -----

  /** The Latency objects as the optimizer reads them, all of them measured. */
  predicate Reads(lats: set<string>, objects: seq<Latency>)
  {
    && (forall key | key in lats :: exists i :: 0 <= i < |objects| && objects[i].pair == key)
    && (forall i | 0 <= i < |objects| :: Measured(objects[i]).Number?)
  }

  lemma {:induction false} FindsMeasured(objects: seq<Latency>, key: string)
    requires exists i :: 0 <= i < |objects| && objects[i].pair == key
    requires forall i | 0 <= i < |objects| :: Measured(objects[i]).Number?
    ensures FindLatency(objects, key).Some? && Measured(FindLatency(objects, key).value).Number?
  {
    if objects[0].pair != key {
      FindsMeasured(objects[1..], key);
    }
  }

  lemma {:induction false} EndsOfProfiles(ps: seq<Profile>)
    ensures forall u | u in Ends(ps) :: u.profile in ps
  {
    if ps != [] {
      EndsOfProfiles(ps[1..]);
      EnabledOfProfile(ps[0], ps[0].zones);
      assert ps == [ps[0]] + ps[1..];
    }
  }

  lemma {:induction false} EnabledOfProfile(p: Profile, zones: seq<Zone>)
    ensures forall u | u in Enabled(p, zones) :: u.profile == p
  {
    if zones != [] {
      EnabledOfProfile(p, zones[1..]);
    }
  }

  /** A profile as the optimizer reads it: with the costs of its status. */
  function Published(r: Row): Profile
  {
    r.spec.(costs := r.costs)
  }

  /** The costs that a profile gets price every link: it lists none and is of a public cloud, or lists them all. */
  predicate CostsCover(spec: Profile)
  {
    if spec.costs == [] then PublicCloud(spec.platform) else FullyPriced(spec)
  }

  lemma SettledIsPriced(s: State, n: string)
    requires n in s.rows && CostsOk(s) && Settled(s.rows[n]) && CostsCover(s.rows[n].spec)
    ensures FullyPriced(Published(s.rows[n]))
  {
    if s.rows[n].spec.costs == [] {
      DefaultsPrice(Published(s.rows[n]));
    } else {
      assert Published(s.rows[n]) == s.rows[n].spec;
    }
  }

  /**
   From one end to the other: once all profiles have settled, each with a default zone of a supported
   type and costs that are complete or left to the defaults of the public clouds, and the Latency objects
   carry measurements, the optimizer's table is made.
   */
  lemma SettledProfilesMakeATable(es: seq<Event>, ps: seq<Profile>, objects: seq<Latency>)
    requires forall p | p in ps :: exists n :: n in Run(Init(), es).rows && Published(Run(Init(), es).rows[n]) == p
    requires forall n | n in Run(Init(), es).rows ::
               var r := Run(Init(), es).rows[n]; Settled(r) && Usable(r.spec) && CostsCover(r.spec)
    requires Reads(Run(Init(), es).lats, objects)
    ensures Extend(Ok([]), PairsInOrder(ps, ps), EntryOf(objects)).Ok?
  {
    var s := Run(Init(), es);
    EndsOfProfiles(ps);
    RunKeepsCosts(es);
    forall u | u in Ends(ps) ensures FullyPriced(u.profile) {
      var n :| n in s.rows && Published(s.rows[n]) == u.profile;
      SettledIsPriced(s, n);
    }
    forall x: Pair | x.0 in Ends(ps) && x.1 in Ends(ps) && !SameSite(x.0.profile, x.1.profile)
      ensures Measurable(x.0.profile, x.1.profile, objects)
    {
      var n :| n in s.rows && Published(s.rows[n]) == x.0.profile;
      var m :| m in s.rows && Published(s.rows[m]) == x.1.profile;
      SettledPairsAreCovered(es, n, m);
      FindsMeasured(objects, PairLabel(x.0.profile, x.1.profile));
    }
    PricesSuffice(ps, objects);
  }
}
