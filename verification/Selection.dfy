/**
 Choosing flavors: the ten cheapest matching offerings of a constraint, kept while its alternatives
 are read one after the other, and the flavor that a virtual machine finally gets.
 */
module Selection {
  import opened Wrappers
  import opened Ordering
  import opened Text

  // ----- Offerings -----

  /** A compute profile of a provider, with its GPU fields parsed where they can be. */
  datatype Offering = Offering(name: string, cpu: real, ram: real, gpuEnabled: bool, gpuModel: string,
                               gpuCount: Option<int>, gpuMem: Option<real>, price: real)

  /** A requested flavor; `None` stands for "any". */
  datatype Pattern = Pattern(cpu: Option<real>, ram: Option<real>, gpuCount: nat, gpuModel: string,
      gpuMem: Option<real>)

  predicate OfferingMatches(p: Pattern, off: Offering)
  {
    && (p.cpu.Some? && p.cpu.value > 0.0 ==> p.cpu.value <= off.cpu <= p.cpu.value * 1.05)
    && (p.ram.Some? && p.ram.value > 0.0 ==> p.ram.value <= off.ram <= p.ram.value * 1.25)
    && (p.gpuModel != "" ==> off.gpuModel != "" && EqualFold(off.gpuModel, p.gpuModel))
    && (p.gpuModel == "" && p.gpuCount == 0 && (p.gpuMem.None? || p.gpuMem.value == 0.0) ==> !off.gpuEnabled)
    && (p.gpuCount > 0 ==> off.gpuEnabled && (off.gpuCount.Some? ==> p.gpuCount <= off.gpuCount.value))
    && (p.gpuMem.Some? && p.gpuMem.value > 0.0
        ==> off.gpuEnabled && (off.gpuMem.Some? ==> p.gpuMem.value <= off.gpuMem.value))
    && (p.gpuModel != "" || p.gpuCount > 0 ==> off.gpuEnabled)
  }

  /** Why an offering does not do for a request. */
  datatype Refusal =
    FewCpus | ManyCpus | LittleRam | MuchRam | UnwantedGpu | NoGpu | OtherModel | FewGpus | LittleGpuRam

  predicate WantsGpu(p: Pattern)
  {
    p.gpuModel != "" || p.gpuCount > 0 || (p.gpuMem.Some? && p.gpuMem.value > 0.0)
  }

  predicate Refused(p: Pattern, off: Offering, why: Refusal)
  {
    match why
    case FewCpus => p.cpu.Some? && off.cpu < p.cpu.value && 0.0 < p.cpu.value
    case ManyCpus => p.cpu.Some? && off.cpu > p.cpu.value + p.cpu.value / 20.0 && 0.0 < p.cpu.value
    case LittleRam => p.ram.Some? && off.ram < p.ram.value && 0.0 < p.ram.value
    case MuchRam => p.ram.Some? && off.ram > p.ram.value + p.ram.value / 4.0 && 0.0 < p.ram.value
    case UnwantedGpu => !WantsGpu(p) && off.gpuEnabled
    case NoGpu => WantsGpu(p) && !off.gpuEnabled
    case OtherModel => p.gpuModel != "" && Lower(off.gpuModel) != Lower(p.gpuModel)
    case FewGpus => p.gpuCount > 0 && off.gpuCount.Some? && off.gpuCount.value < p.gpuCount
    case LittleGpuRam => p.gpuMem.Some? && 0.0 < p.gpuMem.value && off.gpuMem.Some? && off.gpuMem.value < p.gpuMem.value
  }

  /**
   An offering matches unless it has fewer CPUs than asked for or over a twentieth more, less memory or
   over a quarter more, a GPU that was not asked for, none when one was, another model, or a count or
   memory of its GPUs that is known to be too small.
   */
  lemma MatchesUnlessRefused(p: Pattern, off: Offering)
    requires p.gpuMem.Some? ==> p.gpuMem.value >= 0.0
    ensures OfferingMatches(p, off) <==> forall why :: !Refused(p, off, why)
  {
    if OfferingMatches(p, off) {
      forall why ensures !Refused(p, off, why) {
      }
    } else {
      SomeReason(p, off);
    }
  }

  lemma SomeReason(p: Pattern, off: Offering)
    requires (p.gpuMem.Some? ==> p.gpuMem.value >= 0.0) && !OfferingMatches(p, off)
    ensures exists why :: Refused(p, off, why)
  {
    if off.gpuModel == "" && p.gpuModel != "" {
      assert Lower(off.gpuModel) == [] && |Lower(p.gpuModel)| > 0;
    }
    assert || Refused(p, off, FewCpus) || Refused(p, off, ManyCpus) || Refused(p, off, LittleRam)
           || Refused(p, off, MuchRam) || Refused(p, off, UnwantedGpu) || Refused(p, off, NoGpu)
           || Refused(p, off, OtherModel) || Refused(p, off, FewGpus) || Refused(p, off, LittleGpuRam);
  }

  /** A virtual service selector for a compute profile. */
  datatype Selector = Selector(name: string, price: real, count: string)

  function Names(s: seq<Selector>): set<string>
  {
    set x | x in s :: x.name
  }

  lemma NamesAppend(s: seq<Selector>, t: seq<Selector>)
    ensures Names(s + t) == Names(s) + Names(t)
  {
  }

  ghost predicate DistinctNames(s: seq<Selector>)
  {
    forall i, j | 0 <= i < j < |s| :: s[i].name != s[j].name
  }

  ghost predicate ByPrice(s: seq<Selector>)
  {
    forall i, j | 0 <= i < j < |s| :: s[i].price <= s[j].price
  }

  /** Equal names mean equal prices. */
  ghost predicate PriceOfName(s: seq<Selector>)
  {
    forall x, y | x in s && y in s && x.name == y.name :: x.price == y.price
  }

  function Min(a: nat, b: nat): nat
  {
    if a < b then a else b
  }

  /**
   `kept` is a batch selection of the `n` cheapest names of `ms`: distinct names, in price order,
   as many as there are up to `n`, and, if price is a function of name, nothing cheaper left out.
   */
  ghost predicate Cheapest(ms: seq<Selector>, kept: seq<Selector>, n: nat)
  {
    && DistinctNames(kept) && ByPrice(kept)
    && (forall k | k in kept :: k in ms)
    && |kept| == Min(n, |Names(ms)|)
    && (PriceOfName(ms) ==> forall m, k | m in ms && k in kept && m.name !in Names(kept) :: k.price <= m.price)
  }

  /** Always true; it keeps the facts about one of many lists out of the way until its index is mentioned. */
  ghost predicate At(i: int)
  {
    true
  }

  /** `kept` is the batch selection of the ten cheapest; `At(10)` brings out what that means. */
  ghost predicate TopTen(ms: seq<Selector>, kept: seq<Selector>)
  {
    forall n {:trigger At(n)} | n == 10 && At(n) :: Cheapest(ms, kept, n)
  }

  lemma NothingYet()
    ensures TopTen([], [])
  {
  }

  // ----- Dedupe, sort, cut -----

  /** `lo.UniqBy` on the name: the first of each name. */
  function Uniq(s: seq<Selector>): (r: seq<Selector>)
    ensures Names(r) == Names(s)
    ensures forall x | x in r :: x in s
    ensures DistinctNames(r)
  {
    if s == [] then []
    else
      var init, last := s[..|s| - 1], s[|s| - 1];
      assert s == init + [last];
      var r := Uniq(init);
      NamesAppend(init, [last]);
      NamesAppend(r, [last]);
      if last.name in Names(r) then r else r + [last]
  }

  /** `sort.Slice` by price: some sorted permutation; ties come in any order. */
  method SortByPrice(s: seq<Selector>) returns (r: seq<Selector>)
    ensures multiset(r) == multiset(s) && ByPrice(r)
  {
    var cheaper := (x: Selector, y: Selector) => x.price < y.price;
    SortFacts(cheaper, s);
    r := SortBy(cheaper, s);
    assert forall i, j | 0 <= i < j < |r| :: !cheaper(r[j], r[i]);
  }

  /** What one alternative's dedupe, sort and cut may leave of `s`. */
  ghost predicate Shortened(s: seq<Selector>, r: seq<Selector>, n: nat)
  {
    exists sorted :: multiset(sorted) == multiset(Uniq(s)) && ByPrice(sorted) && r == sorted[..Min(n, |sorted|)]
  }

  method Shorten(s: seq<Selector>) returns (r: seq<Selector>)
    ensures Shortened(s, r, 10)
  {
    var list := SortByPrice(Uniq(s));
    r := list;
    if |r| > 10 {
      r := r[..10];
    }
    assert r == list[..Min(10, |list|)];
  }

  lemma {:induction false} DistinctCount(s: seq<Selector>)
    requires DistinctNames(s)
    ensures |Names(s)| == |s|
  {
    if s != [] {
      var init, last := s[..|s| - 1], s[|s| - 1];
      DistinctCount(init);
      assert s == init + [last];
      assert Names(s) == Names(init) + {last.name};
    }
  }

  lemma PermutationKeepsNames(s: seq<Selector>, t: seq<Selector>)
    requires multiset(s) == multiset(t)
    ensures forall x :: x in s <==> x in t
    ensures Names(s) == Names(t)
    ensures |s| == |t|
  {
    assert forall x :: x in s <==> x in multiset(s);
    assert forall x :: x in t <==> x in multiset(t);
    assert |s| == |multiset(s)| == |multiset(t)| == |t|;
  }

  lemma PermutationKeepsDistinct(s: seq<Selector>, t: seq<Selector>)
    requires multiset(s) == multiset(t) && DistinctNames(s)
    ensures DistinctNames(t)
  {
    forall i, j | 0 <= i < j < |t| ensures t[i].name != t[j].name {
      PermutationKeepsNames(s, t);
      if t[i] == t[j] {
        assert t == t[..i] + [t[i]] + t[i + 1..j] + [t[j]] + t[j + 1..];
        assert multiset(t)[t[i]] >= 2;
        AtMostOnce(s, t[i]);
      } else {
        assert t[i] in s && t[j] in s;
      }
    }
  }

  lemma {:induction false} AtMostOnce(s: seq<Selector>, x: Selector)
    requires DistinctNames(s)
    ensures multiset(s)[x] <= 1
  {
    if s != [] {
      var init, last := s[..|s| - 1], s[|s| - 1];
      AtMostOnce(init, x);
      assert s == init + [last];
      if x == last {
        assert x !in init;
      }
    }
  }

  lemma SubsetSize(a: set<string>, b: set<string>)
    requires a <= b
    ensures |a| <= |b|
    ensures |a| == |b| ==> a == b
  {
    assert |b - a| == |b| - |a|;
  }

  /** At least `n` distinct names at most as dear as `bound`: so are the first `n` of a price order. */
  lemma FirstOnesAreCheap(sorted: seq<Selector>, cheap: seq<Selector>, bound: real, n: nat)
    requires ByPrice(sorted) && DistinctNames(sorted) && DistinctNames(cheap) && |cheap| >= n
    requires forall c | c in cheap :: exists x :: x in sorted && x.name == c.name && x.price <= bound
    ensures forall i | 0 <= i < Min(n, |sorted|) :: sorted[i].price <= bound
  {
    forall i | 0 <= i < Min(n, |sorted|) ensures sorted[i].price <= bound {
      if sorted[i].price > bound {
        assert Names(cheap) <= Names(sorted[..i]) by {
          forall c | c in cheap ensures c.name in Names(sorted[..i]) {
            var x :| x in sorted && x.name == c.name && x.price <= bound;
            var j :| 0 <= j < |sorted| && sorted[j] == x;
            assert sorted[..i][j] == x;
          }
        }
        DistinctCount(cheap);
        DistinctCount(sorted[..i]);
        SubsetSize(Names(cheap), Names(sorted[..i]));
      }
    }
  }

  // ----- Streaming equals batch -----

  lemma {:induction false} UniqKeepsFirsts(s: seq<Selector>, t: seq<Selector>, x: Selector)
    requires DistinctNames(s) && x in s
    ensures x in Uniq(s + t)
    decreases |t|
  {
    if t == [] {
      assert s + t == s;
      UniqOfDistinct(s);
    } else {
      var init := t[..|t| - 1];
      UniqKeepsFirsts(s, init, x);
      assert (s + t)[..|s + t| - 1] == s + init;
    }
  }

  lemma {:induction false} UniqOfDistinct(s: seq<Selector>)
    requires DistinctNames(s)
    ensures Uniq(s) == s
  {
    if s != [] {
      var init := s[..|s| - 1];
      UniqOfDistinct(init);
      assert s == init + [s[|s| - 1]];
    }
  }

  lemma KeptSize(ms: seq<Selector>, kept: seq<Selector>, more: seq<Selector>, n: nat)
    requires Cheapest(ms, kept, n)
    ensures Min(n, |Names(kept + more)|) == Min(n, |Names(ms + more)|)
    ensures |kept| < n ==> Names(kept) == Names(ms)
  {
    NamesAppend(ms, more);
    NamesAppend(kept, more);
    DistinctCount(kept);
    assert Names(kept) <= Names(ms);
    SubsetSize(Names(kept), Names(ms));
    SubsetSize(Names(kept) + Names(more), Names(ms) + Names(more));
    SubsetSize(Names(kept), Names(kept) + Names(more));
  }

  /**
   One alternative: if `kept` was the batch selection of what came before, deduping, sorting and
   cutting `kept` with the new matches gives the batch selection of everything so far.
   */
  lemma StreamStep(ms: seq<Selector>, kept: seq<Selector>, more: seq<Selector>, r: seq<Selector>, n: nat)
    requires Cheapest(ms, kept, n) && Shortened(kept + more, r, n)
    ensures Cheapest(ms + more, r, n)
  {
    var u := Uniq(kept + more);
    var sorted :| multiset(sorted) == multiset(u) && ByPrice(sorted) && r == sorted[..Min(n, |sorted|)];
    PermutationKeepsNames(u, sorted);
    PermutationKeepsDistinct(u, sorted);
    DistinctCount(sorted);
    KeptSize(ms, kept, more, n);
    assert forall k | k in r :: k in sorted;
    if PriceOfName(ms + more) {
      forall m, k | m in ms + more && k in r && m.name !in Names(r) ensures k.price <= m.price {
        OmittedIsDear(ms, kept, more, sorted, m, n);
      }
    }
  }

  lemma CutOffIsDear(sorted: seq<Selector>, x: Selector, cut: nat)
    requires ByPrice(sorted) && cut <= |sorted| && x in sorted && x.name !in Names(sorted[..cut])
    ensures forall k | k in sorted[..cut] :: k.price <= x.price
  {
    var j :| 0 <= j < |sorted| && sorted[j] == x;
    assert forall i | 0 <= i < cut :: sorted[i] in sorted[..cut];
    assert j >= cut;
  }

  lemma OmittedIsDear(ms: seq<Selector>, kept: seq<Selector>, more: seq<Selector>, sorted: seq<Selector>, m: Selector,
      n: nat)
    requires Cheapest(ms, kept, n) && PriceOfName(ms + more)
    requires multiset(sorted) == multiset(Uniq(kept + more)) && ByPrice(sorted) && DistinctNames(sorted)
    requires m in ms + more && m.name !in Names(sorted[..Min(n, |sorted|)])
    ensures forall k | k in sorted[..Min(n, |sorted|)] :: k.price <= m.price
  {
    if m.name in Names(sorted) {
      CutNow(ms, kept, more, sorted, m, n);
    } else {
      CutBefore(ms, kept, more, sorted, m, n);
    }
  }

  /** A name that lost in this round. */
  lemma CutNow(ms: seq<Selector>, kept: seq<Selector>, more: seq<Selector>, sorted: seq<Selector>, m: Selector, n: nat)
    requires Cheapest(ms, kept, n) && PriceOfName(ms + more)
    requires multiset(sorted) == multiset(Uniq(kept + more)) && ByPrice(sorted)
    requires m in ms + more && m.name in Names(sorted) && m.name !in Names(sorted[..Min(n, |sorted|)])
    ensures forall k | k in sorted[..Min(n, |sorted|)] :: k.price <= m.price
  {
    PermutationKeepsNames(Uniq(kept + more), sorted);
    var x :| x in sorted && x.name == m.name;
    assert x in kept + more;
    CutOffIsDear(sorted, x, Min(n, |sorted|));
  }

  /** A name that lost in an earlier round: the `n` names kept then are cheaper and are all still there. */
  lemma CutBefore(ms: seq<Selector>, kept: seq<Selector>, more: seq<Selector>, sorted: seq<Selector>, m: Selector,
      n: nat)
    requires Cheapest(ms, kept, n) && PriceOfName(ms + more)
    requires multiset(sorted) == multiset(Uniq(kept + more)) && ByPrice(sorted) && DistinctNames(sorted)
    requires m in ms + more && m.name !in Names(sorted)
    ensures forall k | k in sorted[..Min(n, |sorted|)] :: k.price <= m.price
  {
    PermutationKeepsNames(Uniq(kept + more), sorted);
    LostBefore(ms, kept, more, m, n);
    forall c | c in kept ensures exists x :: x in sorted && x.name == c.name && x.price <= m.price {
      UniqKeepsFirsts(kept, more, c);
      assert c in sorted;
    }
    FirstOnesAreCheap(sorted, kept, m.price, n);
  }

  lemma LostBefore(ms: seq<Selector>, kept: seq<Selector>, more: seq<Selector>, m: Selector, n: nat)
    requires Cheapest(ms, kept, n) && PriceOfName(ms + more)
    requires m in ms + more && m.name !in Names(Uniq(kept + more))
    ensures |kept| >= n && forall c | c in kept :: c.price <= m.price
  {
    NamesAppend(kept, more);
    KeptSize(ms, kept, more, n);
    assert m !in more && m in ms && m.name in Names(ms) && PriceOfName(ms);
  }

  /** Only the set of matches counts: repeating or reordering them changes nothing. */
  lemma DuplicatesDoNotMatter(ms: seq<Selector>, ms': seq<Selector>, kept: seq<Selector>, n: nat)
    requires forall x :: x in ms <==> x in ms'
    ensures Cheapest(ms, kept, n) <==> Cheapest(ms', kept, n)
  {
    assert Names(ms) == Names(ms');
    assert PriceOfName(ms) <==> PriceOfName(ms');
  }

  /** The head of a non-empty selection is as cheap as anything that matched. */
  lemma HeadIsCheapest(ms: seq<Selector>, kept: seq<Selector>, n: nat, m: Selector)
    requires Cheapest(ms, kept, n) && n > 0 && PriceOfName(ms) && m in ms
    ensures kept != [] && kept[0] in ms && kept[0].price <= m.price
  {
    assert m.name in Names(ms);
    assert kept[0] in kept;
    if m.name in Names(kept) {
      var j :| 0 <= j < |kept| && kept[j].name == m.name;
      assert kept[j] in ms;
    }
  }

  /**
   Why price must be a function of name: of two offerings of one name only the first is seen, so
   the cheaper one may be the one that is dropped.
   */
  lemma DroppedDuplicateMayBeCheaper(a: Selector, b: Selector, r: seq<Selector>)
    requires a.name == b.name && b.price < a.price && Shortened([a, b], r, 10)
    ensures r == [a]
  {
    assert [a, b][..1] == [a] && [a][..0] == [];
    assert a.name in Names([a]);
    assert Uniq([a]) == [a];
    assert Uniq([a, b]) == [a];
    var sorted :| multiset(sorted) == multiset([a]) && ByPrice(sorted) && r == sorted[..Min(10, |sorted|)];
    assert |sorted| == |multiset(sorted)| == 1 && sorted[0] in multiset(sorted);
  }

  // ----- In terms of offerings -----

  /** `x` is an entry for `off`. */
  predicate EntryFor(x: Selector, off: Offering)
  {
    x.name == off.name && x.price == off.price
  }

  /** Offerings of one name cost the same. */
  ghost predicate OnePricePerName(offs: set<Offering>)
  {
    forall x, y | x in offs && y in offs && x.name == y.name :: x.price == y.price
  }

  function OfferingNames(offs: set<Offering>): set<string>
  {
    set off | off in offs :: off.name
  }

  /**
   `list` holds ten of `offs`, or one for each name if there are fewer, under different names and in
   price order; if the name decides the price, no offering that is left out is cheaper than one listed.
   */
  ghost predicate TenCheapest(offs: set<Offering>, list: seq<Selector>)
  {
    && (forall x | x in list :: exists off :: off in offs && EntryFor(x, off))
    && (forall i, j | 0 <= i < j < |list| :: list[i].name != list[j].name && list[i].price <= list[j].price)
    && |list| == Min(10, |OfferingNames(offs)|)
    && (OnePricePerName(offs) ==>
          forall off, x | off in offs && off.name !in Names(list) && x in list :: x.price <= off.price)
  }

  ghost predicate HasEntry(ms: seq<Selector>, off: Offering)
  {
    exists m :: m in ms && EntryFor(m, off)
  }

  ghost predicate HasOffering(offs: set<Offering>, m: Selector)
  {
    exists off :: off in offs && EntryFor(m, off)
  }

  ghost predicate EntriesFor(ms: seq<Selector>, offs: set<Offering>)
  {
    && (forall m {:trigger HasOffering(offs, m)} | m in ms :: HasOffering(offs, m))
    && (forall off {:trigger HasEntry(ms, off)} | off in offs :: HasEntry(ms, off))
  }

  /** A batch selection from the entries of some offerings is a selection of these offerings. */
  lemma SelectsOfferings(ms: seq<Selector>, offs: set<Offering>, list: seq<Selector>)
    requires EntriesFor(ms, offs) && Cheapest(ms, list, 10)
    ensures TenCheapest(offs, list)
  {
    EntryNames(ms, offs);
    forall x | x in list ensures exists off :: off in offs && EntryFor(x, off) {
      assert HasOffering(offs, x);
    }
    if OnePricePerName(offs) {
      EntryPrices(ms, offs);
      forall off, x | off in offs && off.name !in Names(list) && x in list ensures x.price <= off.price {
        OmittedOffering(ms, offs, list, off, x);
      }
    }
  }

  lemma OmittedOffering(ms: seq<Selector>, offs: set<Offering>, list: seq<Selector>, off: Offering, x: Selector)
    requires EntriesFor(ms, offs) && Cheapest(ms, list, 10) && PriceOfName(ms)
    requires off in offs && off.name !in Names(list) && x in list
    ensures x.price <= off.price
  {
    assert HasEntry(ms, off);
    var m :| m in ms && EntryFor(m, off);
  }

  lemma EntryNames(ms: seq<Selector>, offs: set<Offering>)
    requires EntriesFor(ms, offs)
    ensures Names(ms) == OfferingNames(offs)
  {
    forall m | m in ms ensures m.name in OfferingNames(offs) {
      assert HasOffering(offs, m);
    }
    forall off | off in offs ensures off.name in Names(ms) {
      assert HasEntry(ms, off);
    }
  }

  lemma EntryPrices(ms: seq<Selector>, offs: set<Offering>)
    requires EntriesFor(ms, offs) && OnePricePerName(offs)
    ensures PriceOfName(ms)
  {
    forall x, y | x in ms && y in ms && x.name == y.name ensures x.price == y.price {
      assert HasOffering(offs, x) && HasOffering(offs, y);
    }
  }
}
