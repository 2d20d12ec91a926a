/**
 Paths into nested `map[string]any` values. Go maps are references, so an object is a graph of map
 cells; `Heap` is what the cells of a graph hold at one moment.
 */
module NestedMap {
  import opened Wrappers

  datatype Value<N> = Leaf(text: string) | Sub(node: N)

  type Heap<N> = map<N, map<string, Value<N>>>

  ghost predicate Closed<N>(h: Heap<N>)
  {
    forall n | n in h :: forall f | f in h[n] && h[n][f].Sub? :: h[n][f].node in h
  }

  /** The map cell at a path. */
  ghost function NodeAt<N>(h: Heap<N>, root: N, path: seq<string>): (r: Option<N>)
    requires Closed(h) && root in h
    ensures r.Some? ==> r.value in h
  {
    if path == [] then Some(root)
    else
      var up, f := NodeAt(h, root, path[..|path| - 1]), path[|path| - 1];
      if up.Some? && f in h[up.value] && h[up.value][f].Sub? then Some(h[up.value][f].node) else None
  }

  /** The value at a path. */
  ghost function ValueAt<N>(h: Heap<N>, root: N, path: seq<string>): Option<Value<N>>
    requires Closed(h) && root in h && path != []
  {
    var up, f := NodeAt(h, root, path[..|path| - 1]), path[|path| - 1];
    if up.Some? && f in h[up.value] then Some(h[up.value][f]) else None
  }

  /** No cell is reached by two paths: no sharing and no cycles. */
  ghost predicate TreeShaped<N>(h: Heap<N>, root: N)
    requires Closed(h) && root in h
  {
    forall p, q | NodeAt(h, root, p).Some? && NodeAt(h, root, p) == NodeAt(h, root, q) :: p == q
  }

  ghost predicate Diverge(p: seq<string>, q: seq<string>)
  {
    !(p <= q) && !(q <= p)
  }

  // ----- What a set does -----

  /** Where the value goes: into `at`, reached by the first `k` fields, through the new cells `made`. */
  datatype Effect<N> = Effect(at: N, k: nat, made: seq<N>)

  /** The cell that field `e.k + j` is written to, and what is written there. */
  ghost function Stop<N>(e: Effect<N>, j: nat): N
    requires j <= |e.made|
  {
    if j == 0 then e.at else e.made[j - 1]
  }

  ghost function Link<N>(e: Effect<N>, value: Value<N>, j: nat): Value<N>
  {
    if j < |e.made| then Sub(e.made[j]) else value
  }

  ghost predicate Distinct<N>(s: seq<N>)
  {
    forall i, j | 0 <= i < j < |s| :: s[i] != s[j]
  }

  /** The new cells hold the rest of the fields, one behind the other, and nothing else. */
  ghost predicate Chained<N>(h': Heap<N>, fields: seq<string>, value: Value<N>, e: Effect<N>)
  {
    && e.k + |e.made| == |fields| - 1
    && e.at in h' && fields[e.k] in h'[e.at] && h'[e.at][fields[e.k]] == Link(e, value, 0)
    && (forall j {:trigger Stop(e, j)} | 0 < j <= |e.made| ::
        Stop(e, j) in h' && h'[Stop(e, j)] == map[fields[e.k + j] := Link(e, value, j)])
  }

  /** Of the old cells only `at` has changed, and it only at the one field. */
  ghost predicate OnlyAt<N>(h: Heap<N>, h': Heap<N>, fields: seq<string>, value: Value<N>, e: Effect<N>)
  {
    && e.k < |fields| && e.at in h && (forall n | n in h :: n in h')
    && (forall n | n in h && n != e.at :: h'[n] == h[n])
    && h'[e.at] == h[e.at][fields[e.k] := Link(e, value, 0)]
  }

  /** The heap after a successful set of `fields` to `value`. */
  ghost predicate HasSet<N>(h: Heap<N>, h': Heap<N>, root: N, fields: seq<string>, value: Value<N>, e: Effect<N>)
    requires Closed(h) && root in h && fields != []
  {
    && e.k < |fields| && NodeAt(h, root, fields[..e.k]) == Some(e.at)
    && (e.made != [] ==> fields[e.k] !in h[e.at])
    && Distinct(e.made) && (forall j | 0 <= j < |e.made| :: e.made[j] !in h)
    && OnlyAt(h, h', fields, value, e)
    && Chained(h', fields, value, e)
  }

  lemma {:induction false} NoneBelowNone<N>(h: Heap<N>, root: N, path: seq<string>, i: nat)
    requires Closed(h) && root in h && i <= |path| && NodeAt(h, root, path[..i]).None?
    ensures NodeAt(h, root, path).None?
    decreases |path|
  {
    if i < |path| {
      assert path[..|path| - 1][..i] == path[..i];
      NoneBelowNone(h, root, path[..|path| - 1], i);
    } else {
      assert path[..i] == path;
    }
  }

  lemma OneFurther<N>(h: Heap<N>, root: N, path: seq<string>, f: string, n: N)
    requires Closed(h) && root in h && NodeAt(h, root, path) == Some(n)
    ensures NodeAt(h, root, path + [f]) == if f in h[n] && h[n][f].Sub? then Some(h[n][f].node) else None
    ensures ValueAt(h, root, path + [f]) == if f in h[n] then Some(h[n][f]) else None
  {
    assert (path + [f])[..|path|] == path;
  }

  /** Paths that do not go through the written entry lead where they led. */
  lemma {:induction false} OtherNodes<N>(h: Heap<N>, h': Heap<N>, root: N, fields: seq<string>, value: Value<N>,
      e: Effect<N>, q: seq<string>)
    requires Closed(h) && Closed(h') && root in h && root in h' && fields != []
    requires HasSet(h, h', root, fields, value, e) && TreeShaped(h, root)
    requires !(fields[..e.k + 1] <= q)
    ensures NodeAt(h', root, q) == NodeAt(h, root, q)
  {
    if q != [] {
      var init := q[..|q| - 1];
      OtherNodes(h, h', root, fields, value, e, init);
      if NodeAt(h, root, init) == Some(e.at) {
        assert init == fields[..e.k];
        assert q == init + [q[|q| - 1]] && fields[..e.k + 1] == init + [fields[e.k]];
      }
    }
  }

  /** The cells written to are reached by the fields, one after the other. */
  lemma {:induction false} Stops<N>(h': Heap<N>, root: N, fields: seq<string>, value: Value<N>, e: Effect<N>, j: nat)
    requires Closed(h') && root in h' && Chained(h', fields, value, e)
    requires NodeAt(h', root, fields[..e.k]) == Some(e.at)
    requires j <= |e.made|
    ensures NodeAt(h', root, fields[..e.k + j]) == Some(Stop(e, j))
  {
    if j > 0 {
      Stops(h', root, fields, value, e, j - 1);
      OneFurther(h', root, fields[..e.k + j - 1], fields[e.k + j - 1], Stop(e, j - 1));
      assert fields[..e.k + j] == fields[..e.k + j - 1] + [fields[e.k + j - 1]];
    }
  }

  lemma AtStays<N>(h: Heap<N>, h': Heap<N>, root: N, fields: seq<string>, value: Value<N>, e: Effect<N>)
    requires Closed(h) && Closed(h') && root in h && root in h' && fields != []
    requires HasSet(h, h', root, fields, value, e) && TreeShaped(h, root)
    ensures NodeAt(h', root, fields[..e.k]) == Some(e.at)
  {
    OtherNodes(h, h', root, fields, value, e, fields[..e.k]);
  }

  /** After a successful set the value is where it was put. */
  lemma GetAfterSet<N>(h: Heap<N>, h': Heap<N>, root: N, fields: seq<string>, value: Value<N>, e: Effect<N>)
    requires Closed(h) && Closed(h') && root in h && root in h' && fields != []
    requires HasSet(h, h', root, fields, value, e) && TreeShaped(h, root)
    ensures ValueAt(h', root, fields) == Some(value)
  {
    AtStays(h, h', root, fields, value, e);
    Stops(h', root, fields, value, e, |e.made|);
    assert fields[..e.k + |e.made|] == fields[..|fields| - 1];
  }

  lemma FirstDifference(p: seq<string>, q: seq<string>) returns (d: nat)
    requires Diverge(p, q)
    ensures d < |p| && d < |q| && p[..d] == q[..d] && p[d] != q[d]
  {
    d := 0;
    while d < |p| && d < |q| && p[d] == q[d]
      invariant d <= |p| && d <= |q| && p[..d] == q[..d]
    {
      d := d + 1;
    }
    assert p[..|p|] == p && q[..|q|] == q;
  }

  lemma Nowhere<N>(h: Heap<N>, root: N, path: seq<string>, i: nat, n: N)
    requires Closed(h) && root in h && i < |path|
    requires NodeAt(h, root, path[..i]) == Some(n) && path[i] !in h[n]
    ensures ValueAt(h, root, path).None?
  {
    OneFurther(h, root, path[..i], path[i], n);
    assert path[..i + 1] == path[..i] + [path[i]];
    if i < |path| - 1 {
      assert path[..|path| - 1][..i + 1] == path[..i + 1];
      NoneBelowNone(h, root, path[..|path| - 1], i + 1);
    } else {
      assert path[..i + 1] == path;
    }
  }

  /** A path that leaves the fields within the new part leads nowhere. */
  lemma LeavesNewPart<N>(h': Heap<N>, root: N, fields: seq<string>, value: Value<N>, e: Effect<N>, q: seq<string>,
      d: nat)
    requires Closed(h') && root in h' && Chained(h', fields, value, e)
    requires NodeAt(h', root, fields[..e.k]) == Some(e.at)
    requires e.k < d < |fields| && d < |q| && q[..d] == fields[..d] && q[d] != fields[d]
    ensures ValueAt(h', root, q).None?
  {
    Stops(h', root, fields, value, e, d - e.k);
    Nowhere(h', root, q, d, Stop(e, d - e.k));
  }

  lemma NewPartWasNowhere<N>(h: Heap<N>, root: N, fields: seq<string>, e: Effect<N>, q: seq<string>, d: nat)
    requires Closed(h) && root in h && e.k < d <= |fields| && d < |q| && q[..d] == fields[..d]
    requires NodeAt(h, root, fields[..e.k]) == Some(e.at) && fields[e.k] !in h[e.at]
    ensures ValueAt(h, root, q).None?
  {
    assert q[..e.k] == q[..d][..e.k] == fields[..d][..e.k] == fields[..e.k];
    assert q[e.k] == q[..d][e.k] == fields[..d][e.k] == fields[e.k];
    Nowhere(h, root, q, e.k, e.at);
  }

  /** Every path that diverges from the fields keeps its value, or its absence. */
  lemma DivergingPathsKept<N>(h: Heap<N>, h': Heap<N>, root: N, fields: seq<string>, value: Value<N>, e: Effect<N>,
      q: seq<string>)
    requires Closed(h) && Closed(h') && root in h && root in h' && fields != []
    requires HasSet(h, h', root, fields, value, e) && TreeShaped(h, root)
    requires Diverge(fields, q)
    ensures q != [] && ValueAt(h', root, q) == ValueAt(h, root, q)
  {
    var d := FirstDifference(fields, q);
    if d > e.k {
      AtStays(h, h', root, fields, value, e);
      LeavesNewPart(h', root, fields, value, e, q, d);
      NewPartWasNowhere(h, root, fields, e, q, d);
    } else {
      var init := q[..|q| - 1];
      assert fields[..e.k + 1][d] == fields[d];
      assert !(fields[..e.k + 1] <= q);
      OtherNodes(h, h', root, fields, value, e, init);
      if NodeAt(h, root, init) == Some(e.at) {
        assert init == fields[..e.k];
        assert q == init + [q[|q| - 1]] && fields[..e.k + 1] == init + [fields[e.k]];
      }
    }
  }

  /**
   Why tree shape matters: where a cell is its own child under "a", setting "b" through "a" shows at
   the top as well.
   */
  lemma SharedCellShows<N>(h: Heap<N>, h': Heap<N>, root: N, value: Value<N>)
    requires h == map[root := map["a" := Sub(root)]]
    requires h' == map[root := map["a" := Sub(root), "b" := value]] && value.Leaf?
    ensures Closed(h) && Closed(h') && HasSet(h, h', root, ["a", "b"], value, Effect(root, 1, []))
    ensures Diverge(["a", "b"], ["b"]) && ValueAt(h, root, ["b"]).None? && ValueAt(h', root, ["b"]) == Some(value)
  {
    assert ["a", "b"][..1] == ["a"] && ["a"][..0] == [] && ["b"][..0] == [];
    assert NodeAt(h, root, []) == Some(root);
    assert NodeAt(h, root, ["a"]) == Some(root);
    assert NodeAt(h', root, []) == Some(root);
    assert "a" != "b";
    assert ["a", "b"][0] != ["b"][0];
  }

  // ----- The operations -----

  class MapCell {
    var entries: map<string, Value<MapCell>>

    constructor ()
      ensures entries == map[]
    {
      entries := map[];
    }
  }

  ghost function Snapshot(cells: set<MapCell>): Heap<MapCell>
    reads cells
  {
    map c | c in cells :: c.entries
  }

  /** `GetNestedField`: the map at a path of at least one field. */
  method GetNestedField(obj: MapCell, fields: seq<string>, ghost cells: set<MapCell>) returns (r: Option<MapCell>)
    requires obj in cells && Closed(Snapshot(cells))
    ensures r == if fields == [] then None else NodeAt(Snapshot(cells), obj, fields)
  {
    if |fields| == 0 {
      return None;
    }
    var m := obj;
    for i := 0 to |fields|
      invariant NodeAt(Snapshot(cells), obj, fields[..i]) == Some(m)
    {
      assert fields[..i + 1][..i] == fields[..i];
      if fields[i] in m.entries && m.entries[fields[i]].Sub? {
        m := m.entries[fields[i]].node;
      } else {
        NoneBelowNone(Snapshot(cells), obj, fields, i + 1);
        return None;
      }
    }
    assert fields[..|fields|] == fields;
    return Some(m);
  }

  /** `GetNestedValue`: a path of one field is an error, for there is no map to get it from. */
  method GetNestedValue(obj: MapCell, fields: seq<string>, ghost cells: set<MapCell>)
      returns (r: Option<Value<MapCell>>)
    requires obj in cells && Closed(Snapshot(cells)) && fields != []
    ensures r == if |fields| == 1 then None else ValueAt(Snapshot(cells), obj, fields)
  {
    var up := GetNestedField(obj, fields[..|fields| - 1], cells);
    if up.None? {
      return None;
    }
    var last := fields[|fields| - 1];
    if last in up.value.entries {
      return Some(up.value.entries[last]);
    }
    return None;
  }

  ghost predicate LeafAt(h: Heap<MapCell>, root: MapCell, path: seq<string>)
    requires Closed(h) && root in h && path != []
  {
    ValueAt(h, root, path).Some? && ValueAt(h, root, path).value.Leaf?
  }

  /** A field before the last holds something that is not a map. */
  ghost predicate Blocked(h: Heap<MapCell>, root: MapCell, fields: seq<string>)
    requires Closed(h) && root in h
  {
    |fields| > 1 && (Blocked(h, root, fields[..|fields| - 1]) || LeafAt(h, root, fields[..|fields| - 1]))
  }

  lemma BlockedNext(h: Heap<MapCell>, root: MapCell, fields: seq<string>, i: nat)
    requires Closed(h) && root in h && 0 < i < |fields|
    ensures Blocked(h, root, fields[..i + 1]) <==> Blocked(h, root, fields[..i]) || LeafAt(h, root, fields[..i])
  {
    assert fields[..i + 1][..i] == fields[..i];
  }

  lemma {:induction false} BlockedLonger(h: Heap<MapCell>, root: MapCell, fields: seq<string>, i: nat)
    requires Closed(h) && root in h && i <= |fields| && Blocked(h, root, fields[..i])
    ensures Blocked(h, root, fields)
    decreases |fields|
  {
    if i < |fields| {
      var init := fields[..|fields| - 1];
      assert init[..i] == fields[..i];
      BlockedLonger(h, root, init, i);
    } else {
      assert fields[..i] == fields;
    }
  }

  method AddCell(m: MapCell, field: string, ghost all: set<MapCell>) returns (cell: MapCell)
    requires m in all
    modifies m
    ensures fresh(cell) && cell !in all
    ensures Snapshot(all + {cell}) == (var now := old(Snapshot(all));
        now[m := now[m][field := Sub(cell)]][cell := map[]])
  {
    cell := new MapCell();
    m.entries := m.entries[field := Sub(cell)];
  }

  method Put(m: MapCell, field: string, value: Value<MapCell>, ghost all: set<MapCell>)
    requires m in all
    modifies m
    ensures Snapshot(all) == (var now := old(Snapshot(all)); now[m := now[m][field := value]])
  {
    m.entries := m.entries[field := value];
  }

  /**
   `SetNestedField`. It fails exactly if a field on the way holds something else than a map, and then
   nothing at all has changed, in any graph, although the loop makes maps as it walks: once it has
   made one there is nothing left that could stop it.
   */
  method SetNestedField(obj: MapCell, value: Value<MapCell>, fields: seq<string>, ghost cells: set<MapCell>)
    returns (ok: bool, ghost e: Effect<MapCell>, ghost after: set<MapCell>)
    requires obj in cells && Closed(Snapshot(cells)) && fields != []
    requires value.Sub? ==> value.node in cells
    modifies cells
    ensures ok <==> !Blocked(old(Snapshot(cells)), obj, fields)
    ensures !ok ==> Snapshot(cells) == old(Snapshot(cells))
    ensures cells <= after && fresh(after - cells)
    ensures ok ==> HasSet(old(Snapshot(cells)), Snapshot(after), obj, fields, value, e) && Closed(Snapshot(after))
  {
    ghost var h := Snapshot(cells);
    var m := obj;
    e, after := Effect(obj, 0, []), cells;
    Start(h, obj, fields);
    for i := 0 to |fields| - 1
      invariant Midway(h, Snapshot(after), obj, fields, i, m, e)
      invariant cells <= after && fresh(after - cells)
    {
      ok, m, e, after := Descend(obj, fields, i, m, e, h, after);
      if !ok {
        return;
      }
    }
    var field := fields[|fields| - 1];
    ghost var now := Snapshot(after);
    Put(m, field, value, after);
    Finish(h, now, obj, fields, value, m, e);
    ok := true;
  }

  /** One field of the walk: down into the map that is there, or into a new one. */
  method Descend(obj: MapCell, fields: seq<string>, i: nat, m: MapCell, ghost e: Effect<MapCell>,
                 ghost h: Heap<MapCell>, ghost all: set<MapCell>)
    returns (ok: bool, m': MapCell, ghost e': Effect<MapCell>, ghost all': set<MapCell>)
    requires i < |fields| - 1 && Midway(h, Snapshot(all), obj, fields, i, m, e)
    modifies m
    ensures all <= all' && fresh(all' - all)
    ensures ok ==> Midway(h, Snapshot(all'), obj, fields, i + 1, m', e')
    ensures !ok ==> all' == all && Snapshot(all) == h && Blocked(h, obj, fields)
  {
    var field := fields[i];
    if field !in m.entries {
      ghost var now := Snapshot(all);
      m' := AddCell(m, field, all);
      StepNew(h, now, obj, fields, i, m, e, m');
      return true, m', e.(made := e.made + [m']), all + {m'};
    }
    if m.entries[field].Leaf? {
      StepBlocked(h, Snapshot(all), obj, fields, i, m, e);
      return false, m, e, all;
    }
    StepDown(h, Snapshot(all), obj, fields, i, m, e);
    m' := m.entries[field].node;
    return true, m', Effect(m', i + 1, []), all;
  }

  /** What is known before field `i` of the loop. */
  ghost predicate Midway(h: Heap<MapCell>, now: Heap<MapCell>, root: MapCell, fields: seq<string>, i: nat, m: MapCell,
      e: Effect<MapCell>)
  {
    && Closed(h) && Closed(now) && root in h && i < |fields| && m in now
    && Walked(h, root, fields, i, m, e) && !Blocked(h, root, fields[..i + 1]) && Partial(h, now, fields, e)
  }

  lemma Start(h: Heap<MapCell>, root: MapCell, fields: seq<string>)
    requires Closed(h) && root in h && fields != []
    ensures Midway(h, h, root, fields, 0, root, Effect(root, 0, []))
  {
    assert |fields[..1]| == 1 && fields[..0] == [];
  }

  /** Once a cell is new, it is empty, so a field that is found is found in an old cell of the unchanged heap. */
  lemma FoundInOld(h: Heap<MapCell>, now: Heap<MapCell>, root: MapCell, fields: seq<string>, i: nat, m: MapCell,
      e: Effect<MapCell>)
    requires Midway(h, now, root, fields, i, m, e) && fields[i] in now[m]
    ensures e.made == [] && now == h
  {
  }

  lemma StepDown(h: Heap<MapCell>, now: Heap<MapCell>, root: MapCell, fields: seq<string>, i: nat, m: MapCell,
      e: Effect<MapCell>)
    requires Midway(h, now, root, fields, i, m, e) && i < |fields| - 1 && fields[i] in now[m] && now[m][fields[i]].Sub?
    ensures e.made == [] && Midway(h, now, root, fields, i + 1, now[m][fields[i]].node,
        Effect(now[m][fields[i]].node, i + 1, []))
  {
    FoundInOld(h, now, root, fields, i, m, e);
    WalkOn(h, root, fields, i, m, e);
    BlockedNext(h, root, fields, i + 1);
  }

  lemma StepBlocked(h: Heap<MapCell>, now: Heap<MapCell>, root: MapCell, fields: seq<string>, i: nat, m: MapCell,
      e: Effect<MapCell>)
    requires Midway(h, now, root, fields, i, m, e) && i < |fields| - 1 && fields[i] in now[m] && now[m][fields[i]].Leaf?
    ensures e.made == [] && now == h && Blocked(h, root, fields)
  {
    FoundInOld(h, now, root, fields, i, m, e);
    WalkOn(h, root, fields, i, m, e);
    BlockedNext(h, root, fields, i + 1);
    BlockedLonger(h, root, fields, i + 2);
  }

  lemma StepNew(h: Heap<MapCell>, now: Heap<MapCell>, root: MapCell, fields: seq<string>, i: nat, m: MapCell,
      e: Effect<MapCell>, cell: MapCell)
    requires Midway(h, now, root, fields, i, m, e) && i < |fields| - 1 && fields[i] !in now[m] && cell !in now
    ensures var now' := now[m := now[m][fields[i] := Sub(cell)]][cell := map[]];
      Midway(h, now', root, fields, i + 1, cell, e.(made := e.made + [cell]))
  {
    var next := e.(made := e.made + [cell]);
    var now' := now[m := now[m][fields[i] := Sub(cell)]][cell := map[]];
    StepNewWalked(h, now, root, fields, i, m, e, cell);
    StepNewHeap(h, now, root, fields, i, m, e, cell);
    Gather(h, now', root, fields, i + 1, cell, next);
  }

  lemma Gather(h: Heap<MapCell>, now: Heap<MapCell>, root: MapCell, fields: seq<string>, i: nat, m: MapCell,
      e: Effect<MapCell>)
    requires Closed(h) && Closed(now) && root in h && i < |fields| && m in now
    requires Walked(h, root, fields, i, m, e) && !Blocked(h, root, fields[..i + 1]) && Partial(h, now, fields, e)
    ensures Midway(h, now, root, fields, i, m, e)
  {
  }

  lemma StepNewHeap(h: Heap<MapCell>, now: Heap<MapCell>, root: MapCell, fields: seq<string>, i: nat, m: MapCell,
      e: Effect<MapCell>, cell: MapCell)
    requires Midway(h, now, root, fields, i, m, e) && i < |fields| - 1 && fields[i] !in now[m] && cell !in now
    ensures var now' := now[m := now[m][fields[i] := Sub(cell)]][cell := map[]];
      Closed(now') && cell in now' && Partial(h, now', fields, e.(made := e.made + [cell]))
  {
    ClosedWithNew(now, m, fields[i], cell);
    assert e.made == [] ==> now == h && m == e.at;
    MakePartial(h, now, fields, e, cell);
  }

  lemma StepNewWalked(h: Heap<MapCell>, now: Heap<MapCell>, root: MapCell, fields: seq<string>, i: nat, m: MapCell,
      e: Effect<MapCell>, cell: MapCell)
    requires Midway(h, now, root, fields, i, m, e) && i < |fields| - 1 && fields[i] !in now[m] && cell !in now
    ensures Walked(h, root, fields, i + 1, cell, e.(made := e.made + [cell])) && !Blocked(h, root, fields[..i + 2])
  {
    WalkOn(h, root, fields, i, m, e);
    BlockedNext(h, root, fields, i + 1);
    NewIsOther(h, now, fields, e, cell);
    MakeWalked(h, root, fields, i, m, e, cell);
  }

  lemma MakeWalked(h: Heap<MapCell>, root: MapCell, fields: seq<string>, i: nat, m: MapCell, e: Effect<MapCell>,
      cell: MapCell)
    requires Closed(h) && root in h && i < |fields| - 1 && Walked(h, root, fields, i, m, e)
    requires Distinct(e.made + [cell]) && cell !in h && (e.made == [] ==> fields[i] !in h[m])
    ensures Walked(h, root, fields, i + 1, cell, e.(made := e.made + [cell]))
  {
  }

  /** The walk so far: along old cells, or into the new ones. */
  ghost predicate Walked(h: Heap<MapCell>, root: MapCell, fields: seq<string>, i: nat, m: MapCell, e: Effect<MapCell>)
    requires Closed(h) && root in h && i < |fields|
  {
    && e.k + |e.made| == i && m == Stop(e, |e.made|)
    && NodeAt(h, root, fields[..e.k]) == Some(e.at)
    && (e.made != [] ==> fields[e.k] !in h[e.at])
    && Distinct(e.made) && (forall j | 0 <= j < |e.made| :: e.made[j] !in h)
  }

  /** The new cells but for the last are linked, and the last is empty. */
  ghost predicate OpenChain<N>(now: Heap<N>, fields: seq<string>, e: Effect<N>)
    requires e.k + |e.made| < |fields|
  {
    && (forall j {:trigger Stop(e, j)} | 0 < j < |e.made| ::
        Stop(e, j) in now && now[Stop(e, j)] == map[fields[e.k + j] := Sub(e.made[j])])
    && Stop(e, |e.made|) in now && now[Stop(e, |e.made|)] == map[]
  }

  /** The heap in the middle of the walk: unchanged, or with a chain of new cells that ends in an empty one. */
  ghost predicate Partial<N>(h: Heap<N>, now: Heap<N>, fields: seq<string>, e: Effect<N>)
    requires e.k + |e.made| < |fields|
  {
    if e.made == [] then now == h
    else
      && (forall n | n in now :: n in h || n in e.made) && (forall c | c in e.made :: c in now)
      && OnlyAt(h, now, fields, Sub(e.made[0]), e)
      && OpenChain(now, fields, e)
  }

  lemma MakeFirst<N>(h: Heap<N>, fields: seq<string>, e: Effect<N>, cell: N)
    requires e.made == [] && e.k < |fields| - 1 && e.at in h && cell !in h && fields[e.k] !in h[e.at]
    ensures Partial(h, h[e.at := h[e.at][fields[e.k] := Sub(cell)]][cell := map[]], fields, e.(made := [cell]))
  {
  }

  /** Filling the empty last cell leaves the chain before it alone. */
  lemma ChainBefore<N>(now: Heap<N>, now': Heap<N>, fields: seq<string>, e: Effect<N>, j: nat)
    requires e.k + |e.made| < |fields| && OpenChain(now, fields, e) && Distinct(e.made) && 0 < j < |e.made|
    requires forall n | n in now && n != e.made[|e.made| - 1] :: n in now' && now'[n] == now[n]
    ensures Stop(e, j) in now' && now'[Stop(e, j)] == map[fields[e.k + j] := Sub(e.made[j])]
  {
    assert Stop(e, j) == e.made[j - 1] != e.made[|e.made| - 1];
  }

  lemma MakeNextChain<N>(now: Heap<N>, fields: seq<string>, e: Effect<N>, cell: N)
    requires e.made != [] && e.k + |e.made| < |fields| - 1 && OpenChain(now, fields, e) && cell !in now
        && Distinct(e.made)
    ensures var m, f := e.made[|e.made| - 1], fields[e.k + |e.made|];
      OpenChain(now[m := map[f := Sub(cell)]][cell := map[]], fields, e.(made := e.made + [cell]))
  {
    var m, f, next := e.made[|e.made| - 1], fields[e.k + |e.made|], e.(made := e.made + [cell]);
    var now' := now[m := map[f := Sub(cell)]][cell := map[]];
    forall j | 0 < j < |next.made| ensures Stop(next, j) in now'
        && now'[Stop(next, j)] == map[fields[e.k + j] := Sub(next.made[j])] {
      assert Stop(next, j) == Stop(e, j);
      if j < |e.made| {
        ChainBefore(now, now', fields, e, j);
      }
    }
    assert Stop(next, |next.made|) == cell;
  }

  lemma OnlyAtKept<N>(h: Heap<N>, now: Heap<N>, now': Heap<N>, fields: seq<string>, e: Effect<N>, next: Effect<N>)
    requires e.made != [] && next.made != [] && next.made[0] == e.made[0] && next.at == e.at && next.k == e.k
    requires OnlyAt(h, now, fields, Sub(e.made[0]), e)
    requires forall n | n in h :: n in now' && now'[n] == now[n]
    ensures OnlyAt(h, now', fields, Sub(next.made[0]), next)
  {
  }

  lemma MakeNext<N>(h: Heap<N>, now: Heap<N>, fields: seq<string>, e: Effect<N>, cell: N)
    requires e.made != [] && e.k + |e.made| < |fields| - 1 && Partial(h, now, fields, e) && cell !in now
    requires Distinct(e.made) && (forall j | 0 <= j < |e.made| :: e.made[j] !in h)
    ensures var m, f := e.made[|e.made| - 1], fields[e.k + |e.made|];
      Partial(h, now[m := map[f := Sub(cell)]][cell := map[]], fields, e.(made := e.made + [cell]))
  {
    MakeNextChain(now, fields, e, cell);
    var m, f, next := e.made[|e.made| - 1], fields[e.k + |e.made|], e.(made := e.made + [cell]);
    var now' := now[m := map[f := Sub(cell)]][cell := map[]];
    OnlyAtKept(h, now, now', fields, e, next);

  }

  lemma FinishOld<N>(h: Heap<N>, root: N, fields: seq<string>, value: Value<N>, e: Effect<N>)
    requires Closed(h) && root in h && e.made == [] && e.k == |fields| - 1
        && NodeAt(h, root, fields[..e.k]) == Some(e.at)
    ensures HasSet(h, h[e.at := h[e.at][fields[e.k] := value]], root, fields, value, e)
  {
  }

  lemma FinishChain<N>(now: Heap<N>, fields: seq<string>, value: Value<N>, e: Effect<N>)
    requires e.made != [] && e.k + |e.made| == |fields| - 1 && OpenChain(now, fields, e) && Distinct(e.made)
    requires e.at in now && e.at !in e.made && fields[e.k] in now[e.at] && now[e.at][fields[e.k]] == Sub(e.made[0])
    ensures Chained(now[e.made[|e.made| - 1] := map[fields[|fields| - 1] := value]], fields, value, e)
  {
    var h' := now[e.made[|e.made| - 1] := map[fields[|fields| - 1] := value]];
    forall j | 0 < j <= |e.made| ensures Stop(e, j) in h'
        && h'[Stop(e, j)] == map[fields[e.k + j] := Link(e, value, j)] {
      if j < |e.made| {
        ChainBefore(now, h', fields, e, j);
      }
    }
  }

  lemma FinishNew<N>(h: Heap<N>, now: Heap<N>, root: N, fields: seq<string>, value: Value<N>, e: Effect<N>)
    requires Closed(h) && root in h && e.made != [] && e.k + |e.made| == |fields| - 1 && Partial(h, now, fields, e)
    requires NodeAt(h, root, fields[..e.k]) == Some(e.at) && fields[e.k] !in h[e.at]
    requires Distinct(e.made) && (forall j | 0 <= j < |e.made| :: e.made[j] !in h)
    ensures var m := e.made[|e.made| - 1]; HasSet(h, now[m := map[fields[|fields| - 1] := value]], root, fields, value,
        e)
  {
    FinishChain(now, fields, value, e);
  }

  /** A heap stays closed when an entry comes to point into it. */
  lemma StaysClosed<N>(h: Heap<N>, m: N, f: string, value: Value<N>)
    requires Closed(h) && m in h && (value.Sub? ==> value.node in h)
    ensures Closed(h[m := h[m][f := value]])
  {
  }

  /** The next field: among old cells it is looked up, and beyond them there is nothing. */
  lemma WalkOn(h: Heap<MapCell>, root: MapCell, fields: seq<string>, i: nat, m: MapCell, e: Effect<MapCell>)
    requires Closed(h) && root in h && i < |fields| && Walked(h, root, fields, i, m, e)
    ensures e.made == [] ==> ValueAt(h, root, fields[..i + 1]) == if fields[i] in h[m] then Some(h[m][fields[i]])
        else None
    ensures e.made == [] && fields[i] in h[m] && h[m][fields[i]].Sub?
        ==> NodeAt(h, root, fields[..i + 1]) == Some(h[m][fields[i]].node)
    ensures e.made != [] ==> ValueAt(h, root, fields[..i + 1]).None?
  {
    assert fields[..i + 1] == fields[..i] + [fields[i]];
    if e.made == [] {
      OneFurther(h, root, fields[..i], fields[i], m);
    } else {
      assert fields[..i + 1][..e.k] == fields[..e.k];
      Nowhere(h, root, fields[..i + 1], e.k, e.at);
    }
  }

  lemma MakePartial<N>(h: Heap<N>, now: Heap<N>, fields: seq<string>, e: Effect<N>, cell: N)
    requires e.k + |e.made| < |fields| - 1 && Partial(h, now, fields, e) && cell !in now && e.at in h
    requires Distinct(e.made) && (forall j | 0 <= j < |e.made| :: e.made[j] !in h)
    requires e.made == [] ==> fields[e.k] !in h[e.at]
    requires Stop(e, |e.made|) in now
    ensures var m, f := Stop(e, |e.made|), fields[e.k + |e.made|];
      Partial(h, now[m := now[m][f := Sub(cell)]][cell := map[]], fields, e.(made := e.made + [cell]))
  {
    var m, f := Stop(e, |e.made|), fields[e.k + |e.made|];
    if e.made == [] {
      MakeFirst(h, fields, e, cell);
      assert e.made + [cell] == [cell];
    } else {
      assert now[m][f := Sub(cell)] == map[f := Sub(cell)];
      MakeNext(h, now, fields, e, cell);
    }
  }

  lemma ClosedWithNew<N>(now: Heap<N>, m: N, f: string, cell: N)
    requires Closed(now) && m in now && cell !in now
    ensures Closed(now[m := now[m][f := Sub(cell)]][cell := map[]])
  {
    var now': Heap<N> := now[m := now[m][f := Sub(cell)]][cell := map[]];
    forall n: N | n in now' ensures forall g: string | g in now'[n] && now'[n][g].Sub? :: now'[n][g].node in now' {
      if n in now {
        assert forall g | g in now[n] && now[n][g].Sub? :: now[n][g].node in now;
      }
    }
  }

  lemma NewIsOther<N>(h: Heap<N>, now: Heap<N>, fields: seq<string>, e: Effect<N>, cell: N)
    requires e.k + |e.made| < |fields| && Partial(h, now, fields, e) && cell !in now && Distinct(e.made)
    ensures Distinct(e.made + [cell]) && cell !in h
  {
    assert forall j | 0 <= j < |e.made| :: e.made[j] in e.made;
  }

  lemma Finish(h: Heap<MapCell>, now: Heap<MapCell>, root: MapCell, fields: seq<string>, value: Value<MapCell>,
      m: MapCell, e: Effect<MapCell>)
    requires fields != [] && Midway(h, now, root, fields, |fields| - 1, m, e) && (value.Sub? ==> value.node in h)
    ensures !Blocked(h, root, fields)
    ensures var h' := now[m := now[m][fields[|fields| - 1] := value]];
        HasSet(h, h', root, fields, value, e) && Closed(h')
  {
    assert fields[..|fields|] == fields;
    StaysClosed(now, m, fields[|fields| - 1], value);
    if e.made == [] {
      FinishOld(h, root, fields, value, e);
    } else {
      assert now[m][fields[|fields| - 1] := value] == map[fields[|fields| - 1] := value];
      FinishNew(h, now, root, fields, value, e);
    }
  }
}
