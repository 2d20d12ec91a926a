/**
 The ranking that the failover labels are for: the primary of an edge beats its backup, and the
 backup beats every other endpoint, whatever the other edges wrote before or after it.
 */
module Ranking {
  import opened Wrappers
  import opened Failover

  /** Istio's rank of a pod: how long a prefix of the ordered label list its labels match. */
  function Rank(order: seq<Label>, pod: map<string, string>): (r: nat)
    ensures r <= |order|
    ensures forall i | 0 <= i < r :: order[i].key in pod && pod[order[i].key] == order[i].value
    ensures r < |order| ==> !(order[r].key in pod && pod[order[r].key] == order[r].value)
  {
    if order == [] || !(order[0].key in pod && pod[order[0].key] == order[0].value) then 0
    else 1 + Rank(order[1..], pod)
  }

  /** The ordered label list of an edge's destination rule. */
  function Order(ls: Priorities, n: Names): seq<Label>
  {
    if n.from in ls && n.to in ls[n.from].source then ls[n.from].source[n.to] else []
  }

  ghost predicate Ranked(ls: Priorities, n: Names)
  {
    && Order(ls, n) != []
    && n.to in ls && Rank(Order(ls, n), ls[n.to].all) == |Order(ls, n)|
    && (n.backup.Some? ==>
          n.backup.value in ls && Rank(Order(ls, n), ls[n.backup.value].all) == 1 < |Order(ls, n)|)
    && forall x | x in ls && x != n.to && Some(x) != n.backup :: Rank(Order(ls, n), ls[x].all) == 0
  }

  /** The endpoints whose names go into the label keys of an edge. */
  predicate Labelled(n: Names, x: string)
  {
    x == n.to || Some(x) == n.backup
  }

  /** Joining and shortening names never makes one key out of two. */
  ghost predicate KeysDistinct(shorten: string -> string, ns: seq<Names>)
  {
    forall m, n, x, y | m in ns && n in ns && Labelled(m, x) && Labelled(n, y) ::
      LabelKey(shorten, m.from, x) == LabelKey(shorten, n.from, y) ==> m.from == n.from && x == y
  }

  /** Repeated edges between the same endpoints fall back to the same replica. */
  predicate SameBackup(ns: seq<Names>)
  {
    forall m, n | m in ns && n in ns && m.from == n.from && m.to == n.to :: m.backup == n.backup
  }

  /** No source has two targets that are each the other's backup. */
  predicate NoMutualBackups(ns: seq<Names>)
  {
    forall m, n | m in ns && n in ns && m.from == n.from :: !(m.backup == Some(n.to) && n.backup == Some(m.to))
  }

  ghost predicate WellFormed(ns: seq<Names>)
  {
    forall n | n in ns :: n.backup != Some(n.to)
  }

  // ----- What the edges write -----

  /** Edge `n` puts the label `key: value` on the pods called `x`. */
  ghost predicate Writes(shorten: string -> string, n: Names, x: string, key: string, value: string)
  {
    var primary := PrimaryLabel(shorten, n.from, n.to);
    || (Labelled(n, x) && Label(key, value) == primary)
    || (n.backup.Some? && x == n.to && Label(key, value) == BackupLabel(shorten, n.from, n.backup.value))
  }

  ghost predicate HasLabel(ls: Priorities, x: string, key: string)
  {
    x in ls && key in ls[x].all
  }

  /** A label after an edge was written by the edge or was there before. */
  lemma LabelOrigin(shorten: string -> string, ls: Priorities, n: Names, x: string, key: string)
    requires n.backup != Some(n.to)
    ensures HasLabel(AddEdge(shorten, ls, n), x, key) ==>
              || Writes(shorten, n, x, key, AddEdge(shorten, ls, n)[x].all[key])
              || (HasLabel(ls, x, key) && ls[x].all[key] == AddEdge(shorten, ls, n)[x].all[key])
  {
  }

  lemma LabelsStay(shorten: string -> string, ls: Priorities, n: Names, x: string, key: string)
    ensures HasLabel(ls, x, key) ==> HasLabel(AddEdge(shorten, ls, n), x, key)
  {
  }

  lemma LabelsArrive(shorten: string -> string, ls: Priorities, n: Names, x: string, key: string)
    ensures forall value :: Writes(shorten, n, x, key, value) ==> HasLabel(AddEdge(shorten, ls, n), x, key)
  {
  }

  lemma AddEdgePods(shorten: string -> string, ls: Priorities, n: Names, x: string, key: string)
    requires n.backup != Some(n.to)
    ensures var after := AddEdge(shorten, ls, n);
      && (HasLabel(after, x, key) ==>
            Writes(shorten, n, x, key, after[x].all[key])
                || (HasLabel(ls, x, key) && ls[x].all[key] == after[x].all[key]))
      && (HasLabel(ls, x, key) ==> HasLabel(after, x, key))
      && (forall value :: Writes(shorten, n, x, key, value) ==> HasLabel(after, x, key))
  {
    LabelOrigin(shorten, ls, n, x, key);
    LabelsStay(shorten, ls, n, x, key);
    LabelsArrive(shorten, ls, n, x, key);
  }

  /** Every pod label was written by some edge, and every label some edge wrote is there. */
  lemma {:induction false} PodLabels(shorten: string -> string, ns: seq<Names>, x: string, key: string)
    requires WellFormed(ns)
    ensures HasLabel(Derive(shorten, ns), x, key) ==>
              exists n | n in ns :: Writes(shorten, n, x, key, Derive(shorten, ns)[x].all[key])
    ensures forall n, value | n in ns && Writes(shorten, n, x, key, value) :: HasLabel(Derive(shorten, ns), x, key)
  {
    if ns != [] {
      var k := |ns| - 1;
      PodLabels(shorten, ns[..k], x, key);
      AddEdgePods(shorten, Derive(shorten, ns[..k]), ns[k], x, key);
      assert ns == ns[..k] + [ns[k]];
    }
  }

  /** The ordered labels that edge `n` contributes. */
  function OrderOf(shorten: string -> string, n: Names): seq<Label>
  {
    [PrimaryLabel(shorten, n.from, n.to)]
    + if n.backup.None? then [] else [BackupLabel(shorten, n.from, n.backup.value)]
  }

  function Orders(shorten: string -> string, ns: seq<Names>, from: string, to: string): seq<Label>
  {
    if ns == [] then []
    else
      var k := |ns| - 1;
      Orders(shorten, ns[..k], from, to)
      + if ns[k].from == from && ns[k].to == to then OrderOf(shorten, ns[k]) else []
  }

  lemma PodLabelKeepsOrder(ls: Priorities, x: string, l: Label, n: Names)
    requires x in ls
    ensures Order(AddPodLabel(ls, x, l), n) == Order(ls, n)
  {
  }

  lemma SourceExtendsOrder(ls: Priorities, from: string, to: string, l: Label, n: Names)
    requires from in ls
    ensures Order(AddSource(ls, from, to, l), n)
         == Order(ls, n) + if from == n.from && to == n.to then [l] else []
  {
  }

  lemma EnsureKeepsOrder(ls: Priorities, x: string, n: Names)
    ensures Order(Ensure(ls, x), n) == Order(ls, n)
  {
  }

  lemma AddEdgeOrder(shorten: string -> string, ls: Priorities, m: Names, n: Names)
    ensures Order(AddEdge(shorten, ls, m), n)
         == Order(ls, n) + if m.from == n.from && m.to == n.to then OrderOf(shorten, m) else []
  {
    EnsureKeepsOrder(ls, m.from, n);
    EnsureKeepsOrder(Ensure(ls, m.from), m.to, n);
    var ls1 := Ensure(Ensure(ls, m.from), m.to);
    var primary := PrimaryLabel(shorten, m.from, m.to);
    SourceExtendsOrder(ls1, m.from, m.to, primary, n);
    PodLabelKeepsOrder(AddSource(ls1, m.from, m.to, primary), m.to, primary, n);
    if m.backup.Some? {
      var ls2 := AddPodLabel(AddSource(ls1, m.from, m.to, primary), m.to, primary);
      var b, backup := m.backup.value, BackupLabel(shorten, m.from, m.backup.value);
      EnsureKeepsOrder(ls2, b, n);
      SourceExtendsOrder(Ensure(ls2, b), m.from, m.to, backup, n);
      var ls3 := AddSource(Ensure(ls2, b), m.from, m.to, backup);
      PodLabelKeepsOrder(ls3, m.to, backup, n);
      PodLabelKeepsOrder(AddPodLabel(ls3, m.to, backup), b, primary, n);
    }
  }

  /** A destination rule lists the labels of its own edges, in order, and nothing else. */
  lemma {:induction false} SourceLabels(shorten: string -> string, ns: seq<Names>, n: Names)
    ensures Order(Derive(shorten, ns), n) == Orders(shorten, ns, n.from, n.to)
  {
    if ns != [] {
      SourceLabels(shorten, ns[..|ns| - 1], n);
      AddEdgeOrder(shorten, Derive(shorten, ns[..|ns| - 1]), ns[|ns| - 1], n);
    }
  }

  lemma {:induction false} OneEdgeOrder(shorten: string -> string, ns: seq<Names>, i: nat)
    requires i < |ns|
    requires forall j | 0 <= j < |ns| && ns[j].from == ns[i].from && ns[j].to == ns[i].to :: j == i
    ensures Orders(shorten, ns, ns[i].from, ns[i].to) == OrderOf(shorten, ns[i])
  {
    var k := |ns| - 1;
    if i < k {
      OneEdgeOrder(shorten, ns[..k], i);
    } else {
      NoEdgeNoOrder(shorten, ns[..k], ns[i].from, ns[i].to);
    }
  }

  lemma {:induction false} NoEdgeNoOrder(shorten: string -> string, ns: seq<Names>, from: string, to: string)
    requires forall n | n in ns :: n.from != from || n.to != to
    ensures Orders(shorten, ns, from, to) == []
  {
    if ns != [] {
      assert ns[|ns| - 1] in ns;
      NoEdgeNoOrder(shorten, ns[..|ns| - 1], from, to);
    }
  }

  /**
   The rule of an edge that is alone between its two ends lists the label of its target and then,
   if the target's component has another placement, the one of the placement nearest to the source.
   */
  lemma RuleOfAnEdge(shorten: string -> string, cmpnts: seq<Component>, edges: seq<Edge>, i: nat)
    requires i < |edges|
    requires forall j | 0 <= j < |edges| && UniqueName(edges[j].from) == UniqueName(edges[i].from)
                          && UniqueName(edges[j].to) == UniqueName(edges[i].to) :: j == i
    ensures var e, ls := edges[i], Derive(shorten, AllNames(cmpnts, edges));
            var from, to := e.from.name + "-" + e.from.provider.name, e.to.name + "-" + e.to.provider.name;
            && from in ls && to in ls[from].source
            && var rule, primary := ls[from].source[to],
                   Label(shorten("failover/" + from + "-" + to), shorten(from + "-" + to));
      if forall c | c in cmpnts && c.name == e.to.name :: c.provider.name == e.to.provider.name
      then rule == [primary]
      else exists b | b in cmpnts && Nearest(cmpnts, e, b) ::
             var backup := b.name + "-" + b.provider.name;
             rule == [primary, Label(shorten("failover/" + from + "-" + backup),
                                     shorten(from + "-" + backup) + "-backup")]
  {
    var ns := AllNames(cmpnts, edges);
    SourceLabels(shorten, ns, ns[i]);
    OneEdgeOrder(shorten, ns, i);
    BackupIsNearest(cmpnts, edges[i]);
    var b := Backup(cmpnts, edges[i]);
    if b.Some? {
      assert ns[i].backup == Some(b.value.name + "-" + b.value.provider.name);
    }
  }

  lemma {:induction false} OrderShape(shorten: string -> string, ns: seq<Names>, from: string, to: string)
    ensures var order := Orders(shorten, ns, from, to);
            && (forall m | m in ns && m.from == from && m.to == to :: order != [])
            && (order != [] ==> order[0] == PrimaryLabel(shorten, from, to))
            && (forall l | l in order :: exists m | m in ns && m.from == from && m.to == to :: l in OrderOf(shorten, m))
  {
    if ns != [] {
      var k := |ns| - 1;
      assert ns == ns[..k] + [ns[k]];
      OrderShape(shorten, ns[..k], from, to);
    }
  }

  lemma {:induction false} BackupIsSecond(shorten: string -> string, ns: seq<Names>, n: Names)
    requires n.backup.Some?
    requires forall m | m in ns && m.from == n.from && m.to == n.to :: m.backup == n.backup
    ensures var order := Orders(shorten, ns, n.from, n.to);
            order != [] ==> |order| > 1 && order[1] == BackupLabel(shorten, n.from, n.backup.value)
  {
    if ns != [] {
      var k := |ns| - 1;
      assert ns == ns[..k] + [ns[k]];
      BackupIsSecond(shorten, ns[..k], n);
    }
  }

  // ----- Sufficient -----

  lemma BackupValueDiffers(shorten: string -> string, from: string, to: string)
    ensures PrimaryLabel(shorten, from, to).value != BackupLabel(shorten, from, to).value
  {
    assert |BackupLabel(shorten, from, to).value| == |PrimaryLabel(shorten, from, to).value| + 7;
  }

  /** Two edges that write the same label of the same pods write the same value. */
  lemma WritersAgree(shorten: string -> string, ns: seq<Names>, m: Names, n: Names,
                     x: string, key: string, v: string, w: string)
    requires WellFormed(ns) && KeysDistinct(shorten, ns) && NoMutualBackups(ns) && m in ns && n in ns
    requires Writes(shorten, m, x, key, v) && Writes(shorten, n, x, key, w)
    ensures v == w
  {
    var y := if Label(key, v) == PrimaryLabel(shorten, m.from, m.to) then m.to else m.backup.value;
    var z := if Label(key, w) == PrimaryLabel(shorten, n.from, n.to) then n.to else n.backup.value;
    assert key == LabelKey(shorten, m.from, y) == LabelKey(shorten, n.from, z);
    assert Labelled(m, y) && Labelled(n, z);
    assert m.from == n.from && y == z;
  }

  /** No edge destroys a label that another edge needs. */
  lemma LabelSurvives(shorten: string -> string, ns: seq<Names>, n: Names, x: string, l: Label)
    requires WellFormed(ns) && KeysDistinct(shorten, ns) && NoMutualBackups(ns) && n in ns
    requires Writes(shorten, n, x, l.key, l.value)
    ensures var ls := Derive(shorten, ns); HasLabel(ls, x, l.key) && ls[x].all[l.key] == l.value
  {
    PodLabels(shorten, ns, x, l.key);
    var m :| m in ns && Writes(shorten, m, x, l.key, Derive(shorten, ns)[x].all[l.key]);
    WritersAgree(shorten, ns, m, n, x, l.key, Derive(shorten, ns)[x].all[l.key], l.value);
  }

  /** The primary of an edge carries every label its destination rule lists. */
  lemma PrimaryMatchesAll(shorten: string -> string, ns: seq<Names>, n: Names)
    requires WellFormed(ns) && KeysDistinct(shorten, ns) && NoMutualBackups(ns) && n in ns
    ensures var ls := Derive(shorten, ns);
            && n.to in ls && Order(ls, n) != []
            && (forall l | l in Order(ls, n) :: l.key in ls[n.to].all && ls[n.to].all[l.key] == l.value)
            && Rank(Order(ls, n), ls[n.to].all) == |Order(ls, n)|
  {
    SourceLabels(shorten, ns, n);
    OrderShape(shorten, ns, n.from, n.to);
    var order := Orders(shorten, ns, n.from, n.to);
    LabelSurvives(shorten, ns, n, n.to, order[0]);
    forall l | l in order
      ensures var pod := Derive(shorten, ns)[n.to].all; l.key in pod && pod[l.key] == l.value
    {
      var m :| m in ns && m.from == n.from && m.to == n.to && l in OrderOf(shorten, m);
      OwnLabelSurvives(shorten, ns, m, l);
    }
  }

  lemma OwnLabelSurvives(shorten: string -> string, ns: seq<Names>, m: Names, l: Label)
    requires WellFormed(ns) && KeysDistinct(shorten, ns) && NoMutualBackups(ns) && m in ns && l in OrderOf(shorten, m)
    ensures var ls := Derive(shorten, ns); HasLabel(ls, m.to, l.key) && ls[m.to].all[l.key] == l.value
  {
    assert Writes(shorten, m, m.to, l.key, l.value);
    LabelSurvives(shorten, ns, m, m.to, l);
  }

  lemma OthersMatchNothing(shorten: string -> string, ns: seq<Names>, n: Names, x: string)
    requires WellFormed(ns) && KeysDistinct(shorten, ns) && SameBackup(ns) && n in ns
    requires x != n.to && Some(x) != n.backup
    ensures var ls := Derive(shorten, ns); x in ls ==> Rank(Order(ls, n), ls[x].all) == 0
  {
    var ls := Derive(shorten, ns);
    SourceLabels(shorten, ns, n);
    OrderShape(shorten, ns, n.from, n.to);
    var first := PrimaryLabel(shorten, n.from, n.to);
    if HasLabel(ls, x, first.key) {
      PodLabels(shorten, ns, x, first.key);
      var m :| m in ns && Writes(shorten, m, x, first.key, ls[x].all[first.key]);
      assert Labelled(n, n.to);
      if m.backup.Some? { assert Labelled(m, m.backup.value); }
      assert Labelled(m, m.to);
      BackupValueDiffers(shorten, n.from, n.to);
    }
  }

  lemma BackupMatchesFirst(shorten: string -> string, ns: seq<Names>, n: Names)
    requires WellFormed(ns) && KeysDistinct(shorten, ns) && SameBackup(ns) && NoMutualBackups(ns)
    requires n in ns && n.backup.Some?
    ensures var ls := Derive(shorten, ns);
            && n.backup.value in ls
            && Rank(Order(ls, n), ls[n.backup.value].all) == 1 < |Order(ls, n)|
  {
    var ls, b := Derive(shorten, ns), n.backup.value;
    SourceLabels(shorten, ns, n);
    OrderShape(shorten, ns, n.from, n.to);
    BackupIsSecond(shorten, ns, n);
    var order := Orders(shorten, ns, n.from, n.to);
    LabelSurvives(shorten, ns, n, b, order[0]);
    var second := BackupLabel(shorten, n.from, b);
    if HasLabel(ls, b, second.key) {
      PodLabels(shorten, ns, b, second.key);
      var m :| m in ns && Writes(shorten, m, b, second.key, ls[b].all[second.key]);
      assert Labelled(n, b) && Labelled(m, m.to);
      if m.backup.Some? { assert Labelled(m, m.backup.value); }
      BackupValueDiffers(shorten, n.from, b);
    }
  }

  // ----- Necessary -----

  /** One of two mutually backed-up targets has lost the label that made it the primary. */
  ghost predicate Overwritten(shorten: string -> string, ls: Priorities, m: Names, n: Names)
  {
    var p, q := PrimaryLabel(shorten, m.from, m.to), PrimaryLabel(shorten, n.from, n.to);
    || (HasLabel(ls, m.to, q.key) && ls[m.to].all[q.key] == q.value)
    || (HasLabel(ls, n.to, p.key) && ls[n.to].all[p.key] == p.value)
  }

  lemma {:induction false} MutualBackupsOverwrite(shorten: string -> string, ns: seq<Names>, all: seq<Names>, m: Names,
      n: Names)
    requires WellFormed(all) && KeysDistinct(shorten, all)
    requires m in all && n in all && m.from == n.from && m.backup == Some(n.to) && n.backup == Some(m.to)
    requires forall k | k in ns :: k in all
    requires m in ns || n in ns
    ensures Overwritten(shorten, Derive(shorten, ns), m, n)
  {
    var k := ns[|ns| - 1];
    var before := ns[..|ns| - 1];
    assert ns == before + [k];
    var p, q := PrimaryLabel(shorten, m.from, m.to), PrimaryLabel(shorten, n.from, n.to);
    var prior := Derive(shorten, before);
    if k != m && k != n {
      MutualBackupsOverwrite(shorten, before, all, m, n);
      OverwrittenStays(shorten, prior, all, k, m, n);
    }
  }

  /** No third edge puts either label right again. */
  lemma OverwrittenStays(shorten: string -> string, ls: Priorities, all: seq<Names>, k: Names, m: Names, n: Names)
    requires WellFormed(all) && KeysDistinct(shorten, all) && k in all && k != m && k != n
    requires m in all && n in all && m.from == n.from && m.backup == Some(n.to) && n.backup == Some(m.to)
    requires Overwritten(shorten, ls, m, n)
    ensures Overwritten(shorten, AddEdge(shorten, ls, k), m, n)
  {
    var p, q := PrimaryLabel(shorten, m.from, m.to), PrimaryLabel(shorten, n.from, n.to);
    AddEdgePods(shorten, ls, k, m.to, q.key);
    AddEdgePods(shorten, ls, k, n.to, p.key);
  }

  // ----- Exact -----

  /**
   After all edges are processed, every edge's ranking holds exactly when repeated edges agree on
   their backup and no source has two targets that back each other up.
   */
  lemma RankingExact(shorten: string -> string, ns: seq<Names>)
    requires WellFormed(ns) && KeysDistinct(shorten, ns)
    ensures (forall n | n in ns :: Ranked(Derive(shorten, ns), n)) <==> SameBackup(ns) && NoMutualBackups(ns)
  {
    var ls := Derive(shorten, ns);
    if SameBackup(ns) && NoMutualBackups(ns) {
      forall n | n in ns ensures Ranked(ls, n) {
        PrimaryMatchesAll(shorten, ns, n);
        if n.backup.Some? { BackupMatchesFirst(shorten, ns, n); }
        forall x | x in ls && x != n.to && Some(x) != n.backup ensures Rank(Order(ls, n), ls[x].all) == 0 {
          OthersMatchNothing(shorten, ns, n, x);
        }
      }
    }
    if forall n | n in ns :: Ranked(ls, n) {
      RankedSameBackup(ls, ns);
      forall m, n | m in ns && n in ns && m.from == n.from && m.backup == Some(n.to) && n.backup == Some(m.to)
        ensures false
      {
        RankedNotOverwritten(shorten, ns, m, n);
        RankedNotOverwritten(shorten, ns, n, m);
        MutualBackupsOverwrite(shorten, ns, ns, m, n);
      }
    }
  }

  lemma RankedSameBackup(ls: Priorities, ns: seq<Names>)
    requires forall n | n in ns :: Ranked(ls, n)
    ensures SameBackup(ns)
  {
    forall m, n | m in ns && n in ns && m.from == n.from && m.to == n.to
      ensures m.backup == n.backup
    {
      RankedBackup(ls, m, n);
    }
  }

  /** Of one ordered label list, only the backup matches exactly the first label. */
  lemma RankedBackup(ls: Priorities, m: Names, n: Names)
    requires Ranked(ls, m) && Ranked(ls, n) && m.from == n.from && m.to == n.to
    ensures m.backup == n.backup
  {
    assert Order(ls, m) == Order(ls, n);
  }

  lemma RankedNotOverwritten(shorten: string -> string, ns: seq<Names>, m: Names, n: Names)
    requires m in ns && m.from == n.from && m.backup == Some(n.to)
    requires forall k | k in ns :: Ranked(Derive(shorten, ns), k)
    ensures var ls, q := Derive(shorten, ns), PrimaryLabel(shorten, n.from, n.to);
            HasLabel(ls, m.to, q.key) ==> ls[m.to].all[q.key] != q.value
  {
    var ls := Derive(shorten, ns);
    RankedSameBackup(ls, ns);
    SourceLabels(shorten, ns, m);
    BackupIsSecond(shorten, ns, m);
    BackupValueDiffers(shorten, m.from, n.to);
    assert Ranked(ls, m);
  }

  // ----- The entries of the rules -----

  /** Every label that the rule of an edge lists is on the pods of the edge's target. */
  ghost predicate EntriesThere(ls: Priorities, n: Names)
  {
    n.to in ls && forall l | l in Order(ls, n) :: l.key in ls[n.to].all && ls[n.to].all[l.key] == l.value
  }

  lemma {:induction false} OrdersContain(shorten: string -> string, ns: seq<Names>, n: Names)
    requires n in ns
    ensures forall l | l in OrderOf(shorten, n) :: l in Orders(shorten, ns, n.from, n.to)
  {
    var k := |ns| - 1;
    assert ns == ns[..k] + [ns[k]];
    if n != ns[k] {
      OrdersContain(shorten, ns[..k], n);
    }
  }

  lemma OverwrittenEntry(shorten: string -> string, ns: seq<Names>, m: Names, n: Names)
    requires m in ns && m.from == n.from && m.backup == Some(n.to)
    requires var ls, q := Derive(shorten, ns), PrimaryLabel(shorten, n.from, n.to);
      HasLabel(ls, m.to, q.key) && ls[m.to].all[q.key] == q.value
    ensures !EntriesThere(Derive(shorten, ns), m)
  {
    SourceLabels(shorten, ns, m);
    OrdersContain(shorten, ns, m);
    var l := BackupLabel(shorten, m.from, n.to);
    assert OrderOf(shorten, m)[1] == l;
    assert l in Order(Derive(shorten, ns), m);
    BackupValueDiffers(shorten, m.from, n.to);
  }

  /** Every rule entry of every edge is on the pods of its target exactly when no targets back each other up. */
  lemma EntriesExact(shorten: string -> string, ns: seq<Names>)
    requires WellFormed(ns) && KeysDistinct(shorten, ns)
    ensures (forall n | n in ns :: EntriesThere(Derive(shorten, ns), n)) <==> NoMutualBackups(ns)
  {
    if NoMutualBackups(ns) {
      forall n | n in ns ensures EntriesThere(Derive(shorten, ns), n) {
        PrimaryMatchesAll(shorten, ns, n);
      }
    } else {
      var m, n :| m in ns && n in ns && m.from == n.from && m.backup == Some(n.to) && n.backup == Some(m.to);
      LostEntry(shorten, ns, m, n);
    }
  }

  lemma LostEntry(shorten: string -> string, ns: seq<Names>, m: Names, n: Names)
    requires WellFormed(ns) && KeysDistinct(shorten, ns)
    requires m in ns && n in ns && m.from == n.from && m.backup == Some(n.to) && n.backup == Some(m.to)
    ensures !EntriesThere(Derive(shorten, ns), m) || !EntriesThere(Derive(shorten, ns), n)
  {
    var ls, p, q := Derive(shorten, ns), PrimaryLabel(shorten, m.from, m.to), PrimaryLabel(shorten, n.from, n.to);
    MutualBackupsOverwrite(shorten, ns, ns, m, n);
    if HasLabel(ls, m.to, q.key) && ls[m.to].all[q.key] == q.value {
      OverwrittenEntry(shorten, ns, m, n);
    } else {
      OverwrittenEntry(shorten, ns, n, m);
    }
  }

  /** Component names can be read off unique names. */
  ghost predicate UnambiguousNames(cmpnts: seq<Component>, edges: seq<Edge>)
  {
    var cs := cmpnts + seq(|edges|, i requires 0 <= i < |edges| => edges[i].to);
    forall a, b | a in cs && b in cs :: UniqueName(a) == UniqueName(b) ==> a.name == b.name
  }

  /** One edge per source and target component is enough for every ranking to hold. */
  lemma OneEdgePerTargetComponent(cmpnts: seq<Component>, edges: seq<Edge>, shorten: string -> string)
    requires UnambiguousNames(cmpnts, edges)
    requires forall i, j | 0 <= i < |edges| && 0 <= j < |edges|
               && UniqueName(edges[i].from) == UniqueName(edges[j].from)
                   && edges[i].to.name == edges[j].to.name :: i == j
    requires KeysDistinct(shorten, AllNames(cmpnts, edges))
    ensures var ns := AllNames(cmpnts, edges); forall n | n in ns :: Ranked(Derive(shorten, ns), n)
  {
    var ns := AllNames(cmpnts, edges);
    var cs := cmpnts + seq(|edges|, i requires 0 <= i < |edges| => edges[i].to);
    forall m, n | m in ns && n in ns && m.from == n.from
      ensures m.to == n.to ==> m.backup == n.backup
      ensures !(m.backup == Some(n.to) && n.backup == Some(m.to))
    {
      var i :| 0 <= i < |edges| && ns[i] == m;
      var j :| 0 <= j < |edges| && ns[j] == n;
      BackupIsNearest(cmpnts, edges[i]);
      assert cs[|cmpnts| + i] == edges[i].to && cs[|cmpnts| + j] == edges[j].to;
      assert m.to == n.to ==> edges[i].to.name == edges[j].to.name;
      if Backup(cmpnts, edges[i]).Some? {
        var b := Backup(cmpnts, edges[i]).value;
        assert b in cs && (UniqueName(b) == n.to ==> b.name == edges[j].to.name);
      }
    }
    assert NoMutualBackups(ns) && SameBackup(ns);
    RankingExact(shorten, ns);
  }

  lemma PrefixCancels(p: string, a: string, b: string)
    requires p + a == p + b
    ensures a == b
  {
    assert (p + a)[|p|..] == a && (p + b)[|p|..] == b;
  }

  /** A ranked edge has every entry of its rule on the pods of its target. */
  lemma RankedEntries(ls: Priorities, n: Names)
    requires Ranked(ls, n)
    ensures EntriesThere(ls, n)
  {
    var order := Order(ls, n);
    forall l | l in order ensures l.key in ls[n.to].all && ls[n.to].all[l.key] == l.value {
      var i :| 0 <= i < |order| && order[i] == l;
    }
  }

  /** Of two edges of one source whose targets back each other up one is not ranked, whatever the other edges are. */
  lemma MutualBackupsBreakRanking(shorten: string -> string, ns: seq<Names>, m: Names, n: Names)
    requires WellFormed(ns) && KeysDistinct(shorten, ns)
    requires m in ns && n in ns && m.from == n.from && m.backup == Some(n.to) && n.backup == Some(m.to)
    ensures !Ranked(Derive(shorten, ns), m) || !Ranked(Derive(shorten, ns), n)
  {
    var ls := Derive(shorten, ns);
    LostEntry(shorten, ns, m, n);
    if Ranked(ls, m) { RankedEntries(ls, m); }
    if Ranked(ls, n) { RankedEntries(ls, n); }
  }

  /** Unshortened, the keys of one source are distinct. */
  lemma OneSourceKeysDistinct(shorten: string -> string, from: string, ns: seq<Names>)
    requires forall k :: shorten(k) == k
    requires forall n | n in ns :: n.from == from
    ensures KeysDistinct(shorten, ns)
  {
    forall u, v | LabelKey(shorten, from, u) == LabelKey(shorten, from, v) ensures u == v {
      PrefixCancels("failover/" + from + "-", u, v);
    }
  }

  /** The component that `x` is a placement of is placed on the providers of `x` and `y` only. */
  predicate TwoPlacements(cmpnts: seq<Component>, x: Component, y: Component)
  {
    && x in cmpnts && y in cmpnts && x.name == y.name && x.provider.name != y.provider.name
    && forall c | c in cmpnts && c.name == x.name ::
        c.provider.name == x.provider.name || c.provider.name == y.provider.name
  }

  lemma OtherPlacementIsBackup(cmpnts: seq<Component>, e: Edge, other: Component)
    requires TwoPlacements(cmpnts, e.to, other)
    ensures NamesOf(cmpnts, e).backup == Some(UniqueName(other))
  {
    BackupIsNearest(cmpnts, e);
  }

  /** In every plan: a source with edges to both placements of a component with only two has one that is not ranked. */
  lemma TwoReplicasBreakRanking(cmpnts: seq<Component>, edges: seq<Edge>, shorten: string -> string, e: Edge, f: Edge)
    requires e in edges && f in edges && UniqueName(e.from) == UniqueName(f.from) && TwoPlacements(cmpnts, e.to, f.to)
    requires KeysDistinct(shorten, AllNames(cmpnts, edges))
    ensures var ls := Derive(shorten, AllNames(cmpnts, edges));
            !Ranked(ls, NamesOf(cmpnts, e)) || !Ranked(ls, NamesOf(cmpnts, f))
  {
    var ns := AllNames(cmpnts, edges);
    var i :| 0 <= i < |edges| && edges[i] == e;
    var j :| 0 <= j < |edges| && edges[j] == f;
    assert ns[i] in ns && ns[j] in ns;
    OtherPlacementIsBackup(cmpnts, e, f.to);
    OtherPlacementIsBackup(cmpnts, f, e.to);
    MutualBackupsBreakRanking(shorten, ns, ns[i], ns[j]);
  }

  /** The smallest such plan, with keys that are distinct because nothing shortens them. */
  lemma TwoReplicasExample(from: Component, x: Component, y: Component)
    requires x.name == y.name && x.provider.name != y.provider.name && from.name != x.name
    ensures var ns := AllNames([from, x, y], [Edge(from, x), Edge(from, y)]);
            !(forall n | n in ns :: Ranked(Derive(k => k, ns), n))
  {
    var cs, edges, shorten := [from, x, y], [Edge(from, x), Edge(from, y)], (k: string) => k;
    var ns := AllNames(cs, edges);
    OneSourceKeysDistinct(shorten, UniqueName(from), ns);
    assert x in cs && y in cs && edges[0] in edges && edges[1] in edges && ns[0] in ns && ns[1] in ns;
    TwoReplicasBreakRanking(cs, edges, shorten, edges[0], edges[1]);
  }

  /** An edge whose first label another edge gives to an endpoint outside its own failover is not ranked. */
  lemma SharedLabelBreaksRanking(shorten: string -> string, ns: seq<Names>, m: Names, n: Names)
    requires WellFormed(ns) && m in ns && n in ns && n.to != m.to && Some(n.to) != m.backup
    requires PrimaryLabel(shorten, m.from, m.to) == PrimaryLabel(shorten, n.from, n.to)
    requires forall k, v | k in ns && Writes(shorten, k, n.to, LabelKey(shorten, m.from, m.to), v) ::
               v == LabelValue(shorten, m.from, m.to)
    ensures !Ranked(Derive(shorten, ns), m)
  {
    var ls, first := Derive(shorten, ns), PrimaryLabel(shorten, m.from, m.to);
    assert Writes(shorten, n, n.to, first.key, first.value);
    PodLabels(shorten, ns, n.to, first.key);
    SourceLabels(shorten, ns, m);
    OrderShape(shorten, ns, m.from, m.to);
    assert Rank(Order(ls, m), ls[n.to].all) > 0;
  }

  /**
   Why the keys must be distinct: when two edges share a key, the target of one takes part in the
   failover of the other, although both other conditions hold.
   */
  lemma SharedKeyBreaksRanking(shorten: string -> string, m: Names, n: Names)
    requires m.from != n.from && n.to != m.to && Some(n.to) != m.backup
    requires m.backup != Some(m.to) && n.backup != Some(n.to)
    requires PrimaryLabel(shorten, m.from, m.to) == PrimaryLabel(shorten, n.from, n.to)
    requires n.backup.Some? ==> LabelKey(shorten, n.from, n.backup.value) != LabelKey(shorten, n.from, n.to)
    ensures SameBackup([m, n]) && NoMutualBackups([m, n]) && !Ranked(Derive(shorten, [m, n]), m)
  {
    SharedLabelBreaksRanking(shorten, [m, n], m, n);
  }

  /** Such edges exist: `a` on `p` calling `x` on `x-q`, and `a` on `p-x` calling `x` on `q`. */
  lemma NamesCanCollide()
    ensures var a1 := Component("", "a", Provider("p", "", "", ""));
            var a2 := Component("", "a", Provider("p-x", "", "", ""));
            var x1 := Component("", "x", Provider("x-q", "", "", ""));
            var x2 := Component("", "x", Provider("q", "", "", ""));
            && UniqueName(a1) + "-" + UniqueName(x1) == UniqueName(a2) + "-" + UniqueName(x2) == "a-p-x-x-q"
            && UniqueName(a1) != UniqueName(a2)
  {
  }
}
