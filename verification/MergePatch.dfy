/**
 JSON merge patches (RFC 7396, section 2), which is what `client.MergeFrom` sends. The machine of the
 protocol patches references field by field; here it is shown that this is what the patches do.
 */
module MergePatch {
  import opened Protocol

  /** A JSON value; everything but objects and null is a scalar, arrays included. */
  datatype Json = Null | Scalar(text: string) | Obj(fields: map<string, Json>)

  function Fields(j: Json): map<string, Json>
  {
    if j.Obj? then j.fields else map[]
  }

  function Get(j: Json, k: string): Json
  {
    if k in Fields(j) then Fields(j)[k] else Null
  }

  /** The procedure of RFC 7396, section 2. */
  function Apply(target: Json, patch: Json): Json
    decreases patch
  {
    if !patch.Obj? then patch
    else
      Obj(map k | k in Fields(target).Keys + patch.fields.Keys && !(k in patch.fields && patch.fields[k] == Null)
            :: if k in patch.fields then Apply(Get(target, k), patch.fields[k]) else Fields(target)[k])
  }

  /** Whether the patch from `o` to `m` says something about `k`. */
  predicate Mentions(o: Json, m: Json, k: string)
    requires o.Obj? && m.Obj? && k in o.fields.Keys + m.fields.Keys
    decreases m, 0
  {
    if k !in m.fields || k !in o.fields then true
    else if o.fields[k].Obj? && m.fields[k].Obj? then Diff(o.fields[k], m.fields[k]) != Obj(map[])
    else o.fields[k] != m.fields[k]
  }

  /** The patch that leads from the object `o` to the object `m`. */
  function Diff(o: Json, m: Json): (p: Json)
    requires o.Obj? && m.Obj?
    ensures p.Obj?
    decreases m, 1
  {
    Obj(map k | k in o.fields.Keys + m.fields.Keys && Mentions(o, m, k)
          :: if k !in m.fields then Null
             else if k in o.fields && o.fields[k].Obj? && m.fields[k].Obj? then Diff(o.fields[k], m.fields[k])
             else m.fields[k])
  }

  /** No null inside: stored objects have none. */
  predicate NullFree(j: Json)
  {
    match j
    case Null => false
    case Scalar(_) => true
    case Obj(fs) => forall k | k in fs :: NullFree(fs[k])
  }

  lemma {:induction false} ApplyToNothing(target: Json, m: Json)
    requires NullFree(m) && !target.Obj?
    ensures Apply(target, m) == m
    decreases m
  {
    if m.Obj? {
      forall k | k in m.fields ensures Apply(Get(target, k), m.fields[k]) == m.fields[k] {
        ApplyToNothing(Null, m.fields[k]);
      }
      assert Fields(target) == map[];
      assert Apply(target, m).fields == m.fields;
    }
  }

  /** The result at one key. */
  lemma ApplyAt(target: Json, patch: Json, k: string)
    requires patch.Obj?
    ensures var r := Apply(target, patch);
      && r.Obj?
      && (k in r.fields <==> if k in patch.fields then patch.fields[k] != Null else k in Fields(target))
      && (k in r.fields ==> r.fields[k] == if k in patch.fields then Apply(Get(target, k), patch.fields[k])
          else Fields(target)[k])
  {
  }

  /** A field that is new or of another shape arrives as it is. */
  lemma ApplyReplaces(o: Json, m: Json)
    requires NullFree(m) && !(o.Obj? && m.Obj?)
    ensures Apply(o, m) == m
  {
    if m.Obj? {
      ApplyToNothing(o, m);
    }
  }

  /** Applied to the object it was computed from, a patch gives the object it was computed for. */
  lemma {:induction false} ApplyDiff(o: Json, m: Json)
    requires o.Obj? && m.Obj? && NullFree(o) && NullFree(m)
    ensures Apply(o, Diff(o, m)) == m
    decreases m
  {
    var p := Diff(o, m);
    var r := Apply(o, p);
    forall k ensures k in r.fields <==> k in m.fields
      ensures k in m.fields ==> r.fields[k] == m.fields[k]
    {
      ApplyAt(o, p, k);
      if k in m.fields {
        ApplyDiffAt(o, m, k);
      } else if k in o.fields {
        assert Mentions(o, m, k) && p.fields[k] == Null;
      }
    }
    assert r.fields == m.fields;
  }

  lemma {:induction false} ApplyDiffAt(o: Json, m: Json, k: string)
    requires o.Obj? && m.Obj? && NullFree(o) && NullFree(m) && k in m.fields
    ensures k in Apply(o, Diff(o, m)).fields && Apply(o, Diff(o, m)).fields[k] == m.fields[k]
    decreases m, 0
  {
    var p := Diff(o, m);
    ApplyAt(o, p, k);
    if k in o.fields && o.fields[k].Obj? && m.fields[k].Obj? {
      ApplyDiff(o.fields[k], m.fields[k]);
      if k !in p.fields {
        ApplyEmpty(o.fields[k]);
      }
    } else if k in p.fields {
      ApplyReplaces(Get(o, k), m.fields[k]);
    }
  }

  lemma ApplyEmpty(o: Json)
    requires o.Obj?
    ensures Apply(o, Obj(map[])) == o
  {
    assert Apply(o, Obj(map[])).fields == o.fields;
  }

  /**
   The patch from an object to itself is empty: a copy taken after the change, as the Image controller
   takes it of the ProviderProfile it annotates, sends nothing, and nothing changes on the server.
   */
  lemma {:induction false} DiffOfItself(o: Json)
    requires o.Obj?
    ensures Diff(o, o) == Obj(map[])
    decreases o
  {
    forall k | k in o.fields.Keys + o.fields.Keys ensures !Mentions(o, o, k) {
      if o.fields[k].Obj? {
        DiffOfItself(o.fields[k]);
      }
    }
    assert Diff(o, o).fields == map[];
  }

  lemma LateCopySendsNothing(stored: Json, changed: Json)
    requires stored.Obj? && changed.Obj?
    ensures Apply(stored, Diff(changed, changed)) == stored
  {
    DiffOfItself(changed);
    ApplyEmpty(stored);
  }

  // ----- Two writers -----

  /** Patches that never speak about the same field, except to go into it. */
  predicate Apart(p: Json, q: Json)
    decreases p
  {
    && p.Obj? && q.Obj?
    && forall k | k in p.fields && k in q.fields :: Apart(p.fields[k], q.fields[k])
  }

  lemma {:induction false} ApartSymmetric(p: Json, q: Json)
    requires Apart(p, q)
    ensures Apart(q, p)
    decreases p
  {
    forall k | k in p.fields && k in q.fields ensures Apart(q.fields[k], p.fields[k]) {
      ApartSymmetric(p.fields[k], q.fields[k]);
    }
  }

  /** Such patches commute: neither overwrites the other, in whatever order they arrive. */
  lemma {:induction false} ApartCommute(s: Json, p: Json, q: Json)
    requires Apart(p, q)
    ensures Apply(Apply(s, p), q) == Apply(Apply(s, q), p)
    decreases p
  {
    var a, b := Apply(Apply(s, p), q), Apply(Apply(s, q), p);
    forall k ensures k in a.fields <==> k in b.fields
      ensures k in a.fields ==> a.fields[k] == b.fields[k]
    {
      ApplyAt(s, p, k);
      ApplyAt(s, q, k);
      ApplyAt(Apply(s, p), q, k);
      ApplyAt(Apply(s, q), p, k);
      if k in p.fields && k in q.fields {
        ApartCommute(Get(s, k), p.fields[k], q.fields[k]);
      }
    }
    assert a.fields == b.fields;
  }

  // ----- The references of an ILPTask -----

  /** An empty string is left out. */
  function Text(k: string, v: string): map<string, Json>
  {
    if v == "" then map[] else map[k := Scalar(v)]
  }

  /**
   Versions are numbers in the machine and decimal strings on the server; `show` writes them, 0 as the
   empty string.
   */
  ghost predicate Injective(show: nat -> string)
  {
    show(0) == "" && forall v, w :: show(v) == show(w) ==> v == w
  }

  function EncodeRef(r: Ref, show: nat -> string): Json
  {
    Obj(Text("name", r.name) + Text("resourceVersion", show(r.version)))
  }

  /** The value of a field of an encoded reference; empty if it is left out. */
  function Part(r: Ref, show: nat -> string, k: string): string
  {
    if k == "name" then r.name else if k == "resourceVersion" then show(r.version) else ""
  }

  lemma RefField(r: Ref, show: nat -> string, k: string)
    ensures k in EncodeRef(r, show).fields <==> Part(r, show, k) != ""
    ensures k in EncodeRef(r, show).fields ==> EncodeRef(r, show).fields[k] == Scalar(Part(r, show, k))
  {
    assert "name"[0] != "resourceVersion"[0];
  }

  /** A patch between two objects of scalars, applied to a third, at a key that the new one has. */
  lemma ScalarPatch(s: Json, o: Json, m: Json, k: string)
    requires s.Obj? && o.Obj? && m.Obj? && k in m.fields && m.fields[k].Scalar?
    ensures var r := Apply(s, Diff(o, m));
      && r.Obj?
      && (k in o.fields && o.fields[k] == m.fields[k]
          ==> (k in r.fields <==> k in s.fields) && (k in r.fields ==> r.fields[k] == s.fields[k]))
      && (!(k in o.fields && o.fields[k] == m.fields[k]) ==> k in r.fields && r.fields[k] == m.fields[k])
  {
    ApplyAt(s, Diff(o, m), k);
  }

  lemma RefPatchAt(stored: Ref, orig: Ref, wanted: Ref, show: nat -> string, k: string)
    requires Injective(show) && wanted.name != "" && wanted.version != 0 && (k == "name" || k == "resourceVersion")
    ensures var r, e := Apply(EncodeRef(stored, show), Diff(EncodeRef(orig, show), EncodeRef(wanted, show))),
        EncodeRef(MergeRef(stored, orig, wanted), show);
      && (k in Fields(r) <==> k in e.fields)
      && (k in Fields(r) ==> Fields(r)[k] == e.fields[k])
  {
    RefField(stored, show, k);
    RefField(orig, show, k);
    RefField(wanted, show, k);
    RefField(MergeRef(stored, orig, wanted), show, k);
    assert Part(wanted, show, k) != "";
    ScalarPatch(EncodeRef(stored, show), EncodeRef(orig, show), EncodeRef(wanted, show), k);
  }

  lemma NoOtherFields(stored: Ref, orig: Ref, wanted: Ref, show: nat -> string, k: string)
    requires k != "name" && k != "resourceVersion"
    ensures k !in Fields(Apply(EncodeRef(stored, show), Diff(EncodeRef(orig, show), EncodeRef(wanted, show))))
  {
    RefField(stored, show, k);
    RefField(orig, show, k);
    RefField(wanted, show, k);
    ApplyAt(EncodeRef(stored, show), Diff(EncodeRef(orig, show), EncodeRef(wanted, show)), k);
  }

  /** On a reference, the merge patch from the copy to the wanted reference does what the machine does. */
  lemma RefPatch(stored: Ref, orig: Ref, wanted: Ref, show: nat -> string)
    requires Injective(show) && wanted.name != "" && wanted.version != 0
    ensures Apply(EncodeRef(stored, show), Diff(EncodeRef(orig, show), EncodeRef(wanted, show)))
         == EncodeRef(MergeRef(stored, orig, wanted), show)
  {
    var r := Apply(EncodeRef(stored, show), Diff(EncodeRef(orig, show), EncodeRef(wanted, show)));
    var e := EncodeRef(MergeRef(stored, orig, wanted), show);
    forall k ensures k in r.fields <==> k in e.fields
      ensures k in r.fields ==> r.fields[k] == e.fields[k]
    {
      if k == "name" || k == "resourceVersion" {
        RefPatchAt(stored, orig, wanted, show, k);
      } else {
        NoOtherFields(stored, orig, wanted, show, k);
        RefField(MergeRef(stored, orig, wanted), show, k);
      }
    }
    assert r.fields == e.fields;
  }

  // ----- The whole ILPTask -----

  function KeyOf(side: Side): string
  {
    if side == Dataflow then "dataflowPolicyRef" else "deploymentPlanRef"
  }

  /** The spec of an ILPTask. */
  function EncodeSpec(t: Task, show: nat -> string): Json
  {
    Obj(map[KeyOf(Dataflow) := EncodeRef(t.df, show), KeyOf(Deployment) := EncodeRef(t.dp, show)])
  }

  lemma KeysDiffer()
    ensures KeyOf(Dataflow) != KeyOf(Deployment)
  {
    assert KeyOf(Dataflow)[1] != KeyOf(Deployment)[1];
  }

  lemma SpecField(t: Task, show: nat -> string, side: Side)
    ensures KeyOf(side) in EncodeSpec(t, show).fields
        && EncodeSpec(t, show).fields[KeyOf(side)] == EncodeRef(RefOf(t, side), show)
    ensures EncodeSpec(t, show).fields.Keys == {KeyOf(Dataflow), KeyOf(Deployment)}
  {
    KeysDiffer();
  }

  /** The patch speaks of its own side only. */
  lemma SpecPatchAt(stored: Task, orig: Task, side: Side, wanted: Ref, show: nat -> string, at: Side)
    requires Injective(show) && wanted.name != "" && wanted.version != 0
    ensures var r := Apply(EncodeSpec(stored, show),
        Diff(EncodeSpec(orig, show), EncodeSpec(WithRef(orig, side, wanted), show)));
      && KeyOf(at) in Fields(r)
      && Fields(r)[KeyOf(at)] == EncodeRef(if at == side then MergeRef(RefOf(stored, side), RefOf(orig, side), wanted)
          else RefOf(stored, at), show)
  {
    var m := WithRef(orig, side, wanted);
    SpecField(stored, show, at);
    SpecField(orig, show, at);
    SpecField(m, show, at);
    var s, o, n := EncodeSpec(stored, show), EncodeSpec(orig, show), EncodeSpec(m, show);
    ApplyAt(s, Diff(o, n), KeyOf(at));
    if at == side {
      RefPatch(RefOf(stored, side), RefOf(orig, side), wanted, show);
      ApplyEmpty(EncodeRef(RefOf(stored, side), show));
    } else {
      DiffOfItself(EncodeRef(RefOf(orig, at), show));
    }
  }

  /** Between objects with the same keys and no null, a patch has no null, so it adds and removes no key. */
  lemma SameKeys(s: Json, o: Json, n: Json)
    requires s.Obj? && o.Obj? && n.Obj? && s.fields.Keys == o.fields.Keys == n.fields.Keys
    requires forall k | k in n.fields :: n.fields[k] != Null
    ensures Fields(Apply(s, Diff(o, n))).Keys == s.fields.Keys
  {
    forall k ensures k in Fields(Apply(s, Diff(o, n))) <==> k in s.fields {
      ApplyAt(s, Diff(o, n), k);
    }
  }

  lemma SpecsEqual(r: Json, t: Task, show: nat -> string)
    requires Fields(r).Keys == {KeyOf(Dataflow), KeyOf(Deployment)} && r.Obj?
    requires r.fields[KeyOf(Dataflow)] == EncodeRef(t.df, show) && r.fields[KeyOf(Deployment)] == EncodeRef(t.dp, show)
    ensures r == EncodeSpec(t, show)
  {
    KeysDiffer();
    assert r.fields == EncodeSpec(t, show).fields;
  }

  /**
   A policy controller's merge patch does to the stored ILPTask what the protocol's machine says: its
   own reference is set where it differs from the copy, and the other half of the spec stays.
   */
  lemma SpecPatch(stored: Task, orig: Task, side: Side, wanted: Ref, show: nat -> string)
    requires Injective(show) && wanted.name != "" && wanted.version != 0
    ensures Apply(EncodeSpec(stored, show), Diff(EncodeSpec(orig, show), EncodeSpec(WithRef(orig, side, wanted), show)))
         == EncodeSpec(PatchRef(stored, side, orig, wanted), show)
  {
    var s, o, n := EncodeSpec(stored, show), EncodeSpec(orig, show), EncodeSpec(WithRef(orig, side, wanted), show);
    SpecPatchAt(stored, orig, side, wanted, show, Dataflow);
    SpecPatchAt(stored, orig, side, wanted, show, Deployment);
    SpecField(stored, show, side);
    SpecField(orig, show, side);
    SpecField(WithRef(orig, side, wanted), show, side);
    SameKeys(s, o, n);
    SpecsEqual(Apply(s, Diff(o, n)), PatchRef(stored, side, orig, wanted), show);
  }

  function SidePatch(orig: Task, side: Side, wanted: Ref, show: nat -> string): Json
  {
    Diff(EncodeSpec(orig, show), EncodeSpec(WithRef(orig, side, wanted), show))
  }

  lemma PatchKeys(orig: Task, side: Side, wanted: Ref, show: nat -> string)
    ensures SidePatch(orig, side, wanted, show).fields.Keys <= {KeyOf(side)}
  {
    var o, n := EncodeSpec(orig, show), EncodeSpec(WithRef(orig, side, wanted), show);
    var other := Other(side);
    SpecField(orig, show, side);
    SpecField(orig, show, other);
    SpecField(WithRef(orig, side, wanted), show, side);
    SpecField(WithRef(orig, side, wanted), show, other);
    DiffOfItself(EncodeRef(RefOf(orig, other), show));
    assert !Mentions(o, n, KeyOf(other));
  }

  /** How a task is stored: each policy's name and version under the field of its side. */
  lemma EncodedSpec(t: Task, show: nat -> string)
    requires Injective(show) && t.df.name != "" && t.df.version != 0 && t.dp.name != "" && t.dp.version != 0
    ensures EncodeSpec(t, show) == Obj(map[
      "dataflowPolicyRef" := Obj(map["name" := Scalar(t.df.name), "resourceVersion" := Scalar(show(t.df.version))]),
      "deploymentPlanRef" := Obj(map["name" := Scalar(t.dp.name), "resourceVersion" := Scalar(show(t.dp.version))])])
  {
    EncodedRef(t.df, show);
    EncodedRef(t.dp, show);
  }

  lemma EncodedRef(r: Ref, show: nat -> string)
    requires Injective(show) && r.name != "" && r.version != 0
    ensures EncodeRef(r, show) == Obj(map["name" := Scalar(r.name), "resourceVersion" := Scalar(show(r.version))])
  {
    assert show(r.version) != show(0);
    assert "name"[0] != "resourceVersion"[0];
  }

  /** With the copy it was made from still stored, a side's patch sets the reference to its policy and nothing else. */
  lemma OwnFieldIsWritten(t: Task, side: Side, wanted: Ref, show: nat -> string)
    requires Injective(show) && wanted.name != "" && wanted.version != 0
    ensures Apply(EncodeSpec(t, show), SidePatch(t, side, wanted, show))
         == EncodeSpec(if side == Dataflow then t.(df := wanted) else t.(dp := wanted), show)
  {
    SpecPatch(t, t, side, wanted, show);
  }

  /** The two policy controllers' patches commute, whatever copies they were computed from. */
  lemma PatchesCommute(s: Json, orig: Task, wanted: Ref, orig': Task, wanted': Ref, show: nat -> string)
    ensures var p, q := SidePatch(orig, Dataflow, wanted, show), SidePatch(orig', Deployment, wanted', show);
      Apply(Apply(s, p), q) == Apply(Apply(s, q), p)
  {
    PatchKeys(orig, Dataflow, wanted, show);
    PatchKeys(orig', Deployment, wanted', show);
    KeysDiffer();
    ApartCommute(s, SidePatch(orig, Dataflow, wanted, show), SidePatch(orig', Deployment, wanted', show));
  }
}
