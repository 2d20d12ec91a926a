/**
 The Istio objects and the pod templates of a deployment plan (`generateIstioConfig`,
 `generateDeployManifests`), and that what the first refer to exists in the second.
 */
module Mesh {
  import opened Wrappers
  import opened Text
  import opened Failover
  import opened Ranking

  type Labels = map<string, string>

  datatype Service = Service(name: string, selector: Labels)

  /** An HTTP route of a virtual service: traffic of pods labelled `source` goes to `subset` of `host`. */
  datatype Route = Route(source: string, host: string, subset: string)

  /** A subset of a destination rule, with its `failoverPriority` entries. */
  datatype Subset = Subset(name: string, failover: seq<string>)

  /** `provider` is the cluster that the object is created in. */
  datatype VirtualService = VirtualService(provider: string, host: string, routes: seq<Route>)

  datatype DestinationRule = DestinationRule(provider: string, host: string, subsets: seq<Subset>)

  datatype IstioConfig = IstioConfig(
    virtualServices: map<string, VirtualService>,
    destinationRules: map<string, DestinationRule>)

  predicate IsDeployment(c: Component)
  {
    Lower(c.kind) == "deployment"
  }

  /** A missing label reads as the empty string. */
  predicate Selects(template: Labels, selector: Labels)
  {
    forall k | k in selector :: (if k in template then template[k] else "") == selector[k]
  }

  // ----- Virtual services and destination rules -----

  function FirstMatch(services: seq<Service>, template: Labels): Option<Service>
  {
    if services == [] then None
    else if Selects(template, services[0].selector) then Some(services[0])
    else FirstMatch(services[1..], template)
  }

  /** The service behind which the target of an edge runs, if any. */
  function ServiceOf(services: seq<Service>, templates: map<string, Labels>, e: Edge): Option<Service>
  {
    if !IsDeployment(e.to) || e.to.name !in templates then None else FirstMatch(services, templates[e.to.name])
  }

  function ObjectName(svc: Service, e: Edge): string
  {
    svc.name + "-" + e.from.provider.name
  }

  /** The object an edge contributes to, if any. */
  function Target(services: seq<Service>, templates: map<string, Labels>, e: Edge): Option<string>
  {
    var svc := ServiceOf(services, templates, e);
    if svc.None? then None else Some(ObjectName(svc.value, e))
  }

  function HostOf(services: seq<Service>, templates: map<string, Labels>, e: Edge): string
  {
    var svc := ServiceOf(services, templates, e);
    if svc.None? then "" else svc.value.name
  }

  function RouteOf(host: string, e: Edge): Route
  {
    Route(UniqueName(e.from), host, e.from.name)
  }

  function Entry(l: Label): string
  {
    l.key + "=" + l.value
  }

  function Entries(order: seq<Label>): seq<string>
  {
    seq(|order|, i requires 0 <= i < |order| => Entry(order[i]))
  }

  function SubsetOf(labels: Priorities, e: Edge): Subset
  {
    var to := UniqueName(e.to);
    var from := UniqueName(e.from);
    Subset(e.from.name, Entries(if from in labels && to in labels[from].source then labels[from].source[to] else []))
  }

  /** The edges that contribute to the object called `name`, in order. */
  function Contributors(services: seq<Service>, templates: map<string, Labels>, edges: seq<Edge>,
      name: string): seq<Edge>
  {
    if edges == [] then []
    else
      var k := |edges| - 1;
      Contributors(services, templates, edges[..k], name)
      + if Target(services, templates, edges[k]) == Some(name) then [edges[k]] else []
  }

  /** The object called `name` is for the first edge of `es`, with one route or subset per edge of `es`, in order. */
  ghost predicate Holds(config: IstioConfig, labels: Priorities, services: seq<Service>, templates: map<string, Labels>,
                        name: string, es: seq<Edge>)
  {
    && (name in config.virtualServices <==> es != []) && (name in config.destinationRules <==> es != [])
    && (es != [] ==>
          var vs, dr := config.virtualServices[name], config.destinationRules[name];
          && vs.host == dr.host == HostOf(services, templates, es[0])
          && vs.provider == dr.provider == es[0].from.provider.name
          && |vs.routes| == |dr.subsets| == |es|
          && forall i | 0 <= i < |es| ::
               vs.routes[i] == RouteOf(HostOf(services, templates, es[i]), es[i])
                   && dr.subsets[i] == SubsetOf(labels, es[i]))
  }

  /** `config` holds, under every name, what the contributing edges call for, and nothing else. */
  ghost predicate Describes(config: IstioConfig, labels: Priorities, services: seq<Service>,
                            templates: map<string, Labels>, edges: seq<Edge>)
  {
    forall name :: Holds(config, labels, services, templates, name, Contributors(services, templates, edges, name))
  }

  /** `config` with the route and the subset of `e` added under the name of its object. */
  function Contribute(config: IstioConfig, labels: Priorities, svc: Service, e: Edge): IstioConfig
  {
    var name, provider := ObjectName(svc, e), e.from.provider.name;
    var vs := if name in config.virtualServices then config.virtualServices[name]
        else VirtualService(provider, svc.name, []);
    var dr := if name in config.destinationRules then config.destinationRules[name]
        else DestinationRule(provider, svc.name, []);
    IstioConfig(config.virtualServices[name := vs.(routes := vs.routes + [RouteOf(svc.name, e)])],
                config.destinationRules[name := dr.(subsets := dr.subsets + [SubsetOf(labels, e)])])
  }

  lemma ContributeDescribes(config: IstioConfig, labels: Priorities, services: seq<Service>,
                            templates: map<string, Labels>, edges: seq<Edge>, e: Edge)
    requires Describes(config, labels, services, templates, edges)
    ensures var svc := ServiceOf(services, templates, e);
            var config' := if svc.None? then config else Contribute(config, labels, svc.value, e);
            Describes(config', labels, services, templates, edges + [e])
  {
    var svc := ServiceOf(services, templates, e);
    var config' := if svc.None? then config else Contribute(config, labels, svc.value, e);
    assert (edges + [e])[..|edges|] == edges;
    forall name ensures Holds(config', labels, services, templates, name,
        Contributors(services, templates, edges + [e], name)) {
      assert Holds(config, labels, services, templates, name, Contributors(services, templates, edges, name));
    }
  }

  method GenerateIstioConfig(cmpnts: seq<Component>, edges: seq<Edge>, shorten: string -> string,
                             services: seq<Service>, templates: map<string, Labels>)
    returns (r: Result<IstioConfig>)
    ensures r.Err? <==> exists e | e in edges :: IsDeployment(e.to) && e.to.name !in templates
    ensures r.Ok? <==> !r.Err?
    ensures r.Ok? ==> Describes(r.value, Derive(shorten, AllNames(cmpnts, edges)), services, templates, edges)
  {
    var labels := DerivePriorities(cmpnts, edges, shorten);
    r := ConfigOf(labels, edges, services, templates);
  }

  /** The loop over the edges. */
  method ConfigOf(labels: Priorities, edges: seq<Edge>, services: seq<Service>, templates: map<string, Labels>)
    returns (r: Result<IstioConfig>)
    ensures r.Err? <==> exists e | e in edges :: IsDeployment(e.to) && e.to.name !in templates
    ensures r.Ok? <==> !r.Err?
    ensures r.Ok? ==> Describes(r.value, labels, services, templates, edges)
  {
    var virtualSvcs: map<string, VirtualService> := map[];
    var dstRules: map<string, DestinationRule> := map[];
    for i := 0 to |edges|
      invariant forall e | e in edges[..i] :: IsDeployment(e.to) ==> e.to.name in templates
      invariant Describes(IstioConfig(virtualSvcs, dstRules), labels, services, templates, edges[..i])
    {
      assert edges[..i + 1] == edges[..i] + [edges[i]];
      var err;
      err, virtualSvcs, dstRules := RouteEdge(virtualSvcs, dstRules, labels, services, templates, edges[i], edges[..i]);
      if err {
        assert edges[i] in edges;
        return Err("error getting Deployment for edge target.");
      }
    }
    assert edges[..|edges|] == edges;
    r := Ok(IstioConfig(virtualSvcs, dstRules));
  }

  /** One edge of the loop. */
  method RouteEdge(virtualSvcs: map<string, VirtualService>, dstRules: map<string, DestinationRule>, labels: Priorities,
                   services: seq<Service>, templates: map<string, Labels>, edge: Edge, ghost before: seq<Edge>)
    returns (err: bool, vs: map<string, VirtualService>, drs: map<string, DestinationRule>)
    requires Describes(IstioConfig(virtualSvcs, dstRules), labels, services, templates, before)
    ensures err <==> IsDeployment(edge.to) && edge.to.name !in templates
    ensures !err ==> Describes(IstioConfig(vs, drs), labels, services, templates, before + [edge])
  {
    ContributeDescribes(IstioConfig(virtualSvcs, dstRules), labels, services, templates, before, edge);
    err, vs, drs := false, virtualSvcs, dstRules;
    if !IsDeployment(edge.to) {
      return;
    }
    if edge.to.name !in templates {
      err := true;
      return;
    }
    var svc := FindService(services, templates[edge.to.name]);
    if svc.Some? {
      vs, drs := AddRoute(virtualSvcs, dstRules, labels, svc.value, edge);
    }
  }

  method AddRoute(virtualSvcs: map<string, VirtualService>, dstRules: map<string, DestinationRule>, labels: Priorities,
                  svc: Service, edge: Edge)
    returns (vs: map<string, VirtualService>, drs: map<string, DestinationRule>)
    ensures IstioConfig(vs, drs) == Contribute(IstioConfig(virtualSvcs, dstRules), labels, svc, edge)
  {
    vs, drs := virtualSvcs, dstRules;
    var name := svc.name + "-" + edge.from.provider.name;
    if name !in vs {
      vs := vs[name := VirtualService(edge.from.provider.name, svc.name, [])];
    }
    if name !in drs {
      drs := drs[name := DestinationRule(edge.from.provider.name, svc.name, [])];
    }
    var route := Route(UniqueName(edge.from), svc.name, edge.from.name);
    vs := vs[name := vs[name].(routes := vs[name].routes + [route])];
    drs := drs[name := drs[name].(subsets := drs[name].subsets + [SubsetOf(labels, edge)])];
  }

  method FindService(services: seq<Service>, template: Labels) returns (svc: Option<Service>)
    ensures svc == FirstMatch(services, template)
  {
    for j := 0 to |services|
      invariant FirstMatch(services, template) == FirstMatch(services[j..], template)
    {
      if Selects(template, services[j].selector) {
        return Some(services[j]);
      }
    }
    svc := None;
  }

  // ----- Pod templates -----

  /** The labels of the pods generated for a placement; the failover labels win. */
  function PodTemplate(template: Labels, c: Component, all: Labels): Labels
  {
    template
    + map["skycluster.io/managed-by" := "skycluster", "skycluster.io/component" := UniqueName(c)]
    + all
  }

  datatype Pods = Pods(owner: Component, labels: Labels)

  predicate Generable(templates: map<string, Labels>, labels: Priorities, cmpnts: seq<Component>)
  {
    forall c | c in cmpnts && IsDeployment(c) :: c.name in templates && UniqueName(c) in labels
  }

  /** The pods of the deployment components, in order. */
  function PodsOf(templates: map<string, Labels>, labels: Priorities, cmpnts: seq<Component>): seq<Pods>
    requires Generable(templates, labels, cmpnts)
  {
    if cmpnts == [] then []
    else
      var c := cmpnts[|cmpnts| - 1];
      assert cmpnts == cmpnts[..|cmpnts| - 1] + [c];
      PodsOf(templates, labels, cmpnts[..|cmpnts| - 1])
      + if IsDeployment(c) then [GeneratePods(templates, labels, c)] else []
  }

  function GeneratePods(templates: map<string, Labels>, labels: Priorities, c: Component): Pods
    requires c.name in templates && UniqueName(c) in labels
  {
    Pods(c, PodTemplate(templates[c.name], c, labels[UniqueName(c)].all))
  }

  lemma PodsOfNext(templates: map<string, Labels>, labels: Priorities, cmpnts: seq<Component>, c: Component)
    requires Generable(templates, labels, cmpnts) && Generable(templates, labels, [c])
    ensures Generable(templates, labels, cmpnts + [c])
    ensures PodsOf(templates, labels, cmpnts + [c])
         == PodsOf(templates, labels, cmpnts) + if IsDeployment(c) then [GeneratePods(templates, labels, c)] else []
  {
    assert c in [c];
    assert (cmpnts + [c])[..|cmpnts|] == cmpnts;
  }

  /** The pods of each deployment component carry its labels, and there are no others. */
  lemma {:induction false} PodsOfMembers(templates: map<string, Labels>, labels: Priorities, cmpnts: seq<Component>)
    requires Generable(templates, labels, cmpnts)
    ensures forall p | p in PodsOf(templates, labels, cmpnts) ::
              && p.owner in cmpnts && IsDeployment(p.owner)
              && p.labels == PodTemplate(templates[p.owner.name], p.owner, labels[UniqueName(p.owner)].all)
    ensures forall c | c in cmpnts && IsDeployment(c) ::
        exists p :: p in PodsOf(templates, labels, cmpnts) && p.owner == c
  {
    if cmpnts != [] {
      var init, c := cmpnts[..|cmpnts| - 1], cmpnts[|cmpnts| - 1];
      assert cmpnts == init + [c];
      PodsOfMembers(templates, labels, init);
      var pods := PodsOf(templates, labels, cmpnts);
      if IsDeployment(c) {
        assert pods[|pods| - 1].owner == c;
      }
    }
  }

  /**
   A deployment component for which no pods can be generated: no Deployment object, or no edge names it
   or falls back to it.
   */
  ghost predicate Fails(templates: map<string, Labels>, cmpnts: seq<Component>, edges: seq<Edge>, c: Component)
  {
    IsDeployment(c) && (c.name !in templates || !Named(cmpnts, edges, UniqueName(c)))
  }

  ghost predicate FirstFailure(templates: map<string, Labels>, cmpnts: seq<Component>, edges: seq<Edge>, i: nat)
  {
    i < |cmpnts| && Fails(templates, cmpnts, edges, cmpnts[i])
        && forall j | 0 <= j < i :: !Fails(templates, cmpnts, edges, cmpnts[j])
  }

  /** The first component that fails has no Deployment object. */
  ghost predicate Misses(templates: map<string, Labels>, cmpnts: seq<Component>, edges: seq<Edge>)
  {
    exists i: nat :: FirstFailure(templates, cmpnts, edges, i) && cmpnts[i].name !in templates
  }

  /** The first component that fails has a Deployment object. */
  ghost predicate Panics(templates: map<string, Labels>, cmpnts: seq<Component>, edges: seq<Edge>)
  {
    exists i: nat :: FirstFailure(templates, cmpnts, edges, i) && cmpnts[i].name in templates
  }

  /**
   The generated pod templates. A deployment component that no edge names and no edge falls back to
   has no entry in the priorities: the lookup yields nil and reading its labels panics. One without a
   Deployment object is an error, and the first of either kind decides.
   */
  method GenerateDeployManifests(cmpnts: seq<Component>, edges: seq<Edge>, shorten: string -> string,
                                 templates: map<string, Labels>)
    returns (r: Result<seq<Pods>>)
    ensures r.Ok? <==> forall c | c in cmpnts :: !Fails(templates, cmpnts, edges, c)
    ensures r.Err? <==> Misses(templates, cmpnts, edges)
    ensures r.Panic? <==> Panics(templates, cmpnts, edges)
    ensures r.Ok? ==> && Generable(templates, Derive(shorten, AllNames(cmpnts, edges)), cmpnts)
                      && r.value == PodsOf(templates, Derive(shorten, AllNames(cmpnts, edges)), cmpnts)
  {
    var labels := DerivePriorities(cmpnts, edges, shorten);
    ghost var k;
    r, k := PodsFrom(cmpnts, labels, templates);
    GenerableExact(templates, cmpnts, edges, shorten, k);
    if !r.Ok? {
      NamedExact(shorten, cmpnts, edges, UniqueName(cmpnts[k]));
      OneFirstFailure(templates, cmpnts, edges, k);
    } else {
      assert cmpnts[..k] == cmpnts;
      NoFailure(templates, cmpnts, edges);
    }
  }

  /** The loop over the components; it has dealt with `k` of them. */
  method PodsFrom(cmpnts: seq<Component>, labels: Priorities, templates: map<string, Labels>)
    returns (r: Result<seq<Pods>>, ghost k: nat)
    ensures k <= |cmpnts| && Generable(templates, labels, cmpnts[..k])
    ensures r.Ok? ==>
      k == |cmpnts| && Generable(templates, labels, cmpnts) && r.value == PodsOf(templates, labels, cmpnts)
    ensures !r.Ok? ==> k < |cmpnts| && IsDeployment(cmpnts[k])
                       && (r.Err? <==> cmpnts[k].name !in templates)
                       && (r.Panic? <==> cmpnts[k].name in templates && UniqueName(cmpnts[k]) !in labels)
  {
    var pods: seq<Pods> := [];
    for i := 0 to |cmpnts|
      invariant Generable(templates, labels, cmpnts[..i])
      invariant pods == PodsOf(templates, labels, cmpnts[..i])
    {
      assert cmpnts[..i + 1] == cmpnts[..i] + [cmpnts[i]];
      var item := cmpnts[i];
      if IsDeployment(item) {
        if item.name !in templates {
          return Err("error getting Deployment."), i;
        }
        if UniqueName(item) !in labels {
          return Panic, i;
        }
        pods := pods + [GeneratePods(templates, labels, item)];
      }
      PodsOfNext(templates, labels, cmpnts[..i], item);
    }
    assert cmpnts[..|cmpnts|] == cmpnts;
    r, k := Ok(pods), |cmpnts|;
  }

  lemma GenerableExact(templates: map<string, Labels>, cmpnts: seq<Component>, edges: seq<Edge>,
      shorten: string -> string, k: nat)
    requires k <= |cmpnts| && Generable(templates, Derive(shorten, AllNames(cmpnts, edges)), cmpnts[..k])
    ensures forall j | 0 <= j < k :: !Fails(templates, cmpnts, edges, cmpnts[j])
  {
    forall j | 0 <= j < k ensures !Fails(templates, cmpnts, edges, cmpnts[j]) {
      assert cmpnts[..k][j] in cmpnts[..k];
      NamedExact(shorten, cmpnts, edges, UniqueName(cmpnts[j]));
    }
  }

  lemma NoFailure(templates: map<string, Labels>, cmpnts: seq<Component>, edges: seq<Edge>)
    requires forall j | 0 <= j < |cmpnts| :: !Fails(templates, cmpnts, edges, cmpnts[j])
    ensures (forall c | c in cmpnts :: !Fails(templates, cmpnts, edges, c))
    ensures !Panics(templates, cmpnts, edges) && !Misses(templates, cmpnts, edges)
  {
  }

  lemma OneFirstFailure(templates: map<string, Labels>, cmpnts: seq<Component>, edges: seq<Edge>, i: nat)
    requires FirstFailure(templates, cmpnts, edges, i)
    ensures Panics(templates, cmpnts, edges) <==> cmpnts[i].name in templates
    ensures Misses(templates, cmpnts, edges) <==> cmpnts[i].name !in templates
    ensures exists c | c in cmpnts :: Fails(templates, cmpnts, edges, c)
  {
    forall j: nat | FirstFailure(templates, cmpnts, edges, j) ensures j == i {
      assert !(j < i) && !(i < j);
    }
    assert cmpnts[i] in cmpnts;
  }

  /** With all Deployment objects there, it panics exactly for a plan that leaves a deployment out of its edges. */
  lemma PanicsExact(templates: map<string, Labels>, cmpnts: seq<Component>, edges: seq<Edge>)
    requires forall c | c in cmpnts && IsDeployment(c) :: c.name in templates
    ensures Panics(templates, cmpnts, edges)
       <==> exists c | c in cmpnts :: IsDeployment(c) && !Named(cmpnts, edges, UniqueName(c))
  {
    if Panics(templates, cmpnts, edges) {
      var i: nat :| FirstFailure(templates, cmpnts, edges, i) && cmpnts[i].name in templates;
      assert cmpnts[i] in cmpnts;
    }
    if c :| c in cmpnts && IsDeployment(c) && !Named(cmpnts, edges, UniqueName(c)) {
      var k :| 0 <= k < |cmpnts| && cmpnts[k] == c;
      var i := FindFailure(templates, cmpnts, edges, k);
    }
  }

  lemma {:induction false} FindFailure(templates: map<string, Labels>, cmpnts: seq<Component>, edges: seq<Edge>, k: nat)
      returns (i: nat)
    requires k < |cmpnts| && Fails(templates, cmpnts, edges, cmpnts[k])
    ensures FirstFailure(templates, cmpnts, edges, i)
  {
    if j :| 0 <= j < k && Fails(templates, cmpnts, edges, cmpnts[j]) {
      i := FindFailure(templates, cmpnts, edges, j);
    } else {
      i := k;
    }
  }

  /** Such plans exist: one deployment that talks to nobody. */
  lemma LoneDeploymentPanics(c: Component, template: Labels)
    requires IsDeployment(c)
    ensures Panics(map[c.name := template], [c], [])
  {
    assert c in [c] && !Named([c], [], UniqueName(c));
    PanicsExact(map[c.name := template], [c], []);
  }

  // ----- Referential integrity -----

  lemma {:induction false} ContributorsAreEdges(services: seq<Service>, templates: map<string, Labels>,
      edges: seq<Edge>, name: string)
    ensures forall e :: e in Contributors(services, templates, edges, name)
                    <==> e in edges && Target(services, templates, e) == Some(name)
  {
    if edges != [] {
      ContributorsAreEdges(services, templates, edges[..|edges| - 1], name);
      assert edges == edges[..|edges| - 1] + [edges[|edges| - 1]];
    }
  }

  /** Every failover entry of an edge is a label on the pods generated for the edge's target. */
  lemma EntriesAreOnPods(pods: seq<Pods>, cmpnts: seq<Component>, edges: seq<Edge>, shorten: string -> string,
                         templates: map<string, Labels>, e: Edge)
    requires var ns := AllNames(cmpnts, edges); KeysDistinct(shorten, ns) && NoMutualBackups(ns)
    requires Generable(templates, Derive(shorten, AllNames(cmpnts, edges)), cmpnts)
    requires pods == PodsOf(templates, Derive(shorten, AllNames(cmpnts, edges)), cmpnts)
    requires e in edges
    ensures var rule := SubsetOf(Derive(shorten, AllNames(cmpnts, edges)), e);
            && rule.failover != []
            && forall p, entry | p in pods && UniqueName(p.owner) == UniqueName(e.to) && entry in rule.failover ::
                 exists key | key in p.labels :: entry == key + "=" + p.labels[key]
  {
    var ns := AllNames(cmpnts, edges);
    var labels := Derive(shorten, ns);
    var k :| 0 <= k < |edges| && edges[k] == e;
    assert ns[k] in ns;
    PrimaryMatchesAll(shorten, ns, ns[k]);
    PodsOfMembers(templates, labels, cmpnts);
    var order := Order(labels, ns[k]);
    var rule := SubsetOf(labels, e);
    assert rule.failover == Entries(order);
    assert |rule.failover| == |order|;
    forall p, entry | p in pods && UniqueName(p.owner) == UniqueName(e.to) && entry in rule.failover
      ensures exists key | key in p.labels :: entry == key + "=" + p.labels[key]
    {
      EntryOnPod(order, labels[ns[k].to].all, templates[p.owner.name], p.owner, p.labels, entry);
    }
  }

  /** The template keeps the failover labels: they are put on last. */
  lemma EntryOnPod(order: seq<Label>, all: Labels, template: Labels, owner: Component, labels: Labels, entry: string)
    requires forall l | l in order :: l.key in all && all[l.key] == l.value
    requires labels == PodTemplate(template, owner, all)
    requires entry in Entries(order)
    ensures exists key | key in labels :: entry == key + "=" + labels[key]
  {
    var j :| 0 <= j < |order| && entry == Entry(order[j]);
    assert order[j] in order;
    assert order[j].key in labels && labels[order[j].key] == order[j].value;
  }

  /**
   The i-th route of a virtual service names the i-th subset of the destination rule of the same
   name, and both belong to one edge, whose target `EntriesAreOnPods` is about.
   */
  lemma ReferencesResolve(config: IstioConfig, labels: Priorities, edges: seq<Edge>,
                          services: seq<Service>, templates: map<string, Labels>, name: string, i: nat)
    requires Describes(config, labels, services, templates, edges)
    requires name in config.virtualServices && i < |config.virtualServices[name].routes|
    ensures name in config.destinationRules && i < |config.destinationRules[name].subsets|
    ensures var route, subset := config.virtualServices[name].routes[i], config.destinationRules[name].subsets[i];
            && route.subset == subset.name
            && exists e | e in edges :: && Target(services, templates, e) == Some(name)
                                        && route == RouteOf(HostOf(services, templates, e), e)
                                        && subset == SubsetOf(labels, e)
  {
    ContributorsAreEdges(services, templates, edges, name);
    var es := Contributors(services, templates, edges, name);
    assert Holds(config, labels, services, templates, name, es);
    assert es[i] in es;
  }

  // ----- What the objects say -----

  /** Every label of the selector is on the template, an empty one being as good as none. */
  predicate Covers(template: Labels, selector: Labels)
  {
    forall k | k in selector :: if k in template then template[k] == selector[k] else selector[k] == ""
  }

  /** Service `j` is the first whose selector the template covers. */
  predicate IsBehind(services: seq<Service>, template: Labels, j: int)
  {
    0 <= j < |services| && Covers(template, services[j].selector)
        && forall i | 0 <= i < j :: !Covers(template, services[i].selector)
  }

  lemma {:induction false} FirstMatchExact(services: seq<Service>, template: Labels)
    ensures FirstMatch(services, template).Some? ==>
              exists j :: IsBehind(services, template, j) && FirstMatch(services, template) == Some(services[j])
    ensures forall j | IsBehind(services, template, j) :: FirstMatch(services, template) == Some(services[j])
  {
    if services != [] {
      assert Selects(template, services[0].selector) <==> Covers(template, services[0].selector);
      if Covers(template, services[0].selector) {
        assert IsBehind(services, template, 0);
      } else {
        var rest := services[1..];
        FirstMatchExact(rest, template);
        forall j ensures IsBehind(services, template, j) <==> IsBehind(rest, template, j - 1) {
          BehindLater(services, template, j);
        }
        if j :| IsBehind(rest, template, j) && FirstMatch(rest, template) == Some(rest[j]) {
          assert IsBehind(services, template, j + 1);
        }
      }
    }
  }

  lemma BehindLater(services: seq<Service>, template: Labels, j: int)
    requires services != [] && !Covers(template, services[0].selector)
    ensures IsBehind(services, template, j) <==> IsBehind(services[1..], template, j - 1)
  {
    if IsBehind(services[1..], template, j - 1) {
      forall i | 0 <= i < j ensures !Covers(template, services[i].selector) {
        if i > 0 { assert services[i] == services[1..][i - 1]; }
      }
    }
  }

  /** Traffic of edge `e` is for a Deployment that runs behind service `j`. */
  predicate Goes(services: seq<Service>, templates: map<string, Labels>, e: Edge, j: int)
  {
    Lower(e.to.kind) == "deployment" && e.to.name in templates && IsBehind(services, templates[e.to.name], j)
  }

  /** The route of `e` to `svc`: from the pods of its source to the subset that is named after its source component. */
  predicate Sends(route: Route, svc: Service, e: Edge)
  {
    route.source == e.from.name + "-" + e.from.provider.name && route.host == svc.name && route.subset == e.from.name
  }

  /** The subset of `e`: one entry "key=value" for each label of its rule, in order. */
  ghost predicate FallsBack(subset: Subset, labels: Priorities, e: Edge)
  {
    var from, to := e.from.name + "-" + e.from.provider.name, e.to.name + "-" + e.to.provider.name;
    var order := if from in labels && to in labels[from].source then labels[from].source[to] else [];
    && subset.name == e.from.name && |subset.failover| == |order|
    && forall i | 0 <= i < |order| :: subset.failover[i] == order[i].key + "=" + order[i].value
  }

  /** Edge `e` has route and subset `i` of the objects of service `j` in the cluster of its source. */
  ghost predicate RoutedAt(config: IstioConfig, labels: Priorities, services: seq<Service>, e: Edge, j: int, i: int)
  {
    && 0 <= j < |services|
    && var name := services[j].name + "-" + e.from.provider.name;
       && name in config.virtualServices && name in config.destinationRules
       && var routes, subsets := config.virtualServices[name].routes, config.destinationRules[name].subsets;
          0 <= i < |routes| && i < |subsets| && Sends(routes[i], services[j], e) && FallsBack(subsets[i], labels, e)
  }

  /** Every edge to a Deployment behind a service is routed. */
  lemma EdgesAreRouted(config: IstioConfig, labels: Priorities, edges: seq<Edge>, services: seq<Service>,
      templates: map<string, Labels>, e: Edge, j: int)
    requires Describes(config, labels, services, templates, edges) && e in edges && Goes(services, templates, e, j)
    ensures exists i :: RoutedAt(config, labels, services, e, j, i)
  {
    FirstMatchExact(services, templates[e.to.name]);
    var name := services[j].name + "-" + e.from.provider.name;
    assert Target(services, templates, e) == Some(name);
    ContributorsAreEdges(services, templates, edges, name);
    var es := Contributors(services, templates, edges, name);
    assert Holds(config, labels, services, templates, name, es);
    var i :| 0 <= i < |es| && es[i] == e;
    assert RoutedAt(config, labels, services, e, j, i);
  }

  /** And every route is of such an edge. */
  lemma RoutesAreOfEdges(config: IstioConfig, labels: Priorities, edges: seq<Edge>, services: seq<Service>,
      templates: map<string, Labels>, name: string, i: nat)
    requires Describes(config, labels, services, templates, edges)
    requires name in config.virtualServices && i < |config.virtualServices[name].routes|
    ensures exists e, j :: e in edges && Goes(services, templates, e, j) && RoutedAt(config, labels, services, e, j, i)
              && name == services[j].name + "-" + e.from.provider.name
  {
    ContributorsAreEdges(services, templates, edges, name);
    var es := Contributors(services, templates, edges, name);
    assert Holds(config, labels, services, templates, name, es);
    var e := es[i];
    assert e in es;
    FirstMatchExact(services, templates[e.to.name]);
    var j :| IsBehind(services, templates[e.to.name], j)
      && FirstMatch(services, templates[e.to.name]) == Some(services[j]);
    assert Goes(services, templates, e, j) && RoutedAt(config, labels, services, e, j, i);
  }

  /**
   The labels of the pods of a placement: the failover labels, over the two that say who manages them and
   which placement they are of, over all labels of the Deployment's own template.
   */
  lemma PodTemplateExact(template: Labels, c: Component, all: Labels, k: string)
    ensures var pod := PodTemplate(template, c, all);
            && (k in pod <==> k in all || k == "skycluster.io/managed-by" || k == "skycluster.io/component"
                                       || k in template)
            && (k in pod ==>
                  pod[k] == if k in all then all[k]
                            else if k == "skycluster.io/component" then c.name + "-" + c.provider.name
                            else if k == "skycluster.io/managed-by" then "skycluster"
                            else template[k])
  {
    assert "skycluster.io/managed-by"[14] != "skycluster.io/component"[14];
  }

  /** So the route of an edge applies to the pods of its source, unless a failover label took that key. */
  lemma RoutesApply(templates: map<string, Labels>, labels: Priorities, cmpnts: seq<Component>, p: Pods, route: Route,
      svc: Service, e: Edge)
    requires Generable(templates, labels, cmpnts) && p in PodsOf(templates, labels, cmpnts) && p.owner == e.from
    requires Sends(route, svc, e)
    ensures "skycluster.io/component" in p.labels
    ensures UniqueName(e.from) in labels && "skycluster.io/component" !in labels[UniqueName(e.from)].all ==>
              p.labels["skycluster.io/component"] == route.source
  {
    PodsOfMembers(templates, labels, cmpnts);
    PodTemplateExact(templates[e.from.name], e.from, labels[UniqueName(e.from)].all, "skycluster.io/component");
  }

  // ----- References by name -----

  ghost predicate SubsetNamesDistinct(rule: DestinationRule)
  {
    forall i, j | 0 <= i < j < |rule.subsets| :: rule.subsets[i].name != rule.subsets[j].name
  }

  /** Two edges at different places of the list contribute to `name` from one component. */
  ghost predicate OneSource(services: seq<Service>, templates: map<string, Labels>, edges: seq<Edge>, name: string,
      i: int, j: int)
  {
    && 0 <= i < j < |edges| && edges[i].from.name == edges[j].from.name
    && Target(services, templates, edges[i]) == Target(services, templates, edges[j]) == Some(name)
  }

  ghost predicate SourcesRepeat(es: seq<Edge>)
  {
    exists i, j :: 0 <= i < j < |es| && es[i].from.name == es[j].from.name
  }

  lemma {:induction false} ContributorPlaces(services: seq<Service>, templates: map<string, Labels>, edges: seq<Edge>,
      name: string, source: string)
    ensures (exists i :: ContributesAt(services, templates, edges, name, source, i))
       <==> (exists e :: e in Contributors(services, templates, edges, name) && e.from.name == source)
  {
    ContributorsAreEdges(services, templates, edges, name);
    var es := Contributors(services, templates, edges, name);
    if e :| e in es && e.from.name == source {
      var i :| 0 <= i < |edges| && edges[i] == e;
      assert ContributesAt(services, templates, edges, name, source, i);
    }
    if i :| ContributesAt(services, templates, edges, name, source, i) {
      assert edges[i] in es;
    }
  }

  lemma RepeatsWithOneMore(es: seq<Edge>, e: Edge)
    ensures SourcesRepeat(es + [e]) <==> SourcesRepeat(es) || exists x :: x in es && x.from.name == e.from.name
  {
    if i, j :| 0 <= i < j < |es| && es[i].from.name == es[j].from.name {
      assert (es + [e])[i].from.name == (es + [e])[j].from.name;
    }
    if x :| x in es && x.from.name == e.from.name {
      var i :| 0 <= i < |es| && es[i] == x;
      assert (es + [e])[i].from.name == (es + [e])[|es|].from.name;
    }
    if i, j :| 0 <= i < j < |es + [e]| && (es + [e])[i].from.name == (es + [e])[j].from.name && !SourcesRepeat(es) {
      assert j == |es| && es[i] in es;
    }
  }

  /** The edge at `i` contributes to `name` from the component `source`. */
  ghost predicate ContributesAt(services: seq<Service>, templates: map<string, Labels>, edges: seq<Edge>, name: string,
                                source: string, i: int)
  {
    0 <= i < |edges| && edges[i].from.name == source && Target(services, templates, edges[i]) == Some(name)
  }

  lemma OneSourceStep(services: seq<Service>, templates: map<string, Labels>, edges: seq<Edge>, name: string)
    requires edges != []
    ensures var k := |edges| - 1;
            (exists i, j :: OneSource(services, templates, edges, name, i, j)) <==>
              || (exists i, j :: OneSource(services, templates, edges[..k], name, i, j))
              || (&& Target(services, templates, edges[k]) == Some(name)
                  && exists i :: ContributesAt(services, templates, edges[..k], name, edges[k].from.name, i))
  {
    var k := |edges| - 1;
    var init, e := edges[..k], edges[k];
    if i, j :| OneSource(services, templates, init, name, i, j) {
      assert OneSource(services, templates, edges, name, i, j);
    }
    if i, j :| OneSource(services, templates, edges, name, i, j) {
      if j < k {
        assert OneSource(services, templates, init, name, i, j);
      } else {
        assert ContributesAt(services, templates, init, name, e.from.name, i);
      }
    }
    if Target(services, templates, e) == Some(name) {
      if i :| ContributesAt(services, templates, init, name, e.from.name, i) {
        assert OneSource(services, templates, edges, name, i, k);
      }
    }
  }

  lemma {:induction false} RepeatedSources(services: seq<Service>, templates: map<string, Labels>, edges: seq<Edge>,
      name: string)
    ensures SourcesRepeat(Contributors(services, templates, edges, name))
       <==> exists i, j :: OneSource(services, templates, edges, name, i, j)
  {
    if edges != [] {
      var k := |edges| - 1;
      RepeatedSources(services, templates, edges[..k], name);
      ContributorPlaces(services, templates, edges[..k], name, edges[k].from.name);
      RepeatsWithOneMore(Contributors(services, templates, edges[..k], name), edges[k]);
      OneSourceStep(services, templates, edges, name);
      var es := Contributors(services, templates, edges[..k], name);
      assert es + [] == es;
    }
  }

  /**
   Routes refer to subsets by name. The names under one object are distinct, so that every reference has
   one meaning, if and only if no component is the source of two edges that contribute to the object.
   */
  lemma SubsetNamesExact(config: IstioConfig, labels: Priorities, edges: seq<Edge>,
                         services: seq<Service>, templates: map<string, Labels>, name: string)
    requires Describes(config, labels, services, templates, edges) && name in config.destinationRules
    ensures SubsetNamesDistinct(config.destinationRules[name])
       <==> !exists i, j :: OneSource(services, templates, edges, name, i, j)
  {
    var es, subsets := Contributors(services, templates, edges, name), config.destinationRules[name].subsets;
    assert Holds(config, labels, services, templates, name, es);
    RepeatedSources(services, templates, edges, name);
    forall i | 0 <= i < |es| ensures subsets[i].name == es[i].from.name {
    }
    if i, j :| 0 <= i < j < |es| && es[i].from.name == es[j].from.name {
      assert subsets[i].name == subsets[j].name;
    }
  }

  /**
   A source with edges to two placements of a deployment always has two subsets of one name.
   */
  lemma TwoPlacementsShareSubset(config: IstioConfig, labels: Priorities, services: seq<Service>,
      templates: map<string, Labels>, edges: seq<Edge>, i: nat, j: nat)
    requires Describes(config, labels, services, templates, edges)
    requires i < j < |edges| && edges[i].from == edges[j].from && edges[i].to.name == edges[j].to.name
    requires IsDeployment(edges[i].to) && IsDeployment(edges[j].to) && Target(services, templates, edges[i]).Some?
    ensures var name := Target(services, templates, edges[i]).value;
            name in config.destinationRules && !SubsetNamesDistinct(config.destinationRules[name])
  {
    var name := Target(services, templates, edges[i]).value;
    ContributorsAreEdges(services, templates, edges, name);
    assert Holds(config, labels, services, templates, name, Contributors(services, templates, edges, name));
    assert edges[i] in edges && edges[i] in Contributors(services, templates, edges, name);
    SubsetNamesExact(config, labels, edges, services, templates, name);
    assert OneSource(services, templates, edges, name, i, j);
  }

  // ----- Objects of one service -----

  /** Joined names of objects can be taken apart. */
  ghost predicate UnambiguousObjects(services: seq<Service>, edges: seq<Edge>)
  {
    forall s, t, e, f | s in services && t in services && e in edges && f in edges ::
      ObjectName(s, e) == ObjectName(t, f) ==> s.name == t.name && e.from.provider.name == f.from.provider.name
  }

  lemma {:induction false} FirstMatchIsListed(services: seq<Service>, template: Labels)
    ensures var svc := FirstMatch(services, template); svc.Some? ==> svc.value in services
  {
    if services != [] {
      FirstMatchIsListed(services[1..], template);
    }
  }

  /**
   Then every object belongs to one service and one cluster: all its routes go to its own host, from
   sources on its own provider.
   */
  lemma ObjectsAreOfOneService(config: IstioConfig, labels: Priorities, edges: seq<Edge>,
                               services: seq<Service>, templates: map<string, Labels>, name: string)
    requires Describes(config, labels, services, templates, edges) && UnambiguousObjects(services, edges)
    requires name in config.virtualServices
    ensures forall r | r in config.virtualServices[name].routes :: r.host == config.virtualServices[name].host
    ensures forall e | e in edges && Target(services, templates, e) == Some(name) ::
              e.from.provider.name == config.virtualServices[name].provider
  {
    var es, vs := Contributors(services, templates, edges, name), config.virtualServices[name];
    assert Holds(config, labels, services, templates, name, es);
    ContributorsAreEdges(services, templates, edges, name);
    assert es[0] in es;
    forall e | e in edges && Target(services, templates, e) == Some(name)
      ensures HostOf(services, templates, e) == vs.host && e.from.provider.name == vs.provider
    {
      FirstMatchIsListed(services, templates[e.to.name]);
      FirstMatchIsListed(services, templates[es[0].to.name]);
    }
    forall r | r in vs.routes ensures r.host == vs.host {
      var i :| 0 <= i < |vs.routes| && vs.routes[i] == r;
      assert es[i] in es;
    }
  }

  /** Otherwise an object may mix services: `a` called from `b-c` and `a-b` called from `c` share the object `a-b-c`. */
  lemma ObjectNamesCanCollide(e: Edge, f: Edge)
    requires e.from.provider.name == "b-c" && f.from.provider.name == "c"
    ensures ObjectName(Service("a", map[]), e) == ObjectName(Service("a-b", map[]), f)
  {
    assert "a" + "-" + "b-c" == "a-b" + "-" + "c";
  }
}
