/**
 The tail of `runOne`: apply the tenant objects of a commit, cut the production alias and
 the verified custom domains over to its Service, then delete the older Deployments and
 Services of the project. One tenant namespace, every API call may fail.
 */
module Cutover {
  import opened Common

  type Labels = map<string, string>

  /** One Host rule and the Service it forwards to. */
  datatype Route = Route(host: string, service: string)

  datatype Ns = Ns(services: map<string, Labels>, deployments: map<string, Labels>, routes: map<string, Route>)

  datatype Commit = Commit(slug: string, sha: string, ref: string, productionBranch: string)

  /** deleteAllByLabel lists, then deletes one object after the other until a call fails. */
  datatype Sweep = ListFails | StopsAfter(deleted: set<string>) | Completes

  datatype Faults = Faults(
    deployment: Fault, service: Fault, preview: Fault, ready: Fault, alias: Fault,
    domainsListed: bool, domain: nat -> Fault, sweepDeployments: Sweep, sweepServices: Sweep)

  function NameOf(slug: string, short: string): string {
    slug + "-" + short
  }

  function DeployName(c: Commit): string {
    NameOf(c.slug, Short(c.sha))
  }

  function AliasName(slug: string): string {
    "prod-" + slug
  }

  function Dashed(host: string): string {
    seq(|host|, i requires 0 <= i < |host| => if host[i] == '.' || host[i] == '_' then '-' else host[i])
  }

  function DomainRouteName(host: string): string {
    "custom-" + Dashed(host)
  }

  function TenantLabels(c: Commit): Labels {
    map["app.kubernetes.io/managed-by" := "control-plane", "paas.project" := c.slug, "paas.commit" := Short(c.sha)]
  }

  predicate IsProduction(c: Commit) {
    c.ref == "refs/heads/" + c.productionBranch
  }

  /** The selector `paas.project=<slug>,paas.commit!=<short>`; an object without the second
      label matches as well. */
  predicate Outdated(labels: Labels, slug: string, short: string) {
    && "paas.project" in labels && labels["paas.project"] == slug
    && !("paas.commit" in labels && labels["paas.commit"] == short)
  }

  predicate Dangles(v: Ns, route: string) {
    route in v.routes && v.routes[route].service !in v.services
  }

  // ----- the effect of the tail, as functions of what was there before -----

  function Put<V>(m: map<string, V>, name: string, value: V, fault: Fault): map<string, V> {
    if fault.Lost? then m else m[name := value]
  }

  function Swept(m: map<string, Labels>, c: Commit, sweep: Sweep): set<string> {
    if sweep.ListFails? then {}
    else set n | n in m && Outdated(m[n], c.slug, Short(c.sha)) && (sweep.Completes? || n in sweep.deleted)
  }

  function DomainRoutes(routes: map<string, Route>, c: Commit, domains: seq<string>, domain: nat -> Fault): map<string, Route> {
    if domains == [] then routes
    else
      var n := |domains| - 1;
      Put(DomainRoutes(routes, c, domains[..n], domain), DomainRouteName(domains[n]),
          Route(domains[n], DeployName(c)), domain(n))
  }

  /** The tenant objects of the commit; the second component says whether `runOne` goes on. */
  function AfterApply(v: Ns, c: Commit, f: Faults): (Ns, bool) {
    var v1 := v.(deployments := Put(v.deployments, DeployName(c), TenantLabels(c), f.deployment));
    if !f.deployment.Acked? then (v1, false) else
    var v2 := v1.(services := Put(v1.services, DeployName(c), TenantLabels(c), f.service));
    if !f.service.Acked? then (v2, false) else
    var host := DeployName(c) + "." + TENANT_HOST_ZONE;
    (v2.(routes := Put(v2.routes, DeployName(c), Route(host, DeployName(c)), f.preview)), f.preview.Acked? && f.ready.Acked?)
  }

  function AfterCutover(v: Ns, c: Commit, domains: seq<string>, f: Faults): Ns {
    var alias := Route(c.slug + "." + TENANT_HOST_ZONE, DeployName(c));
    var routes := Put(v.routes, AliasName(c.slug), alias, f.alias);
    v.(routes := if f.domainsListed then DomainRoutes(routes, c, domains, f.domain) else routes)
  }

  function AfterSweep(v: Ns, c: Commit, f: Faults): Ns {
    v.(deployments := v.deployments - Swept(v.deployments, c, f.sweepDeployments),
       services := v.services - Swept(v.services, c, f.sweepServices))
  }

  function AfterTail(v: Ns, c: Commit, domains: seq<string>, f: Faults): Ns {
    var (applied, goesOn) := AfterApply(v, c, f);
    if goesOn && IsProduction(c) then AfterSweep(AfterCutover(applied, c, domains, f), c, f) else applied
  }

  // ----- names -----

  lemma LastDash(slug: string, short: string)
    requires '-' !in short
    ensures var name := NameOf(slug, short);
            name[|slug|] == '-' && forall k :: |slug| < k < |name| ==> name[k] != '-'
  {
    forall k | |slug| < k < |NameOf(slug, short)| ensures NameOf(slug, short)[k] != '-' {
      assert NameOf(slug, short)[k] == short[k - |slug| - 1];
    }
  }

  /** The text after the last dash is the commit, so a name tells its slug and commit. */
  lemma NamesAreInjective(slug: string, short: string, slug': string, short': string)
    requires '-' !in short && '-' !in short' && NameOf(slug, short) == NameOf(slug', short')
    ensures slug == slug' && short == short'
  {
    LastDash(slug, short);
    LastDash(slug', short');
    assert |slug| == |slug'|;
    assert slug == NameOf(slug, short)[..|slug|] && slug' == NameOf(slug', short')[..|slug|];
    assert short == NameOf(slug, short)[|slug| + 1..] && short' == NameOf(slug', short')[|slug| + 1..];
  }

  /** Dots, dashes and underscores are all the same in a route name, and nothing else is lost. */
  lemma HostsShareRouteIff(a: string, b: string)
    ensures DomainRouteName(a) == DomainRouteName(b) <==>
            |a| == |b| && forall i :: 0 <= i < |a| ==> a[i] == b[i] || (a[i] in ".-_" && b[i] in ".-_")
  {
    assert DomainRouteName(a)[|"custom-"|..] == Dashed(a) && DomainRouteName(b)[|"custom-"|..] == Dashed(b);
    if Dashed(a) == Dashed(b) {
      forall i | 0 <= i < |a| ensures a[i] == b[i] || (a[i] in ".-_" && b[i] in ".-_") {
        assert Dashed(a)[i] == Dashed(b)[i];
      }
    }
    if |a| == |b| {
      forall i | 0 <= i < |a| && (a[i] == b[i] || (a[i] in ".-_" && b[i] in ".-_")) ensures Dashed(a)[i] == Dashed(b)[i] {
      }
    }
  }

  // ----- what the tail leaves, in terms of labels, refs and answered calls -----

  function LabelOf(labels: Labels, key: string): Option<string> {
    if key in labels then Some(labels[key]) else None
  }

  /** The calls that must be answered before production is touched, and only production is. */
  predicate ReachesCutover(c: Commit, f: Faults) {
    && f.deployment.Acked? && f.service.Acked? && f.preview.Acked? && f.ready.Acked?
    && c.ref == "refs/heads/" + c.productionBranch
  }

  /** The sweep comes to the object before one of its calls fails. */
  predicate ReachesObject(sweep: Sweep, name: string) {
    sweep.Completes? || (sweep.StopsAfter? && name in sweep.deleted)
  }

  lemma SweptIff(m: map<string, Labels>, c: Commit, sweep: Sweep, name: string)
    ensures name in Swept(m, c, sweep) <==>
            && name in m && ReachesObject(sweep, name)
            && LabelOf(m[name], "paas.project") == Some(c.slug) && LabelOf(m[name], "paas.commit") != Some(Short(c.sha))
  {
  }

  /** Which objects a tail deletes, whatever calls fail: those labelled with this project and not
      with this commit that a sweep reaches. Objects of other projects are never touched, and
      nothing but the commit's own objects is created. */
  lemma TailDeletesIff(v: Ns, c: Commit, domains: seq<string>, f: Faults, name: string)
    requires name != DeployName(c)
    ensures var t := AfterTail(v, c, domains, f);
            && (name in t.services <==>
                  && name in v.services
                  && !(&& ReachesCutover(c, f) && ReachesObject(f.sweepServices, name)
                       && LabelOf(v.services[name], "paas.project") == Some(c.slug)
                       && LabelOf(v.services[name], "paas.commit") != Some(Short(c.sha))))
            && (name in t.services ==> t.services[name] == v.services[name])
            && (name in t.deployments <==>
                  && name in v.deployments
                  && !(&& ReachesCutover(c, f) && ReachesObject(f.sweepDeployments, name)
                       && LabelOf(v.deployments[name], "paas.project") == Some(c.slug)
                       && LabelOf(v.deployments[name], "paas.commit") != Some(Short(c.sha))))
            && (name in t.deployments ==> t.deployments[name] == v.deployments[name])
  {
    AppliedElsewhere(v, c, f, name);
    var applied := AfterApply(v, c, f).0;
    SweptIff(applied.services, c, f.sweepServices, name);
    SweptIff(applied.deployments, c, f.sweepDeployments, name);
    hide AfterApply, Outdated, Swept, DeployName, LabelOf, ReachesObject;
  }

  lemma AppliedElsewhere(v: Ns, c: Commit, f: Faults, name: string)
    requires name != DeployName(c)
    ensures var (t, goesOn) := AfterApply(v, c, f);
            && (goesOn <==> f.deployment.Acked? && f.service.Acked? && f.preview.Acked? && f.ready.Acked?)
            && (name in t.services <==> name in v.services) && (name in t.services ==> t.services[name] == v.services[name])
            && (name in t.deployments <==> name in v.deployments)
            && (name in t.deployments ==> t.deployments[name] == v.deployments[name])
  {
  }

  /** The commit's own objects carry its labels and are not swept, whoever named them before. */
  lemma OwnObjectsAreLabelled(v: Ns, c: Commit, domains: seq<string>, f: Faults)
    requires f.deployment.Acked? && f.service.Acked?
    ensures var t, name := AfterTail(v, c, domains, f), c.slug + "-" + Short(c.sha);
            && name in t.deployments && name in t.services && t.deployments[name] == t.services[name]
            && LabelOf(t.services[name], "paas.project") == Some(c.slug)
            && LabelOf(t.services[name], "paas.commit") == Some(Short(c.sha))
  {
    var applied := AfterApply(v, c, f).0;
    SweptIff(applied.services, c, f.sweepServices, DeployName(c));
    SweptIff(applied.deployments, c, f.sweepDeployments, DeployName(c));
  }

  /** Until the cutover is reached, and for previews, no route but the commit's own changes. */
  lemma OtherRoutesStay(v: Ns, c: Commit, domains: seq<string>, f: Faults, route: string)
    requires !ReachesCutover(c, f) && route != DeployName(c)
    ensures var t := AfterTail(v, c, domains, f);
            (route in t.routes <==> route in v.routes) && (route in t.routes ==> t.routes[route] == v.routes[route])
  {
  }

  lemma {:induction false} DomainsLeaveTheAlias(routes: map<string, Route>, c: Commit, domains: seq<string>, domain: nat -> Fault)
    requires AliasName(c.slug) in routes
    ensures var after := DomainRoutes(routes, c, domains, domain);
            AliasName(c.slug) in after && after[AliasName(c.slug)] == routes[AliasName(c.slug)]
  {
    if domains != [] {
      var n := |domains| - 1;
      DomainsLeaveTheAlias(routes, c, domains[..n], domain);
      assert AliasName(c.slug)[0] == 'p' && DomainRouteName(domains[n])[0] == 'c';
    }
  }

  // ----- what the tail does to traffic -----

  /** The routes that carry production traffic: the alias and the verified domains. */
  ghost predicate IsTraffic(route: string, c: Commit, domains: seq<string>) {
    route == AliasName(c.slug) || exists k :: 0 <= k < |domains| && route == DomainRouteName(domains[k])
  }

  /** Some call that points `route` at the new Service took effect. */
  ghost predicate Moved(route: string, c: Commit, domains: seq<string>, f: Faults) {
    || (route == AliasName(c.slug) && !f.alias.Lost?)
    || (f.domainsListed && exists k: nat :: k < |domains| && route == DomainRouteName(domains[k]) && !f.domain(k).Lost?)
  }

  lemma {:induction false} DomainRoutesTarget(
    routes: map<string, Route>, c: Commit, domains: seq<string>, domain: nat -> Fault, route: string)
    ensures var moved := exists k: nat :: k < |domains| && route == DomainRouteName(domains[k]) && !domain(k).Lost?;
            var after := DomainRoutes(routes, c, domains, domain);
            && (moved ==> route in after && after[route].service == DeployName(c))
            && (!moved ==> (route in after <==> route in routes) && (route in after ==> after[route] == routes[route]))
  {
    if domains != [] {
      var n := |domains| - 1;
      DomainRoutesTarget(routes, c, domains[..n], domain, route);
      assert forall k: nat :: k < n ==> domains[..n][k] == domains[k];
    }
  }

  lemma CutoverMoves(v: Ns, c: Commit, domains: seq<string>, f: Faults, route: string)
    ensures var after := AfterCutover(v, c, domains, f);
            && after.services == v.services && after.deployments == v.deployments
            && (Moved(route, c, domains, f) ==> route in after.routes && after.routes[route].service == DeployName(c))
            && (!Moved(route, c, domains, f) ==>
                  (route in after.routes <==> route in v.routes) && (route in v.routes ==> after.routes[route] == v.routes[route]))
  {
    var alias := Route(c.slug + "." + TENANT_HOST_ZONE, DeployName(c));
    var routes := Put(v.routes, AliasName(c.slug), alias, f.alias);
    DomainRoutesTarget(routes, c, domains, f.domain, route);
  }

  /** Where the project's own hosts go once their calls took effect. */
  lemma HostsAreServed(v: Ns, c: Commit, domains: seq<string>, f: Faults)
    requires f.deployment.Acked? && f.service.Acked?
    ensures var t, name := AfterTail(v, c, domains, f), c.slug + "-" + Short(c.sha);
            && (ReachesCutover(c, f) && !f.alias.Lost? ==>
                  ("prod-" + c.slug) in t.routes && t.routes["prod-" + c.slug] == Route(c.slug + ".spinup.in", name))
            && (!f.preview.Lost? && (ReachesCutover(c, f) ==> !IsTraffic(name, c, domains)) ==>
                  name in t.routes && t.routes[name] == Route(name + ".spinup.in", name))
  {
    CommitHostIsServed(v, c, domains, f);
    if ReachesCutover(c, f) && !f.alias.Lost? {
      var applied := AfterApply(v, c, f).0;
      var aliased := AfterCutover(applied, c, [], f);
      assert aliased.routes == applied.routes[AliasName(c.slug) := Route(c.slug + "." + TENANT_HOST_ZONE, DeployName(c))];
      DomainsLeaveTheAlias(aliased.routes, c, domains, f.domain);
      hide AfterApply, DomainRoutes, IsTraffic;
    }
  }

  lemma CommitHostIsServed(v: Ns, c: Commit, domains: seq<string>, f: Faults)
    requires f.deployment.Acked? && f.service.Acked?
    ensures var t, name := AfterTail(v, c, domains, f), DeployName(c);
            !f.preview.Lost? && (ReachesCutover(c, f) ==> !IsTraffic(name, c, domains)) ==>
              name in t.routes && t.routes[name] == Route(name + "." + TENANT_HOST_ZONE, name)
  {
    CutoverMoves(AfterApply(v, c, f).0, c, domains, f, DeployName(c));
    hide AfterCutover, Swept;
  }

  /** The exact condition under which a production deploy leaves a route dangling: no call
      moved it, and what it points at was missing already or has now been collected. */
  lemma DanglesAfterTail(v: Ns, c: Commit, domains: seq<string>, f: Faults, route: string)
    requires AfterApply(v, c, f).1 && IsProduction(c)
    ensures var applied := AfterApply(v, c, f).0;
            Dangles(AfterTail(v, c, domains, f), route) <==>
            && !Moved(route, c, domains, f) && route in applied.routes
            && var t := applied.routes[route].service;
               t !in applied.services || t in Swept(applied.services, c, f.sweepServices)
  {
    var applied := AfterApply(v, c, f).0;
    CutoverMoves(applied, c, domains, f, route);
    assert applied.services[DeployName(c)] == TenantLabels(c);
  }

  predicate AllAcked(f: Faults, n: nat) {
    && f.deployment.Acked? && f.service.Acked? && f.preview.Acked? && f.ready.Acked? && f.alias.Acked?
    && f.domainsListed && (forall k: nat | k < n :: f.domain(k).Acked?)
    && f.sweepDeployments.Completes? && f.sweepServices.Completes?
  }

  /** With API calls that succeed, all production traffic ends on this commit's Service,
      which exists; nothing outdated of the project is left; other objects are untouched. */
  lemma SuccessfulTail(v: Ns, c: Commit, domains: seq<string>, f: Faults, name: string)
    requires AllAcked(f, |domains|) && IsProduction(c)
    ensures var t := AfterTail(v, c, domains, f);
            && DeployName(c) in t.services && t.services[DeployName(c)] == TenantLabels(c)
            && (IsTraffic(name, c, domains) ==> name in t.routes && t.routes[name].service == DeployName(c))
            && (name != DeployName(c) ==>
                  && (name in t.services <==> name in v.services && !Outdated(v.services[name], c.slug, Short(c.sha)))
                  && (name in t.deployments <==> name in v.deployments && !Outdated(v.deployments[name], c.slug, Short(c.sha)))
                  && (name in t.services ==> t.services[name] == v.services[name])
                  && (name in t.deployments ==> t.deployments[name] == v.deployments[name]))
            && (name != DeployName(c) && !IsTraffic(name, c, domains) ==>
                  (name in t.routes <==> name in v.routes) && (name in t.routes ==> t.routes[name] == v.routes[name]))
  {
    CutoverMoves(AfterApply(v, c, f).0, c, domains, f, name);
    if IsTraffic(name, c, domains) {
      assert Moved(name, c, domains, f) by {
        if name != AliasName(c.slug) {
          var k :| 0 <= k < |domains| && name == DomainRouteName(domains[k]);
          assert f.domain(k).Acked?;
        }
      }
    }
  }

  lemma TrafficIsMoved(v: Ns, c: Commit, domains: seq<string>, f: Faults)
    requires AllAcked(f, |domains|) && IsProduction(c)
    ensures var t := AfterTail(v, c, domains, f);
            forall r | IsTraffic(r, c, domains) :: r in t.routes && t.routes[r].service == DeployName(c)
  {
    var t := AfterTail(v, c, domains, f);
    hide AfterTail, AllAcked, IsTraffic, DeployName;
    forall r | IsTraffic(r, c, domains) ensures r in t.routes && t.routes[r].service == DeployName(c) {
      SuccessfulTail(v, c, domains, f, r);
    }
  }

  /** The alias call is allowed to fail and the sweep runs all the same. When it is lost, an
      alias that resolved dangles afterwards exactly when its old Service is another than this
      commit's and outdated: the sweep then deletes what the alias still points at. */
  lemma LostAliasCallDangles(v: Ns, c: Commit, domains: seq<string>, f: Faults)
    requires AfterApply(v, c, f).1 && IsProduction(c) && f.alias.Lost? && f.sweepServices.Completes?
    requires AliasName(c.slug) in v.routes && AliasName(c.slug) != DeployName(c)
    requires !Dangles(v, AliasName(c.slug))
    ensures var t := v.routes[AliasName(c.slug)].service;
            Dangles(AfterTail(v, c, domains, f), AliasName(c.slug)) <==>
            t != DeployName(c) && Outdated(v.services[t], c.slug, Short(c.sha))
  {
    DanglesAfterTail(v, c, domains, f, AliasName(c.slug));
    forall h ensures AliasName(c.slug) != DomainRouteName(h) {
      assert AliasName(c.slug)[0] == 'p' && DomainRouteName(h)[0] == 'c';
    }
  }

  /** A per-commit preview route is not re-pointed, so it survives a successful production
      deploy exactly when its Service carries the new commit's label or another project's. */
  lemma PreviewRouteSurvivesIff(v: Ns, c: Commit, domains: seq<string>, f: Faults, route: string)
    requires AllAcked(f, |domains|) && IsProduction(c) && route in v.routes && !Dangles(v, route)
    requires !IsTraffic(route, c, domains) && route != DeployName(c) && v.routes[route].service != DeployName(c)
    ensures Dangles(AfterTail(v, c, domains, f), route) <==>
            Outdated(v.services[v.routes[route].service], c.slug, Short(c.sha))
  {
    DanglesAfterTail(v, c, domains, f, route);
  }

  /** The last call for the route of `domains[k]` that took effect is the one for `domains[k]`. */
  ghost predicate MovedLast(domains: seq<string>, domain: nat -> Fault, k: nat)
    requires k < |domains|
  {
    && !domain(k).Lost?
    && forall j: nat :: k < j < |domains| && DomainRouteName(domains[j]) == DomainRouteName(domains[k]) ==> domain(j).Lost?
  }

  /** No call for the route took effect. */
  ghost predicate Unmoved(domains: seq<string>, domain: nat -> Fault, route: string) {
    forall j: nat :: j < |domains| && DomainRouteName(domains[j]) == route ==> domain(j).Lost?
  }

  /** Which host a route of the cutover serves, whatever becomes of the calls. */
  lemma {:induction false} RouteServesIff(
    routes: map<string, Route>, c: Commit, domains: seq<string>, domain: nat -> Fault, host: string, route: string)
    requires route == DomainRouteName(host)
    ensures var after := DomainRoutes(routes, c, domains, domain);
            (route in after && after[route].host == host) <==>
              || (exists k: nat :: k < |domains| && domains[k] == host && MovedLast(domains, domain, k))
              || (Unmoved(domains, domain, route) && route in routes && routes[route].host == host)
  {
    if domains != [] {
      var n := |domains| - 1;
      RouteServesIff(routes, c, domains[..n], domain, host, route);
      OneMoreDomain(domains, domain, host);
      hide DomainRouteName, MovedLast, Unmoved;
    }
  }

  /** What the last domain of a list does to the claims about the ones before it. */
  lemma OneMoreDomain(domains: seq<string>, domain: nat -> Fault, host: string)
    requires domains != []
    ensures var n := |domains| - 1;
            var moves := DomainRouteName(domains[n]) == DomainRouteName(host) && !domain(n).Lost?;
            && (Unmoved(domains, domain, DomainRouteName(host)) <==> !moves && Unmoved(domains[..n], domain, DomainRouteName(host)))
            && ((exists k: nat :: k < |domains| && domains[k] == host && MovedLast(domains, domain, k)) <==>
                  if moves then domains[n] == host
                  else exists k: nat :: k < n && domains[..n][k] == host && MovedLast(domains[..n], domain, k))
  {
    var n := |domains| - 1;
    var route := DomainRouteName(host);
    assert forall j :: 0 <= j < n ==> domains[..n][j] == domains[j];
    if DomainRouteName(domains[n]) == route && !domain(n).Lost? {
      assert MovedLast(domains, domain, n);
    } else {
      forall k: nat | k < n && domains[k] == host
        ensures MovedLast(domains, domain, k) <==> MovedLast(domains[..n], domain, k)
      {
      }
    }
  }

  /** Whatever calls are lost, a verified domain is served exactly when its own call was the last
      that took effect on its route, or when none took effect and the route served it before.
      Dots and dashes of a host name both become dashes, so domains may share a route. */
  lemma DomainServedIff(
    routes: map<string, Route>, c: Commit, domains: seq<string>, domain: nat -> Fault, k: nat)
    requires k < |domains| && forall i, j :: 0 <= i < j < |domains| ==> domains[i] != domains[j]
    ensures var after := DomainRoutes(routes, c, domains, domain);
            var route := DomainRouteName(domains[k]);
            (route in after && after[route].host == domains[k]) <==>
              || MovedLast(domains, domain, k)
              || (Unmoved(domains, domain, route) && route in routes && routes[route].host == domains[k])
  {
    RouteServesIff(routes, c, domains, domain, domains[k], DomainRouteName(domains[k]));
    hide *;
  }

  /** Two verified domains may share a route name; then only the later one is served. */
  lemma DottedHostIsShadowed(routes: map<string, Route>, c: Commit)
    ensures DomainRouteName("a.b.io") == DomainRouteName("a-b.io") && "a.b.io" != "a-b.io"
    ensures var after := DomainRoutes(routes, c, ["a.b.io", "a-b.io"], n => Acked);
            DomainRouteName("a.b.io") in after && after[DomainRouteName("a.b.io")].host == "a-b.io"
  {
    var domains := ["a.b.io", "a-b.io"];
    assert "a.b.io"[1] != "a-b.io"[1];
    assert Dashed("a.b.io") == Dashed("a-b.io");
    DomainServedIff(routes, c, domains, n => Acked, 1);
  }

  // ----- promote -----

  datatype Promotion = Refused | AliasFailed | Promoted(domains: seq<string>)

  /** The domains whose call was answered without an error. */
  function Answered(domains: seq<string>, domain: nat -> Fault): seq<string> {
    if domains == [] then []
    else
      var n := |domains| - 1;
      Answered(domains[..n], domain) + if domain(n).Acked? then [domains[n]] else []
  }

  /** The answer names only domains that were verified, and each of them has a route to the
      promoted Service, whatever became of the other calls. */
  lemma {:induction false} AnsweredDomainsAreMoved(
    routes: map<string, Route>, c: Commit, domains: seq<string>, domain: nat -> Fault, host: string)
    requires host in Answered(domains, domain)
    ensures host in domains
    ensures var after := DomainRoutes(routes, c, domains, domain);
            DomainRouteName(host) in after && after[DomainRouteName(host)].service == DeployName(c)
  {
    var n := |domains| - 1;
    assert domains == domains[..n] + [domains[n]];
    hide DomainRouteName, DeployName;
    if host in Answered(domains[..n], domain) {
      AnsweredDomainsAreMoved(routes, c, domains[..n], domain, host);
    }
  }

  /** The answer names a domain exactly when its own call was answered. */
  lemma {:induction false} AnsweredIff(domains: seq<string>, domain: nat -> Fault, host: string)
    ensures host in Answered(domains, domain) <==> exists k: nat :: k < |domains| && domains[k] == host && domain(k).Acked?
  {
    if domains != [] {
      var n := |domains| - 1;
      AnsweredIff(domains[..n], domain, host);
      assert forall k: nat :: k < n ==> domains[..n][k] == domains[k];
    }
  }

  /** handlePromoteDeployment: re-point the alias, then the verified domains. */
  function AfterPromote(v: Ns, c: Commit, domains: seq<string>, f: Faults): Ns {
    if f.alias.Acked? then AfterCutover(v, c, domains, f)
    else AfterCutover(v, c, [], f)
  }

  /** A promote that gets no answer for the alias goes no further. Once it got one, the project's
      host is served by the promoted commit. */
  lemma PromoteStopsAtTheAlias(v: Ns, c: Commit, domains: seq<string>, f: Faults, route: string)
    ensures var t := AfterPromote(v, c, domains, f);
            && t.services == v.services && t.deployments == v.deployments
            && (!f.alias.Acked? && route != "prod-" + c.slug ==>
                  (route in t.routes <==> route in v.routes) && (route in t.routes ==> t.routes[route] == v.routes[route]))
            && (f.alias.Acked? ==>
                  && "prod-" + c.slug in t.routes
                  && t.routes["prod-" + c.slug] == Route(c.slug + ".spinup.in", c.slug + "-" + Short(c.sha)))
  {
    var aliased := v.routes[AliasName(c.slug) := Route(c.slug + "." + TENANT_HOST_ZONE, DeployName(c))];
    DomainsLeaveTheAlias(aliased, c, domains, f.domain);
  }

  /** Services are named after the project and commit they are labelled with. */
  ghost predicate WellNamed(v: Ns) {
    forall n :: n in v.services ==>
      && "paas.project" in v.services[n] && "paas.commit" in v.services[n] && '-' !in v.services[n]["paas.commit"]
      && n == NameOf(v.services[n]["paas.project"], v.services[n]["paas.commit"])
  }

  /** Instant rollback promises that the Services of older commits persist. They do not: after
      a successful production deploy, a promote reaches an existing Service exactly when it
      names the commit that is live already. */
  lemma PromoteAfterDeployResolvesIff(v: Ns, c: Commit, domains: seq<string>, f: Faults, d: Commit, hosts: seq<string>, g: Faults)
    requires WellNamed(v) && AllAcked(f, |domains|) && IsProduction(c) && g.alias.Acked?
    requires d.slug == c.slug && '-' !in c.sha && '-' !in d.sha
    ensures !Dangles(AfterPromote(AfterTail(v, c, domains, f), d, hosts, g), AliasName(c.slug)) <==> Short(d.sha) == Short(c.sha)
  {
    var t := AfterTail(v, c, domains, f);
    SuccessfulTail(v, c, domains, f, DeployName(d));
    CutoverMoves(t, d, hosts, g, AliasName(c.slug));
    if DeployName(d) == DeployName(c) {
      NamesAreInjective(d.slug, Short(d.sha), c.slug, Short(c.sha));
    } else if DeployName(d) in t.services {
      NamesAreInjective(d.slug, Short(d.sha), v.services[DeployName(d)]["paas.project"], v.services[DeployName(d)]["paas.commit"]);
    }
  }

  // ----- the namespace, updated call by call -----

  /** Some routes have been pointed at the commit's Service; nothing else has changed. */
  ghost predicate Repointed(v: Ns, u: Ns, c: Commit) {
    && u == v.(routes := u.routes)
    && forall r :: r in u.routes ==>
         (r in v.routes && u.routes[r] == v.routes[r]) || u.routes[r].service == DeployName(c)
  }

  /** Services only grow, and routes keep their targets or move to an existing Service. */
  ghost predicate KeepsTraffic(v: Ns, u: Ns, c: Commit) {
    && v.services.Keys <= u.services.Keys
    && forall r :: r in u.routes ==>
         (r in v.routes && u.routes[r] == v.routes[r]) || u.routes[r].service in u.services
  }

  class Namespace {
    var services: map<string, Labels>
    var deployments: map<string, Labels>
    var routes: map<string, Route>
    /** Every state the namespace has been in, oldest first. */
    ghost var trace: seq<Ns>

    ghost function View(): Ns
      reads this
    {
      Ns(services, deployments, routes)
    }

    method ApplyDeployment(name: string, labels: Labels, fault: Fault) returns (ok: bool)
      modifies this`deployments, this`trace
      ensures ok == fault.Acked? && deployments == Put(old(deployments), name, labels, fault)
      ensures trace == old(trace) + [View()]
    {
      if !fault.Lost? {
        deployments := deployments[name := labels];
      }
      ok := fault.Acked?;
      trace := trace + [View()];
    }

    method ApplyService(name: string, labels: Labels, fault: Fault) returns (ok: bool)
      modifies this`services, this`trace
      ensures ok == fault.Acked? && services == Put(old(services), name, labels, fault)
      ensures trace == old(trace) + [View()]
    {
      if !fault.Lost? {
        services := services[name := labels];
      }
      ok := fault.Acked?;
      trace := trace + [View()];
    }

    method ApplyIngressRoute(name: string, host: string, service: string, fault: Fault) returns (ok: bool)
      modifies this`routes, this`trace
      ensures ok == fault.Acked? && routes == Put(old(routes), name, Route(host, service), fault)
      ensures trace == old(trace) + [View()]
    {
      if !fault.Lost? {
        routes := routes[name := Route(host, service)];
      }
      ok := fault.Acked?;
      trace := trace + [View()];
    }

    /** Custom domains of one production deploy, in the order the store lists them. */
    method ApplyDomains(c: Commit, domains: seq<string>, domain: nat -> Fault) returns (applied: seq<string>)
      modifies this`routes, this`trace
      ensures applied == Answered(domains, domain)
      ensures routes == DomainRoutes(old(routes), c, domains, domain)
      ensures old(trace) <= trace
      ensures forall i :: |old(trace)| <= i < |trace| ==> Repointed(old(View()), trace[i], c)
    {
      var n := 0;
      applied := [];
      assert domains[..0] == [];
      while n < |domains|
        invariant 0 <= n <= |domains|
        invariant applied == Answered(domains[..n], domain)
        invariant routes == DomainRoutes(old(routes), c, domains[..n], domain)
        invariant Repointed(old(View()), View(), c)
        invariant old(trace) <= trace
        invariant forall i :: |old(trace)| <= i < |trace| ==> Repointed(old(View()), trace[i], c)
      {
        assert domains[..n + 1][..n] == domains[..n] && domains[..n + 1][n] == domains[n];
        var ok := ApplyIngressRoute(DomainRouteName(domains[n]), domains[n], DeployName(c), domain(n));
        if ok {
          applied := applied + [domains[n]];
        }
        n := n + 1;
      }
      assert domains[..|domains|] == domains;
    }

    /** List the outdated Services, then delete them one at a time. */
    method DeleteOutdatedServices(c: Commit, sweep: Sweep)
      modifies this`services, this`trace
      ensures services == old(services) - Swept(old(services), c, sweep)
      ensures old(trace) <= trace
      ensures forall i :: |old(trace)| <= i < |trace| ==>
                trace[i].routes == routes && old(services).Keys - Swept(old(services), c, sweep) <= trace[i].services.Keys
    {
      var todo := Swept(services, c, sweep);
      ghost var gone := {};
      while todo != {}
        invariant todo + gone == Swept(old(services), c, sweep) && todo !! gone
        invariant services == old(services) - gone
        invariant old(trace) <= trace
        invariant forall i :: |old(trace)| <= i < |trace| ==>
                    trace[i].routes == routes && old(services).Keys - Swept(old(services), c, sweep) <= trace[i].services.Keys
        decreases todo
      {
        var name :| name in todo;
        todo, gone := todo - {name}, gone + {name};
        services := services - {name};
        assert services == old(services) - gone;
        trace := trace + [View()];
      }
      assert gone == Swept(old(services), c, sweep);
    }

    method DeleteOutdatedDeployments(c: Commit, sweep: Sweep)
      modifies this`deployments, this`trace
      ensures deployments == old(deployments) - Swept(old(deployments), c, sweep)
      ensures old(trace) <= trace
      ensures forall i :: |old(trace)| <= i < |trace| ==>
                trace[i].services == services && trace[i].routes == routes
    {
      var todo := Swept(deployments, c, sweep);
      ghost var gone := {};
      while todo != {}
        invariant todo + gone == Swept(old(deployments), c, sweep) && todo !! gone
        invariant deployments == old(deployments) - gone
        invariant routes == old(routes) && services == old(services)
        invariant old(trace) <= trace
        invariant forall i :: |old(trace)| <= i < |trace| ==> trace[i].services == services && trace[i].routes == routes
        decreases todo
      {
        var name :| name in todo;
        todo, gone := todo - {name}, gone + {name};
        deployments := deployments - {name};
        assert deployments == old(deployments) - gone;
        trace := trace + [View()];
      }
      assert gone == Swept(old(deployments), c, sweep);
    }

    method ApplyTenantObjects(c: Commit, f: Faults) returns (ok: bool)
      modifies this
      ensures View() == AfterApply(old(View()), c, f).0 && ok == AfterApply(old(View()), c, f).1
      ensures old(trace) <= trace
      ensures forall i :: |old(trace)| <= i < |trace| ==> KeepsTraffic(old(View()), trace[i], c)
    {
      ok := ApplyDeployment(DeployName(c), TenantLabels(c), f.deployment);
      if ok {
        ok := ApplyService(DeployName(c), TenantLabels(c), f.service);
        if ok {
          ok := ApplyIngressRoute(DeployName(c), DeployName(c) + "." + TENANT_HOST_ZONE, DeployName(c), f.preview);
          ok := ok && f.ready.Acked?;
        }
      }
    }

    method CutOver(c: Commit, domains: seq<string>, f: Faults)
      modifies this
      ensures View() == AfterCutover(old(View()), c, domains, f)
      ensures old(trace) <= trace
      ensures forall i :: |old(trace)| <= i < |trace| ==> Repointed(old(View()), trace[i], c)
    {
      var aliased := ApplyIngressRoute(AliasName(c.slug), c.slug + "." + TENANT_HOST_ZONE, DeployName(c), f.alias);
      if f.domainsListed {
        var applied := ApplyDomains(c, domains, f.domain);
      }
    }

    /** Instant rollback; `ready` and `login` come from the store. A failed domain is left out of
        the answer and does not stop the others. */
    method Promote(ready: bool, login: string, c: Commit, domains: seq<string>, f: Faults) returns (r: Promotion)
      modifies this
      ensures !ready || login == "" ==> r == Refused && View() == old(View())
      ensures ready && login != "" ==>
                View() == AfterPromote(old(View()), c, domains, f)
                && r == if !f.alias.Acked? then AliasFailed else Promoted(if f.domainsListed then Answered(domains, f.domain) else [])
      ensures old(trace) <= trace
      ensures forall i :: |old(trace)| <= i < |trace| ==> Repointed(old(View()), trace[i], c)
    {
      if !ready || login == "" {
        return Refused;
      }
      var aliased := ApplyIngressRoute(AliasName(c.slug), c.slug + "." + TENANT_HOST_ZONE, DeployName(c), f.alias);
      if !aliased {
        return AliasFailed;
      }
      var promoted: seq<string> := [];
      if f.domainsListed {
        promoted := ApplyDomains(c, domains, f.domain);
      }
      return Promoted(promoted);
    }

    /** The tail of `runOne`. Whatever fails, the final state is AfterTail; and when all calls
        succeed, no production route that resolved before dangles at any moment. */
    method RunTail(c: Commit, domains: seq<string>, f: Faults) returns (ok: bool)
      modifies this
      ensures View() == AfterTail(old(View()), c, domains, f) && ok == AfterApply(old(View()), c, f).1
      ensures old(trace) <= trace
      ensures AllAcked(f, |domains|) ==>
                forall i, r :: |old(trace)| <= i < |trace| && IsTraffic(r, c, domains) && !Dangles(old(View()), r) ==>
                  !Dangles(trace[i], r)
    {
      ok := ApplyTenantObjects(c, f);
      if ok && IsProduction(c) {
        CutOver(c, domains, f);
        DeleteOutdatedDeployments(c, f.sweepDeployments);
        DeleteOutdatedServices(c, f.sweepServices);
        if AllAcked(f, |domains|) {
          TrafficIsMoved(old(View()), c, domains, f);
        }
      }
    }
  }
}
