/** A cluster with one route: nothing but the cluster domain and what the inspector finds can
    speak against it. */
module LoneRoute {
  import opened Wrappers
  import opened Strings
  import opened DnsName
  import opened Cluster
  import opened Conflict
  import opened ConflictTheorems
  import opened Convert
  import opened Plans
  import opened PlanTheorems
  import opened RunTheorems
  import opened Reconciler
  import Api
  import Caddyfile
  import Corefile
  import CorefileTheorems
  import Disjointness
  import Render
  import RenderTheorems
  import RoundTrip
  import ServerKeys

  predicate OnDns(l: Corefile.Listener) {
    l.transport == "dns" && l.port == 53
  }

  /** With only one route listed, nothing but the cluster domain and what CoreDNS serves can
      speak against it. */
  lemma LoneRouteAccepted(z: ZoneRoute, corefile: string, servers: ConfigMap, domain: string, plan: Plan)
    requires IsPlan([z], corefile, servers, domain, plan)
    requires forall x | x in z.zones :: !Inside(Canonical(x), Canonical(domain))
    requires forall x, l | x in z.zones && l in plan.inspected.listeners && OnDns(l) :: Canonical(l.zone) != Canonical(x)
    ensures DecisionFor(plan.decisions, z.name).accepted
  {
    hide IsPlan, ToExisting, Canonical, Inside, OnDns;
    var r, existing := ToConflictRoute(z), ToExisting(plan.inspected.listeners);
    DecisionOfItem([z], corefile, servers, domain, plan, z);
    CanonicalZonesSpec(z.zones);
    var zones := CanonicalZones(r.zones);
    forall c | c in zones ensures c !in Served(existing) {
      ServedSpec(existing, c);
      NobodyServes(plan.inspected.listeners, z.zones, c);
    }
    NothingReserved(zones, Canonical(domain));
    NothingOwned(zones, Served(existing));
    LoneField(z, plan, domain);
  }

  lemma NobodyServes(listeners: map<Corefile.Listener, string>, zones: seq<string>, c: string)
    requires exists x :: x in zones && Canonical(x) == c
    requires forall x, l | x in zones && l in listeners && OnDns(l) :: Canonical(l.zone) != Canonical(x)
    ensures forall e | e in ToExisting(listeners) :: !Serves(e, c)
  {
    hide Canonical;
    var x :| x in zones && Canonical(x) == c;
    forall e | e in ToExisting(listeners) ensures !Serves(e, c) {
      assert e in ExistingSet(listeners);
      var l :| l in listeners && e == ExistingOf(l, listeners[l]);
    }
  }

  lemma {:induction false} NothingReserved(zones: seq<string>, domain: string)
    requires forall c | c in zones :: !Inside(c, domain)
    ensures ReservedZones(zones, domain) == []
  {
    hide Inside;
    if zones != [] {
      NothingReserved(zones[..|zones| - 1], domain);
    }
  }

  lemma {:induction false} NothingOwned(zones: seq<string>, served: map<string, OwnedByCoreDNS>)
    requires forall c | c in zones :: c !in served
    ensures OwnedZones(zones, served) == []
  {
    if zones != [] {
      NothingOwned(zones[..|zones| - 1], served);
    }
  }

  lemma LoneField(z: ZoneRoute, plan: Plan, domain: string)
    ensures Rivals(CandidateOf(ToConflictRoute(z)), FieldOf([z], plan, domain)) == {}
  {
    hide Served, ToExisting, Screen, Wins;
    var c := CandidateOf(ToConflictRoute(z));
    LessTotal(c.name, c.name);
    assert !Before(c, c);
    assert ToConflictRoutes([z]) == [ToConflictRoute(z)];
  }

  lemma OnlyItem(items: seq<ZoneRoute>, z: ZoneRoute)
    requires DistinctItems(items) && z in items && forall x | x in items :: x == z
    ensures items == [z]
  {
    var i :| 0 <= i < |items| && items[i] == z;
    forall j | 0 <= j < |items| ensures items[j] == z && j == i {
      assert items[j] in items && items[j].name == items[i].name;
    }
    assert items[0] == items[|items| - 1] == z;
  }

  lemma OneItem(z: ZoneRoute)
    ensures Items(map[z.name := z]) == [z] && NamedByKey(map[z.name := z])
  {
    hide Items;
    var routes := map[z.name := z];
    ItemsElements(routes);
    ItemsCurrent(routes);
    OnlyItem(Items(routes), z);
  }

  // ---- a cluster with one zone

  function RouteFor(zone: string): ZoneRoute {
    ZoneRoute("r", 0, 1, 1, [zone], [Render.Upstream("10.0.0.1", 53)], NO_STATUS)
  }

  /** These ConfigMaps, and a route with this zone. */
  function ClusterFor(zone: string, coredns: Option<ConfigMap>, custom: Option<ConfigMap>): Store {
    Store(map["r" := RouteFor(zone)], coredns, custom, 1)
  }

  lemma UpstreamValid()
    ensures RenderTheorems.ValidUpstream(Render.Upstream("10.0.0.1", 53))
  {
  }

  lemma RouteForAdmitted(zone: string)
    requires Api.ValidZone(zone)
    ensures Disjointness.Admitted(RouteFor(zone))
  {
    hide Api.ValidZone, RenderTheorems.ValidUpstream, Canonical;
    UpstreamValid();
  }

  lemma ListenerZonesCanonical(text: string, l: Corefile.Listener)
    requires CorefileTheorems.Defines(text, l)
    ensures Canonical(l.zone) == l.zone
  {
    hide Canonical, Corefile.WithoutImports, Corefile.ParseKey;
    var keys := Corefile.BlockKeys(Caddyfile.Parse(Corefile.WithoutImports(text)).value);
    var k :| k in keys && Corefile.ParseKey(k) == Ok(l);
    ServerKeys.KeyZoneCanonical(k);
  }

  /** The one route is accepted if its zone is outside the cluster domain and the inspector
      finds it in no text. */
  lemma LoneZoneAccepted(zone: string, corefile: string, servers: ConfigMap, domain: string) returns (plan: Plan)
    requires Corefile.Inspection(corefile, servers).Ok? && TrimSpace(domain) != ""
    requires !Inside(Canonical(zone), Canonical(domain))
    requires !CorefileTheorems.Defines(corefile, RoundTrip.ZoneListener(zone))
    requires forall k | k in Corefile.ReadKeys(servers) :: !CorefileTheorems.Defines(servers[k], RoundTrip.ZoneListener(zone))
    ensures MakePlan([RouteFor(zone)], corefile, servers, domain) == Ok(plan)
    ensures DecisionFor(plan.decisions, "r").accepted
  {
    hide CorefileTheorems.Defines, Canonical, Inside, Corefile.Inspection, Render.Rendering, ToExisting, TrimSpace, DecisionFor, Decisions;
    plan := MakePlan([RouteFor(zone)], corefile, servers, domain).value;
    forall l | l in plan.inspected.listeners && OnDns(l) ensures Canonical(l.zone) != Canonical(zone) {
      CorefileTheorems.ListenersAttributed(corefile, servers, l);
      if CorefileTheorems.Defines(corefile, l) {
        ListenerZonesCanonical(corefile, l);
      } else {
        var k :| k in Corefile.ReadKeys(servers) && CorefileTheorems.Defines(servers[k], l);
        ListenerZonesCanonical(servers[k], l);
      }
    }
    LoneRouteAccepted(RouteFor(zone), corefile, servers, domain, plan);
  }
}
