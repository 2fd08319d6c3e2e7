/** The reason a route is given, in terms of the objects: its zones and creation time, what the
    texts define, the other routes, and what became of publishing. */
module Reasons {
  import opened Wrappers
  import opened Strings
  import opened DnsName
  import opened Cluster
  import opened Conflict
  import opened Conditions
  import opened Convert
  import opened Plans
  import opened PlanTheorems
  import opened OldestClaim
  import ConflictTheorems
  import Corefile
  import CorefileTheorems
  import LoneRoute
  import Render

  // ---- what speaks against a route

  /** A zone of the route is the cluster domain or below it. */
  ghost predicate IsReserved(z: ZoneRoute, domain: string) {
    exists x :: x in z.zones && InDomain(Canonical(x), Canonical(domain))
  }

  ghost predicate TextServes(corefile: string, servers: ConfigMap, zone: string) {
    var l := Corefile.Listener("dns", zone, 53);
    || CorefileTheorems.Defines(corefile, l)
    || exists k :: k in servers && HasSuffix(k, ".server") && k != "zoneroute.server" && CorefileTheorems.Defines(servers[k], l)
  }

  /** The Corefile or another server key has a zone of the route on plain DNS, port 53. */
  ghost predicate IsTaken(z: ZoneRoute, corefile: string, servers: ConfigMap) {
    exists x :: x in z.zones && TextServes(corefile, servers, Canonical(x))
  }

  ghost predicate CreatedEarlier(y: ZoneRoute, z: ZoneRoute) {
    y.created < z.created || (y.created == z.created && Less(y.name, z.name))
  }

  ghost predicate ShareZone(y: ZoneRoute, z: ZoneRoute) {
    exists a, b :: a in y.zones && b in z.zones && Canonical(a) == Canonical(b)
  }

  /** A route created earlier has one of its zones, and is itself accepted. */
  ghost predicate IsBeaten(z: ZoneRoute, items: seq<ZoneRoute>, plan: Plan, state: PublishState, domain: string) {
    exists y :: y in items && WantedStatus(y, plan, state, domain).accepted.value.status && CreatedEarlier(y, z) && ShareZone(y, z)
  }

  // ---- the resolver's terms

  lemma ListenersServe(corefile: string, servers: ConfigMap, zone: string)
    requires Corefile.Inspection(corefile, servers).Ok?
    ensures IsServed(ToExisting(Corefile.Inspection(corefile, servers).value.listeners), zone) <==> TextServes(corefile, servers, zone)
  {
    hide Canonical, Corefile.Inspection, CorefileTheorems.Defines, ToExisting;
    var listeners, l := Corefile.Inspection(corefile, servers).value.listeners, Corefile.Listener("dns", zone, 53);
    CorefileTheorems.ListenersAttributed(corefile, servers, l);
    assert Corefile.ReadKeys(servers) == set k | k in servers && HasSuffix(k, ".server") && k != "zoneroute.server";
    if TextServes(corefile, servers, zone) {
      assert ExistingOf(l, listeners[l]) in ExistingSet(listeners);
      ListenerCanonical(corefile, servers, l);
      assert Canonical(ExistingOf(l, listeners[l]).zone) == zone;
    }
    if IsServed(ToExisting(listeners), zone) {
      var e :| e in ToExisting(listeners) && e.transport == "dns" && e.port == 53 && Canonical(e.zone) == zone;
      assert e in ExistingSet(listeners);
      var m :| m in listeners && e == ExistingOf(m, listeners[m]);
      CorefileTheorems.ListenersAttributed(corefile, servers, m);
      ListenerCanonical(corefile, servers, m);
      assert m == l;
    }
  }

  lemma ListenerCanonical(corefile: string, servers: ConfigMap, l: Corefile.Listener)
    requires Corefile.Inspection(corefile, servers).Ok? && l in Corefile.Inspection(corefile, servers).value.listeners
    ensures Canonical(l.zone) == l.zone
  {
    hide Canonical, Corefile.Inspection, CorefileTheorems.Defines;
    CorefileTheorems.ListenersAttributed(corefile, servers, l);
    if CorefileTheorems.Defines(corefile, l) {
      LoneRoute.ListenerZonesCanonical(corefile, l);
    } else {
      var k :| k in Corefile.ReadKeys(servers) && CorefileTheorems.Defines(servers[k], l);
      LoneRoute.ListenerZonesCanonical(servers[k], l);
    }
  }

  /** The decision about a listed route is the resolver's decision about these fields of it. */
  lemma ItemDecided(items: seq<ZoneRoute>, corefile: string, servers: ConfigMap, domain: string, plan: Plan, z: ZoneRoute)
    requires IsPlan(items, corefile, servers, domain, plan) && z in items
    ensures var r, d := Route(z.name, z.created, z.zones), DecisionFor(plan.decisions, z.name);
            var routes, existing := ToConflictRoutes(items), ToExisting(plan.inspected.listeners);
            && r in routes && d in plan.decisions && d.name == z.name
            && (IsAccepted(plan.decisions, z.name) <==> d.accepted)
            && PartsAre(d, r, existing, Canonical(domain))
            && (d.reserved == [] && d.owned == [] ==>
                  forall x :: x in d.conflicts <==> exists w :: HeldBy(routes, plan.decisions, w, r, x.zone) && w.name == x.winner)
  {
    hide ToExisting, Canonical, Corefile.Inspection, Render.Rendering, Decisions, HeldBy, PartsAre, ConflictTheorems.Correct;
    var r, d := ToConflictRoute(z), DecisionFor(plan.decisions, z.name);
    var routes, existing := ToConflictRoutes(items), ToExisting(plan.inspected.listeners);
    DecisionOfItem(items, corefile, servers, domain, plan, z);
    ConflictRoutesUnique(items);
    var i :| 0 <= i < |items| && items[i] == z;
    assert routes[i] == r;
    DecisionExactly(routes, existing, domain, r, d);
  }

  lemma AcceptedIffUnopposed(items: seq<ZoneRoute>, corefile: string, servers: ConfigMap, domain: string, plan: Plan, z: ZoneRoute, state: PublishState)
    requires IsPlan(items, corefile, servers, domain, plan) && z in items
    ensures WantedStatus(z, plan, state, domain).accepted.value.status <==> IsAccepted(plan.decisions, z.name)
  {
    hide IsPlan, PartsAre, HeldBy, WantedStatus, IsAccepted;
    ItemDecided(items, corefile, servers, domain, plan, z);
    StatusDecisionFragmentAgree(items, corefile, servers, domain, plan, z, state);
  }

  lemma ReservedExactly(items: seq<ZoneRoute>, corefile: string, servers: ConfigMap, domain: string, plan: Plan, z: ZoneRoute)
    requires IsPlan(items, corefile, servers, domain, plan) && z in items
    ensures DecisionFor(plan.decisions, z.name).reserved != [] <==> IsReserved(z, domain)
  {
    hide IsPlan, Canonical, InDomain, DecisionFor, HeldBy;
    ItemDecided(items, corefile, servers, domain, plan, z);
    var r, d := Route(z.name, z.created, z.zones), DecisionFor(plan.decisions, z.name);
    HasFirst(d.reserved);
    if IsReserved(z, domain) {
      var x :| x in z.zones && InDomain(Canonical(x), Canonical(domain));
      assert HasZone(r, Canonical(x));
    }
  }

  lemma HasFirst<T>(s: seq<T>)
    ensures s != [] <==> exists x :: x in s
  {
    if s != [] {
      assert s[0] in s;
    }
  }

  lemma TakenExactly(items: seq<ZoneRoute>, corefile: string, servers: ConfigMap, domain: string, plan: Plan, z: ZoneRoute)
    requires IsPlan(items, corefile, servers, domain, plan) && z in items && DecisionFor(plan.decisions, z.name).reserved == []
    ensures DecisionFor(plan.decisions, z.name).owned != [] <==> IsTaken(z, corefile, servers)
  {
    hide Canonical, InDomain, DecisionFor, HeldBy, IsServed, ServedFrom, TextServes, ToExisting, Resolution, Corefile.Inspection, Render.Rendering;
    ItemDecided(items, corefile, servers, domain, plan, z);
    var r, d := Route(z.name, z.created, z.zones), DecisionFor(plan.decisions, z.name);
    var existing := ToExisting(plan.inspected.listeners);
    HasFirst(d.owned);
    forall zone ensures IsServed(existing, zone) <==> TextServes(corefile, servers, zone) {
      ListenersServe(corefile, servers, zone);
    }
    if d.owned != [] {
      var o :| o in d.owned;
      FromIsServed(existing, o.zone, o.source);
      var x :| x in r.zones && Canonical(x) == o.zone;
    }
    if IsTaken(z, corefile, servers) {
      var x :| x in z.zones && TextServes(corefile, servers, Canonical(x));
      assert HasZone(r, Canonical(x)) && IsServed(existing, Canonical(x));
    }
  }

  lemma FromIsServed(existing: seq<Existing>, zone: string, source: string)
    requires ServedFrom(existing, zone, source)
    ensures IsServed(existing, zone)
  {
  }

  lemma BeatenExactly(items: seq<ZoneRoute>, corefile: string, servers: ConfigMap, domain: string, plan: Plan, z: ZoneRoute, state: PublishState)
    requires IsPlan(items, corefile, servers, domain, plan) && z in items
    requires var d := DecisionFor(plan.decisions, z.name); d.reserved == [] && d.owned == []
    ensures DecisionFor(plan.decisions, z.name).conflicts != [] <==> IsBeaten(z, items, plan, state, domain)
  {
    hide IsPlan, Canonical, DecisionFor, AcceptedCondition, PublishedCondition, IsAccepted, PartsAre, Less;
    ItemDecided(items, corefile, servers, domain, plan, z);
    var r, d, routes := Route(z.name, z.created, z.zones), DecisionFor(plan.decisions, z.name), ToConflictRoutes(items);
    HasFirst(d.conflicts);
    forall y | y in items
      ensures WantedStatus(y, plan, state, domain).accepted.value.status <==> IsAccepted(plan.decisions, y.name)
      ensures Route(y.name, y.created, y.zones) in routes
    {
      AcceptedIffUnopposed(items, corefile, servers, domain, plan, y, state);
      ItemDecided(items, corefile, servers, domain, plan, y);
    }
    if d.conflicts != [] {
      var x :| x in d.conflicts;
      var w :| HeldBy(routes, plan.decisions, w, r, x.zone) && w.name == x.winner;
      var y := RouteItem(items, w);
      HeldSharing(routes, plan.decisions, w, r, x.zone, y, z);
    }
    if IsBeaten(z, items, plan, state, domain) {
      var y :| y in items && WantedStatus(y, plan, state, domain).accepted.value.status && CreatedEarlier(y, z) && ShareZone(y, z);
      var a, b :| a in y.zones && b in z.zones && Canonical(a) == Canonical(b);
      var w, x := Route(y.name, y.created, y.zones), ZoneConflict(Canonical(a), y.name);
      assert HasZone(w, x.zone) && HasZone(r, x.zone);
      assert HeldBy(routes, plan.decisions, w, r, x.zone) && w.name == x.winner;
      assert x in d.conflicts;
    }
  }

  lemma RouteItem(items: seq<ZoneRoute>, w: Route) returns (y: ZoneRoute)
    requires w in ToConflictRoutes(items)
    ensures y in items && w == Route(y.name, y.created, y.zones)
  {
    var i :| 0 <= i < |items| && ToConflictRoutes(items)[i] == w;
    y := items[i];
  }

  lemma HeldSharing(routes: seq<Route>, ds: seq<Decision>, w: Route, r: Route, zone: string, y: ZoneRoute, z: ZoneRoute)
    requires HeldBy(routes, ds, w, r, zone)
    requires w == Route(y.name, y.created, y.zones) && r == Route(z.name, z.created, z.zones)
    ensures IsAccepted(ds, y.name) && CreatedEarlier(y, z) && ShareZone(y, z)
  {
    hide Canonical, Less, IsAccepted;
    var a :| a in w.zones && Canonical(a) == zone;
    var b :| b in r.zones && Canonical(b) == zone;
  }

  // ---- Accepted

  /** Which of the five reasons a run wants for a listed route, and when the condition is true. */
  lemma AcceptedReasons(items: seq<ZoneRoute>, corefile: string, servers: ConfigMap, domain: string, plan: Plan, z: ZoneRoute, state: PublishState)
    requires IsPlan(items, corefile, servers, domain, plan) && z in items
    ensures var c, unresolved := WantedStatus(z, plan, state, domain).accepted.value, plan.inspected.unresolved;
            var reserved, taken, beaten := IsReserved(z, domain), IsTaken(z, corefile, servers), IsBeaten(z, items, plan, state, domain);
            && (c.reason == "ReservedZone" <==> reserved)
            && (c.reason == "ZoneOwnedByCoreDNS" <==> !reserved && taken)
            && (c.reason == "ZoneConflict" <==> !reserved && !taken && beaten)
            && (c.reason == "AcceptedWithUnresolvedImports" <==> !reserved && !taken && !beaten && unresolved != [])
            && (c.reason == "Accepted" <==> !reserved && !taken && !beaten && unresolved == [])
            && (c.status <==> !reserved && !taken && !beaten)
  {
    hide IsPlan, IsReserved, IsTaken, IsBeaten, DecisionFor, AcceptedMessage;
    var d := DecisionFor(plan.decisions, z.name);
    ReservedExactly(items, corefile, servers, domain, plan, z);
    if d.reserved == [] {
      TakenExactly(items, corefile, servers, domain, plan, z);
      if d.owned == [] {
        BeatenExactly(items, corefile, servers, domain, plan, z, state);
      }
    }
    ReasonOf(d, plan.inspected.unresolved, domain, z.generation);
    AcceptedStatus(d, plan.inspected.unresolved, domain, z.generation);
  }

  lemma ReasonOf(d: Decision, unresolved: seq<Corefile.Import>, domain: string, generation: int)
    ensures AcceptedCondition(d, unresolved, domain, generation).reason
              == if d.reserved != [] then "ReservedZone" else if d.owned != [] then "ZoneOwnedByCoreDNS"
                 else if d.conflicts != [] then "ZoneConflict"
                 else if unresolved != [] then "AcceptedWithUnresolvedImports" else "Accepted"
  {
    hide AcceptedMessage;
  }

  // ---- Published

  /** The ConfigMap that was read has this text under the managed key. */
  predicate Holds(custom: Option<ConfigMap>, text: string) {
    custom.Some? && "zoneroute.server" in custom.value && custom.value["zoneroute.server"] == text
  }

  /** Which of the six reasons a run wants when it publishes into the ConfigMap it has read;
      `refused` is the API's answer if it refuses the patch. */
  lemma PublishedReasons(z: ZoneRoute, plan: Plan, custom: Option<ConfigMap>, refused: Option<string>, domain: string)
    ensures var s := WantedStatus(z, plan, PublishTo(custom, plan.fragment, refused).state, domain);
            var c, accepted, fragment := s.published.value, DecisionFor(plan.decisions, z.name).accepted, plan.fragment;
            var written := custom.Some? && fragment.Ok? && (Holds(custom, fragment.value) || refused.None?);
            && (c.reason == "NotAccepted" <==> !accepted)
            && (c.reason == "IntegrationConfigMissing" <==> accepted && custom.None?)
            && (c.reason == "FragmentInvalid" <==> accepted && custom.Some? && fragment.Err?)
            && (c.reason == "WriteFailed" <==> accepted && custom.Some? && fragment.Ok? && !Holds(custom, fragment.value) && refused.Some?)
            && (c.reason == "CoreDNSNotWired" <==> accepted && written && !plan.inspected.wired)
            && (c.reason == "Published" <==> accepted && written && plan.inspected.wired)
            && (c.status <==> accepted && written && plan.inspected.wired)
  {
    hide AcceptedCondition, DecisionFor;
    var state := PublishTo(custom, plan.fragment, refused).state;
    PublishReasonOf(DecisionFor(plan.decisions, z.name).accepted, state, plan.inspected.wired, z.generation);
    PublishedStatus(DecisionFor(plan.decisions, z.name).accepted, state, plan.inspected.wired, z.generation);
  }

  lemma PublishReasonOf(accepted: bool, state: PublishState, wired: bool, generation: int)
    ensures PublishedCondition(accepted, state, wired, generation).reason
              == if !accepted then "NotAccepted"
                 else match state
                   case ConfigMissing => "IntegrationConfigMissing"
                   case FragmentInvalid(_) => "FragmentInvalid"
                   case WriteFailed(_) => "WriteFailed"
                   case InPlace => if wired then "Published" else "CoreDNSNotWired"
  {
  }
}
