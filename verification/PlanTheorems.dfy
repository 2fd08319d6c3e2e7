/** What a run's decisions mean for the published text: status, decision and fragment agree,
    and the fragment never collides with anything CoreDNS already serves. */
module PlanTheorems {
  import opened Wrappers
  import opened Sorting
  import opened Strings
  import opened DnsName
  import opened Cluster
  import opened Conflict
  import opened ConflictTheorems
  import opened Conditions
  import opened Convert
  import opened Plans
  import Corefile
  import OldestClaim
  import Render

  ghost predicate DistinctItems(items: seq<ZoneRoute>) {
    forall i, j | 0 <= i < j < |items| :: items[i].name != items[j].name
  }

  lemma ConflictRoutesUnique(items: seq<ZoneRoute>)
    requires DistinctItems(items)
    ensures UniqueNames(ToConflictRoutes(items))
  {
  }

  // ---- looking a decision up

  lemma {:induction false} DecisionForSpec(ds: seq<Decision>, name: string)
    ensures name in DecisionNames(ds) ==> DecisionFor(ds, name) in ds && DecisionFor(ds, name).name == name
    ensures name !in DecisionNames(ds) ==> DecisionFor(ds, name) == NO_DECISION
  {
    if ds != [] {
      var init, last := ds[..|ds| - 1], ds[|ds| - 1];
      assert ds == init + [last];
      DecisionForSpec(init, name);
      assert DecisionNames(ds) == DecisionNames(init) + {last.name};
    }
  }

  lemma SortedNamesDistinct(ds: seq<Decision>, d: Decision, e: Decision)
    requires StrictlySorted(ds, Conflict.ByName) && d in ds && e in ds && d.name == e.name
    ensures d == e
  {
    var i :| 0 <= i < |ds| && ds[i] == d;
    var j :| 0 <= j < |ds| && ds[j] == e;
    LessTotal(d.name, d.name);
    assert !(i < j) && !(j < i);
  }

  /** The candidate of an item and its rivals in a plan. */
  ghost function FieldOf(items: seq<ZoneRoute>, plan: Plan, domain: string): set<Candidate> {
    Field(ToConflictRoutes(items), Served(ToExisting(plan.inspected.listeners)), Canonical(domain))
  }

  ghost predicate IsPlan(items: seq<ZoneRoute>, corefile: string, servers: ConfigMap, domain: string, plan: Plan) {
    DistinctItems(items) && MakePlan(items, corefile, servers, domain) == Ok(plan)
  }

  /** Every listed route has exactly one decision, and it is the correct one. */
  lemma DecisionOfItem(items: seq<ZoneRoute>, corefile: string, servers: ConfigMap, domain: string, plan: Plan, z: ZoneRoute)
    requires IsPlan(items, corefile, servers, domain, plan) && z in items
    ensures var d, c := DecisionFor(plan.decisions, z.name), CandidateOf(ToConflictRoute(z));
            && d in plan.decisions && d.name == z.name
            && (forall e | e in plan.decisions && e.name == z.name :: e == d)
            && Correct(d, ToConflictRoute(z), Rivals(c, FieldOf(items, plan, domain)),
                       Served(ToExisting(plan.inspected.listeners)), Canonical(domain))
  {
    hide Correct, Served, Corefile.Inspection, Render.Rendering;
    var routes, existing := ToConflictRoutes(items), ToExisting(plan.inspected.listeners);
    ConflictRoutesUnique(items);
    DecisionsCorrect(routes, existing, Canonical(domain));
    var i :| 0 <= i < |items| && items[i] == z;
    assert routes[i] == ToConflictRoute(z) && routes[i] in routes;
    assert z.name in RouteNames(routes);
    DecisionForSpec(plan.decisions, z.name);
    forall e | e in plan.decisions && e.name == z.name ensures e == DecisionFor(plan.decisions, z.name) {
      SortedNamesDistinct(plan.decisions, e, DecisionFor(plan.decisions, z.name));
    }
  }

  /** The truth values of the two conditions, whatever they say in words. */
  lemma AcceptedStatus(d: Decision, unresolved: seq<Corefile.Import>, domain: string, generation: int)
    ensures var c := AcceptedCondition(d, unresolved, domain, generation);
            && (c.status <==> d.reserved == [] && d.owned == [] && d.conflicts == [])
            && c.observedGeneration == generation
  {
    hide AcceptedMessage;
  }

  lemma PublishedStatus(accepted: bool, state: PublishState, wired: bool, generation: int)
    ensures var c := PublishedCondition(accepted, state, wired, generation);
            && (c.status <==> accepted && state.InPlace? && wired)
            && c.observedGeneration == generation
  {
  }

  /** Status, decision and fragment agree: the Accepted condition is true iff the resolver
      accepted the route iff its block, at its generation, is among the rendered routes;
      Published is true only if it is accepted, the fragment is in place, and the Corefile is
      wired. */
  lemma StatusDecisionFragmentAgree(items: seq<ZoneRoute>, corefile: string, servers: ConfigMap, domain: string, plan: Plan, z: ZoneRoute, state: PublishState)
    requires IsPlan(items, corefile, servers, domain, plan) && z in items
    ensures var d, s := DecisionFor(plan.decisions, z.name), WantedStatus(z, plan, state, domain);
            var rendered := ToRenderRoutes(items, AcceptedNames(plan.decisions));
            && (s.accepted.value.status <==> d.accepted)
            && (d.accepted <==> Render.Route(z.name, z.generation, z.zones, z.upstreams) in rendered)
            && (forall r | r in rendered && r.name == z.name :: r == Render.Route(z.name, z.generation, z.zones, z.upstreams))
            && (s.published.value.status <==> d.accepted && state.InPlace? && plan.inspected.wired)
            && s.observedGeneration == s.accepted.value.observedGeneration == s.published.value.observedGeneration == z.generation
  {
    hide Correct, Served, IsPlan, AcceptedCondition, PublishedCondition, ToExisting;
    var d, ds := DecisionFor(plan.decisions, z.name), plan.decisions;
    DecisionOfItem(items, corefile, servers, domain, plan, z);
    OldestClaim.OneState(d, ToConflictRoute(z), Rivals(CandidateOf(ToConflictRoute(z)), FieldOf(items, plan, domain)),
                         Served(ToExisting(plan.inspected.listeners)), Canonical(domain));
    AcceptedStatus(d, plan.inspected.unresolved, domain, z.generation);
    PublishedStatus(d.accepted, state, plan.inspected.wired, z.generation);
    RenderRoutesMembers(items, AcceptedNames(ds));
    assert z.name in AcceptedNames(ds) <==> d.accepted;
    assert DistinctItems(items) by {
      PlanItemsDistinct(items, corefile, servers, domain, plan);
    }
    forall r | r in ToRenderRoutes(items, AcceptedNames(ds)) && r.name == z.name ensures r == ToRenderRoute(z) {
      var y :| y in items && y.name in AcceptedNames(ds) && r == ToRenderRoute(y);
      SameItem(items, y, z);
    }
  }

  lemma PlanItemsDistinct(items: seq<ZoneRoute>, corefile: string, servers: ConfigMap, domain: string, plan: Plan)
    requires IsPlan(items, corefile, servers, domain, plan)
    ensures DistinctItems(items)
  {
  }

  lemma SameItem(items: seq<ZoneRoute>, y: ZoneRoute, z: ZoneRoute)
    requires DistinctItems(items) && y in items && z in items && y.name == z.name
    ensures y == z
  {
    var i :| 0 <= i < |items| && items[i] == y;
    var j :| 0 <= j < |items| && items[j] == z;
    assert !(i < j) && !(j < i);
  }

  /** The mapping itself does not look at acceptance: a route without a decision would be
      reported as accepted. That every listed route has one is `DecisionOfItem`. */
  lemma MissingDecisionReadsAsAccepted(unresolved: seq<Corefile.Import>, domain: string, generation: int)
    ensures AcceptedCondition(NO_DECISION, unresolved, domain, generation).status && !NO_DECISION.accepted
  {
  }
}
