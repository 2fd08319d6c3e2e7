/** The safety claim for one plan, on the text itself: a fragment that renders never collides
    with what CoreDNS already serves, never claims the cluster domain, and names each zone
    once. What that means for whole runs is in `Safety`. */
module Disjointness {
  import opened Wrappers
  import opened Sorting
  import opened Strings
  import opened DnsName
  import opened Cluster
  import opened Conflict
  import opened ConflictTheorems
  import opened Convert
  import opened Plans
  import opened PlanTheorems
  import Api
  import Conditions
  import Caddyfile
  import Corefile
  import CorefileTheorems
  import Openings
  import Render
  import RenderTheorems
  import RenderOrder
  import RoundTrip

  // ---- accepted zones

  lemma {:induction false} NoneReserved(zones: seq<string>, domain: string)
    requires ReservedZones(zones, domain) == []
    ensures forall z | z in zones :: !Inside(z, domain)
  {
    if zones != [] {
      assert zones == zones[..|zones| - 1] + [zones[|zones| - 1]];
      NoneReserved(zones[..|zones| - 1], domain);
    }
  }

  lemma {:induction false} NoneOwned(zones: seq<string>, served: map<string, OwnedByCoreDNS>)
    requires OwnedZones(zones, served) == []
    ensures forall z | z in zones :: z !in served
  {
    if zones != [] {
      assert zones == zones[..|zones| - 1] + [zones[|zones| - 1]];
      NoneOwned(zones[..|zones| - 1], served);
    }
  }

  lemma ListenerIsServed(listeners: map<Corefile.Listener, string>, zone: string)
    ensures RoundTrip.ZoneListener(zone) in listeners ==> Canonical(zone) in Served(ToExisting(listeners))
  {
    var l := RoundTrip.ZoneListener(zone);
    if l in listeners {
      var e := ExistingOf(l, listeners[l]);
      assert e in ExistingSet(listeners);
      CanonicalIdempotent(zone);
      assert Serves(e, Canonical(zone));
      ServedSpec(ToExisting(listeners), Canonical(zone));
    }
  }

  /** The zones of an accepted route lie outside the cluster domain and on listeners nobody
      else was found to serve. */
  lemma AcceptedZonesAreFree(items: seq<ZoneRoute>, corefile: string, servers: ConfigMap, domain: string, plan: Plan, z: ZoneRoute, zone: string)
    requires IsPlan(items, corefile, servers, domain, plan) && z in items
    requires DecisionFor(plan.decisions, z.name).accepted && zone in z.zones
    ensures !Inside(Canonical(zone), Canonical(domain))
    ensures RoundTrip.ZoneListener(zone) !in plan.inspected.listeners
  {
    hide IsPlan, Served, ToExisting;
    var r, served := ToConflictRoute(z), Served(ToExisting(plan.inspected.listeners));
    DecisionOfItem(items, corefile, servers, domain, plan, z);
    var zones := CanonicalZones(r.zones);
    assert ReservedZones(zones, Canonical(domain)) == [] && OwnedZones(zones, served) == [];
    NoneReserved(zones, Canonical(domain));
    NoneOwned(zones, served);
    CanonicalZonesSpec(r.zones);
    assert Canonical(zone) in zones;
    ListenerIsServed(plan.inspected.listeners, zone);
  }

  /** Accepted routes that name the same zone are the same route. */
  lemma AcceptedZonesOnce(items: seq<ZoneRoute>, corefile: string, servers: ConfigMap, domain: string, plan: Plan,
                          y: ZoneRoute, z: ZoneRoute, a: string, b: string)
    requires IsPlan(items, corefile, servers, domain, plan) && y in items && z in items
    requires DecisionFor(plan.decisions, y.name).accepted && DecisionFor(plan.decisions, z.name).accepted
    requires a in y.zones && b in z.zones && Canonical(a) == Canonical(b)
    ensures y == z
  {
    var field := FieldOf(items, plan, domain);
    AcceptedWins(items, corefile, servers, domain, plan, y);
    AcceptedWins(items, corefile, servers, domain, plan, z);
    hide Served, ToExisting, MakePlan, Screen;
    CanonicalZonesSpec(y.zones);
    CanonicalZonesSpec(z.zones);
    ConflictRoutesUnique(items);
    FieldDistinct(ToConflictRoutes(items), Served(ToExisting(plan.inspected.listeners)), Canonical(domain));
    WinnersDisjointAndMaximal(field);
    var cy, cz := CandidateOf(ToConflictRoute(y)), CandidateOf(ToConflictRoute(z));
    assert Canonical(a) in cy.zones && Canonical(a) in cz.zones;
    assert Share(cy, cz);
    SameItem(items, y, z);
  }

  lemma AcceptedWins(items: seq<ZoneRoute>, corefile: string, servers: ConfigMap, domain: string, plan: Plan, z: ZoneRoute)
    requires IsPlan(items, corefile, servers, domain, plan) && z in items
    requires DecisionFor(plan.decisions, z.name).accepted
    ensures CandidateOf(ToConflictRoute(z)) in Winners(FieldOf(items, plan, domain))
  {
    hide Served, ToExisting, MakePlan, Wins, Rivals, ConflictsAre;
    var r, served, field := ToConflictRoute(z), Served(ToExisting(plan.inspected.listeners)), FieldOf(items, plan, domain);
    DecisionOfItem(items, corefile, servers, domain, plan, z);
    WinsFromRivals(CandidateOf(r), field);
    var i :| 0 <= i < |items| && items[i] == z;
    assert ToConflictRoutes(items)[i] == r && r in ToConflictRoutes(items);
    assert Screen(r, served, Canonical(domain)).Admitted?;
  }

  // ---- the fragment of a plan

  /** What the API server admits. */
  ghost predicate Admitted(z: ZoneRoute) {
    Api.ValidName(z.name) && Api.ValidZones(z.zones) && forall u | u in z.upstreams :: RenderTheorems.ValidUpstream(u)
  }

  function Rendered(items: seq<ZoneRoute>, plan: Plan): seq<Render.Route> {
    ToRenderRoutes(items, AcceptedNames(plan.decisions))
  }

  lemma RenderedValid(items: seq<ZoneRoute>, plan: Plan)
    requires forall z | z in items :: Admitted(z)
    ensures RenderTheorems.ValidRoutes(Rendered(items, plan))
  {
    RenderRoutesMembers(items, AcceptedNames(plan.decisions));
    forall r | r in Rendered(items, plan) ensures RenderTheorems.ValidRoute(r) {
      var z :| z in items && r == ToRenderRoute(z);
      assert Admitted(z);
    }
  }

  /** A valid fragment is the rendered text of the accepted routes. */
  lemma PlanFragment(items: seq<ZoneRoute>, corefile: string, servers: ConfigMap, domain: string, plan: Plan)
    requires IsPlan(items, corefile, servers, domain, plan) && plan.fragment.Ok?
    requires forall z | z in items :: Admitted(z)
    ensures RoundTrip.Renderable(Rendered(items, plan))
    ensures plan.fragment.value == Render.FragmentText(Rendered(items, plan))
  {
    RenderedValid(items, plan);
    RoundTrip.RenderingSucceeds(Rendered(items, plan));
  }

  /** Where a listener of the fragment comes from. */
  lemma FragmentListener(items: seq<ZoneRoute>, corefile: string, servers: ConfigMap, domain: string, plan: Plan, l: Corefile.Listener)
    returns (z: ZoneRoute, zone: string)
    requires IsPlan(items, corefile, servers, domain, plan)
    requires l in RoundTrip.FragmentListeners(Rendered(items, plan))
    ensures z in items && DecisionFor(plan.decisions, z.name).accepted && zone in z.zones && l == RoundTrip.ZoneListener(zone)
  {
    var r, zn :| r in Rendered(items, plan) && zn in r.zones && l == RoundTrip.ZoneListener(zn);
    RenderRoutesMembers(items, AcceptedNames(plan.decisions));
    z :| z in items && z.name in AcceptedNames(plan.decisions) && r == ToRenderRoute(z);
    zone := zn;
    DecisionOfItem(items, corefile, servers, domain, plan, z);
  }

  /** Every zone of an accepted route is in the fragment. */
  lemma AcceptedZonesArePublished(items: seq<ZoneRoute>, corefile: string, servers: ConfigMap, domain: string, plan: Plan, z: ZoneRoute, zone: string)
    requires IsPlan(items, corefile, servers, domain, plan) && plan.fragment.Ok?
    requires forall y | y in items :: Admitted(y)
    requires z in items && zone in z.zones && DecisionFor(plan.decisions, z.name).accepted
    ensures CorefileTheorems.Defines(plan.fragment.value, RoundTrip.ZoneListener(zone))
  {
    hide CorefileTheorems.Defines, Render.FragmentText, IsPlan, Admitted;
    PlanFragment(items, corefile, servers, domain, plan);
    RoundTrip.FragmentDefines(Rendered(items, plan));
    DecisionOfItem(items, corefile, servers, domain, plan, z);
    RenderRoutesMembers(items, AcceptedNames(plan.decisions));
    assert z.name in AcceptedNames(plan.decisions);
    assert ToRenderRoute(z) in Rendered(items, plan);
  }

  /** The listener of a zone of an accepted route. */
  ghost predicate AcceptedZone(items: seq<ZoneRoute>, plan: Plan, l: Corefile.Listener) {
    exists z, zone :: z in items && DecisionFor(plan.decisions, z.name).accepted && zone in z.zones && l == RoundTrip.ZoneListener(zone)
  }

  /** The fragment opens exactly the zones of the accepted routes, and the inspector sees it
      that way. */
  lemma FragmentOpens(items: seq<ZoneRoute>, corefile: string, servers: ConfigMap, domain: string, plan: Plan, l: Corefile.Listener)
    requires IsPlan(items, corefile, servers, domain, plan) && plan.fragment.Ok?
    requires forall z | z in items :: Admitted(z)
    ensures Openings.Opens(plan.fragment.value, l) <==> CorefileTheorems.Defines(plan.fragment.value, l)
    ensures Openings.Opens(plan.fragment.value, l) <==> AcceptedZone(items, plan, l)
  {
    hide CorefileTheorems.Defines, Render.FragmentText, Rendered, IsPlan, Admitted, Openings.Opens, Openings.Clear, DecisionFor, ToRenderRoute;
    PlanFragment(items, corefile, servers, domain, plan);
    RoundTrip.FragmentDefines(Rendered(items, plan));
    RoundTrip.FragmentHasNoImports(Rendered(items, plan));
    Openings.NoImportIsClear(plan.fragment.value);
    Openings.ClearIsSeen(plan.fragment.value);
    if l in RoundTrip.FragmentListeners(Rendered(items, plan)) {
      var z, zone := FragmentListener(items, corefile, servers, domain, plan, l);
    }
    if AcceptedZone(items, plan, l) {
      var z, zone :| z in items && DecisionFor(plan.decisions, z.name).accepted && zone in z.zones && l == RoundTrip.ZoneListener(zone);
      AcceptedZonesArePublished(items, corefile, servers, domain, plan, z, zone);
    }
  }

  /** A zone of an accepted route is defined by no text as the inspector reads it, and opened
      by no text in which the inspector sees everything. */
  lemma AcceptedZonesUnseen(items: seq<ZoneRoute>, corefile: string, servers: ConfigMap, domain: string, plan: Plan, l: Corefile.Listener)
    requires IsPlan(items, corefile, servers, domain, plan) && AcceptedZone(items, plan, l)
    ensures !CorefileTheorems.Defines(corefile, l)
    ensures forall k | k in Corefile.ReadKeys(servers) :: !CorefileTheorems.Defines(servers[k], l)
    ensures Openings.Clear(corefile) ==> !Openings.Opens(corefile, l)
    ensures forall k | k in Corefile.ReadKeys(servers) && Openings.Clear(servers[k]) :: !Openings.Opens(servers[k], l)
    ensures l.transport == "dns" && l.port == 53 && !Inside(l.zone, Canonical(domain))
  {
    hide CorefileTheorems.Defines, Corefile.Inspection, Openings.Opens, Openings.Clear, DecisionFor;
    var z, zone :| z in items && DecisionFor(plan.decisions, z.name).accepted && zone in z.zones && l == RoundTrip.ZoneListener(zone);
    AcceptedZonesAreFree(items, corefile, servers, domain, plan, z, zone);
    CorefileTheorems.ListenersAttributed(corefile, servers, l);
    if Openings.Clear(corefile) {
      Openings.ClearIsSeen(corefile);
    }
    forall k | k in Corefile.ReadKeys(servers) && Openings.Clear(servers[k]) ensures !Openings.Opens(servers[k], l) {
      Openings.ClearIsSeen(servers[k]);
    }
  }

  /** The fragment opens no listener that the inspector finds in the Corefile or any other
      server key, none that such a text opens if the inspector sees everything in it, and none
      inside the cluster domain. */
  lemma FragmentNeverCollides(items: seq<ZoneRoute>, corefile: string, servers: ConfigMap, domain: string, plan: Plan, l: Corefile.Listener)
    requires IsPlan(items, corefile, servers, domain, plan) && plan.fragment.Ok?
    requires forall z | z in items :: Admitted(z)
    requires Openings.Opens(plan.fragment.value, l)
    ensures !CorefileTheorems.Defines(corefile, l)
    ensures forall k | k in Corefile.ReadKeys(servers) :: !CorefileTheorems.Defines(servers[k], l)
    ensures Openings.Clear(corefile) ==> !Openings.Opens(corefile, l)
    ensures forall k | k in Corefile.ReadKeys(servers) && Openings.Clear(servers[k]) :: !Openings.Opens(servers[k], l)
    ensures l.transport == "dns" && l.port == 53 && !Inside(l.zone, Canonical(domain))
  {
    hide CorefileTheorems.Defines, Openings.Opens, Openings.Clear, IsPlan, AcceptedZone, Admitted;
    FragmentOpens(items, corefile, servers, domain, plan, l);
    AcceptedZonesUnseen(items, corefile, servers, domain, plan, l);
  }

  // ---- every key once

  ghost predicate Distinct(s: seq<string>) {
    forall i, j | 0 <= i < j < |s| :: s[i] != s[j]
  }

  ghost predicate DistinctBlocks(blocks: seq<Caddyfile.Block>) {
    && (forall i | 0 <= i < |blocks| :: Distinct(blocks[i].keys))
    && (forall i, j, k | 0 <= i < j < |blocks| && k in blocks[i].keys :: k !in blocks[j].keys)
  }

  lemma {:induction false} KeyInSomeBlock(blocks: seq<Caddyfile.Block>, k: string)
    ensures k in Corefile.BlockKeys(blocks) <==> exists i :: 0 <= i < |blocks| && k in blocks[i].keys
  {
    if blocks != [] {
      KeyInSomeBlock(blocks[1..], k);
      if i :| 0 <= i < |blocks| && k in blocks[i].keys {
        assert i == 0 || blocks[1..][i - 1] == blocks[i];
      }
      if i :| 0 <= i < |blocks[1..]| && k in blocks[1..][i].keys {
        assert blocks[i + 1] == blocks[1..][i];
      }
    }
  }

  lemma ConcatDistinct(a: seq<string>, b: seq<string>)
    requires Distinct(a) && Distinct(b) && forall k | k in a :: k !in b
    ensures Distinct(a + b)
  {
    var s := a + b;
    forall i, j | 0 <= i < j < |s| ensures s[i] != s[j] {
      if i < |a| <= j {
        assert s[i] in a && s[j] in b;
      }
    }
  }

  lemma {:induction false} BlocksDistinct(blocks: seq<Caddyfile.Block>)
    requires DistinctBlocks(blocks)
    ensures Distinct(Corefile.BlockKeys(blocks))
  {
    if blocks != [] {
      var tail := blocks[1..];
      assert forall i | 0 <= i < |tail| :: tail[i] == blocks[i + 1];
      BlocksDistinct(tail);
      forall k | k in blocks[0].keys ensures k !in Corefile.BlockKeys(tail) {
        KeyInSomeBlock(tail, k);
      }
      ConcatDistinct(blocks[0].keys, Corefile.BlockKeys(tail));
    }
  }

  lemma DottedTrim(a: string, b: string)
    requires a != b
    ensures TrimSuffix(a + ".", ".") != TrimSuffix(b + ".", ".")
  {
    assert (a + ".")[|a|..] == "." && (b + ".")[|b|..] == ".";
    assert (a + ".")[..|a|] == a && (b + ".")[..|b|] == b;
  }

  lemma CanonicalTrim(x: string, y: string)
    requires Canonical(x) != Canonical(y)
    ensures TrimSuffix(Canonical(x), ".") != TrimSuffix(Canonical(y), ".")
  {
    DottedTrim(ToLower(TrimSuffix(x, ".")), ToLower(TrimSuffix(y, ".")));
  }

  lemma SortKeepsDistinct(s: seq<string>)
    requires Distinct(s)
    ensures Distinct(Sort(s, Less))
  {
    LessIsOrder();
    forall i, j | 0 <= i < j < |s| ensures Less(s[i], s[j]) || Less(s[j], s[i]) {
      LessTotal(s[i], s[j]);
    }
    SortStrict(s, Less);
    var r := Sort(s, Less);
    forall i, j | 0 <= i < j < |r| ensures r[i] != r[j] {
      LessTotal(r[i], r[i]);
    }
  }

  lemma ZoneKeysDistinct(zones: seq<string>)
    requires Api.ValidZones(zones)
    ensures Distinct(Render.ZoneKeys(zones))
  {
    var c := Render.Canonicals(zones);
    var s := Sort(c, Less);
    SortKeepsDistinct(c);
    SortElements(c, Less);
    forall i, j | 0 <= i < j < |s| ensures TrimSuffix(s[i], ".") != TrimSuffix(s[j], ".") {
      assert s[i] in s && s[j] in s;
      var a :| 0 <= a < |zones| && Canonical(zones[a]) == s[i];
      var b :| 0 <= b < |zones| && Canonical(zones[b]) == s[j];
      CanonicalTrim(zones[a], zones[b]);
    }
  }

  lemma {:induction false} RenderedNamesUnique(items: seq<ZoneRoute>, accepted: set<string>)
    requires DistinctItems(items)
    ensures RenderOrder.UniqueNames(ToRenderRoutes(items, accepted))
  {
    if items != [] {
      var init, z := items[..|items| - 1], items[|items| - 1];
      RenderedNamesUnique(init, accepted);
      RenderRoutesMembers(init, accepted);
      var rs := ToRenderRoutes(init, accepted);
      forall i | 0 <= i < |rs| ensures rs[i].name != z.name {
        assert rs[i] in rs;
        var y :| y in init && rs[i] == ToRenderRoute(y);
        var k :| 0 <= k < |init| && init[k] == y;
        assert items[k] == y;
      }
    }
  }

  /** Two different blocks of the fragment share no key. */
  lemma BlocksDisjoint(items: seq<ZoneRoute>, corefile: string, servers: ConfigMap, domain: string, plan: Plan,
                       r: Render.Route, q: Render.Route, k: string)
    requires IsPlan(items, corefile, servers, domain, plan)
    requires forall z | z in items :: Admitted(z)
    requires r in Rendered(items, plan) && q in Rendered(items, plan)
    requires k in Render.ZoneKeys(r.zones) && k in Render.ZoneKeys(q.zones)
    ensures r == q
  {
    hide IsPlan, Render.ZoneKeys;
    RenderRoutesMembers(items, AcceptedNames(plan.decisions));
    var y :| y in items && y.name in AcceptedNames(plan.decisions) && r == ToRenderRoute(y);
    var z :| z in items && z.name in AcceptedNames(plan.decisions) && q == ToRenderRoute(z);
    RenderTheorems.ZoneKeysSpec(r.zones);
    RenderTheorems.ZoneKeysSpec(q.zones);
    var a :| a in y.zones && k == TrimSuffix(Canonical(a), ".");
    var b :| b in z.zones && k == TrimSuffix(Canonical(b), ".");
    if Canonical(a) != Canonical(b) {
      CanonicalTrim(a, b);
    }
    DecisionOfItem(items, corefile, servers, domain, plan, y);
    DecisionOfItem(items, corefile, servers, domain, plan, z);
    AcceptedZonesOnce(items, corefile, servers, domain, plan, y, z, a, b);
  }

  lemma SortedBlocksDistinct(items: seq<ZoneRoute>, corefile: string, servers: ConfigMap, domain: string, plan: Plan, sorted: seq<Render.Route>)
    requires IsPlan(items, corefile, servers, domain, plan)
    requires forall z | z in items :: Admitted(z)
    requires forall r | r in sorted :: r in Rendered(items, plan)
    requires StrictlySorted(RenderOrder.NameSeq(sorted), Less)
    ensures DistinctBlocks(RoundTrip.BlocksOf(sorted))
  {
    hide Render.ZoneKeys, RoundTrip.BodyWords, IsPlan, Rendered;
    var blocks := RoundTrip.BlocksOf(sorted);
    forall i | 0 <= i < |blocks| ensures Distinct(blocks[i].keys) {
      assert sorted[i] in sorted;
      RenderedKeysDistinct(items, plan, sorted[i]);
    }
    forall i, j, k | 0 <= i < j < |blocks| && k in blocks[i].keys ensures k !in blocks[j].keys {
      assert sorted[i] in sorted && sorted[j] in sorted;
      NamesApart(sorted, i, j);
      if k in blocks[j].keys {
        BlocksDisjoint(items, corefile, servers, domain, plan, sorted[i], sorted[j], k);
      }
    }
  }

  lemma RenderedKeysDistinct(items: seq<ZoneRoute>, plan: Plan, r: Render.Route)
    requires forall z | z in items :: Admitted(z)
    requires r in Rendered(items, plan)
    ensures Distinct(Render.ZoneKeys(r.zones))
  {
    RenderRoutesMembers(items, AcceptedNames(plan.decisions));
    var z :| z in items && r == ToRenderRoute(z);
    assert Admitted(z);
    assert ToRenderRoute(z).zones == z.zones;
    ZoneKeysDistinct(r.zones);
  }

  /** Every zone of the fragment is the key of exactly one block, and there only once. */
  lemma FragmentNamesZonesOnce(items: seq<ZoneRoute>, corefile: string, servers: ConfigMap, domain: string, plan: Plan)
    requires IsPlan(items, corefile, servers, domain, plan) && plan.fragment.Ok?
    requires forall z | z in items :: Admitted(z)
    ensures Caddyfile.Parse(plan.fragment.value).Ok?
    ensures DistinctBlocks(Caddyfile.Parse(plan.fragment.value).value)
    ensures Distinct(Corefile.BlockKeys(Caddyfile.Parse(plan.fragment.value).value))
  {
    hide Render.FragmentText, Corefile.Inspection, RoundTrip.BlocksOf, DistinctBlocks, Distinct, Admitted;
    var routes := Rendered(items, plan);
    var sorted := Sort(routes, Render.ByName);
    PlanFragment(items, corefile, servers, domain, plan);
    RoundTrip.FragmentParses(routes);
    SortElements(routes, Render.ByName);
    RenderedNamesUnique(items, AcceptedNames(plan.decisions));
    RenderOrder.SortedNames(routes);
    SortedBlocksDistinct(items, corefile, servers, domain, plan, sorted);
    BlocksDistinct(RoundTrip.BlocksOf(sorted));
  }

  lemma NamesApart(sorted: seq<Render.Route>, i: nat, j: nat)
    requires StrictlySorted(RenderOrder.NameSeq(sorted), Less) && i < j < |sorted|
    ensures sorted[i].name != sorted[j].name
  {
    var names := RenderOrder.NameSeq(sorted);
    assert Less(names[i], names[j]);
    LessTotal(names[i], names[i]);
  }

  // ---- the one way rendering fails

  /** Some accepted route has `import` for its least zone. */
  ghost predicate ImportAccepted(items: seq<ZoneRoute>, plan: Plan) {
    exists z :: z in items && DecisionFor(plan.decisions, z.name).accepted && RoundTrip.LeastIsImport(z.zones)
  }

  lemma RenderedIffAccepted(items: seq<ZoneRoute>, corefile: string, servers: ConfigMap, domain: string, plan: Plan, z: ZoneRoute)
    requires IsPlan(items, corefile, servers, domain, plan) && z in items
    ensures z.name in AcceptedNames(plan.decisions) <==> DecisionFor(plan.decisions, z.name).accepted
  {
    DecisionOfItem(items, corefile, servers, domain, plan, z);
  }

  /** The fragment of a plan renders exactly if no accepted route has `import` for its least
      zone. */
  lemma FragmentRenders(items: seq<ZoneRoute>, corefile: string, servers: ConfigMap, domain: string, plan: Plan)
    requires IsPlan(items, corefile, servers, domain, plan)
    requires forall x | x in items :: Admitted(x)
    ensures plan.fragment.Ok? <==> !ImportAccepted(items, plan)
  {
    hide IsPlan, RoundTrip.StartsWithImport, RoundTrip.LeastIsImport, Admitted, DecisionFor, ToRenderRoute;
    RenderedValid(items, plan);
    RoundTrip.RenderingSucceeds(Rendered(items, plan));
    PlanRendering(items, corefile, servers, domain, plan);
    RenderRoutesMembers(items, AcceptedNames(plan.decisions));
    forall z | z in items
      ensures z.name in AcceptedNames(plan.decisions) <==> DecisionFor(plan.decisions, z.name).accepted
      ensures RoundTrip.StartsWithImport(ToRenderRoute(z)) <==> RoundTrip.LeastIsImport(z.zones)
    {
      RenderedIffAccepted(items, corefile, servers, domain, plan, z);
      ZonesKept(z);
      RoundTrip.ImportLeads(ToRenderRoute(z));
    }
    if plan.fragment.Err? {
      var r :| r in Rendered(items, plan) && RoundTrip.StartsWithImport(r);
      var z :| z in items && z.name in AcceptedNames(plan.decisions) && r == ToRenderRoute(z);
    }
    if ImportAccepted(items, plan) {
      var z :| z in items && DecisionFor(plan.decisions, z.name).accepted && RoundTrip.LeastIsImport(z.zones);
      assert ToRenderRoute(z) in Rendered(items, plan);
    }
  }

  lemma ZonesKept(z: ZoneRoute)
    ensures ToRenderRoute(z).zones == z.zones
  {
  }

  lemma PlanRendering(items: seq<ZoneRoute>, corefile: string, servers: ConfigMap, domain: string, plan: Plan)
    requires IsPlan(items, corefile, servers, domain, plan)
    ensures plan.fragment == Render.Rendering(Rendered(items, plan))
  {
  }

  /** An accepted route whose least zone is `import` makes the whole fragment invalid: nothing
      is published, and every accepted route is told so. */
  lemma ImportZoneBlocksPublishing(items: seq<ZoneRoute>, corefile: string, servers: ConfigMap, domain: string, plan: Plan,
                                   z: ZoneRoute, y: ZoneRoute, fault: Option<string>)
    requires IsPlan(items, corefile, servers, domain, plan)
    requires forall x | x in items :: Admitted(x)
    requires z in items && DecisionFor(plan.decisions, z.name).accepted && RoundTrip.LeastIsImport(z.zones)
    requires DecisionFor(plan.decisions, y.name).accepted
    ensures plan.fragment.Err?
    ensures var p := PublishTo(Some(servers), plan.fragment, fault);
            && p.custom == Some(servers) && p.patches == 0
            && WantedStatus(y, plan, p.state, domain).published.value.reason == Conditions.FRAGMENT_INVALID
  {
    hide IsPlan, RoundTrip.LeastIsImport, Conditions.AcceptedCondition, DecisionFor, Admitted;
    FragmentRenders(items, corefile, servers, domain, plan);
  }
}
