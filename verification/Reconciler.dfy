/** internal/controller/reconciler.go in its own form: an object over the cluster state whose
    Reconcile lists, reads, decides, publishes one key and writes one status per route.
    Every method is proved against the functions of Plans.dfy. */
module Reconciler {
  import opened Wrappers
  import opened Sorting
  import opened Strings
  import opened Cluster
  import opened Conflict
  import opened Conditions
  import opened Convert
  import opened Plans
  import Corefile
  import Render

  predicate ByItemName(a: ZoneRoute, b: ZoneRoute) {
    Less(a.name, b.name)
  }

  ghost predicate NamedByKey(routes: map<string, ZoneRoute>) {
    forall n | n in routes :: routes[n].name == n
  }

  lemma ItemsElements(routes: map<string, ZoneRoute>)
    requires NamedByKey(routes)
    ensures StrictlySorted(Items(routes), ByItemName)
    ensures forall z :: z in Items(routes) <==> z.name in routes && routes[z.name] == z
  {
    var names, items := Corefile.SortedSeq(routes.Keys), Items(routes);
    forall i | 0 <= i < |names| ensures names[i] in routes && items[i].name == names[i] {
      assert names[i] in names;
    }
    forall z ensures z in items <==> z.name in routes && routes[z.name] == z {
      if z.name in routes && routes[z.name] == z {
        assert z.name in names;
        var i :| 0 <= i < |names| && names[i] == z.name;
        assert items[i] == z;
      }
      if z in items {
        var i :| 0 <= i < |items| && items[i] == z;
        assert items[i] == routes[names[i]];
      }
    }
  }

  /** Listing the routes in any order and sorting them by name gives the items. */
  lemma SortedItems(routes: map<string, ZoneRoute>, listed: seq<ZoneRoute>)
    requires NamedByKey(routes)
    requires forall z :: z in listed <==> z.name in routes && routes[z.name] == z
    requires forall i, j | 0 <= i < j < |listed| :: listed[i].name != listed[j].name
    ensures Sort(listed, ByItemName) == Items(routes)
  {
    hide Items, NamedByKey;
    ItemsElements(routes);
    LessIsOrder();
    forall i, j | 0 <= i < j < |listed| ensures ByItemName(listed[i], listed[j]) || ByItemName(listed[j], listed[i]) {
      LessTotal(listed[i].name, listed[j].name);
    }
    hide ByItemName;
    SortStrict(listed, ByItemName);
    SortElements(listed, ByItemName);
    StrictlySortedUnique(Sort(listed, ByItemName), Items(routes), ByItemName);
  }

  class Controller {
    var routes: map<string, ZoneRoute>
    var coredns: Option<ConfigMap>
    var custom: Option<ConfigMap>
    var version: nat
    var patches: nat
    var statusWrites: nat
    const clusterDomain: string

    ghost predicate Valid()
      reads this
    {
      NamedByKey(routes)
    }

    ghost function State(): Store
      reads this
    {
      Store(routes, coredns, custom, version)
    }

    constructor (store: Store, domain: string)
      requires NamedByKey(store.routes)
      ensures Valid() && State() == store && clusterDomain == domain
      ensures patches == 0 && statusWrites == 0
    {
      routes, coredns, custom, version := store.routes, store.coredns, store.custom, store.version;
      patches, statusWrites := 0, 0;
      clusterDomain := domain;
    }

    /** The API returns the routes in no particular order; they are sorted by name. */
    method List() returns (items: seq<ZoneRoute>)
      requires Valid()
      ensures items == Items(routes)
    {
      items := [];
      var left := routes.Keys;
      while left != {}
        invariant left <= routes.Keys
        invariant forall z :: z in items <==> z.name in routes && z.name !in left && routes[z.name] == z
        invariant forall i, j | 0 <= i < j < |items| :: items[i].name != items[j].name
        decreases |left|
      {
        var n :| n in left;
        assert forall i | 0 <= i < |items| :: items[i] in items;
        left := left - {n};
        items := items + [routes[n]];
      }
      SortedItems(routes, items);
      items := Sort(items, ByItemName);
    }

    /** Writes the fragment into one key of the ConfigMap and nothing else. */
    method Publish(read: Option<ConfigMap>, fragment: Result<string>, fault: Option<string>) returns (state: PublishState)
      requires Valid() && read == custom
      modifies this`custom, this`version, this`patches
      ensures Valid()
      ensures var p := PublishTo(read, fragment, fault);
              && custom == p.custom && state == p.state
              && patches == old(patches) + p.patches && version == old(version) + p.patches
    {
      if read.None? {
        return ConfigMissing;
      }
      if fragment.Err? {
        return FragmentInvalid(fragment.error);
      }
      if Corefile.MANAGED_KEY in read.value && read.value[Corefile.MANAGED_KEY] == fragment.value {
        return InPlace;
      }
      if fault.Some? {
        return WriteFailed(PATCH_ERROR + fault.value);
      }
      custom := Some(Patched(custom.value, fragment.value));
      version := version + 1;
      patches := patches + 1;
      return InPlace;
    }

    ghost function Progress(failed: bool): Written
      reads this
    {
      Written(routes, version, statusWrites, failed)
    }

    /** Writes both conditions and the observed generation, but only if something changed. */
    method UpdateStatus(z: ZoneRoute, d: Decision, inspected: Corefile.Inspected, state: PublishState, denied: bool)
      returns (failed: bool)
      requires Valid()
      modifies this`routes, this`version, this`statusWrites
      ensures Valid()
      ensures var wanted := Status(z.generation,
                                   Some(AcceptedCondition(d, inspected.unresolved, clusterDomain, z.generation)),
                                   Some(PublishedCondition(d.accepted, state, inspected.wired, z.generation)));
              Progress(failed) == WriteStatus(z, wanted, denied, old(Progress(false)))
    {
      var accepted := ComputeAcceptedCondition(d, inspected.unresolved, clusterDomain, z.generation);
      var published := PublishedCondition(d.accepted, state, inspected.wired, z.generation);
      var updated := z.status;
      var changed := updated.accepted != Some(accepted);
      updated := updated.(accepted := Some(accepted));
      changed := changed || updated.published != Some(published);
      updated := updated.(published := Some(published));
      if updated.observedGeneration != z.generation {
        updated := updated.(observedGeneration := z.generation);
        changed := true;
      }
      if !changed {
        return false;
      }
      if denied || z.name !in routes || routes[z.name].version != z.version {
        return true;
      }
      routes := routes[z.name := routes[z.name].(status := updated, version := version + 1)];
      version := version + 1;
      statusWrites := statusWrites + 1;
      return false;
    }

    /** One run: everything read, everything decided, one key published, every status. */
    method Reconcile(faults: Faults) returns (failed: bool)
      requires Valid()
      modifies this`routes, this`custom, this`version, this`patches, this`statusWrites
      ensures Valid()
      ensures var o := Run(old(State()), faults, clusterDomain);
              && State() == o.store && failed == o.failed
              && patches == old(patches) + o.patches && statusWrites == old(statusWrites) + o.writes
    {
      hide MakePlan, Effects, Items;
      if faults.list {
        return true;
      }
      var items := List();
      if faults.corefile || coredns.None? {
        return true;
      }
      if COREFILE_KEY !in coredns.value {
        return true;
      }
      if faults.custom {
        return true;
      }
      var read := custom;
      var servers := if read.Some? then read.value else map[];
      var plan, byName := Recompute(items, coredns.value[COREFILE_KEY], servers, clusterDomain);
      if plan.Err? {
        return true;
      }
      failed := Apply(items, byName, plan.value, read, faults);
    }

    /** The writing half of a run. */
    method Apply(items: seq<ZoneRoute>, byName: map<string, Decision>, plan: Plan, read: Option<ConfigMap>, faults: Faults)
      returns (failed: bool)
      requires Valid() && items == Items(routes) && read == custom
      requires forall n :: LookedUp(byName, n) == DecisionFor(plan.decisions, n)
      modifies this`routes, this`custom, this`version, this`patches, this`statusWrites
      ensures Valid()
      ensures var o := Effects(old(State()), plan, faults, clusterDomain);
              && State() == o.store && failed == o.failed
              && patches == old(patches) + o.patches && statusWrites == old(statusWrites) + o.writes
    {
      hide WriteStatuses, PublishTo, Items, DecisionFor;
      var state := Publish(read, plan.fragment, faults.patch);
      ghost var before := statusWrites;
      var f := WriteAll(items, byName, plan, state, faults.status);
      WritesOffset(items, plan, state, clusterDomain, faults.status,
                   Written(old(routes), old(version) + PublishTo(read, plan.fragment, faults.patch).patches, 0, false), before);
      failed := state.WriteFailed? || f;
    }

    method WriteAll(items: seq<ZoneRoute>, byName: map<string, Decision>, plan: Plan, state: PublishState, denied: set<string>)
      returns (failed: bool)
      requires Valid()
      requires forall n :: LookedUp(byName, n) == DecisionFor(plan.decisions, n)
      modifies this`routes, this`version, this`statusWrites
      ensures Valid()
      ensures Progress(failed) == WriteStatuses(items, plan, state, clusterDomain, denied, old(Progress(false)))
    {
      failed := false;
      ghost var start := Progress(false);
      for i := 0 to |items|
        invariant Valid()
        invariant Progress(failed) == WriteStatuses(items[..i], plan, state, clusterDomain, denied, start)
      {
        assert items[..i + 1][..i] == items[..i];
        ghost var sofar := Progress(false);
        var d := LookedUp(byName, items[i].name);
        var f := UpdateStatus(items[i], d, plan.inspected, state, items[i].name in denied);
        FailureKept(items[i], WantedStatus(items[i], plan, state, clusterDomain), items[i].name in denied, sofar, failed);
        failed := failed || f;
      }
      assert items[..|items|] == items;
    }
  }

  function LookedUp(byName: map<string, Decision>, name: string): Decision {
    if name in byName then byName[name] else NO_DECISION
  }

  /** The computation between the reads and the writes of a run. */
  method Recompute(items: seq<ZoneRoute>, corefile: string, servers: ConfigMap, domain: string)
    returns (r: Result<Plan>, byName: map<string, Decision>)
    ensures r == MakePlan(items, corefile, servers, domain)
    ensures r.Ok? ==> forall n :: LookedUp(byName, n) == DecisionFor(r.value.decisions, n)
  {
    hide Corefile.Inspection, Resolution, Render.Rendering, ToExisting, DecisionFor;
    byName := map[];
    var inspected := Corefile.Inspect(corefile, servers);
    if inspected.Err? {
      return Err(inspected.error), byName;
    }
    var routes := ConvertConflictRoutes(items);
    var existing := ConvertExisting(inspected.value.listeners);
    var decisions := Resolve(routes, existing, domain);
    if decisions.Err? {
      return Err(decisions.error), byName;
    }
    var accepted;
    byName, accepted := Index(decisions.value);
    var renderRoutes := ConvertRenderRoutes(items, accepted);
    var fragment := Render.Render(renderRoutes);
    r := Ok(Plan(inspected.value, decisions.value, fragment));
  }

  function TrueKeys(m: map<string, bool>): set<string> {
    set n | n in m && m[n]
  }

  lemma AcceptedNamesSnoc(ds: seq<Decision>, d: Decision)
    ensures AcceptedNames(ds + [d]) == AcceptedNames(ds) + if d.accepted then {d.name} else {}
  {
    assert d in ds + [d];
  }

  /** The decisions by name, and which names are accepted. */
  method Index(ds: seq<Decision>) returns (byName: map<string, Decision>, accepted: map<string, bool>)
    ensures forall n :: LookedUp(byName, n) == DecisionFor(ds, n)
    ensures TrueKeys(accepted) == AcceptedNames(ds)
  {
    byName, accepted := map[], map[];
    for i := 0 to |ds|
      invariant forall n :: LookedUp(byName, n) == DecisionFor(ds[..i], n)
      invariant TrueKeys(accepted) == AcceptedNames(ds[..i])
    {
      assert ds[..i + 1][..i] == ds[..i];
      assert ds[..i + 1] == ds[..i] + [ds[i]];
      AcceptedNamesSnoc(ds[..i], ds[i]);
      byName := byName[ds[i].name := ds[i]];
      if ds[i].accepted {
        accepted := accepted[ds[i].name := true];
      }
    }
    assert ds[..|ds|] == ds;
  }

  lemma FailureKept(z: ZoneRoute, wanted: Status, denied: bool, w: Written, failed: bool)
    ensures WriteStatus(z, wanted, denied, w.(failed := failed))
         == var q := WriteStatus(z, wanted, denied, w.(failed := false)); q.(failed := failed || q.failed)
  {
  }

  lemma WriteOffset(z: ZoneRoute, wanted: Status, denied: bool, w: Written, before: nat)
    ensures var r := WriteStatus(z, wanted, denied, w);
            WriteStatus(z, wanted, denied, w.(writes := w.writes + before)) == r.(writes := r.writes + before)
  {
  }

  /** Counting on from an earlier number of writes changes only the count. */
  lemma {:induction false} WritesOffset(items: seq<ZoneRoute>, plan: Plan, state: PublishState, domain: string, denied: set<string>, w: Written, before: nat)
    ensures var r := WriteStatuses(items, plan, state, domain, denied, w);
            WriteStatuses(items, plan, state, domain, denied, w.(writes := w.writes + before)) == r.(writes := r.writes + before)
  {
    hide WriteStatus, WantedStatus;
    if items != [] {
      var init, z := items[..|items| - 1], items[|items| - 1];
      WritesOffset(init, plan, state, domain, denied, w, before);
      WriteOffset(z, WantedStatus(z, plan, state, domain), z.name in denied,
                  WriteStatuses(init, plan, state, domain, denied, w), before);
    }
  }
}
