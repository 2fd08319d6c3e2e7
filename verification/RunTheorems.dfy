/** Whole runs of Reconcile. A run never changes its own inputs; a run without faults ends in
    a state that depends on those inputs alone, whatever failed before; and the next run
    finds nothing to do. */
module RunTheorems {
  import opened Wrappers
  import opened Sorting
  import opened Strings
  import opened Cluster
  import opened Conflict
  import opened Conditions
  import opened Convert
  import opened Plans
  import opened PlanTheorems
  import opened Events
  import opened Reconciler
  import Corefile
  import CorefileTheorems
  import Render

  // ---- what a plan reads

  /** The same routes but for status and version. */
  ghost predicate SameCores(a: seq<ZoneRoute>, b: seq<ZoneRoute>) {
    |a| == |b| && forall i | 0 <= i < |a| :: Core(a[i]) == Core(b[i])
  }

  lemma {:induction false} RenderRoutesReadCores(a: seq<ZoneRoute>, b: seq<ZoneRoute>, accepted: set<string>)
    requires SameCores(a, b)
    ensures ToRenderRoutes(a, accepted) == ToRenderRoutes(b, accepted)
    decreases |a|
  {
    if a != [] {
      RenderRoutesReadCores(a[..|a| - 1], b[..|b| - 1], accepted);
      SameCoreFields(a[|a| - 1], b[|b| - 1]);
    }
  }

  lemma SameCoreFields(a: ZoneRoute, b: ZoneRoute)
    requires Core(a) == Core(b)
    ensures a.name == b.name && a.created == b.created && a.generation == b.generation
    ensures a.zones == b.zones && a.upstreams == b.upstreams
  {
    assert Core(a).name == a.name && Core(a).created == a.created && Core(a).generation == a.generation
        && Core(a).zones == a.zones && Core(a).upstreams == a.upstreams;
  }

  lemma ConflictRoutesReadCores(a: seq<ZoneRoute>, b: seq<ZoneRoute>)
    requires SameCores(a, b)
    ensures ToConflictRoutes(a) == ToConflictRoutes(b)
  {
    forall i | 0 <= i < |a| ensures ToConflictRoute(a[i]) == ToConflictRoute(b[i]) {
      SameCoreFields(a[i], b[i]);
    }
  }

  /** The server entries without the managed one. */
  function ReadEntries(servers: ConfigMap): ConfigMap {
    map k | k in servers && k != Corefile.MANAGED_KEY && Corefile.IsServerKey(k) :: servers[k]
  }

  /** A plan reads the routes' cores, the Corefile and the server entries; neither status,
      nor version, nor the managed key, nor any other key. */
  lemma PlanReads(a: seq<ZoneRoute>, b: seq<ZoneRoute>, corefile: string, s1: ConfigMap, s2: ConfigMap, domain: string)
    requires SameCores(a, b) && ReadEntries(s1) == ReadEntries(s2)
    ensures MakePlan(a, corefile, s1, domain) == MakePlan(b, corefile, s2, domain)
  {
    hide Corefile.Inspection, Render.Rendering, Resolution, ToExisting;
    assert Corefile.ReadKeys(s1) == ReadEntries(s1).Keys && Corefile.ReadKeys(s2) == ReadEntries(s2).Keys;
    forall k | k in Corefile.ReadKeys(s1) ensures s1[k] == s2[k] {
      assert ReadEntries(s1)[k] == ReadEntries(s2)[k];
    }
    CorefileTheorems.InspectionReads(corefile, s1, s2);
    ConflictRoutesReadCores(a, b);
    forall accepted ensures ToRenderRoutes(a, accepted) == ToRenderRoutes(b, accepted) {
      RenderRoutesReadCores(a, b, accepted);
    }
  }

  lemma WantedReadsCore(a: ZoneRoute, b: ZoneRoute, plan: Plan, state: PublishState, domain: string)
    requires Core(a) == Core(b)
    ensures WantedStatus(a, plan, state, domain) == WantedStatus(b, plan, state, domain)
  {
    SameCoreFields(a, b);
  }

  // ---- writing the statuses

  ghost predicate Names(items: seq<ZoneRoute>, n: string) {
    exists z :: z in items && z.name == n
  }

  ghost predicate Current(items: seq<ZoneRoute>, routes: map<string, ZoneRoute>) {
    forall z | z in items :: z.name in routes && routes[z.name] == z
  }

  lemma {:induction false} WriteKeys(items: seq<ZoneRoute>, plan: Plan, state: PublishState, domain: string, denied: set<string>, w: Written)
    ensures var r := WriteStatuses(items, plan, state, domain, denied, w);
            r.routes.Keys == w.routes.Keys && r.version >= w.version
  {
    hide WantedStatus;
    if items != [] {
      WriteKeys(items[..|items| - 1], plan, state, domain, denied, w);
    }
  }

  /** Routes that are not listed stay as they are. */
  lemma {:induction false} WriteFrame(items: seq<ZoneRoute>, plan: Plan, state: PublishState, domain: string, denied: set<string>, w: Written, n: string)
    requires !Names(items, n) && n in w.routes
    ensures var r := WriteStatuses(items, plan, state, domain, denied, w); n in r.routes && r.routes[n] == w.routes[n]
  {
    hide WantedStatus;
    if items != [] {
      var init, z := items[..|items| - 1], items[|items| - 1];
      assert items == init + [z] && z in items;
      assert forall y | y in init :: y in items;
      WriteFrame(init, plan, state, domain, denied, w, n);
    }
  }

  /** Each listed route keeps its core and gets its wanted status, unless that is denied. */
  lemma {:induction false} WriteAt(items: seq<ZoneRoute>, plan: Plan, state: PublishState, domain: string, denied: set<string>, w: Written, y: ZoneRoute)
    requires DistinctItems(items) && Current(items, w.routes) && y in items
    ensures var r := WriteStatuses(items, plan, state, domain, denied, w);
            && y.name in r.routes && Core(r.routes[y.name]) == Core(y)
            && r.routes[y.name].status == if y.name in denied then y.status else WantedStatus(y, plan, state, domain)
  {
    hide WantedStatus;
    var init, z := items[..|items| - 1], items[|items| - 1];
    assert items == init + [z];
    LastIsNew(items);
    if y == z {
      WriteFrame(init, plan, state, domain, denied, w, y.name);
    } else {
      assert y in init;
      WriteAt(init, plan, state, domain, denied, w, y);
      assert y.name != z.name;
    }
  }

  /** The writes fail iff a needed one was denied. */
  lemma {:induction false} WriteFails(items: seq<ZoneRoute>, plan: Plan, state: PublishState, domain: string, denied: set<string>, w: Written)
    requires DistinctItems(items) && Current(items, w.routes)
    ensures WriteStatuses(items, plan, state, domain, denied, w).failed <==>
              w.failed || exists z :: z in items && z.name in denied && WantedStatus(z, plan, state, domain) != z.status
  {
    hide WantedStatus;
    if items != [] {
      var init, z := items[..|items| - 1], items[|items| - 1];
      assert items == init + [z];
      LastIsNew(items);
      WriteFails(init, plan, state, domain, denied, w);
      WriteFrame(init, plan, state, domain, denied, w, z.name);
    }
  }

  lemma LastIsNew(items: seq<ZoneRoute>)
    requires items != [] && DistinctItems(items)
    ensures !Names(items[..|items| - 1], items[|items| - 1].name)
  {
    var init, z := items[..|items| - 1], items[|items| - 1];
    forall y | y in init ensures y.name != z.name {
      var i :| 0 <= i < |init| && init[i] == y;
      assert items[i] == y;
    }
  }

  /** Nothing is written when every status is as wanted. */
  lemma {:induction false} NothingToWrite(items: seq<ZoneRoute>, plan: Plan, state: PublishState, domain: string, denied: set<string>, w: Written)
    requires forall z | z in items :: WantedStatus(z, plan, state, domain) == z.status
    ensures WriteStatuses(items, plan, state, domain, denied, w) == w
  {
    hide WantedStatus;
    if items != [] {
      var init, z := items[..|items| - 1], items[|items| - 1];
      assert items == init + [z];
      NothingToWrite(init, plan, state, domain, denied, w);
    }
  }

  // ---- inputs and results of a run

  /** The same inputs: routes but for status and version, both ConfigMaps but for the
      managed key. */
  ghost predicate SameInputs(a: Store, b: Store) {
    && a.routes.Keys == b.routes.Keys
    && (forall n | n in a.routes :: Core(a.routes[n]) == Core(b.routes[n]))
    && a.coredns == b.coredns
    && a.custom.Some? == b.custom.Some?
    && ReadEntries(Servers(a.custom)) == ReadEntries(Servers(b.custom))
  }

  /** Only the managed key of coredns-custom and the statuses may differ; coredns-custom is
      neither created nor removed. */
  ghost predicate OnlyOwnWrites(a: Store, b: Store) {
    && a.routes.Keys == b.routes.Keys
    && (forall n | n in a.routes :: Core(a.routes[n]) == Core(b.routes[n]))
    && a.coredns == b.coredns
    && a.custom.Some? == b.custom.Some?
    && (a.custom.Some? ==>
          forall k | k != "zoneroute.server" ::
            (k in a.custom.value <==> k in b.custom.value)
            && (k in a.custom.value ==> a.custom.value[k] == b.custom.value[k]))
  }

  lemma OwnWritesKeepInputs(a: Store, b: Store)
    requires OnlyOwnWrites(a, b)
    ensures SameInputs(a, b)
  {
    if a.custom.Some? {
      assert ReadEntries(Servers(a.custom)) == ReadEntries(Servers(b.custom));
    }
  }

  lemma ItemsCurrent(routes: map<string, ZoneRoute>)
    requires NamedByKey(routes)
    ensures DistinctItems(Items(routes)) && Current(Items(routes), routes)
    ensures forall n | n in routes :: routes[n] in Items(routes)
  {
    ItemsElements(routes);
    var items := Items(routes);
    forall i, j | 0 <= i < j < |items| ensures items[i].name != items[j].name {
      LessTotal(items[i].name, items[i].name);
      assert ByItemName(items[i], items[j]);
    }
  }

  lemma ItemsSameCores(a: map<string, ZoneRoute>, b: map<string, ZoneRoute>)
    requires a.Keys == b.Keys && forall n | n in a :: Core(a[n]) == Core(b[n])
    ensures SameCores(Items(a), Items(b))
  {
    var names := Corefile.SortedSeq(a.Keys);
    forall i | 0 <= i < |names| ensures Core(Items(a)[i]) == Core(Items(b)[i]) {
      assert names[i] in names;
    }
  }

  ghost predicate WellFormed(store: Store) {
    NamedByKey(store.routes)
  }

  /** A run, whatever fails in it, writes nothing but its own key and statuses. */
  lemma RunOnlyOwnWrites(store: Store, faults: Faults, domain: string)
    requires WellFormed(store)
    ensures OnlyOwnWrites(store, Run(store, faults, domain).store)
    ensures WellFormed(Run(store, faults, domain).store)
  {
    hide MakePlan, Effects, Items;
    ItemsCurrent(store.routes);
    var o := Run(store, faults, domain);
    if HasCorefile(store) {
      var made := MakePlan(Items(store.routes), store.coredns.value[COREFILE_KEY], Servers(store.custom), domain);
      if made.Ok? {
        EffectsOnlyOwnWrites(store, made.value, faults, domain);
      }
    }
  }

  lemma EffectsOnlyOwnWrites(store: Store, plan: Plan, faults: Faults, domain: string)
    requires WellFormed(store)
    ensures OnlyOwnWrites(store, Effects(store, plan, faults, domain).store)
    ensures WellFormed(Effects(store, plan, faults, domain).store)
  {
    hide WantedStatus, WriteStatuses, Items;
    var p := PublishTo(store.custom, plan.fragment, faults.patch);
    var start := Written(store.routes, store.version + p.patches, 0, false);
    var items := Items(store.routes);
    ItemsCurrent(store.routes);
    WriteKeys(items, plan, p.state, domain, faults.status, start);
    var r := WriteStatuses(items, plan, p.state, domain, faults.status, start);
    forall n | n in store.routes ensures Core(r.routes[n]) == Core(store.routes[n]) && r.routes[n].name == n {
      WriteAt(items, plan, p.state, domain, faults.status, start, store.routes[n]);
      SameCoreFields(r.routes[n], store.routes[n]);
    }
  }

  /** Runs with faults, one after the other. */
  ghost function RunAll(store: Store, faults: seq<Faults>, domain: string): Store {
    if faults == [] then store
    else Run(RunAll(store, faults[..|faults| - 1], domain), faults[|faults| - 1], domain).store
  }

  /** Over any sequence of runs, each failing in any way, only the managed key and statuses
      ever change. */
  lemma {:induction false} RunsOnlyOwnWrites(store: Store, faults: seq<Faults>, domain: string)
    requires WellFormed(store)
    ensures OnlyOwnWrites(store, RunAll(store, faults, domain))
    ensures WellFormed(RunAll(store, faults, domain))
  {
    hide Run;
    if faults != [] {
      var before := RunAll(store, faults[..|faults| - 1], domain);
      RunsOnlyOwnWrites(store, faults[..|faults| - 1], domain);
      RunOnlyOwnWrites(before, faults[|faults| - 1], domain);
    }
  }

  // ---- a run without faults

  /** What publishing amounts to when the API does not refuse: with the patch sent if it was
      needed, the fragment is in place. */
  function SettledState(haveCustom: bool, fragment: Result<string>): PublishState {
    if !haveCustom then ConfigMissing
    else match fragment
      case Err(e) => FragmentInvalid(e)
      case Ok(_) => InPlace
  }

  predicate FragmentInPlace(custom: Option<ConfigMap>, fragment: Result<string>) {
    custom.Some? && fragment.Ok? ==>
      Corefile.MANAGED_KEY in custom.value && custom.value[Corefile.MANAGED_KEY] == fragment.value
  }

  /** Everything the controller owns is as the plan wants it. */
  ghost predicate SettledFor(store: Store, plan: Plan, domain: string) {
    && FragmentInPlace(store.custom, plan.fragment)
    && forall n | n in store.routes ::
         store.routes[n].status == WantedStatus(store.routes[n], plan, SettledState(store.custom.Some?, plan.fragment), domain)
  }

  lemma CleanEffects(store: Store, plan: Plan, domain: string)
    requires WellFormed(store)
    ensures var o := Effects(store, plan, NO_FAULTS, domain);
            !o.failed && SettledFor(o.store, plan, domain)
  {
    hide WantedStatus, WriteStatuses, Items;
    var p := PublishTo(store.custom, plan.fragment, None);
    assert p.state == SettledState(store.custom.Some?, plan.fragment);
    var start := Written(store.routes, store.version + p.patches, 0, false);
    var items := Items(store.routes);
    ItemsCurrent(store.routes);
    WriteKeys(items, plan, p.state, domain, {}, start);
    WriteFails(items, plan, p.state, domain, {}, start);
    var r := WriteStatuses(items, plan, p.state, domain, {}, start);
    forall n | n in store.routes ensures r.routes[n].status == WantedStatus(r.routes[n], plan, p.state, domain) {
      WriteAt(items, plan, p.state, domain, {}, start, store.routes[n]);
      WantedReadsCore(r.routes[n], store.routes[n], plan, p.state, domain);
    }
  }

  ghost function PlanOf(store: Store, domain: string): Result<Plan>
    requires HasCorefile(store)
  {
    MakePlan(Items(store.routes), store.coredns.value[COREFILE_KEY], Servers(store.custom), domain)
  }

  /** The inputs can be read and inspected. */
  ghost predicate Reconcilable(store: Store, domain: string) {
    HasCorefile(store) && PlanOf(store, domain).Ok?
  }

  lemma SamePlan(a: Store, b: Store, domain: string)
    requires SameInputs(a, b)
    ensures HasCorefile(a) == HasCorefile(b)
    ensures HasCorefile(a) ==> PlanOf(a, domain) == PlanOf(b, domain)
    ensures Reconcilable(a, domain) == Reconcilable(b, domain)
  {
    hide MakePlan, Items, ReadEntries;
    ItemsSameCores(a.routes, b.routes);
    if HasCorefile(a) {
      PlanReads(Items(a.routes), Items(b.routes), a.coredns.value[COREFILE_KEY], Servers(a.custom), Servers(b.custom), domain);
    }
  }

  /** A run without faults on readable inputs succeeds and settles everything. */
  lemma CleanRunSettles(store: Store, domain: string)
    requires WellFormed(store) && Reconcilable(store, domain)
    ensures var o := Run(store, NO_FAULTS, domain);
            !o.failed && SettledFor(o.store, PlanOf(store, domain).value, domain)
  {
    hide Effects, MakePlan, SettledFor;
    CleanEffects(store, PlanOf(store, domain).value, domain);
  }

  /** The managed key as a run leaves it. */
  function Managed(store: Store): Option<string> {
    if store.custom.Some? && Corefile.MANAGED_KEY in store.custom.value then Some(store.custom.value[Corefile.MANAGED_KEY]) else None
  }

  /** What a run without faults leaves in the managed key: the fragment, or if that does not
      render, whatever was there. */
  function Leaves(store: Store, fragment: Result<string>): Option<string> {
    if store.custom.Some? && fragment.Ok? then Some(fragment.value) else Managed(store)
  }

  /** Without a fragment nothing is published, whatever else fails. */
  lemma UnrenderedKeepsCustom(store: Store, faults: Faults, domain: string)
    requires Reconcilable(store, domain) && PlanOf(store, domain).value.fragment.Err?
    ensures Run(store, faults, domain).store.custom == store.custom && Run(store, faults, domain).patches == 0
  {
    hide MakePlan, WriteStatuses, Items;
  }

  /** A run without faults gives the same statuses on any two stores with the same inputs,
      and leaves the fragment in the managed key if it renders. */
  lemma CleanRunForgets(a: Store, b: Store, domain: string)
    requires WellFormed(a) && WellFormed(b) && SameInputs(a, b) && Reconcilable(a, domain)
    ensures var x, y := Run(a, NO_FAULTS, domain).store, Run(b, NO_FAULTS, domain).store;
            var fragment := PlanOf(a, domain).value.fragment;
            && x.routes.Keys == y.routes.Keys
            && (forall n | n in x.routes :: x.routes[n].status == y.routes[n].status)
            && Managed(x) == Leaves(a, fragment) && Managed(y) == Leaves(b, fragment)
  {
    hide Run, PlanOf, ReadEntries, WantedStatus;
    SamePlan(a, b, domain);
    CleanRunSettles(a, domain);
    CleanRunSettles(b, domain);
    RunOnlyOwnWrites(a, NO_FAULTS, domain);
    RunOnlyOwnWrites(b, NO_FAULTS, domain);
    var x, y := Run(a, NO_FAULTS, domain).store, Run(b, NO_FAULTS, domain).store;
    var plan := PlanOf(a, domain).value;
    var state := SettledState(a.custom.Some?, plan.fragment);
    forall n | n in x.routes ensures x.routes[n].status == y.routes[n].status {
      WantedReadsCore(x.routes[n], y.routes[n], plan, state, domain);
    }
    if plan.fragment.Err? {
      UnrenderedKeepsCustom(a, NO_FAULTS, domain);
      UnrenderedKeepsCustom(b, NO_FAULTS, domain);
    }
  }

  /** The store before the controller ever ran: no status, no managed key. */
  function Fresh(store: Store): Store {
    store.(routes := map n | n in store.routes :: store.routes[n].(status := NO_STATUS),
           custom := match store.custom
                     case None => None
                     case Some(cm) => Some(cm - {Corefile.MANAGED_KEY}))
  }

  lemma FreshSameInputs(store: Store)
    requires WellFormed(store)
    ensures SameInputs(store, Fresh(store)) && WellFormed(Fresh(store))
  {
    assert ReadEntries(Servers(store.custom)) == ReadEntries(Servers(Fresh(store).custom));
  }

  lemma SameInputsTransitive(a: Store, b: Store, c: Store)
    requires SameInputs(a, b) && SameInputs(b, c)
    ensures SameInputs(a, c)
  {
  }

  lemma SameInputsSymmetric(a: Store, b: Store)
    requires SameInputs(a, b)
    ensures SameInputs(b, a)
  {
  }

  lemma {:induction false} UnrenderedRunsKeepCustom(store: Store, faults: seq<Faults>, domain: string)
    requires WellFormed(store) && Reconcilable(store, domain) && PlanOf(store, domain).value.fragment.Err?
    ensures RunAll(store, faults, domain).custom == store.custom
  {
    hide Run, PlanOf, ReadEntries, SameInputs, OnlyOwnWrites;
    if faults != [] {
      var init := faults[..|faults| - 1];
      var before := RunAll(store, init, domain);
      UnrenderedRunsKeepCustom(store, init, domain);
      RunsOnlyOwnWrites(store, init, domain);
      OwnWritesKeepInputs(store, before);
      OwnWritesKeepCustom(store, before);
      SamePlan(store, before, domain);
      UnrenderedKeepsCustom(before, faults[|faults| - 1], domain);
    }
  }

  /** History independence: after any runs that failed in any way, one run without faults ends
      with the statuses of a run from fresh status and no managed key. It ends with the same
      managed key too, exactly if the fragment renders or there was no such key. */
  lemma FaultsAreForgotten(store: Store, faults: seq<Faults>, domain: string)
    requires WellFormed(store) && Reconcilable(store, domain)
    ensures var x, y := Run(RunAll(store, faults, domain), NO_FAULTS, domain).store, Run(Fresh(store), NO_FAULTS, domain).store;
            && x.routes.Keys == y.routes.Keys
            && (forall n | n in x.routes :: x.routes[n].status == y.routes[n].status)
            && (Managed(x) == Managed(y) <==> PlanOf(store, domain).value.fragment.Ok? || Managed(store).None?)
  {
    hide Run, PlanOf, ReadEntries, RunAll, SameInputs, OnlyOwnWrites;
    var s := RunAll(store, faults, domain);
    RunsOnlyOwnWrites(store, faults, domain);
    OwnWritesKeepInputs(store, s);
    FreshSameInputs(store);
    SameInputsSymmetric(store, s);
    SameInputsTransitive(s, store, Fresh(store));
    SamePlan(store, s, domain);
    OwnWritesKeepCustom(store, s);
    CleanRunForgets(s, Fresh(store), domain);
    if PlanOf(store, domain).value.fragment.Err? {
      UnrenderedRunsKeepCustom(store, faults, domain);
    }
  }

  /** On unreadable inputs there is nothing to forget: every run fails and writes nothing. */
  lemma {:induction false} UnreadableRunsWriteNothing(store: Store, faults: seq<Faults>, domain: string)
    requires !Reconcilable(store, domain)
    ensures RunAll(store, faults, domain) == store
    ensures forall f :: Run(store, f, domain) == Outcome(store, true, 0, 0)
  {
    hide MakePlan, Effects, Items;
    if faults != [] {
      UnreadableRunsWriteNothing(store, faults[..|faults| - 1], domain);
    }
  }

  lemma OwnWritesKeepCustom(a: Store, b: Store)
    requires OnlyOwnWrites(a, b)
    ensures a.custom.Some? == b.custom.Some? && HasCorefile(a) == HasCorefile(b)
  {
  }

  /** Once settled, a run without faults writes nothing at all. */
  lemma SettledRunIsQuiet(store: Store, domain: string)
    requires WellFormed(store) && Reconcilable(store, domain)
    requires SettledFor(store, PlanOf(store, domain).value, domain)
    ensures Run(store, NO_FAULTS, domain) == Outcome(store, false, 0, 0)
  {
    hide WantedStatus, WriteStatuses, Items, MakePlan;
    var plan := PlanOf(store, domain).value;
    var p := PublishTo(store.custom, plan.fragment, None);
    assert p == Published(store.custom, SettledState(store.custom.Some?, plan.fragment), 0);
    ItemsCurrent(store.routes);
    NothingToWrite(Items(store.routes), plan, p.state, domain, {}, Written(store.routes, store.version, 0, false));
  }

  /** A second run without faults finds its own work in place: no patch, no status write. */
  lemma SecondRunIsQuiet(store: Store, domain: string)
    requires WellFormed(store) && Reconcilable(store, domain)
    ensures var once := Run(store, NO_FAULTS, domain).store;
            Run(once, NO_FAULTS, domain) == Outcome(once, false, 0, 0)
  {
    hide Run, PlanOf, SettledFor, OnlyOwnWrites, SameInputs;
    var once := Run(store, NO_FAULTS, domain).store;
    CleanRunSettles(store, domain);
    RunOnlyOwnWrites(store, NO_FAULTS, domain);
    OwnWritesKeepInputs(store, once);
    OwnWritesKeepCustom(store, once);
    SamePlan(store, once, domain);
    SettledRunIsQuiet(once, domain);
  }

  // ---- what Published=True says

  /** A run wants Published=True for a route only if the route is accepted, the fragment is in
      the ConfigMap when the run ends, found or patched, and the Corefile is wired. */
  lemma PublishedOnlyIfInPlace(store: Store, faults: Faults, domain: string, z: ZoneRoute)
    requires WellFormed(store) && Reconcilable(store, domain)
    requires !faults.list && !faults.corefile && !faults.custom
    requires var plan := PlanOf(store, domain).value;
             WantedStatus(z, plan, PublishTo(store.custom, plan.fragment, faults.patch).state, domain).published.value.status
    ensures var plan, after := PlanOf(store, domain).value, Run(store, faults, domain).store;
            && DecisionFor(plan.decisions, z.name).accepted
            && plan.fragment.Ok? && Managed(after) == Some(plan.fragment.value)
            && plan.inspected.wired
  {
    hide MakePlan, WriteStatuses, AcceptedCondition, Items;
  }
}
