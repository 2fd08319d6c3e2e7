/** Convergence over whole runs: in every state the system can reach, if no request is waiting
    and no run is in progress, then everything the controller owns is as a recompute from the
    current objects would have it. */
module Convergence {
  import opened Wrappers
  import opened Sorting
  import opened Strings
  import opened Cluster
  import opened Conditions
  import opened Convert
  import opened Plans
  import opened PlanTheorems
  import opened Events
  import opened EventTheorems
  import opened RunTheorems
  import opened Reconciler
  import opened Protocol
  import Corefile
  import Disjointness

  // ---- the invariant

  /** The Corefile as the event filter sees it: absent reads as empty. */
  function SeenCorefile(store: Store): string {
    Lookup(store.coredns.GetOr(map[]), COREFILE_KEY)
  }

  ghost function PlanSeen(store: Store, domain: string): Result<Plan> {
    MakePlan(Items(store.routes), SeenCorefile(store), Servers(store.custom), domain)
  }

  ghost predicate Settled(store: Store, domain: string) {
    store.coredns.Some? && PlanSeen(store, domain).Ok? && SettledFor(store, PlanSeen(store, domain).value, domain)
  }

  /** From position `from` on, the snapshot's statuses are the current ones. */
  ghost predicate SameStatuses(items: seq<ZoneRoute>, current: seq<ZoneRoute>, from: nat) {
    |items| == |current| && forall i | from <= i < |items| :: items[i].status == current[i].status
  }

  /** The snapshot of the routes is still current. */
  ghost predicate FreshSnapshot(items: seq<ZoneRoute>, store: Store) {
    SameCores(items, Items(store.routes)) && SameStatuses(items, Items(store.routes), 0)
  }

  ghost predicate SawText(text: string, store: Store) {
    store.coredns.Some? && text == SeenCorefile(store)
  }

  ghost predicate SawEntries(read: Option<ConfigMap>, store: Store) {
    read.Some? == store.custom.Some? && ServerEntries(Servers(read)) == ServerEntries(Servers(store.custom))
  }

  ghost predicate PublishedNow(items: seq<ZoneRoute>, plan: Plan, state: PublishState, store: Store, domain: string) {
    && store.coredns.Some?
    && PlanSeen(store, domain) == Ok(plan)
    && state == SettledState(store.custom.Some?, plan.fragment)
    && FragmentInPlace(store.custom, plan.fragment)
  }

  /** The first `next` routes have their wanted status. */
  ghost predicate WrittenUpTo(items: seq<ZoneRoute>, plan: Plan, state: PublishState, next: nat, store: Store, domain: string) {
    var current := Items(store.routes);
    && SameCores(items, current) && next <= |items|
    && (forall i | 0 <= i < next :: current[i].status == WantedStatus(current[i], plan, state, domain))
    && SameStatuses(items, current, next)
  }

  /** With no request waiting, nothing the run depends on has changed since it began. */
  ghost predicate PhaseHolds(phase: Phase, store: Store, domain: string) {
    match phase
    case Idle => NothingExists(store) || Settled(store, domain)
    case Started => true
    case Listed(items) => FreshSnapshot(items, store)
    case SawCorefile(items, text) => FreshSnapshot(items, store) && SawText(text, store)
    case SawCustom(items, text, read) => FreshSnapshot(items, store) && SawText(text, store) && SawEntries(read, store)
    case Writing(items, plan, state, next, failed) =>
      !failed ==> PublishedNow(items, plan, state, store, domain) && WrittenUpTo(items, plan, state, next, store, domain)
  }

  ghost predicate Invariant(s: State, domain: string) {
    && WellFormed(s.store)
    && (forall n | n in s.store.routes :: Disjointness.Admitted(s.store.routes[n]))
    && (s.phase.Writing? ==> s.phase.next <= |s.phase.items|)
    && (!s.pending ==> PhaseHolds(s.phase, s.store, domain))
  }

  // ---- changes that start no run

  /** Two stores no run can tell apart. */
  ghost predicate Alike(a: Store, b: Store) {
    && a.routes.Keys == b.routes.Keys
    && (forall n | n in a.routes :: Core(a.routes[n]) == Core(b.routes[n]) && a.routes[n].status == b.routes[n].status)
    && a.coredns.Some? == b.coredns.Some? && SeenCorefile(a) == SeenCorefile(b)
    && a.custom.Some? == b.custom.Some? && ServerEntries(Servers(a.custom)) == ServerEntries(Servers(b.custom))
  }

  lemma AlikeItems(a: Store, b: Store)
    requires Alike(a, b)
    ensures SameCores(Items(a.routes), Items(b.routes)) && SameStatuses(Items(a.routes), Items(b.routes), 0)
  {
    ItemsSameCores(a.routes, b.routes);
    var names := Corefile.SortedSeq(a.routes.Keys);
    forall i | 0 <= i < |names| ensures Items(a.routes)[i].status == Items(b.routes)[i].status {
      assert names[i] in names;
    }
  }

  lemma AlikePlan(a: Store, b: Store, domain: string)
    requires Alike(a, b)
    ensures PlanSeen(a, domain) == PlanSeen(b, domain)
    ensures forall fragment :: FragmentInPlace(a.custom, fragment) <==> FragmentInPlace(b.custom, fragment)
  {
    hide MakePlan;
    AlikeItems(a, b);
    SameServerEntries(Servers(a.custom), Servers(b.custom));
    PlanReads(Items(a.routes), Items(b.routes), SeenCorefile(a), Servers(a.custom), Servers(b.custom), domain);
  }

  lemma SameCoresChain(a: seq<ZoneRoute>, b: seq<ZoneRoute>, c: seq<ZoneRoute>)
    requires SameCores(a, b) && SameCores(b, c)
    ensures SameCores(a, c)
  {
  }

  lemma AlikeFresh(items: seq<ZoneRoute>, a: Store, b: Store)
    requires Alike(a, b) && FreshSnapshot(items, a)
    ensures FreshSnapshot(items, b)
  {
    hide Items, Core;
    AlikeItems(a, b);
    SameCoresChain(items, Items(a.routes), Items(b.routes));
  }

  lemma AlikeWritten(items: seq<ZoneRoute>, plan: Plan, state: PublishState, next: nat, a: Store, b: Store, domain: string)
    requires Alike(a, b) && WrittenUpTo(items, plan, state, next, a, domain)
    ensures WrittenUpTo(items, plan, state, next, b, domain)
  {
    hide Items, Core, WantedStatus;
    AlikeItems(a, b);
    var x, y := Items(a.routes), Items(b.routes);
    SameCoresChain(items, x, y);
    forall i | 0 <= i < next ensures y[i].status == WantedStatus(y[i], plan, state, domain) {
      WantedReadsCore(x[i], y[i], plan, state, domain);
    }
  }

  lemma AlikeSettled(a: Store, b: Store, domain: string)
    requires Alike(a, b) && Settled(a, domain)
    ensures Settled(b, domain)
  {
    hide PlanSeen, WantedStatus;
    AlikePlan(a, b, domain);
    var plan := PlanSeen(a, domain).value;
    var state := SettledState(a.custom.Some?, plan.fragment);
    forall n | n in b.routes ensures b.routes[n].status == WantedStatus(b.routes[n], plan, state, domain) {
      WantedReadsCore(a.routes[n], b.routes[n], plan, state, domain);
    }
  }

  /** Whatever the run has established survives a change it cannot tell. */
  lemma AlikePhase(phase: Phase, a: Store, b: Store, domain: string)
    requires Alike(a, b) && PhaseHolds(phase, a, domain)
    ensures PhaseHolds(phase, b, domain)
  {
    hide FreshSnapshot, Settled, PlanSeen, WrittenUpTo;
    match phase {
      case Idle =>
        if NothingExists(a) {
          assert b.routes.Keys == {};
        } else {
          AlikeSettled(a, b, domain);
        }
      case Started =>
      case Listed(items) => AlikeFresh(items, a, b);
      case SawCorefile(items, text) => AlikeFresh(items, a, b);
      case SawCustom(items, text, read) => AlikeFresh(items, a, b);
      case Writing(items, plan, state, next, failed) =>
        if !failed {
          AlikePlan(a, b, domain);
          AlikeWritten(items, plan, state, next, a, b, domain);
        }
    }
  }

  /** A change by others whose event is dropped is one no run can tell. */
  lemma DroppedChangeAlike(s: State, c: Change)
    requires WellFormed(s.store) && Allowed(s.store, c) && !Changed(s, c).pending
    ensures Alike(s.store, Changed(s, c).store)
  {
    match c {
      case RouteChange(name, route) =>
        if route.Some? && name in s.store.routes {
          assert Core(s.store.routes[name]) == Core(route.value);
        }
      case CoreDNSChange(data) =>
      case CustomChange(data) =>
    }
  }

  lemma EnvironmentKeepsInvariant(s: State, c: Change, domain: string)
    requires Invariant(s, domain) && Allowed(s.store, c)
    ensures Invariant(Changed(s, c), domain)
  {
    hide PhaseHolds, Alike, Disjointness.Admitted, CoreDNSPasses, CustomPasses, RoutePasses;
    var t := Changed(s, c);
    if !t.pending {
      DroppedChangeAlike(s, c);
      AlikePhase(s.phase, s.store, t.store, domain);
    }
  }

  // ---- the controller's own steps

  lemma FreshStart(store: Store)
    ensures FreshSnapshot(Items(store.routes), store)
  {
  }

  /** A plan made from what was read is the plan of the current objects. */
  lemma PlanFromSnapshot(items: seq<ZoneRoute>, text: string, read: Option<ConfigMap>, store: Store, domain: string)
    requires FreshSnapshot(items, store) && SawText(text, store) && SawEntries(read, store)
    ensures MakePlan(items, text, Servers(read), domain) == PlanSeen(store, domain)
    ensures forall fragment :: FragmentInPlace(read, fragment) <==> FragmentInPlace(store.custom, fragment)
  {
    hide MakePlan, Items;
    SameServerEntries(Servers(read), Servers(store.custom));
    PlanReads(items, Items(store.routes), text, Servers(read), Servers(store.custom), domain);
  }

  lemma NothingWrittenYet(items: seq<ZoneRoute>, plan: Plan, state: PublishState, store: Store, domain: string)
    requires FreshSnapshot(items, store)
    ensures WrittenUpTo(items, plan, state, 0, store, domain)
  {
  }

  lemma DonePublishing(items: seq<ZoneRoute>, text: string, read: Option<ConfigMap>, plan: Plan, state: PublishState, store: Store, domain: string)
    requires FreshSnapshot(items, store) && SawText(text, store) && SawEntries(read, store)
    requires MakePlan(items, text, Servers(read), domain) == Ok(plan)
    requires DecidePublish(read, plan.fragment) == Done(state)
    ensures PublishedNow(items, plan, state, store, domain) && WrittenUpTo(items, plan, state, 0, store, domain)
  {
    hide MakePlan, PlanSeen, FreshSnapshot, WrittenUpTo;
    PlanFromSnapshot(items, text, read, store, domain);
    NothingWrittenYet(items, plan, state, store, domain);
    assert FragmentInPlace(read, plan.fragment);
  }

  /** A patch that raised no event left the published text as it was. */
  lemma PatchedPublishing(items: seq<ZoneRoute>, text: string, read: Option<ConfigMap>, plan: Plan, f: string, store: Store, domain: string)
    requires FreshSnapshot(items, store) && SawText(text, store) && SawEntries(read, store)
    requires MakePlan(items, text, Servers(read), domain) == Ok(plan)
    requires DecidePublish(read, plan.fragment) == MustPatch(f) && store.custom.Some?
    ensures CustomPasses(store.custom, Some(Patched(store.custom.value, f)))
  {
    SameServerEntries(Servers(read), Servers(store.custom));
    OwnPatchPasses(store.custom.value, f);
  }

  lemma PublishKeepsInvariant(s: State, answer: Option<string>, domain: string)
    requires Invariant(s, domain) && s.phase.SawCustom?
    ensures Invariant(ControllerStep(s, answer, domain), domain)
  {
    hide MakePlan, FreshSnapshot, SawText, SawEntries, PublishedNow, WrittenUpTo, Disjointness.Admitted, CustomPasses;
    var items, text, read := s.phase.items, s.phase.text, s.phase.read;
    var made := MakePlan(items, text, Servers(read), domain);
    if made.Ok? && !s.pending {
      match DecidePublish(read, made.value.fragment) {
        case Done(state) =>
          DonePublishing(items, text, read, made.value, state, s.store, domain);
        case MustPatch(f) =>
          if s.store.custom.Some? {
            PatchedPublishing(items, text, read, made.value, f, s.store, domain);
          }
      }
    }
  }

  lemma ItemAt(routes: map<string, ZoneRoute>, i: nat)
    requires NamedByKey(routes) && i < |Items(routes)|
    ensures var z := Items(routes)[i]; z.name in routes && routes[z.name] == z
  {
    ItemsElements(routes);
    assert Items(routes)[i] in Items(routes);
  }

  /** Writing one status changes that route's status among the current items and nothing else. */
  lemma ItemsAfterWrite(routes: map<string, ZoneRoute>, i: nat, status: Status, version: nat)
    requires NamedByKey(routes) && i < |Items(routes)|
    ensures var n := Items(routes)[i].name;
            && n in routes
            && NamedByKey(routes[n := routes[n].(status := status, version := version)])
            && Items(routes[n := routes[n].(status := status, version := version)])
                 == Items(routes)[i := routes[n].(status := status, version := version)]
  {
    ItemsCurrent(routes);
    ItemAt(routes, i);
    var n := Items(routes)[i].name;
    var next := routes[n := routes[n].(status := status, version := version)];
    assert next.Keys == routes.Keys;
    var names := Corefile.SortedSeq(routes.Keys);
    forall k | 0 <= k < |names|
      ensures Items(next)[k] == Items(routes)[i := routes[n].(status := status, version := version)][k]
    {
      ItemAt(routes, k);
      assert names[k] in names;
      assert Items(routes)[k].name == names[k];
    }
    assert Items(next) == Items(routes)[i := routes[n].(status := status, version := version)];
  }

  lemma OneMoreWritten(items: seq<ZoneRoute>, plan: Plan, state: PublishState, next: nat, store: Store, after: Store, domain: string)
    requires WellFormed(store) && next < |items|
    requires WrittenUpTo(items, plan, state, next, store, domain)
    requires var w := WriteStatus(items[next], WantedStatus(items[next], plan, state, domain), false,
                                  Written(store.routes, store.version, 0, false));
             !w.failed && after == store.(routes := w.routes, version := w.version)
    ensures WrittenUpTo(items, plan, state, next + 1, after, domain)
  {
    hide Items, Core, WantedStatus;
    var z, wanted := items[next], WantedStatus(items[next], plan, state, domain);
    var current := Items(store.routes);
    SameCoreFields(z, current[next]);
    WantedReadsCore(z, current[next], plan, state, domain);
    if wanted != z.status {
      ItemAt(store.routes, next);
      ItemsAfterWrite(store.routes, next, wanted, store.version + 1);
      var changed := current[next].(status := wanted, version := store.version + 1);
      CoreIgnores(current[next], wanted, store.version + 1);
      WantedReadsCore(current[next], changed, plan, state, domain);
      assert Items(after.routes) == current[next := changed];
    }
  }

  lemma CoreIgnores(z: ZoneRoute, status: Status, version: nat)
    ensures Core(z.(status := status, version := version)) == Core(z)
  {
  }

  /** Writing statuses does not disturb what was published. */
  lemma PublishedAfterWrite(items: seq<ZoneRoute>, plan: Plan, state: PublishState, store: Store, after: Store, domain: string)
    requires PublishedNow(items, plan, state, store, domain)
    requires SameCores(Items(store.routes), Items(after.routes))
    requires after.coredns == store.coredns && after.custom == store.custom
    ensures PublishedNow(items, plan, state, after, domain)
  {
    hide MakePlan, Items;
    PlanReads(Items(store.routes), Items(after.routes), SeenCorefile(store), Servers(store.custom), Servers(store.custom), domain);
  }

  /** A status write keeps names and cores of all routes, and raises no event. */
  lemma StatusStepFrame(s: State, answer: Option<string>, domain: string)
    requires WellFormed(s.store) && s.phase.Writing? && s.phase.next < |s.phase.items|
    requires forall n | n in s.store.routes :: Disjointness.Admitted(s.store.routes[n])
    ensures var t := StatusStep(s, answer, domain);
            && WellFormed(t.store) && t.pending == s.pending
            && t.store.routes.Keys == s.store.routes.Keys
            && (forall n | n in s.store.routes :: Core(t.store.routes[n]) == Core(s.store.routes[n]))
            && (forall n | n in t.store.routes :: Disjointness.Admitted(t.store.routes[n]))
            && t.store.coredns == s.store.coredns && t.store.custom == s.store.custom
            && t.phase == s.phase.(next := s.phase.next + 1, failed := t.phase.failed)
            && (s.phase.failed ==> t.phase.failed)
  {
    hide WantedStatus;
    var t := StatusStep(s, answer, domain);
    forall n | n in s.store.routes ensures Disjointness.Admitted(t.store.routes[n]) {
      assert t.store.routes[n].zones == s.store.routes[n].zones && t.store.routes[n].upstreams == s.store.routes[n].upstreams
          && t.store.routes[n].name == s.store.routes[n].name;
    }
  }

  lemma StatusKeepsInvariant(s: State, answer: Option<string>, domain: string)
    requires Invariant(s, domain) && s.phase.Writing? && s.phase.next < |s.phase.items|
    ensures Invariant(ControllerStep(s, answer, domain), domain)
  {
    hide Items, Core, WantedStatus, PublishedNow, WrittenUpTo, Disjointness.Admitted, StatusStep, NamedByKey, SameCores;
    var items, plan, state, next := s.phase.items, s.phase.plan, s.phase.state, s.phase.next;
    var t := StatusStep(s, answer, domain);
    StatusStepFrame(s, answer, domain);
    if !t.pending && !t.phase.failed {
      StatusWritten(s, answer, domain);
      ItemsSameCores(s.store.routes, t.store.routes);
      PublishedAfterWrite(items, plan, state, s.store, t.store, domain);
    }
  }

  lemma StatusWritten(s: State, answer: Option<string>, domain: string)
    requires WellFormed(s.store) && s.phase.Writing? && s.phase.next < |s.phase.items|
    requires !StatusStep(s, answer, domain).phase.failed
    requires WrittenUpTo(s.phase.items, s.phase.plan, s.phase.state, s.phase.next, s.store, domain)
    ensures WrittenUpTo(s.phase.items, s.phase.plan, s.phase.state, s.phase.next + 1, StatusStep(s, answer, domain).store, domain)
    ensures !s.phase.failed
  {
    hide Items, Core, WantedStatus, WrittenUpTo;
    OneMoreWritten(s.phase.items, s.phase.plan, s.phase.state, s.phase.next, s.store, StatusStep(s, answer, domain).store, domain);
  }

  /** With every status written, the run has settled the cluster. */
  lemma FinishedSettled(items: seq<ZoneRoute>, plan: Plan, state: PublishState, store: Store, domain: string)
    requires WellFormed(store)
    requires PublishedNow(items, plan, state, store, domain) && WrittenUpTo(items, plan, state, |items|, store, domain)
    ensures Settled(store, domain)
  {
    hide WantedStatus, PlanSeen;
    ItemsCurrent(store.routes);
    var current := Items(store.routes);
    forall n | n in store.routes ensures store.routes[n].status == WantedStatus(store.routes[n], plan, state, domain) {
      var i :| 0 <= i < |current| && current[i] == store.routes[n];
    }
  }

  lemma ControllerKeepsInvariant(s: State, answer: Option<string>, domain: string)
    requires Invariant(s, domain)
    ensures Invariant(ControllerStep(s, answer, domain), domain)
  {
    hide MakePlan, Items, StatusStep, PublishStep, PublishedNow, WrittenUpTo, FreshSnapshot, Settled, Disjointness.Admitted, NamedByKey;
    match s.phase {
      case Idle =>
      case Started => FreshStart(s.store);
      case Listed(items) =>
      case SawCorefile(items, text) =>
      case SawCustom(items, text, read) => PublishKeepsInvariant(s, answer, domain);
      case Writing(items, plan, state, next, failed) =>
        if next < |items| {
          StatusKeepsInvariant(s, answer, domain);
        } else if !s.pending && !failed {
          FinishedSettled(items, plan, state, s.store, domain);
        }
    }
  }

  // ---- every reachable state

  lemma InitialInvariant(s: State, domain: string)
    requires Initial(s)
    ensures Invariant(s, domain)
  {
  }

  /** The invariant holds after any run: any edits by others between any two API calls, any
      calls refused, any number of runs. */
  lemma {:induction false} RunKeepsInvariant(s: State, labels: seq<Label>, domain: string)
    requires Invariant(s, domain) && AllowedRun(s, labels, domain)
    ensures Invariant(Exec(s, labels, domain), domain)
    decreases |labels|
  {
    hide Invariant, Changed, ControllerStep, Allowed;
    if labels != [] {
      var init, l := labels[..|labels| - 1], labels[|labels| - 1];
      RunKeepsInvariant(s, init, domain);
      var before := Exec(s, init, domain);
      match l {
        case Environment(c) => EnvironmentKeepsInvariant(before, c, domain);
        case Controller(answer) => ControllerKeepsInvariant(before, answer, domain);
      }
    }
  }

  /** Whole-run convergence. In every reachable quiescent state of a cluster in which anything
      exists, the published key and all statuses are as a recompute from the current objects
      wants them. */
  lemma QuiescentIsSettled(s: State, labels: seq<Label>, domain: string)
    requires Initial(s) && AllowedRun(s, labels, domain)
    requires Quiescent(Exec(s, labels, domain))
    ensures var t := Exec(s, labels, domain).store; NothingExists(t) || Settled(t, domain)
  {
    InitialInvariant(s, domain);
    RunKeepsInvariant(s, labels, domain);
  }

  /** Equivalently: a run from a reachable quiescent state would write nothing. It succeeds
      exactly if the Corefile key is there; without it, it fails closed. */
  lemma QuiescentRunIsQuiet(s: State, labels: seq<Label>, domain: string)
    requires Initial(s) && AllowedRun(s, labels, domain)
    requires Quiescent(Exec(s, labels, domain))
    ensures var t := Exec(s, labels, domain).store;
            Run(t, NO_FAULTS, domain) == Outcome(t, !HasCorefile(t), 0, 0)
  {
    hide Run, Exec, AllowedRun, Initial;
    var t := Exec(s, labels, domain).store;
    InitialInvariant(s, domain);
    RunKeepsInvariant(s, labels, domain);
    SettledRun(t, domain);
  }

  lemma SettledRun(t: Store, domain: string)
    requires WellFormed(t) && (NothingExists(t) || Settled(t, domain))
    ensures Run(t, NO_FAULTS, domain) == Outcome(t, !HasCorefile(t), 0, 0)
  {
    hide SettledFor, MakePlan, Items, Effects;
    if HasCorefile(t) {
      assert PlanOf(t, domain) == PlanSeen(t, domain);
      SettledRunIsQuiet(t, domain);
    }
  }
}
