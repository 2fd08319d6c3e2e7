/** Termination from any reachable state whose inputs can be read and inspected: once nobody
    else acts and no call is refused, a measure falls with every step, and at most two more
    runs begin before the queue is empty and everything is settled. */
module StillCluster {
  import opened Wrappers
  import opened Cluster
  import opened Conditions
  import opened Plans
  import opened Events
  import opened EventTheorems
  import opened RunTheorems
  import opened Reconciler
  import opened Protocol
  import opened Convergence
  import opened Quiescence

  ghost predicate InPlaceNow(store: Store, domain: string)
    requires Reconcilable(store, domain)
  {
    FragmentInPlace(store.custom, PlanSeen(store, domain).value.fragment)
  }

  /** The rest of the snapshot is the current objects, versions included. */
  ghost predicate SnapshotFrom(items: seq<ZoneRoute>, store: Store, from: nat) {
    |items| == |Items(store.routes)| && forall i | from <= i < |items| :: items[i] == Items(store.routes)[i]
  }

  /** The run in progress has read only what is still so. */
  ghost predicate UpToDate(s: State, domain: string) {
    match s.phase
    case Idle => true
    case Started => true
    case Listed(items) => SnapshotFrom(items, s.store, 0)
    case SawCorefile(items, text) => SnapshotFrom(items, s.store, 0) && SawText(text, s.store)
    case SawCustom(items, text, read) => SnapshotFrom(items, s.store, 0) && SawText(text, s.store) && SawEntries(read, s.store)
    case Writing(items, plan, state, next, failed) =>
      !failed && PublishedNow(items, plan, state, s.store, domain) && SnapshotFrom(items, s.store, next)
  }

  /** How many more runs can begin. */
  ghost function RunsLeft(s: State, domain: string): nat
    requires Reconcilable(s.store, domain)
  {
    match s.phase
    case Idle => if !s.pending then 0 else if InPlaceNow(s.store, domain) then 1 else 2
    case Writing(_, _, _, _, _) =>
      if UpToDate(s, domain) && !s.pending then 0 else if InPlaceNow(s.store, domain) then 1 else 2
    case _ =>
      if !UpToDate(s, domain) then 2 else if s.pending || !InPlaceNow(s.store, domain) then 1 else 0
  }

  /** How many steps the run in progress has left. */
  ghost function StepsLeft(s: State): nat {
    match s.phase
    case Idle => 0
    case Started => |Items(s.store.routes)| + 5
    case Listed(items) => |items| + 4
    case SawCorefile(items, _) => |items| + 3
    case SawCustom(items, _, _) => |items| + 2
    case Writing(items, _, _, next, _) => if next <= |items| then |items| - next + 1 else 1
  }

  ghost predicate Falls(t: State, s: State, domain: string)
    requires Reconcilable(t.store, domain) && Reconcilable(s.store, domain)
  {
    RunsLeft(t, domain) < RunsLeft(s, domain)
    || (RunsLeft(t, domain) == RunsLeft(s, domain) && StepsLeft(t) < StepsLeft(s))
  }

  /** Own writes keep the plan, so the inputs stay inspectable. */
  lemma PlanKept(a: Store, b: Store, domain: string)
    requires OnlyOwnWrites(a, b) && Reconcilable(a, domain)
    ensures Reconcilable(b, domain) && PlanSeen(b, domain) == PlanSeen(a, domain) && SeenCorefile(a) == SeenCorefile(b)
  {
    hide MakePlan, Items, ReadEntries;
    OwnWritesKeepInputs(a, b);
    ItemsSameCores(a.routes, b.routes);
    PlanReads(Items(a.routes), Items(b.routes), SeenCorefile(a), Servers(a.custom), Servers(b.custom), domain);
  }

  lemma SnapshotIsFresh(items: seq<ZoneRoute>, store: Store)
    requires SnapshotFrom(items, store, 0)
    ensures FreshSnapshot(items, store)
  {
  }

  ghost function Quiet(s: State, domain: string): State {
    ControllerStep(s, None, domain)
  }

  lemma PublishFalls(s: State, domain: string)
    requires Invariant(s, domain) && Reconcilable(s.store, domain) && s.phase.SawCustom?
    ensures Reconcilable(Quiet(s, domain).store, domain) && Falls(Quiet(s, domain), s, domain)
  {
    var t := Quiet(s, domain);
    ControllerOnlyOwnWrites(s, None, domain);
    PlanKept(s.store, t.store, domain);
    if UpToDate(s, domain) {
      PublishUpToDate(s, domain);
    } else {
      hide MakePlan, UpToDate, InPlaceNow, Reconcilable, PublishStep, DecidePublish;
      PublishStepPhase(s, domain);
    }
  }

  lemma PublishStepPhase(s: State, domain: string)
    requires s.phase.SawCustom?
    ensures StepsLeft(Quiet(s, domain)) < StepsLeft(s)
    ensures Quiet(s, domain).phase.Idle? || Quiet(s, domain).phase.Writing?
  {
    hide MakePlan, CustomPasses;
  }

  lemma ReconcilableSeen(store: Store, domain: string)
    requires Reconcilable(store, domain)
    ensures PlanSeen(store, domain) == PlanOf(store, domain)
    ensures PlanSeen(store, domain).Ok?
  {
    hide MakePlan, Items;
  }

  lemma PublishUpToDate(s: State, domain: string)
    requires Invariant(s, domain) && Reconcilable(s.store, domain) && s.phase.SawCustom? && UpToDate(s, domain)
    requires var t := Quiet(s, domain);
             Reconcilable(t.store, domain) && PlanSeen(t.store, domain) == PlanSeen(s.store, domain) && SeenCorefile(s.store) == SeenCorefile(t.store)
    ensures Falls(Quiet(s, domain), s, domain)
  {
    hide MakePlan, PlanSeen, Items, CustomPasses, SawText, SawEntries, FreshSnapshot;
    var items, text, read := s.phase.items, s.phase.text, s.phase.read;
    SnapshotIsFresh(items, s.store);
    PlanFromSnapshot(items, text, read, s.store, domain);
    ReconcilableSeen(s.store, domain);
    var plan := PlanSeen(s.store, domain).value;
    assert read.Some? == s.store.custom.Some? by {
      SawEntriesSome(read, s.store);
    }
    match DecidePublish(read, plan.fragment) {
      case Done(state) =>
        assert FragmentInPlace(read, plan.fragment);
      case MustPatch(f) =>
        assert !FragmentInPlace(read, plan.fragment);
        PatchedPublishing(items, text, read, plan, f, s.store, domain);
    }
  }

  lemma SawEntriesSome(read: Option<ConfigMap>, store: Store)
    requires SawEntries(read, store)
    ensures read.Some? == store.custom.Some?
  {
  }

  lemma StatusFalls(s: State, domain: string)
    requires Invariant(s, domain) && Reconcilable(s.store, domain) && s.phase.Writing? && s.phase.next < |s.phase.items|
    ensures Reconcilable(Quiet(s, domain).store, domain) && Falls(Quiet(s, domain), s, domain)
  {
    hide MakePlan, PlanSeen, Items, WantedStatus, UpToDate, StatusStep;
    var t := Quiet(s, domain);
    ControllerOnlyOwnWrites(s, None, domain);
    PlanKept(s.store, t.store, domain);
    StatusStepFields(s, domain);
    if UpToDate(s, domain) {
      StatusUpToDate(s, domain);
    }
  }

  lemma StatusStepFields(s: State, domain: string)
    requires Invariant(s, domain) && s.phase.Writing? && s.phase.next < |s.phase.items|
    ensures var t := StatusStep(s, None, domain);
            && t.pending == s.pending && t.store.custom == s.store.custom && t.store.coredns == s.store.coredns
            && t.phase == s.phase.(next := s.phase.next + 1, failed := t.phase.failed)
  {
    StatusStepFrame(s, None, domain);
  }

  /** Writing the status of an up-to-date object cannot be refused for its version. */
  lemma StatusUpToDate(s: State, domain: string)
    requires Invariant(s, domain) && s.phase.Writing? && s.phase.next < |s.phase.items| && UpToDate(s, domain)
    requires PlanSeen(StatusStep(s, None, domain).store, domain) == PlanSeen(s.store, domain)
    ensures UpToDate(StatusStep(s, None, domain), domain)
  {
    hide MakePlan, PlanSeen, Items, WantedStatus;
    var items, next := s.phase.items, s.phase.next;
    var z, wanted := items[next], WantedStatus(items[next], s.phase.plan, s.phase.state, domain);
    StatusStepFields(s, domain);
    ItemAt(s.store.routes, next);
    if wanted != z.status {
      ItemsAfterWrite(s.store.routes, next, wanted, s.store.version + 1);
      assert StatusStep(s, None, domain).store.routes == s.store.routes[z.name := z.(status := wanted, version := s.store.version + 1)];
    }
  }

  /** With readable inputs the measure falls with every step, and taking the request uses up one of the runs. */
  lemma MeasureFalls(s: State, domain: string)
    requires Invariant(s, domain) && Reconcilable(s.store, domain) && !Quiescent(s)
    ensures Reconcilable(Quiet(s, domain).store, domain) && Falls(Quiet(s, domain), s, domain)
    ensures s.phase.Idle? ==> RunsLeft(Quiet(s, domain), domain) < RunsLeft(s, domain)
  {
    hide MakePlan, PlanSeen, Items, StatusStep, PublishStep;
    match s.phase {
      case Idle =>
      case Started =>
      case Listed(items) =>
      case SawCorefile(items, text) =>
      case SawCustom(items, text, read) => PublishFalls(s, domain);
      case Writing(items, plan, state, next, failed) =>
        if next < |items| {
          StatusFalls(s, domain);
        }
    }
  }

  /** How many of the first `n` steps take the request. */
  ghost function Starts(s: State, domain: string, n: nat): nat
    decreases n
  {
    if n == 0 then 0
    else (if s.phase.Idle? && s.pending then 1 else 0) + Starts(Quiet(s, domain), domain, n - 1)
  }

  ghost function After(s: State, domain: string, n: nat): State
    decreases n
  {
    if n == 0 then s else After(Quiet(s, domain), domain, n - 1)
  }

  /** From any reachable state, whatever the run in progress has seen, a still cluster with
      readable inputs comes to rest settled, and at most two more runs begin. */
  lemma {:induction false} ComesToRest(s: State, domain: string) returns (n: nat)
    requires Invariant(s, domain) && Reconcilable(s.store, domain)
    ensures Quiescent(After(s, domain, n)) && Settled(After(s, domain, n).store, domain)
    ensures Starts(s, domain, n) <= RunsLeft(s, domain) <= 2
    decreases RunsLeft(s, domain), StepsLeft(s)
  {
    hide MakePlan, PlanSeen, ControllerStep, RunsLeft, StepsLeft, Settled;
    if Quiescent(s) {
      n := 0;
      RestIsSettled(s, domain);
    } else {
      MeasureFalls(s, domain);
      ControllerKeepsInvariant(s, None, domain);
      var m := ComesToRest(Quiet(s, domain), domain);
      n := m + 1;
      RunsLeftBound(s, domain);
    }
  }

  lemma RestIsSettled(s: State, domain: string)
    requires Invariant(s, domain) && Quiescent(s) && Reconcilable(s.store, domain)
    ensures Settled(s.store, domain) && RunsLeft(s, domain) == 0
  {
    hide MakePlan, PlanSeen;
  }

  lemma RunsLeftBound(s: State, domain: string)
    requires Reconcilable(s.store, domain)
    ensures RunsLeft(s, domain) <= 2
  {
    hide MakePlan, PlanSeen;
  }
}
