/** Exactly when a still cluster comes to rest. With nobody else acting and no call refused,
    the controller stops re-queueing if and only if its inputs can be read and inspected, or
    the run in progress has read what it needs and will end well without being repeated. */
module RestTheorems {
  import opened Wrappers
  import opened Cluster
  import opened Conditions
  import opened Plans
  import opened PlanTheorems
  import opened Events
  import opened EventTheorems
  import opened RunTheorems
  import opened Reconciler
  import opened Protocol
  import opened Convergence
  import opened Quiescence
  import opened StillCluster
  import Disjointness

  // ---- a run in progress that will not be repeated

  /** The remaining status writes cannot be refused: each is unnecessary, or its object has
      not changed since it was listed. */
  ghost predicate WritesGo(items: seq<ZoneRoute>, plan: Plan, state: PublishState, next: nat, store: Store, domain: string) {
    forall i | next <= i < |items| ::
      || WantedStatus(items[i], plan, state, domain) == items[i].status
      || (items[i].name in store.routes && store.routes[items[i].name].version == items[i].version)
  }

  /** What the run has read gives a plan that is in place already. */
  ghost predicate WillWrite(items: seq<ZoneRoute>, store: Store, domain: string) {
    && PlanSeen(store, domain).Ok?
    && var plan := PlanSeen(store, domain).value;
       && FragmentInPlace(store.custom, plan.fragment)
       && WritesGo(items, plan, SettledState(store.custom.Some?, plan.fragment), 0, store, domain)
  }

  /** No request is waiting, and none will be when the run in progress ends. */
  ghost predicate LastRun(s: State, domain: string) {
    !s.pending &&
    match s.phase
    case Idle => true
    case Started => false
    case Listed(_) => false
    case SawCorefile(items, _) => WillWrite(items, s.store, domain)
    case SawCustom(items, _, _) => WillWrite(items, s.store, domain)
    case Writing(items, plan, state, next, failed) => !failed && WritesGo(items, plan, state, next, s.store, domain)
  }

  // ---- one status write

  lemma SnapshotNames(items: seq<ZoneRoute>, store: Store)
    requires WellFormed(store) && SameCores(items, Items(store.routes))
    ensures DistinctItems(items)
  {
    ItemsCurrent(store.routes);
    var current := Items(store.routes);
    forall i | 0 <= i < |items| ensures items[i].name == current[i].name && current[i].name in store.routes {
      SameCoreFields(items[i], current[i]);
      ItemAt(store.routes, i);
    }
  }

  /** The write of one status, as the step machine does it. */
  lemma StatusWrite(s: State, domain: string)
    requires s.phase.Writing? && s.phase.next < |s.phase.items|
    ensures var z, t := s.phase.items[s.phase.next], StatusStep(s, None, domain);
            var wanted := WantedStatus(z, s.phase.plan, s.phase.state, domain);
            if wanted == z.status then
              t.store == s.store && t.phase == s.phase.(next := s.phase.next + 1)
            else if z.name !in s.store.routes || s.store.routes[z.name].version != z.version then
              t.phase == s.phase.(next := s.phase.next + 1, failed := true)
            else
              && t.phase == s.phase.(next := s.phase.next + 1)
              && (forall n :: n in t.store.routes <==> n in s.store.routes)
              && (forall n | n in s.store.routes && n != z.name :: t.store.routes[n] == s.store.routes[n])
  {
    hide WantedStatus;
  }

  /** A write that cannot be refused leaves the question of the others as it was. */
  lemma OneWriteLess(items: seq<ZoneRoute>, plan: Plan, state: PublishState, next: nat, store: Store, after: Store, domain: string)
    requires next < |items| && DistinctItems(items)
    requires var z := items[next];
             || (WantedStatus(z, plan, state, domain) == z.status && after == store)
             || (&& z.name in store.routes && store.routes[z.name].version == z.version
                 && (forall n :: n in after.routes <==> n in store.routes)
                 && (forall n | n in store.routes && n != z.name :: after.routes[n] == store.routes[n]))
    ensures WritesGo(items, plan, state, next + 1, after, domain) <==> WritesGo(items, plan, state, next, store, domain)
  {
    hide WantedStatus;
    assert forall i | next + 1 <= i < |items| :: items[next].name != items[i].name;
  }

  lemma RefusedWrite(items: seq<ZoneRoute>, plan: Plan, state: PublishState, next: nat, store: Store, domain: string)
    requires next < |items| && WantedStatus(items[next], plan, state, domain) != items[next].status
    requires items[next].name !in store.routes || store.routes[items[next].name].version != items[next].version
    ensures !WritesGo(items, plan, state, next, store, domain)
  {
    hide WantedStatus;
  }

  lemma ListedNames(s: State, domain: string)
    requires Invariant(s, domain) && !s.pending && s.phase.Writing? && !s.phase.failed
    ensures DistinctItems(s.phase.items)
  {
    hide PublishedNow, WantedStatus, Items, SameCores, SameStatuses, DistinctItems, Disjointness.Admitted;
    SnapshotNames(s.phase.items, s.store);
  }

  /** Writing one status settles that write and leaves the others as they were. */
  lemma WriteByWrite(s: State, domain: string)
    requires Invariant(s, domain) && !s.pending && s.phase.Writing? && !s.phase.failed && s.phase.next < |s.phase.items|
    ensures LastRun(Quiet(s, domain), domain) <==> LastRun(s, domain)
  {
    hide Invariant, WantedStatus, StatusStep, Items, WritesGo, DistinctItems, WillWrite;
    var items, plan, state, next := s.phase.items, s.phase.plan, s.phase.state, s.phase.next;
    var t := Quiet(s, domain);
    StatusStepFields(s, domain);
    StatusWrite(s, domain);
    ListedNames(s, domain);
    if t.phase.failed {
      RefusedWrite(items, plan, state, next, s.store, domain);
    } else {
      OneWriteLess(items, plan, state, next, s.store, t.store, domain);
    }
  }

  // ---- one step

  /** Publishing what was read: with nothing to patch the run goes on to write, and a patch or
      a failure brings the request back. */
  lemma PublishLast(s: State, domain: string)
    requires Invariant(s, domain) && !s.pending && s.phase.SawCustom?
    ensures LastRun(Quiet(s, domain), domain) <==> LastRun(s, domain)
  {
    hide MakePlan, PlanSeen, FreshSnapshot, SawText, SawEntries, WritesGo, CustomPasses, Disjointness.Admitted;
    var items, text, read := s.phase.items, s.phase.text, s.phase.read;
    PlanFromSnapshot(items, text, read, s.store, domain);
    SawEntriesSome(read, s.store);
    if PlanSeen(s.store, domain).Ok? {
      var plan := PlanSeen(s.store, domain).value;
      match DecidePublish(read, plan.fragment) {
        case Done(state) =>
          assert FragmentInPlace(read, plan.fragment);
        case MustPatch(f) =>
          assert !FragmentInPlace(read, plan.fragment);
          PatchedPublishing(items, text, read, plan, f, s.store, domain);
      }
    }
  }

  /** But for the step that reads the Corefile, whether this is the last run does not change. */
  lemma LastRunKept(s: State, domain: string)
    requires Invariant(s, domain) && !s.phase.Listed?
    ensures LastRun(Quiet(s, domain), domain) <==> LastRun(s, domain)
  {
    hide MakePlan, WillWrite, PhaseHolds, Items, StatusStep, PublishStep, Disjointness.Admitted;
    if s.pending {
      StaysPending(s, domain);
    } else {
      match s.phase {
        case Idle =>
        case Started =>
        case SawCorefile(items, text) =>
        case SawCustom(items, text, read) => PublishLast(s, domain);
        case Writing(items, plan, state, next, failed) =>
          if next < |items| {
            StatusStepFields(s, domain);
            if failed {
              StatusStepFrame(s, None, domain);
            } else {
              WriteByWrite(s, domain);
            }
          }
      }
    }
  }

  lemma StaysPending(s: State, domain: string)
    requires s.pending
    ensures !LastRun(Quiet(s, domain), domain)
  {
    hide MakePlan, WillWrite, WritesGo, WantedStatus, Items, CustomPasses;
  }

  // ---- for ever

  ghost predicate Stuck(s: State, domain: string) {
    Invariant(s, domain) && !Reconcilable(s.store, domain) && !LastRun(s, domain)
  }

  lemma StuckStays(s: State, domain: string)
    requires Stuck(s, domain)
    ensures Stuck(Quiet(s, domain), domain) && !Quiescent(s)
  {
    hide MakePlan, Reconcilable, Invariant, PlanSeen, Items, LastRun, OnlyOwnWrites, SameInputs, ControllerStep;
    InvariantForm(s, domain);
    ControllerKeepsInvariant(s, None, domain);
    ControllerOnlyOwnWrites(s, None, domain);
    OwnWritesKeepInputs(s.store, Quiet(s, domain).store);
    SamePlan(s.store, Quiet(s, domain).store, domain);
    if s.phase.Listed? {
      ListedStuck(s, domain);
    } else {
      LastRunKept(s, domain);
    }
    QuiescentLast(s, domain);
  }

  lemma InvariantForm(s: State, domain: string)
    requires Invariant(s, domain)
    ensures WellFormed(s.store)
  {
  }

  lemma QuiescentLast(s: State, domain: string)
    ensures Quiescent(s) ==> LastRun(s, domain)
  {
  }

  lemma ListedStuck(s: State, domain: string)
    requires s.phase.Listed? && !Reconcilable(s.store, domain)
    ensures !LastRun(Quiet(s, domain), domain)
  {
    hide MakePlan, Items;
  }

  lemma {:induction false} StuckForever(s: State, domain: string, n: nat)
    requires Stuck(s, domain)
    ensures !Quiescent(After(s, domain, n))
    decreases n
  {
    hide Stuck, Quiet;
    StuckStays(s, domain);
    if n > 0 {
      StuckForever(Quiet(s, domain), domain, n - 1);
    }
  }

  lemma LastRunSteps(s: State, domain: string)
    requires Invariant(s, domain) && LastRun(s, domain) && !Quiescent(s)
    ensures StepsLeft(Quiet(s, domain)) < StepsLeft(s)
  {
    hide MakePlan, WillWrite, WritesGo, PhaseHolds, Items, StatusStep, Disjointness.Admitted;
    match s.phase {
      case SawCorefile(items, text) =>
      case SawCustom(items, text, read) => PublishStepPhase(s, domain);
      case Writing(items, plan, state, next, failed) =>
        if next < |items| {
          StatusStepFields(s, domain);
        }
      case _ =>
    }
  }

  lemma {:induction false} LastRunEnds(s: State, domain: string) returns (n: nat)
    requires Invariant(s, domain) && LastRun(s, domain)
    ensures Quiescent(After(s, domain, n))
    decreases StepsLeft(s)
  {
    hide Invariant, LastRun, Quiet, StepsLeft;
    if Quiescent(s) {
      n := 0;
    } else {
      LastRunSteps(s, domain);
      NotListed(s, domain);
      LastRunKept(s, domain);
      QuietKeepsInvariant(s, domain);
      var m := LastRunEnds(Quiet(s, domain), domain);
      n := m + 1;
    }
  }

  lemma NotListed(s: State, domain: string)
    requires LastRun(s, domain)
    ensures !s.phase.Listed?
  {
  }

  lemma QuietKeepsInvariant(s: State, domain: string)
    requires Invariant(s, domain)
    ensures Invariant(Quiet(s, domain), domain)
  {
    hide Invariant, ControllerStep;
    ControllerKeepsInvariant(s, None, domain);
  }

  // ---- the condition

  /** With nobody else acting and no call refused, the system comes to rest. */
  ghost predicate ComesToRestFrom(s: State, domain: string) {
    exists n :: Quiescent(After(s, domain, n))
  }

  /** From any reachable state: the system comes to rest if and only if the Corefile key is
      there and everything can be inspected, or the run in progress is the last. */
  lemma RestsExactlyIf(s: State, domain: string)
    requires Invariant(s, domain)
    ensures ComesToRestFrom(s, domain) <==> Reconcilable(s.store, domain) || LastRun(s, domain)
  {
    hide Invariant, LastRun, Quiescent, Reconcilable, After;
    if Reconcilable(s.store, domain) {
      var n := ComesToRest(s, domain);
    } else if LastRun(s, domain) {
      var n := LastRunEnds(s, domain);
    } else {
      forall n ensures !Quiescent(After(s, domain, n)) {
        StuckForever(s, domain, n);
      }
    }
  }

  /** A waiting request is worked off for good if and only if its inputs are readable. */
  lemma WaitingRestsExactlyIf(s: State, domain: string)
    requires Invariant(s, domain) && s.pending
    ensures ComesToRestFrom(s, domain) <==> Reconcilable(s.store, domain)
  {
    hide Invariant, Reconcilable, ComesToRestFrom, WillWrite, WritesGo;
    RestsExactlyIf(s, domain);
  }

  /** Rest on unreadable inputs is reached in one way only: the Corefile key is gone, and the
      run in progress has read it as empty, or works by the plan of an empty Corefile. */
  lemma OnlyIfKeyRemoved(s: State, domain: string)
    requires Invariant(s, domain) && LastRun(s, domain) && !Reconcilable(s.store, domain) && !Quiescent(s)
    ensures s.store.coredns.Some? && COREFILE_KEY !in s.store.coredns.value
    ensures s.phase.SawCorefile? || s.phase.SawCustom? || s.phase.Writing?
    ensures s.phase.SawCorefile? || s.phase.SawCustom? ==> s.phase.text == ""
    ensures s.phase.Writing? ==> MakePlan(s.phase.items, "", Servers(s.store.custom), domain) == Ok(s.phase.plan)
  {
    hide MakePlan, Items, WritesGo, FreshSnapshot, SameCores, SameStatuses, Disjointness.Admitted;
    if s.phase.Writing? {
      var servers := Servers(s.store.custom);
      PlanReads(s.phase.items, Items(s.store.routes), "", servers, servers, domain);
    }
  }

  /** When the Corefile or a server key cannot be inspected, a system that is not at
      rest never gets there: every run fails and is queued again. */
  lemma UnreadableNeverRests(s: State, domain: string, n: nat)
    requires Invariant(s, domain) && !Quiescent(s) && PlanSeen(s.store, domain).Err?
    ensures !Quiescent(After(s, domain, n))
  {
    hide MakePlan, After, Items, WrittenUpTo, FreshSnapshot, Disjointness.Admitted;
    StuckForever(s, domain, n);
  }
}
