/** The step machine against whole runs: a run nobody interferes with is exactly one call of
    Reconcile; the controller writes nothing but its own key and statuses; and once the
    environment is still and the inputs are readable, at most two more runs happen. */
module Quiescence {
  import opened Wrappers
  import opened Strings
  import opened Cluster
  import opened Conditions
  import opened Plans
  import opened PlanTheorems
  import opened Events
  import opened EventTheorems
  import opened RunTheorems
  import opened Reconciler
  import opened Protocol
  import opened Convergence
  import Caddyfile
  import Corefile
  import CorefileTheorems
  import Render

  // ---- the controller's writes

  lemma OwnWritesOfStatus(s: State, answer: Option<string>, domain: string)
    requires WellFormed(s.store) && s.phase.Writing? && s.phase.next < |s.phase.items|
    ensures OnlyOwnWrites(s.store, StatusStep(s, answer, domain).store)
  {
    hide WantedStatus;
  }

  /** Whatever state the system is in, a step of the controller leaves ConfigMap coredns, the
      routes' names and specs, and every key of coredns-custom but the managed one as they
      are, and neither creates nor removes coredns-custom. */
  lemma ControllerOnlyOwnWrites(s: State, answer: Option<string>, domain: string)
    requires WellFormed(s.store)
    ensures OnlyOwnWrites(s.store, ControllerStep(s, answer, domain).store)
    ensures WellFormed(ControllerStep(s, answer, domain).store)
  {
    hide MakePlan, WantedStatus;
    if s.phase.Writing? && s.phase.next < |s.phase.items| {
      OwnWritesOfStatus(s, answer, domain);
      var t := StatusStep(s, answer, domain).store;
      forall n | n in t.routes ensures t.routes[n].name == n {
        SameCoreFields(t.routes[n], s.store.routes[n]);
      }
    }
  }

  // ---- an uninterrupted run is one Reconcile

  const REFUSED := "refused"

  /** The answers of an API that fails as `faults` says. */
  function AnswerFor(s: State, faults: Faults): Option<string> {
    match s.phase
    case Idle => None
    case Started => if faults.list then Some(REFUSED) else None
    case Listed(_) => if faults.corefile then Some(REFUSED) else None
    case SawCorefile(_, _) => if faults.custom then Some(REFUSED) else None
    case SawCustom(_, _, _) => faults.patch
    case Writing(items, _, _, next, _) => if next < |items| && items[next].name in faults.status then Some(REFUSED) else None
  }

  ghost function Advance(s: State, faults: Faults, domain: string): State {
    ControllerStep(s, AnswerFor(s, faults), domain)
  }

  /** The controller alone for `n` steps. */
  ghost function Iterate(s: State, faults: Faults, domain: string, n: nat): State
    decreases n
  {
    if n == 0 then s else Iterate(Advance(s, faults, domain), faults, domain, n - 1)
  }

  lemma {:induction false} IterateSum(s: State, faults: Faults, domain: string, m: nat, n: nat)
    ensures Iterate(s, faults, domain, m + n) == Iterate(Iterate(s, faults, domain, m), faults, domain, n)
    decreases m
  {
    hide Advance;
    if m > 0 {
      IterateSum(Advance(s, faults, domain), faults, domain, m - 1, n);
    }
  }

  /** The writing phase agrees with the statuses written so far. */
  ghost predicate AtWrite(s: State, w: Written, failed: bool) {
    && s.phase.Writing?
    && s.store.routes == w.routes && s.store.version == w.version
    && s.phase.failed == (failed || w.failed)
  }

  lemma StatusAdvance(s: State, faults: Faults, domain: string, w: Written, failed: bool)
    requires WellFormed(s.store) && AtWrite(s, w, failed) && s.phase.next < |s.phase.items|
    ensures var z := s.phase.items[s.phase.next];
            var t := Advance(s, faults, domain);
            var x := WriteStatus(z, WantedStatus(z, s.phase.plan, s.phase.state, domain), z.name in faults.status, w);
            && AtWrite(t, x, failed) && WellFormed(t.store)
            && t.phase == s.phase.(next := s.phase.next + 1, failed := t.phase.failed)
            && t.pending == s.pending && t.store.coredns == s.store.coredns && t.store.custom == s.store.custom
  {
    hide WantedStatus;
  }

  lemma {:induction false} WritingAdvances(s: State, faults: Faults, domain: string, start: Written, failed: bool)
    requires WellFormed(s.store) && s.phase.Writing? && s.phase.next <= |s.phase.items|
    requires AtWrite(s, WriteStatuses(s.phase.items[..s.phase.next], s.phase.plan, s.phase.state, domain, faults.status, start), failed)
    ensures var items := s.phase.items;
            var w := WriteStatuses(items, s.phase.plan, s.phase.state, domain, faults.status, start);
            Iterate(s, faults, domain, |items| - s.phase.next + 1)
              == State(Store(w.routes, s.store.coredns, s.store.custom, w.version), s.pending || failed || w.failed, Idle)
    decreases |s.phase.items| - s.phase.next
  {
    hide WantedStatus, WriteStatus;
    var items, next := s.phase.items, s.phase.next;
    var t := Advance(s, faults, domain);
    if next == |items| {
      assert items[..next] == items;
      assert Iterate(s, faults, domain, 1) == Iterate(t, faults, domain, 0) == t;
    } else {
      StatusAdvance(s, faults, domain, WriteStatuses(items[..next], s.phase.plan, s.phase.state, domain, faults.status, start), failed);
      assert items[..next + 1][..next] == items[..next];
      WritingAdvances(t, faults, domain, start, failed);
    }
  }

  /** From the request being taken to the run being over, with nobody else acting: the store
      ends as Reconcile leaves it, and the request is waiting again iff the run failed or its
      own patch changed the published text. */
  lemma UninterruptedRun(s: State, faults: Faults, domain: string) returns (n: nat)
    requires WellFormed(s.store) && s.phase.Idle? && s.pending
    ensures var o, t := Run(s.store, faults, domain), Iterate(s, faults, domain, n);
            t == State(o.store, o.failed || o.patches > 0, Idle)
    ensures n <= |Items(s.store.routes)| + 6
  {
    hide MakePlan, WriteStatuses, Effects, Items, StatusStep, PublishTo;
    var s1 := Advance(s, faults, domain);
    var s2 := Advance(s1, faults, domain);
    if faults.list {
      n := 2;
      assert Iterate(s, faults, domain, 2) == Iterate(s1, faults, domain, 1) == Iterate(s2, faults, domain, 0);
    } else {
      var s3 := Advance(s2, faults, domain);
      assert Iterate(s, faults, domain, 3) == Iterate(s1, faults, domain, 2) == Iterate(s2, faults, domain, 1) == Iterate(s3, faults, domain, 0);
      if faults.corefile || !HasCorefile(s.store) {
        n := 3;
      } else {
        var s4 := Advance(s3, faults, domain);
        assert Iterate(s3, faults, domain, 1) == Iterate(s4, faults, domain, 0);
        IterateSum(s, faults, domain, 3, 1);
        if faults.custom {
          n := 4;
        } else {
          var m := RunFromSnapshot(s4, faults, domain, s.store);
          IterateSum(s, faults, domain, 4, m);
          n := 4 + m;
        }
      }
    }
  }

  lemma RunFromSnapshot(s: State, faults: Faults, domain: string, store: Store) returns (n: nat)
    requires WellFormed(store) && HasCorefile(store)
    requires !faults.list && !faults.corefile && !faults.custom
    requires s == State(store, false, SawCustom(Items(store.routes), store.coredns.value[COREFILE_KEY], store.custom))
    ensures var o, t := Run(store, faults, domain), Iterate(s, faults, domain, n);
            t == State(o.store, o.failed || o.patches > 0, Idle)
    ensures n <= |Items(store.routes)| + 2
  {
    hide MakePlan, WriteStatuses, Items, StatusStep;
    var items := Items(store.routes);
    var made := MakePlan(items, store.coredns.value[COREFILE_KEY], Servers(store.custom), domain);
    var t := Advance(s, faults, domain);
    assert Iterate(s, faults, domain, 1) == Iterate(t, faults, domain, 0);
    match made {
      case Err(_) =>
        n := 1;
      case Ok(plan) =>
        var p := PublishTo(store.custom, plan.fragment, faults.patch);
        PublishAdvance(s, faults, domain, plan);
        var start := Written(store.routes, store.version + p.patches, 0, false);
        assert items[..0] == [];
        NoWrites(plan, p.state, domain, faults.status, start);
        WritingAdvances(t, faults, domain, start, p.state.WriteFailed?);
        n := 1 + |items| + 1;
        IterateSum(s, faults, domain, 1, |items| + 1);
    }
  }

  lemma NoWrites(plan: Plan, state: PublishState, domain: string, denied: set<string>, w: Written)
    ensures WriteStatuses([], plan, state, domain, denied, w) == w
  {
  }

  lemma PublishAdvance(s: State, faults: Faults, domain: string, plan: Plan)
    requires s.phase.SawCustom? && s.phase.read == s.store.custom && !s.pending
    requires MakePlan(s.phase.items, s.phase.text, Servers(s.phase.read), domain) == Ok(plan)
    ensures var p := PublishTo(s.store.custom, plan.fragment, faults.patch);
            Advance(s, faults, domain) ==
              State(s.store.(custom := p.custom, version := s.store.version + p.patches), p.patches > 0,
                    Writing(s.phase.items, plan, p.state, 0, p.state.WriteFailed?))
  {
    hide MakePlan, CustomPasses;
    if s.store.custom.Some? && plan.fragment.Ok? {
      OwnPatchPasses(s.store.custom.value, plan.fragment.value);
    }
  }

  /** No self-sustaining loop: with nobody else acting, no faults and readable inputs, a waiting
      request leads to one run that settles the cluster and, only if that run patched, a second one that
      writes nothing; then the queue is empty. */
  lemma TwoRunsAtMost(s: State, domain: string) returns (m: nat, n: nat)
    requires WellFormed(s.store) && s.phase.Idle? && s.pending && Reconcilable(s.store, domain)
    ensures var once := Run(s.store, NO_FAULTS, domain);
            && Iterate(s, NO_FAULTS, domain, m) == State(once.store, once.patches > 0, Idle)
            && (once.patches > 0 ==> Iterate(s, NO_FAULTS, domain, m + n) == State(once.store, false, Idle))
  {
    hide Run, Iterate, PlanOf;
    var once := Run(s.store, NO_FAULTS, domain);
    m := UninterruptedRun(s, NO_FAULTS, domain);
    CleanRunSettles(s.store, domain);
    n := 0;
    if once.patches > 0 {
      var t := State(once.store, true, Idle);
      SecondRunIsQuiet(s.store, domain);
      RunOnlyOwnWrites(s.store, NO_FAULTS, domain);
      n := UninterruptedRun(t, NO_FAULTS, domain);
      IterateSum(s, NO_FAULTS, domain, m, n);
    }
  }

  // ---- the change nobody notices

  function Calls(n: nat): (r: seq<Label>)
    ensures |r| == n
  {
    seq(n, _ => Controller(None))
  }

  lemma {:induction false} CallsIterate(s: State, domain: string, n: nat)
    ensures Exec(s, Calls(n), domain) == Iterate(s, NO_FAULTS, domain, n)
    ensures AllowedRun(s, Calls(n), domain)
  {
    hide ControllerStep;
    if n > 0 {
      CallsIterate(s, domain, n - 1);
      assert Calls(n)[..n - 1] == Calls(n - 1);
      IterateSum(s, NO_FAULTS, domain, n - 1, 1);
      var t := Iterate(s, NO_FAULTS, domain, n - 1);
      assert Iterate(t, NO_FAULTS, domain, 1) == Iterate(Advance(t, NO_FAULTS, domain), NO_FAULTS, domain, 0);
    }
  }

  lemma EmptyTextInspects()
    ensures Corefile.Inspection("", map[]).Ok?
  {
    assert Caddyfile.Lex("") == [];
    assert Corefile.ImportLines([]) == {};
    assert Corefile.WithoutImports("") == "";
    CorefileTheorems.InspectionSucceeds("", map[]);
  }

  lemma EmptyClusterReconciles(domain: string) returns (store: Store)
    requires TrimSpace(domain) != ""
    ensures store == Store(map[], Some(map[COREFILE_KEY := ""]), None, 0)
    ensures WellFormed(store) && Reconcilable(store, domain) && Run(store, NO_FAULTS, domain) == Outcome(store, false, 0, 0)
  {
    hide Corefile.Inspection, Render.Rendering, WantedStatus;
    store := Store(map[], Some(map[COREFILE_KEY := ""]), None, 0);
    EmptyTextInspects();
    assert Servers(store.custom) == map[];
    assert SettledFor(store, PlanOf(store, domain).value, domain);
    SettledRunIsQuiet(store, domain);
  }

  /** Removing an empty Corefile key raises no event: a run of the system can come to rest
      with nothing scheduled although the next Reconcile would fail. This is the one way
      `QuiescentRunIsQuiet` ends in a failing run. */
  lemma EmptyCorefileRemovalUnnoticed(domain: string) returns (s: State, labels: seq<Label>)
    requires TrimSpace(domain) != ""
    ensures Initial(s) && AllowedRun(s, labels, domain)
    ensures var t := Exec(s, labels, domain);
            Quiescent(t) && t.store.coredns.Some? && !HasCorefile(t.store)
  {
    hide Run, Iterate, Reconcilable;
    var store := EmptyClusterReconciles(domain);
    s := State(store, true, Idle);
    var n := UninterruptedRun(s, NO_FAULTS, domain);
    CallsIterate(s, domain, n);
    var removal := Environment(CoreDNSChange(Some(map[])));
    labels := Calls(n) + [removal];
    assert labels[..|labels| - 1] == Calls(n) && labels[|labels| - 1] == removal;
  }
}
