/** Safety of every single patch, at rest or not: whatever a run patches collides with nothing
    in the texts that this run has read. */
module PatchSafety {
  import opened Wrappers
  import opened DnsName
  import opened Cluster
  import opened Plans
  import opened PlanTheorems
  import opened RunTheorems
  import opened Events
  import opened Reconciler
  import opened Protocol
  import opened Convergence
  import opened Openings
  import opened Reasons
  import Corefile
  import CorefileTheorems
  import Disjointness
  import EventTheorems

  /** What a run has listed are admitted routes with distinct names, however old they are. */
  ghost predicate ListedSound(items: seq<ZoneRoute>) {
    DistinctItems(items) && forall z | z in items :: Disjointness.Admitted(z)
  }

  ghost predicate PhaseSound(phase: Phase) {
    match phase
    case Listed(items) => ListedSound(items)
    case SawCorefile(items, _) => ListedSound(items)
    case SawCustom(items, _, _) => ListedSound(items)
    case _ => true
  }

  lemma ListingIsSound(s: State, domain: string)
    requires Invariant(s, domain)
    ensures ListedSound(Items(s.store.routes))
  {
    hide PhaseHolds, Disjointness.Admitted;
    ItemsElements(s.store.routes);
    ItemsCurrent(s.store.routes);
  }

  lemma StepKeepsSound(s: State, answer: Option<string>, domain: string)
    requires Invariant(s, domain) && PhaseSound(s.phase)
    ensures PhaseSound(ControllerStep(s, answer, domain).phase)
  {
    hide MakePlan, Items, Invariant, ListedSound, CustomPasses, WantedStatus;
    ListingIsSound(s, domain);
  }

  lemma {:induction false} RunKeepsSound(s: State, labels: seq<Label>, domain: string)
    requires Initial(s) && AllowedRun(s, labels, domain)
    ensures Invariant(Exec(s, labels, domain), domain) && PhaseSound(Exec(s, labels, domain).phase)
    decreases |labels|
  {
    hide Invariant, ControllerStep, ListedSound;
    InitialInvariant(s, domain);
    RunKeepsInvariant(s, labels, domain);
    if labels != [] {
      var init, l := labels[..|labels| - 1], labels[|labels| - 1];
      RunKeepsSound(s, init, domain);
      var before := Exec(s, init, domain);
      match l {
        case Environment(c) =>
        case Controller(answer) => StepKeepsSound(before, answer, domain);
      }
    }
  }

  /** In every reachable state, with whatever edits since: the text a run is about to patch
      opens only zones outside the cluster domain on the DNS port, none that the inspector
      finds in the Corefile or the server keys this run has read, and none that they open if
      the inspector sees everything in them. */
  lemma PatchNeverCollides(s: State, labels: seq<Label>, domain: string, l: Corefile.Listener)
    requires Initial(s) && AllowedRun(s, labels, domain)
    requires var t := Exec(s, labels, domain);
             && t.phase.SawCustom?
             && MakePlan(t.phase.items, t.phase.text, Servers(t.phase.read), domain).Ok?
             && var fragment := MakePlan(t.phase.items, t.phase.text, Servers(t.phase.read), domain).value.fragment;
                && DecidePublish(t.phase.read, fragment).MustPatch?
                && Opens(DecidePublish(t.phase.read, fragment).fragment, l)
    ensures var text, servers := Exec(s, labels, domain).phase.text, Servers(Exec(s, labels, domain).phase.read);
            && !CorefileTheorems.Defines(text, l) && (Clear(text) ==> !Opens(text, l))
            && (forall k | k in Corefile.ReadKeys(servers) :: !CorefileTheorems.Defines(servers[k], l) && (Clear(servers[k]) ==> !Opens(servers[k], l)))
            && l.transport == "dns" && l.port == 53 && !Inside(l.zone, Canonical(domain))
  {
    hide Exec, AllowedRun, Initial, Invariant, MakePlan, Opens, Clear, CorefileTheorems.Defines, Disjointness.Admitted;
    RunKeepsSound(s, labels, domain);
    var t := Exec(s, labels, domain);
    var servers := Servers(t.phase.read);
    Disjointness.FragmentNeverCollides(t.phase.items, t.phase.text, servers, domain,
                                       MakePlan(t.phase.items, t.phase.text, servers, domain).value, l);
  }

  /** What a run makes of publishing, whatever has happened since it read the ConfigMap: the
      ConfigMap was missing, the fragment invalid, or the fragment there already; or it is
      patched into the ConfigMap as it is now, which fails if the API refuses or the ConfigMap
      is gone, and then the run is to be repeated. */
  lemma PublishStepExactly(s: State, answer: Option<string>, domain: string, plan: Plan)
    requires s.phase.SawCustom? && MakePlan(s.phase.items, s.phase.text, Servers(s.phase.read), domain) == Ok(plan)
    ensures var t, read, fragment := ControllerStep(s, answer, domain), s.phase.read, plan.fragment;
            var there := read.Some? && fragment.Ok? && Holds(read, fragment.value);
            var patch := read.Some? && fragment.Ok? && !there;
            var refused := answer.Some? || s.store.custom.None?;
            && t.phase.Writing? && t.phase.items == s.phase.items && t.phase.plan == plan && t.phase.next == 0
            && (t.phase.state.ConfigMissing? <==> read.None?)
            && (t.phase.state.FragmentInvalid? <==> read.Some? && fragment.Err?)
            && (t.phase.state.WriteFailed? <==> patch && refused)
            && (t.phase.state.InPlace? <==> there || (patch && !refused))
            && (t.phase.failed <==> patch && refused)
            && (t.store == if patch && !refused
                           then s.store.(custom := Some(s.store.custom.value["zoneroute.server" := fragment.value]), version := s.store.version + 1)
                           else s.store)
            && (t.pending <==> s.pending || (patch && !refused && !Holds(s.store.custom, fragment.value)))
  {
    hide MakePlan, CustomPasses;
    if s.store.custom.Some? && plan.fragment.Ok? {
      EventTheorems.OwnPatchPasses(s.store.custom.value, plan.fragment.value);
    }
  }
}
