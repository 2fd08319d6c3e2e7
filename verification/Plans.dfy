/** The computation inside internal/controller/reconciler.go: what one run decides from what
    it has read, apart from the API calls themselves. */
module Plans {
  import opened Wrappers
  import opened Sorting
  import opened Strings
  import opened Cluster
  import opened Conflict
  import opened Conditions
  import opened Convert
  import Corefile
  import MergePatch
  import Render

  /** The listed routes in the order of their names. */
  ghost function Items(routes: map<string, ZoneRoute>): (r: seq<ZoneRoute>)
    ensures |r| == |Corefile.SortedSeq(routes.Keys)|
  {
    var names := Corefile.SortedSeq(routes.Keys);
    seq(|names|, i requires 0 <= i < |names| => assert names[i] in names; routes[names[i]])
  }

  /** The zero value of a decision, what a lookup of an unknown name gives. */
  const NO_DECISION := Decision("", false, [], [], [])

  /** Looking a route up among the decisions. */
  function DecisionFor(ds: seq<Decision>, name: string): Decision {
    if ds == [] then NO_DECISION
    else if ds[|ds| - 1].name == name then ds[|ds| - 1]
    else DecisionFor(ds[..|ds| - 1], name)
  }

  function AcceptedNames(ds: seq<Decision>): set<string> {
    set d | d in ds && d.accepted :: d.name
  }

  datatype Plan = Plan(inspected: Corefile.Inspected, decisions: seq<Decision>, fragment: Result<string>)

  /** The whole recompute: inspect, resolve, render. */
  ghost function MakePlan(items: seq<ZoneRoute>, corefile: string, servers: ConfigMap, domain: string): Result<Plan> {
    var inspected :- Corefile.Inspection(corefile, servers);
    var decisions :- Resolution(ToConflictRoutes(items), ToExisting(inspected.listeners), domain);
    Ok(Plan(inspected, decisions, Render.Rendering(ToRenderRoutes(items, AcceptedNames(decisions)))))
  }

  function Servers(custom: Option<ConfigMap>): ConfigMap {
    custom.GetOr(map[])
  }

  // ---- publishing

  datatype Publishing = Done(state: PublishState) | MustPatch(fragment: string)

  /** No ConfigMap, an invalid fragment, the fragment in place already, or a patch. */
  function DecidePublish(custom: Option<ConfigMap>, fragment: Result<string>): Publishing {
    match custom
    case None => Done(ConfigMissing)
    case Some(cm) =>
      match fragment
      case Err(e) => Done(FragmentInvalid(e))
      case Ok(f) =>
        if Corefile.MANAGED_KEY in cm && cm[Corefile.MANAGED_KEY] == f then Done(InPlace) else MustPatch(f)
  }

  const PATCH_ERROR := "patching ConfigMap kube-system/coredns-custom: "

  /** The ConfigMap after the controller's patch: every other key is as it was. */
  function Patched(cm: ConfigMap, fragment: string): (r: ConfigMap)
    ensures r == cm["zoneroute.server" := fragment]
  {
    MergePatch.PatchedData(cm, Corefile.MANAGED_KEY, fragment)
  }

  datatype Published = Published(custom: Option<ConfigMap>, state: PublishState, patches: nat)

  /** Publishing into the ConfigMap that was read; `fault` is the API's answer if the patch
      is refused. */
  function PublishTo(custom: Option<ConfigMap>, fragment: Result<string>, fault: Option<string>): Published {
    match DecidePublish(custom, fragment)
    case Done(state) => Published(custom, state, 0)
    case MustPatch(f) =>
      match fault
      case Some(e) => Published(custom, WriteFailed(PATCH_ERROR + e), 0)
      case None => Published(Some(Patched(custom.value, f)), InPlace, 1)
  }

  // ---- status

  function WantedStatus(z: ZoneRoute, plan: Plan, state: PublishState, domain: string): Status {
    var d := DecisionFor(plan.decisions, z.name);
    Status(
      z.generation,
      Some(AcceptedCondition(d, plan.inspected.unresolved, domain, z.generation)),
      Some(PublishedCondition(d.accepted, state, plan.inspected.wired, z.generation)))
  }

  datatype Written = Written(routes: map<string, ZoneRoute>, version: nat, writes: nat, failed: bool)

  /** One status update: nothing if nothing changed; refused if the API says so, or the
      object is gone or has changed since it was read. */
  function WriteStatus(z: ZoneRoute, wanted: Status, denied: bool, w: Written): Written {
    if wanted == z.status then
      w
    else if denied || z.name !in w.routes || w.routes[z.name].version != z.version then
      w.(failed := true)
    else
      Written(w.routes[z.name := w.routes[z.name].(status := wanted, version := w.version + 1)],
              w.version + 1, w.writes + 1, w.failed)
  }

  function WriteStatuses(items: seq<ZoneRoute>, plan: Plan, state: PublishState, domain: string, denied: set<string>, w: Written): Written {
    if items == [] then
      w
    else
      var z := items[|items| - 1];
      WriteStatus(z, WantedStatus(z, plan, state, domain), z.name in denied,
                  WriteStatuses(items[..|items| - 1], plan, state, domain, denied, w))
  }

  // ---- a whole run

  /** Which API calls of a run fail. */
  datatype Faults = Faults(list: bool, corefile: bool, custom: bool, patch: Option<string>, status: set<string>)

  const NO_FAULTS := Faults(false, false, false, None, {})

  datatype Outcome = Outcome(store: Store, failed: bool, patches: nat, writes: nat)

  predicate HasCorefile(store: Store) {
    store.coredns.Some? && COREFILE_KEY in store.coredns.value
  }

  ghost function Effects(store: Store, plan: Plan, faults: Faults, domain: string): Outcome {
    var p := PublishTo(store.custom, plan.fragment, faults.patch);
    var w := WriteStatuses(Items(store.routes), plan, p.state, domain, faults.status,
                           Written(store.routes, store.version + p.patches, 0, false));
    Outcome(Store(w.routes, store.coredns, p.custom, w.version), p.state.WriteFailed? || w.failed, p.patches, w.writes)
  }

  /** One run of Reconcile with nothing else going on: fail closed on any failing or missing
      read, else publish and write every route's status. */
  ghost function Run(store: Store, faults: Faults, domain: string): Outcome {
    if faults.list || faults.corefile || !HasCorefile(store) || faults.custom then
      Outcome(store, true, 0, 0)
    else match MakePlan(Items(store.routes), store.coredns.value[COREFILE_KEY], Servers(store.custom), domain)
      case Err(_) => Outcome(store, true, 0, 0)
      case Ok(plan) => Effects(store, plan, faults, domain)
  }
}
