/** The controller at work: a one-slot queue, runs of Reconcile split at every API call, and
    a cluster that anyone may edit between any two of those calls. */
module Protocol {
  import opened Wrappers
  import opened Cluster
  import opened Conditions
  import opened Plans
  import opened Events
  import opened RunTheorems
  import opened Reconciler
  import Disjointness

  /** How far the run in progress has come, and what it has read. */
  datatype Phase =
    | Idle
    | Started
    | Listed(items: seq<ZoneRoute>)
    | SawCorefile(items: seq<ZoneRoute>, text: string)
    | SawCustom(items: seq<ZoneRoute>, text: string, read: Option<ConfigMap>)
    | Writing(items: seq<ZoneRoute>, plan: Plan, state: PublishState, next: nat, failed: bool)

  /** `pending` is the single slot of the queue: the one request is waiting. */
  datatype State = State(store: Store, pending: bool, phase: Phase)

  /** The run ended with an error: the request goes back to the queue. */
  function Retry(s: State): State {
    s.(phase := Idle, pending := true)
  }

  /** Publishing against the ConfigMap as it is now; what was read decides whether to patch.
      The patch is merged by the API server, so it touches one key of the current data. */
  function PublishStep(s: State, plan: Plan, answer: Option<string>): State
    requires s.phase.SawCustom?
  {
    match DecidePublish(s.phase.read, plan.fragment)
    case Done(state) => s.(phase := Writing(s.phase.items, plan, state, 0, false))
    case MustPatch(f) =>
      match (answer, s.store.custom)
      case (None, Some(cm)) =>
        var custom := Some(Patched(cm, f));
        State(s.store.(custom := custom, version := s.store.version + 1),
              s.pending || CustomPasses(s.store.custom, custom),
              Writing(s.phase.items, plan, InPlace, 0, false))
      case (None, None) => s.(phase := Writing(s.phase.items, plan, WriteFailed(PATCH_ERROR + "not found"), 0, true))
      case (Some(e), _) => s.(phase := Writing(s.phase.items, plan, WriteFailed(PATCH_ERROR + e), 0, true))
  }

  function StatusStep(s: State, answer: Option<string>, domain: string): State
    requires s.phase.Writing? && s.phase.next < |s.phase.items|
  {
    var z := s.phase.items[s.phase.next];
    var w := WriteStatus(z, WantedStatus(z, s.phase.plan, s.phase.state, domain), answer.Some?,
                         Written(s.store.routes, s.store.version, 0, s.phase.failed));
    var passes := z.name in s.store.routes && z.name in w.routes && RoutePasses(Some(s.store.routes[z.name]), Some(w.routes[z.name]));
    State(s.store.(routes := w.routes, version := w.version),
          s.pending || passes,
          s.phase.(next := s.phase.next + 1, failed := w.failed))
  }

  /** One step of the controller; `answer` is the API's refusal of the call, if any. */
  ghost function ControllerStep(s: State, answer: Option<string>, domain: string): State {
    match s.phase
    case Idle => if s.pending then s.(phase := Started, pending := false) else s
    case Started => if answer.None? then s.(phase := Listed(Items(s.store.routes))) else Retry(s)
    case Listed(items) =>
      if answer.None? && HasCorefile(s.store) then s.(phase := SawCorefile(items, s.store.coredns.value[COREFILE_KEY]))
      else Retry(s)
    case SawCorefile(items, text) =>
      if answer.None? then s.(phase := SawCustom(items, text, s.store.custom)) else Retry(s)
    case SawCustom(items, text, read) => (
      match MakePlan(items, text, Servers(read), domain)
      case Err(_) => Retry(s)
      case Ok(plan) => PublishStep(s, plan, answer))
    case Writing(items, plan, state, next, failed) =>
      if next < |items| then StatusStep(s, answer, domain)
      else s.(phase := Idle, pending := s.pending || failed)
  }

  // ---- everyone else

  datatype Change =
    | RouteChange(name: string, route: Option<ZoneRoute>)
    | CoreDNSChange(data: Option<ConfigMap>)
    | CustomChange(data: Option<ConfigMap>)

  function Find(routes: map<string, ZoneRoute>, name: string): Option<ZoneRoute> {
    if name in routes then Some(routes[name]) else None
  }

  /** What the API server lets others do to a route: anything admitted, under its name, with
      a fresh version. A new route has no status; an update keeps creation time and status,
      and bumps the generation iff the spec changed. Only the controller writes status. */
  ghost predicate RouteAllowed(store: Store, name: string, route: Option<ZoneRoute>) {
    route.Some? ==>
      var z := route.value;
      && z.name == name && z.version == store.version + 1 && Disjointness.Admitted(z)
      && match Find(store.routes, name)
         case None => z.status == NO_STATUS
         case Some(b) =>
           && z.created == b.created && z.status == b.status
           && (z.generation == b.generation <==> z.zones == b.zones && z.upstreams == b.upstreams)
  }

  ghost predicate Allowed(store: Store, c: Change) {
    c.RouteChange? ==> RouteAllowed(store, c.name, c.route)
  }

  function PutRoute(routes: map<string, ZoneRoute>, name: string, route: Option<ZoneRoute>): map<string, ZoneRoute> {
    match route
    case None => routes - {name}
    case Some(z) => routes[name := z]
  }

  /** The change and its event, filtered by the predicates. */
  function Changed(s: State, c: Change): State {
    match c
    case RouteChange(name, route) =>
      s.(store := s.store.(routes := PutRoute(s.store.routes, name, route), version := s.store.version + 1),
         pending := s.pending || RoutePasses(Find(s.store.routes, name), route))
    case CoreDNSChange(data) =>
      s.(store := s.store.(coredns := data), pending := s.pending || CoreDNSPasses(s.store.coredns, data))
    case CustomChange(data) =>
      s.(store := s.store.(custom := data), pending := s.pending || CustomPasses(s.store.custom, data))
  }

  // ---- runs

  datatype Label = Environment(change: Change) | Controller(answer: Option<string>)

  ghost function Apply(s: State, l: Label, domain: string): State {
    match l
    case Environment(c) => Changed(s, c)
    case Controller(answer) => ControllerStep(s, answer, domain)
  }

  ghost function Exec(s: State, labels: seq<Label>, domain: string): State {
    if labels == [] then s else Apply(Exec(s, labels[..|labels| - 1], domain), labels[|labels| - 1], domain)
  }

  /** Every environment step of the run is one the API server allows at that point. */
  ghost predicate AllowedRun(s: State, labels: seq<Label>, domain: string) {
    labels != [] ==>
      var init, l := labels[..|labels| - 1], labels[|labels| - 1];
      && AllowedRun(s, init, domain)
      && (l.Environment? ==> Allowed(Exec(s, init, domain).store, l.change))
  }

  ghost predicate NothingExists(store: Store) {
    store.routes == map[] && store.coredns.None? && store.custom.None?
  }

  /** A controller process starts: whatever exists is announced, whatever status is there is
      from earlier. */
  ghost predicate Initial(s: State) {
    && s.phase.Idle?
    && WellFormed(s.store)
    && (forall n | n in s.store.routes :: Disjointness.Admitted(s.store.routes[n]))
    && (s.pending <==> !NothingExists(s.store))
  }

  predicate Quiescent(s: State) {
    s.phase.Idle? && !s.pending
  }
}
