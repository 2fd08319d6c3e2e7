/** Safety of the published text over whole runs, and exactly when it holds. What a text opens
    is what CoreDNS would open on loading it, snippet imports included. At rest the published
    text collides with nothing, unless an accepted route has `import` for its least zone, so
    that nothing is published and whatever text was there stays, or unless some text opens a
    zone of an accepted route where the inspector does not look. */
module Safety {
  import opened Wrappers
  import opened Strings
  import opened DnsName
  import opened Cluster
  import opened Plans
  import opened PlanTheorems
  import opened Events
  import opened RunTheorems
  import opened Reconciler
  import opened Protocol
  import opened Convergence
  import opened Quiescence
  import opened Openings
  import Corefile
  import CorefileTheorems
  import ClusterDomain
  import Disjointness
  import LoneRoute
  import RenderTheorems
  import RoundTrip
  import Api

  // ---- what is claimed and what is taken

  /** Loading the managed key opens the listener. */
  ghost predicate Claims(store: Store, l: Corefile.Listener) {
    Managed(store).Some? && Opens(Managed(store).value, l)
  }

  /** Loading the Corefile or another server key opens the listener. */
  ghost predicate TextOpens(store: Store, l: Corefile.Listener) {
    || Opens(SeenCorefile(store), l)
    || (exists k :: k in Corefile.ReadKeys(Servers(store.custom)) && Opens(Servers(store.custom)[k], l))
  }

  /** So does the text of one of them with its import lines blanked. */
  ghost predicate TextDefines(store: Store, l: Corefile.Listener) {
    || CorefileTheorems.Defines(SeenCorefile(store), l)
    || (exists k :: k in Corefile.ReadKeys(Servers(store.custom)) && CorefileTheorems.Defines(Servers(store.custom)[k], l))
  }

  /** The listener is opened by another text, or is in the cluster domain. */
  ghost predicate Taken(store: Store, l: Corefile.Listener, domain: string) {
    TextOpens(store, l) || Inside(l.zone, Canonical(domain))
  }

  ghost predicate Safe(store: Store, domain: string) {
    forall l :: Claims(store, l) ==> !Taken(store, l, domain)
  }

  /** The inspector sees everything in the Corefile and the other server keys. */
  ghost predicate TextsClear(store: Store) {
    && Clear(SeenCorefile(store))
    && forall k | k in Corefile.ReadKeys(Servers(store.custom)) :: Clear(Servers(store.custom)[k])
  }

  ghost predicate AllAdmitted(store: Store) {
    forall n | n in store.routes :: Disjointness.Admitted(store.routes[n])
  }

  /** Some accepted route has `import` for its least zone. */
  ghost predicate ImportAccepted(store: Store, domain: string) {
    PlanSeen(store, domain).Ok? && Disjointness.ImportAccepted(Items(store.routes), PlanSeen(store, domain).value)
  }

  /** The listener of a zone of an accepted route. */
  ghost predicate Accepted(store: Store, l: Corefile.Listener, domain: string) {
    PlanSeen(store, domain).Ok? && Disjointness.AcceptedZone(Items(store.routes), PlanSeen(store, domain).value, l)
  }

  /** Some text opens a zone of an accepted route. */
  ghost predicate AcceptedOpened(store: Store, domain: string) {
    exists l :: Accepted(store, l, domain) && TextOpens(store, l)
  }

  // ---- at rest without an accepted `import`

  /** The plan of a store of admitted routes renders exactly without such a route. */
  lemma StoreRenders(store: Store, domain: string)
    requires WellFormed(store) && AllAdmitted(store) && PlanSeen(store, domain).Ok?
    ensures PlanSeen(store, domain).value.fragment.Ok? <==> !ImportAccepted(store, domain)
  {
    hide MakePlan, Disjointness.Admitted, Disjointness.ImportAccepted;
    ItemsElements(store.routes);
    ItemsCurrent(store.routes);
    Disjointness.FragmentRenders(Items(store.routes), SeenCorefile(store), Servers(store.custom), domain, PlanSeen(store, domain).value);
  }

  lemma StorePlan(store: Store, domain: string)
    requires WellFormed(store) && AllAdmitted(store) && PlanSeen(store, domain).Ok?
    ensures IsPlan(Items(store.routes), SeenCorefile(store), Servers(store.custom), domain, PlanSeen(store, domain).value)
    ensures forall z | z in Items(store.routes) :: Disjointness.Admitted(z)
  {
    hide MakePlan, Disjointness.Admitted;
    ItemsElements(store.routes);
    ItemsCurrent(store.routes);
  }

  /** A settled store claims exactly the zones of the accepted routes. */
  lemma SettledClaims(t: Store, domain: string, l: Corefile.Listener)
    requires WellFormed(t) && AllAdmitted(t) && Settled(t, domain) && !ImportAccepted(t, domain)
    ensures Claims(t, l) <==> t.custom.Some? && Accepted(t, l, domain)
  {
    hide MakePlan, Opens, CorefileTheorems.Defines, Items, Disjointness.Admitted, ImportAccepted, Disjointness.AcceptedZone, IsPlan;
    StoreRenders(t, domain);
    StorePlan(t, domain);
    Disjointness.FragmentOpens(Items(t.routes), SeenCorefile(t), Servers(t.custom), domain, PlanSeen(t, domain).value, l);
  }

  /** What is accepted is outside the cluster domain, and in no text the inspector sees. */
  lemma AcceptedUnseen(t: Store, domain: string, l: Corefile.Listener)
    requires WellFormed(t) && AllAdmitted(t) && Accepted(t, l, domain)
    ensures l.transport == "dns" && l.port == 53 && !Inside(l.zone, Canonical(domain))
    ensures !TextDefines(t, l) && (TextsClear(t) ==> !TextOpens(t, l))
  {
    hide MakePlan, Opens, Clear, CorefileTheorems.Defines, Items, Disjointness.Admitted, Disjointness.AcceptedZone, IsPlan;
    StorePlan(t, domain);
    Disjointness.AcceptedZonesUnseen(Items(t.routes), SeenCorefile(t), Servers(t.custom), domain, PlanSeen(t, domain).value, l);
  }

  /** In every reachable quiescent state without an accepted route whose least zone is
      `import`, the managed key holds the fragment of the current objects. Whatever listener
      it opens is a zone on the DNS port, lies outside the cluster domain, and is found by the
      inspector nowhere else; where the inspector sees everything, nothing else opens it. */
  lemma QuiescentNeverCollides(s: State, labels: seq<Label>, domain: string, l: Corefile.Listener)
    requires Initial(s) && AllowedRun(s, labels, domain)
    requires Quiescent(Exec(s, labels, domain))
    requires !ImportAccepted(Exec(s, labels, domain).store, domain)
    ensures var t := Exec(s, labels, domain).store;
            && (t.custom.Some? ==>
                  && PlanSeen(t, domain).Ok? && PlanSeen(t, domain).value.fragment.Ok?
                  && Managed(t) == Some(PlanSeen(t, domain).value.fragment.value))
            && (Claims(t, l) ==>
                  && Accepted(t, l, domain) && l.transport == "dns" && l.port == 53 && !Inside(l.zone, Canonical(domain))
                  && !TextDefines(t, l) && (TextsClear(t) ==> !Taken(t, l, domain)))
  {
    hide Exec, AllowedRun, Initial, MakePlan, TextOpens, TextDefines, TextsClear, Claims, Accepted, ImportAccepted, Disjointness.Admitted;
    var t := Exec(s, labels, domain).store;
    InitialInvariant(s, domain);
    RunKeepsInvariant(s, labels, domain);
    if t.custom.Some? {
      StoreRenders(t, domain);
      SettledClaims(t, domain, l);
      if Claims(t, l) {
        AcceptedUnseen(t, domain, l);
      }
    } else {
      NothingClaimed(t, l);
    }
  }

  lemma NothingClaimed(t: Store, l: Corefile.Listener)
    requires t.custom.None?
    ensures !Claims(t, l)
  {
  }

  // ---- coming to rest on given inputs

  /** The store with some text under the managed key and a Corefile key that reads as before. */
  function WithText(store: Store, text: string): Store
    requires store.coredns.Some? && store.custom.Some?
  {
    store.(coredns := Some(store.coredns.value[COREFILE_KEY := SeenCorefile(store)]),
           custom := Some(Patched(store.custom.value, text)))
  }

  lemma WithTextInputs(store: Store, text: string, domain: string)
    requires store.coredns.Some? && store.custom.Some? && PlanSeen(store, domain).Ok?
    ensures ReadEntries(Servers(WithText(store, text).custom)) == ReadEntries(Servers(store.custom))
    ensures Reconcilable(WithText(store, text), domain)
    ensures PlanOf(WithText(store, text), domain) == PlanSeen(store, domain)
  {
    hide MakePlan, Items;
    var w := WithText(store, text);
    assert ReadEntries(Servers(w.custom)) == ReadEntries(Servers(store.custom));
    PlanReads(Items(store.routes), Items(store.routes), SeenCorefile(store), Servers(w.custom), Servers(store.custom), domain);
  }

  /** Whatever the managed key held before, the system can come to rest on the inputs of the
      store: with the fragment published if it renders, and that text still there if not. */
  lemma RestReached(store: Store, domain: string, text: string) returns (s: State, labels: seq<Label>)
    requires WellFormed(store) && AllAdmitted(store)
    requires store.coredns.Some? && store.custom.Some? && PlanSeen(store, domain).Ok?
    ensures Initial(s) && AllowedRun(s, labels, domain) && Quiescent(Exec(s, labels, domain))
    ensures SameInputs(store, Exec(s, labels, domain).store)
    ensures var fragment := PlanSeen(store, domain).value.fragment;
            Managed(Exec(s, labels, domain).store) == Some(if fragment.Ok? then fragment.value else text)
  {
    hide Run, Iterate, Reconcilable, PlanSeen, PlanOf, ReadEntries, Disjointness.Admitted;
    var start := WithText(store, text);
    WithTextInputs(store, text, domain);
    s := State(start, true, Idle);
    var m, n := TwoRunsAtMost(s, domain);
    var once := Run(start, NO_FAULTS, domain);
    var steps := if once.patches > 0 then m + n else m;
    CleanRunSettles(start, domain);
    RunOnlyOwnWrites(start, NO_FAULTS, domain);
    OwnWritesKeepInputs(start, once.store);
    if PlanOf(start, domain).value.fragment.Err? {
      UnrenderedKeepsCustom(start, NO_FAULTS, domain);
    }
    CallsIterate(s, domain, steps);
    var back := Environment(CoreDNSChange(store.coredns));
    labels := Calls(steps) + [back];
    assert labels[..|labels| - 1] == Calls(steps) && labels[|labels| - 1] == back;
  }

  /** With an accepted route whose least zone is `import`, any text whatever can stay. */
  lemma StaleTextStays(store: Store, domain: string, text: string) returns (s: State, labels: seq<Label>)
    requires WellFormed(store) && AllAdmitted(store)
    requires store.coredns.Some? && store.custom.Some? && ImportAccepted(store, domain)
    ensures Initial(s) && AllowedRun(s, labels, domain) && Quiescent(Exec(s, labels, domain))
    ensures SameInputs(store, Exec(s, labels, domain).store)
    ensures Managed(Exec(s, labels, domain).store) == Some(text)
  {
    hide Exec, AllowedRun, Initial, SameInputs, PlanSeen, ImportAccepted, Disjointness.Admitted;
    ImportFragment(store, domain);
    s, labels := RestReached(store, domain, text);
  }

  lemma ImportFragment(store: Store, domain: string)
    requires WellFormed(store) && AllAdmitted(store) && ImportAccepted(store, domain)
    ensures PlanSeen(store, domain).Ok? && PlanSeen(store, domain).value.fragment.Err?
  {
    hide MakePlan, Disjointness.ImportAccepted, Disjointness.Admitted;
    StoreRenders(store, domain);
  }

  // ---- exactly when

  /** The system can come to rest with this store. */
  ghost predicate CanRest(t: Store, domain: string) {
    exists s, labels :: Initial(s) && AllowedRun(s, labels, domain) && Exec(s, labels, domain) == State(t, false, Idle)
  }

  lemma SameInputsSeen(a: Store, b: Store, domain: string)
    requires SameInputs(a, b)
    ensures PlanSeen(a, domain) == PlanSeen(b, domain)
    ensures ImportAccepted(a, domain) ==> ImportAccepted(b, domain)
    ensures forall l :: Accepted(a, l, domain) ==> Accepted(b, l, domain)
  {
    hide MakePlan, Items, ReadEntries, DecisionFor, RoundTrip.LeastIsImport, Core;
    ItemsSameCores(a.routes, b.routes);
    PlanReads(Items(a.routes), Items(b.routes), SeenCorefile(a), Servers(a.custom), Servers(b.custom), domain);
    if PlanSeen(a, domain).Ok? {
      SameZones(Items(a.routes), Items(b.routes), PlanSeen(a, domain).value);
    }
  }

  lemma SameZones(a: seq<ZoneRoute>, b: seq<ZoneRoute>, plan: Plan)
    requires SameCores(a, b)
    ensures Disjointness.ImportAccepted(a, plan) ==> Disjointness.ImportAccepted(b, plan)
    ensures forall l :: Disjointness.AcceptedZone(a, plan, l) ==> Disjointness.AcceptedZone(b, plan, l)
  {
    hide DecisionFor, RoundTrip.LeastIsImport, RoundTrip.ZoneListener, Core;
    forall z | z in a ensures exists y :: y in b && y.name == z.name && y.zones == z.zones {
      var i :| 0 <= i < |a| && a[i] == z;
      SameCoreFields(a[i], b[i]);
      assert b[i] in b;
    }
  }

  lemma SameInputsTexts(a: Store, b: Store)
    requires SameInputs(a, b)
    ensures forall l :: TextOpens(a, l) <==> TextOpens(b, l)
    ensures TextsClear(a) <==> TextsClear(b)
  {
    hide Opens, Clear;
    var x, y := Servers(a.custom), Servers(b.custom);
    assert ReadEntries(x).Keys == Corefile.ReadKeys(x) && ReadEntries(y).Keys == Corefile.ReadKeys(y);
    assert forall k | k in Corefile.ReadKeys(x) :: x[k] == ReadEntries(x)[k] == ReadEntries(y)[k] == y[k];
  }

  /** The cluster domain's name is made of plain characters. */
  lemma DomainInert(raw: string)
    requires ClusterDomain.Gate(raw).Ok?
    ensures var text := "a." + Canonical(TrimSpace(raw));
            RenderTheorems.Inert(text) && text != "import" && ':' !in text
  {
    var d := Canonical(TrimSpace(raw));
    var body := TrimSuffix(d, ".");
    RoundTrip.DottedBack(TrimSpace(raw));
    ClusterDomain.SubdomainChars(body);
    hide TrimSuffix, Canonical, TrimSpace, ClusterDomain.IsSubdomain, RenderTheorems.Inert;
    var text := "a." + d;
    assert text == "a." + body + ".";
    forall c | c in text ensures RenderTheorems.InertChar(c) && c != ':' {
      assert c in "a." || c in body || c in ".";
    }
    assert text[1] == '.';
    RenderTheorems.InertChars(text);
  }

  /** A name below the cluster domain, as a text of its own. */
  lemma DomainText(raw: string) returns (text: string, l: Corefile.Listener)
    requires ClusterDomain.Gate(raw).Ok?
    ensures Opens(text, l) && Inside(l.zone, Canonical(ClusterDomain.Gate(raw).value))
  {
    hide Canonical, TrimSpace, Opens, Inside, RenderTheorems.Inert, ClusterDomain.IsSubdomain;
    text := "a." + Canonical(TrimSpace(raw));
    DomainInert(raw);
    WordOpens(text);
    l := RoundTrip.ZoneListener(text);
    BelowDomain(TrimSpace(raw));
    CanonicalIdempotent(TrimSpace(raw));
  }

  lemma BelowDomain(name: string)
    ensures Canonical("a." + Canonical(name)) == "a." + Canonical(name)
    ensures Inside("a." + Canonical(name), Canonical(name))
  {
    var d := Canonical(name);
    var body := ToLower(TrimSuffix(name, "."));
    var k := "a." + d;
    assert k == ("a." + body) + ".";
    assert k[|k| - 1..] == ".";
    assert TrimSuffix(k, ".") == "a." + body;
    assert ToLower("a." + body) == "a." + body;
    assert k[1..] == "." + d;
  }

  lemma WordOpens(k: string)
    requires RenderTheorems.Inert(k) && k != "import" && ':' !in k
    ensures forall l :: Opens(k, l) <==> l == RoundTrip.ZoneListener(k)
  {
    hide Opens, Clear, CorefileTheorems.Defines;
    RoundTrip.WordDefines(k);
    RoundTrip.OneWordScanned(k);
    NoImportIsClear(k);
    ClearIsSeen(k);
  }

  /** For given inputs with both ConfigMaps there: every state the system can rest in with
      these inputs is safe, if and only if no accepted route has `import` for its least zone
      and no text opens a zone of an accepted route. */
  lemma SafeExactlyIf(store: Store, raw: string)
    requires ClusterDomain.Gate(raw).Ok?
    requires WellFormed(store) && AllAdmitted(store) && store.coredns.Some? && store.custom.Some?
    ensures var domain := ClusterDomain.Gate(raw).value;
            (forall t :: CanRest(t, domain) && SameInputs(store, t) ==> Safe(t, domain))
            <==> !ImportAccepted(store, domain) && !AcceptedOpened(store, domain)
  {
    hide CanRest, SameInputs, ImportAccepted, AcceptedOpened, Safe, Disjointness.Admitted, ClusterDomain.Gate;
    var domain := ClusterDomain.Gate(raw).value;
    if ImportAccepted(store, domain) {
      var t := UnsafeByImport(store, raw);
    } else if AcceptedOpened(store, domain) {
      var t := UnsafeByText(store, domain);
    } else {
      forall t | CanRest(t, domain) && SameInputs(store, t) ensures Safe(t, domain) {
        RestIsSafe(store, t, domain);
      }
    }
  }

  lemma UnsafeByImport(store: Store, raw: string) returns (t: Store)
    requires ClusterDomain.Gate(raw).Ok?
    requires WellFormed(store) && AllAdmitted(store) && store.coredns.Some? && store.custom.Some?
    requires ImportAccepted(store, ClusterDomain.Gate(raw).value)
    ensures var domain := ClusterDomain.Gate(raw).value;
            CanRest(t, domain) && SameInputs(store, t) && !Safe(t, domain)
  {
    hide Exec, AllowedRun, Initial, SameInputs, ImportAccepted, Opens, Disjointness.Admitted, ClusterDomain.Gate;
    var domain := ClusterDomain.Gate(raw).value;
    var text, l := DomainText(raw);
    var s, labels := StaleTextStays(store, domain, text);
    t := Exec(s, labels, domain).store;
    assert Exec(s, labels, domain) == State(t, false, Idle);
    assert Claims(t, l) && Taken(t, l, domain);
  }

  /** The run that publishes a zone which another text opens. */
  lemma UnsafeByText(store: Store, domain: string) returns (t: Store)
    requires WellFormed(store) && AllAdmitted(store) && store.coredns.Some? && store.custom.Some?
    requires !ImportAccepted(store, domain) && AcceptedOpened(store, domain)
    ensures CanRest(t, domain) && SameInputs(store, t) && !Safe(t, domain)
  {
    hide Exec, AllowedRun, Initial, SameInputs, ImportAccepted, TextOpens, Accepted, Opens, Disjointness.Admitted;
    var l :| Accepted(store, l, domain) && TextOpens(store, l);
    AcceptedHasPlan(store, domain, l);
    StoreRenders(store, domain);
    var s, labels := RestReached(store, domain, "");
    t := Exec(s, labels, domain).store;
    assert Exec(s, labels, domain) == State(t, false, Idle);
    FragmentClaims(store, domain, l);
    SameInputsTexts(store, t);
    assert Claims(t, l) && Taken(t, l, domain);
  }

  lemma AcceptedHasPlan(store: Store, domain: string, l: Corefile.Listener)
    requires Accepted(store, l, domain)
    ensures PlanSeen(store, domain).Ok?
  {
  }

  lemma FragmentClaims(store: Store, domain: string, l: Corefile.Listener)
    requires WellFormed(store) && AllAdmitted(store) && Accepted(store, l, domain)
    requires PlanSeen(store, domain).value.fragment.Ok?
    ensures Opens(PlanSeen(store, domain).value.fragment.value, l)
  {
    hide MakePlan, Opens, CorefileTheorems.Defines, Items, Disjointness.Admitted, Disjointness.AcceptedZone, IsPlan;
    StorePlan(store, domain);
    Disjointness.FragmentOpens(Items(store.routes), SeenCorefile(store), Servers(store.custom), domain, PlanSeen(store, domain).value, l);
  }

  lemma RestIsSafe(store: Store, t: Store, domain: string)
    requires CanRest(t, domain) && SameInputs(store, t)
    requires !ImportAccepted(store, domain) && !AcceptedOpened(store, domain)
    ensures Safe(t, domain)
  {
    hide Exec, AllowedRun, Initial, SameInputs, ImportAccepted, Accepted, TextOpens, TextDefines, TextsClear, Claims;
    var s, labels :| Initial(s) && AllowedRun(s, labels, domain) && Exec(s, labels, domain) == State(t, false, Idle);
    SameInputsBack(store, t);
    SameInputsSeen(t, store, domain);
    SameInputsTexts(store, t);
    forall l | Claims(t, l) ensures !Taken(t, l, domain) {
      QuiescentNeverCollides(s, labels, domain, l);
    }
  }

  lemma SameInputsBack(a: Store, b: Store)
    requires SameInputs(a, b)
    ensures SameInputs(b, a)
  {
    hide ReadEntries;
    SameInputsSymmetric(a, b);
  }

  /** Where the inspector sees everything in the texts, safety hangs on that one zone alone. */
  lemma SafeIffNoImport(store: Store, raw: string)
    requires ClusterDomain.Gate(raw).Ok?
    requires WellFormed(store) && AllAdmitted(store) && store.coredns.Some? && store.custom.Some?
    requires TextsClear(store)
    ensures var domain := ClusterDomain.Gate(raw).value;
            (forall t :: CanRest(t, domain) && SameInputs(store, t) ==> Safe(t, domain)) <==> !ImportAccepted(store, domain)
  {
    hide CanRest, SameInputs, ImportAccepted, Accepted, TextOpens, TextDefines, TextsClear, Safe, Disjointness.Admitted, ClusterDomain.Gate;
    var domain := ClusterDomain.Gate(raw).value;
    SafeExactlyIf(store, raw);
    forall l | Accepted(store, l, domain) ensures !TextOpens(store, l) {
      AcceptedUnseen(store, domain, l);
    }
  }

  // ---- which texts are safe for all routes

  /** The texts open some zone a route could have, and the inspector finds it in none. */
  ghost predicate TextsMiss(store: Store, domain: string) {
    exists zone :: Missed(store, zone, domain)
  }

  ghost predicate Missed(store: Store, zone: string, domain: string) {
    && Api.ValidZone(zone) && !Inside(Canonical(zone), Canonical(domain))
    && TextOpens(store, RoundTrip.ZoneListener(zone)) && !TextDefines(store, RoundTrip.ZoneListener(zone))
  }

  /** The same two ConfigMaps with any routes the API server admits. */
  ghost predicate SameTexts(store: Store, other: Store) {
    WellFormed(other) && AllAdmitted(other) && other.coredns == store.coredns && other.custom == store.custom
  }

  /** Given texts open no zone of an accepted route, whatever the routes, if and only if the
      inspector misses no zone in them. */
  lemma TextsDecide(store: Store, domain: string)
    requires Corefile.Inspection(SeenCorefile(store), Servers(store.custom)).Ok? && TrimSpace(domain) != ""
    ensures (forall other :: SameTexts(store, other) ==> !AcceptedOpened(other, domain)) <==> !TextsMiss(store, domain)
  {
    hide Missed, Accepted, TextOpens, Disjointness.Admitted, Corefile.Inspection, TrimSpace;
    if TextsMiss(store, domain) {
      var zone :| Missed(store, zone, domain);
      MissedIsAccepted(store, zone, domain);
      var other := LoneRoute.ClusterFor(zone, store.coredns, store.custom);
      assert SameTexts(store, other) && AcceptedOpened(other, domain);
    } else {
      forall other | SameTexts(store, other) ensures !AcceptedOpened(other, domain) {
        if l :| Accepted(other, l, domain) && TextOpens(other, l) {
          AcceptedIsMissed(store, other, l, domain);
        }
      }
    }
  }

  lemma MissedIsAccepted(store: Store, zone: string, domain: string)
    requires Corefile.Inspection(SeenCorefile(store), Servers(store.custom)).Ok? && TrimSpace(domain) != ""
    requires Missed(store, zone, domain)
    ensures var other, l := LoneRoute.ClusterFor(zone, store.coredns, store.custom), RoundTrip.ZoneListener(zone);
            && WellFormed(other) && AllAdmitted(other)
            && Accepted(other, l, domain) && TextOpens(other, l)
  {
    hide Api.ValidZone, Corefile.Inspection, TrimSpace, Canonical, Inside, CorefileTheorems.Defines, Opens, MakePlan, DecisionFor, Disjointness.Admitted;
    var other := LoneRoute.ClusterFor(zone, store.coredns, store.custom);
    LoneRoute.RouteForAdmitted(zone);
    LoneRoute.OneItem(LoneRoute.RouteFor(zone));
    var plan := LoneRoute.LoneZoneAccepted(zone, SeenCorefile(store), Servers(store.custom), domain);
    assert PlanSeen(other, domain) == Ok(plan);
    assert LoneRoute.RouteFor(zone) in Items(other.routes) && zone in LoneRoute.RouteFor(zone).zones;
  }

  lemma AcceptedIsMissed(store: Store, other: Store, l: Corefile.Listener, domain: string)
    requires SameTexts(store, other) && Accepted(other, l, domain) && TextOpens(other, l)
    ensures TextsMiss(store, domain)
  {
    hide MakePlan, Opens, CorefileTheorems.Defines, Items, DecisionFor, Api.ValidZone;
    AcceptedUnseen(other, domain, l);
    StorePlan(other, domain);
    var plan := PlanSeen(other, domain).value;
    var z, zone :| z in Items(other.routes) && DecisionFor(plan.decisions, z.name).accepted && zone in z.zones && l == RoundTrip.ZoneListener(zone);
    assert Disjointness.Admitted(z);
    assert Missed(store, zone, domain);
  }

  /** After any runs with faults, a run without any leaves the managed key as a run from no
      history would, exactly if no such route is accepted or the key was not there. */
  lemma HistoryShowsOnlyWithImport(store: Store, faults: seq<Faults>, domain: string)
    requires WellFormed(store) && AllAdmitted(store) && Reconcilable(store, domain)
    ensures var x, y := Run(RunAll(store, faults, domain), NO_FAULTS, domain).store, Run(Fresh(store), NO_FAULTS, domain).store;
            Managed(x) == Managed(y) <==> !ImportAccepted(store, domain) || Managed(store).None?
  {
    hide Run, RunAll, MakePlan, ImportAccepted, Disjointness.Admitted;
    FaultsAreForgotten(store, faults, domain);
    StoreRenders(store, domain);
  }
}
