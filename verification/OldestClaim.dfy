/** What the resolver decides, in terms of the routes and listeners it is given: creation
    times, names, zones, transports and ports. */
module OldestClaim {
  import opened Wrappers
  import opened Sorting
  import opened Strings
  import opened DnsName
  import opened Conflict
  import opened ConflictTheorems

  // ---- the input

  ghost predicate HasZone(r: Route, zone: string) {
    exists x :: x in r.zones && Canonical(x) == zone
  }

  /** `r` has been there longer than `q`, the name deciding between equal times. */
  ghost predicate Older(r: Route, q: Route) {
    r.created < q.created || (r.created == q.created && Less(r.name, q.name))
  }

  ghost predicate InDomain(zone: string, domain: string) {
    zone == domain || HasSuffix(zone, "." + domain)
  }

  /** Some listener for plain DNS on port 53 has the zone; `source` is where. */
  ghost predicate ServedFrom(existing: seq<Existing>, zone: string, source: string) {
    exists e :: e in existing && e.transport == "dns" && e.port == 53 && Canonical(e.zone) == zone && e.source == source
  }

  ghost predicate IsServed(existing: seq<Existing>, zone: string) {
    exists e :: e in existing && e.transport == "dns" && e.port == 53 && Canonical(e.zone) == zone
  }

  /** An accepted route that is older and has the zone as well. */
  ghost predicate HeldBy(routes: seq<Route>, ds: seq<Decision>, w: Route, r: Route, zone: string) {
    w in routes && IsAccepted(ds, w.name) && Older(w, r) && HasZone(w, zone) && HasZone(r, zone)
  }

  ghost predicate IsAccepted(ds: seq<Decision>, name: string) {
    exists e :: e in ds && e.name == name && e.accepted
  }

  // ---- the parts of a decision

  lemma {:induction false} ReservedSpec(zones: seq<string>, domain: string)
    ensures forall z :: z in ReservedZones(zones, domain) <==> z in zones && InDomain(z, domain)
  {
    if zones != [] {
      assert zones == zones[..|zones| - 1] + [zones[|zones| - 1]];
      ReservedSpec(zones[..|zones| - 1], domain);
    }
  }

  lemma {:induction false} OwnedSpec(zones: seq<string>, served: map<string, OwnedByCoreDNS>)
    ensures forall o :: o in OwnedZones(zones, served) <==> exists z :: z in zones && z in served && o == served[z]
  {
    if zones != [] {
      assert zones == zones[..|zones| - 1] + [zones[|zones| - 1]];
      OwnedSpec(zones[..|zones| - 1], served);
    }
  }

  /** Reserved zones first, then served ones; only a route with neither can conflict. */
  ghost predicate PartsAre(d: Decision, r: Route, existing: seq<Existing>, domain: string) {
    && (forall z :: z in d.reserved <==> HasZone(r, z) && InDomain(z, domain))
    && (forall o :: o in d.owned ==> d.reserved == [] && HasZone(r, o.zone) && o.port == 53 && ServedFrom(existing, o.zone, o.source))
    && (forall z | HasZone(r, z) && IsServed(existing, z) && d.reserved == [] :: exists o :: o in d.owned && o.zone == z)
    && (forall o, s | o in d.owned && ServedFrom(existing, o.zone, s) :: !Less(s, o.source))
    && (d.conflicts != [] ==> d.reserved == [] && d.owned == [])
    && (d.accepted <==> d.reserved == [] && d.owned == [] && d.conflicts == [])
  }

  lemma ServedMeans(existing: seq<Existing>, zone: string)
    ensures zone in Served(existing) <==> IsServed(existing, zone)
    ensures zone in Served(existing) ==>
              var o := Served(existing)[zone];
              o.zone == zone && o.port == 53 && ServedFrom(existing, zone, o.source)
              && forall s | ServedFrom(existing, zone, s) :: !Less(s, o.source)
  {
    hide Served, Canonical, Less;
    ServedSpec(existing, zone);
    forall e | e in existing ensures Serves(e, zone) <==> e.transport == "dns" && e.port == 53 && Canonical(e.zone) == zone {
    }
    if zone in Served(existing) {
      forall s | ServedFrom(existing, zone, s) ensures !Less(s, Served(existing)[zone].source) {
        var e :| e in existing && e.transport == "dns" && e.port == 53 && Canonical(e.zone) == zone && e.source == s;
      }
    }
  }

  lemma CorrectParts(d: Decision, r: Route, rivals: set<Candidate>, existing: seq<Existing>, domain: string)
    requires Correct(d, r, rivals, Served(existing), domain)
    ensures PartsAre(d, r, existing, domain)
  {
    hide Served, Canonical, Less, InDomain, HasZone, ServedFrom, IsServed, ReservedZones, OwnedZones, CanonicalZones, Share, ConflictsAre;
    var zones, served := CanonicalZones(r.zones), Served(existing);
    RouteZones(r);
    ReservedSpec(zones, domain);
    OwnedSpec(zones, served);
    forall z ensures z in served <==> IsServed(existing, z) {
      ServedMeans(existing, z);
    }
    forall z | z in served
      ensures served[z].zone == z && served[z].port == 53 && ServedFrom(existing, z, served[z].source)
      ensures forall s | ServedFrom(existing, z, s) :: !Less(s, served[z].source)
    {
      ServedMeans(existing, z);
    }
    OneState(d, r, rivals, served, domain);
  }

  lemma RouteZones(r: Route)
    ensures forall z :: z in CanonicalZones(r.zones) <==> HasZone(r, z)
  {
    CanonicalZonesSpec(r.zones);
  }

  /** A correct decision accepts iff it holds nothing against the route. */
  lemma OneState(d: Decision, r: Route, rivals: set<Candidate>, served: map<string, OwnedByCoreDNS>, domain: string)
    requires Correct(d, r, rivals, served, domain)
    ensures d.accepted <==> d.reserved == [] && d.owned == [] && d.conflicts == []
  {
    hide ReservedZones, OwnedZones, CanonicalZones;
    var zones, c := CanonicalZones(r.zones), CandidateOf(r);
    if ReservedZones(zones, domain) == [] && OwnedZones(zones, served) == [] {
      if d.conflicts == [] {
        forall w | w in rivals ensures !Share(w, c) {
          assert forall z | z in w.zones :: z !in zones;
        }
      } else {
        var x := d.conflicts[0];
        assert x in d.conflicts;
        var w :| w in rivals && x.zone in w.zones && w.name == x.winner;
        assert Share(w, c);
      }
    }
  }

  // ---- conflicts

  /** An accepted candidate is one of the rivals of every younger route. */
  lemma HolderIsRival(routes: seq<Route>, existing: seq<Existing>, domain: string, w: Route, r: Route)
    requires UniqueNames(routes) && w in routes && r in routes
    requires IsAccepted(Decisions(routes, existing, domain), w.name) && Older(w, r)
    ensures CandidateOf(w) in Rivals(CandidateOf(r), Field(routes, Served(existing), domain))
  {
    hide Decisions, Served, ReservedZones, OwnedZones, Wins, ConflictsAre;
    var ds, served := Decisions(routes, existing, domain), Served(existing);
    var e :| e in ds && e.name == w.name && e.accepted;
    DecisionAbout(w, routes, existing, domain, e);
    assert Screen(w, served, domain).Admitted?;
    RejectedLoses(routes, w, existing, domain, e);
  }

  /** What is reported is exactly what accepted older routes hold, under their names. */
  lemma ConflictsExactly(routes: seq<Route>, existing: seq<Existing>, domain: string, r: Route, d: Decision)
    requires UniqueNames(routes) && r in routes
    requires d in Decisions(routes, existing, domain) && d.name == r.name && d.reserved == [] && d.owned == []
    ensures forall x :: x in d.conflicts <==>
              exists w :: HeldBy(routes, Decisions(routes, existing, domain), w, r, x.zone) && w.name == x.winner
  {
    hide Decisions, HeldBy;
    var ds := Decisions(routes, existing, domain);
    forall x | x in d.conflicts ensures exists w :: HeldBy(routes, ds, w, r, x.zone) && w.name == x.winner {
      var w := ConflictHeld(routes, existing, domain, r, d, x);
    }
    forall x: ZoneConflict, w | HeldBy(routes, ds, w, r, x.zone) && w.name == x.winner ensures x in d.conflicts {
      HeldReported(routes, existing, domain, r, d, x, w);
    }
  }

  lemma ConflictHeld(routes: seq<Route>, existing: seq<Existing>, domain: string, r: Route, d: Decision, x: ZoneConflict) returns (w: Route)
    requires UniqueNames(routes) && r in routes
    requires d in Decisions(routes, existing, domain) && d.name == r.name && x in d.conflicts
    ensures HeldBy(routes, Decisions(routes, existing, domain), w, r, x.zone) && w.name == x.winner
  {
    hide Decisions, CanonicalZones, HasZone;
    var e;
    w, e := RejectionNamesWinner(routes, existing, domain, r, d, x);
    RouteZones(w);
    RouteZones(r);
  }

  lemma HeldReported(routes: seq<Route>, existing: seq<Existing>, domain: string, r: Route, d: Decision, x: ZoneConflict, w: Route)
    requires UniqueNames(routes) && r in routes
    requires d in Decisions(routes, existing, domain) && d.name == r.name && d.reserved == [] && d.owned == []
    requires HeldBy(routes, Decisions(routes, existing, domain), w, r, x.zone) && w.name == x.winner
    ensures x in d.conflicts
  {
    hide Decisions, Served, CanonicalZones, HasZone, Wins, Older, IsAccepted;
    var field := Field(routes, Served(existing), domain);
    var c, cw := CandidateOf(r), CandidateOf(w);
    DecisionAbout(r, routes, existing, domain, d);
    HolderIsRival(routes, existing, domain, w, r);
    RouteZones(w);
    RouteZones(r);
    ReportedConflicts(d, r, Rivals(c, field), Served(existing), domain);
    var y :| y in d.conflicts && y.zone == x.zone;
    var v :| v in Rivals(c, field) && y.zone in v.zones && v.name == y.winner;
    FieldDistinct(routes, Served(existing), domain);
    RivalsDisjoint(c, field);
    assert Share(v, cw);
    assert v == cw && y == x;
  }

  lemma ReportedConflicts(d: Decision, r: Route, rivals: set<Candidate>, served: map<string, OwnedByCoreDNS>, domain: string)
    requires Correct(d, r, rivals, served, domain) && d.reserved == [] && d.owned == []
    ensures ConflictsAre(d.conflicts, CanonicalZones(r.zones), rivals)
  {
    hide CanonicalZones, ConflictsAre;
  }

  // ---- the whole decision

  /** The decision about a route. Its zones in the cluster domain are reserved; failing that,
      its zones that some dns/53 listener has are served, each reported with the least source;
      failing that, it conflicts with exactly the accepted routes that are older and have a
      zone in common with it. It is accepted if there is nothing of these. */
  lemma DecisionExactly(routes: seq<Route>, existing: seq<Existing>, clusterDomain: string, r: Route, d: Decision)
    requires UniqueNames(routes) && r in routes
    requires var ds := Resolution(routes, existing, clusterDomain); ds.Ok? && d in ds.value && d.name == r.name
    ensures PartsAre(d, r, existing, Canonical(clusterDomain))
    ensures d.reserved == [] && d.owned == [] ==>
              forall x :: x in d.conflicts <==>
                exists w :: HeldBy(routes, Resolution(routes, existing, clusterDomain).value, w, r, x.zone) && w.name == x.winner
  {
    hide Decisions, Served, Correct, Canonical, HeldBy, PartsAre;
    var domain := Canonical(clusterDomain);
    DecisionAbout(r, routes, existing, domain, d);
    CorrectParts(d, r, Rivals(CandidateOf(r), Field(routes, Served(existing), domain)), existing, domain);
    if d.reserved == [] && d.owned == [] {
      ConflictsExactly(routes, existing, domain, r, d);
    }
  }

  /** Every decision is about one of the routes and comes in the order of the names. */
  lemma DecisionsInOrder(routes: seq<Route>, existing: seq<Existing>, clusterDomain: string)
    requires UniqueNames(routes) && Resolution(routes, existing, clusterDomain).Ok?
    ensures var ds := Resolution(routes, existing, clusterDomain).value;
            && (forall i, j | 0 <= i < j < |ds| :: Less(ds[i].name, ds[j].name))
            && (forall d | d in ds :: exists r :: r in routes && r.name == d.name)
            && (forall r | r in routes :: exists d :: d in ds && d.name == r.name)
  {
    hide Decisions, Correct, Less;
    var ds := Resolution(routes, existing, clusterDomain).value;
    DecisionsCorrect(routes, existing, Canonical(clusterDomain));
    forall d | d in ds ensures exists r :: r in routes && r.name == d.name {
      assert d.name in DecisionNames(ds);
    }
    forall r | r in routes ensures exists d :: d in ds && d.name == r.name {
      assert r.name in RouteNames(routes);
    }
  }

  // ---- two routes with a zone in common

  /** Nothing but the other route speaks against `r`. */
  ghost predicate Unhindered(r: Route, existing: seq<Existing>, domain: string) {
    forall z | HasZone(r, z) :: !InDomain(z, domain) && !IsServed(existing, z)
  }

  /** Of two unhindered routes with a zone in common the older is accepted, and the other is
      rejected with conflicts that all name the older. */
  lemma OldestOfTwo(elder: Route, young: Route, existing: seq<Existing>, clusterDomain: string, zone: string, d: Decision, e: Decision)
    requires elder.name != young.name
    requires elder.created < young.created || (elder.created == young.created && Less(elder.name, young.name))
    requires HasZone(elder, zone) && HasZone(young, zone)
    requires Unhindered(elder, existing, Canonical(clusterDomain)) && Unhindered(young, existing, Canonical(clusterDomain))
    requires var ds := Resolution([elder, young], existing, clusterDomain);
             ds.Ok? && d in ds.value && d.name == elder.name && e in ds.value && e.name == young.name
    ensures d.accepted && !e.accepted
    ensures ZoneConflict(zone, elder.name) in e.conflicts && forall x | x in e.conflicts :: x.winner == elder.name
  {
    hide Resolution, Canonical, HasZone, InDomain, IsServed, ServedFrom;
    var routes := [elder, young];
    var ds := Resolution(routes, existing, clusterDomain).value;
    DecisionExactly(routes, existing, clusterDomain, elder, d);
    DecisionExactly(routes, existing, clusterDomain, young, e);
    NothingHeld(d, elder, existing, Canonical(clusterDomain));
    NothingHeld(e, young, existing, Canonical(clusterDomain));
    LessTotal(elder.name, young.name);
    LessTotal(elder.name, elder.name);
    LessTotal(young.name, young.name);
    forall w, z ensures !HeldBy(routes, ds, w, elder, z) {
    }
    HasElement(d.conflicts);
    assert HeldBy(routes, ds, elder, young, zone);
    assert ZoneConflict(zone, elder.name).zone == zone && ZoneConflict(zone, elder.name).winner == elder.name;
  }

  lemma NothingHeld(d: Decision, r: Route, existing: seq<Existing>, domain: string)
    requires PartsAre(d, r, existing, domain) && Unhindered(r, existing, domain)
    ensures d.reserved == [] && d.owned == []
  {
    HasElement(d.reserved);
    HasElement(d.owned);
  }
}
