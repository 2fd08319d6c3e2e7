/** What conflict resolution means. `Wins` says, of a set of candidates, which are accepted;
    it is the only fixed point of "none of my zones belongs to an earlier accepted
    candidate". `Correct` describes the decision about one route without mentioning any
    processing order, and the resolver's list is the only list of correct decisions. */
module ConflictTheorems {
  import opened Wrappers
  import opened Sorting
  import opened Strings
  import opened DnsName
  import opened Conflict

  ghost predicate Share(a: Candidate, b: Candidate) {
    exists z :: z in a.zones && z in b.zones
  }

  lemma BeforeIsOrder()
    ensures StrictWeakOrder(Before)
  {
    LessIsOrder();
  }

  ghost function Earlier(c: Candidate, field: set<Candidate>): set<Candidate> {
    set d | d in field && Before(d, c)
  }

  lemma EarlierShrinks(d: Candidate, c: Candidate, field: set<Candidate>)
    requires d in field && Before(d, c)
    ensures Earlier(d, field) < Earlier(c, field)
  {
    BeforeIsOrder();
    assert d in Earlier(c, field) && d !in Earlier(d, field);
  }

  /** A candidate wins unless it shares a zone with an earlier winner. */
  ghost predicate Wins(c: Candidate, field: set<Candidate>)
    decreases Earlier(c, field)
  {
    forall d | d in field && Before(d, c) && Share(d, c) ::
      EarlierShrinks(d, c, field);
      !Wins(d, field)
  }

  ghost function Winners(field: set<Candidate>): set<Candidate> {
    set c | c in field && Wins(c, field)
  }

  /** The winners a candidate has to stand aside for. */
  ghost function Rivals(c: Candidate, field: set<Candidate>): set<Candidate> {
    set w | w in field && Before(w, c) && Wins(w, field)
  }

  ghost predicate FixedPoint(s: set<Candidate>, field: set<Candidate>) {
    && s <= field
    && forall c | c in field :: c in s <==> !exists d :: d in s && Before(d, c) && Share(d, c)
  }

  lemma WinnersAreFixedPoint(field: set<Candidate>)
    ensures FixedPoint(Winners(field), field)
  {
    var s := Winners(field);
    forall c | c in field
      ensures c in s <==> !exists d :: d in s && Before(d, c) && Share(d, c)
    {
    }
  }

  lemma {:induction false} FixedPointDecides(s: set<Candidate>, field: set<Candidate>, c: Candidate)
    requires FixedPoint(s, field) && c in field
    ensures c in s <==> Wins(c, field)
    decreases Earlier(c, field)
  {
    forall d | d in field && Before(d, c) && Share(d, c)
      ensures d in s <==> Wins(d, field)
    {
      EarlierShrinks(d, c, field);
      FixedPointDecides(s, field, d);
    }
  }

  /** There is exactly one fixed point. */
  lemma FixedPointUnique(s: set<Candidate>, field: set<Candidate>)
    requires FixedPoint(s, field)
    ensures s == Winners(field)
  {
    forall c | c in field ensures c in s <==> c in Winners(field) {
      FixedPointDecides(s, field, c);
    }
  }

  ghost predicate DistinctNames(field: set<Candidate>) {
    forall a, b | a in field && b in field && a.name == b.name :: a == b
  }

  /** No two winners share a zone, and no rejected candidate could be added: each shares a
      zone with an earlier winner. */
  lemma WinnersDisjointAndMaximal(field: set<Candidate>)
    requires DistinctNames(field)
    ensures forall a, b | a in Winners(field) && b in Winners(field) && Share(a, b) :: a == b
    ensures forall c | c in field && c !in Winners(field) ::
              exists w :: w in Winners(field) && Before(w, c) && Share(w, c)
  {
    forall a, b | a in Winners(field) && b in Winners(field) && Share(a, b) ensures a == b {
      LessTotal(a.name, b.name);
      assert Share(b, a);
      assert a.name == b.name || Before(a, b) || Before(b, a);
    }
  }

  /** Only the earlier candidates matter. */
  lemma {:induction false} WinsDependsOnEarlier(c: Candidate, f1: set<Candidate>, f2: set<Candidate>)
    requires Earlier(c, f1) == Earlier(c, f2)
    ensures Wins(c, f1) == Wins(c, f2)
    ensures Rivals(c, f1) == Rivals(c, f2)
    decreases Earlier(c, f1)
  {
    forall d | d in Earlier(c, f1) ensures Wins(d, f1) == Wins(d, f2) {
      EarlierShrinks(d, c, f1);
      BeforeIsOrder();
      forall e | Before(e, d) ensures e in f1 <==> e in f2 {
        assert Before(e, c);
        assert e in Earlier(c, f1) <==> e in Earlier(c, f2);
      }
      assert Earlier(d, f1) == Earlier(d, f2);
      WinsDependsOnEarlier(d, f1, f2);
    }
    forall w ensures w in Rivals(c, f1) <==> w in Rivals(c, f2) {
      assert w in f1 && Before(w, c) <==> w in Earlier(c, f1);
      assert w in f2 && Before(w, c) <==> w in Earlier(c, f2);
    }
    WinsFromRivals(c, f1);
    WinsFromRivals(c, f2);
  }

  lemma WinsFromRivals(c: Candidate, field: set<Candidate>)
    ensures Wins(c, field) <==> forall w | w in Rivals(c, field) :: !Share(w, c)
  {
    if Wins(c, field) {
      forall w | w in Rivals(c, field) ensures !Share(w, c) {
        assert w in field && Before(w, c) && Wins(w, field);
      }
    }
    if forall w | w in Rivals(c, field) :: !Share(w, c) {
      forall d | d in field && Before(d, c) && Share(d, c) ensures !Wins(d, field) {
        assert d !in Rivals(c, field);
      }
    }
  }

  /** Removing a candidate that does not win changes nothing for anyone else. */
  lemma {:induction false} WinsIgnoresLosers(c: Candidate, x: Candidate, field: set<Candidate>)
    requires !Wins(x, field)
    ensures Wins(c, field) == Wins(c, field - {x})
    ensures Rivals(c, field) == Rivals(c, field - {x})
    decreases Earlier(c, field)
  {
    hide Wins, Before;
    forall d | d in field && Before(d, c) ensures Wins(d, field) == Wins(d, field - {x}) {
      EarlierShrinks(d, c, field);
      WinsIgnoresLosers(d, x, field);
    }
    WinsFromRivals(c, field);
    WinsFromRivals(c, field - {x});
  }

  // ---- the greedy pass computes the winners

  ghost function Elements<T>(s: seq<T>): set<T> {
    set x | x in s
  }

  /** The owner map after the first `i` candidates: exactly the zones of the winners
      among them, each under its winner's name. */
  ghost predicate OwnersAre(owner: map<string, string>, rivals: set<Candidate>) {
    && (forall z :: z in owner ==> exists w :: w in rivals && z in w.zones && owner[z] == w.name)
    && (forall w, z | w in rivals && z in w.zones :: z in owner && owner[z] == w.name)
  }

  lemma {:induction false} TakenZonesSpec(zones: seq<string>, owner: map<string, string>)
    ensures forall x :: x in TakenZones(zones, owner) <==> x.zone in zones && x.zone in owner && x.winner == owner[x.zone]
  {
    if zones == [] {
    } else {
      assert zones == zones[..|zones| - 1] + [zones[|zones| - 1]];
      TakenZonesSpec(zones[..|zones| - 1], owner);
    }
  }

  predicate ByZone(a: ZoneConflict, b: ZoneConflict) {
    Less(a.zone, b.zone)
  }

  lemma {:induction false} TakenZonesSorted(zones: seq<string>, owner: map<string, string>)
    requires StrictlySorted(zones, Less)
    ensures StrictlySorted(TakenZones(zones, owner), ByZone)
  {
    if zones == [] {
    } else {
      var init, z := zones[..|zones| - 1], zones[|zones| - 1];
      TakenZonesSorted(init, owner);
      TakenZonesSpec(init, owner);
      var t := TakenZones(init, owner);
      forall i | 0 <= i < |t| ensures Less(t[i].zone, z) {
        assert t[i] in t;
        var k :| 0 <= k < |init| && init[k] == t[i].zone;
        assert zones[k] == init[k];
      }
    }
  }

  lemma NoneTaken(c: Candidate, owner: map<string, string>, rivals: set<Candidate>)
    requires OwnersAre(owner, rivals)
    ensures TakenZones(c.zones, owner) == [] <==> forall w | w in rivals :: !Share(w, c)
  {
    var t := TakenZones(c.zones, owner);
    TakenZonesSpec(c.zones, owner);
    if t == [] {
      forall w | w in rivals ensures !Share(w, c) {
        forall z | z in w.zones ensures z !in c.zones {
          assert z in owner;
          assert ZoneConflict(z, owner[z]) !in t;
        }
      }
    } else {
      assert t[0] in t;
      var w :| w in rivals && t[0].zone in w.zones && owner[t[0].zone] == w.name;
      assert Share(w, c);
    }
  }

  lemma PrefixIsEarlier(cs: seq<Candidate>, i: nat)
    requires StrictlySorted(cs, Before) && i < |cs|
    ensures Earlier(cs[i], Elements(cs)) == Elements(cs[..i])
  {
    BeforeIsOrder();
    forall d ensures d in Earlier(cs[i], Elements(cs)) <==> d in Elements(cs[..i]) {
      if d in Earlier(cs[i], Elements(cs)) {
        var k :| 0 <= k < |cs| && cs[k] == d;
        assert k < i;
        assert cs[..i][k] == d;
      }
      if d in cs[..i] {
        var k :| 0 <= k < i && cs[..i][k] == d;
        assert cs[k] == d;
      }
    }
  }

  lemma RivalsByPosition(cs: seq<Candidate>, i: nat)
    requires StrictlySorted(cs, Before) && i < |cs|
    ensures forall w :: w in Rivals(cs[i], Elements(cs)) <==> w in cs[..i] && Wins(w, Elements(cs))
  {
    PrefixIsEarlier(cs, i);
    forall w ensures w in Rivals(cs[i], Elements(cs)) <==> w in cs[..i] && Wins(w, Elements(cs)) {
      assert w in Elements(cs) && Before(w, cs[i]) <==> w in Earlier(cs[i], Elements(cs));
    }
  }

  ghost function WinnersIn(cs: seq<Candidate>, field: set<Candidate>): set<Candidate> {
    set w | w in cs && Wins(w, field)
  }

  /** The greedy pass over the sorted candidates: the owners after `i` steps are the
      winners among the first `i`. */
  lemma {:induction false} GreedyOwners(cs: seq<Candidate>, i: nat)
    requires StrictlySorted(cs, Before) && i <= |cs|
    ensures OwnersAre(Owners(cs[..i]), WinnersIn(cs[..i], Elements(cs)))
  {
    var field := Elements(cs);
    if i == 0 {
    } else {
      GreedyOwners(cs, i - 1);
      var c, before := cs[i - 1], cs[..i - 1];
      assert cs[..i] == before + [c];
      var owner := Owners(before);
      assert cs[..i][..i - 1] == before;
      var earlier := WinnersIn(before, field);
      RivalsByPosition(cs, i - 1);
      assert Rivals(c, field) == earlier;
      WinsFromRivals(c, field);
      NoneTaken(c, owner, earlier);
      var all := WinnersIn(cs[..i], field);
      if Wins(c, field) {
        assert all == earlier + {c};
        OwnersExtend(owner, earlier, c);
      } else {
        assert all == earlier;
      }
    }
  }

  lemma OwnersExtend(owner: map<string, string>, rivals: set<Candidate>, c: Candidate)
    requires OwnersAre(owner, rivals)
    requires forall w | w in rivals :: !Share(w, c)
    ensures OwnersAre(Claim(owner, c.zones, c.name), rivals + {c})
  {
    var r := Claim(owner, c.zones, c.name);
    forall z | z in r ensures exists w :: w in rivals + {c} && z in w.zones && r[z] == w.name {
      if z in c.zones {
        assert c in rivals + {c};
      } else {
        var w :| w in rivals && z in w.zones && owner[z] == w.name;
        assert w in rivals + {c};
      }
    }
    forall w, z | w in rivals + {c} && z in w.zones ensures z in r && r[z] == w.name {
      if w in rivals {
        assert !Share(w, c);
      }
    }
  }

  // ---- what a correct decision is

  ghost function CandidateOf(r: Route): Candidate {
    Candidate(r.name, r.created, CanonicalZones(r.zones))
  }

  /** The candidates among the routes: those with no reserved and no served zone. */
  ghost function Field(routes: seq<Route>, served: map<string, OwnedByCoreDNS>, domain: string): set<Candidate> {
    set r | r in routes && Screen(r, served, domain).Admitted? :: CandidateOf(r)
  }

  ghost predicate UniqueNames(routes: seq<Route>) {
    forall i, j | 0 <= i < j < |routes| :: routes[i].name != routes[j].name
  }

  /** The conflicts reported: exactly the zones some rival owns, each once, in order, each
      under the name of a rival that owns it. */
  ghost predicate ConflictsAre(conflicts: seq<ZoneConflict>, zones: seq<string>, rivals: set<Candidate>) {
    && StrictlySorted(conflicts, ByZone)
    && (forall x | x in conflicts :: x.zone in zones && exists w :: w in rivals && x.zone in w.zones && w.name == x.winner)
    && (forall w, z | w in rivals && z in w.zones && z in zones :: exists x :: x in conflicts && x.zone == z)
  }

  /** The decision about `r` when `rivals` are the earlier winners: reserved zones first,
      then zones CoreDNS serves, then conflicts, else accepted. */
  ghost predicate Correct(d: Decision, r: Route, rivals: set<Candidate>, served: map<string, OwnedByCoreDNS>, domain: string) {
    var zones := CanonicalZones(r.zones);
    if ReservedZones(zones, domain) != [] then
      d == RejectReserved(r.name, ReservedZones(zones, domain))
    else if OwnedZones(zones, served) != [] then
      d == RejectOwned(r.name, OwnedZones(zones, served))
    else
      && d == Decision(r.name, d.accepted, [], [], d.conflicts)
      && (d.accepted <==> forall w | w in rivals :: !Share(w, CandidateOf(r)))
      && ConflictsAre(d.conflicts, zones, rivals)
  }

  ghost function RouteNames(routes: seq<Route>): set<string> {
    set r | r in routes :: r.name
  }

  ghost function DecisionNames(ds: seq<Decision>): set<string> {
    set d | d in ds :: d.name
  }

  /** One correct decision for each route, sorted by name. */
  ghost predicate IsResolution(ds: seq<Decision>, routes: seq<Route>, served: map<string, OwnedByCoreDNS>, domain: string) {
    var field := Field(routes, served, domain);
    && StrictlySorted(ds, ByName)
    && DecisionNames(ds) == RouteNames(routes)
    && (forall d, r | d in ds && r in routes && d.name == r.name ::
          Correct(d, r, Rivals(CandidateOf(r), field), served, domain))
  }

  // ---- the resolver's list is a list of correct decisions

  lemma {:induction false} CanonicalOnceSpec(zones: seq<string>)
    ensures forall c :: c in CanonicalOnce(zones) <==> exists z :: z in zones && Canonical(z) == c
    ensures forall i, j | 0 <= i < j < |CanonicalOnce(zones)| :: CanonicalOnce(zones)[i] != CanonicalOnce(zones)[j]
  {
    if zones != [] {
      CanonicalOnceSpec(zones[..|zones| - 1]);
      assert zones == zones[..|zones| - 1] + [zones[|zones| - 1]];
    }
  }

  lemma CanonicalZonesSpec(zones: seq<string>)
    ensures StrictlySorted(CanonicalZones(zones), Less)
    ensures forall c :: c in CanonicalZones(zones) <==> exists z :: z in zones && Canonical(z) == c
  {
    var once := CanonicalOnce(zones);
    CanonicalOnceSpec(zones);
    LessIsOrder();
    forall i, j | 0 <= i < j < |once| ensures Less(once[i], once[j]) || Less(once[j], once[i]) {
      LessTotal(once[i], once[j]);
    }
    SortStrict(once, Less);
    SortElements(once, Less);
  }

  lemma {:induction false} CandidatesSpec(routes: seq<Route>, served: map<string, OwnedByCoreDNS>, domain: string)
    ensures forall c :: c in Candidates(routes, served, domain) <==> c in Field(routes, served, domain)
  {
    if routes == [] {
    } else {
      var init, r := routes[..|routes| - 1], routes[|routes| - 1];
      assert routes == init + [r];
      CandidatesSpec(init, served, domain);
      var s := Screen(r, served, domain);
      assert s.Admitted? ==> s.candidate == CandidateOf(r);
      forall c ensures c in Field(routes, served, domain) <==> c in Field(init, served, domain) || (s.Admitted? && c == s.candidate) {
        if c in Field(routes, served, domain) {
          var q :| q in routes && Screen(q, served, domain).Admitted? && CandidateOf(q) == c;
          assert q in init || q == r;
        }
      }
    }
  }

  lemma {:induction false} RejectionHasRoute(routes: seq<Route>, served: map<string, OwnedByCoreDNS>, domain: string, d: Decision)
    returns (r: Route)
    requires d in Rejections(routes, served, domain)
    ensures r in routes && Screen(r, served, domain) == Rejected(d)
  {
    var init := routes[..|routes| - 1];
    if d in Rejections(init, served, domain) {
      r := RejectionHasRoute(init, served, domain, d);
    } else {
      r := routes[|routes| - 1];
    }
  }

  lemma {:induction false} RouteHasRejection(routes: seq<Route>, served: map<string, OwnedByCoreDNS>, domain: string, r: Route)
    requires r in routes && Screen(r, served, domain).Rejected?
    ensures Screen(r, served, domain).decision in Rejections(routes, served, domain)
  {
    var init := routes[..|routes| - 1];
    if r != routes[|routes| - 1] {
      assert routes == init + [routes[|routes| - 1]];
      RouteHasRejection(init, served, domain, r);
    }
  }

  lemma NamesOfInit(routes: seq<Route>)
    requires routes != [] && UniqueNames(routes)
    ensures var init := routes[..|routes| - 1];
            UniqueNames(init) && routes[|routes| - 1].name !in RouteNames(init)
            && RouteNames(init) <= RouteNames(routes) && routes[|routes| - 1].name in RouteNames(routes)
  {
    var init := routes[..|routes| - 1];
    forall r | r in init ensures r.name != routes[|routes| - 1].name && r in routes {
      var k :| 0 <= k < |init| && init[k] == r;
      assert routes[k] == r;
    }
    assert routes[|routes| - 1] in routes;
  }

  lemma {:induction false} OutcomeNames(routes: seq<Route>, served: map<string, OwnedByCoreDNS>, domain: string)
    requires UniqueNames(routes)
    ensures forall d | d in Rejections(routes, served, domain) :: d.name in RouteNames(routes)
    ensures forall c | c in Candidates(routes, served, domain) :: c.name in RouteNames(routes)
  {
    if routes != [] {
      NamesOfInit(routes);
      OutcomeNames(routes[..|routes| - 1], served, domain);
    }
  }

  ghost predicate DistinctOutcomes(rs: seq<Decision>, cs: seq<Candidate>) {
    && (forall i, j | 0 <= i < j < |rs| :: rs[i].name != rs[j].name)
    && (forall i, j | 0 <= i < j < |cs| :: cs[i].name != cs[j].name)
    && (forall i, j | 0 <= i < |rs| && 0 <= j < |cs| :: rs[i].name != cs[j].name)
  }

  /** With unique route names, the two kinds of outcome carry each name once. */
  lemma {:induction false} OutcomesDistinct(routes: seq<Route>, served: map<string, OwnedByCoreDNS>, domain: string)
    requires UniqueNames(routes)
    ensures DistinctOutcomes(Rejections(routes, served, domain), Candidates(routes, served, domain))
  {
    if routes != [] {
      var init, r := routes[..|routes| - 1], routes[|routes| - 1];
      NamesOfInit(routes);
      OutcomesDistinct(init, served, domain);
      OutcomeNames(init, served, domain);
      var rs, cs := Rejections(init, served, domain), Candidates(init, served, domain);
      assert forall i | 0 <= i < |rs| :: rs[i] in rs;
      assert forall i | 0 <= i < |cs| :: cs[i] in cs;
      match Screen(r, served, domain) {
        case Rejected(d) => AddRejection(rs, cs, d);
        case Admitted(c) => AddCandidate(rs, cs, c);
      }
    }
  }

  lemma AddRejection(rs: seq<Decision>, cs: seq<Candidate>, d: Decision)
    requires DistinctOutcomes(rs, cs)
    requires forall i | 0 <= i < |rs| :: rs[i].name != d.name
    requires forall i | 0 <= i < |cs| :: cs[i].name != d.name
    ensures DistinctOutcomes(rs + [d], cs + [])
  {
    assert cs + [] == cs;
  }

  lemma AddCandidate(rs: seq<Decision>, cs: seq<Candidate>, c: Candidate)
    requires DistinctOutcomes(rs, cs)
    requires forall i | 0 <= i < |rs| :: rs[i].name != c.name
    requires forall i | 0 <= i < |cs| :: cs[i].name != c.name
    ensures DistinctOutcomes(rs + [], cs + [c])
  {
    assert rs + [] == rs;
  }

  lemma {:induction false} VerdictAt(cs: seq<Candidate>, i: nat)
    requires i < |cs|
    ensures Verdicts(cs)[i] == Verdict(cs[i], Owners(cs[..i]))
  {
    if i == |cs| - 1 {
    } else {
      var init := cs[..|cs| - 1];
      VerdictAt(init, i);
      assert init[..i] == cs[..i] && init[i] == cs[i];
    }
  }

  lemma TakenZonesAreConflicts(zones: seq<string>, owner: map<string, string>, rivals: set<Candidate>)
    requires OwnersAre(owner, rivals)
    requires StrictlySorted(zones, Less)
    ensures ConflictsAre(TakenZones(zones, owner), zones, rivals)
  {
    var t := TakenZones(zones, owner);
    TakenZonesSorted(zones, owner);
    TakenZonesSpec(zones, owner);
    forall w, z | w in rivals && z in w.zones && z in zones ensures exists x :: x in t && x.zone == z {
      assert ZoneConflict(z, owner[z]) in t;
    }
  }

  lemma VerdictCorrect(r: Route, owner: map<string, string>, rivals: set<Candidate>, served: map<string, OwnedByCoreDNS>, domain: string)
    requires OwnersAre(owner, rivals)
    requires Screen(r, served, domain).Admitted?
    ensures Correct(Verdict(CandidateOf(r), owner), r, rivals, served, domain)
  {
    var c := CandidateOf(r);
    CanonicalZonesSpec(r.zones);
    TakenZonesAreConflicts(c.zones, owner, rivals);
    NoneTaken(c, owner, rivals);
  }

  lemma SortedCandidates(routes: seq<Route>, served: map<string, OwnedByCoreDNS>, domain: string) returns (cs: seq<Candidate>)
    requires UniqueNames(routes)
    ensures cs == Sort(Candidates(routes, served, domain), Before)
    ensures StrictlySorted(cs, Before)
    ensures Elements(cs) == Field(routes, served, domain)
  {
    var unsorted := Candidates(routes, served, domain);
    cs := Sort(unsorted, Before);
    OutcomesDistinct(routes, served, domain);
    BeforeIsOrder();
    forall i, j | 0 <= i < j < |unsorted| ensures Before(unsorted[i], unsorted[j]) || Before(unsorted[j], unsorted[i]) {
      LessTotal(unsorted[i].name, unsorted[j].name);
    }
    SortStrict(unsorted, Before);
    SortElements(unsorted, Before);
    CandidatesSpec(routes, served, domain);
  }

  /** The greedy pass decides the candidate of `r` correctly. */
  lemma CandidateDecided(routes: seq<Route>, served: map<string, OwnedByCoreDNS>, domain: string, cs: seq<Candidate>, i: nat, r: Route)
    requires StrictlySorted(cs, Before) && Elements(cs) == Field(routes, served, domain)
    requires i < |cs| && Screen(r, served, domain).Admitted? && cs[i] == CandidateOf(r)
    ensures Correct(Verdicts(cs)[i], r, Rivals(CandidateOf(r), Field(routes, served, domain)), served, domain)
  {
    var field := Elements(cs);
    VerdictAt(cs, i);
    GreedyOwners(cs, i);
    RivalsByPosition(cs, i);
    assert Rivals(cs[i], field) == WinnersIn(cs[..i], field);
    VerdictCorrect(r, Owners(cs[..i]), Rivals(cs[i], field), served, domain);
  }

  lemma AllOutcomesSorted(rs: seq<Decision>, cs: seq<Candidate>)
    requires DistinctOutcomes(rs, cs)
    ensures StrictlySorted(Sort(rs + Verdicts(cs), ByName), ByName)
  {
    var all := rs + Verdicts(cs);
    forall i | 0 <= i < |cs| ensures Verdicts(cs)[i].name == cs[i].name {
      VerdictAt(cs, i);
    }
    forall i, j | 0 <= i < j < |all| ensures ByName(all[i], all[j]) || ByName(all[j], all[i]) {
      LessTotal(all[i].name, all[j].name);
      assert all[i].name == if i < |rs| then rs[i].name else cs[i - |rs|].name;
      assert all[j].name == if j < |rs| then rs[j].name else cs[j - |rs|].name;
    }
    LessIsOrder();
    SortStrict(all, ByName);
  }

  lemma SortedDistinct(rs: seq<Decision>, cs: seq<Candidate>, sorted: seq<Candidate>)
    requires DistinctOutcomes(rs, cs)
    requires StrictlySorted(sorted, Before)
    requires forall c :: c in sorted ==> c in cs
    ensures DistinctOutcomes(rs, sorted)
  {
    forall i, j | 0 <= i < j < |sorted| ensures sorted[i].name != sorted[j].name {
      assert sorted[i] in cs && sorted[j] in cs;
      var a :| 0 <= a < |cs| && cs[a] == sorted[i];
      var b :| 0 <= b < |cs| && cs[b] == sorted[j];
      assert Before(sorted[i], sorted[j]);
      BeforeIsOrder();
      assert a != b;
    }
    forall i, j | 0 <= i < |rs| && 0 <= j < |sorted| ensures rs[i].name != sorted[j].name {
      assert sorted[j] in cs;
    }
  }

  /** The resolver's output is a sorted list of correct decisions, one for each route. */
  lemma DecisionsCorrect(routes: seq<Route>, existing: seq<Existing>, domain: string)
    requires UniqueNames(routes)
    ensures IsResolution(Decisions(routes, existing, domain), routes, Served(existing), domain)
  {
    var served := Served(existing);
    var field := Field(routes, served, domain);
    var rs := Rejections(routes, served, domain);
    var cs := SortedCandidates(routes, served, domain);
    OutcomesDistinct(routes, served, domain);
    SortElements(Candidates(routes, served, domain), Before);
    SortedDistinct(rs, Candidates(routes, served, domain), cs);
    AllOutcomesSorted(rs, cs);
    SortElements(rs + Verdicts(cs), ByName);
    DecisionsCorrectFor(routes, served, domain, cs, Decisions(routes, existing, domain));
  }

  lemma DecisionsCorrectFor(routes: seq<Route>, served: map<string, OwnedByCoreDNS>, domain: string, cs: seq<Candidate>, ds: seq<Decision>)
    requires UniqueNames(routes)
    requires StrictlySorted(cs, Before) && Elements(cs) == Field(routes, served, domain)
    requires forall d :: d in ds <==> d in Rejections(routes, served, domain) + Verdicts(cs)
    ensures DecisionNames(ds) == RouteNames(routes)
    ensures forall d, r | d in ds && r in routes && d.name == r.name ::
              Correct(d, r, Rivals(CandidateOf(r), Field(routes, served, domain)), served, domain)
  {
    hide Correct;
    var field := Field(routes, served, domain);
    forall r | r in routes ensures r.name in DecisionNames(ds) {
      var d := RouteDecided(routes, served, domain, cs, r);
      CorrectName(d, r, Rivals(CandidateOf(r), field), served, domain);
      assert d in ds;
    }
    forall d | d in ds
      ensures d.name in RouteNames(routes)
      ensures forall r | r in routes && d.name == r.name :: Correct(d, r, Rivals(CandidateOf(r), field), served, domain)
    {
      var q := DecisionHasRoute(routes, served, domain, cs, d);
      CorrectName(d, q, Rivals(CandidateOf(q), field), served, domain);
      forall r | r in routes && d.name == r.name ensures Correct(d, r, Rivals(CandidateOf(r), field), served, domain) {
        SameNameSameRoute(routes, q, r);
      }
    }
  }

  lemma RejectedCorrect(r: Route, rivals: set<Candidate>, served: map<string, OwnedByCoreDNS>, domain: string)
    requires Screen(r, served, domain).Rejected?
    ensures Correct(Screen(r, served, domain).decision, r, rivals, served, domain)
  {
  }

  lemma RouteDecided(routes: seq<Route>, served: map<string, OwnedByCoreDNS>, domain: string, cs: seq<Candidate>, r: Route)
    returns (d: Decision)
    requires StrictlySorted(cs, Before) && Elements(cs) == Field(routes, served, domain)
    requires r in routes
    ensures d in Rejections(routes, served, domain) || d in Verdicts(cs)
    ensures Correct(d, r, Rivals(CandidateOf(r), Field(routes, served, domain)), served, domain)
  {
    var s := Screen(r, served, domain);
    if s.Rejected? {
      d := s.decision;
      RouteHasRejection(routes, served, domain, r);
      RejectedCorrect(r, Rivals(CandidateOf(r), Field(routes, served, domain)), served, domain);
    } else {
      assert CandidateOf(r) in Elements(cs);
      var i :| 0 <= i < |cs| && cs[i] == CandidateOf(r);
      d := Verdicts(cs)[i];
      CandidateDecided(routes, served, domain, cs, i, r);
    }
  }

  lemma DecisionHasRoute(routes: seq<Route>, served: map<string, OwnedByCoreDNS>, domain: string, cs: seq<Candidate>, d: Decision)
    returns (r: Route)
    requires StrictlySorted(cs, Before) && Elements(cs) == Field(routes, served, domain)
    requires d in Rejections(routes, served, domain) || d in Verdicts(cs)
    ensures r in routes
    ensures Correct(d, r, Rivals(CandidateOf(r), Field(routes, served, domain)), served, domain)
  {
    if d in Rejections(routes, served, domain) {
      r := RejectionHasRoute(routes, served, domain, d);
      RejectedCorrect(r, Rivals(CandidateOf(r), Field(routes, served, domain)), served, domain);
    } else {
      var i :| 0 <= i < |cs| && Verdicts(cs)[i] == d;
      assert cs[i] in Elements(cs);
      r :| r in routes && Screen(r, served, domain).Admitted? && CandidateOf(r) == cs[i];
      CandidateDecided(routes, served, domain, cs, i, r);
    }
  }

  // ---- it is the only one

  ghost predicate PairwiseDisjoint(rivals: set<Candidate>) {
    forall a, b | a in rivals && b in rivals && Share(a, b) :: a == b
  }

  lemma RivalsDisjoint(c: Candidate, field: set<Candidate>)
    requires DistinctNames(field)
    ensures PairwiseDisjoint(Rivals(c, field))
  {
    WinnersDisjointAndMaximal(field);
    forall a, b | a in Rivals(c, field) && b in Rivals(c, field) && Share(a, b) ensures a == b {
      assert a in Winners(field) && b in Winners(field);
    }
  }

  lemma ConflictsUnique(x: seq<ZoneConflict>, y: seq<ZoneConflict>, zones: seq<string>, rivals: set<Candidate>)
    requires ConflictsAre(x, zones, rivals) && ConflictsAre(y, zones, rivals)
    requires PairwiseDisjoint(rivals)
    ensures x == y
  {
    ConflictsIncluded(x, y, zones, rivals);
    ConflictsIncluded(y, x, zones, rivals);
    LessIsOrder();
    StrictlySortedUnique(x, y, ByZone);
  }

  lemma ConflictsIncluded(x: seq<ZoneConflict>, y: seq<ZoneConflict>, zones: seq<string>, rivals: set<Candidate>)
    requires ConflictsAre(x, zones, rivals) && ConflictsAre(y, zones, rivals)
    requires PairwiseDisjoint(rivals)
    ensures forall c :: c in x ==> c in y
  {
    forall c | c in x ensures c in y {
      var w :| w in rivals && c.zone in w.zones && w.name == c.winner;
      var c' :| c' in y && c'.zone == c.zone;
      var w' :| w' in rivals && c'.zone in w'.zones && w'.name == c'.winner;
      assert Share(w, w');
      assert c == c';
    }
  }

  lemma CorrectUnique(d1: Decision, d2: Decision, r: Route, rivals: set<Candidate>, served: map<string, OwnedByCoreDNS>, domain: string)
    requires Correct(d1, r, rivals, served, domain) && Correct(d2, r, rivals, served, domain)
    requires PairwiseDisjoint(rivals)
    ensures d1 == d2
  {
    var zones := CanonicalZones(r.zones);
    if ReservedZones(zones, domain) == [] && OwnedZones(zones, served) == [] {
      ConflictsUnique(d1.conflicts, d2.conflicts, zones, rivals);
    }
  }

  lemma FieldDistinct(routes: seq<Route>, served: map<string, OwnedByCoreDNS>, domain: string)
    requires UniqueNames(routes)
    ensures DistinctNames(Field(routes, served, domain))
  {
    var field := Field(routes, served, domain);
    forall a, b | a in field && b in field && a.name == b.name ensures a == b {
      var r :| r in routes && Screen(r, served, domain).Admitted? && CandidateOf(r) == a;
      var q :| q in routes && Screen(q, served, domain).Admitted? && CandidateOf(q) == b;
      SameNameSameRoute(routes, r, q);
    }
  }

  lemma SameNameSameRoute(routes: seq<Route>, r: Route, q: Route)
    requires UniqueNames(routes) && r in routes && q in routes && r.name == q.name
    ensures r == q
  {
    var i :| 0 <= i < |routes| && routes[i] == r;
    var j :| 0 <= j < |routes| && routes[j] == q;
    assert !(i < j) && !(j < i);
  }

  lemma CorrectName(d: Decision, r: Route, rivals: set<Candidate>, served: map<string, OwnedByCoreDNS>, domain: string)
    requires Correct(d, r, rivals, served, domain)
    ensures d.name == r.name
  {
  }

  lemma ResolutionIncluded(xs: seq<Decision>, ys: seq<Decision>, routes: seq<Route>, served: map<string, OwnedByCoreDNS>, domain: string)
    requires UniqueNames(routes)
    requires IsResolution(xs, routes, served, domain) && IsResolution(ys, routes, served, domain)
    ensures forall d :: d in xs ==> d in ys
  {
    hide Correct;
    var field := Field(routes, served, domain);
    FieldDistinct(routes, served, domain);
    forall d | d in xs ensures d in ys {
      assert d.name in DecisionNames(xs);
      var r :| r in routes && r.name == d.name;
      assert r.name in DecisionNames(ys);
      var d' :| d' in ys && d'.name == r.name;
      RivalsDisjoint(CandidateOf(r), field);
      CorrectUnique(d, d', r, Rivals(CandidateOf(r), field), served, domain);
    }
  }

  /** There is only one list of correct decisions. */
  lemma ResolutionUnique(xs: seq<Decision>, ys: seq<Decision>, routes: seq<Route>, served: map<string, OwnedByCoreDNS>, domain: string)
    requires UniqueNames(routes)
    requires IsResolution(xs, routes, served, domain) && IsResolution(ys, routes, served, domain)
    ensures xs == ys
  {
    ResolutionIncluded(xs, ys, routes, served, domain);
    ResolutionIncluded(ys, xs, routes, served, domain);
    LessIsOrder();
    StrictlySortedUnique(xs, ys, ByName);
  }

  // ---- order independence

  predicate Serves(e: Existing, zone: string) {
    OnIdentity(e) && Canonical(e.zone) == zone
  }

  ghost predicate LeastSource(source: string, existing: seq<Existing>, zone: string) {
    && (exists e :: e in existing && Serves(e, zone) && e.source == source)
    && (forall e | e in existing && Serves(e, zone) :: !Less(e.source, source))
  }

  /** A zone is served iff some listener on the identity names it; the reported source is
      the least among those. */
  lemma {:induction false} ServedSpec(existing: seq<Existing>, zone: string)
    ensures zone in Served(existing) <==> exists e :: e in existing && Serves(e, zone)
    ensures zone in Served(existing) ==>
              && Served(existing)[zone] == OwnedByCoreDNS(zone, LISTENER_PORT, Served(existing)[zone].source)
              && LeastSource(Served(existing)[zone].source, existing, zone)
  {
    if existing == [] {
    } else {
      var init, e := existing[..|existing| - 1], existing[|existing| - 1];
      assert existing == init + [e];
      ServedSpec(init, zone);
      assert e in existing && forall x :: x in init ==> x in existing;
      LessTotal(e.source, e.source);
      if Serves(e, zone) && zone in Served(init) {
        var cur := Served(init)[zone].source;
        LessTotal(e.source, cur);
        if Less(e.source, cur) {
          forall x | x in init && Serves(x, zone) ensures !Less(x.source, e.source) {
            if Less(x.source, e.source) {
              LessTransitive(x.source, e.source, cur);
            }
          }
        }
      }
    }
  }

  lemma ServedOrderIndependent(x: seq<Existing>, y: seq<Existing>)
    requires forall e :: e in x <==> e in y
    ensures Served(x) == Served(y)
  {
    forall zone ensures zone in Served(x) <==> zone in Served(y) {
      ServedSpec(x, zone);
      ServedSpec(y, zone);
    }
    forall zone | zone in Served(x) ensures Served(x)[zone] == Served(y)[zone] {
      ServedSpec(x, zone);
      ServedSpec(y, zone);
      LessTotal(Served(x)[zone].source, Served(y)[zone].source);
    }
  }

  /** Any permutation of the routes, and any reordering or repetition of the listeners,
      gives the same result: the same decisions with the same sources and winners. */
  lemma ResolutionOrderIndependent(r1: seq<Route>, r2: seq<Route>, e1: seq<Existing>, e2: seq<Existing>, clusterDomain: string)
    requires UniqueNames(r1) && multiset(r1) == multiset(r2)
    requires forall e :: e in e1 <==> e in e2
    ensures Resolution(r1, e1, clusterDomain) == Resolution(r2, e2, clusterDomain)
  {
    var domain := Canonical(clusterDomain);
    ServedOrderIndependent(e1, e2);
    var served := Served(e1);
    PermutedUnique(r1, r2);
    assert Field(r1, served, domain) == Field(r2, served, domain);
    DecisionsCorrect(r1, e1, domain);
    DecisionsCorrect(r2, e2, domain);
    ResolutionUnique(Decisions(r1, e1, domain), Decisions(r2, e2, domain), r1, served, domain);
  }

  lemma PermutedUnique(r1: seq<Route>, r2: seq<Route>)
    requires UniqueNames(r1) && multiset(r1) == multiset(r2)
    ensures UniqueNames(r2)
    ensures forall r :: r in r1 <==> r in r2
  {
    forall r ensures r in r1 <==> r in r2 {
      assert r in r1 <==> r in multiset(r1);
      assert r in r2 <==> r in multiset(r2);
    }
    forall i, j | 0 <= i < j < |r2| ensures r2[i].name != r2[j].name {
      assert r2[i] in r1 && r2[j] in r1;
      if r2[i].name == r2[j].name {
        SameNameSameRoute(r1, r2[i], r2[j]);
        TwiceInMultiset(r2, i, j);
        OnceInMultiset(r1, r2[i]);
      }
    }
  }

  lemma TwiceInMultiset(s: seq<Route>, i: nat, j: nat)
    requires i < j < |s| && s[i] == s[j]
    ensures multiset(s)[s[i]] >= 2
  {
    assert s == s[..j] + s[j..];
    assert s[..j][i] == s[i];
    assert s[j..][0] == s[i];
    assert s[i] in s[..j] && s[i] in s[j..];
  }

  lemma {:induction false} OnceInMultiset(s: seq<Route>, r: Route)
    requires UniqueNames(s)
    ensures multiset(s)[r] <= 1
  {
    if s == [] {
    } else {
      var init, e := s[..|s| - 1], s[|s| - 1];
      assert s == init + [e];
      NamesOfInit(s);
      OnceInMultiset(init, r);
      if r in init {
        assert r.name in RouteNames(init);
      }
    }
  }

  // ---- stability

  /** Two clusters that agree on the earlier candidates of `r` decide `r` alike. Adding or
      deleting a route therefore never touches a decision about an earlier route. */
  lemma EarlierDecisionsStable(r: Route, r1: seq<Route>, r2: seq<Route>, existing: seq<Existing>, domain: string, d1: Decision, d2: Decision)
    requires UniqueNames(r1) && UniqueNames(r2)
    requires r in r1 && r in r2
    requires forall q: Route | Before(CandidateOf(q), CandidateOf(r)) :: q in r1 <==> q in r2
    requires d1 in Decisions(r1, existing, domain) && d1.name == r.name
    requires d2 in Decisions(r2, existing, domain) && d2.name == r.name
    ensures d1 == d2
  {
    hide Correct;
    var served, c := Served(existing), CandidateOf(r);
    var f1, f2 := Field(r1, served, domain), Field(r2, served, domain);
    DecisionAbout(r, r1, existing, domain, d1);
    DecisionAbout(r, r2, existing, domain, d2);
    forall x ensures x in Earlier(c, f1) <==> x in Earlier(c, f2) {
      if x in Earlier(c, f1) {
        var q :| q in r1 && Screen(q, served, domain).Admitted? && CandidateOf(q) == x;
        assert q in r2;
      }
      if x in Earlier(c, f2) {
        var q :| q in r2 && Screen(q, served, domain).Admitted? && CandidateOf(q) == x;
        assert q in r1;
      }
    }
    WinsDependsOnEarlier(c, f1, f2);
    FieldDistinct(r1, served, domain);
    RivalsDisjoint(c, f1);
    CorrectUnique(d1, d2, r, Rivals(c, f1), served, domain);
  }

  lemma DecisionAbout(r: Route, routes: seq<Route>, existing: seq<Existing>, domain: string, d: Decision)
    requires UniqueNames(routes) && r in routes
    requires d in Decisions(routes, existing, domain) && d.name == r.name
    ensures Correct(d, r, Rivals(CandidateOf(r), Field(routes, Served(existing), domain)), Served(existing), domain)
  {
    hide Correct;
    DecisionsCorrect(routes, existing, domain);
  }

  /** Deleting a rejected route changes no other decision. */
  lemma RejectedRouteIrrelevant(routes: seq<Route>, k: nat, existing: seq<Existing>, domain: string, dk: Decision, r: Route, d1: Decision, d2: Decision)
    requires UniqueNames(routes) && k < |routes|
    requires dk in Decisions(routes, existing, domain) && dk.name == routes[k].name && !dk.accepted
    requires r in routes && r.name != routes[k].name
    requires d1 in Decisions(routes, existing, domain) && d1.name == r.name
    requires d2 in Decisions(routes[..k] + routes[k + 1..], existing, domain) && d2.name == r.name
    ensures d1 == d2
  {
    hide Correct;
    var served, c := Served(existing), CandidateOf(r);
    var rest := routes[..k] + routes[k + 1..];
    var f1 := Field(routes, served, domain);
    WithoutOne(routes, k);
    assert r in rest;
    DecisionAbout(r, routes, existing, domain, d1);
    DecisionAbout(r, rest, existing, domain, d2);
    FieldDistinct(routes, served, domain);
    RivalsDisjoint(c, f1);
    RivalsWithoutLoser(routes, k, existing, domain, dk, c);
    CorrectUnique(d1, d2, r, Rivals(c, f1), served, domain);
  }

  lemma RivalsWithoutLoser(routes: seq<Route>, k: nat, existing: seq<Existing>, domain: string, dk: Decision, c: Candidate)
    requires UniqueNames(routes) && k < |routes|
    requires dk in Decisions(routes, existing, domain) && dk.name == routes[k].name && !dk.accepted
    ensures Rivals(c, Field(routes[..k] + routes[k + 1..], Served(existing), domain))
         == Rivals(c, Field(routes, Served(existing), domain))
  {
    var served, x := Served(existing), CandidateOf(routes[k]);
    var field := Field(routes, served, domain);
    FieldWithoutOne(routes, k, served, domain);
    if x in field {
      RejectedLoses(routes, routes[k], existing, domain, dk);
      WinsIgnoresLosers(c, x, field);
    } else {
      assert field - {x} == field;
    }
  }

  lemma RejectedLoses(routes: seq<Route>, r: Route, existing: seq<Existing>, domain: string, d: Decision)
    requires UniqueNames(routes) && r in routes
    requires Screen(r, Served(existing), domain).Admitted?
    requires d in Decisions(routes, existing, domain) && d.name == r.name
    ensures d.accepted <==> Wins(CandidateOf(r), Field(routes, Served(existing), domain))
  {
    DecisionAbout(r, routes, existing, domain, d);
    WinsFromRivals(CandidateOf(r), Field(routes, Served(existing), domain));
  }

  lemma WithoutOne(routes: seq<Route>, k: nat)
    requires UniqueNames(routes) && k < |routes|
    ensures var rest := routes[..k] + routes[k + 1..];
            && UniqueNames(rest)
            && (forall r :: r in rest <==> r in routes && r != routes[k])
            && (forall r | r in rest :: r.name != routes[k].name)
  {
    var rest := routes[..k] + routes[k + 1..];
    assert forall i | 0 <= i < |rest| :: rest[i] == routes[if i < k then i else i + 1];
    forall r ensures r in rest <==> r in routes && r != routes[k] {
      if r in routes && r != routes[k] {
        var i :| 0 <= i < |routes| && routes[i] == r;
        assert rest[if i < k then i else i - 1] == r;
      }
    }
  }

  lemma FieldWithoutOne(routes: seq<Route>, k: nat, served: map<string, OwnedByCoreDNS>, domain: string)
    requires UniqueNames(routes) && k < |routes|
    ensures var x := CandidateOf(routes[k]);
            var f1, f2 := Field(routes, served, domain), Field(routes[..k] + routes[k + 1..], served, domain);
            f2 == f1 - {x} && (x in f1 ==> Screen(routes[k], served, domain).Admitted?)
  {
    var rest := routes[..k] + routes[k + 1..];
    WithoutOne(routes, k);
    var x := CandidateOf(routes[k]);
    var f1, f2 := Field(routes, served, domain), Field(rest, served, domain);
    forall c ensures c in f2 <==> c in f1 - {x} {
      if c in f1 && c != x {
        var q :| q in routes && Screen(q, served, domain).Admitted? && CandidateOf(q) == c;
        assert q in rest;
      }
      if c in f2 {
        var q :| q in rest && Screen(q, served, domain).Admitted? && CandidateOf(q) == c;
        assert q in routes && q.name != routes[k].name;
      }
    }
    if x in f1 {
      var q :| q in routes && Screen(q, served, domain).Admitted? && CandidateOf(q) == x;
      SameNameSameRoute(routes, q, routes[k]);
    }
  }

  // ---- what a rejection says

  /** Each reported conflict names a true winner: an accepted route, earlier in the order, that
      has the zone. */
  lemma RejectionNamesWinner(routes: seq<Route>, existing: seq<Existing>, domain: string, r: Route, d: Decision, x: ZoneConflict)
    returns (q: Route, e: Decision)
    requires UniqueNames(routes) && r in routes
    requires d in Decisions(routes, existing, domain) && d.name == r.name && x in d.conflicts
    ensures q in routes && q.name == x.winner && Before(CandidateOf(q), CandidateOf(r))
    ensures x.zone in CanonicalZones(q.zones) && x.zone in CanonicalZones(r.zones)
    ensures e in Decisions(routes, existing, domain) && e.name == q.name && e.accepted
  {
    hide Served, Decisions, Wins;
    var served := Served(existing);
    var field := Field(routes, served, domain);
    DecisionAbout(r, routes, existing, domain, d);
    var w :| w in Rivals(CandidateOf(r), field) && x.zone in w.zones && w.name == x.winner;
    q :| q in routes && Screen(q, served, domain).Admitted? && CandidateOf(q) == w;
    e := DecisionOf(routes, existing, domain, q);
    RejectedLoses(routes, q, existing, domain, e);
  }

  lemma DecisionOf(routes: seq<Route>, existing: seq<Existing>, domain: string, q: Route) returns (e: Decision)
    requires UniqueNames(routes) && q in routes
    ensures e in Decisions(routes, existing, domain) && e.name == q.name
  {
    hide Correct, Decisions;
    DecisionsCorrect(routes, existing, domain);
    assert q.name in RouteNames(routes);
    e :| e in Decisions(routes, existing, domain) && e.name == q.name;
  }
}
