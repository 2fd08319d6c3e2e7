/** internal/conflict/conflict.go: which routes are accepted. `Resolve` is the program's
    algorithm with its maps and loops; `Resolution` is the function it computes. What that
    function means is the subject of ConflictTheorems.dfy. */
module Conflict {
  import opened Wrappers
  import opened Sorting
  import opened Strings
  import opened DnsName

  const LISTENER_TRANSPORT := "dns"
  const LISTENER_PORT := 53

  datatype Route = Route(name: string, created: int, zones: seq<string>)
  datatype Existing = Existing(transport: string, zone: string, port: int, source: string)
  datatype OwnedByCoreDNS = OwnedByCoreDNS(zone: string, port: int, source: string)
  datatype ZoneConflict = ZoneConflict(zone: string, winner: string)
  datatype Decision = Decision(
    name: string,
    accepted: bool,
    reserved: seq<string>,
    owned: seq<OwnedByCoreDNS>,
    conflicts: seq<ZoneConflict>)
  datatype Candidate = Candidate(name: string, created: int, zones: seq<string>)

  function RejectReserved(name: string, zones: seq<string>): Decision {
    Decision(name, false, zones, [], [])
  }

  function RejectOwned(name: string, owned: seq<OwnedByCoreDNS>): Decision {
    Decision(name, false, [], owned, [])
  }

  function RejectConflicts(name: string, conflicts: seq<ZoneConflict>): Decision {
    Decision(name, false, [], [], conflicts)
  }

  function Accept(name: string): Decision {
    Decision(name, true, [], [], [])
  }

  /** Oldest first, the name breaking ties. */
  predicate Before(a: Candidate, b: Candidate) {
    a.created < b.created || (a.created == b.created && Less(a.name, b.name))
  }

  predicate ByName(a: Decision, b: Decision) {
    Less(a.name, b.name)
  }

  // ---- the zones of one route

  /** The canonical zones in order of first appearance. */
  function CanonicalOnce(zones: seq<string>): seq<string> {
    if zones == [] then
      []
    else
      var init, c := CanonicalOnce(zones[..|zones| - 1]), Canonical(zones[|zones| - 1]);
      if c in init then init else init + [c]
  }

  function CanonicalZones(zones: seq<string>): seq<string> {
    Sort(CanonicalOnce(zones), Less)
  }

  method ComputeCanonicalZones(zones: seq<string>) returns (r: seq<string>)
    ensures r == CanonicalZones(zones)
  {
    var out: seq<string> := [];
    var seen: map<string, bool> := map[];
    for i := 0 to |zones|
      invariant out == CanonicalOnce(zones[..i])
      invariant forall c :: c in seen <==> c in out
    {
      assert zones[..i + 1][..i] == zones[..i];
      var c := Canonical(zones[i]);
      if c !in seen {
        seen := seen[c := true];
        out := out + [c];
      }
    }
    assert zones[..|zones|] == zones;
    r := Sort(out, Less);
  }

  // ---- listeners that can collide

  predicate OnIdentity(e: Existing) {
    e.transport == LISTENER_TRANSPORT && e.port == LISTENER_PORT
  }

  /** For each zone served on ZoneRoute's own listener identity, the listener with the
      bytewise least source. */
  function Served(existing: seq<Existing>): map<string, OwnedByCoreDNS> {
    if existing == [] then
      map[]
    else
      var m, e := Served(existing[..|existing| - 1]), existing[|existing| - 1];
      if OnIdentity(e) && (Canonical(e.zone) !in m || Less(e.source, m[Canonical(e.zone)].source)) then
        m[Canonical(e.zone) := OwnedByCoreDNS(Canonical(e.zone), LISTENER_PORT, e.source)]
      else
        m
  }

  method ComputeServed(existing: seq<Existing>) returns (served: map<string, OwnedByCoreDNS>)
    ensures served == Served(existing)
  {
    served := map[];
    for i := 0 to |existing|
      invariant served == Served(existing[..i])
    {
      assert existing[..i + 1][..i] == existing[..i];
      var e := existing[i];
      if e.transport != LISTENER_TRANSPORT || e.port != LISTENER_PORT {
        continue;
      }
      var zone := Canonical(e.zone);
      if zone !in served || Less(e.source, served[zone].source) {
        served := served[zone := OwnedByCoreDNS(zone, LISTENER_PORT, e.source)];
      }
    }
    assert existing[..|existing|] == existing;
  }

  // ---- first pass: reserved, owned, or a candidate

  function ReservedZones(zones: seq<string>, domain: string): seq<string> {
    if zones == [] then
      []
    else
      var z := zones[|zones| - 1];
      ReservedZones(zones[..|zones| - 1], domain) + if Inside(z, domain) then [z] else []
  }

  function OwnedZones(zones: seq<string>, served: map<string, OwnedByCoreDNS>): seq<OwnedByCoreDNS> {
    if zones == [] then
      []
    else
      var z := zones[|zones| - 1];
      OwnedZones(zones[..|zones| - 1], served) + if z in served then [served[z]] else []
  }

  datatype Screening = Rejected(decision: Decision) | Admitted(candidate: Candidate)

  function Screen(r: Route, served: map<string, OwnedByCoreDNS>, domain: string): Screening {
    var zones := CanonicalZones(r.zones);
    var reserved, owned := ReservedZones(zones, domain), OwnedZones(zones, served);
    if reserved != [] then Rejected(RejectReserved(r.name, reserved))
    else if owned != [] then Rejected(RejectOwned(r.name, owned))
    else Admitted(Candidate(r.name, r.created, zones))
  }

  method ComputeScreen(r: Route, served: map<string, OwnedByCoreDNS>, domain: string) returns (s: Screening)
    ensures s == Screen(r, served, domain)
  {
    var zones := ComputeCanonicalZones(r.zones);
    var descendant := "." + domain;
    var reserved: seq<string> := [];
    for i := 0 to |zones|
      invariant reserved == ReservedZones(zones[..i], domain)
    {
      assert zones[..i + 1][..i] == zones[..i];
      if zones[i] == domain || HasSuffix(zones[i], descendant) {
        reserved := reserved + [zones[i]];
      }
    }
    var owned: seq<OwnedByCoreDNS> := [];
    for i := 0 to |zones|
      invariant owned == OwnedZones(zones[..i], served)
    {
      assert zones[..i + 1][..i] == zones[..i];
      if zones[i] in served {
        owned := owned + [served[zones[i]]];
      }
    }
    assert zones[..|zones|] == zones;
    if reserved != [] {
      s := Rejected(RejectReserved(r.name, reserved));
    } else if owned != [] {
      s := Rejected(RejectOwned(r.name, owned));
    } else {
      s := Admitted(Candidate(r.name, r.created, zones));
    }
  }

  function Rejections(routes: seq<Route>, served: map<string, OwnedByCoreDNS>, domain: string): seq<Decision> {
    if routes == [] then
      []
    else
      var s := Screen(routes[|routes| - 1], served, domain);
      Rejections(routes[..|routes| - 1], served, domain) + if s.Rejected? then [s.decision] else []
  }

  function Candidates(routes: seq<Route>, served: map<string, OwnedByCoreDNS>, domain: string): seq<Candidate> {
    if routes == [] then
      []
    else
      var s := Screen(routes[|routes| - 1], served, domain);
      Candidates(routes[..|routes| - 1], served, domain) + if s.Admitted? then [s.candidate] else []
  }

  // ---- second pass: greedy ownership

  function TakenZones(zones: seq<string>, owner: map<string, string>): seq<ZoneConflict> {
    if zones == [] then
      []
    else
      var z := zones[|zones| - 1];
      TakenZones(zones[..|zones| - 1], owner) + if z in owner then [ZoneConflict(z, owner[z])] else []
  }

  function Claim(owner: map<string, string>, zones: seq<string>, name: string): (r: map<string, string>)
    ensures forall z :: z in r <==> z in owner || z in zones
    ensures forall z | z in r :: r[z] == if z in zones then name else owner[z]
  {
    if zones == [] then
      owner
    else
      assert zones == zones[..|zones| - 1] + [zones[|zones| - 1]];
      Claim(owner, zones[..|zones| - 1], name)[zones[|zones| - 1] := name]
  }

  function Verdict(c: Candidate, owner: map<string, string>): Decision {
    var conflicts := TakenZones(c.zones, owner);
    if conflicts != [] then RejectConflicts(c.name, conflicts) else Accept(c.name)
  }

  /** Who owns what once the candidates have been processed in the given order. */
  function Owners(cs: seq<Candidate>): map<string, string> {
    if cs == [] then
      map[]
    else
      var owner, c := Owners(cs[..|cs| - 1]), cs[|cs| - 1];
      if TakenZones(c.zones, owner) != [] then owner else Claim(owner, c.zones, c.name)
  }

  function Verdicts(cs: seq<Candidate>): (ds: seq<Decision>)
    ensures |ds| == |cs|
  {
    if cs == [] then
      []
    else
      var init := cs[..|cs| - 1];
      Verdicts(init) + [Verdict(cs[|cs| - 1], Owners(init))]
  }

  method ComputeTaken(zones: seq<string>, owner: map<string, string>) returns (conflicts: seq<ZoneConflict>)
    ensures conflicts == TakenZones(zones, owner)
  {
    conflicts := [];
    for k := 0 to |zones|
      invariant conflicts == TakenZones(zones[..k], owner)
    {
      assert zones[..k + 1][..k] == zones[..k];
      if zones[k] in owner {
        conflicts := conflicts + [ZoneConflict(zones[k], owner[zones[k]])];
      }
    }
    assert zones[..|zones|] == zones;
  }

  method ComputeClaim(before: map<string, string>, zones: seq<string>, name: string) returns (owner: map<string, string>)
    ensures owner == Claim(before, zones, name)
  {
    owner := before;
    for k := 0 to |zones|
      invariant owner == Claim(before, zones[..k], name)
    {
      assert zones[..k + 1][..k] == zones[..k];
      owner := owner[zones[k] := name];
    }
    assert zones[..|zones|] == zones;
  }

  method ComputeVerdicts(cs: seq<Candidate>) returns (ds: seq<Decision>)
    ensures ds == Verdicts(cs)
  {
    ds := [];
    var owner: map<string, string> := map[];
    for i := 0 to |cs|
      invariant ds == Verdicts(cs[..i])
      invariant owner == Owners(cs[..i])
    {
      assert cs[..i + 1][..i] == cs[..i];
      var c := cs[i];
      var conflicts := ComputeTaken(c.zones, owner);
      if conflicts != [] {
        ds := ds + [RejectConflicts(c.name, conflicts)];
        continue;
      }
      owner := ComputeClaim(owner, c.zones, c.name);
      ds := ds + [Accept(c.name)];
    }
    assert cs[..|cs|] == cs;
  }

  // ---- the whole resolver

  const EMPTY_DOMAIN := "conflict: cluster domain must not be empty"

  function Decisions(routes: seq<Route>, existing: seq<Existing>, domain: string): seq<Decision> {
    var served := Served(existing);
    Sort(Rejections(routes, served, domain) + Verdicts(Sort(Candidates(routes, served, domain), Before)), ByName)
  }

  function Resolution(routes: seq<Route>, existing: seq<Existing>, clusterDomain: string): Result<seq<Decision>> {
    if TrimSpace(clusterDomain) == "" then Err(EMPTY_DOMAIN)
    else Ok(Decisions(routes, existing, Canonical(clusterDomain)))
  }

  method Resolve(routes: seq<Route>, existing: seq<Existing>, clusterDomain: string)
    returns (r: Result<seq<Decision>>)
    ensures r == Resolution(routes, existing, clusterDomain)
  {
    if TrimSpace(clusterDomain) == "" {
      return Err(EMPTY_DOMAIN);
    }
    var domain := Canonical(clusterDomain);
    var served := ComputeServed(existing);
    var decisions: seq<Decision> := [];
    var candidates: seq<Candidate> := [];
    for i := 0 to |routes|
      invariant decisions == Rejections(routes[..i], served, domain)
      invariant candidates == Candidates(routes[..i], served, domain)
    {
      assert routes[..i + 1][..i] == routes[..i];
      var s := ComputeScreen(routes[i], served, domain);
      match s {
        case Rejected(d) => decisions := decisions + [d];
        case Admitted(c) => candidates := candidates + [c];
      }
    }
    assert routes[..|routes|] == routes;
    candidates := Sort(candidates, Before);
    var verdicts := ComputeVerdicts(candidates);
    decisions := Sort(decisions + verdicts, ByName);
    r := Ok(decisions);
  }
}
