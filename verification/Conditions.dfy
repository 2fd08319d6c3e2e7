/** internal/controller/status.go: decisions and publish outcomes as conditions. */
module Conditions {
  import opened Wrappers
  import opened Sorting
  import opened Strings
  import opened Cluster
  import opened Conflict
  import Corefile

  const ACCEPTED := "Accepted"
  const ACCEPTED_WITH_UNRESOLVED_IMPORTS := "AcceptedWithUnresolvedImports"
  const ZONE_CONFLICT := "ZoneConflict"
  const ZONE_OWNED_BY_COREDNS := "ZoneOwnedByCoreDNS"
  const RESERVED_ZONE := "ReservedZone"
  const PUBLISHED := "Published"
  const NOT_ACCEPTED := "NotAccepted"
  const INTEGRATION_CONFIG_MISSING := "IntegrationConfigMissing"
  const COREDNS_NOT_WIRED := "CoreDNSNotWired"
  const FRAGMENT_INVALID := "FragmentInvalid"
  const WRITE_FAILED := "WriteFailed"

  /** What publishing achieved. */
  datatype PublishState = InPlace | ConfigMissing | FragmentInvalid(detail: string) | WriteFailed(detail: string)

  // ---- Accepted

  function OwnedParts(owned: seq<OwnedByCoreDNS>): (r: seq<string>)
    ensures |r| == |owned|
  {
    seq(|owned|, i requires 0 <= i < |owned| =>
      "zone " + owned[i].zone + " is already served by CoreDNS (" + owned[i].source + ")")
  }

  function ConflictParts(conflicts: seq<ZoneConflict>): (r: seq<string>)
    ensures |r| == |conflicts|
  {
    seq(|conflicts|, i requires 0 <= i < |conflicts| =>
      "zone " + conflicts[i].zone + " is claimed by older ZoneRoute " + conflicts[i].winner)
  }

  function ImportParts(imports: seq<Corefile.Import>): (r: seq<string>)
    ensures |r| == |imports|
  {
    seq(|imports|, i requires 0 <= i < |imports| =>
      imports[i].source + ":" + Decimal(imports[i].line) + " " + imports[i].pattern)
  }

  function Capitalize(s: string): string {
    if s == "" then s
    else [if 'a' <= s[0] <= 'z' then (s[0] as int - 32) as char else s[0]] + s[1..]
  }

  function AcceptedMessage(d: Decision, unresolved: seq<Corefile.Import>, domain: string): string {
    if d.reserved != [] then
      "Zones inside the cluster domain " + domain + " are reserved: " + Join(Sort(d.reserved, Less), ", ") + "."
    else if d.owned != [] then
      Capitalize(Join(Sort(OwnedParts(d.owned), Less), "; ")) + "."
    else if d.conflicts != [] then
      Capitalize(Join(Sort(ConflictParts(d.conflicts), Less), "; ")) + "."
    else if unresolved != [] then
      "Accepted. Conflict detection could not inspect these imports: " + Join(Sort(ImportParts(unresolved), Less), "; ") + "."
    else
      "All zones accepted."
  }

  function AcceptedCondition(d: Decision, unresolved: seq<Corefile.Import>, domain: string, generation: int): Condition {
    var message := AcceptedMessage(d, unresolved, domain);
    if d.reserved != [] then Condition(false, RESERVED_ZONE, message, generation)
    else if d.owned != [] then Condition(false, ZONE_OWNED_BY_COREDNS, message, generation)
    else if d.conflicts != [] then Condition(false, ZONE_CONFLICT, message, generation)
    else if unresolved != [] then Condition(true, ACCEPTED_WITH_UNRESOLVED_IMPORTS, message, generation)
    else Condition(true, ACCEPTED, message, generation)
  }

  method ComputeAcceptedCondition(d: Decision, unresolved: seq<Corefile.Import>, domain: string, generation: int)
    returns (c: Condition)
    ensures c == AcceptedCondition(d, unresolved, domain, generation)
  {
    hide Sort, Join, Capitalize;
    var parts: seq<string> := [];
    if d.reserved != [] {
      var zones := Sort(d.reserved, Less);
      c := Condition(false, RESERVED_ZONE,
        "Zones inside the cluster domain " + domain + " are reserved: " + Join(zones, ", ") + ".", generation);
    } else if d.owned != [] {
      for i := 0 to |d.owned|
        invariant parts == OwnedParts(d.owned[..i])
      {
        parts := parts + ["zone " + d.owned[i].zone + " is already served by CoreDNS (" + d.owned[i].source + ")"];
      }
      assert d.owned[..|d.owned|] == d.owned;
      c := Condition(false, ZONE_OWNED_BY_COREDNS, Capitalize(Join(Sort(parts, Less), "; ")) + ".", generation);
    } else if d.conflicts != [] {
      for i := 0 to |d.conflicts|
        invariant parts == ConflictParts(d.conflicts[..i])
      {
        parts := parts + ["zone " + d.conflicts[i].zone + " is claimed by older ZoneRoute " + d.conflicts[i].winner];
      }
      assert d.conflicts[..|d.conflicts|] == d.conflicts;
      c := Condition(false, ZONE_CONFLICT, Capitalize(Join(Sort(parts, Less), "; ")) + ".", generation);
    } else if unresolved != [] {
      for i := 0 to |unresolved|
        invariant parts == ImportParts(unresolved[..i])
      {
        parts := parts + [unresolved[i].source + ":" + Decimal(unresolved[i].line) + " " + unresolved[i].pattern];
      }
      assert unresolved[..|unresolved|] == unresolved;
      c := Condition(true, ACCEPTED_WITH_UNRESOLVED_IMPORTS,
        "Accepted. Conflict detection could not inspect these imports: " + Join(Sort(parts, Less), "; ") + ".", generation);
    } else {
      c := Condition(true, ACCEPTED, "All zones accepted.", generation);
    }
  }

  // ---- Published

  const CUSTOM_NAME := "kube-system/coredns-custom"

  function PublishedCondition(accepted: bool, state: PublishState, wired: bool, generation: int): Condition {
    if !accepted then
      Condition(false, NOT_ACCEPTED, "Route is not accepted.", generation)
    else match state
      case ConfigMissing =>
        Condition(false, INTEGRATION_CONFIG_MISSING,
          "ConfigMap " + CUSTOM_NAME + " does not exist; create it to enable publishing.", generation)
      case FragmentInvalid(detail) =>
        Condition(false, FRAGMENT_INVALID, "Generated fragment failed validation: " + detail, generation)
      case WriteFailed(detail) =>
        Condition(false, WRITE_FAILED, "Failed to publish fragment: " + detail, generation)
      case InPlace =>
        if !wired then
          Condition(false, COREDNS_NOT_WIRED,
            "Fragment written to " + CUSTOM_NAME + ", but the Corefile has no top-level \"import " + Corefile.WIRING_IMPORT + "\" import.",
            generation)
        else
          Condition(true, PUBLISHED,
            "Fragment published to " + CUSTOM_NAME + " (" + Corefile.MANAGED_KEY + ").", generation)
  }
}
