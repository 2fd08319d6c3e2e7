/** A small cluster in which a route collides with a server block that the Corefile opens by
    importing its own snippet. */
module SnippetCluster {
  import opened Wrappers
  import opened Strings
  import opened DnsName
  import opened Cluster
  import opened Plans
  import opened RunTheorems
  import opened Protocol
  import opened Convergence
  import opened Openings
  import opened LoneRoute
  import opened Safety
  import Api
  import Corefile
  import CorefileTheorems
  import Disjointness
  import RoundTrip
  import SnippetText
  import Sorting
  import StaleText

  const DOMAIN := StaleText.DOMAIN
  const AB := StaleText.AB
  const CLUSTER := ClusterFor("ab", Some(map[COREFILE_KEY := SnippetText.TEXT]), Some(map[]))

  lemma AbIsZone()
    ensures Api.ValidZone("ab") && RoundTrip.ZoneListener("ab") == AB
    ensures !Inside(Canonical("ab"), Canonical(DOMAIN))
  {
    assert TrimSuffix("ab", ".") == "ab";
    assert Canonical("ab") == "ab.";
    StaleText.DomainCanonical();
    hide Split, TrimSuffix, Canonical;
    SplitAtom("ab", '.');
    assert Api.ValidLabel("ab");
  }

  lemma TextInspected()
    ensures Corefile.Inspection(SnippetText.TEXT, map[]).Ok?
  {
    hide CorefileTheorems.Readable, CorefileTheorems.Defines, Corefile.Inspection;
    SnippetText.NothingFound(Corefile.COREFILE_SOURCE);
    assert Corefile.ReadKeys(map[]) == {};
    CorefileTheorems.InspectionSucceeds(SnippetText.TEXT, map[]);
  }

  lemma AbMissed()
    ensures Missed(CLUSTER, "ab", DOMAIN)
  {
    hide Canonical, Inside, Opens, CorefileTheorems.Defines, Api.ValidZone;
    AbIsZone();
    SnippetText.NothingFound(Corefile.COREFILE_SOURCE);
    SnippetText.AbOpened(AB);
    assert SeenCorefile(CLUSTER) == SnippetText.TEXT && Servers(CLUSTER.custom) == map[];
    assert Corefile.ReadKeys(map[]) == {};
  }

  lemma NoImportZone()
    ensures !ImportAccepted(CLUSTER, DOMAIN)
  {
    hide MakePlan, Canonical, DecisionFor, Less;
    AbIsZone();
    OneItem(RouteFor("ab"));
    assert |Canonical("ab")| == 3 && |RoundTrip.IMPORT_ZONE| == 7;
    assert !RoundTrip.LeastIsImport(["ab"]);
  }

  /** The state exhibited: the system is at rest, the route is reported as accepted without a
      word about the import, and the managed key and the Corefile open the same listener. */
  lemma SnippetImportCollides() returns (s: State, labels: seq<Label>)
    ensures Initial(s) && AllowedRun(s, labels, DOMAIN) && Quiescent(Exec(s, labels, DOMAIN))
    ensures var t := Exec(s, labels, DOMAIN).store;
            && SameInputs(CLUSTER, t) && Claims(t, AB) && Opens(SeenCorefile(t), AB)
            && !ImportAccepted(t, DOMAIN) && PlanSeen(t, DOMAIN).Ok? && PlanSeen(t, DOMAIN).value.inspected.unresolved == []
  {
    hide Exec, AllowedRun, Initial, ImportAccepted, Claims, SameInputs, Opens, PlanSeen, Missed, Accepted, Disjointness.Admitted, Corefile.Inspection, TrimSpace;
    StaleText.DomainCanonical();
    TextInspected();
    AbMissed();
    AbIsZone();
    MissedIsAccepted(CLUSTER, "ab", DOMAIN);
    AcceptedHasPlan(CLUSTER, DOMAIN, AB);
    NoImportZone();
    StoreRenders(CLUSTER, DOMAIN);
    FragmentClaims(CLUSTER, DOMAIN, AB);
    s, labels := RestReached(CLUSTER, DOMAIN, "");
    AtRest(Exec(s, labels, DOMAIN).store);
  }

  lemma AtRest(t: Store)
    requires SameInputs(CLUSTER, t) && PlanSeen(CLUSTER, DOMAIN).Ok? && PlanSeen(CLUSTER, DOMAIN).value.fragment.Ok?
    requires Managed(t) == Some(PlanSeen(CLUSTER, DOMAIN).value.fragment.value)
    requires Opens(PlanSeen(CLUSTER, DOMAIN).value.fragment.value, AB)
    ensures Claims(t, AB) && Opens(SeenCorefile(t), AB)
    ensures !ImportAccepted(t, DOMAIN) && PlanSeen(t, DOMAIN).Ok? && PlanSeen(t, DOMAIN).value.inspected.unresolved == []
  {
    hide MakePlan, ImportAccepted, SameInputs, Opens;
    AbIsZone();
    SnippetText.AbOpened(AB);
    NoImportZone();
    SameInputsBack(CLUSTER, t);
    SameInputsSeen(t, CLUSTER, DOMAIN);
    TextKept(t);
    NothingReported();
  }

  lemma TextKept(t: Store)
    requires SameInputs(CLUSTER, t)
    ensures SeenCorefile(t) == SnippetText.TEXT
  {
  }

  lemma NothingReported()
    requires PlanSeen(CLUSTER, DOMAIN).Ok?
    ensures PlanSeen(CLUSTER, DOMAIN).value.inspected.unresolved == []
  {
    hide Corefile.Inspection, Corefile.SortedSeq, CorefileTheorems.UnresolvedIn, CorefileTheorems.Defines;
    assert SeenCorefile(CLUSTER) == SnippetText.TEXT && Servers(CLUSTER.custom) == map[];
    CorefileTheorems.UnresolvedOrdered(SnippetText.TEXT, map[]);
    SnippetText.NothingFound(Corefile.COREFILE_SOURCE);
    assert Corefile.ReadKeys(map[]) == {};
    Sorting.HasElement(Corefile.SortedSeq({}));
  }
}
