/** A small cluster in which the published text stays stale and collides: its one route, with
    the zone `import`, is accepted, and the managed key still names a zone that the Corefile
    serves by now. */
module StaleText {
  import opened Wrappers
  import opened Strings
  import opened DnsName
  import opened Cluster
  import opened Plans
  import opened RunTheorems
  import opened Protocol
  import opened Convergence
  import opened Openings
  import opened LoneRoute
  import opened Safety
  import Corefile
  import CorefileTheorems
  import Disjointness
  import RenderTheorems
  import RoundTrip

  const DOMAIN := "cluster.local."
  const NAME := "ab"
  const AB := Corefile.Listener("dns", "ab.", 53)
  const CLUSTER := ClusterFor("import", Some(map[COREFILE_KEY := NAME]), Some(map[]))

  lemma NameServed()
    ensures CorefileTheorems.Readable(NAME)
    ensures forall l :: CorefileTheorems.Defines(NAME, l) <==> l == AB
    ensures forall l :: Opens(NAME, l) <==> l == AB
  {
    assert RenderTheorems.Inert(NAME);
    RoundTrip.WordDefines(NAME);
    WordOpens(NAME);
    assert Canonical(NAME) == "ab.";
  }

  lemma DomainCanonical()
    ensures Canonical(DOMAIN) == DOMAIN && TrimSpace(DOMAIN) != ""
  {
    assert TrimSuffix(DOMAIN, ".") == "cluster.local";
    assert ToLower("cluster.local") == "cluster.local";
  }

  lemma ImportCanonical()
    ensures Canonical("import") == RoundTrip.IMPORT_ZONE && RoundTrip.LeastIsImport(["import"])
  {
    RoundTrip.ImportIsPrintedAsIs();
    RoundTrip.DottedBack("import");
    hide Canonical, TrimSuffix, Less;
    LessTotal(RoundTrip.IMPORT_ZONE, RoundTrip.IMPORT_ZONE);
    assert "import" in ["import"];
  }

  lemma ImportOutside()
    ensures !Inside(RoundTrip.IMPORT_ZONE, DOMAIN)
  {
  }

  lemma NameInspected()
    ensures Corefile.Inspection(NAME, map[]).Ok?
  {
    hide CorefileTheorems.Readable, CorefileTheorems.Defines, Opens, Corefile.Inspection;
    NameServed();
    assert Corefile.ReadKeys(map[]) == {};
    CorefileTheorems.InspectionSucceeds(NAME, map[]);
  }

  /** The one route of this cluster is accepted. */
  lemma ImportRouteAccepted()
    ensures ImportAccepted(CLUSTER, DOMAIN)
  {
    hide CorefileTheorems.Defines, Opens, Canonical, Inside, Corefile.Inspection, TrimSpace, MakePlan, DecisionFor, RoundTrip.LeastIsImport;
    OneItem(RouteFor("import"));
    NameServed();
    NameInspected();
    ImportCanonical();
    ImportOutside();
    DomainCanonical();
    var plan := LoneZoneAccepted("import", NAME, map[], DOMAIN);
    assert SeenCorefile(CLUSTER) == NAME && Servers(CLUSTER.custom) == map[];
    assert RouteFor("import") in Items(CLUSTER.routes);
  }

  /** The state exhibited: the system is at rest, and the managed key and the Corefile open
      the same listener. */
  lemma StaleTextCollides() returns (s: State, labels: seq<Label>)
    ensures Initial(s) && AllowedRun(s, labels, DOMAIN) && Quiescent(Exec(s, labels, DOMAIN))
    ensures var t := Exec(s, labels, DOMAIN).store;
            SameInputs(CLUSTER, t) && Claims(t, AB) && Opens(SeenCorefile(t), AB)
  {
    hide Exec, AllowedRun, Initial, ImportAccepted, Claims, SameInputs, SeenCorefile, Opens, CorefileTheorems.Defines, Disjointness.Admitted;
    OneItem(RouteFor("import"));
    RoundTrip.ImportIsZone();
    RouteForAdmitted("import");
    ImportRouteAccepted();
    s, labels := StaleTextStays(CLUSTER, DOMAIN, NAME);
    NameTwice(Exec(s, labels, DOMAIN).store);
  }

  lemma NameTwice(t: Store)
    requires SameInputs(CLUSTER, t) && Managed(t) == Some(NAME)
    ensures Claims(t, AB) && Opens(SeenCorefile(t), AB)
  {
    hide CorefileTheorems.Defines, CorefileTheorems.Readable, Opens;
    NameServed();
  }
}
