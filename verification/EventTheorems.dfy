/** Why dropping an event is safe: an update that is filtered out changes nothing a run would
    compute, with one exception that is spelled out exactly. */
module EventTheorems {
  import opened Wrappers
  import opened Strings
  import opened Cluster
  import opened Events
  import opened Plans
  import opened RunTheorems
  import Corefile

  lemma SameServerEntries(a: ConfigMap, b: ConfigMap)
    requires ServerEntries(a) == ServerEntries(b)
    ensures ReadEntries(a) == ReadEntries(b)
    ensures Corefile.MANAGED_KEY in a <==> Corefile.MANAGED_KEY in b
    ensures Corefile.MANAGED_KEY in a ==> a[Corefile.MANAGED_KEY] == b[Corefile.MANAGED_KEY]
  {
    var x, y := ServerEntries(a), ServerEntries(b);
    ManagedIsServerKey();
    assert forall k :: k in x <==> k in a && Corefile.IsServerKey(k);
    assert forall k :: k in y <==> k in b && Corefile.IsServerKey(k);
    assert forall k | k in x :: x[k] == a[k] && y[k] == b[k];
    assert Corefile.MANAGED_KEY in x <==> Corefile.MANAGED_KEY in a;
    assert Corefile.MANAGED_KEY in y <==> Corefile.MANAGED_KEY in b;
  }

  lemma ManagedIsServerKey()
    ensures Corefile.IsServerKey(Corefile.MANAGED_KEY)
  {
    assert Corefile.MANAGED_KEY == "zoneroute" + ".server";
  }

  // ---- which events pass

  predicate IsCoreDNS(o: Object) {
    o.namespace == "kube-system" && o.name == "coredns"
  }

  predicate IsCustom(o: Object) {
    o.namespace == "kube-system" && o.name == "coredns-custom"
  }

  /** The text read under a key, empty if there is none. */
  function TextUnder(data: ConfigMap, key: string): string {
    if key in data then data[key] else ""
  }

  /** Some key with the suffix was added, removed or changed. */
  ghost predicate ServerKeyChanged(before: ConfigMap, after: ConfigMap) {
    exists k :: HasSuffix(k, ".server") && ((k in before) != (k in after) || (k in before && k in after && before[k] != after[k]))
  }

  /** Creation and deletion pass for the two ConfigMaps and for nothing else. */
  lemma CreationPassesExactly(o: Object)
    ensures Passes(None, Some(o)) <==> IsCoreDNS(o) || IsCustom(o)
    ensures Passes(Some(o), None) <==> IsCoreDNS(o) || IsCustom(o)
  {
  }

  lemma ServerEntriesDiffer(before: ConfigMap, after: ConfigMap)
    ensures ServerEntries(before) != ServerEntries(after) <==> ServerKeyChanged(before, after)
  {
    var x, y := ServerEntries(before), ServerEntries(after);
    assert forall k :: k in x <==> k in before && HasSuffix(k, ".server");
    assert forall k :: k in y <==> k in after && HasSuffix(k, ".server");
    if !ServerKeyChanged(before, after) {
      assert x.Keys == y.Keys;
      assert x == y;
    }
    if k :| HasSuffix(k, ".server") && ((k in before) != (k in after) || (k in before && k in after && before[k] != after[k])) {
      assert (k in x) != (k in y) || x[k] != y[k];
    }
  }

  /** An update passes exactly if it is of ConfigMap coredns and changed the Corefile text read,
      or of coredns-custom and changed some server key; no update of anything else does. */
  lemma UpdatePassesExactly(before: Object, after: Object)
    ensures Passes(Some(before), Some(after)) <==>
              && before.ConfigMapObject? && after.ConfigMapObject?
              && (|| (IsCoreDNS(after) && TextUnder(before.data, "Corefile") != TextUnder(after.data, "Corefile"))
                  || (IsCustom(after) && ServerKeyChanged(before.data, after.data)))
  {
    if before.ConfigMapObject? && after.ConfigMapObject? {
      ServerEntriesDiffer(before.data, after.data);
    }
  }

  /** An event of a ZoneRoute passes exactly if it comes or goes or its generation changed. */
  lemma RoutePassesExactly(before: Option<ZoneRoute>, after: Option<ZoneRoute>)
    ensures RoutePasses(before, after) <==>
              (before.Some? != after.Some? || (before.Some? && after.Some? && before.value.generation != after.value.generation))
  {
  }

  /** A filtered update of coredns-custom changes neither any plan nor what publishing does. */
  lemma CustomFilterSound(before: ConfigMap, after: ConfigMap, items: seq<ZoneRoute>, corefile: string, domain: string, fragment: Result<string>)
    requires !CustomPasses(Some(before), Some(after))
    ensures MakePlan(items, corefile, before, domain) == MakePlan(items, corefile, after, domain)
    ensures DecidePublish(Some(before), fragment) == DecidePublish(Some(after), fragment)
  {
    SameServerEntries(before, after);
    PlanReads(items, items, corefile, before, after, domain);
  }

  /** What Reconcile reads of ConfigMap coredns. */
  function ReadCorefile(data: ConfigMap): Option<string> {
    if COREFILE_KEY in data then Some(data[COREFILE_KEY]) else None
  }

  /** A filtered update of coredns leaves what Reconcile reads as it was, exactly unless the
      Corefile switches between absent and empty. */
  lemma CoreDNSFilterSound(before: ConfigMap, after: ConfigMap)
    requires !CoreDNSPasses(Some(before), Some(after))
    ensures ReadCorefile(before) == ReadCorefile(after) <==> (COREFILE_KEY in before <==> COREFILE_KEY in after)
    ensures ReadCorefile(before) != ReadCorefile(after) ==> {ReadCorefile(before), ReadCorefile(after)} == {None, Some("")}
  {
    assert Lookup(before, COREFILE_KEY) == Lookup(after, COREFILE_KEY);
  }

  /** The controller's own patch passes the filter iff it changed the published text. */
  lemma OwnPatchPasses(cm: ConfigMap, fragment: string)
    ensures CustomPasses(Some(cm), Some(Patched(cm, fragment))) <==>
              !(Corefile.MANAGED_KEY in cm && cm[Corefile.MANAGED_KEY] == fragment)
  {
    var after := Patched(cm, fragment);
    ManagedIsServerKey();
    if Corefile.MANAGED_KEY in cm && cm[Corefile.MANAGED_KEY] == fragment {
      assert after == cm;
    } else {
      assert Corefile.MANAGED_KEY in ServerEntries(after) && ServerEntries(after)[Corefile.MANAGED_KEY] == fragment;
      assert Corefile.MANAGED_KEY in ServerEntries(cm) ==> ServerEntries(cm)[Corefile.MANAGED_KEY] == cm[Corefile.MANAGED_KEY];
    }
  }
}
