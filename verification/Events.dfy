/** internal/controller/predicates.go: which ConfigMap events start a run. */
module Events {
  import opened Wrappers
  import opened Strings
  import opened Cluster
  import Corefile

  const COREDNS_NAMESPACE := "kube-system"
  const COREFILE_CONFIG_MAP := "coredns"
  const INTEGRATION_CONFIG_MAP := "coredns-custom"

  datatype Object =
    | ConfigMapObject(namespace: string, name: string, data: ConfigMap)
    | OtherObject(namespace: string, name: string)

  predicate IsWatchedConfigMap(obj: Object) {
    && obj.namespace == COREDNS_NAMESPACE
    && (obj.name == COREFILE_CONFIG_MAP || obj.name == INTEGRATION_CONFIG_MAP)
  }

  /** A lookup of a key that may be absent, which then reads as empty. */
  function Lookup(data: ConfigMap, key: string): string {
    if key in data then data[key] else ""
  }

  function ServerEntries(data: ConfigMap): ConfigMap {
    map k | k in data && Corefile.IsServerKey(k) :: data[k]
  }

  method ComputeServerEntries(data: ConfigMap) returns (out: ConfigMap)
    ensures out == ServerEntries(data)
  {
    out := map[];
    var left := data.Keys;
    while left != {}
      invariant left <= data.Keys
      invariant out == map k | k in data && k !in left && Corefile.IsServerKey(k) :: data[k]
      decreases |left|
    {
      var k :| k in left;
      left := left - {k};
      if HasSuffix(k, ".server") {
        out := out[k := data[k]];
      }
    }
  }

  /** Whether an update touched data the controller reads. */
  predicate ConfigMapDataChanged(before: Object, after: Object) {
    && IsWatchedConfigMap(after)
    && before.ConfigMapObject? && after.ConfigMapObject?
    && if after.name == COREFILE_CONFIG_MAP
       then Lookup(before.data, COREFILE_KEY) != Lookup(after.data, COREFILE_KEY)
       else ServerEntries(before.data) != ServerEntries(after.data)
  }

  /** Creation and deletion of a watched ConfigMap always pass; an update passes if it
      changed the data. */
  predicate Passes(before: Option<Object>, after: Option<Object>) {
    match (before, after)
    case (None, Some(o)) => IsWatchedConfigMap(o)
    case (Some(o), None) => IsWatchedConfigMap(o)
    case (Some(b), Some(a)) => ConfigMapDataChanged(b, a)
    case (None, None) => false
  }

  function CoreDNSObject(data: ConfigMap): Object {
    ConfigMapObject(COREDNS_NAMESPACE, COREFILE_CONFIG_MAP, data)
  }

  function CustomObject(data: ConfigMap): Object {
    ConfigMapObject(COREDNS_NAMESPACE, INTEGRATION_CONFIG_MAP, data)
  }

  function Mapped(f: ConfigMap -> Object, cm: Option<ConfigMap>): Option<Object> {
    match cm
    case None => None
    case Some(data) => Some(f(data))
  }

  /** The event of a change to ConfigMap coredns. */
  predicate CoreDNSPasses(before: Option<ConfigMap>, after: Option<ConfigMap>) {
    Passes(Mapped(CoreDNSObject, before), Mapped(CoreDNSObject, after))
  }

  /** The event of a change to ConfigMap coredns-custom. */
  predicate CustomPasses(before: Option<ConfigMap>, after: Option<ConfigMap>) {
    Passes(Mapped(CustomObject, before), Mapped(CustomObject, after))
  }

  /** The generation-changed predicate on ZoneRoutes. */
  predicate RoutePasses(before: Option<ZoneRoute>, after: Option<ZoneRoute>) {
    match (before, after)
    case (Some(b), Some(a)) => b.generation != a.generation
    case (None, None) => false
    case _ => true
  }
}
