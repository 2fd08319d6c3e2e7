/** The objects the controller reads and writes. Time stamps of transitions are left out;
    every write of an object gives it a fresh version, as the API server does. */
module Cluster {
  import opened Wrappers
  import Render

  datatype Condition = Condition(status: bool, reason: string, message: string, observedGeneration: int)

  datatype Status = Status(observedGeneration: int, accepted: Option<Condition>, published: Option<Condition>)

  const NO_STATUS := Status(0, None, None)

  datatype ZoneRoute = ZoneRoute(
    name: string,
    created: int,
    generation: int,
    version: nat,
    zones: seq<string>,
    upstreams: seq<Render.Upstream>,
    status: Status)

  const COREFILE_KEY := "Corefile"

  type ConfigMap = map<string, string>

  /** The ZoneRoutes by name, ConfigMap coredns and ConfigMap coredns-custom. */
  datatype Store = Store(
    routes: map<string, ZoneRoute>,
    coredns: Option<ConfigMap>,
    custom: Option<ConfigMap>,
    version: nat)

  /** Everything about a route but its status and version. */
  function Core(z: ZoneRoute): ZoneRoute {
    z.(version := 0, status := NO_STATUS)
  }
}
