/** internal/controller/convert.go: from API objects to the inputs of the pure packages. */
module Convert {
  import opened Wrappers
  import opened Sorting
  import opened Strings
  import opened Cluster
  import Conflict
  import Corefile
  import Render

  function ToConflictRoute(z: ZoneRoute): Conflict.Route {
    Conflict.Route(z.name, z.created, z.zones)
  }

  function ToConflictRoutes(items: seq<ZoneRoute>): (r: seq<Conflict.Route>)
    ensures |r| == |items|
  {
    seq(|items|, i requires 0 <= i < |items| => ToConflictRoute(items[i]))
  }

  method ConvertConflictRoutes(items: seq<ZoneRoute>) returns (routes: seq<Conflict.Route>)
    ensures routes == ToConflictRoutes(items)
  {
    routes := [];
    for i := 0 to |items|
      invariant routes == ToConflictRoutes(items[..i])
    {
      routes := routes + [Conflict.Route(items[i].name, items[i].created, items[i].zones)];
    }
    assert items[..|items|] == items;
  }

  // ---- listeners

  predicate ByListener(a: Conflict.Existing, b: Conflict.Existing) {
    if a.transport != b.transport then Less(a.transport, b.transport)
    else if a.zone != b.zone then Less(a.zone, b.zone)
    else if a.port != b.port then a.port < b.port
    else Less(a.source, b.source)
  }

  lemma ByListenerTotal(a: Conflict.Existing, b: Conflict.Existing)
    ensures a == b || ByListener(a, b) || ByListener(b, a)
    ensures !(ByListener(a, b) && ByListener(b, a)) && !ByListener(a, a)
  {
    LessTotal(a.transport, b.transport);
    LessTotal(a.zone, b.zone);
    LessTotal(a.source, b.source);
    LessTotal(a.source, a.source);
  }

  lemma ByListenerTransitive(a: Conflict.Existing, b: Conflict.Existing, c: Conflict.Existing)
    requires ByListener(a, b) && ByListener(b, c)
    ensures ByListener(a, c)
  {
    LessIsOrder();
    LessTotal(a.transport, b.transport);
    LessTotal(a.zone, b.zone);
  }

  lemma ByListenerIsOrder()
    ensures StrictWeakOrder(ByListener)
    ensures forall s: set<Conflict.Existing> :: Separated(ByListener, s)
  {
    hide ByListener;
    forall a ensures !ByListener(a, a) {
      ByListenerTotal(a, a);
    }
    forall a, b, c | ByListener(a, b) && ByListener(b, c) ensures ByListener(a, c) {
      ByListenerTransitive(a, b, c);
    }
    forall a, b ensures a == b || ByListener(a, b) || ByListener(b, a) {
      ByListenerTotal(a, b);
    }
    forall a, b, c | ByListener(a, c) ensures ByListener(a, b) || ByListener(b, c) {
      if ByListener(b, a) {
        ByListenerTransitive(b, a, c);
      }
    }
  }

  function ExistingOf(l: Corefile.Listener, source: string): Conflict.Existing {
    Conflict.Existing(l.transport, l.zone, l.port, source)
  }

  function ExistingSet(listeners: map<Corefile.Listener, string>): set<Conflict.Existing> {
    set l | l in listeners :: ExistingOf(l, listeners[l])
  }

  ghost function ToExisting(listeners: map<Corefile.Listener, string>): (r: seq<Conflict.Existing>)
    ensures forall e :: e in r <==> e in ExistingSet(listeners)
  {
    ByListenerIsOrder();
    SortedSet(ExistingSet(listeners), ByListener)
  }

  /** The listeners are taken from the map in an arbitrary order; sorting makes the result
      independent of it. */
  method ConvertExisting(listeners: map<Corefile.Listener, string>) returns (existing: seq<Conflict.Existing>)
    ensures existing == ToExisting(listeners)
  {
    hide ByListener;
    existing := [];
    var left := listeners.Keys;
    ghost var done: set<Corefile.Listener> := {};
    while left != {}
      invariant left + done == listeners.Keys && left !! done
      invariant forall e :: e in existing <==> exists l :: l in done && e == ExistingOf(l, listeners[l])
      invariant forall i, j | 0 <= i < j < |existing| :: existing[i] != existing[j]
      decreases |left|
    {
      var l :| l in left;
      left := left - {l};
      forall i | 0 <= i < |existing| ensures existing[i] != ExistingOf(l, listeners[l]) {
        assert existing[i] in existing;
      }
      existing := existing + [Conflict.Existing(l.transport, l.zone, l.port, listeners[l])];
      done := done + {l};
    }
    ByListenerIsOrder();
    CollectedThenSorted(existing, ExistingSet(listeners), ByListener);
    existing := Sort(existing, ByListener);
  }

  /** Each listener found is passed on with its transport, zone, port and source. */
  lemma ExistingSpec(listeners: map<Corefile.Listener, string>)
    ensures forall e :: e in ToExisting(listeners) <==>
              exists l :: l in listeners && e == Conflict.Existing(l.transport, l.zone, l.port, listeners[l])
  {
    hide ToExisting;
    forall e ensures e in ExistingSet(listeners) <==>
              exists l :: l in listeners && e == Conflict.Existing(l.transport, l.zone, l.port, listeners[l])
    {
      if e in ExistingSet(listeners) {
        var l :| l in listeners && e == ExistingOf(l, listeners[l]);
      }
      if l :| l in listeners && e == Conflict.Existing(l.transport, l.zone, l.port, listeners[l]) {
        assert e == ExistingOf(l, listeners[l]);
      }
    }
  }

  // ---- accepted routes

  function ToRenderRoute(z: ZoneRoute): Render.Route {
    Render.Route(z.name, z.generation, z.zones, z.upstreams)
  }

  function ToRenderRoutes(items: seq<ZoneRoute>, accepted: set<string>): seq<Render.Route> {
    if items == [] then
      []
    else
      var z := items[|items| - 1];
      ToRenderRoutes(items[..|items| - 1], accepted) + if z.name in accepted then [ToRenderRoute(z)] else []
  }

  method ConvertRenderRoutes(items: seq<ZoneRoute>, accepted: map<string, bool>) returns (routes: seq<Render.Route>)
    ensures routes == ToRenderRoutes(items, set n | n in accepted && accepted[n])
  {
    ghost var names := set n | n in accepted && accepted[n];
    routes := [];
    for i := 0 to |items|
      invariant routes == ToRenderRoutes(items[..i], names)
    {
      assert items[..i + 1][..i] == items[..i];
      if !(items[i].name in accepted && accepted[items[i].name]) {
        continue;
      }
      var upstreams: seq<Render.Upstream> := [];
      for k := 0 to |items[i].upstreams|
        invariant upstreams == items[i].upstreams[..k]
      {
        var u := items[i].upstreams[k];
        upstreams := upstreams + [Render.Upstream(u.address, u.port)];
      }
      assert items[i].upstreams[..|items[i].upstreams|] == items[i].upstreams;
      routes := routes + [Render.Route(items[i].name, items[i].generation, items[i].zones, upstreams)];
    }
    assert items[..|items|] == items;
  }

  lemma {:induction false} RenderRoutesMembers(items: seq<ZoneRoute>, accepted: set<string>)
    ensures forall r :: r in ToRenderRoutes(items, accepted) <==>
              exists z :: z in items && z.name in accepted && r == ToRenderRoute(z)
  {
    if items != [] {
      var init, z := items[..|items| - 1], items[|items| - 1];
      assert items == init + [z];
      RenderRoutesMembers(init, accepted);
    }
  }

  /** A route is rendered iff it is listed and accepted, with its own name, generation, zones
      and upstreams. */
  lemma RenderRoutesSpec(items: seq<ZoneRoute>, accepted: set<string>)
    ensures forall r :: r in ToRenderRoutes(items, accepted) <==>
              exists z :: z in items && z.name in accepted && r == Render.Route(z.name, z.generation, z.zones, z.upstreams)
  {
    RenderRoutesMembers(items, accepted);
    forall z | z in items ensures ToRenderRoute(z) == Render.Route(z.name, z.generation, z.zones, z.upstreams) {
    }
  }
}
