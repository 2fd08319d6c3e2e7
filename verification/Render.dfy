/** internal/render/render.go: the text of the zoneroute.server entry. */
module Render {
  import opened Wrappers
  import opened Sorting
  import opened Strings
  import opened Net
  import opened DnsName
  import opened Caddyfile

  datatype Upstream = Upstream(address: string, port: int)
  datatype Route = Route(name: string, generation: int, zones: seq<string>, upstreams: seq<Upstream>)

  const DEFAULT_PORT := 53
  const HEADER := "# Managed by ZoneRoute." + " Edits are overwritten." + "\n"
  const DOES_NOT_PARSE := "rendered fragment does not parse: "

  predicate ByName(a: Route, b: Route) {
    Less(a.name, b.name)
  }

  function EffectivePort(u: Upstream): int {
    if u.port == 0 then DEFAULT_PORT else u.port
  }

  function UpstreamAddr(u: Upstream): string {
    var port := EffectivePort(u);
    if port == DEFAULT_PORT then u.address else JoinHostPort(u.address, Decimal(port))
  }

  function Canonicals(zones: seq<string>): (r: seq<string>)
    ensures |r| == |zones|
  {
    seq(|zones|, i requires 0 <= i < |zones| => Canonical(zones[i]))
  }

  function Dotless(names: seq<string>): (r: seq<string>)
    ensures |r| == |names|
  {
    seq(|names|, i requires 0 <= i < |names| => TrimSuffix(names[i], "."))
  }

  /** Sorted in canonical form; the dot goes afterwards. */
  function ZoneKeys(zones: seq<string>): seq<string> {
    Dotless(Sort(Canonicals(zones), Less))
  }

  method SortInPlace(a: array<string>)
    modifies a
    ensures a[..] == Sort(old(a[..]), Less)
  {
    var sorted := Sort(a[..], Less);
    SortPermutes(a[..], Less);
    for i := 0 to a.Length
      invariant forall k | 0 <= k < i :: a[k] == sorted[k]
    {
      a[i] := sorted[i];
    }
    assert a[..] == sorted;
  }

  method TrimInPlace(a: array<string>)
    modifies a
    ensures a[..] == Dotless(old(a[..]))
  {
    for i := 0 to a.Length
      invariant forall k | 0 <= k < i :: a[k] == TrimSuffix(old(a[k]), ".")
      invariant forall k | i <= k < a.Length :: a[k] == old(a[k])
    {
      a[i] := TrimSuffix(a[i], ".");
    }
  }

  method ComputeZoneKeys(zones: seq<string>) returns (r: seq<string>)
    ensures r == ZoneKeys(zones)
  {
    hide Canonical, TrimSuffix;
    var keys := new string[|zones|];
    for i := 0 to |zones|
      invariant forall k | 0 <= k < i :: keys[k] == Canonical(zones[k])
    {
      keys[i] := Canonical(zones[i]);
    }
    assert keys[..] == Canonicals(zones);
    SortInPlace(keys);
    TrimInPlace(keys);
    r := keys[..];
  }

  function CommentLine(r: Route): string {
    "# zoneroute: " + r.name + " (generation " + Decimal(r.generation) + ")"
  }

  function Destinations(upstreams: seq<Upstream>): string {
    if upstreams == [] then ""
    else Destinations(upstreams[..|upstreams| - 1]) + " " + UpstreamAddr(upstreams[|upstreams| - 1])
  }

  function BlockText(r: Route): string {
    "\n"
    + CommentLine(r) + "\n"
    + Join(ZoneKeys(r.zones), " ")
    + (" {\n" + "    forward .")
    + Destinations(r.upstreams)
    + (" {\n" + ("        policy sequential\n" + ("    }\n" + "}\n")))
  }

  function BlocksText(routes: seq<Route>): string {
    if routes == [] then "" else BlocksText(routes[..|routes| - 1]) + BlockText(routes[|routes| - 1])
  }

  function FragmentText(routes: seq<Route>): string {
    HEADER + BlocksText(Sort(routes, ByName))
  }

  function Validated(fragment: string): Result<string> {
    match Parse(fragment)
    case Err(e) => Err(DOES_NOT_PARSE + e)
    case Ok(_) => Ok(fragment)
  }

  function Rendering(routes: seq<Route>): Result<string> {
    Validated(FragmentText(routes))
  }

  method WriteDestinations(upstreams: seq<Upstream>) returns (out: string)
    ensures out == Destinations(upstreams)
  {
    out := "";
    for i := 0 to |upstreams|
      invariant out == Destinations(upstreams[..i])
    {
      assert upstreams[..i + 1][..i] == upstreams[..i];
      out := out + " " + UpstreamAddr(upstreams[i]);
    }
    assert upstreams[..|upstreams|] == upstreams;
  }

  method WriteBlock(r: Route) returns (out: string)
    ensures out == BlockText(r)
  {
    var keys := ComputeZoneKeys(r.zones);
    var destinations := WriteDestinations(r.upstreams);
    out := "\n"
      + CommentLine(r) + "\n"
      + Join(keys, " ")
      + (" {\n" + "    forward .")
      + destinations
      + (" {\n" + ("        policy sequential\n" + ("    }\n" + "}\n")));
  }

  method Render(routes: seq<Route>) returns (r: Result<string>)
    ensures r == Rendering(routes)
  {
    hide BlockText, Validated;
    var sorted := Sort(routes, ByName);
    var b := HEADER;
    for i := 0 to |sorted|
      invariant b == HEADER + BlocksText(sorted[..i])
    {
      assert sorted[..i + 1][..i] == sorted[..i];
      var block := WriteBlock(sorted[i]);
      ConcatAssociative(HEADER, BlocksText(sorted[..i]), block);
      b := b + block;
    }
    assert sorted[..|sorted|] == sorted;
    r := Validated(b);
  }
}
