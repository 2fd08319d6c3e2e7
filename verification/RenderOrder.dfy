/** The rendered bytes do not depend on the order of the routes, on the order, case or
    trailing dots of a route's zones; they do keep the order of the upstreams. */
module RenderOrder {
  import opened Sorting
  import opened Strings
  import opened DnsName
  import opened Render

  /** The same route up to the spelling and order of its zones. */
  ghost predicate SameRoute(r: Route, q: Route) {
    && r.name == q.name && r.generation == q.generation && r.upstreams == q.upstreams
    && multiset(Canonicals(r.zones)) == multiset(Canonicals(q.zones))
  }

  ghost predicate UniqueNames(routes: seq<Route>) {
    forall i, j | 0 <= i < j < |routes| :: routes[i].name != routes[j].name
  }

  ghost function Names(routes: seq<Route>): set<string> {
    set r | r in routes :: r.name
  }

  /** The same routes in some order. */
  ghost predicate SameRoutes(a: seq<Route>, b: seq<Route>) {
    && Names(a) == Names(b)
    && forall r, q | r in a && q in b && r.name == q.name :: SameRoute(r, q)
  }

  lemma SameLeast(s: seq<string>, t: seq<string>)
    requires multiset(s) == multiset(t) && s != [] && t != []
    requires Sorted(s, Less) && Sorted(t, Less)
    ensures s[0] == t[0]
  {
    hide Less;
    assert s[0] in multiset(t) && t[0] in multiset(s);
    var i :| 0 <= i < |s| && s[i] == t[0];
    var j :| 0 <= j < |t| && t[j] == s[0];
    LessTotal(s[0], t[0]);
  }

  lemma {:induction false} SortedMultisetUnique(s: seq<string>, t: seq<string>)
    requires multiset(s) == multiset(t)
    requires Sorted(s, Less) && Sorted(t, Less)
    ensures s == t
  {
    hide Less;
    assert |s| == |multiset(s)| == |multiset(t)| == |t|;
    if s != [] {
      SameLeast(s, t);
      TailMultiset(s);
      TailMultiset(t);
      SortedMultisetUnique(s[1..], t[1..]);
      assert s == [s[0]] + s[1..] && t == [t[0]] + t[1..];
    }
  }

  /** Zones enter the text only through the multiset of their canonical forms. */
  lemma ZoneKeysOrderIndependent(x: seq<string>, y: seq<string>)
    requires multiset(Canonicals(x)) == multiset(Canonicals(y))
    ensures ZoneKeys(x) == ZoneKeys(y)
  {
    LessIsOrder();
    SortSorted(Canonicals(x), Less);
    SortSorted(Canonicals(y), Less);
    SortPermutes(Canonicals(x), Less);
    SortPermutes(Canonicals(y), Less);
    SortedMultisetUnique(Sort(Canonicals(x), Less), Sort(Canonicals(y), Less));
  }

  /** Respelling zones in place keeps their canonical forms. */
  lemma RespelledZones(x: seq<string>, y: seq<string>)
    requires |x| == |y|
    requires forall i | 0 <= i < |x| :: SameName(x[i], y[i]) && !HasSuffix(x[i], "..") && !HasSuffix(y[i], "..")
    ensures Canonicals(x) == Canonicals(y)
  {
    forall i | 0 <= i < |x| ensures Canonical(x[i]) == Canonical(y[i]) {
      CanonicalIdentifies(x[i], y[i]);
    }
  }

  lemma SameBlock(r: Route, q: Route)
    requires SameRoute(r, q)
    ensures BlockText(r) == BlockText(q)
  {
    ZoneKeysOrderIndependent(r.zones, q.zones);
  }

  lemma {:induction false} SameBlocks(a: seq<Route>, b: seq<Route>)
    requires |a| == |b|
    requires forall i | 0 <= i < |a| :: SameRoute(a[i], b[i])
    ensures BlocksText(a) == BlocksText(b)
    decreases |a|
  {
    hide SameRoute, BlockText;
    if a != [] {
      SameBlocks(a[..|a| - 1], b[..|b| - 1]);
      SameBlock(a[|a| - 1], b[|b| - 1]);
    }
  }

  function NameSeq(routes: seq<Route>): (r: seq<string>)
    ensures |r| == |routes|
  {
    seq(|routes|, i requires 0 <= i < |routes| => routes[i].name)
  }

  lemma SortedNames(routes: seq<Route>)
    requires UniqueNames(routes)
    ensures StrictlySorted(NameSeq(Sort(routes, ByName)), Less)
    ensures forall n :: n in NameSeq(Sort(routes, ByName)) <==> n in Names(routes)
  {
    var s := Sort(routes, ByName);
    LessIsOrder();
    forall i, j | 0 <= i < j < |routes| ensures ByName(routes[i], routes[j]) || ByName(routes[j], routes[i]) {
      LessTotal(routes[i].name, routes[j].name);
    }
    SortStrict(routes, ByName);
    SortElements(routes, ByName);
    forall n ensures n in NameSeq(s) <==> n in Names(routes) {
      if n in NameSeq(s) {
        var i :| 0 <= i < |s| && NameSeq(s)[i] == n;
        assert s[i] in routes;
      }
      if n in Names(routes) {
        var r :| r in routes && r.name == n;
        assert r in s;
        var i :| 0 <= i < |s| && s[i] == r;
        assert NameSeq(s)[i] == n;
      }
    }
  }

  /** Byte determinism: the same routes in any order, with zones in any order and spelling,
      render to the same text. */
  lemma RenderingOrderIndependent(a: seq<Route>, b: seq<Route>)
    requires UniqueNames(a) && UniqueNames(b) && SameRoutes(a, b)
    ensures FragmentText(a) == FragmentText(b)
    ensures Rendering(a) == Rendering(b)
  {
    var x, y := Sort(a, ByName), Sort(b, ByName);
    SortedNames(a);
    SortedNames(b);
    LessIsOrder();
    StrictlySortedUnique(NameSeq(x), NameSeq(y), Less);
    SortElements(a, ByName);
    SortElements(b, ByName);
    forall i | 0 <= i < |x| ensures SameRoute(x[i], y[i]) {
      assert x[i] in a && y[i] in b;
      assert NameSeq(x)[i] == NameSeq(y)[i];
    }
    SameBlocks(x, y);
  }
}
