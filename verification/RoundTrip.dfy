/** Rendering followed by parsing and by inspection. */
module RoundTrip {
  import opened Wrappers
  import opened Sorting
  import opened Strings
  import opened Net
  import opened DnsName
  import opened Caddyfile
  import opened CaddyfileTheorems
  import Corefile
  import CorefileTheorems
  import opened Render
  import opened RenderedText
  import opened Api
  import opened RenderTheorems

  ghost predicate AllInert(ws: seq<string>) {
    forall w | w in ws :: Inert(w)
  }

  lemma WordTokensCons(ws: seq<string>, line: nat, rest: seq<Token>)
    requires ws != []
    ensures var toks := WordTokens(ws, line) + rest;
            toks != [] && toks[0] == Token(ws[0], line) && toks[1..] == WordTokens(ws[1..], line) + rest
  {
  }

  lemma InertKey(w: string)
    requires Inert(w)
    ensures StripComma(w) == w && w != ""
  {
  }

  // ---- parsing a block

  lemma {:induction false} TakeKeysRest(keys: seq<string>, line: nat, rest: seq<Token>)
    requires AllInert(keys)
    ensures TakeKeys(WordTokens(keys + ["{"], line) + rest, line) == Ok(Keys(keys, WordTokens(["{"], line) + rest))
    decreases |keys|
  {
    var toks := WordTokens(keys + ["{"], line) + rest;
    WordTokensCons(keys + ["{"], line, rest);
    if keys == [] {
      assert keys + ["{"] == ["{"];
    } else {
      assert keys[0] in keys;
      InertKey(keys[0]);
      assert (keys + ["{"])[1..] == keys[1..] + ["{"];
      WordTokensCons(keys[1..] + ["{"], line, rest);
      TakeKeysRest(keys[1..], line, rest);
      assert [keys[0]] + keys[1..] == keys;
    }
  }

  lemma TakeKeysLine(keys: seq<string>, line: nat, rest: seq<Token>, prev: nat)
    requires AllInert(keys) && keys != [] && prev != line
    ensures TakeKeys(WordTokens(keys + ["{"], line) + rest, prev) ==
              if keys[0] == "import" then Err(IMPORT_LEFT) else Ok(Keys(keys, WordTokens(["{"], line) + rest))
  {
    WordTokensCons(keys + ["{"], line, rest);
    assert keys[0] in keys;
    InertKey(keys[0]);
    assert (keys + ["{"])[1..] == keys[1..] + ["{"];
    WordTokensCons(keys[1..] + ["{"], line, rest);
    TakeKeysRest(keys[1..], line, rest);
    assert [keys[0]] + keys[1..] == keys;
  }

  function Prepend(ws: seq<string>, b: Option<Body>): Option<Body> {
    match b
    case None => None
    case Some(x) => Some(x.(body := ws + x.body))
  }

  lemma {:induction false} TakeBodyWords(ws: seq<string>, line: nat, rest: seq<Token>, depth: nat)
    requires AllInert(ws)
    ensures TakeBody(WordTokens(ws, line) + rest, depth) == Prepend(ws, TakeBody(rest, depth))
    decreases |ws|
  {
    if ws == [] {
      assert WordTokens(ws, line) + rest == rest;
      match TakeBody(rest, depth) {
        case None =>
        case Some(b) => assert [] + b.body == b.body;
      }
    } else {
      assert ws[0] in ws;
      WordTokensCons(ws, line, rest);
      TakeBodyWords(ws[1..], line, rest, depth);
      match TakeBody(rest, depth) {
        case None =>
        case Some(b) => assert [ws[0]] + (ws[1..] + b.body) == ws + b.body;
      }
    }
  }

  lemma TakeBodyOpen(line: nat, rest: seq<Token>, depth: nat)
    ensures TakeBody(WordTokens(["{"], line) + rest, depth) == Prepend(["{"], TakeBody(rest, depth + 1))
  {
    WordTokensCons(["{"], line, rest);
    assert WordTokens(["{"][1..], line) + rest == rest;
  }

  lemma TakeBodyClose(line: nat, rest: seq<Token>, depth: nat)
    ensures TakeBody(WordTokens(["}"], line) + rest, depth) ==
              if depth == 0 then Some(Body([], line, rest)) else Prepend(["}"], TakeBody(rest, depth - 1))
  {
    WordTokensCons(["}"], line, rest);
    assert WordTokens(["}"][1..], line) + rest == rest;
  }

  /** The body printed for a route, as the parser returns it. */
  function BodyWords(r: Route): seq<string> {
    (["forward", "."] + Addresses(r.upstreams)) + (["{"] + (["policy", "sequential"] + ["}"]))
  }

  lemma WordTokensConcat(a: seq<string>, b: seq<string>, line: nat, rest: seq<Token>)
    ensures WordTokens(a + b, line) + rest == WordTokens(a, line) + (WordTokens(b, line) + rest)
  {
  }

  lemma TakeBlockBody(r: Route, n: nat, rest: seq<Token>)
    requires ValidRoute(r)
    ensures TakeBody(WordTokens(ForwardLine(r), n + 3) + (WordTokens(["policy", "sequential"], n + 4)
                     + (WordTokens(["}"], n + 5) + (WordTokens(["}"], n + 6) + rest))), 0)
         == Some(Body(BodyWords(r), n + 6, rest))
  {
    var t7 := WordTokens(["}"], n + 6) + rest;
    var t6 := WordTokens(["}"], n + 5) + t7;
    var t5 := WordTokens(["policy", "sequential"], n + 4) + t6;
    var head := ["forward", "."] + Addresses(r.upstreams);
    LiteralWords();
    WordsInert(r);
    TakeBodyClose(n + 6, rest, 0);
    TakeBodyClose(n + 5, t7, 1);
    TakeBodyWords(["policy", "sequential"], n + 4, t6, 1);
    TakeBodyOpen(n + 3, t5, 0);
    WordTokensConcat(head, ["{"], n + 3, t5);
    TakeBodyWords(head, n + 3, WordTokens(["{"], n + 3) + t5, 0);
    assert ["}"] + [] == ["}"];
  }

  function BlockOf(r: Route): Block {
    Block(ZoneKeys(r.zones), BodyWords(r))
  }

  predicate StartsWithImport(r: Route) {
    ZoneKeys(r.zones) != [] && ZoneKeys(r.zones)[0] == "import"
  }

  lemma RegroupFive<T>(a: seq<T>, b: seq<T>, c: seq<T>, d: seq<T>, e: seq<T>, rest: seq<T>)
    ensures a + (b + (c + (d + e))) + rest == a + (b + (c + (d + (e + rest))))
  {
  }

  /** One block parsed, from the pieces the grammar takes it in. */
  lemma ParseFromPieces(toks: seq<Token>, prev: nat, keys: seq<string>, open: Token, after: seq<Token>, b: Body)
    requires toks != [] && keys != [] && !IsSnippet(keys) && open.text == "{"
    requires TakeKeys(toks, prev) == Ok(Keys(keys, [open] + after))
    requires TakeBody(after, 0) == Some(b)
    ensures ParseFrom(toks, prev) == match ParseFrom(b.rest, b.last)
                                     case Err(e) => Err(e)
                                     case Ok(bs) => Ok([Block(keys, b.body)] + bs)
  {
    hide TakeKeys, TakeBody;
    assert ([open] + after)[1..] == after;
  }

  lemma ParseFromError(toks: seq<Token>, prev: nat, e: string)
    requires toks != [] && TakeKeys(toks, prev) == Err(e)
    ensures ParseFrom(toks, prev) == Err(e)
  {
    hide TakeKeys;
  }

  lemma ParseBlock(r: Route, n: nat, rest: seq<Token>, prev: nat)
    requires ValidRoute(r) && prev < n + 2
    ensures ParseFrom(BlockTokens(r, n) + rest, prev) ==
              if StartsWithImport(r) then Err(IMPORT_LEFT)
              else match ParseFrom(rest, n + 6)
                   case Err(e) => Err(e)
                   case Ok(bs) => Ok([BlockOf(r)] + bs)
  {
    hide ZoneKeys, Addresses, WordTokens, TakeKeys, TakeBody, BodyWords, ParseFrom, ForwardLine;
    var keys := ZoneKeys(r.zones);
    var t7 := WordTokens(["}"], n + 6) + rest;
    var t6 := WordTokens(["}"], n + 5) + t7;
    var t5 := WordTokens(["policy", "sequential"], n + 4) + t6;
    var t4 := WordTokens(ForwardLine(r), n + 3) + t5;
    RegroupFive(WordTokens(KeyLine(r), n + 2), WordTokens(ForwardLine(r), n + 3), WordTokens(["policy", "sequential"], n + 4),
                WordTokens(["}"], n + 5), WordTokens(["}"], n + 6), rest);
    var toks := WordTokens(keys + ["{"], n + 2) + t4;
    assert BlockTokens(r, n) + rest == toks;
    BlockWordsInert(r);
    WordTokensCons(keys + ["{"], n + 2, t4);
    TakeKeysLine(keys, n + 2, t4, prev);
    if keys[0] == "import" {
      ParseFromError(toks, prev, IMPORT_LEFT);
    } else {
      assert keys[0] in keys;
      OneToken("{", n + 2);
      TakeBlockBody(r, n, rest);
      ParseFromPieces(toks, prev, keys, Token("{", n + 2), t4, Body(BodyWords(r), n + 6, rest));
    }
  }

  lemma OneToken(w: string, line: nat)
    ensures WordTokens([w], line) == [Token(w, line)]
  {
  }

  function BlocksOf(routes: seq<Route>): (r: seq<Block>)
    ensures |r| == |routes|
  {
    seq(|routes|, i requires 0 <= i < |routes| => BlockOf(routes[i]))
  }

  lemma BlocksOfCons(routes: seq<Route>)
    requires routes != []
    ensures BlocksOf(routes) == [BlockOf(routes[0])] + BlocksOf(routes[1..])
  {
  }

  lemma {:induction false} ParseBlocks(routes: seq<Route>, n: nat, prev: nat)
    requires ValidRoutes(routes) && prev < n + 2
    requires forall r | r in routes :: !StartsWithImport(r)
    ensures ParseFrom(BlocksTokens(routes, n), prev) == Ok(BlocksOf(routes))
    decreases |routes|
  {
    if routes != [] {
      hide BlockTokens, StartsWithImport, BlockOf, ValidRoute, ParseFrom, BlocksOf;
      assert routes[0] in routes && forall r | r in routes[1..] :: r in routes;
      ParseBlocks(routes[1..], n + BLOCK_LINES, n + 6);
      ParseBlock(routes[0], n, BlocksTokens(routes[1..], n + BLOCK_LINES), prev);
      BlocksOfCons(routes);
    }
  }

  lemma {:induction false} ParseBlocksFails(routes: seq<Route>, n: nat, prev: nat, bad: Route)
    requires ValidRoutes(routes) && prev < n + 2
    requires bad in routes && StartsWithImport(bad)
    ensures ParseFrom(BlocksTokens(routes, n), prev) == Err(IMPORT_LEFT)
    decreases |routes|
  {
    hide BlockTokens, StartsWithImport, BlockOf, ValidRoute, ParseFrom, BlocksOf;
    assert routes[0] in routes && forall r | r in routes[1..] :: r in routes;
    ParseBlock(routes[0], n, BlocksTokens(routes[1..], n + BLOCK_LINES), prev);
    if !StartsWithImport(routes[0]) {
      assert bad in routes[1..];
      ParseBlocksFails(routes[1..], n + BLOCK_LINES, n + 6, bad);
    }
  }

  lemma SortedValid(routes: seq<Route>)
    requires ValidRoutes(routes)
    ensures ValidRoutes(Sort(routes, ByName))
    ensures forall r :: r in Sort(routes, ByName) <==> r in routes
  {
    SortElements(routes, ByName);
  }

  /** Parsing the rendered text gives back one block for each route, keys and upstreams in
      their printed order, unless some block begins with `import`. */
  lemma FragmentParses(routes: seq<Route>)
    requires ValidRoutes(routes)
    ensures Parse(FragmentText(routes)) ==
              if exists r | r in routes :: StartsWithImport(r) then Err(IMPORT_LEFT) else Ok(BlocksOf(Sort(routes, ByName)))
  {
    var sorted := Sort(routes, ByName);
    SortedValid(routes);
    FragmentTokens(sorted);
    if bad: Route :| bad in routes && StartsWithImport(bad) {
      ParseBlocksFails(sorted, 2, 0, bad);
    } else {
      ParseBlocks(sorted, 2, 0);
    }
  }

  /** Rendering admitted routes fails exactly when some route's least canonical zone is the
      bare word `import`. */
  lemma RenderingSucceeds(routes: seq<Route>)
    requires ValidRoutes(routes)
    ensures Rendering(routes) ==
              if exists r | r in routes :: StartsWithImport(r) then Err(DOES_NOT_PARSE + IMPORT_LEFT)
              else Ok(FragmentText(routes))
  {
    FragmentParses(routes);
  }

  // ---- scanning a block for imports

  lemma {:induction false} ScanWords(ws: seq<string>, line: nat, rest: seq<Token>, depth: int, prev: nat)
    requires AllInert(ws)
    requires ws == [] || prev == line || ws[0] != "import"
    ensures Corefile.ScanFrom(WordTokens(ws, line) + rest, depth, prev)
         == Corefile.ScanFrom(rest, depth, if ws == [] then prev else line)
    decreases |ws|
  {
    if ws == [] {
      assert WordTokens(ws, line) + rest == rest;
    } else {
      assert ws[0] in ws;
      WordTokensCons(ws, line, rest);
      ScanWords(ws[1..], line, rest, depth, line);
    }
  }

  lemma ScanBrace(b: string, line: nat, rest: seq<Token>, depth: int, prev: nat)
    requires b == "{" || b == "}"
    ensures Corefile.ScanFrom(WordTokens([b], line) + rest, depth, prev)
         == Corefile.ScanFrom(rest, if b == "{" then depth + 1 else depth - 1, line)
  {
    WordTokensCons([b], line, rest);
    assert WordTokens([b][1..], line) + rest == rest;
  }

  lemma ScanOpenLine(ws: seq<string>, line: nat, rest: seq<Token>, depth: int, prev: nat)
    requires AllInert(ws) && ws != [] && ws[0] != "import"
    ensures Corefile.ScanFrom(WordTokens(ws + ["{"], line) + rest, depth, prev) == Corefile.ScanFrom(rest, depth + 1, line)
  {
    WordTokensConcat(ws, ["{"], line, rest);
    ScanWords(ws, line, WordTokens(["{"], line) + rest, depth, prev);
    ScanBrace("{", line, rest, depth, line);
  }

  lemma ScanFiveLines(keys: seq<string>, head: seq<string>, policy: seq<string>, n: nat, rest: seq<Token>, prev: nat)
    requires AllInert(keys) && keys != [] && keys[0] != "import"
    requires AllInert(head) && head != [] && head[0] != "import"
    requires AllInert(policy) && policy != [] && policy[0] != "import"
    ensures Corefile.ScanFrom(WordTokens(keys + ["{"], n + 2) + (WordTokens(head + ["{"], n + 3) + (WordTokens(policy, n + 4)
                              + (WordTokens(["}"], n + 5) + (WordTokens(["}"], n + 6) + rest)))), 0, prev)
         == Corefile.ScanFrom(rest, 0, n + 6)
  {
    hide WordTokens, Corefile.ScanFrom, AllInert;
    var t7 := WordTokens(["}"], n + 6) + rest;
    var t6 := WordTokens(["}"], n + 5) + t7;
    var t5 := WordTokens(policy, n + 4) + t6;
    var t4 := WordTokens(head + ["{"], n + 3) + t5;
    ScanOpenLine(keys, n + 2, t4, 0, prev);
    ScanOpenLine(head, n + 3, t5, 1, n + 2);
    ScanWords(policy, n + 4, t6, 2, n + 3);
    ScanBrace("}", n + 5, t7, 2, n + 4);
    ScanBrace("}", n + 6, rest, 1, n + 5);
  }

  lemma ScanBlock(r: Route, n: nat, rest: seq<Token>, prev: nat)
    requires ValidRoute(r) && !StartsWithImport(r)
    ensures Corefile.ScanFrom(BlockTokens(r, n) + rest, 0, prev) == Corefile.ScanFrom(rest, 0, n + 6)
  {
    hide ZoneKeys, Addresses, WordTokens, Corefile.ScanFrom, Inert, AllInert, KeyLine, ForwardLine;
    var keys, head := ZoneKeys(r.zones), ["forward", "."] + Addresses(r.upstreams);
    RegroupFive(WordTokens(KeyLine(r), n + 2), WordTokens(ForwardLine(r), n + 3), WordTokens(["policy", "sequential"], n + 4),
                WordTokens(["}"], n + 5), WordTokens(["}"], n + 6), rest);
    BlockWordsInert(r);
    ScanFiveLines(keys, head, ["policy", "sequential"], n, rest, prev);
  }

  lemma BlockWordsInert(r: Route)
    requires ValidRoute(r)
    ensures AllInert(ZoneKeys(r.zones)) && ZoneKeys(r.zones) != []
    ensures AllInert(["forward", "."] + Addresses(r.upstreams)) && AllInert(["policy", "sequential"])
    ensures KeyLine(r) == ZoneKeys(r.zones) + ["{"] && ForwardLine(r) == ["forward", "."] + Addresses(r.upstreams) + ["{"]
  {
    WordsInert(r);
    LiteralWords();
    ZoneKeysSpec(r.zones);
  }

  lemma {:induction false} ScanBlocks(routes: seq<Route>, n: nat, prev: nat)
    requires ValidRoutes(routes)
    requires forall r | r in routes :: !StartsWithImport(r)
    ensures Corefile.ScanFrom(BlocksTokens(routes, n), 0, prev) == Corefile.Scan([], {})
    decreases |routes|
  {
    if routes != [] {
      hide BlockTokens, StartsWithImport, ValidRoute, Corefile.ScanFrom;
      assert routes[0] in routes && forall r | r in routes[1..] :: r in routes;
      ScanBlock(routes[0], n, BlocksTokens(routes[1..], n + BLOCK_LINES), prev);
      ScanBlocks(routes[1..], n + BLOCK_LINES, n + 6);
    }
  }

  ghost predicate Renderable(routes: seq<Route>) {
    ValidRoutes(routes) && forall r | r in routes :: !StartsWithImport(r)
  }

  lemma FragmentHasNoImports(routes: seq<Route>)
    requires Renderable(routes)
    ensures Corefile.ScanFrom(Lex(FragmentText(routes)), 0, 0) == Corefile.Scan([], {})
    ensures Corefile.WithoutImports(FragmentText(routes)) == FragmentText(routes)
  {
    var text := FragmentText(routes);
    SortedValid(routes);
    FragmentTokens(Sort(routes, ByName));
    ScanBlocks(Sort(routes, ByName), 2, 0);
    JoinSplit(text, '\n');
    assert Corefile.ImportLines([]) == {};
    assert Blanked(Split(text, '\n'), 1, {}) == Split(text, '\n');
  }

  // ---- listeners of the fragment

  function ZoneListener(zone: string): Corefile.Listener {
    Corefile.Listener("dns", Canonical(zone), 53)
  }

  /** The listeners of the routes' zones. */
  function FragmentListeners(routes: seq<Route>): set<Corefile.Listener> {
    set r, z | r in routes && z in r.zones :: ZoneListener(z)
  }

  lemma NoColonNoScheme(k: string)
    ensures Find(k, "://").Some? ==> ':' in k
  {
    var f := Find(k, "://");
    if f.Some? {
      assert k[f.value..f.value + 3][0] == k[f.value];
      assert k[f.value] in k;
    }
  }

  lemma PlainKeyParses(k: string)
    requires ':' !in k
    ensures Corefile.ParseKey(k) == Ok(Corefile.Listener("dns", Canonical(k), 53))
  {
    NoColonNoScheme(k);
    assert LastIndexOf(k, ':') == 0;
  }

  lemma PrintedKeyParses(k: string, zones: seq<string>) returns (z: string)
    requires ZoneOf(k, zones) && forall z | z in zones :: ValidZone(z)
    ensures z in zones && k == TrimSuffix(Canonical(z), ".")
    ensures Corefile.ParseKey(k) == Ok(ZoneListener(z))
  {
    hide Corefile.ParseKey, Canonical, TrimSuffix;
    z :| z in zones && k == TrimSuffix(Canonical(z), ".");
    PrintedZone(z);
    PlainKeyParses(k);
  }

  lemma {:induction false} BlockKeysOf(routes: seq<Route>)
    ensures forall k :: k in Corefile.BlockKeys(BlocksOf(routes)) <==> exists r :: r in routes && k in ZoneKeys(r.zones)
    decreases |routes|
  {
    hide ZoneKeys, BodyWords;
    if routes != [] {
      BlocksOfCons(routes);
      BlockKeysOf(routes[1..]);
      assert routes == [routes[0]] + routes[1..];
      assert BlocksOf(routes)[1..] == BlocksOf(routes[1..]);
    }
  }

  ghost predicate KeysOf(keys: seq<string>, routes: seq<Route>) {
    forall k :: k in keys <==> exists r :: r in routes && k in ZoneKeys(r.zones)
  }

  lemma KeyHasListener(routes: seq<Route>, r: Route, k: string)
    requires ValidRoutes(routes) && r in routes && k in ZoneKeys(r.zones)
    ensures Corefile.ParseKey(k).Ok? && Corefile.ParseKey(k).value in FragmentListeners(routes)
  {
    hide ZoneKeys, Corefile.ParseKey;
    ZoneKeysSpec(r.zones);
    assert ValidRoute(r);
    var z := PrintedKeyParses(k, r.zones);
  }

  lemma ListenerHasKey(routes: seq<Route>, keys: seq<string>, l: Corefile.Listener)
    requires ValidRoutes(routes) && KeysOf(keys, routes) && l in FragmentListeners(routes)
    ensures CorefileTheorems.KeysDefine(keys, l)
  {
    hide ZoneKeys, Corefile.ParseKey;
    var r, z :| r in routes && z in r.zones && l == ZoneListener(z);
    ZoneKeysSpec(r.zones);
    assert ValidRoute(r);
    var k := TrimSuffix(Canonical(z), ".");
    assert ZoneOf(k, r.zones);
    var z' := PrintedKeyParses(k, r.zones);
    PrintedZone(z);
    PrintedZone(z');
    assert k in keys;
  }

  lemma FragmentKeysDefine(routes: seq<Route>, keys: seq<string>)
    requires ValidRoutes(routes) && KeysOf(keys, routes)
    ensures CorefileTheorems.KeysParse(keys)
    ensures forall l :: CorefileTheorems.KeysDefine(keys, l) <==> l in FragmentListeners(routes)
  {
    hide ZoneKeys, Corefile.ParseKey, FragmentListeners, ValidRoutes;
    forall k | k in keys ensures Corefile.ParseKey(k).Ok? && Corefile.ParseKey(k).value in FragmentListeners(routes) {
      var r :| r in routes && k in ZoneKeys(r.zones);
      KeyHasListener(routes, r, k);
    }
    forall l | l in FragmentListeners(routes) ensures CorefileTheorems.KeysDefine(keys, l) {
      ListenerHasKey(routes, keys, l);
    }
  }

  /** The fragment reads without error and defines exactly its routes' listeners. */
  lemma FragmentDefines(routes: seq<Route>)
    requires Renderable(routes)
    ensures CorefileTheorems.Readable(FragmentText(routes))
    ensures forall l :: CorefileTheorems.Defines(FragmentText(routes), l) <==> l in FragmentListeners(routes)
  {
    var sorted := Sort(routes, ByName);
    FragmentHasNoImports(routes);
    FragmentParses(routes);
    SortedValid(routes);
    BlockKeysOf(sorted);
    FragmentKeysDefine(routes, Corefile.BlockKeys(BlocksOf(sorted)));
  }

  /** Rendering and inspecting undo each other: the inspector finds in the rendered text
      exactly the routes' zones on ZoneRoute's listener, no wiring and no import. */
  lemma RenderedThenInspected(routes: seq<Route>)
    requires Renderable(routes)
    ensures Rendering(routes).Ok?
    ensures Corefile.Inspection(Rendering(routes).value, map[]) ==
              Ok(Corefile.Inspected(map l | l in FragmentListeners(routes) :: Corefile.COREFILE_SOURCE, false, []))
  {
    hide FragmentText, FragmentListeners, Corefile.SourceInspection, Corefile.Inspection, Rendering;
    RenderingSucceeds(routes);
    FragmentInspected(routes, Corefile.COREFILE_SOURCE, map[]);
    InspectAlone(FragmentText(routes));
    var ls := map l | l in FragmentListeners(routes) :: Corefile.COREFILE_SOURCE;
    assert ls + map[] == ls;
  }

  lemma InspectAlone(text: string)
    requires Corefile.SourceInspection(Corefile.COREFILE_SOURCE, text, map[]).Ok?
    ensures var v := Corefile.SourceInspection(Corefile.COREFILE_SOURCE, text, map[]).value;
            Corefile.Inspection(text, map[]) == Ok(Corefile.Inspected(v.listeners, v.wired, v.unresolved))
  {
    hide Corefile.SourceInspection;
    HasElement(Corefile.SortedSeq(Corefile.ReadKeys(map[])));
  }

  /** The same in any place among the sources: the fragment contributes its routes'
      listeners under its own name, and nothing else. */
  lemma FragmentInspected(routes: seq<Route>, source: string, m: map<Corefile.Listener, string>)
    requires Renderable(routes)
    ensures Corefile.SourceInspection(source, FragmentText(routes), m) ==
              Ok(Corefile.SourceView((map l | l in FragmentListeners(routes) :: source) + m, [], false))
  {
    var text := FragmentText(routes);
    FragmentDefines(routes);
    FragmentIsSilent(routes, source);
    CorefileTheorems.SourceSpec(source, text, m);
    hide *;
    MergedListeners(Corefile.SourceInspection(source, text, m).value.listeners, m, FragmentListeners(routes), source);
  }

  lemma FragmentIsSilent(routes: seq<Route>, source: string)
    requires Renderable(routes)
    ensures CorefileTheorems.UnresolvedIn(source, FragmentText(routes)) == []
    ensures !CorefileTheorems.WiredIn(source, FragmentText(routes))
  {
    FragmentHasNoImports(routes);
  }

  lemma MergedListeners(ls: map<Corefile.Listener, string>, m: map<Corefile.Listener, string>, added: set<Corefile.Listener>, source: string)
    requires forall l :: l in ls <==> l in m || l in added
    requires forall l | l in ls :: ls[l] == if l in m then m[l] else source
    ensures ls == (map l | l in added :: source) + m
  {
  }

  // ---- destinations

  /** How a destination is read: host and port if it has both, else an address on the
      default port. */
  function DecodeDestination(token: string): Option<(string, int)> {
    match SplitHostPort(token)
    case Err(_) => Some((token, DEFAULT_PORT))
    case Ok(hp) =>
      match Atoi(hp.port)
      case None => None
      case Some(port) => Some((hp.host, port))
  }

  /** A printed destination reads back as the address and its effective port. */
  lemma DestinationDecodes(u: Upstream)
    requires ValidUpstream(u)
    ensures DecodeDestination(UpstreamAddr(u)) == Some((u.address, EffectivePort(u)))
    ensures EffectivePort(u) == if u.port == 0 then 53 else u.port
  {
    var a, port := u.address, EffectivePort(u);
    assert a[0] in a;
    if port == DEFAULT_PORT {
      if ':' in a {
        var i, j := LastIndexOf(a, ':'), IndexOf(a, ':');
        assert a[..i - 1][j] == ':';
      } else {
        assert LastIndexOf(a, ':') == 0;
      }
    } else {
      AtoiItoa(port);
      SplitJoinHostPort(a, Decimal(port));
    }
  }

  /** Port 53, given or implied, is left out; any other port follows the address, which is put
      in brackets if it is an IPv6 one. */
  lemma DestinationExactly(u: Upstream)
    requires ValidUpstream(u)
    ensures UpstreamAddr(u)
         == if u.port == 0 || u.port == 53 then u.address
            else if ':' in u.address then "[" + u.address + "]:" + Itoa(u.port)
            else u.address + ":" + Itoa(u.port)
  {
  }

  /** Different destinations never print alike. */
  lemma DestinationsInjective(u: Upstream, v: Upstream)
    requires ValidUpstream(u) && ValidUpstream(v)
    requires UpstreamAddr(u) == UpstreamAddr(v)
    ensures u.address == v.address && EffectivePort(u) == EffectivePort(v)
  {
    DestinationDecodes(u);
    DestinationDecodes(v);
  }

  /** The destinations of a parsed block: the words between `forward .` and the policy. */
  function BlockDestinations(b: Block): seq<Option<(string, int)>> {
    if |b.body| < 6 then []
    else seq(|b.body| - 6, i requires 0 <= i < |b.body| - 6 => DecodeDestination(b.body[i + 2]))
  }

  lemma BodyWordsAt(r: Route)
    ensures |BodyWords(r)| == |r.upstreams| + 6
    ensures forall k | 0 <= k < |r.upstreams| :: BodyWords(r)[k + 2] == UpstreamAddr(r.upstreams[k])
  {
    hide UpstreamAddr;
    var head, tail := ["forward", "."] + Addresses(r.upstreams), ["{"] + (["policy", "sequential"] + ["}"]);
    assert BodyWords(r) == head + tail;
    assert forall k | 0 <= k < |r.upstreams| :: head[k + 2] == UpstreamAddr(r.upstreams[k]);
  }

  lemma BlockDecodes(r: Route)
    requires ValidRoute(r)
    ensures |BlockDestinations(BlockOf(r))| == |r.upstreams|
    ensures forall k | 0 <= k < |r.upstreams| ::
              BlockDestinations(BlockOf(r))[k] == Some((r.upstreams[k].address, EffectivePort(r.upstreams[k])))
  {
    hide DecodeDestination, UpstreamAddr, BodyWords, ZoneKeys, ValidUpstream;
    BodyWordsAt(r);
    forall k | 0 <= k < |r.upstreams|
      ensures DecodeDestination(UpstreamAddr(r.upstreams[k])) == Some((r.upstreams[k].address, EffectivePort(r.upstreams[k])))
    {
      assert r.upstreams[k] in r.upstreams;
      DestinationDecodes(r.upstreams[k]);
    }
  }

  /** Everything the fragment says can be read back from its text: for each route in the
      order of the names, its zones and its upstreams in their given order. */
  lemma FragmentDecodes(routes: seq<Route>)
    requires Renderable(routes)
    ensures Parse(FragmentText(routes)).Ok?
    ensures var sorted, blocks := Sort(routes, ByName), Parse(FragmentText(routes)).value;
            && |blocks| == |sorted|
            && forall i | 0 <= i < |sorted| ::
                 && blocks[i].keys == ZoneKeys(sorted[i].zones)
                 && |BlockDestinations(blocks[i])| == |sorted[i].upstreams|
                 && forall k | 0 <= k < |sorted[i].upstreams| ::
                      BlockDestinations(blocks[i])[k] == Some((sorted[i].upstreams[k].address, EffectivePort(sorted[i].upstreams[k])))
  {
    var sorted := Sort(routes, ByName);
    FragmentParses(routes);
    SortedValid(routes);
    hide BlockDestinations;
    forall i | 0 <= i < |sorted|
      ensures |BlockDestinations(BlockOf(sorted[i]))| == |sorted[i].upstreams|
      ensures forall k | 0 <= k < |sorted[i].upstreams| ::
                BlockDestinations(BlockOf(sorted[i]))[k] == Some((sorted[i].upstreams[k].address, EffectivePort(sorted[i].upstreams[k])))
    {
      assert sorted[i] in sorted;
      BlockDecodes(sorted[i]);
    }
  }

  // ---- a zone that cannot be rendered

  lemma FirstKeyIsLeast(zones: seq<string>, z: string)
    requires z in zones
    requires forall y | y in zones :: !Less(Canonical(y), Canonical(z))
    ensures ZoneKeys(zones) != [] && ZoneKeys(zones)[0] == TrimSuffix(Canonical(z), ".")
  {
    var c := Canonicals(zones);
    var s := Sort(c, Less);
    LessIsOrder();
    SortSorted(c, Less);
    SortElements(c, Less);
    SortPermutes(c, Less);
    var j :| 0 <= j < |zones| && zones[j] == z;
    assert c[j] in c && c[j] in s;
    var i :| 0 <= i < |s| && s[i] == c[j];
    assert s[0] in s;
    var k :| 0 <= k < |c| && c[k] == s[0];
    assert zones[k] in zones;
    LessTotal(s[0], Canonical(z));
  }

  /** The keys ascend in their dotted, canonical form. */
  lemma ZoneKeysAscend(zones: seq<string>)
    ensures forall i, j | 0 <= i < j < |ZoneKeys(zones)| :: !Less(ZoneKeys(zones)[j] + ".", ZoneKeys(zones)[i] + ".")
  {
    hide Less, Canonical, TrimSuffix;
    var c, keys := Canonicals(zones), ZoneKeys(zones);
    var s := Sort(c, Less);
    LessIsOrder();
    SortSorted(c, Less);
    SortElements(c, Less);
    forall i | 0 <= i < |keys| ensures keys[i] + "." == s[i] {
      assert s[i] in s && s[i] in c;
      var k :| 0 <= k < |c| && c[k] == s[i];
      DottedBack(zones[k]);
    }
  }

  const IMPORT_ZONE := "import."

  /** The least of the zones, in canonical form, is the bare name `import`. */
  ghost predicate LeastIsImport(zones: seq<string>) {
    && (exists z :: z in zones && Canonical(z) == IMPORT_ZONE)
    && (forall y | y in zones :: !Less(Canonical(y), IMPORT_ZONE))
  }

  lemma LeastKey(zones: seq<string>) returns (z: string)
    requires zones != []
    ensures z in zones && forall y | y in zones :: !Less(Canonical(y), Canonical(z))
    ensures ZoneKeys(zones) != [] && ZoneKeys(zones)[0] + "." == Canonical(z)
  {
    hide ZoneKeys, Canonical, TrimSuffix;
    z := LeastZone(zones);
    FirstKeyIsLeast(zones, z);
    DottedBack(z);
  }

  lemma DotApart(a: string, b: string)
    requires a + "." == b + "."
    ensures a == b
  {
    assert (a + ".")[..|a|] == a && (b + ".")[..|b|] == b;
  }

  /** A block begins with `import` exactly if that is its least zone. */
  lemma ImportLeads(r: Route)
    ensures StartsWithImport(r) <==> LeastIsImport(r.zones)
  {
    hide ZoneKeys, Canonical, Less;
    if r.zones == [] {
      NoKeys();
    } else {
      var z := LeastKey(r.zones);
      assert IMPORT_ZONE == "import" + ".";
      if LeastIsImport(r.zones) {
        var y :| y in r.zones && Canonical(y) == IMPORT_ZONE;
        LessTotal(Canonical(y), Canonical(z));
        DotApart(ZoneKeys(r.zones)[0], "import");
      }
    }
  }

  lemma NoKeys()
    ensures ZoneKeys([]) == []
  {
  }

  lemma DottedBack(z: string)
    ensures TrimSuffix(Canonical(z), ".") + "." == Canonical(z)
  {
    assert Canonical(z)[|Canonical(z)| - 1..] == ".";
  }

  lemma {:induction false} LeastZone(zones: seq<string>) returns (z: string)
    requires zones != []
    ensures z in zones && forall y | y in zones :: !Less(Canonical(y), Canonical(z))
  {
    hide Less, Canonical;
    assert zones == [zones[0]] + zones[1..];
    z := zones[0];
    LessIsOrder();
    if |zones| > 1 {
      var m := LeastZone(zones[1..]);
      if Less(Canonical(m), Canonical(z)) {
        z := m;
      }
    }
  }

  lemma ImportIsZone()
    ensures ValidZone("import")
  {
    assert TrimSuffix("import", ".") == "import";
    hide Split, TrimSuffix;
    SplitAtom("import", '.');
    assert ValidLabel("import");
  }

  /** A route whose least zone is `import` is admitted by the API server all the same, and no
      list containing it can be rendered. */
  lemma ImportZoneCannotBeRendered(routes: seq<Route>, r: Route)
    requires ValidRoutes(routes) && r in routes && LeastIsImport(r.zones)
    ensures Rendering(routes) == Err(DOES_NOT_PARSE + IMPORT_LEFT)
    ensures ValidZone("import")
  {
    hide ZoneKeys, Rendering, Canonical;
    assert ValidRoute(r);
    ImportLeads(r);
    RenderingSucceeds(routes);
    ImportIsZone();
  }

  lemma ImportIsPrintedAsIs()
    ensures TrimSuffix(Canonical("import"), ".") == "import"
  {
    assert ToLower("import") == "import";
    assert Canonical("import") == "import" + ".";
    assert TrimSuffix("import" + ".", ".") == "import";
  }

  // ---- a text of one word

  lemma OneWordLexed(k: string)
    requires Inert(k)
    ensures Lex(k) == [Token(k, 1)]
  {
    RunWord(START, k);
  }

  lemma OneWordScanned(k: string)
    requires Inert(k)
    ensures Corefile.WithoutImports(k) == k
    ensures Corefile.ScanFrom(Lex(k), 0, 0).imports == []
  {
    OneWordLexed(k);
    var toks := [Token(k, 1)];
    assert toks[1..] == [];
    Corefile.ScanEnd(0, 1);
    assert Corefile.ScanFrom(toks, 0, 0).imports == [];
    assert Corefile.ImportLines([]) == {};
    assert Blanked(Split(k, '\n'), 1, {}) == Split(k, '\n');
    JoinSplit(k, '\n');
  }

  lemma OneWordParsed(k: string)
    requires Inert(k) && k != "import"
    ensures Parse(k) == Ok([Block([k], [])])
  {
    hide Inert;
    OneWordLexed(k);
    InertKey(k);
    InertIsNoBrace(k);
    var toks := [Token(k, 1)];
    assert toks[1..] == [];
    assert TakeKeys([], 1) == Ok(Keys([], []));
    assert [k] + [] == [k];
    assert TakeKeys(toks, 0) == Ok(Keys([k], []));
  }

  lemma InertIsNoBrace(k: string)
    requires Inert(k)
    ensures k != "{" && k != "}"
  {
  }

  /** One plain word is a whole Caddyfile: a server of that name. */
  lemma WordDefines(k: string)
    requires Inert(k) && k != "import" && ':' !in k
    ensures CorefileTheorems.Readable(k)
    ensures forall l :: CorefileTheorems.Defines(k, l) <==> l == ZoneListener(k)
  {
    OneWordScanned(k);
    OneWordParsed(k);
    PlainKeyParses(k);
    hide Corefile.ParseKey, Corefile.WithoutImports, Parse, Canonical;
    assert [Block([k], [])][1..] == [];
    assert Corefile.BlockKeys([Block([k], [])]) == [k] + Corefile.BlockKeys([]) == [k];
    assert k in [k];
  }
}
