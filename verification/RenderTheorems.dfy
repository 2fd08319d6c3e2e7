/** Rendering and reading back. For routes the API server admits, the rendered text parses
    into exactly one block for each route, with the printed zones as keys and the upstreams
    in order, unless a block would begin with the bare word `import`; and inspecting it
    finds exactly the listeners of the routes' zones. */
module RenderTheorems {
  import opened Wrappers
  import opened Sorting
  import opened Strings
  import opened Net
  import opened DnsName
  import opened Caddyfile
  import opened CaddyfileTheorems
  import opened Render
  import opened RenderedText
  import opened Api

  ghost predicate ValidRoute(r: Route) {
    && ValidName(r.name)
    && r.zones != [] && (forall z | z in r.zones :: ValidZone(z))
    && (forall u | u in r.upstreams :: ValidUpstream(u))
  }

  predicate ValidUpstream(u: Upstream) {
    ValidAddress(u.address) && 0 <= u.port <= 65535
  }

  ghost predicate ValidRoutes(routes: seq<Route>) {
    forall r | r in routes :: ValidRoute(r)
  }

  // ---- the words are plain

  /** A word that means nothing special to the grammar. */
  predicate Inert(w: string) {
    Plain(w) && w != "{" && w != "}" && !HasSuffix(w, ",") && w[0] != '('
  }

  predicate InertChar(c: char) {
    Alnum(c) || c == '-' || c == '.' || c == ':' || c == '[' || c == ']'
  }

  lemma InertChars(w: string)
    requires w != "" && forall c | c in w :: InertChar(c)
    ensures Inert(w)
  {
    assert w[0] in w && w[|w| - 1] in w;
    assert w[|w| - 1..] == [w[|w| - 1]];
    assert w[0] != '{' && w[0] != '}' && w[0] != '(' && w[|w| - 1] != ',';
  }

  ghost predicate ZoneOf(k: string, zones: seq<string>) {
    exists z :: z in zones && k == TrimSuffix(Canonical(z), ".")
  }

  lemma KeyHasZone(zones: seq<string>, k: string)
    requires k in ZoneKeys(zones)
    ensures ZoneOf(k, zones)
  {
    var c := Canonicals(zones);
    var s := Sort(c, Less);
    SortElements(c, Less);
    var i :| 0 <= i < |s| && Dotless(s)[i] == k;
    assert s[i] in s;
    var j :| 0 <= j < |c| && c[j] == s[i];
    assert zones[j] in zones;
  }

  lemma ZoneHasKey(zones: seq<string>, z: string)
    requires z in zones
    ensures TrimSuffix(Canonical(z), ".") in ZoneKeys(zones)
  {
    var c := Canonicals(zones);
    var s := Sort(c, Less);
    SortElements(c, Less);
    var j :| 0 <= j < |zones| && zones[j] == z;
    assert c[j] in c;
    var i :| 0 <= i < |s| && s[i] == c[j];
    assert Dotless(s)[i] == TrimSuffix(Canonical(z), ".");
  }

  /** The printed keys are the zones' canonical forms without the dot. */
  lemma ZoneKeysSpec(zones: seq<string>)
    ensures forall k :: k in ZoneKeys(zones) <==> ZoneOf(k, zones)
    ensures |ZoneKeys(zones)| == |zones|
  {
    SortPermutes(Canonicals(zones), Less);
    assert |ZoneKeys(zones)| == |zones|;
    hide ZoneKeys;
    forall k | k in ZoneKeys(zones) ensures ZoneOf(k, zones) {
      KeyHasZone(zones, k);
    }
    forall z | z in zones ensures TrimSuffix(Canonical(z), ".") in ZoneKeys(zones) {
      ZoneHasKey(zones, z);
    }
  }

  lemma KeyInert(k: string, zones: seq<string>)
    requires ZoneOf(k, zones) && forall z | z in zones :: ValidZone(z)
    ensures Inert(k) && (forall c | c in k :: KeyChar(c))
  {
    var z :| z in zones && k == TrimSuffix(Canonical(z), ".");
    PrintedZone(z);
    InertChars(k);
  }

  lemma AddressInert(u: Upstream)
    requires ValidUpstream(u)
    ensures Inert(UpstreamAddr(u))
  {
    InertChars(UpstreamAddr(u));
  }

  lemma WordsInert(r: Route)
    requires ValidRoute(r)
    ensures forall w | w in ZoneKeys(r.zones) :: Inert(w)
    ensures forall w | w in Addresses(r.upstreams) :: Inert(w)
  {
    ZoneKeysSpec(r.zones);
    forall w | w in ZoneKeys(r.zones) ensures Inert(w) {
      KeyInert(w, r.zones);
    }
    forall w | w in Addresses(r.upstreams) ensures Inert(w) {
      var i :| 0 <= i < |r.upstreams| && Addresses(r.upstreams)[i] == w;
      assert r.upstreams[i] in r.upstreams;
      AddressInert(r.upstreams[i]);
    }
  }

  lemma LiteralWords()
    ensures Inert("forward") && Inert(".") && Inert("policy") && Inert("sequential")
    ensures Plain("{") && Plain("}")
  {
  }

  // ---- tokens of the text

  function BlockTokens(r: Route, n: nat): seq<Token> {
    WordTokens(KeyLine(r), n + 2)
    + (WordTokens(ForwardLine(r), n + 3)
    + (WordTokens(["policy", "sequential"], n + 4)
    + (WordTokens(["}"], n + 5)
    + WordTokens(["}"], n + 6))))
  }

  const BLOCK_LINES := 7

  lemma CommentHasNoNewline(r: Route)
    requires ValidRoute(r)
    ensures '\n' !in CommentLine(r) && CommentLine(r) != "" && CommentLine(r)[0] == '#'
  {
    assert forall c | c in Decimal(r.generation) :: IsDigit(c) || c == '-';
    assert '\n' !in r.name;
    assert '\n' !in "# zoneroute: " && '\n' !in " (generation " && '\n' !in ")";
  }

  lemma BlockWordsPlain(r: Route)
    requires ValidRoute(r)
    ensures KeyLine(r) != [] && AllPlain(KeyLine(r)) && ForwardLine(r) != [] && AllPlain(ForwardLine(r))
    ensures AllPlain(["policy", "sequential"]) && AllPlain(["}"])
  {
    WordsInert(r);
    LiteralWords();
  }

  lemma RunBlockHead(l: Lexer, r: Route)
    requires l.mode == Between && ValidRoute(r)
    ensures Run(Run(l, "\n"), CommentLine(r) + "\n") == l.(line := l.line + 2)
  {
    RunOne(l, '\n');
    CommentHasNoNewline(r);
    RunComment(l.(line := l.line + 1), CommentLine(r));
  }

  lemma RunBlock(l: Lexer, r: Route)
    requires l.mode == Between && ValidRoute(r)
    ensures Run(l, BlockText(r)) == Lexer(l.tokens + BlockTokens(r, l.line), l.line + BLOCK_LINES, Between)
  {
    hide LineText, WordTokens, Run, KeyLine, ForwardLine, AllPlain, CommentLine, BlockText;
    BlockAsLines(r);
    BlockWordsPlain(r);
    var t7 := LineText("", ["}"]);
    var t6 := LineText("    ", ["}"]) + t7;
    var t5 := LineText("        ", ["policy", "sequential"]) + t6;
    var t4 := LineText("    ", ForwardLine(r)) + t5;
    var t3 := LineText("", KeyLine(r)) + t4;
    RunConcat(l, "\n", (CommentLine(r) + "\n") + t3);
    RunConcat(Run(l, "\n"), CommentLine(r) + "\n", t3);
    RunBlockHead(l, r);
    RunFiveLines(l.(line := l.line + 2), KeyLine(r), ForwardLine(r), ["policy", "sequential"], ["}"], ["}"]);
  }

  lemma RunFiveLines(l: Lexer, a: seq<string>, b: seq<string>, c: seq<string>, d: seq<string>, e: seq<string>)
    requires l.mode == Between
    requires a != [] && b != [] && c != [] && d != [] && e != []
    requires AllPlain(a) && AllPlain(b) && AllPlain(c) && AllPlain(d) && AllPlain(e)
    ensures Run(l, LineText("", a) + (LineText("    ", b) + (LineText("        ", c) + (LineText("    ", d) + LineText("", e)))))
         == Lexer(l.tokens + (WordTokens(a, l.line) + (WordTokens(b, l.line + 1) + (WordTokens(c, l.line + 2)
                   + (WordTokens(d, l.line + 3) + WordTokens(e, l.line + 4))))), l.line + 5, Between)
  {
    hide LineText, WordTokens, AllPlain, Run;
    var l1 := After(l, "", a, LineText("    ", b) + (LineText("        ", c) + (LineText("    ", d) + LineText("", e))));
    var l2 := After(l1, "    ", b, LineText("        ", c) + (LineText("    ", d) + LineText("", e)));
    var l3 := After(l2, "        ", c, LineText("    ", d) + LineText("", e));
    var l4 := After(l3, "    ", d, LineText("", e));
    RunLine(l4, "", e);
    FlattenFive(l.tokens, WordTokens(a, l.line), WordTokens(b, l.line + 1), WordTokens(c, l.line + 2),
                WordTokens(d, l.line + 3), WordTokens(e, l.line + 4));
  }

  lemma FlattenFive<T>(l: seq<T>, a: seq<T>, b: seq<T>, c: seq<T>, d: seq<T>, e: seq<T>)
    ensures l + a + b + c + d + e == l + (a + (b + (c + (d + e))))
  {
  }

  /** The lexer after one line, with the rest of the text still to come. */
  lemma After(l: Lexer, indent: string, words: seq<string>, rest: string) returns (m: Lexer)
    requires l.mode == Between && words != [] && AllPlain(words)
    requires forall c | c in indent :: c == ' '
    ensures m == Lexer(l.tokens + WordTokens(words, l.line), l.line + 1, Between)
    ensures Run(l, LineText(indent, words) + rest) == Run(m, rest)
  {
    m := Lexer(l.tokens + WordTokens(words, l.line), l.line + 1, Between);
    RunLine(l, indent, words);
    RunConcat(l, LineText(indent, words), rest);
  }

  function BlocksTokens(routes: seq<Route>, n: nat): seq<Token> {
    if routes == [] then []
    else BlockTokens(routes[0], n) + BlocksTokens(routes[1..], n + BLOCK_LINES)
  }

  lemma {:induction false} BlocksTokensSnoc(routes: seq<Route>, r: Route, n: nat)
    ensures BlocksTokens(routes + [r], n) == BlocksTokens(routes, n) + BlockTokens(r, n + BLOCK_LINES * |routes|)
    decreases |routes|
  {
    hide BlockTokens;
    if routes == [] {
      assert [r][1..] == [];
      assert BlocksTokens([r], n) == BlockTokens(r, n) + [];
    } else {
      assert (routes + [r])[0] == routes[0] && (routes + [r])[1..] == routes[1..] + [r];
      BlocksTokensSnoc(routes[1..], r, n + BLOCK_LINES);
      var a, b, c := BlockTokens(routes[0], n), BlocksTokens(routes[1..], n + BLOCK_LINES), BlockTokens(r, n + BLOCK_LINES * |routes|);
      assert a + (b + c) == (a + b) + c;
    }
  }

  lemma {:induction false} RunBlocks(l: Lexer, routes: seq<Route>)
    requires l.mode == Between && ValidRoutes(routes)
    ensures Run(l, BlocksText(routes)) == Lexer(l.tokens + BlocksTokens(routes, l.line), l.line + BLOCK_LINES * |routes|, Between)
  {
    hide BlockTokens, BlockText;
    if routes == [] {
      assert l.tokens + [] == l.tokens;
    } else {
      var init, r := routes[..|routes| - 1], routes[|routes| - 1];
      RunBlocks(l, init);
      RunConcat(l, BlocksText(init), BlockText(r));
      RunBlock(Run(l, BlocksText(init)), r);
      BlocksTokensSnoc(init, r, l.line);
      assert init + [r] == routes;
      assert l.tokens + BlocksTokens(init, l.line) + BlockTokens(r, l.line + BLOCK_LINES * |init|)
          == l.tokens + (BlocksTokens(init, l.line) + BlockTokens(r, l.line + BLOCK_LINES * |init|));
    }
  }

  lemma HeaderRun()
    ensures Run(START, HEADER) == START.(line := 2)
  {
    assert '\n' !in "# Managed by ZoneRoute." && '\n' !in " Edits are overwritten.";
    RunComment(START, "# Managed by ZoneRoute." + " Edits are overwritten.");
  }

  /** The tokens of the fragment: those of its blocks, from line 2 on. */
  lemma FragmentTokens(sorted: seq<Route>)
    requires ValidRoutes(sorted)
    ensures Lex(HEADER + BlocksText(sorted)) == BlocksTokens(sorted, 2)
  {
    HeaderRun();
    RunConcat(START, HEADER, BlocksText(sorted));
    RunBlocks(START.(line := 2), sorted);
    assert [] + BlocksTokens(sorted, 2) == BlocksTokens(sorted, 2);
  }
}
