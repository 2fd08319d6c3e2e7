/** A text that opens a server block by importing its own snippet: the inspector neither finds
    the listener nor reports the import. */
module SnippetText {
  import opened Wrappers
  import opened Strings
  import opened Caddyfile
  import opened CaddyfileTheorems
  import opened Corefile
  import opened CorefileTheorems
  import opened RenderedText
  import opened Openings
  import RoundTrip

  const TEXT := "(s) {\n" + ("ab {\n" + ("}\n" + ("}\n" + "import s\n")))

  // ---- the tokens of the text

  const BODY: seq<Token> := [Token("ab", 2), Token("{", 2), Token("}", 3)]
  const DEFINITION: seq<Token> := [Token("(s)", 1), Token("{", 1)] + BODY + [Token("}", 4)]
  const TOKENS: seq<Token> := DEFINITION + [Token("import", 5), Token("s", 5)]

  lemma RunWordsLine(toks: seq<Token>, n: nat, words: seq<string>, line: string)
    requires AllPlain(words) && words != [] && line == Join(words, " ") + "\n"
    ensures Run(Lexer(toks, n, Between), line) == Lexer(toks + WordTokens(words, n), n + 1, Between)
  {
    RunWords(Lexer(toks, n, Between), words);
  }

  lemma Lexed()
    ensures Lex(TEXT) == TOKENS
  {
    hide Run, Join, WordTokens;
    var t2, t3, t4, t5 := "ab {\n" + ("}\n" + ("}\n" + "import s\n")), "}\n" + ("}\n" + "import s\n"), "}\n" + "import s\n", "import s\n";
    RunConcat(START, "(s) {\n", t2);
    TwoWords("(s)", "{");
    RunWordsLine([], 1, ["(s)", "{"], "(s) {\n");
    var a := WordTokens(["(s)", "{"], 1);
    RunConcat(Lexer([] + a, 2, Between), "ab {\n", t3);
    TwoWords("ab", "{");
    RunWordsLine([] + a, 2, ["ab", "{"], "ab {\n");
    var b := WordTokens(["ab", "{"], 2);
    RunConcat(Lexer([] + a + b, 3, Between), "}\n", t4);
    JoinOne("}", " ");
    RunWordsLine([] + a + b, 3, ["}"], "}\n");
    var c := WordTokens(["}"], 3);
    RunConcat(Lexer([] + a + b + c, 4, Between), "}\n", t5);
    RunWordsLine([] + a + b + c, 4, ["}"], "}\n");
    var d := WordTokens(["}"], 4);
    TwoWords("import", "s");
    RunWordsLine([] + a + b + c + d, 5, ["import", "s"], "import s\n");
    WordsAsTokens();
    assert Lex(TEXT) == [] + a + b + c + d + WordTokens(["import", "s"], 5);
  }

  lemma TwoWords(a: string, b: string)
    ensures Join([a, b], " ") == a + " " + b
  {
    JoinOne(b, " ");
    assert [a, b][1..] == [b];
  }

  lemma WordsAsTokens()
    ensures WordTokens(["(s)", "{"], 1) == [Token("(s)", 1), Token("{", 1)]
    ensures WordTokens(["ab", "{"], 2) == [Token("ab", 2), Token("{", 2)]
    ensures WordTokens(["}"], 3) == [Token("}", 3)] && WordTokens(["}"], 4) == [Token("}", 4)]
    ensures WordTokens(["import", "s"], 5) == [Token("import", 5), Token("s", 5)]
  {
  }

  // ---- as the inspector reads it

  lemma Scanned()
    ensures ScanFrom(TOKENS, 0, 0) == Scan([ImportStmt(5, "s", 0)], {"s"})
  {
    hide ScanFrom;
    var s := TOKENS;
    assert s[0..] == s && s[8..] == [];
    ScanEnd(0, 5);
    ScanAt(s, 6, 0, 4);
    ScanAt(s, 5, 1, 3);
    ScanAt(s, 4, 2, 2);
    ScanAt(s, 3, 1, 2);
    ScanAt(s, 2, 1, 1);
    ScanAt(s, 1, 0, 1);
    ScanAt(s, 0, 0, 0);
    assert "(s)"[1..2] == "s";
    assert {} + {"s"} == {"s"};
  }

  lemma Blanks()
    ensures Lex(WithoutImports(TEXT)) == DEFINITION
    ensures Tidy(TEXT)
  {
    hide Lex, ScanFrom, LinesUncut;
    Lexed();
    Scanned();
    OneLine();
    QuoteFreeUncut(TEXT, {5});
    BlankingDropsLines(TEXT, {5});
    Dropped();
    Alone();
  }

  lemma OneLine()
    ensures ImportLines([ImportStmt(5, "s", 0)]) == {5}
  {
    assert ImportStmt(5, "s", 0) in [ImportStmt(5, "s", 0)];
  }

  lemma Dropped()
    ensures DropLines(TOKENS, {5}) == DEFINITION
  {
    hide DropLines;
    DropConcat(DEFINITION, [Token("import", 5), Token("s", 5)], {5});
    DropAll([Token("import", 5), Token("s", 5)], 5, {5});
    KeepAll(DEFINITION, {5});
  }

  lemma {:induction false} KeepAll(toks: seq<Token>, dropped: set<nat>)
    requires forall t | t in toks :: t.line !in dropped
    ensures DropLines(toks, dropped) == toks
  {
    if toks != [] {
      assert toks[0] in toks && toks == [toks[0]] + toks[1..];
      KeepAll(toks[1..], dropped);
    }
  }

  lemma Alone()
    ensures AloneOnLine(TOKENS, 0)
  {
    var s := TOKENS;
    assert s[1..][1..] == s[2..] && s[2..][1..] == s[3..] && s[3..][1..] == s[4..] && s[4..][1..] == s[5..] && s[5..][1..] == s[6..];
    assert s[6..] == [Token("import", 5), Token("s", 5)] && s[6..][2..] == [];
    assert AloneOnLine(s[6..], 4);
    assert AloneOnLine(s[5..], 3);
    assert AloneOnLine(s[4..], 2);
    assert AloneOnLine(s[3..], 2);
    assert AloneOnLine(s[2..], 1);
    assert AloneOnLine(s[1..], 1);
  }

  lemma BodyTaken(rest: seq<Token>)
    ensures TakeBody(BODY + [Token("}", 4)] + rest, 0) == Some(Body(["ab", "{", "}"], 4, rest))
  {
    var s := BODY + [Token("}", 4)] + rest;
    assert s[1..][1..] == s[2..] && s[2..][1..] == s[3..] && s[3..][1..] == rest;
    assert ["}"] + [] == ["}"] && ["{"] + ["}"] == ["{", "}"] && ["ab"] + ["{", "}"] == ["ab", "{", "}"];
    assert TakeBody(s[3..], 0) == Some(Body([], 4, rest));
    assert TakeBody(s[2..], 1) == Some(Body(["}"], 4, rest));
    assert TakeBody(s[1..], 0) == Some(Body(["{", "}"], 4, rest));
  }

  /** A definition is complete and is no server. */
  lemma DefinitionParsed()
    ensures Complete(DEFINITION, 0) && End(DEFINITION, 0) == 4 && ParseFrom(DEFINITION, 0) == Ok([])
  {
    var d, k := DEFINITION, Keys(["(s)"], DEFINITION[1..]);
    BodyTaken([]);
    assert d[1..][1..] == BODY + [Token("}", 4)] + [];
    NoComma("(s)");
    assert ["(s)"] + [] == ["(s)"];
    assert TakeKeys(d[1..], 1) == Ok(Keys([], d[1..]));
    assert TakeKeys(d, 0) == Ok(k);
    assert IsSnippet(["(s)"]) by {
      assert "(s)"[..1] == "(" && "(s)"[2..] == ")";
    }
    NoBlocks(4);
    NothingBefore(Ok([]));
    ParseBraced(d, 0, k, Body(["ab", "{", "}"], 4, []));
  }

  lemma NoComma(k: string)
    requires |k| > 0 && k[|k| - 1] != ','
    ensures StripComma(k) == k && !HasSuffix(k, ",")
  {
    assert k[|k| - 1..] == [k[|k| - 1]];
  }

  /** The inspector finds no listener and reports no import. */
  lemma NothingFound(source: string)
    ensures Readable(TEXT) && UnresolvedIn(source, TEXT) == []
    ensures forall l :: !Defines(TEXT, l)
  {
    hide Lex, ScanFrom, WithoutImports, ParseFrom;
    Lexed();
    Scanned();
    Blanks();
    DefinitionParsed();
    assert BlockKeys([]) == [];
    NoneUnresolved(source);
  }

  lemma NoneUnresolved(source: string)
    ensures Unresolved([ImportStmt(5, "s", 0)], {"s"}, source) == []
  {
    assert [ImportStmt(5, "s", 0)][1..] == [];
  }

  // ---- as it is loaded

  lemma Walk6()
    ensures WalkTo(TEXT, 6) == Walk(DEFINITION, TOKENS[6..], 0, 4, map["s" := BODY])
  {
    hide Lex, TakeBody;
    Lexed();
    var s := TOKENS;
    SnippetDefined();
    assert s[1..][1..] == s[2..] && s[2..][1..] == s[3..] && s[3..][1..] == s[4..] && s[4..][1..] == s[5..] && s[5..][1..] == s[6..];
    assert WalkTo(TEXT, 0) == Walk([], s, 0, 0, map[]);
    var e := map["s" := BODY];
    assert WalkTo(TEXT, 1) == Walk(s[..1], s[1..], 0, 1, e);
    assert WalkTo(TEXT, 2) == Walk(s[..2], s[2..], 1, 1, e);
    assert WalkTo(TEXT, 3) == Walk(s[..3], s[3..], 1, 2, e);
    assert WalkTo(TEXT, 4) == Walk(s[..4], s[4..], 2, 2, e);
    assert WalkTo(TEXT, 5) == Walk(s[..5], s[5..], 1, 3, e);
    assert WalkTo(TEXT, 6) == Walk(s[..6], s[6..], 0, 4, e);
    assert s[..6] == DEFINITION;
  }

  lemma SnippetDefined()
    ensures Define(TOKENS, 0, 0, map[]) == map["s" := BODY]
  {
    var s, rest := TOKENS, [Token("import", 5), Token("s", 5)];
    BodyTaken(rest);
    assert s[2..] == BODY + [Token("}", 4)] + rest;
    assert s[2..|s| - 2 - 1] == BODY;
    assert "(s)"[1..2] == "s";
  }

  /** The block of the snippet. */
  lemma BodyParsed()
    ensures Contents("s", map["s" := BODY]) == BODY
    ensures Complete(BODY, 4) && End(BODY, 4) == 3 && ParseFrom(BODY, 4) == Ok([Block(["ab"], [])])
  {
    var k := Keys(["ab"], BODY[1..]);
    NoComma("ab");
    assert ["ab"] + [] == ["ab"] && [Block(["ab"], [])] + [] == [Block(["ab"], [])];
    assert TakeKeys(BODY[1..], 2) == Ok(Keys([], BODY[1..]));
    assert TakeKeys(BODY, 4) == Ok(k);
    assert BODY[1..][1..] == [Token("}", 3)] && [Token("}", 3)][1..] == [];
    assert TakeBody([Token("}", 3)], 0) == Some(Body([], 3, []));
    NoBlocks(3);
    ParseBraced(BODY, 4, k, Body([], 3, []));
    BodyExpanded();
  }

  lemma BodyExpanded()
    ensures Contents("s", map["s" := BODY]) == BODY
  {
    var e: Snippets := map["s" := BODY] - {"s"};
    assert Expand([], 0, 3, e) == [];
    assert BODY[2..] == [Token("}", 3)] && BODY[1..][1..] == BODY[2..] && BODY[2..][1..] == [];
    assert Expand(BODY[2..], 1, 2, e) == BODY[2..];
    assert Expand(BODY[1..], 0, 2, e) == BODY[1..];
    assert Expand(BODY, 0, 0, e) == BODY;
  }

  /** Loading the text opens the listener. */
  lemma AbOpened(l: Listener)
    requires l == RoundTrip.ZoneListener("ab")
    ensures Opens(TEXT, l)
  {
    hide Lex, ParseFrom, Contents, WalkTo, Complete, ParseKey;
    Walk6();
    DefinitionParsed();
    BodyParsed();
    RoundTrip.PlainKeyParses("ab");
    OneKey();
    AllLoaded();
    SnippetImportMissed(TEXT, 6, l, COREFILE_SOURCE, map[]);
  }

  lemma OneKey()
    ensures BlockKeys([Block(["ab"], [])]) == ["ab"] && "ab" in ["ab"]
  {
    assert [Block(["ab"], [])][1..] == [];
  }

  lemma AllLoaded()
    ensures Loaded(TEXT) == Ok([Block(["ab"], [])])
  {
    hide Lex, ParseFrom, Contents, WalkTo, Complete, End, Splice;
    Walk6();
    DefinitionParsed();
    BodyParsed();
    ImportSpliced(TEXT, 6);
    assert TOKENS[6..][2..] == [];
    NothingLeft();
    assert BODY + [] == BODY;
    ParseConcat(DEFINITION, 0, BODY);
    assert [] + [Block(["ab"], [])] == [Block(["ab"], [])];
  }

  lemma NothingLeft()
    ensures Splice([], 0, 5, map["s" := BODY]) == []
  {
  }
}
