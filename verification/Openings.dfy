/** What a text opens when CoreDNS loads it, apart from how the inspector looks at it: the
    tokens of a snippet take the place of every top-level import of it, any other import adds
    nothing, and the keys of the blocks that result are opened. And when the inspector, which
    blanks the import lines instead, sees all of that. */
module Openings {
  import opened Wrappers
  import opened Strings
  import opened Caddyfile
  import opened CaddyfileTheorems
  import opened Corefile
  import opened CorefileTheorems

  // ---- snippets spliced in

  type Snippets = map<string, seq<Token>>

  /** The body of the snippet definition at this place: a name in parentheses at the start of
      a line and outside all braces, an opening brace, and all up to the closing one. */
  function SnippetBody(toks: seq<Token>, depth: int, prev: nat): Option<seq<Token>> {
    if |toks| > 1 && LineStart(toks[0], prev) && depth == 0 && SnippetName(toks[0].text) && toks[1].text == "{" then
      match TakeBody(toks[2..], 0)
      case None => None
      case Some(b) => Some(toks[2..|toks| - |b.rest| - 1])
    else
      None
  }

  function Define(toks: seq<Token>, depth: int, prev: nat, snippets: Snippets): Snippets
    requires toks != []
  {
    match SnippetBody(toks, depth, prev)
    case None => snippets
    case Some(body) => snippets[toks[0].text[1..|toks[0].text| - 1] := body]
  }

  /** The tokens an import stands for; a body may import in turn, but not itself. */
  function Contents(name: string, snippets: Snippets): seq<Token>
    decreases |snippets|, 1, 0
  {
    if name in snippets then Expand(snippets[name], 0, 0, snippets - {name}) else []
  }

  function Expand(toks: seq<Token>, depth: int, prev: nat, snippets: Snippets): seq<Token>
    decreases |snippets|, 2, |toks|
  {
    if toks == [] then
      []
    else if AtImport(toks, prev) then
      (if depth <= 0 then Contents(toks[1].text, snippets) else []) + Expand(toks[2..], depth, toks[0].line, snippets)
    else
      [toks[0]] + Expand(toks[1..], NextDepth(toks[0], depth), toks[0].line, snippets)
  }

  /** The text with its imports replaced. A statement with more than one argument is an error
      of the library, which then opens nothing; here only the first argument is taken, so this
      errs on the side of opening more. */
  function Splice(toks: seq<Token>, depth: int, prev: nat, snippets: Snippets): seq<Token>
    decreases |toks|
  {
    if toks == [] then
      []
    else if AtImport(toks, prev) then
      (if depth <= 0 then Contents(toks[1].text, snippets) else []) + Splice(toks[2..], depth, toks[0].line, snippets)
    else
      [toks[0]] + Splice(toks[1..], NextDepth(toks[0], depth), toks[0].line, Define(toks, depth, prev, snippets))
  }

  function Loaded(text: string): Result<seq<Block>> {
    ParseFrom(Splice(Lex(text), 0, 0, map[]), 0)
  }

  /** Loading the text opens the listener. */
  ghost predicate Opens(text: string, l: Listener) {
    Loaded(text).Ok? && KeysDefine(BlockKeys(Loaded(text).value), l)
  }

  // ---- when the inspector sees it all

  /** Every import statement has its line to itself. */
  predicate AloneOnLine(toks: seq<Token>, prev: nat)
    decreases |toks|
  {
    if toks == [] then true
    else if AtImport(toks, prev) then
      (|toks| > 2 ==> toks[2].line != toks[0].line) && AloneOnLine(toks[2..], toks[0].line)
    else AloneOnLine(toks[1..], toks[0].line)
  }

  /** No top-level import stands for any token: it names no snippet, or one without contents. */
  predicate NothingSpliced(toks: seq<Token>, depth: int, prev: nat, snippets: Snippets)
    decreases |toks|
  {
    if toks == [] then true
    else if AtImport(toks, prev) then
      (depth <= 0 ==> Contents(toks[1].text, snippets) == []) && NothingSpliced(toks[2..], depth, toks[0].line, snippets)
    else NothingSpliced(toks[1..], NextDepth(toks[0], depth), toks[0].line, Define(toks, depth, prev, snippets))
  }

  /** The import statements can be taken out line by line. */
  predicate Tidy(text: string) {
    ImportsUncut(text) && AloneOnLine(Lex(text), 0)
  }

  predicate Clear(text: string) {
    Tidy(text) && NothingSpliced(Lex(text), 0, 0, map[])
  }

  /** Splicing nothing in is dropping the import lines. */
  lemma {:induction false} SpliceDrops(toks: seq<Token>, depth: int, prev: nat, snippets: Snippets, dropped: set<nat>)
    requires Ordered(toks, prev) && ImportsAhead(toks, depth, prev, dropped)
    requires prev in dropped && toks != [] ==> toks[0].line != prev
    requires AloneOnLine(toks, prev) && NothingSpliced(toks, depth, prev, snippets)
    ensures Splice(toks, depth, prev, snippets) == DropLines(toks, dropped)
    decreases |toks|
  {
    if toks != [] {
      hide Ordered, ImportsAhead, Contents, Define, DropLines, ScanFrom;
      DropHead(toks, dropped);
      if AtImport(toks, prev) {
        ImportsAheadImport(toks, depth, prev, dropped);
        OrderedTail(toks, prev, 2);
        DropImport(toks, prev, dropped);
        SpliceDrops(toks[2..], depth, toks[0].line, snippets, dropped);
        assert [] + Splice(toks[2..], depth, toks[0].line, snippets) == Splice(toks[2..], depth, toks[0].line, snippets);
      } else {
        ImportsAheadSkip(toks, depth, prev, dropped);
        OrderedTail(toks, prev, 1);
        SpliceDrops(toks[1..], NextDepth(toks[0], depth), toks[0].line, Define(toks, depth, prev, snippets), dropped);
      }
    }
  }

  lemma AllAhead(text: string)
    ensures ImportsAhead(Lex(text), 0, 0, ImportLines(ScanFrom(Lex(text), 0, 0).imports))
    ensures 0 !in ImportLines(ScanFrom(Lex(text), 0, 0).imports)
  {
    LexOrdered(text);
    ImportsIncrease(Lex(text), 0, 0);
  }

  /** A text with tidy import statements whose top-level imports stand for nothing opens
      exactly what the inspector finds in it. */
  lemma ClearIsSeen(text: string)
    requires Clear(text)
    ensures Loaded(text) == Parse(WithoutImports(text))
    ensures forall l :: Opens(text, l) <==> Defines(text, l)
  {
    hide ImportsAhead, ScanFrom, Splice, DropLines, AloneOnLine, NothingSpliced, ParseFrom;
    BlankingDropsLines(text, ImportLines(ScanFrom(Lex(text), 0, 0).imports));
    LexOrdered(text);
    AllAhead(text);
    SpliceDrops(Lex(text), 0, 0, map[], ImportLines(ScanFrom(Lex(text), 0, 0).imports));
  }

  /** Enough for that: no top-level import names any snippet of the text. */
  lemma {:induction false} UnnamedSpliceNothing(toks: seq<Token>, depth: int, prev: nat, snippets: Snippets, names: set<string>)
    requires ScanFrom(toks, depth, prev).snippets <= names && snippets.Keys <= names
    requires forall i | i in ScanFrom(toks, depth, prev).imports && i.depth <= 0 :: i.pattern !in names
    ensures NothingSpliced(toks, depth, prev, snippets)
    decreases |toks|
  {
    if toks != [] {
      hide ScanFrom, Expand, SnippetName;
      if AtImport(toks, prev) {
        ScanImport(toks, depth, prev);
        var i, rest := ImportStmt(toks[0].line, toks[1].text, depth), ScanFrom(toks[2..], depth, toks[0].line).imports;
        assert i in [i] + rest && forall j | j in rest :: j in [i] + rest;
        UnnamedSpliceNothing(toks[2..], depth, toks[0].line, snippets, names);
      } else {
        ScanSkip(toks, depth, prev);
        ScanSkipSnippets(toks, depth, prev);
        DefinesOne(toks, depth, prev, snippets);
        UnnamedSpliceNothing(toks[1..], NextDepth(toks[0], depth), toks[0].line, Define(toks, depth, prev, snippets), names);
      }
    }
  }

  lemma DefinesOne(toks: seq<Token>, depth: int, prev: nat, snippets: Snippets)
    requires toks != []
    ensures Define(toks, depth, prev, snippets).Keys <= snippets.Keys + SnippetOf(toks[0], depth, prev)
  {
  }

  lemma NoSnippetImportIsClear(text: string)
    requires Tidy(text)
    requires var s := ScanFrom(Lex(text), 0, 0); forall i | i in s.imports && i.depth <= 0 :: i.pattern !in s.snippets
    ensures Clear(text)
  {
    hide ScanFrom, Tidy;
    UnnamedSpliceNothing(Lex(text), 0, 0, map[], ScanFrom(Lex(text), 0, 0).snippets);
  }

  // ---- no imports at all

  lemma {:induction false} NothingToCut(l: Lexer, lines: seq<string>)
    ensures Uncut(l, lines, {})
    decreases |lines|
  {
    hide Run, Step;
    if lines != [] {
      NothingToCut(Step(Run(l, lines[0]), '\n'), lines[1..]);
    }
  }

  lemma {:induction false} NoneShareALine(toks: seq<Token>, depth: int, prev: nat)
    requires ScanFrom(toks, depth, prev).imports == []
    ensures AloneOnLine(toks, prev)
    decreases |toks|
  {
    if toks != [] {
      if AtImport(toks, prev) {
        ScanImport(toks, depth, prev);
        assert false;
      }
      ScanSkip(toks, depth, prev);
      NoneShareALine(toks[1..], NextDepth(toks[0], depth), toks[0].line);
    }
  }

  lemma {:induction false} QuoteFreeRun(l: Lexer, s: string)
    requires !OpenQuote(l.mode) && '"' !in s
    ensures !OpenQuote(Run(l, s).mode)
    decreases |s|
  {
    if s != "" {
      assert s[0] in s;
      QuoteFreeRun(Step(l, s[0]), s[1..]);
    }
  }

  lemma {:induction false} QuoteFreeLines(l: Lexer, lines: seq<string>, dropped: set<nat>)
    requires l.mode.Between? && forall x | x in lines :: '"' !in x
    ensures Uncut(l, lines, dropped)
    decreases |lines|
  {
    hide Run, Step;
    if lines != [] {
      assert lines[0] in lines;
      QuoteFreeRun(l, lines[0]);
      FinishNewline(Run(l, lines[0]));
      QuoteFreeLines(Step(Run(l, lines[0]), '\n'), lines[1..], dropped);
    }
  }

  lemma {:induction false} SplitKeeps(s: string, c: char, d: char)
    requires d !in s
    ensures forall p | p in Split(s, c) :: d !in p
  {
    if s != "" {
      assert s[0] in s && forall x | x in s[1..] :: x in s;
      SplitKeeps(s[1..], c, d);
    }
  }

  /** A text without quotes has none to cut. */
  lemma QuoteFreeUncut(text: string, dropped: set<nat>)
    requires '"' !in text
    ensures LinesUncut(text, dropped)
  {
    SplitKeeps(text, '\n', '"');
    QuoteFreeLines(START, Split(text, '\n'), dropped);
  }

  lemma NoImportIsClear(text: string)
    requires ScanFrom(Lex(text), 0, 0).imports == []
    ensures Clear(text)
  {
    hide ScanFrom, Uncut, AloneOnLine, NothingSpliced, Lex;
    assert ImportLines([]) == {};
    NothingToCut(START, Split(text, '\n'));
    NoneShareALine(Lex(text), 0, 0);
    NoSnippetImportIsClear(text);
  }

  // ---- when it does not

  /** Splicing after some steps: what is put out, what is still to read, and the state. */
  datatype Walk = Walk(out: seq<Token>, rest: seq<Token>, depth: int, prev: nat, snippets: Snippets)

  function Walked(w: Walk): Walk {
    if w.rest == [] then w
    else if AtImport(w.rest, w.prev) then
      Walk(w.out + (if w.depth <= 0 then Contents(w.rest[1].text, w.snippets) else []),
           w.rest[2..], w.depth, w.rest[0].line, w.snippets)
    else
      Walk(w.out + [w.rest[0]], w.rest[1..], NextDepth(w.rest[0], w.depth), w.rest[0].line,
           Define(w.rest, w.depth, w.prev, w.snippets))
  }

  function WalkTo(text: string, n: nat): Walk {
    if n == 0 then Walk([], Lex(text), 0, 0, map[]) else Walked(WalkTo(text, n - 1))
  }

  lemma WalkedSplice(w: Walk)
    ensures Walked(w).out + Splice(Walked(w).rest, Walked(w).depth, Walked(w).prev, Walked(w).snippets)
         == w.out + Splice(w.rest, w.depth, w.prev, w.snippets)
  {
    hide Contents, Define;
    if w.rest == [] {
    } else if AtImport(w.rest, w.prev) {
      var c := if w.depth <= 0 then Contents(w.rest[1].text, w.snippets) else [];
      var more := Splice(w.rest[2..], w.depth, w.rest[0].line, w.snippets);
      assert (w.out + c) + more == w.out + (c + more);
    } else {
      var more := Splice(w.rest[1..], NextDepth(w.rest[0], w.depth), w.rest[0].line, Define(w.rest, w.depth, w.prev, w.snippets));
      assert (w.out + [w.rest[0]]) + more == w.out + ([w.rest[0]] + more);
    }
  }

  lemma {:induction false} WalkToSplice(text: string, n: nat)
    ensures var w := WalkTo(text, n);
            Splice(Lex(text), 0, 0, map[]) == w.out + Splice(w.rest, w.depth, w.prev, w.snippets)
  {
    hide Walked, Splice, Lex;
    if n > 0 {
      WalkToSplice(text, n - 1);
      WalkedSplice(WalkTo(text, n - 1));
    }
  }

  /** The scan has the imports still to read among its own, and the snippets known so far. */
  ghost predicate ScanCovers(s: Scan, w: Walk) {
    var ahead := ScanFrom(w.rest, w.depth, w.prev);
    && (forall i | i in ahead.imports :: i in s.imports)
    && ahead.snippets <= s.snippets && w.snippets.Keys <= s.snippets
  }

  lemma WalkedCovers(s: Scan, w: Walk)
    requires ScanCovers(s, w)
    ensures ScanCovers(s, Walked(w))
  {
    hide ScanFrom, Define, Contents;
    if w.rest == [] {
    } else if AtImport(w.rest, w.prev) {
      ScanImport(w.rest, w.depth, w.prev);
    } else {
      ScanSkip(w.rest, w.depth, w.prev);
      ScanSkipSnippets(w.rest, w.depth, w.prev);
      DefinesOne(w.rest, w.depth, w.prev, w.snippets);
    }
  }

  lemma {:induction false} WalkToCovers(text: string, n: nat)
    ensures ScanCovers(ScanFrom(Lex(text), 0, 0), WalkTo(text, n))
  {
    hide Walked, Lex;
    if n > 0 {
      WalkToCovers(text, n - 1);
      WalkedCovers(ScanFrom(Lex(text), 0, 0), WalkTo(text, n - 1));
    }
  }

  /** If anything is spliced in, some step of the walk does it. */
  lemma {:induction false} SplicedSomewhere(text: string, k: nat) returns (n: nat)
    requires var w := WalkTo(text, k); !NothingSpliced(w.rest, w.depth, w.prev, w.snippets)
    ensures var w := WalkTo(text, n);
            AtImport(w.rest, w.prev) && w.depth <= 0 && Contents(w.rest[1].text, w.snippets) != []
    decreases |WalkTo(text, k).rest|
  {
    hide Contents, Define, Lex;
    var w := WalkTo(text, k);
    if AtImport(w.rest, w.prev) && w.depth <= 0 && Contents(w.rest[1].text, w.snippets) != [] {
      n := k;
    } else {
      assert WalkTo(text, k + 1) == Walked(w);
      n := SplicedSomewhere(text, k + 1);
    }
  }

  /** What a text with tidy import statements opens unseen, it opens through a top-level import
      of a snippet with contents. */
  lemma MissedBySnippetImport(text: string, l: Listener) returns (n: nat)
    requires Tidy(text) && Opens(text, l) && !Defines(text, l)
    ensures var w := WalkTo(text, n);
            AtImport(w.rest, w.prev) && w.depth <= 0 && Contents(w.rest[1].text, w.snippets) != []
  {
    hide Tidy, Opens, Contents, NothingSpliced, Defines, Lex;
    if Clear(text) {
      ClearIsSeen(text);
    }
    n := SplicedSomewhere(text, 0);
  }

  // ---- blocks one after the other

  /** The tokens are complete blocks in braces. */
  predicate Complete(toks: seq<Token>, prev: nat)
    decreases |toks|
  {
    toks == [] ||
    (var head := TakeKeys(toks, prev);
     && head.Ok? && head.value.rest != [] && head.value.rest[0].text == "{"
     && var b := TakeBody(head.value.rest[1..], 0);
        b.Some? && Complete(b.value.rest, b.value.last))
  }

  /** The line of the last closing brace. */
  function End(toks: seq<Token>, prev: nat): nat
    requires Complete(toks, prev)
    decreases |toks|
  {
    if toks == [] then prev
    else var b := TakeBody(TakeKeys(toks, prev).value.rest[1..], 0).value; End(b.rest, b.last)
  }

  lemma {:induction false} TakeKeysConcat(a: seq<Token>, prev: nat, c: seq<Token>)
    requires TakeKeys(a, prev).Ok? && TakeKeys(a, prev).value.rest != []
    ensures var k := TakeKeys(a, prev).value; TakeKeys(a + c, prev) == Ok(Keys(k.keys, k.rest + c))
    decreases |a|
  {
    assert a != [];
    assert (a + c)[0] == a[0] && (a + c)[1..] == a[1..] + c;
    var t, rest := a[0], a[1..];
    if t.text != "{" && !(rest != [] && !HasSuffix(t.text, ",") && LineStart(rest[0], t.line)) {
      TakeKeysConcat(rest, t.line, c);
    }
  }

  lemma {:induction false} TakeBodyConcat(a: seq<Token>, depth: nat, c: seq<Token>)
    requires TakeBody(a, depth).Some?
    ensures var b := TakeBody(a, depth).value; TakeBody(a + c, depth) == Some(b.(rest := b.rest + c))
    decreases |a|
  {
    assert (a + c)[0] == a[0] && (a + c)[1..] == a[1..] + c;
    if !(a[0].text == "}" && depth == 0) {
      TakeBodyConcat(a[1..], if a[0].text == "{" then depth + 1 else if a[0].text == "}" then depth - 1 else depth, c);
    }
  }

  function Both(a: Result<seq<Block>>, b: Result<seq<Block>>): Result<seq<Block>> {
    var x :- a;
    var y :- b;
    Ok(x + y)
  }

  /** Complete blocks are read on their own, whatever follows. */
  lemma {:induction false} ParseConcat(a: seq<Token>, prev: nat, c: seq<Token>)
    requires Complete(a, prev)
    ensures ParseFrom(a, prev).Ok?
    ensures ParseFrom(a + c, prev) == Both(ParseFrom(a, prev), ParseFrom(c, End(a, prev)))
    decreases |a|
  {
    hide TakeKeys, TakeBody, Balanced, IsSnippet;
    if a == [] {
      assert a + c == c;
      NoBlocks(prev);
      NothingBefore(ParseFrom(c, prev));
    } else {
      var k := TakeKeys(a, prev).value;
      TakeKeysConcat(a, prev, c);
      var b := TakeBody(k.rest[1..], 0).value;
      TakeBodyConcat(k.rest[1..], 0, c);
      assert (k.rest + c)[0] == k.rest[0] && (k.rest + c)[1..] == k.rest[1..] + c;
      ParseConcat(b.rest, b.last, c);
      var first := if IsSnippet(k.keys) || k.keys == [] then [] else [Block(k.keys, b.body)];
      ParseBraced(a, prev, k, b);
      ParseBraced(a + c, prev, Keys(k.keys, k.rest + c), b.(rest := b.rest + c));
      BothAfter(first, ParseFrom(b.rest, b.last), ParseFrom(c, End(b.rest, b.last)));
    }
  }

  lemma NoBlocks(prev: nat)
    ensures ParseFrom([], prev) == Ok([])
  {
  }

  lemma NothingBefore(r: Result<seq<Block>>)
    ensures Both(Ok([]), r) == r
  {
    if r.Ok? {
      assert [] + r.value == r.value;
    }
  }

  lemma BothAfter(first: seq<Block>, a: Result<seq<Block>>, b: Result<seq<Block>>)
    ensures Both(Ok(first), Both(a, b)) == Both(Both(Ok(first), a), b)
  {
    if a.Ok? && b.Ok? {
      assert first + (a.value + b.value) == (first + a.value) + b.value;
    }
  }

  lemma ParseBraced(toks: seq<Token>, prev: nat, k: Keys, b: Body)
    requires toks != [] && TakeKeys(toks, prev) == Ok(k) && k.rest != [] && k.rest[0].text == "{"
    requires TakeBody(k.rest[1..], 0) == Some(b)
    ensures ParseFrom(toks, prev)
         == Both(Ok(if IsSnippet(k.keys) || k.keys == [] then [] else [Block(k.keys, b.body)]), ParseFrom(b.rest, b.last))
  {
    hide TakeKeys, TakeBody, IsSnippet;
  }

  lemma {:induction false} BlockKeysConcat(a: seq<Block>, b: seq<Block>)
    ensures BlockKeys(a + b) == BlockKeys(a) + BlockKeys(b)
  {
    if a == [] {
      assert a + b == b;
    } else {
      assert (a + b)[0] == a[0] && (a + b)[1..] == a[1..] + b;
      BlockKeysConcat(a[1..], b);
    }
  }

  // ---- a snippet import is missed

  /** After `n` steps splicing is at a top-level import between complete blocks, and the
      snippet's contents are complete blocks in turn, one of which has the listener. */
  ghost predicate OpensByImport(text: string, n: nat, l: Listener) {
    var w := WalkTo(text, n);
    && AtImport(w.rest, w.prev) && w.depth <= 0 && w.rest[1].text in w.snippets && Complete(w.out, 0)
    && var c := Contents(w.rest[1].text, w.snippets);
       && Complete(c, End(w.out, 0)) && ParseFrom(c, End(w.out, 0)).Ok?
       && KeysDefine(BlockKeys(ParseFrom(c, End(w.out, 0)).value), l)
  }

  /** Such an import opens the snippet's listeners, and is not reported. Unless the text
      defines the listener elsewhere as well, the inspector does not find it. */
  lemma SnippetImportMissed(text: string, n: nat, l: Listener, source: string, m: map<Listener, string>)
    requires Loaded(text).Ok? && OpensByImport(text, n, l)
    ensures Opens(text, l)
    ensures var w := WalkTo(text, n); Import(source, w.rest[0].line, w.rest[1].text) !in UnresolvedIn(source, text)
    ensures var r := SourceInspection(source, text, m);
            r.Ok? && !Defines(text, l) && l !in m ==> l !in r.value.listeners
  {
    hide Splice, Contents, ParseFrom, Complete, TakeKeys, TakeBody, SourceInspection, ParseKey, WithoutImports;
    var w := WalkTo(text, n);
    var c := Contents(w.rest[1].text, w.snippets);
    SourceSpec(source, text, m);
    ImportSpliced(text, n);
    var more := Splice(w.rest[2..], w.depth, w.rest[0].line, w.snippets);
    ParseConcat(w.out, 0, c + more);
    ParseConcat(c, End(w.out, 0), more);
    var x, y := ParseFrom(w.out, 0).value, ParseFrom(c, End(w.out, 0)).value;
    var z := ParseFrom(more, End(c, End(w.out, 0))).value;
    assert Loaded(text).value == x + (y + z);
    BlockKeysConcat(x, y + z);
    BlockKeysConcat(y, z);
    var k :| k in BlockKeys(y) && ParseKey(k) == Ok(l);
    assert k in BlockKeys(Loaded(text).value);
    ImportUnreported(text, n, source);
  }

  lemma ImportSpliced(text: string, n: nat)
    requires var w := WalkTo(text, n); AtImport(w.rest, w.prev) && w.depth <= 0
    ensures var w := WalkTo(text, n);
            Splice(Lex(text), 0, 0, map[])
              == w.out + (Contents(w.rest[1].text, w.snippets) + Splice(w.rest[2..], w.depth, w.rest[0].line, w.snippets))
  {
    hide Contents;
    WalkToSplice(text, n);
  }

  lemma ImportUnreported(text: string, n: nat, source: string)
    requires var w := WalkTo(text, n); AtImport(w.rest, w.prev) && w.depth <= 0 && w.rest[1].text in w.snippets
    ensures var w := WalkTo(text, n); Import(source, w.rest[0].line, w.rest[1].text) !in UnresolvedIn(source, text)
  {
    hide UnresolvedIn, Contents;
    var w := WalkTo(text, n);
    var i := ImportStmt(w.rest[0].line, w.rest[1].text, w.depth);
    WalkToCovers(text, n);
    ScanImport(w.rest, w.depth, w.prev);
    assert i in [i] + ScanFrom(w.rest[2..], w.depth, w.rest[0].line).imports;
    ImportsClassified(source, text, i);
  }
}
