/** What inspection means: blanking import lines leaves the rest of the text as it was and
    nothing for the parser to resolve; every listener is attributed to the Corefile or else
    to the least key defining it; every top-level import is exactly one of a snippet
    import, the wiring import, or reported. */
module CorefileTheorems {
  import opened Wrappers
  import opened Sorting
  import opened Strings
  import opened Net
  import opened DnsName
  import opened Caddyfile
  import opened CaddyfileTheorems
  import opened Corefile

  // ---- where import statements are

  /** Import statements are found on strictly later lines, one a line. */
  lemma {:induction false} ImportsIncrease(toks: seq<Token>, depth: int, prev: nat)
    requires Ordered(toks, prev)
    ensures forall i | i in ScanFrom(toks, depth, prev).imports :: prev < i.line
    ensures forall i, j | 0 <= i < j < |ScanFrom(toks, depth, prev).imports| ::
              ScanFrom(toks, depth, prev).imports[i].line < ScanFrom(toks, depth, prev).imports[j].line
    decreases |toks|
  {
    if toks != [] {
      var t := toks[0];
      var d := NextDepth(t, depth);
      ImportsIncrease(toks[1..], d, t.line);
      if AtImport(toks, prev) {
        ImportsIncrease(toks[2..], depth, t.line);
        var rest := ScanFrom(toks[2..], depth, t.line).imports;
        assert forall i | 0 <= i < |rest| :: rest[i] in rest;
      }
    }
  }

  function NextDepth(t: Token, depth: int): int {
    if t.text == "{" then depth + 1 else if t.text == "}" then depth - 1 else depth
  }

  lemma ScanSkip(toks: seq<Token>, depth: int, prev: nat)
    requires toks != [] && !AtImport(toks, prev)
    ensures ScanFrom(toks, depth, prev).imports == ScanFrom(toks[1..], NextDepth(toks[0], depth), toks[0].line).imports
  {
  }

  lemma FirstKept(toks: seq<Token>, dropped: set<nat>, line: nat)
    requires Ordered(toks, line)
    requires line !in dropped
    ensures var kept := DropLines(toks, dropped);
            kept != [] && kept[0].line == line ==> toks != [] && toks[0] == kept[0]
  {
    var kept := DropLines(toks, dropped);
    if kept != [] && kept[0].line == line {
      KeptElements(toks, dropped);
      assert kept[0] in kept;
      assert toks[0].line == line;
    }
  }

  lemma {:induction false} KeptElements(toks: seq<Token>, dropped: set<nat>)
    ensures forall t :: t in DropLines(toks, dropped) <==> t in toks && t.line !in dropped
  {
    if toks != [] {
      assert toks == [toks[0]] + toks[1..];
      KeptElements(toks[1..], dropped);
    }
  }

  lemma ScanImport(toks: seq<Token>, depth: int, prev: nat)
    requires AtImport(toks, prev)
    ensures var s := ScanFrom(toks[2..], depth, toks[0].line);
            ScanFrom(toks, depth, prev) == Scan([ImportStmt(toks[0].line, toks[1].text, depth)] + s.imports, s.snippets)
  {
  }

  /** An import statement is dropped as a whole. */
  lemma DropImport(toks: seq<Token>, prev: nat, dropped: set<nat>)
    requires AtImport(toks, prev) && toks[0].line in dropped
    ensures DropLines(toks, dropped) == DropLines(toks[2..], dropped)
  {
    DropHead(toks, dropped);
    DropHead(toks[1..], dropped);
    assert toks[1..][1..] == toks[2..];
  }

  lemma ImportLinesOfCons(i: ImportStmt, rest: seq<ImportStmt>)
    ensures ImportLines([i] + rest) == {i.line} + ImportLines(rest)
  {
    assert i in [i] + rest;
  }

  /** A kept token begins an import statement only if it did so before. */
  lemma KeptImport(toks: seq<Token>, prev: nat, dropped: set<nat>, keptPrev: nat)
    requires toks != [] && Ordered(toks, prev)
    requires toks[0].line !in dropped
    requires prev !in dropped ==> keptPrev == prev
    requires AtImport(DropLines(toks, dropped), keptPrev)
    ensures AtImport(toks, prev)
  {
    DropHead(toks, dropped);
    OrderedTail(toks, prev, 1);
    FirstKept(toks[1..], dropped, toks[0].line);
    assert DropLines(toks, dropped)[1..] == DropLines(toks[1..], dropped);
  }

  /** After the import lines are gone no import statement is left. */
  lemma {:induction false} KeptHasNoImports(toks: seq<Token>, depth: int, prev: nat, dropped: set<nat>, keptDepth: int, keptPrev: nat)
    requires Ordered(toks, prev)
    requires ImportLines(ScanFrom(toks, depth, prev).imports) <= dropped
    requires prev !in dropped ==> keptPrev == prev
    ensures ScanFrom(DropLines(toks, dropped), keptDepth, keptPrev).imports == []
    decreases |toks|
  {
    if toks != [] {
      hide ScanFrom, DropLines, Ordered, ImportLines;
      var t, kept := toks[0], DropLines(toks, dropped);
      OrderedTail(toks, prev, 1);
      DropHead(toks, dropped);
      if AtImport(toks, prev) {
        ScanImport(toks, depth, prev);
        ImportLinesOfCons(ImportStmt(t.line, toks[1].text, depth), ScanFrom(toks[2..], depth, t.line).imports);
        OrderedTail(toks, prev, 2);
        DropImport(toks, prev, dropped);
        KeptHasNoImports(toks[2..], depth, t.line, dropped, keptDepth, keptPrev);
      } else {
        ScanSkip(toks, depth, prev);
        var d := NextDepth(t, depth);
        if t.line in dropped {
          KeptHasNoImports(toks[1..], d, t.line, dropped, keptDepth, keptPrev);
        } else {
          KeptHasNoImports(toks[1..], d, t.line, dropped, NextDepth(t, keptDepth), t.line);
          assert !AtImport(kept, keptPrev) by {
            if AtImport(kept, keptPrev) {
              KeptImport(toks, prev, dropped, keptPrev);
            }
          }
          ScanSkip(kept, keptDepth, keptPrev);
          assert kept[0] == t && kept[1..] == DropLines(toks[1..], dropped);
        }
      }
    }
  }

  ghost predicate NoBracesOn(toks: seq<Token>, lines: set<nat>) {
    forall t | t in toks && t.line in lines :: t.text != "{" && t.text != "}"
  }

  lemma NoBracesTail(toks: seq<Token>, lines: set<nat>, k: nat)
    requires NoBracesOn(toks, lines) && k <= |toks|
    ensures NoBracesOn(toks[k..], lines)
  {
  }

  /** The dropped lines still to come are the lines of the import statements to come. */
  ghost predicate ImportsAhead(toks: seq<Token>, depth: int, prev: nat, dropped: set<nat>) {
    var lines := ImportLines(ScanFrom(toks, depth, prev).imports);
    lines <= dropped && forall n | n in dropped && prev < n :: n in lines
  }

  lemma ImportsAheadImport(toks: seq<Token>, depth: int, prev: nat, dropped: set<nat>)
    requires AtImport(toks, prev) && ImportsAhead(toks, depth, prev, dropped) && Ordered(toks, prev)
    ensures toks[0].line in dropped && ImportsAhead(toks[2..], depth, toks[0].line, dropped)
  {
    ScanImport(toks, depth, prev);
    ImportLinesOfCons(ImportStmt(toks[0].line, toks[1].text, depth), ScanFrom(toks[2..], depth, toks[0].line).imports);
  }

  lemma ImportsAheadSkip(toks: seq<Token>, depth: int, prev: nat, dropped: set<nat>)
    requires toks != [] && !AtImport(toks, prev) && ImportsAhead(toks, depth, prev, dropped) && Ordered(toks, prev)
    ensures ImportsAhead(toks[1..], NextDepth(toks[0], depth), toks[0].line, dropped)
    ensures toks[0].line in dropped ==> toks[0].line == prev
  {
    hide ScanFrom;
    ScanSkip(toks, depth, prev);
    OrderedTail(toks, prev, 1);
    ImportsIncrease(toks[1..], NextDepth(toks[0], depth), toks[0].line);
  }

  /** What a token that is no import statement adds to the snippets. */
  function SnippetOf(t: Token, depth: int, prev: nat): set<string> {
    if LineStart(t, prev) && depth == 0 && SnippetName(t.text) then {t.text[1..|t.text| - 1]} else {}
  }

  lemma ScanSkipSnippets(toks: seq<Token>, depth: int, prev: nat)
    requires toks != [] && !AtImport(toks, prev)
    ensures ScanFrom(toks, depth, prev).snippets
         == ScanFrom(toks[1..], NextDepth(toks[0], depth), toks[0].line).snippets + SnippetOf(toks[0], depth, prev)
  {
  }

  /** With no braces on the dropped lines, the snippets are the same. */
  lemma {:induction false} KeptHasSameSnippets(toks: seq<Token>, depth: int, prev: nat, dropped: set<nat>, keptPrev: nat)
    requires Ordered(toks, prev)
    requires ImportsAhead(toks, depth, prev, dropped)
    requires keptPrev <= prev && (prev !in dropped ==> keptPrev == prev)
    requires NoBracesOn(toks, dropped)
    ensures ScanFrom(DropLines(toks, dropped), depth, keptPrev).snippets == ScanFrom(toks, depth, prev).snippets
    decreases |toks|
  {
    if toks != [] {
      hide ScanFrom, DropLines, ImportsAhead, Ordered, SnippetName;
      var t, kept, rest := toks[0], DropLines(toks, dropped), toks[1..];
      assert t in toks;
      NoBracesTail(toks, dropped, 1);
      OrderedTail(toks, prev, 1);
      FirstLine(toks, prev);
      DropHead(toks, dropped);
      if AtImport(toks, prev) {
        ImportsAheadImport(toks, depth, prev, dropped);
        ScanImport(toks, depth, prev);
        OrderedTail(toks, prev, 2);
        NoBracesTail(toks, dropped, 2);
        DropImport(toks, prev, dropped);
        KeptHasSameSnippets(toks[2..], depth, t.line, dropped, keptPrev);
      } else {
        ImportsAheadSkip(toks, depth, prev, dropped);
        ScanSkipSnippets(toks, depth, prev);
        var d := NextDepth(t, depth);
        if t.line in dropped {
          KeptHasSameSnippets(rest, d, t.line, dropped, keptPrev);
        } else {
          KeptHasSameSnippets(rest, d, t.line, dropped, t.line);
          assert kept[0] == t && kept[1..] == DropLines(rest, dropped);
          assert !AtImport(kept, keptPrev) by {
            if AtImport(kept, keptPrev) {
              KeptImport(toks, prev, dropped, keptPrev);
            }
          }
          ScanSkipSnippets(kept, depth, keptPrev);
          assert LineStart(t, keptPrev) <==> LineStart(t, prev);
        }
      }
    }
  }

  lemma FirstLine(toks: seq<Token>, prev: nat)
    requires Ordered(toks, prev) && toks != []
    ensures prev <= toks[0].line
  {
  }

  /** No import line cuts a quoted token. */
  predicate ImportsUncut(text: string) {
    LinesUncut(text, ImportLines(ScanFrom(Lex(text), 0, 0).imports))
  }

  /** Import blanking: for text whose import lines cut no quoted token, the parser sees the
      original tokens minus the import lines, with their line numbers, and no import
      statement. If moreover the import lines carry no braces, every remaining token keeps
      its brace depth and the snippet definitions are the same. */
  lemma BlankingKeepsStructure(text: string)
    requires ImportsUncut(text)
    ensures var toks, scan := Lex(text), ScanFrom(Lex(text), 0, 0);
            var lines := ImportLines(scan.imports);
            var left := Lex(WithoutImports(text));
            && left == DropLines(toks, lines)
            && ScanFrom(left, 0, 0).imports == []
            && (NoBracesOn(toks, lines) ==>
                  && Depths(left, 0) == DropPlaced(Depths(toks, 0), lines)
                  && ScanFrom(left, 0, 0).snippets == scan.snippets)
  {
    var toks, scan := Lex(text), ScanFrom(Lex(text), 0, 0);
    var lines := ImportLines(scan.imports);
    BlankingDropsLines(text, lines);
    LexOrdered(text);
    KeptHasNoImports(toks, 0, 0, lines, 0, 0);
    if NoBracesOn(toks, lines) {
      DroppingKeepsDepths(toks, 0, lines);
      KeptHasSameSnippets(toks, 0, 0, lines, 0);
    }
  }

  // ---- attribution of listeners

  ghost predicate KeysDefine(keys: seq<string>, l: Listener) {
    exists k :: k in keys && ParseKey(k) == Ok(l)
  }

  predicate KeysParse(keys: seq<string>) {
    forall k | k in keys :: ParseKey(k).Ok?
  }

  lemma {:induction false} AddKeysSpec(keys: seq<string>, source: string, m: map<Listener, string>)
    ensures AddKeys(keys, source, m).Ok? <==> KeysParse(keys)
    ensures AddKeys(keys, source, m).Ok? ==>
              var r := AddKeys(keys, source, m).value;
              && (forall l :: l in r <==> l in m || KeysDefine(keys, l))
              && (forall l | l in r :: r[l] == if l in m then m[l] else source)
    decreases |keys|
  {
    if keys == [] {
    } else {
      assert keys == [keys[0]] + keys[1..];
      match ParseKey(keys[0]) {
        case Err(_) =>
          assert keys[0] in keys;
        case Ok(l0) =>
          var m' := if l0 in m then m else m[l0 := source];
          AddKeysSpec(keys[1..], source, m');
          assert keys[0] in keys;
          forall l ensures KeysDefine(keys, l) <==> l == l0 || KeysDefine(keys[1..], l) {
          }
      }
    }
  }

  /** The text reads as server blocks whose keys are all well formed. */
  predicate Readable(text: string) {
    var p := Parse(WithoutImports(text));
    p.Ok? && KeysParse(BlockKeys(p.value))
  }

  /** The text with its import lines blanked has a block with that key. What the text opens
      when it is loaded is another matter: see `Openings`. */
  ghost predicate Defines(text: string, l: Listener) {
    var p := Parse(WithoutImports(text));
    p.Ok? && KeysDefine(BlockKeys(p.value), l)
  }

  function UnresolvedIn(source: string, text: string): seq<Import> {
    var s := ScanFrom(Lex(text), 0, 0);
    Unresolved(s.imports, s.snippets, source)
  }

  predicate WiredIn(source: string, text: string) {
    var s := ScanFrom(Lex(text), 0, 0);
    Wires(s.imports, s.snippets, source)
  }

  lemma SourceSpec(source: string, text: string, m: map<Listener, string>)
    ensures var r := SourceInspection(source, text, m);
            && (r.Ok? <==> Readable(text))
            && (r.Ok? ==>
                  && (forall l :: l in r.value.listeners <==> l in m || Defines(text, l))
                  && (forall l | l in r.value.listeners :: r.value.listeners[l] == if l in m then m[l] else source)
                  && r.value.unresolved == UnresolvedIn(source, text)
                  && r.value.wired == WiredIn(source, text))
  {
    var p := Parse(WithoutImports(text));
    if p.Ok? {
      AddKeysSpec(BlockKeys(p.value), source, m);
    }
  }

  function AllUnresolved(keys: seq<string>, servers: map<string, string>): seq<Import>
    requires forall k | k in keys :: k in servers
  {
    if keys == [] then [] else UnresolvedIn(keys[0], servers[keys[0]]) + AllUnresolved(keys[1..], servers)
  }

  /** The first of the keys that defines the listener. */
  ghost predicate FirstDefining(keys: seq<string>, servers: map<string, string>, l: Listener, source: string)
    requires forall k | k in keys :: k in servers
  {
    exists i :: 0 <= i < |keys| && keys[i] == source && Defines(servers[keys[i]], l)
                && forall j | 0 <= j < i :: !Defines(servers[keys[j]], l)
  }

  ghost predicate SomeDefine(keys: seq<string>, servers: map<string, string>, l: Listener)
    requires forall k | k in keys :: k in servers
  {
    exists k :: k in keys && Defines(servers[k], l)
  }

  lemma DefiningCons(keys: seq<string>, servers: map<string, string>, l: Listener)
    requires forall k | k in keys :: k in servers
    requires keys != []
    ensures SomeDefine(keys, servers, l) <==> Defines(servers[keys[0]], l) || SomeDefine(keys[1..], servers, l)
    ensures Defines(servers[keys[0]], l) ==> FirstDefining(keys, servers, l, keys[0])
    ensures forall s :: !Defines(servers[keys[0]], l) && FirstDefining(keys[1..], servers, l, s) ==> FirstDefining(keys, servers, l, s)
  {
    hide Defines;
    assert keys == [keys[0]] + keys[1..];
    forall s | !Defines(servers[keys[0]], l) && FirstDefining(keys[1..], servers, l, s)
      ensures FirstDefining(keys, servers, l, s)
    {
      var i :| 0 <= i < |keys[1..]| && keys[1..][i] == s && Defines(servers[keys[1..][i]], l)
               && forall j | 0 <= j < i :: !Defines(servers[keys[1..][j]], l);
      assert keys[i + 1] == s;
      forall j | 0 <= j < i + 1 ensures !Defines(servers[keys[j]], l) {
        if j > 0 {
          assert keys[j] == keys[1..][j - 1];
        }
      }
    }
  }

  function Next(seen: Inspected, v: SourceView): Inspected {
    seen.(listeners := v.listeners, unresolved := seen.unresolved + v.unresolved)
  }

  lemma {:induction false} InspectKeysOk(keys: seq<string>, servers: map<string, string>, seen: Inspected)
    requires forall k | k in keys :: k in servers
    ensures InspectKeys(keys, servers, seen).Ok? <==> forall k | k in keys :: Readable(servers[k])
    decreases |keys|
  {
    hide SourceInspection, Readable;
    if keys != [] {
      assert keys == [keys[0]] + keys[1..];
      SourceSpec(keys[0], servers[keys[0]], seen.listeners);
      var r := SourceInspection(keys[0], servers[keys[0]], seen.listeners);
      if r.Ok? {
        InspectKeysOk(keys[1..], servers, Next(seen, r.value));
      }
    }
  }

  lemma {:induction false} InspectKeysUnresolved(keys: seq<string>, servers: map<string, string>, seen: Inspected)
    requires forall k | k in keys :: k in servers
    requires InspectKeys(keys, servers, seen).Ok?
    ensures InspectKeys(keys, servers, seen).value.wired == seen.wired
    ensures InspectKeys(keys, servers, seen).value.unresolved == seen.unresolved + AllUnresolved(keys, servers)
    decreases |keys|
  {
    hide SourceInspection, UnresolvedIn;
    if keys == [] {
      assert seen.unresolved + [] == seen.unresolved;
    } else {
      SourceSpec(keys[0], servers[keys[0]], seen.listeners);
      var v := SourceInspection(keys[0], servers[keys[0]], seen.listeners).value;
      InspectKeysUnresolved(keys[1..], servers, Next(seen, v));
      assert (seen.unresolved + v.unresolved) + AllUnresolved(keys[1..], servers)
          == seen.unresolved + (v.unresolved + AllUnresolved(keys[1..], servers));
    }
  }

  lemma {:induction false} InspectKeysListeners(keys: seq<string>, servers: map<string, string>, seen: Inspected, l: Listener)
    requires forall k | k in keys :: k in servers
    requires InspectKeys(keys, servers, seen).Ok?
    ensures var m := InspectKeys(keys, servers, seen).value.listeners;
            && (l in m <==> l in seen.listeners || SomeDefine(keys, servers, l))
            && (l in seen.listeners ==> m[l] == seen.listeners[l])
            && (l in m && l !in seen.listeners ==> FirstDefining(keys, servers, l, m[l]))
    decreases |keys|
  {
    hide SourceInspection, Defines;
    if keys == [] {
    } else {
      SourceSpec(keys[0], servers[keys[0]], seen.listeners);
      var v := SourceInspection(keys[0], servers[keys[0]], seen.listeners).value;
      InspectKeysListeners(keys[1..], servers, Next(seen, v), l);
      DefiningCons(keys, servers, l);
    }
  }

  /** The least key, in the sorted order, that defines the listener. */
  lemma FirstIsLeast(keys: seq<string>, servers: map<string, string>, l: Listener, source: string)
    requires forall k | k in keys :: k in servers
    requires StrictlySorted(keys, Less)
    requires FirstDefining(keys, servers, l, source)
    ensures source in keys && Defines(servers[source], l)
    ensures forall k | k in keys && Defines(servers[k], l) :: !Less(k, source)
  {
    hide Defines;
    var i :| 0 <= i < |keys| && keys[i] == source && Defines(servers[keys[i]], l)
             && forall j | 0 <= j < i :: !Defines(servers[keys[j]], l);
    forall k | k in keys && Defines(servers[k], l) ensures !Less(k, source) {
      var j :| 0 <= j < |keys| && keys[j] == k;
      LessTotal(keys[i], keys[j]);
    }
  }

  /** Inspection succeeds iff every source it reads is well formed. */
  lemma InspectionSucceeds(corefile: string, servers: map<string, string>)
    ensures Inspection(corefile, servers).Ok? <==>
              Readable(corefile) && forall k | k in ReadKeys(servers) :: Readable(servers[k])
  {
    SourceSpec(COREFILE_SOURCE, corefile, map[]);
    var r := SourceInspection(COREFILE_SOURCE, corefile, map[]);
    if r.Ok? {
      var v := r.value;
      InspectKeysOk(SortedSeq(ReadKeys(servers)), servers, Inspected(v.listeners, v.wired, v.unresolved));
    }
  }

  /** A listener is reported iff the Corefile or a server key other than the managed one
      defines it, import lines blanked; it is attributed to the Corefile if that defines it, and otherwise to the
      least key that does. */
  lemma ListenersAttributed(corefile: string, servers: map<string, string>, l: Listener)
    requires Inspection(corefile, servers).Ok?
    ensures var m := Inspection(corefile, servers).value.listeners;
            && (l in m <==> Defines(corefile, l) || exists k :: k in ReadKeys(servers) && Defines(servers[k], l))
            && (Defines(corefile, l) ==> m[l] == COREFILE_SOURCE)
            && (l in m && !Defines(corefile, l) ==>
                  && m[l] in ReadKeys(servers) && Defines(servers[m[l]], l)
                  && forall k | k in ReadKeys(servers) && Defines(servers[k], l) :: !Less(k, m[l]))
  {
    var keys := SortedSeq(ReadKeys(servers));
    SourceSpec(COREFILE_SOURCE, corefile, map[]);
    var v := SourceInspection(COREFILE_SOURCE, corefile, map[]).value;
    InspectKeysListeners(keys, servers, Inspected(v.listeners, v.wired, v.unresolved), l);
    var m := Inspection(corefile, servers).value.listeners;
    if l in m && !Defines(corefile, l) {
      FirstIsLeast(keys, servers, l, m[l]);
    }
  }

  // ---- classification of imports

  ghost predicate LinesIncrease(imports: seq<Import>, source: string) {
    && (forall i | i in imports :: i.source == source)
    && (forall i, j | 0 <= i < j < |imports| :: imports[i].line < imports[j].line)
  }

  ghost predicate Reportable(i: ImportStmt, snippets: set<string>, source: string) {
    i.depth <= 0 && i.pattern !in snippets && !IsWiring(i, source)
  }

  lemma UnresolvedHead(imports: seq<ImportStmt>, snippets: set<string>, source: string)
    requires imports != []
    ensures var i, rest := imports[0], Unresolved(imports[1..], snippets, source);
            Unresolved(imports, snippets, source)
              == if Reportable(i, snippets, source) then [Import(source, i.line, i.pattern)] + rest else rest
  {
  }

  lemma {:induction false} UnresolvedMembers(imports: seq<ImportStmt>, snippets: set<string>, source: string, x: Import)
    ensures x in Unresolved(imports, snippets, source) <==>
              exists i :: i in imports && x == Import(source, i.line, i.pattern) && Reportable(i, snippets, source)
  {
    hide Reportable, Unresolved;
    if imports == [] {
      NoneUnresolved(snippets, source);
    } else {
      UnresolvedMembers(imports[1..], snippets, source, x);
      UnresolvedHead(imports, snippets, source);
      assert imports == [imports[0]] + imports[1..];
    }
  }

  lemma NoneUnresolved(snippets: set<string>, source: string)
    ensures Unresolved([], snippets, source) == []
  {
  }

  lemma {:induction false} UnresolvedLines(imports: seq<ImportStmt>, snippets: set<string>, source: string)
    requires forall i, j | 0 <= i < j < |imports| :: imports[i].line < imports[j].line
    ensures LinesIncrease(Unresolved(imports, snippets, source), source)
  {
    hide Reportable, Unresolved;
    if imports == [] {
      NoneUnresolved(snippets, source);
    } else {
      var i0, rest := imports[0], Unresolved(imports[1..], snippets, source);
      UnresolvedLines(imports[1..], snippets, source);
      UnresolvedHead(imports, snippets, source);
      forall k | 0 <= k < |rest| ensures i0.line < rest[k].line {
        assert rest[k] in rest;
        UnresolvedMembers(imports[1..], snippets, source, rest[k]);
      }
    }
  }

  lemma UnresolvedSpec(imports: seq<ImportStmt>, snippets: set<string>, source: string)
    requires forall i, j | 0 <= i < j < |imports| :: imports[i].line < imports[j].line
    ensures forall x :: x in Unresolved(imports, snippets, source) <==>
              exists i :: i in imports && x == Import(source, i.line, i.pattern)
                          && i.depth <= 0 && i.pattern !in snippets && !IsWiring(i, source)
    ensures LinesIncrease(Unresolved(imports, snippets, source), source)
  {
    hide Unresolved, IsWiring;
    UnresolvedLines(imports, snippets, source);
    forall x ensures x in Unresolved(imports, snippets, source) <==>
              exists i :: i in imports && x == Import(source, i.line, i.pattern) && Reportable(i, snippets, source)
    {
      UnresolvedMembers(imports, snippets, source, x);
    }
  }

  /** Each top-level import of a source is exactly one of: named like a snippet of the same
      text, the wiring import, or reported; the reported ones come in order of line. */
  lemma ImportsClassified(source: string, text: string, i: ImportStmt)
    requires i in ScanFrom(Lex(text), 0, 0).imports && i.depth <= 0
    ensures var snippets := ScanFrom(Lex(text), 0, 0).snippets;
            var reported := Import(source, i.line, i.pattern) in UnresolvedIn(source, text);
            && (reported <==> i.pattern !in snippets && !IsWiring(i, source))
            && LinesIncrease(UnresolvedIn(source, text), source)
  {
    var s := ScanFrom(Lex(text), 0, 0);
    LexOrdered(text);
    ImportsIncrease(Lex(text), 0, 0);
    UnresolvedSpec(s.imports, s.snippets, source);
    var reported := Import(source, i.line, i.pattern);
    if reported in UnresolvedIn(source, text) {
      var j :| j in s.imports && reported == Import(source, j.line, j.pattern)
               && j.depth <= 0 && j.pattern !in s.snippets && !IsWiring(j, source);
    }
  }

  /** The whole report: the Corefile's unresolved imports, then those of the keys in order. */
  lemma UnresolvedOrdered(corefile: string, servers: map<string, string>)
    requires Inspection(corefile, servers).Ok?
    ensures var v := Inspection(corefile, servers).value;
            && v.unresolved == UnresolvedIn(COREFILE_SOURCE, corefile) + AllUnresolved(SortedSeq(ReadKeys(servers)), servers)
            && (v.wired <==> exists i :: i in ScanFrom(Lex(corefile), 0, 0).imports && i.depth <= 0
                                         && i.pattern == WIRING_IMPORT && i.pattern !in ScanFrom(Lex(corefile), 0, 0).snippets)
  {
    SourceSpec(COREFILE_SOURCE, corefile, map[]);
    var v := SourceInspection(COREFILE_SOURCE, corefile, map[]).value;
    InspectKeysUnresolved(SortedSeq(ReadKeys(servers)), servers, Inspected(v.listeners, v.wired, v.unresolved));
  }

  // ---- the report in full

  /** The text has a top-level import with this pattern on this line, and defines no snippet of
      that name. */
  ghost predicate ImportsAtTop(text: string, line: nat, pattern: string) {
    var scan := ScanFrom(Lex(text), 0, 0);
    pattern !in scan.snippets && exists i :: i in scan.imports && i.line == line && i.pattern == pattern && i.depth <= 0
  }

  lemma UnresolvedInExactly(source: string, text: string, x: Import)
    ensures x in UnresolvedIn(source, text) <==>
              && x.source == source && ImportsAtTop(text, x.line, x.pattern)
              && !(source == "Corefile" && x.pattern == "custom/*.server")
  {
    var s := ScanFrom(Lex(text), 0, 0);
    LexOrdered(text);
    ImportsIncrease(Lex(text), 0, 0);
    UnresolvedSpec(s.imports, s.snippets, source);
  }

  lemma {:induction false} InSomeKey(keys: seq<string>, servers: map<string, string>, x: Import)
    requires forall k | k in keys :: k in servers
    ensures x in AllUnresolved(keys, servers) <==> exists k :: k in keys && x in UnresolvedIn(k, servers[k])
    decreases |keys|
  {
    hide UnresolvedIn;
    if keys != [] {
      assert keys == [keys[0]] + keys[1..];
      InSomeKey(keys[1..], servers, x);
    }
  }

  /** What is reported of a server key other than the managed one. */
  lemma KeysReportExactly(servers: map<string, string>, x: Import)
    ensures x in AllUnresolved(SortedSeq(ReadKeys(servers)), servers) <==>
              && x.source in servers && HasSuffix(x.source, ".server") && x.source != "zoneroute.server"
              && ImportsAtTop(servers[x.source], x.line, x.pattern)
  {
    hide ImportsAtTop, UnresolvedIn, HasSuffix, AllUnresolved;
    var keys := SortedSeq(ReadKeys(servers));
    InSomeKey(keys, servers, x);
    forall k | k in keys
      ensures x in UnresolvedIn(k, servers[k]) <==> x.source == k && ImportsAtTop(servers[k], x.line, x.pattern)
    {
      NotTheCorefile(k);
      UnresolvedInExactly(k, servers[k], x);
    }
    assert x.source in keys <==> x.source in servers && HasSuffix(x.source, ".server") && x.source != "zoneroute.server";
  }

  /** The whole report, import by import. Of the Corefile it has every top-level import that
      names no snippet there and is not the wiring import; of any other server key every such
      import whatever its pattern; and nothing else. The Corefile is wired iff it has the
      wiring import at top level, without a snippet of that name. */
  lemma ReportExactly(corefile: string, servers: map<string, string>, x: Import)
    requires Inspection(corefile, servers).Ok?
    ensures x in Inspection(corefile, servers).value.unresolved <==>
              || (x.source == "Corefile" && ImportsAtTop(corefile, x.line, x.pattern) && x.pattern != "custom/*.server")
              || (&& x.source in servers && HasSuffix(x.source, ".server") && x.source != "zoneroute.server"
                  && ImportsAtTop(servers[x.source], x.line, x.pattern))
    ensures Inspection(corefile, servers).value.wired <==> exists line :: ImportsAtTop(corefile, line, "custom/*.server")
  {
    hide Inspection, ImportsAtTop, UnresolvedIn, AllUnresolved, HasSuffix, ScanFrom, Lex;
    UnresolvedOrdered(corefile, servers);
    UnresolvedInExactly("Corefile", corefile, x);
    KeysReportExactly(servers, x);
    WiredExactly(corefile);
  }

  lemma NotTheCorefile(k: string)
    requires HasSuffix(k, ".server")
    ensures k != "Corefile"
  {
    assert "Corefile"[1..] == "orefile";
  }

  lemma WiredExactly(text: string)
    ensures (exists i :: i in ScanFrom(Lex(text), 0, 0).imports && i.depth <= 0
                         && i.pattern == WIRING_IMPORT && i.pattern !in ScanFrom(Lex(text), 0, 0).snippets)
            <==> exists line :: ImportsAtTop(text, line, "custom/*.server")
  {
    hide ScanFrom, Lex;
    if i :| i in ScanFrom(Lex(text), 0, 0).imports && i.depth <= 0
            && i.pattern == WIRING_IMPORT && i.pattern !in ScanFrom(Lex(text), 0, 0).snippets {
      assert ImportsAtTop(text, i.line, "custom/*.server");
    }
  }

  // ---- what inspection reads

  lemma {:induction false} InspectKeysReads(keys: seq<string>, s1: map<string, string>, s2: map<string, string>, seen: Inspected)
    requires forall k | k in keys :: k in s1 && k in s2 && s1[k] == s2[k]
    ensures InspectKeys(keys, s1, seen) == InspectKeys(keys, s2, seen)
    decreases |keys|
  {
    hide SourceInspection;
    if keys != [] {
      assert keys == [keys[0]] + keys[1..];
      var r := SourceInspection(keys[0], s1[keys[0]], seen.listeners);
      if r.Ok? {
        InspectKeysReads(keys[1..], s1, s2, Next(seen, r.value));
      }
    }
  }

  /** Only the server keys other than the managed one are inputs. */
  lemma InspectionReads(corefile: string, s1: map<string, string>, s2: map<string, string>)
    requires ReadKeys(s1) == ReadKeys(s2)
    requires forall k | k in ReadKeys(s1) :: s1[k] == s2[k]
    ensures Inspection(corefile, s1) == Inspection(corefile, s2)
  {
    var r := SourceInspection(COREFILE_SOURCE, corefile, map[]);
    if r.Ok? {
      InspectKeysReads(SortedSeq(ReadKeys(s1)), s1, s2, Inspected(r.value.listeners, r.value.wired, r.value.unresolved));
    }
  }
}
