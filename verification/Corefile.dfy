/** internal/corefile/corefile.go: which listeners the visible CoreDNS configuration
    defines, whether the Corefile is wired, and which imports cannot be followed. */
module Corefile {
  import opened Wrappers
  import opened Sorting
  import opened Strings
  import opened Net
  import opened DnsName
  import opened Caddyfile
  import opened CaddyfileTheorems

  const MANAGED_KEY := "zoneroute.server"
  const WIRING_IMPORT := "custom/*.server"
  const COREFILE_SOURCE := "Corefile"
  const SERVER_SUFFIX := ".server"

  datatype Listener = Listener(transport: string, zone: string, port: int)
  datatype Import = Import(source: string, line: nat, pattern: string)
  datatype Inspected = Inspected(listeners: map<Listener, string>, wired: bool, unresolved: seq<Import>)

  const DEFAULT_PORTS: map<string, int> :=
    map["dns" := 53, "tls" := 853, "quic" := 853, "grpc" := 443, "https" := 443, "https3" := 443, "unix" := 0]

  // ---- import statements

  datatype ImportStmt = ImportStmt(line: nat, pattern: string, depth: int)
  datatype Scan = Scan(imports: seq<ImportStmt>, snippets: set<string>)

  predicate SnippetName(text: string) {
    |text| > 2 && text[0] == '(' && text[|text| - 1] == ')'
  }

  /** The first token is an import statement with an argument on the same line. */
  predicate AtImport(toks: seq<Token>, prev: nat) {
    |toks| > 1 && LineStart(toks[0], prev) && toks[0].text == "import" && toks[1].line == toks[0].line
  }

  function ScanFrom(toks: seq<Token>, depth: int, prev: nat): Scan
    decreases |toks|
  {
    if toks == [] then
      Scan([], {})
    else
      var t, rest := toks[0], toks[1..];
      if t.text == "{" then ScanFrom(rest, depth + 1, t.line)
      else if t.text == "}" then ScanFrom(rest, depth - 1, t.line)
      else if LineStart(t, prev) && depth == 0 && SnippetName(t.text) then
        var s := ScanFrom(rest, depth, t.line);
        s.(snippets := s.snippets + {t.text[1..|t.text| - 1]})
      else if AtImport(toks, prev) then
        var s := ScanFrom(toks[2..], depth, t.line);
        s.(imports := [ImportStmt(t.line, toks[1].text, depth)] + s.imports)
      else
        ScanFrom(rest, depth, t.line)
  }

  predicate HasArgument(toks: seq<Token>, i: nat)
    requires i < |toks|
  {
    i + 1 < |toks| && toks[i + 1].line == toks[i].line
  }

  /** One step of the scan, by position. */
  lemma ScanAt(toks: seq<Token>, i: nat, depth: int, prev: nat)
    requires i < |toks|
    ensures var t, rest := toks[i], toks[i + 1..];
            var s := ScanFrom(toks[i..], depth, prev);
            if t.text == "{" then s == ScanFrom(rest, depth + 1, t.line)
            else if t.text == "}" then s == ScanFrom(rest, depth - 1, t.line)
            else if t.line != prev && depth == 0 && SnippetName(t.text) then
              var n := ScanFrom(rest, depth, t.line);
              s == Scan(n.imports, n.snippets + {t.text[1..|t.text| - 1]})
            else if t.line != prev && t.text == "import" && HasArgument(toks, i) then
              var n := ScanFrom(toks[i + 2..], depth, t.line);
              s == Scan([ImportStmt(t.line, toks[i + 1].text, depth)] + n.imports, n.snippets)
            else s == ScanFrom(rest, depth, t.line)
  {
    var here := toks[i..];
    assert here[0] == toks[i] && here[1..] == toks[i + 1..];
    if HasArgument(toks, i) {
      assert here[1] == toks[i + 1] && here[2..] == toks[i + 2..];
    }
  }

  lemma ScanEnd(depth: int, prev: nat)
    ensures ScanFrom([], depth, prev) == Scan([], {})
  {
  }

  method ScanImports(text: string) returns (imports: seq<ImportStmt>, snippets: set<string>)
    ensures Scan(imports, snippets) == ScanFrom(Lex(text), 0, 0)
  {
    hide ScanFrom, Lex;
    var toks := Lex(text);
    imports, snippets := [], {};
    var depth, prev: nat, i := 0, 0, 0;
    ghost var whole := ScanFrom(toks, 0, 0);
    assert toks[0..] == toks;
    while i < |toks|
      invariant 0 <= i <= |toks|
      invariant imports + ScanFrom(toks[i..], depth, prev).imports == whole.imports
      invariant snippets + ScanFrom(toks[i..], depth, prev).snippets == whole.snippets
    {
      ScanAt(toks, i, depth, prev);
      var v, line := toks[i].text, toks[i].line;
      var lineStart := line != prev;
      if v == "{" {
        depth := depth + 1;
      } else if v == "}" {
        depth := depth - 1;
      } else if lineStart && depth == 0 && SnippetName(v) {
        snippets := snippets + {v[1..|v| - 1]};
      } else if lineStart && v == "import" {
        if HasArgument(toks, i) {
          i := i + 1;
          ConcatAssociative(imports, [ImportStmt(line, toks[i].text, depth)], ScanFrom(toks[i + 1..], depth, line).imports);
          imports := imports + [ImportStmt(line, toks[i].text, depth)];
        }
      }
      prev := line;
      i := i + 1;
    }
    assert toks[i..] == [];
    ScanEnd(depth, prev);
    assert imports + [] == imports && snippets + {} == snippets;
  }

  // ---- keys of a server block

  const UNKNOWN_TRANSPORT := "unknown transport"
  const INVALID_PORT := "invalid port"

  function KeyError(key: string, problem: string): string {
    "server block \"" + key + "\": " + problem
  }

  function ParseKey(key: string): Result<Listener> {
    var cut := Find(key, "://");
    var transport := if cut.Some? then key[..cut.value] else "dns";
    var host := if cut.Some? then key[cut.value + 3..] else key;
    if transport !in DEFAULT_PORTS then
      Err(KeyError(key, UNKNOWN_TRANSPORT))
    else match SplitHostPort(host)
      case Ok(hp) => (
        match Atoi(hp.port)
        case None => Err(KeyError(key, INVALID_PORT))
        case Some(n) =>
          if n < 1 || n > 65535 then Err(KeyError(key, INVALID_PORT))
          else Ok(Listener(transport, Canonical(hp.host), n)))
      case Err(e) =>
        if ':' !in host then Ok(Listener(transport, Canonical(host), DEFAULT_PORTS[transport]))
        else if HasPrefix(host, "[") && HasSuffix(host, "]") then
          Ok(Listener(transport, Canonical(host[1..|host| - 1]), DEFAULT_PORTS[transport]))
        else Err(KeyError(key, e))
  }

  // ---- one source

  /** Adds the listeners of the keys; a listener already present keeps its source. */
  function AddKeys(keys: seq<string>, source: string, listeners: map<Listener, string>): Result<map<Listener, string>>
    decreases |keys|
  {
    if keys == [] then
      Ok(listeners)
    else
      var l :- ParseKey(keys[0]);
      AddKeys(keys[1..], source, if l in listeners then listeners else listeners[l := source])
  }

  function BlockKeys(blocks: seq<Block>): seq<string> {
    if blocks == [] then [] else blocks[0].keys + BlockKeys(blocks[1..])
  }

  function Unresolved(imports: seq<ImportStmt>, snippets: set<string>, source: string): seq<Import> {
    if imports == [] then
      []
    else
      var i, rest := imports[0], Unresolved(imports[1..], snippets, source);
      if i.depth > 0 || i.pattern in snippets || IsWiring(i, source) then rest
      else [Import(source, i.line, i.pattern)] + rest
  }

  predicate IsWiring(i: ImportStmt, source: string) {
    source == COREFILE_SOURCE && i.pattern == WIRING_IMPORT
  }

  predicate Wires(imports: seq<ImportStmt>, snippets: set<string>, source: string) {
    exists i | i in imports :: i.depth <= 0 && i.pattern !in snippets && IsWiring(i, source)
  }

  function ImportLines(imports: seq<ImportStmt>): set<nat> {
    set i | i in imports :: i.line
  }

  /** The text without its import lines. */
  function WithoutImports(text: string): string {
    Join(Blanked(Split(text, '\n'), 1, ImportLines(ScanFrom(Lex(text), 0, 0).imports)), "\n")
  }

  function SourceError(source: string, e: string): string {
    source + ": " + e
  }

  datatype SourceView = SourceView(listeners: map<Listener, string>, unresolved: seq<Import>, wired: bool)

  function SourceInspection(source: string, text: string, listeners: map<Listener, string>): Result<SourceView> {
    var scan := ScanFrom(Lex(text), 0, 0);
    match Parse(WithoutImports(text))
    case Err(e) => Err(SourceError(source, e))
    case Ok(blocks) =>
      match AddKeys(BlockKeys(blocks), source, listeners)
      case Err(e) => Err(SourceError(source, e))
      case Ok(ls) => Ok(SourceView(ls, Unresolved(scan.imports, scan.snippets, source), Wires(scan.imports, scan.snippets, source)))
  }

  /** Import lines lie in the text, so blanking them stays in bounds. */
  lemma {:induction false} ImportLinesWithin(toks: seq<Token>, depth: int, prev: nat, hi: nat)
    requires LinesWithin(toks, 1, hi)
    ensures forall i | i in ScanFrom(toks, depth, prev).imports :: 1 <= i.line <= hi
    decreases |toks|
  {
    if toks != [] {
      var t := toks[0];
      assert t in toks;
      var d := if t.text == "{" then depth + 1 else if t.text == "}" then depth - 1 else depth;
      ImportLinesWithin(toks[1..], d, t.line, hi);
      if |toks| > 1 {
        ImportLinesWithin(toks[2..], depth, t.line, hi);
      }
    }
  }

  method BlankLines(lines: array<string>, imports: seq<ImportStmt>)
    requires forall i | i in imports :: 1 <= i.line <= lines.Length
    modifies lines
    ensures lines[..] == Blanked(old(lines[..]), 1, ImportLines(imports))
  {
    for k := 0 to |imports|
      invariant lines[..] == Blanked(old(lines[..]), 1, ImportLines(imports[..k]))
    {
      ghost var before := lines[..];
      assert imports[k] in imports;
      lines[imports[k].line - 1] := "";
      assert imports[..k + 1] == imports[..k] + [imports[k]];
      assert ImportLines(imports[..k + 1]) == ImportLines(imports[..k]) + {imports[k].line};
      assert lines[..] == before[imports[k].line - 1 := ""];
    }
    assert imports[..|imports|] == imports;
  }

  method InspectSource(source: string, text: string, listeners: map<Listener, string>) returns (r: Result<SourceView>)
    ensures r == SourceInspection(source, text, listeners)
  {
    var imports, snippets := ScanImports(text);
    var split := Split(text, '\n');
    var lines := new string[|split|](i requires 0 <= i < |split| => split[i]);
    assert lines[..] == split;
    LexWithin(text);
    ImportLinesWithin(Lex(text), 0, 0, |split|);
    BlankLines(lines, imports);
    var parsed := Parse(Join(lines[..], "\n"));
    if parsed.Err? {
      return Err(SourceError(source, parsed.error));
    }
    var added := AddAll(parsed.value, source, listeners);
    if added.Err? {
      return Err(SourceError(source, added.error));
    }
    var unresolved, wired := Classify(imports, snippets, source);
    r := Ok(SourceView(added.value, unresolved, wired));
  }

  method AddAll(blocks: seq<Block>, source: string, listeners: map<Listener, string>) returns (r: Result<map<Listener, string>>)
    ensures r == AddKeys(BlockKeys(blocks), source, listeners)
  {
    var ls := listeners;
    for i := 0 to |blocks|
      invariant AddKeys(BlockKeys(blocks[i..]), source, ls) == AddKeys(BlockKeys(blocks), source, listeners)
    {
      var keys := blocks[i].keys;
      assert blocks[i..][0] == blocks[i] && blocks[i..][1..] == blocks[i + 1..];
      ghost var tail := BlockKeys(blocks[i + 1..]);
      for k := 0 to |keys|
        invariant AddKeys(keys[k..] + tail, source, ls) == AddKeys(BlockKeys(blocks), source, listeners)
      {
        assert (keys[k..] + tail)[0] == keys[k] && (keys[k..] + tail)[1..] == keys[k + 1..] + tail;
        var l := ParseKey(keys[k]);
        if l.Err? {
          return Err(l.error);
        }
        if l.value !in ls {
          ls := ls[l.value := source];
        }
      }
      assert keys[|keys|..] + tail == tail;
    }
    r := Ok(ls);
  }

  method Classify(imports: seq<ImportStmt>, snippets: set<string>, source: string) returns (unresolved: seq<Import>, wired: bool)
    ensures unresolved == Unresolved(imports, snippets, source)
    ensures wired == Wires(imports, snippets, source)
  {
    unresolved, wired := [], false;
    for k := 0 to |imports|
      invariant unresolved + Unresolved(imports[k..], snippets, source) == Unresolved(imports, snippets, source)
      invariant wired == Wires(imports[..k], snippets, source)
    {
      var i := imports[k];
      assert imports[k..][0] == i && imports[k..][1..] == imports[k + 1..];
      assert imports[..k + 1] == imports[..k] + [i];
      if i.depth > 0 || i.pattern in snippets {
        continue;
      }
      if source == COREFILE_SOURCE && i.pattern == WIRING_IMPORT {
        wired := true;
        continue;
      }
      unresolved := unresolved + [Import(source, i.line, i.pattern)];
    }
    assert imports[..|imports|] == imports;
  }

  // ---- all sources

  predicate IsServerKey(k: string) {
    HasSuffix(k, SERVER_SUFFIX)
  }

  function ReadKeys(servers: map<string, string>): set<string> {
    set k | k in servers && k != MANAGED_KEY && IsServerKey(k)
  }

  lemma LessSeparates(s: set<string>)
    ensures StrictWeakOrder(Less) && Separated(Less, s)
  {
    LessIsOrder();
    forall x, y | x in s && y in s ensures x == y || Less(x, y) || Less(y, x) {
      LessTotal(x, y);
    }
  }

  /** A set of strings in order. */
  ghost function SortedSeq(s: set<string>): (r: seq<string>)
    ensures StrictlySorted(r, Less)
    ensures forall x :: x in r <==> x in s
  {
    LessSeparates(s);
    SortedSet(s, Less)
  }

  function InspectKeys(keys: seq<string>, servers: map<string, string>, seen: Inspected): Result<Inspected>
    requires forall k | k in keys :: k in servers
  {
    if keys == [] then
      Ok(seen)
    else
      var v :- SourceInspection(keys[0], servers[keys[0]], seen.listeners);
      InspectKeys(keys[1..], servers, seen.(listeners := v.listeners, unresolved := seen.unresolved + v.unresolved))
  }

  ghost function Inspection(corefile: string, servers: map<string, string>): Result<Inspected> {
    var v :- SourceInspection(COREFILE_SOURCE, corefile, map[]);
    InspectKeys(SortedSeq(ReadKeys(servers)), servers, Inspected(v.listeners, v.wired, v.unresolved))
  }

  /** The keys are taken from the map in an arbitrary order; sorting makes the result
      independent of it. */
  method CollectKeys(servers: map<string, string>) returns (keys: seq<string>)
    ensures keys == SortedSeq(ReadKeys(servers))
  {
    keys := [];
    var left := servers.Keys;
    while left != {}
      invariant left <= servers.Keys
      invariant forall k :: k in keys <==> k in ReadKeys(servers) && k !in left
      invariant forall i, j | 0 <= i < j < |keys| :: keys[i] != keys[j]
      decreases |left|
    {
      var k :| k in left;
      left := left - {k};
      if k != MANAGED_KEY && HasSuffix(k, SERVER_SUFFIX) {
        keys := keys + [k];
      }
    }
    LessSeparates(ReadKeys(servers));
    CollectedThenSorted(keys, ReadKeys(servers), Less);
    keys := Sort(keys, Less);
  }

  lemma InspectKeysStep(keys: seq<string>, i: nat, servers: map<string, string>, seen: Inspected)
    requires i < |keys| && forall k | k in keys :: k in servers
    ensures InspectKeys(keys[i..], servers, seen) ==
              match SourceInspection(keys[i], servers[keys[i]], seen.listeners)
              case Err(e) => Err(e)
              case Ok(v) => InspectKeys(keys[i + 1..], servers, seen.(listeners := v.listeners, unresolved := seen.unresolved + v.unresolved))
  {
    hide SourceInspection;
    assert keys[i..][0] == keys[i] && keys[i..][1..] == keys[i + 1..];
  }

  lemma InspectKeysEnd(servers: map<string, string>, seen: Inspected)
    ensures InspectKeys([], servers, seen) == Ok(seen)
  {
  }

  method Inspect(corefile: string, servers: map<string, string>) returns (r: Result<Inspected>)
    ensures r == Inspection(corefile, servers)
  {
    hide SourceInspection, InspectKeys;
    var first := InspectSource(COREFILE_SOURCE, corefile, map[]);
    if first.Err? {
      return Err(first.error);
    }
    var seen := Inspected(first.value.listeners, first.value.wired, first.value.unresolved);
    var keys := CollectKeys(servers);
    ghost var start := seen;
    assert keys[0..] == keys;
    assert forall k | k in keys :: k in servers;
    for i := 0 to |keys|
      invariant InspectKeys(keys[i..], servers, seen) == InspectKeys(keys, servers, start)
    {
      InspectKeysStep(keys, i, servers, seen);
      assert keys[i] in keys;
      var v := InspectSource(keys[i], servers[keys[i]], seen.listeners);
      if v.Err? {
        return Err(v.error);
      }
      seen := seen.(listeners := v.value.listeners, unresolved := seen.unresolved + v.value.unresolved);
    }
    assert keys[|keys|..] == [];
    InspectKeysEnd(servers, seen);
    r := Ok(seen);
  }
}
