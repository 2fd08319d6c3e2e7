/** What the scan for imports finds, token by token: where import statements and snippet
    definitions stand, and how many braces are open there. */
module ScanTheorems {
  import opened Strings
  import opened Caddyfile
  import opened CaddyfileTheorems
  import opened Corefile

  /** The token is the first of its line. */
  predicate FirstOnLine(toks: seq<Token>, p: nat)
    requires p < |toks|
  {
    if p == 0 then toks[0].line != 0 else toks[p - 1].line != toks[p].line
  }

  /** The word `import` at the start of a line with something after it. */
  predicate StatementAt(toks: seq<Token>, p: nat)
    requires p < |toks|
  {
    toks[p].text == "import" && FirstOnLine(toks, p) && p + 1 < |toks| && toks[p + 1].line == toks[p].line
  }

  /** How a token counts: a brace that is not an import's argument. */
  function BraceAt(toks: seq<Token>, p: nat): int
    requires p < |toks|
  {
    if p > 0 && StatementAt(toks, p - 1) then 0
    else if toks[p].text == "{" then 1
    else if toks[p].text == "}" then -1
    else 0
  }

  /** The braces open before a token. */
  function OpenAt(toks: seq<Token>, p: nat): int
    requires p <= |toks|
  {
    if p == 0 then 0 else OpenAt(toks, p - 1) + BraceAt(toks, p - 1)
  }

  predicate DefinitionAt(toks: seq<Token>, p: nat, name: string)
    requires p < |toks|
  {
    name != "" && toks[p].text == "(" + name + ")" && FirstOnLine(toks, p) && OpenAt(toks, p) == 0
  }

  /** The import statement at position `p`. */
  function Statement(toks: seq<Token>, p: nat): ImportStmt
    requires p < |toks| && StatementAt(toks, p)
  {
    ImportStmt(toks[p].line, toks[p + 1].text, OpenAt(toks, p))
  }

  ghost predicate StatementFrom(toks: seq<Token>, from: nat, i: ImportStmt) {
    exists p: nat :: from <= p < |toks| && StatementAt(toks, p) && i == Statement(toks, p)
  }

  ghost predicate DefinitionFrom(toks: seq<Token>, from: nat, name: string) {
    exists p: nat :: from <= p < |toks| && DefinitionAt(toks, p, name)
  }

  function LineBefore(toks: seq<Token>, p: nat): nat
    requires p <= |toks|
  {
    if p == 0 then 0 else toks[p - 1].line
  }

  lemma SnippetText(text: string, name: string)
    ensures SnippetName(text) && text[1..|text| - 1] == name <==> name != "" && text == "(" + name + ")"
  {
    if SnippetName(text) {
      assert text == "(" + text[1..|text| - 1] + ")";
    }
    if text == "(" + name + ")" {
      assert text[1..|text| - 1] == name;
    }
  }

  lemma StatementStep(toks: seq<Token>, p: nat, i: ImportStmt)
    requires p < |toks|
    ensures StatementFrom(toks, p, i) <==> (StatementAt(toks, p) && i == Statement(toks, p)) || StatementFrom(toks, p + 1, i)
  {
    hide StatementAt, OpenAt;
  }

  lemma DefinitionStep(toks: seq<Token>, p: nat, name: string)
    requires p < |toks|
    ensures DefinitionFrom(toks, p, name) <==> DefinitionAt(toks, p, name) || DefinitionFrom(toks, p + 1, name)
  {
    hide DefinitionAt;
  }

  /** The argument of an import is not the first of its line. */
  lemma ArgumentIsNone(toks: seq<Token>, p: nat, name: string)
    requires p < |toks| && StatementAt(toks, p)
    ensures !StatementAt(toks, p + 1) && !DefinitionAt(toks, p + 1, name)
    ensures OpenAt(toks, p + 2) == OpenAt(toks, p)
  {
    assert BraceAt(toks, p + 1) == 0;
    assert BraceAt(toks, p) == 0;
    assert OpenAt(toks, p + 2) == OpenAt(toks, p + 1) + BraceAt(toks, p + 1);
  }

  ghost predicate ScannedFrom(toks: seq<Token>, p: nat, s: Scan) {
    && (forall i :: i in s.imports <==> StatementFrom(toks, p, i))
    && (forall n :: n in s.snippets <==> DefinitionFrom(toks, p, n))
  }

  function ScannedAt(toks: seq<Token>, p: nat): Scan
    requires p <= |toks|
  {
    ScanFrom(toks[p..], OpenAt(toks, p), LineBefore(toks, p))
  }

  /** An import statement, its argument skipped. */
  lemma ScanStatement(toks: seq<Token>, p: nat)
    requires p < |toks| && StatementAt(toks, p)
    requires ScannedFrom(toks, p + 2, ScannedAt(toks, p + 2))
    ensures ScannedFrom(toks, p, ScannedAt(toks, p))
  {
    hide StatementFrom, DefinitionFrom, ScanFrom, SnippetName, OpenAt;
    ScanAt(toks, p, OpenAt(toks, p), LineBefore(toks, p));
    forall i ensures StatementFrom(toks, p, i) <==> i == Statement(toks, p) || StatementFrom(toks, p + 2, i) {
      StatementStep(toks, p, i);
      StatementStep(toks, p + 1, i);
      ArgumentIsNone(toks, p, "");
    }
    forall n ensures DefinitionFrom(toks, p, n) <==> DefinitionFrom(toks, p + 2, n) {
      DefinitionStep(toks, p, n);
      DefinitionStep(toks, p + 1, n);
      ArgumentIsNone(toks, p, n);
    }
    ArgumentIsNone(toks, p, "");
    BracesNameNone("");
    var rest := ScannedAt(toks, p + 2).imports;
    assert forall i :: i in [Statement(toks, p)] + rest <==> i == Statement(toks, p) || i in rest;
  }

  /** The name a token defines here, if any. */
  function NameAt(toks: seq<Token>, p: nat): set<string>
    requires p < |toks|
  {
    var text := toks[p].text;
    if FirstOnLine(toks, p) && OpenAt(toks, p) == 0 && SnippetName(text) then {text[1..|text| - 1]} else {}
  }

  lemma NameIsDefined(toks: seq<Token>, p: nat, n: string)
    requires p < |toks|
    ensures n in NameAt(toks, p) <==> DefinitionAt(toks, p, n)
  {
    hide OpenAt, FirstOnLine;
    SnippetText(toks[p].text, n);
  }

  lemma ScanOtherForm(toks: seq<Token>, p: nat)
    requires p < |toks| && !StatementAt(toks, p) && (p > 0 ==> !StatementAt(toks, p - 1))
    ensures ScannedAt(toks, p) == Scan(ScannedAt(toks, p + 1).imports, ScannedAt(toks, p + 1).snippets + NameAt(toks, p))
  {
    hide ScanFrom, SnippetName;
    ScanAt(toks, p, OpenAt(toks, p), LineBefore(toks, p));
    assert OpenAt(toks, p + 1) == OpenAt(toks, p) + BraceAt(toks, p);
    BracesNameNone(toks[p].text);
    assert FirstOnLine(toks, p) <==> LineBefore(toks, p) != toks[p].line;
  }

  /** Any other token. */
  lemma ScanOther(toks: seq<Token>, p: nat)
    requires p < |toks| && !StatementAt(toks, p) && (p > 0 ==> !StatementAt(toks, p - 1))
    requires ScannedFrom(toks, p + 1, ScannedAt(toks, p + 1))
    ensures ScannedFrom(toks, p, ScannedAt(toks, p))
  {
    hide StatementFrom, DefinitionFrom, ScannedAt, StatementAt, DefinitionAt, NameAt;
    ScanOtherForm(toks, p);
    forall i ensures StatementFrom(toks, p, i) <==> StatementFrom(toks, p + 1, i) {
      StatementStep(toks, p, i);
    }
    forall n ensures DefinitionFrom(toks, p, n) <==> n in NameAt(toks, p) || DefinitionFrom(toks, p + 1, n) {
      DefinitionStep(toks, p, n);
      NameIsDefined(toks, p, n);
    }
  }

  lemma BracesNameNone(text: string)
    ensures !SnippetName("import") && (SnippetName(text) ==> |text| > 2)
    ensures text == "{" || text == "}" ==> !SnippetName(text) && forall n: string :: text != "(" + n + ")"
  {
    if text == "{" || text == "}" {
      forall n: string ensures text != "(" + n + ")" {
        assert ("(" + n + ")")[0] == '(';
      }
    }
  }

  lemma {:induction false} ScanFromPosition(toks: seq<Token>, p: nat)
    requires p <= |toks| && (p > 0 ==> !StatementAt(toks, p - 1))
    ensures ScannedFrom(toks, p, ScannedAt(toks, p))
    decreases |toks| - p
  {
    hide ScannedFrom, ScannedAt;
    if p == |toks| {
      ScanNothing(toks);
    } else if StatementAt(toks, p) {
      ArgumentIsNone(toks, p, "");
      ScanFromPosition(toks, p + 2);
      ScanStatement(toks, p);
    } else {
      ScanFromPosition(toks, p + 1);
      ScanOther(toks, p);
    }
  }

  lemma ScanNothing(toks: seq<Token>)
    ensures ScannedFrom(toks, |toks|, ScannedAt(toks, |toks|))
  {
    assert toks[|toks|..] == [];
    ScanEnd(OpenAt(toks, |toks|), LineBefore(toks, |toks|));
    NothingFrom(toks);
  }

  lemma NothingFrom(toks: seq<Token>)
    ensures forall i :: !StatementFrom(toks, |toks|, i)
    ensures forall n :: !DefinitionFrom(toks, |toks|, n)
  {
  }

  /** The scan finds exactly the import statements, each with its line, its argument and the
      braces open before it, and exactly the snippet names defined outside all braces. */
  lemma ScanExactly(text: string)
    ensures var toks, s := Lex(text), ScanFrom(Lex(text), 0, 0);
            && (forall i :: i in s.imports <==> exists p: nat :: p < |toks| && StatementAt(toks, p) && i == Statement(toks, p))
            && (forall n :: n in s.snippets <==> exists p: nat :: p < |toks| && DefinitionAt(toks, p, n))
  {
    hide Lex, ScanFrom, StatementAt, DefinitionAt;
    var toks := Lex(text);
    ScanFromPosition(toks, 0);
    assert toks[0..] == toks;
    forall i ensures StatementFrom(toks, 0, i) <==> exists p: nat :: p < |toks| && StatementAt(toks, p) && i == Statement(toks, p) {
    }
    forall n ensures DefinitionFrom(toks, 0, n) <==> exists p: nat :: p < |toks| && DefinitionAt(toks, p, n) {
    }
  }
}
