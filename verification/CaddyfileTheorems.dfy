/** Facts about the lexer: it can be run piecewise, its line numbers point into the text, and
    emptying lines that cut no quoted token removes exactly those lines' tokens. */
module CaddyfileTheorems {
  import opened Wrappers
  import opened Strings
  import opened Caddyfile

  lemma {:induction false} RunConcat(l: Lexer, a: string, b: string)
    ensures Run(l, a + b) == Run(Run(l, a), b)
    decreases |a|
  {
    if a == "" {
      assert a + b == b;
    } else {
      assert (a + b)[0] == a[0] && (a + b)[1..] == a[1..] + b;
      RunConcat(Step(l, a[0]), a[1..], b);
    }
  }

  /** Tokens already read play no part in reading more. */
  lemma {:induction false} RunFrame(l: Lexer, s: string)
    ensures Run(l, s) == Run(l.(tokens := []), s).(tokens := l.tokens + Run(l.(tokens := []), s).tokens)
    decreases |s|
  {
    if s == "" {
      assert l.tokens + [] == l.tokens;
    } else {
      var l0 := l.(tokens := []);
      var n, n0 := Step(l, s[0]), Step(l0, s[0]);
      assert n == n0.(tokens := l.tokens + n0.tokens);
      RunFrame(n, s[1..]);
      RunFrame(n0, s[1..]);
      var more := Run(n.(tokens := []), s[1..]).tokens;
      assert n.(tokens := []) == n0.(tokens := []);
      assert (l.tokens + n0.tokens) + more == l.tokens + (n0.tokens + more);
    }
  }

  // ---- line numbers

  ghost predicate LinesWithin(toks: seq<Token>, lo: nat, hi: nat) {
    forall t | t in toks :: lo <= t.line <= hi
  }

  ghost predicate LexerWithin(l: Lexer, lo: nat) {
    && lo <= l.line
    && LinesWithin(l.tokens, lo, l.line)
    && (l.mode.Word? || l.mode.Quoted? || l.mode.Escaped? ==> lo <= l.mode.start <= l.line)
  }

  lemma {:induction false} RunWithin(l: Lexer, s: string, lo: nat)
    requires LexerWithin(l, lo)
    ensures LexerWithin(Run(l, s), lo)
    ensures Run(l, s).line + 1 == l.line + |Split(s, '\n')|
    decreases |s|
  {
    if s == "" {
    } else {
      var n := Step(l, s[0]);
      StepWithin(l, s[0], lo);
      RunWithin(n, s[1..], lo);
    }
  }

  lemma StepWithin(l: Lexer, c: char, lo: nat)
    requires LexerWithin(l, lo)
    ensures LexerWithin(Step(l, c), lo)
    ensures Step(l, c).line == if c == '\n' then l.line + 1 else l.line
  {
  }

  /** Every token lies on a line of the text, so a line can be looked up by a token's
      line number. */
  lemma LexWithin(text: string)
    ensures forall t | t in Lex(text) :: 1 <= t.line <= |Split(text, '\n')|
  {
    RunWithin(START, text, 1);
  }

  // ---- emptying lines

  predicate OpenQuote(m: Mode) {
    m.Quoted? || m.Escaped?
  }

  function DropLines(toks: seq<Token>, dropped: set<nat>): seq<Token> {
    if toks == [] then []
    else (if toks[0].line in dropped then [] else [toks[0]]) + DropLines(toks[1..], dropped)
  }

  lemma DropHead(toks: seq<Token>, dropped: set<nat>)
    requires toks != []
    ensures DropLines(toks, dropped) ==
              if toks[0].line in dropped then DropLines(toks[1..], dropped) else [toks[0]] + DropLines(toks[1..], dropped)
  {
    assert [] + DropLines(toks[1..], dropped) == DropLines(toks[1..], dropped);
  }

  lemma {:induction false} DropConcat(a: seq<Token>, b: seq<Token>, dropped: set<nat>)
    ensures DropLines(a + b, dropped) == DropLines(a, dropped) + DropLines(b, dropped)
  {
    if a == [] {
      assert a + b == b;
    } else {
      assert (a + b)[0] == a[0] && (a + b)[1..] == a[1..] + b;
      DropConcat(a[1..], b, dropped);
    }
  }

  lemma {:induction false} DropAll(toks: seq<Token>, n: nat, dropped: set<nat>)
    requires LinesWithin(toks, n, n) && n in dropped
    ensures DropLines(toks, dropped) == []
  {
    if toks != [] {
      assert toks[0] in toks;
      DropAll(toks[1..], n, dropped);
    }
  }

  /** The lines with the dropped ones emptied; line numbers count from `n`. */
  function Blanked(lines: seq<string>, n: nat, dropped: set<nat>): (r: seq<string>)
    ensures |r| == |lines|
  {
    seq(|lines|, i requires 0 <= i < |lines| => if n + i in dropped then "" else lines[i])
  }

  /** The lexer as it would be had the dropped lines been empty. */
  function Without(l: Lexer, dropped: set<nat>): Lexer {
    l.(tokens := DropLines(l.tokens, dropped))
  }

  /** The token being read, if any, began on a line that is kept. */
  predicate StartKept(m: Mode, dropped: set<nat>) {
    m.Word? || m.Quoted? || m.Escaped? ==> m.start !in dropped
  }

  lemma EmitKept(toks: seq<Token>, t: Token, dropped: set<nat>)
    requires t.line !in dropped
    ensures DropLines(toks + [t], dropped) == DropLines(toks, dropped) + [t]
  {
    DropConcat(toks, [t], dropped);
    assert [t][1..] == [];
  }

  lemma StepKept(l: Lexer, c: char, dropped: set<nat>)
    requires l.line !in dropped && StartKept(l.mode, dropped)
    ensures Step(Without(l, dropped), c) == Without(Step(l, c), dropped)
    ensures StartKept(Step(l, c).mode, dropped)
  {
    hide DropLines;
    if l.mode.Word? || l.mode.Quoted? {
      EmitKept(l.tokens, Token(l.mode.text, l.mode.start), dropped);
    }
  }

  /** A kept line, up to its end. */
  lemma {:induction false} RunKept(l: Lexer, s: string, dropped: set<nat>)
    requires l.line !in dropped && StartKept(l.mode, dropped) && '\n' !in s
    ensures Run(Without(l, dropped), s) == Without(Run(l, s), dropped)
    ensures StartKept(Run(l, s).mode, dropped) && Run(l, s).line == l.line
    decreases |s|
  {
    hide StartKept, Without;
    if s != "" {
      assert s[0] in s;
      StepKept(l, s[0], dropped);
      StepLine(l, s[0]);
      RunKept(Step(l, s[0]), s[1..], dropped);
    }
  }

  lemma StepLine(l: Lexer, c: char)
    ensures Step(l, c).line == if c == '\n' then l.line + 1 else l.line
  {
  }

  /** The line begins and ends outside quotes. */
  predicate WholeLine(l: Lexer, line: string) {
    l.mode.Between? && !OpenQuote(Run(l, line).mode)
  }

  /** A dropped line leaves nothing behind. */
  lemma RunDropped(l: Lexer, line: string, dropped: set<nat>)
    requires l.line in dropped && '\n' !in line && WholeLine(l, line)
    ensures DropLines(Finish(Run(l, line)), dropped) == DropLines(l.tokens, dropped)
    ensures Run(l, line).line == l.line && !OpenQuote(Run(l, line).mode)
  {
    var n, bare := l.line, l.(tokens := []);
    RunFrame(l, line);
    var r := Run(bare, line);
    SplitAtom(line, '\n');
    RunWithin(bare, line, n);
    assert LinesWithin(Finish(r), n, n);
    assert Finish(Run(l, line)) == l.tokens + Finish(r);
    DropConcat(l.tokens, Finish(r), dropped);
    DropAll(Finish(r), n, dropped);
  }

  lemma FinishNewline(l: Lexer)
    requires !OpenQuote(l.mode)
    ensures Step(l, '\n') == Lexer(Finish(l), l.line + 1, Between)
  {
  }

  /** No dropped line cuts a quoted token: each begins and ends outside quotes. */
  predicate Uncut(l: Lexer, lines: seq<string>, dropped: set<nat>)
    decreases |lines|
  {
    lines == [] ||
    ((l.line in dropped ==> WholeLine(l, lines[0])) && Uncut(Step(Run(l, lines[0]), '\n'), lines[1..], dropped))
  }

  lemma RunNewline(l: Lexer, line: string, rest: string)
    ensures Run(l, line + "\n" + rest) == Run(Step(Run(l, line), '\n'), rest)
  {
    assert line + "\n" + rest == line + ("\n" + rest);
    RunConcat(l, line, "\n" + rest);
    assert ("\n" + rest)[1..] == rest;
  }

  lemma FinishKept(l: Lexer, dropped: set<nat>)
    requires StartKept(l.mode, dropped)
    ensures Finish(Without(l, dropped)) == DropLines(Finish(l), dropped)
  {
    hide DropLines;
    if l.mode.Word? || OpenQuote(l.mode) {
      EmitKept(l.tokens, Token(l.mode.text, l.mode.start), dropped);
    }
  }

  /** Reading the emptied lines from any line start. */
  lemma {:induction false} RunBlanked(l: Lexer, lines: seq<string>, dropped: set<nat>)
    requires lines != [] && (forall x | x in lines :: '\n' !in x)
    requires StartKept(l.mode, dropped) && Uncut(l, lines, dropped)
    ensures Finish(Run(Without(l, dropped), Join(Blanked(lines, l.line, dropped), "\n")))
         == DropLines(Finish(Run(l, Join(lines, "\n"))), dropped)
    decreases |lines|
  {
    hide Run, Step, Finish, DropLines, StartKept, OpenQuote;
    var line, b := lines[0], Blanked(lines, l.line, dropped);
    assert line in lines;
    assert b[0] == if l.line in dropped then "" else line;
    var w := Without(l, dropped);
    var after, wafter := Run(l, line), Run(w, b[0]);
    if l.line in dropped {
      RunDropped(l, line, dropped);
      RunEmpty(w);
    } else {
      RunKept(l, line, dropped);
    }
    if |lines| == 1 {
      JoinOne(line, "\n");
      JoinOne(b[0], "\n");
      assert lines == [line] && b == [b[0]];
      if l.line in dropped {
        FinishBetween(w);
      } else {
        FinishKept(after, dropped);
      }
    } else {
      var next := Step(after, '\n');
      StepLine(after, '\n');
      assert b[1..] == Blanked(lines[1..], next.line, dropped);
      assert StartKept(next.mode, dropped) && Step(wafter, '\n') == Without(next, dropped) by {
        if l.line in dropped {
          FinishNewline(after);
          FinishBetween(w);
          BetweenIsKept(dropped);
          StepBetween(w);
        } else {
          StepKept(after, '\n', dropped);
        }
      }
      RunNewline(l, line, Join(lines[1..], "\n"));
      RunNewline(w, b[0], Join(b[1..], "\n"));
      RunBlanked(next, lines[1..], dropped);
    }
  }

  lemma RunEmpty(l: Lexer)
    ensures Run(l, "") == l
  {
  }

  lemma FinishBetween(l: Lexer)
    requires l.mode.Between?
    ensures Finish(l) == l.tokens && !OpenQuote(l.mode)
  {
  }

  lemma StepBetween(l: Lexer)
    requires l.mode.Between?
    ensures Step(l, '\n') == l.(line := l.line + 1)
  {
  }

  lemma BetweenIsKept(dropped: set<nat>)
    ensures StartKept(Between, dropped)
  {
  }

  /** The lines of the text can be emptied without cutting a quoted token. */
  predicate LinesUncut(text: string, dropped: set<nat>) {
    Uncut(START, Split(text, '\n'), dropped)
  }

  /** Emptying lines that cut no quoted token removes exactly their tokens: every other token
      keeps its place, its text and its line number. */
  lemma BlankingDropsLines(text: string, dropped: set<nat>)
    requires LinesUncut(text, dropped)
    ensures Lex(Join(Blanked(Split(text, '\n'), 1, dropped), "\n")) == DropLines(Lex(text), dropped)
  {
    hide Uncut;
    JoinSplit(text, '\n');
    RunBlanked(START, Split(text, '\n'), dropped);
  }

  // ---- tokens come in the order of their lines

  ghost predicate Ordered(toks: seq<Token>, prev: nat) {
    && (forall i | 0 <= i < |toks| :: prev <= toks[i].line)
    && (forall i, j | 0 <= i < j < |toks| :: toks[i].line <= toks[j].line)
  }

  lemma OrderedTail(toks: seq<Token>, prev: nat, k: nat)
    requires Ordered(toks, prev) && 1 <= k <= |toks|
    ensures Ordered(toks[k..], toks[0].line)
  {
  }

  ghost predicate LexerOrdered(l: Lexer) {
    var last := if l.mode.Word? || l.mode.Quoted? || l.mode.Escaped? then l.mode.start else l.line;
    last <= l.line && Ordered(l.tokens, 0) && forall t | t in l.tokens :: t.line <= last
  }

  lemma AppendOrdered(toks: seq<Token>, t: Token)
    requires Ordered(toks, 0) && forall x | x in toks :: x.line <= t.line
    ensures Ordered(toks + [t], 0)
  {
    forall i | 0 <= i < |toks| ensures toks[i].line <= t.line {
      assert toks[i] in toks;
    }
  }

  lemma StepOrdered(l: Lexer, c: char)
    requires LexerOrdered(l)
    ensures LexerOrdered(Step(l, c))
  {
    hide Ordered;
    if l.mode.Word? || l.mode.Quoted? {
      AppendOrdered(l.tokens, Token(l.mode.text, l.mode.start));
    }
  }

  lemma {:induction false} RunOrdered(l: Lexer, s: string)
    requires LexerOrdered(l)
    ensures LexerOrdered(Run(l, s))
    decreases |s|
  {
    if s != "" {
      StepOrdered(l, s[0]);
      RunOrdered(Step(l, s[0]), s[1..]);
    }
  }

  lemma LexOrdered(text: string)
    ensures Ordered(Lex(text), 0)
  {
    RunOrdered(START, text);
    var l := Run(START, text);
    forall i | 0 <= i < |l.tokens| ensures l.tokens[i] in l.tokens {
    }
  }

  // ---- brace depth

  datatype Placed = Placed(token: Token, depth: int)

  /** Each token with the number of braces open before it. */
  function Depths(toks: seq<Token>, depth: int): seq<Placed>
    decreases |toks|
  {
    if toks == [] then []
    else
      var t := toks[0];
      [Placed(t, depth)] + Depths(toks[1..], if t.text == "{" then depth + 1 else if t.text == "}" then depth - 1 else depth)
  }

  function DropPlaced(ps: seq<Placed>, dropped: set<nat>): seq<Placed> {
    if ps == [] then []
    else (if ps[0].token.line in dropped then [] else [ps[0]]) + DropPlaced(ps[1..], dropped)
  }

  /** Lines without braces can go without changing the depth of any other token. */
  lemma {:induction false} DroppingKeepsDepths(toks: seq<Token>, depth: int, dropped: set<nat>)
    requires forall t | t in toks && t.line in dropped :: t.text != "{" && t.text != "}"
    ensures Depths(DropLines(toks, dropped), depth) == DropPlaced(Depths(toks, depth), dropped)
    decreases |toks|
  {
    if toks == [] {
    } else {
      var t := toks[0];
      assert t in toks;
      var d := if t.text == "{" then depth + 1 else if t.text == "}" then depth - 1 else depth;
      DroppingKeepsDepths(toks[1..], d, dropped);
      var ps := Depths(toks, depth);
      assert ps[0] == Placed(t, depth) && ps[1..] == Depths(toks[1..], d);
      DropHead(toks, dropped);
      if t.line in dropped {
        assert [] + DropPlaced(ps[1..], dropped) == DropPlaced(ps[1..], dropped);
      } else {
        assert ([t] + DropLines(toks[1..], dropped))[1..] == DropLines(toks[1..], dropped);
      }
    }
  }
}
