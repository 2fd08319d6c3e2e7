/** How the rendered text reads back as tokens. The text is laid out as lines of plain
    words, and the lexer gives those words back. */
module RenderedText {
  import opened Wrappers
  import opened Sorting
  import opened Strings
  import opened DnsName
  import opened Caddyfile
  import opened CaddyfileTheorems
  import opened Render

  predicate PlainChar(c: char) {
    !IsSpace(c) && c != '#' && c != '"'
  }

  predicate Plain(w: string) {
    w != "" && forall c | c in w :: PlainChar(c)
  }

  predicate AllPlain(words: seq<string>) {
    forall w | w in words :: Plain(w)
  }

  function WordTokens(words: seq<string>, line: nat): (r: seq<Token>)
    ensures |r| == |words|
  {
    seq(|words|, i requires 0 <= i < |words| => Token(words[i], line))
  }

  lemma {:induction false} RunWordTail(l: Lexer, text: string, start: nat, w: string)
    requires l.mode == Word(text, start)
    requires forall c | c in w :: PlainChar(c)
    ensures Run(l, w) == l.(mode := Word(text + w, start))
    decreases |w|
  {
    if w == "" {
      assert text + w == text;
    } else {
      assert w[0] in w;
      RunWordTail(Step(l, w[0]), text + [w[0]], start, w[1..]);
      assert text + [w[0]] + w[1..] == text + w;
    }
  }

  lemma RunWord(l: Lexer, w: string)
    requires l.mode == Between && Plain(w)
    ensures Run(l, w) == l.(mode := Word(w, l.line))
  {
    assert w[0] in w;
    RunWordTail(Step(l, w[0]), [w[0]], l.line, w[1..]);
    assert [w[0]] + w[1..] == w;
  }

  lemma {:induction false} RunIndent(l: Lexer, indent: string)
    requires l.mode == Between && forall c | c in indent :: c == ' '
    ensures Run(l, indent) == l
    decreases |indent|
  {
    if indent != "" {
      assert indent[0] in indent && forall c | c in indent[1..] :: c in indent;
      RunIndent(l, indent[1..]);
    }
  }

  lemma RunOne(l: Lexer, c: char)
    ensures Run(l, [c]) == Step(l, c)
  {
    assert [c][1..] == "";
  }

  /** A word and the blank or newline after it. */
  lemma RunWordThen(l: Lexer, w: string, c: char)
    requires l.mode == Between && Plain(w) && (c == ' ' || c == '\n')
    ensures Run(l, w + [c]) == Lexer(l.tokens + [Token(w, l.line)], if c == '\n' then l.line + 1 else l.line, Between)
  {
    RunWord(l, w);
    RunConcat(l, w, [c]);
    RunOne(Run(l, w), c);
  }

  lemma WordTokensHead(words: seq<string>, line: nat)
    requires words != []
    ensures WordTokens(words, line) == [Token(words[0], line)] + WordTokens(words[1..], line)
  {
  }

  lemma JoinHead(words: seq<string>)
    requires |words| > 1
    ensures Join(words, " ") + "\n" == (words[0] + " ") + (Join(words[1..], " ") + "\n")
  {
    var a, b := words[0] + " ", Join(words[1..], " ");
    assert Join(words, " ") == a + b;
    ConcatAssociative(a, b, "\n");
  }

  /** Words separated by single blanks and closed by a newline. */
  lemma {:induction false} RunWords(l: Lexer, words: seq<string>)
    requires l.mode == Between && words != [] && AllPlain(words)
    ensures Run(l, Join(words, " ") + "\n") == Lexer(l.tokens + WordTokens(words, l.line), l.line + 1, Between)
    decreases |words|
  {
    hide Run, WordTokens, Plain, Join;
    var w := words[0];
    assert w in words;
    WordTokensHead(words, l.line);
    if |words| == 1 {
      JoinOne(w, " ");
      RunWordThen(l, w, '\n');
      NoWordTokens(l.line);
      assert words == [w] && words[1..] == [];
    } else {
      var n := Lexer(l.tokens + [Token(w, l.line)], l.line, Between);
      RunWordThen(l, w, ' ');
      JoinHead(words);
      RunConcat(l, w + " ", Join(words[1..], " ") + "\n");
      RunWords(n, words[1..]);
      ConcatAssociative(l.tokens, [Token(w, l.line)], WordTokens(words[1..], l.line));
    }
  }

  lemma NoWordTokens(line: nat)
    ensures WordTokens([], line) == []
  {
  }

  function LineText(indent: string, words: seq<string>): string {
    indent + (Join(words, " ") + "\n")
  }

  lemma RunLine(l: Lexer, indent: string, words: seq<string>)
    requires l.mode == Between && words != [] && AllPlain(words)
    requires forall c | c in indent :: c == ' '
    ensures Run(l, LineText(indent, words)) == Lexer(l.tokens + WordTokens(words, l.line), l.line + 1, Between)
  {
    RunIndent(l, indent);
    RunConcat(l, indent, Join(words, " ") + "\n");
    RunWords(l, words);
  }

  lemma {:induction false} RunCommentTail(l: Lexer, s: string)
    requires l.mode == Comment && '\n' !in s
    ensures Run(l, s) == l
    decreases |s|
  {
    if s != "" {
      assert s[0] in s;
      RunCommentTail(l, s[1..]);
    }
  }

  lemma RunComment(l: Lexer, s: string)
    requires l.mode == Between && s != "" && s[0] == '#' && '\n' !in s
    ensures Run(l, s + "\n") == l.(line := l.line + 1)
  {
    RunConcat(l, s, "\n");
    RunCommentTail(Step(l, '#'), s[1..]);
    RunOne(Run(l, s), '\n');
  }

  // ---- one block as lines

  function Addresses(upstreams: seq<Upstream>): (r: seq<string>)
    ensures |r| == |upstreams|
  {
    seq(|upstreams|, i requires 0 <= i < |upstreams| => UpstreamAddr(upstreams[i]))
  }

  function KeyLine(r: Route): seq<string> {
    ZoneKeys(r.zones) + ["{"]
  }

  function ForwardLine(r: Route): seq<string> {
    ["forward", "."] + Addresses(r.upstreams) + ["{"]
  }

  function BlockLines(r: Route): string {
    "\n"
    + ((CommentLine(r) + "\n")
    + (LineText("", KeyLine(r))
    + (LineText("    ", ForwardLine(r))
    + (LineText("        ", ["policy", "sequential"])
    + (LineText("    ", ["}"])
    + LineText("", ["}"]))))))
  }

  lemma {:induction false} DestinationsText(words: seq<string>, upstreams: seq<Upstream>)
    requires words != []
    ensures Join(words + Addresses(upstreams), " ") == Join(words, " ") + Destinations(upstreams)
  {
    hide UpstreamAddr, Join;
    if upstreams == [] {
      assert words + Addresses(upstreams) == words;
    } else {
      var init, last := upstreams[..|upstreams| - 1], UpstreamAddr(upstreams[|upstreams| - 1]);
      DestinationsText(words, init);
      assert words + Addresses(upstreams) == (words + Addresses(init)) + [last];
      JoinConcat(words + Addresses(init), [last], " ");
      JoinOne(last, " ");
      ConcatAssociative(Join(words, " "), Destinations(init) + " ", last);
      ConcatAssociative(Join(words, " "), Destinations(init), " ");
    }
  }

  lemma KeyLineText(keys: seq<string>)
    requires keys != []
    ensures LineText("", keys + ["{"]) == Join(keys, " ") + " {\n"
  {
    JoinConcat(keys, ["{"], " ");
    assert Join(keys + ["{"], " ") == Join(keys, " ") + " " + "{";
  }

  lemma ForwardWords()
    ensures Join(["forward", "."], " ") == "forward ."
    ensures "    " + "forward ." == "    forward ."
    ensures " " + "{" + "\n" == " {\n"
  {
    assert ["forward", "."][1..] == ["."];
  }

  lemma Regroup(i: string, f: string, d: string, s: string, b: string, n: string)
    ensures i + ((((f + d) + s) + b) + n) == ((i + f) + d) + ((s + b) + n)
  {
  }

  lemma ForwardLineText(upstreams: seq<Upstream>)
    ensures LineText("    ", ["forward", "."] + Addresses(upstreams) + ["{"]) == "    forward ." + Destinations(upstreams) + " {\n"
  {
    var words := ["forward", "."];
    ForwardWords();
    DestinationsText(words, upstreams);
    JoinConcat(words + Addresses(upstreams), ["{"], " ");
    assert Join(["{"], " ") == "{";
    Regroup("    ", Join(words, " "), Destinations(upstreams), " ", "{", "\n");
  }

  lemma TailText()
    ensures LineText("        ", ["policy", "sequential"]) == "        policy sequential\n"
    ensures LineText("    ", ["}"]) == "    }\n"
    ensures LineText("", ["}"]) == "}\n"
  {
    assert ["policy", "sequential"][1..] == ["sequential"];
    assert Join(["policy", "sequential"], " ") == "policy" + " " + "sequential";
  }

  lemma RegroupBlock(n: string, c: string, k: string, open: string, f: string, d: string, t: string)
    ensures n + c + n + k + (open + f) + d + (open + t) == n + ((c + n) + ((k + open) + ((f + d + open) + t)))
  {
  }

  lemma BlockAsLines(r: Route)
    requires r.zones != []
    ensures BlockText(r) == BlockLines(r)
  {
    SortPermutes(Canonicals(r.zones), Less);
    KeyLineText(ZoneKeys(r.zones));
    ForwardLineText(r.upstreams);
    TailText();
    RegroupBlock("\n", CommentLine(r), Join(ZoneKeys(r.zones), " "), " {\n", "    forward .", Destinations(r.upstreams),
                 "        policy sequential\n" + ("    }\n" + "}\n"));
  }
}
