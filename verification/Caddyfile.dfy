/** The Caddyfile dialect, as far as the controller depends on it: a lexer that yields
    tokens with line numbers and drops comments and quotes, and a block grammar. The
    library itself is not part of the repository; this is the small model of it that both
    the inspector and the renderer's check are stated against. */
module Caddyfile {
  import opened Wrappers
  import opened Strings

  // ---- lexer

  datatype Token = Token(text: string, line: nat)

  datatype Mode =
    | Between
    | Word(text: string, start: nat)
    | Comment
    | Quoted(text: string, start: nat)
    | Escaped(text: string, start: nat)

  datatype Lexer = Lexer(tokens: seq<Token>, line: nat, mode: Mode)

  const START := Lexer([], 1, Between)

  function Step(l: Lexer, c: char): Lexer {
    var line := if c == '\n' then l.line + 1 else l.line;
    match l.mode
    case Between =>
      if IsSpace(c) then l.(line := line)
      else if c == '#' then l.(mode := Comment)
      else if c == '"' then l.(mode := Quoted("", l.line))
      else l.(mode := Word([c], l.line))
    case Word(text, start) =>
      if c == '\r' then l
      else if IsSpace(c) then Lexer(l.tokens + [Token(text, start)], line, Between)
      else if c == '#' then Lexer(l.tokens + [Token(text, start)], line, Comment)
      else l.(mode := Word(text + [c], start))
    case Comment =>
      if c == '\n' then l.(line := line, mode := Between) else l
    case Quoted(text, start) =>
      if c == '\\' then l.(mode := Escaped(text, start))
      else if c == '"' then l.(tokens := l.tokens + [Token(text, start)], mode := Between)
      else l.(line := line, mode := Quoted(text + [c], start))
    case Escaped(text, start) =>
      l.(line := line, mode := Quoted(text + if c == '"' then [c] else ['\\', c], start))
  }

  function Run(l: Lexer, s: string): Lexer
    decreases |s|
  {
    if s == "" then l else Run(Step(l, s[0]), s[1..])
  }

  function Finish(l: Lexer): seq<Token> {
    match l.mode
    case Between => l.tokens
    case Comment => l.tokens
    case Word(text, start) => l.tokens + [Token(text, start)]
    case Quoted(text, start) => if text == "" then l.tokens else l.tokens + [Token(text, start)]
    case Escaped(text, start) => if text == "" then l.tokens else l.tokens + [Token(text, start)]
  }

  function Lex(text: string): seq<Token> {
    Finish(Run(START, text))
  }

  // ---- block grammar

  datatype Block = Block(keys: seq<string>, body: seq<string>)

  datatype Keys = Keys(keys: seq<string>, rest: seq<Token>)

  const IMPORT_LEFT := "import: no file system to resolve it against"
  const UNCLOSED := "unexpected end of text: block not closed"
  const UNBALANCED := "unbalanced braces"

  /** A statement begins here: the token is the first on its line. */
  predicate LineStart(t: Token, prev: nat) {
    t.line != prev
  }

  function StripComma(key: string): string {
    TrimSuffix(key, ",")
  }

  /** The keys of the next block: up to `{` or the end of the line, a trailing comma
      carrying on to the next line. The parser resolves an import statement against a
      file system, and there is none here. */
  function TakeKeys(toks: seq<Token>, prev: nat): (r: Result<Keys>)
    ensures r.Ok? ==> |r.value.rest| <= |toks|
    ensures r.Ok? && toks != [] && toks[0].text != "{" ==> |r.value.rest| < |toks|
  {
    if toks == [] || toks[0].text == "{" then
      Ok(Keys([], toks))
    else if toks[0].text == "import" && LineStart(toks[0], prev) then
      Err(IMPORT_LEFT)
    else
      var t, rest := toks[0], toks[1..];
      var key := if t.text == "" then [] else [StripComma(t.text)];
      if rest != [] && !HasSuffix(t.text, ",") && LineStart(rest[0], t.line) then
        Ok(Keys(key, rest))
      else
        var more :- TakeKeys(rest, t.line);
        Ok(Keys(key + more.keys, more.rest))
  }

  datatype Body = Body(body: seq<string>, last: nat, rest: seq<Token>)

  /** The tokens up to the brace that closes the block. */
  function TakeBody(toks: seq<Token>, depth: nat): (r: Option<Body>)
    ensures r.Some? ==> |r.value.rest| < |toks|
  {
    if toks == [] then
      None
    else if toks[0].text == "}" && depth == 0 then
      Some(Body([], toks[0].line, toks[1..]))
    else
      var inner := if toks[0].text == "{" then depth + 1 else if toks[0].text == "}" then depth - 1 else depth;
      match TakeBody(toks[1..], inner)
      case None => None
      case Some(b) => Some(b.(body := [toks[0].text] + b.body))
  }

  predicate Balanced(toks: seq<Token>, depth: nat) {
    if toks == [] then depth == 0
    else if toks[0].text == "{" then Balanced(toks[1..], depth + 1)
    else if toks[0].text == "}" then depth > 0 && Balanced(toks[1..], depth - 1)
    else Balanced(toks[1..], depth)
  }

  function Texts(toks: seq<Token>): (r: seq<string>)
    ensures |r| == |toks|
  {
    seq(|toks|, i requires 0 <= i < |toks| => toks[i].text)
  }

  predicate IsSnippet(keys: seq<string>) {
    |keys| == 1 && HasPrefix(keys[0], "(") && HasSuffix(keys[0], ")")
  }

  function ParseFrom(toks: seq<Token>, prev: nat): Result<seq<Block>>
    decreases |toks|
  {
    if toks == [] then
      Ok([])
    else
      var head :- TakeKeys(toks, prev);
      if head.rest == [] then
        Ok([Block(head.keys, [])])
      else if head.rest[0].text == "{" then
        match TakeBody(head.rest[1..], 0)
        case None => Err(UNCLOSED)
        case Some(b) =>
          var more :- ParseFrom(b.rest, b.last);
          // a snippet definition or a block without keys is no server block
          Ok((if IsSnippet(head.keys) || head.keys == [] then [] else [Block(head.keys, b.body)]) + more)
      else if Balanced(head.rest, 0) then
        // a single server needs no braces: the rest of the text is its body
        Ok([Block(head.keys, Texts(head.rest))])
      else
        Err(UNBALANCED)
  }

  function Parse(text: string): Result<seq<Block>> {
    ParseFrom(Lex(text), 0)
  }
}
