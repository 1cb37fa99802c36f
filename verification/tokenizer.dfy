/** The character-level scanner of `src/tokenizer.hpp`.

    The C++ class walks a `position` index over the source text; every turn
    of its main loop inspects the character under `position`, consumes a
    maximal lexeme and emits zero, one or three tokens. Here one turn of that
    loop is the function `Step`, and `TokenizeFrom` iterates it. The two
    process-ending diagnostics of the original become `LexError` values. */
module Tokenizer {
  import opened Wrappers
  import opened Tokens

  datatype LexError =
    | UnexpectedBang          // a '!' not followed by '='
    | UnterminatedString      // a '"' with no closing '"'
    | UnexpectedChar(c: char) // any character no lexeme starts with

  // ---------------------------------------------------------------------
  // Character classes (the C locale's isalpha / isdigit / isspace)
  // ---------------------------------------------------------------------

  predicate IsAlpha(c: char) { 'a' <= c <= 'z' || 'A' <= c <= 'Z' }

  predicate IsDigit(c: char) { '0' <= c <= '9' }

  /** Characters that may continue a word after its first letter. */
  predicate IsWordChar(c: char) { IsAlpha(c) || IsDigit(c) || c == '_' }

  /** Space, tab, newline, vertical tab, form feed and carriage return. */
  predicate IsSpace(c: char) { c == ' ' || '\t' <= c <= '\r' }

  predicate NotQuote(c: char) { c != '"' }

  predicate NotNewline(c: char) { c != '\n' }

  /** Every character that starts an operator, punctuation or a string. */
  const SymbolStarts: string := "()!;=<>+*-/{}\""

  // ---------------------------------------------------------------------
  // Cursor primitives
  // ---------------------------------------------------------------------

  /** `peek(offset)`: the character `offset` places past the cursor, if any. */
  function Peek(src: string, pos: nat, offset: nat): (r: Option<char>)
    ensures r.None? <==> pos + offset >= |src|
    ensures r.Some? ==> r.value == src[pos + offset]
  {
    if pos + offset >= |src| then None else Some(src[pos + offset])
  }

  /** `peek().has_value() && peek().value() == c` */
  predicate NextIs(src: string, pos: nat, c: char) {
    Peek(src, pos, 0) == Some(c)
  }

  /** `j` ends the maximal run of `inRun` characters that starts at `i`. */
  predicate IsRunEnd(src: string, i: nat, j: nat, inRun: char -> bool) {
    && i <= j <= |src|
    && (forall k :: i <= k < j ==> inRun(src[k]))
    && (j == |src| || !inRun(src[j]))
  }

  /** The inner `while(peek().has_value() && <class>) consume();` loops. */
  function RunEnd(src: string, i: nat, inRun: char -> bool): (j: nat)
    requires i <= |src|
    ensures IsRunEnd(src, i, j, inRun)
    decreases |src| - i
  {
    if i < |src| && inRun(src[i]) then RunEnd(src, i + 1, inRun) else i
  }

  /** A maximal run has exactly one end. */
  lemma RunEndUnique(src: string, i: nat, j: nat, inRun: char -> bool)
    requires IsRunEnd(src, i, j, inRun)
    ensures RunEnd(src, i, inRun) == j
  {
  }

  /** The four-character lookahead of the block-comment loop. */
  predicate HideAt(src: string, k: nat) {
    && k + 4 <= |src|
    && src[k] == 'h' && src[k + 1] == 'i' && src[k + 2] == 'd' && src[k + 3] == 'e'
  }

  /** `j` is where a `hide` comment whose body starts at `i` ends: just after
      the first `hide` at or after `i`, or at the end of the input when there
      is none. */
  predicate IsHideClose(src: string, i: nat, j: nat) {
    || (j == |src| && i <= j && forall k :: i <= k < |src| ==> !HideAt(src, k))
    || (i + 4 <= j <= |src| && HideAt(src, j - 4) && forall k :: i <= k < j - 4 ==> !HideAt(src, k))
  }

  /** The scanning loop of a `hide` comment. */
  function HideEnd(src: string, i: nat): (j: nat)
    requires i <= |src|
    ensures IsHideClose(src, i, j)
    decreases |src| - i
  {
    if i >= |src| then i
    else if HideAt(src, i) then i + 4
    else HideEnd(src, i + 1)
  }

  // ---------------------------------------------------------------------
  // Fixed tables
  // ---------------------------------------------------------------------

  /** The keyword table: the word for each keyword tag. */
  function KeywordSpelling(k: TokenType): string
    requires IsKeyword(k)
  {
    match k
    case Bye => "bye"
    case Hope => "hope"
    case TellMe => "tell_me"
    case Dillusion => "dillusion"
    case Maybe => "maybe"
    case OrMaybe => "ormaybe"
    case MoveOn => "moveon"
    case Wait => "wait"
  }

  /** Looks a scanned word up in the keyword table. */
  function KeywordKind(w: string): (r: Option<TokenType>)
    ensures r.Some? ==> IsKeyword(r.value) && KeywordSpelling(r.value) == w
    ensures r.None? ==> forall k :: IsKeyword(k) ==> KeywordSpelling(k) != w
  {
    if w == "bye" then Some(Bye)
    else if w == "hope" then Some(Hope)
    else if w == "tell_me" then Some(TellMe)
    else if w == "dillusion" then Some(Dillusion)
    else if w == "maybe" then Some(Maybe)
    else if w == "ormaybe" then Some(OrMaybe)
    else if w == "moveon" then Some(MoveOn)
    else if w == "wait" then Some(Wait)
    else None
  }

  /** The single-character tokens that never combine with a following '='. */
  function SymbolKind(c: char): Option<TokenType> {
    match c
    case '(' => Some(OpenParen)
    case ')' => Some(CloseParen)
    case ';' => Some(Semi)
    case '+' => Some(Plus)
    case '*' => Some(Mul)
    case '-' => Some(Sub)
    case '/' => Some(Div)
    case '{' => Some(OpenCurly)
    case '}' => Some(CloseCurly)
    case _ => None
  }

  // ---------------------------------------------------------------------
  // One turn of the main loop
  // ---------------------------------------------------------------------

  /** What one turn of the loop emits and where the cursor lands. */
  datatype Scan = Scan(emitted: seq<Token>, next: nat)

  const Quote: Token := Token(DoubleQuotes, None)

  predicate IsWord(w: string) {
    |w| > 0 && IsAlpha(w[0]) && forall k :: 0 <= k < |w| ==> IsWordChar(w[k])
  }

  predicate IsNumeral(s: string) {
    |s| > 0 && forall k :: 0 <= k < |s| ==> IsDigit(s[k])
  }

  /** A token the scanner can emit on its own (everything but the parts of a
      quoted string): identifiers are words outside the keyword table and
      the two comment words, integer literals are digit runs, and no other
      token carries a payload. */
  predicate IsSimple(t: Token) {
    match t.kind
    case Ident =>
      && t.value.Some?
      && IsWord(t.value.value)
      && KeywordKind(t.value.value).None?
      && t.value.value != "secret" && t.value.value != "hide"
    case IntLit => t.value.Some? && IsNumeral(t.value.value)
    case StringLit => false
    case DoubleQuotes => false
    case _ => t.value.None?
  }

  /** The three tokens of a quoted string: quote, content, quote. */
  predicate IsQuoted(a: Token, b: Token, c: Token) {
    && a == Quote && c == Quote
    && b.kind == StringLit && b.value.Some? && '"' !in b.value.value
  }

  /** What one loop turn may emit. */
  predicate IsLexeme(e: seq<Token>) {
    || e == []
    || (|e| == 1 && IsSimple(e[0]))
    || (|e| == 3 && IsQuoted(e[0], e[1], e[2]))
  }

  /** The characters at which a loop turn stops the scanner with a diagnostic:
      a '!' without '=', an opening quote never closed, or a character that
      starts no lexeme. */
  predicate StepFails(src: string, i: nat)
    requires i < |src|
  {
    var c := src[i];
    || (c == '!' && !NextIs(src, i + 1, '='))
    || (c == '"' && forall k :: i < k < |src| ==> src[k] != '"')
    || (!IsAlpha(c) && !IsDigit(c) && !IsSpace(c) && c !in SymbolStarts)
  }

  /** A word: a letter followed by letters, digits and '_'. Keywords become
      their own tag, `secret` skips to the end of the line, `hide` skips past
      the next `hide`, and any other word is an identifier. */
  function ScanWord(src: string, i: nat): (r: Scan)
    requires i < |src| && IsAlpha(src[i])
    ensures i < r.next <= |src| && IsLexeme(r.emitted)
    ensures r.emitted == [] || (|r.emitted| == 1 && (r.emitted[0].kind == Ident || IsKeyword(r.emitted[0].kind)))
    ensures var w := src[i..RunEnd(src, i, IsWordChar)]; r.emitted == [] <==> w == "secret" || w == "hide"
    ensures r.emitted != [] ==> IsRunEnd(src, i, r.next, IsWordChar)
    ensures r.emitted != [] && r.emitted[0].kind == Ident ==> r.emitted[0].value == Some(src[i..r.next])
    ensures r.emitted != [] && IsKeyword(r.emitted[0].kind) ==>
      r.emitted[0].value.None? && KeywordSpelling(r.emitted[0].kind) == src[i..r.next]
  {
    var j := RunEnd(src, i + 1, IsWordChar);
    var w := src[i..j];
    assert IsWord(w) by {
      forall k | 0 <= k < |w| ensures IsWordChar(w[k]) {
        assert w[k] == src[i + k];
      }
    }
    if w == "secret" then
      Scan([], RunEnd(src, j, NotNewline))
    else if w == "hide" then
      Scan([], HideEnd(src, j))
    else
      match KeywordKind(w)
      case Some(k) => Scan([Token(k, None)], j)
      case None => Scan([Token(Ident, Some(w))], j)
  }

  /** A maximal run of digits becomes one integer literal. */
  function ScanNumber(src: string, i: nat): (r: Scan)
    requires i < |src| && IsDigit(src[i])
    ensures i < r.next <= |src| && IsLexeme(r.emitted)
    ensures IsRunEnd(src, i, r.next, IsDigit)
    ensures r.emitted == [Token(IntLit, Some(src[i..r.next]))]
  {
    var j := RunEnd(src, i + 1, IsDigit);
    var n := src[i..j];
    assert IsNumeral(n) by {
      forall k | 0 <= k < |n| ensures IsDigit(n[k]) {
        assert n[k] == src[i + k];
      }
    }
    Scan([Token(IntLit, Some(n))], j)
  }

  /** A quoted string: everything up to the next '"' is its content. */
  function ScanString(src: string, i: nat): (r: Result<Scan, LexError>)
    requires i < |src| && src[i] == '"'
    ensures r.Ok? ==> i < r.value.next <= |src| && IsLexeme(r.value.emitted)
    ensures r.Ok? ==>
      && i + 2 <= r.value.next && src[r.value.next - 1] == '"'
      && r.value.emitted == [Quote, Token(StringLit, Some(src[i + 1..r.value.next - 1])), Quote]
      && '"' !in src[i + 1..r.value.next - 1]
    ensures r.Err? <==> forall k :: i < k < |src| ==> src[k] != '"'
    ensures r.Err? ==> r.error == UnterminatedString
  {
    var q := RunEnd(src, i + 1, NotQuote);
    if q < |src| then
      var s := src[i + 1..q];
      assert '"' !in s by {
        forall k | 0 <= k < |s| ensures s[k] != '"' {
          assert s[k] == src[i + 1 + k];
        }
      }
      Ok(Scan([Quote, Token(StringLit, Some(s)), Quote], q + 1))
    else
      Err(UnterminatedString)
  }

  /** Operators and punctuation. '=', '<' and '>' absorb a following '='
      into a two-character token; '!' must be followed by '='. */
  function ScanSymbol(src: string, i: nat): (r: Result<Scan, LexError>)
    requires i < |src| && src[i] != '"'
    ensures r.Ok? ==> i < r.value.next <= |src| && IsLexeme(r.value.emitted)
    ensures r.Err? <==>
      || (src[i] == '!' && !NextIs(src, i + 1, '='))
      || src[i] !in SymbolStarts
    ensures r.Err? ==> r.error == (if src[i] == '!' then UnexpectedBang else UnexpectedChar(src[i]))
  {
    var c := src[i];
    var eqNext := NextIs(src, i + 1, '=');
    if c == '=' then
      if eqNext then Ok(Scan([Token(EqEq, None)], i + 2)) else Ok(Scan([Token(Eq, None)], i + 1))
    else if c == '!' then
      if eqNext then Ok(Scan([Token(Neq, None)], i + 2)) else Err(UnexpectedBang)
    else if c == '<' then
      if eqNext then Ok(Scan([Token(Lte, None)], i + 2)) else Ok(Scan([Token(Lt, None)], i + 1))
    else if c == '>' then
      if eqNext then Ok(Scan([Token(Gte, None)], i + 2)) else Ok(Scan([Token(Gt, None)], i + 1))
    else
      match SymbolKind(c)
      case Some(k) => Ok(Scan([Token(k, None)], i + 1))
      case None => Err(UnexpectedChar(c))
  }

  /** One turn of the `while(peek().has_value())` loop of `tokenize`, starting
      on the character at `i`. */
  function Step(src: string, i: nat): (r: Result<Scan, LexError>)
    requires i < |src|
    ensures r.Ok? ==> i < r.value.next <= |src| && IsLexeme(r.value.emitted)
    ensures r.Err? <==> StepFails(src, i)
    ensures r.Err? ==>
      r.error == (if src[i] == '"' then UnterminatedString
                  else if src[i] == '!' then UnexpectedBang
                  else UnexpectedChar(src[i]))
  {
    var c := src[i];
    if IsAlpha(c) then Ok(ScanWord(src, i))
    else if IsDigit(c) then Ok(ScanNumber(src, i))
    else if IsSpace(c) then Ok(Scan([], i + 1))
    else if c == '"' then ScanString(src, i)
    else ScanSymbol(src, i)
  }

  // ---------------------------------------------------------------------
  // The whole scan
  // ---------------------------------------------------------------------

  /** The token sequences the scanner can produce: simple tokens and quoted
      strings, one after the other. */
  predicate WellFormed(ts: seq<Token>)
    decreases |ts|
  {
    if ts == [] then true
    else if ts[0].kind == DoubleQuotes then
      |ts| >= 3 && IsQuoted(ts[0], ts[1], ts[2]) && WellFormed(ts[3..])
    else IsSimple(ts[0]) && WellFormed(ts[1..])
  }

  lemma LexemeThenWellFormed(e: seq<Token>, rest: seq<Token>)
    requires IsLexeme(e) && WellFormed(rest)
    ensures WellFormed(e + rest)
  {
    if |e| == 1 {
      assert (e + rest)[1..] == rest;
    } else if |e| == 3 {
      assert (e + rest)[3..] == rest;
    } else {
      assert e + rest == rest;
    }
  }

  /** The loop of `tokenize` from cursor position `i` to the end of input. */
  function TokenizeFrom(src: string, i: nat): (r: Result<seq<Token>, LexError>)
    requires i <= |src|
    ensures r.Ok? ==> WellFormed(r.value)
    decreases |src| - i
  {
    if i == |src| then Ok([])
    else
      match Step(src, i)
      case Err(e) => Err(e)
      case Ok(s) =>
        match TokenizeFrom(src, s.next)
        case Err(e) => Err(e)
        case Ok(rest) =>
          LexemeThenWellFormed(s.emitted, rest);
          Ok(s.emitted + rest)
  }

  /** `Tokenizer(src).tokenize()` */
  function Tokenize(src: string): (r: Result<seq<Token>, LexError>)
    ensures r.Ok? ==> WellFormed(r.value)
  {
    TokenizeFrom(src, 0)
  }
}
