/** What the scanner promises: each kind of lexeme becomes the tokens the
    language defines, and scanning the spelled-out form of any token sequence
    the scanner can produce gives that sequence back. */
module TokenizerFacts {
  import opened Wrappers
  import opened Tokens
  import opened Tokenizer

  // ---------------------------------------------------------------------
  // Spelling tokens back out as text
  // ---------------------------------------------------------------------

  /** The text of an operator or punctuation token. */
  function SymbolSpelling(k: TokenType): string {
    match k
    case Semi => ";"
    case OpenParen => "("
    case CloseParen => ")"
    case Eq => "="
    case EqEq => "=="
    case Neq => "!="
    case Lt => "<"
    case Lte => "<="
    case Gt => ">"
    case Gte => ">="
    case Plus => "+"
    case Mul => "*"
    case Sub => "-"
    case Div => "/"
    case OpenCurly => "{"
    case CloseCurly => "}"
    case DoubleQuotes => "\""
    case _ => ""
  }

  /** The source text of one token. */
  function Spelling(t: Token): string {
    if HasPayload(t.kind) then t.value.ValueOr("")
    else if IsKeyword(t.kind) then KeywordSpelling(t.kind)
    else SymbolSpelling(t.kind)
  }

  /** Source text for a token sequence: each simple token and each quoted
      string spelled out and followed by one space. */
  function Render(ts: seq<Token>): string
    decreases |ts|
  {
    if ts == [] then ""
    else if |ts| >= 3 && ts[0].kind == DoubleQuotes then
      "\"" + (Spelling(ts[1]) + ("\"" + (" " + Render(ts[3..]))))
    else
      Spelling(ts[0]) + (" " + Render(ts[1..]))
  }

  // ---------------------------------------------------------------------
  // Small facts about the tables and about runs
  // ---------------------------------------------------------------------

  lemma KeywordSpellingIsWord(k: TokenType)
    requires IsKeyword(k)
    ensures IsWord(KeywordSpelling(k))
    ensures KeywordKind(KeywordSpelling(k)) == Some(k)
    ensures KeywordSpelling(k) != "secret" && KeywordSpelling(k) != "hide"
  {
    var w := KeywordSpelling(k);
    assert forall n :: 0 <= n < |w| ==> IsWordChar(w[n]) by {
      match k
      case Bye =>
      case Hope =>
      case TellMe =>
      case Dillusion =>
      case Maybe =>
      case OrMaybe =>
      case MoveOn =>
      case Wait =>
    }
  }

  /** A text `i..` starting with `a + b` splits at `|a|`. */
  lemma SplitSuffix(src: string, i: nat, a: string, b: string)
    requires i <= |src| && src[i..] == a + b
    ensures i + |a| <= |src|
    ensures src[i..i + |a|] == a && src[i + |a|..] == b
  {
    assert |src[i..]| == |a| + |b|;
    assert src[i..i + |a|] == src[i..][..|a|];
    assert src[i + |a|..] == src[i..][|a|..];
  }

  /** Where a word of class `inRun` is written at `i` and followed by a
      character outside the class, the run that starts after its first
      character ends at the word's end. */
  lemma RunOfWritten(src: string, i: nat, w: string, inRun: char -> bool)
    requires |w| > 0 && i + |w| < |src| && src[i..i + |w|] == w
    requires forall k :: 0 <= k < |w| ==> inRun(w[k])
    requires !inRun(src[i + |w|])
    ensures src[i] == w[0]
    ensures RunEnd(src, i + 1, inRun) == i + |w|
  {
    forall k | i + 1 <= k < i + |w| ensures inRun(src[k]) {
      assert src[k] == src[i..i + |w|][k - i];
    }
    assert src[i] == src[i..i + |w|][0];
    RunEndUnique(src, i + 1, i + |w|, inRun);
  }

  /** A word token spelled at `i` and followed by a space is scanned back as
      itself. */
  lemma WordStep(src: string, i: nat, t: Token)
    requires IsSimple(t) && (t.kind == Ident || IsKeyword(t.kind))
    requires i + |Spelling(t)| < |src|
    requires src[i..i + |Spelling(t)|] == Spelling(t) && src[i + |Spelling(t)|] == ' '
    ensures Step(src, i) == Ok(Scan([t], i + |Spelling(t)|))
  {
    var w := Spelling(t);
    if IsKeyword(t.kind) {
      KeywordSpellingIsWord(t.kind);
      assert KeywordKind(w) == Some(t.kind) && w != "secret" && w != "hide";
    } else {
      assert w == t.value.value && KeywordKind(w).None?;
    }
    RunOfWritten(src, i, w, IsWordChar);
    assert IsAlpha(src[i]);
    assert ScanWord(src, i) == Scan([t], i + |w|);
  }

  /** An integer literal spelled at `i` and followed by a space is scanned
      back as itself. */
  lemma NumberStep(src: string, i: nat, t: Token)
    requires IsSimple(t) && t.kind == IntLit
    requires i + |Spelling(t)| < |src|
    requires src[i..i + |Spelling(t)|] == Spelling(t) && src[i + |Spelling(t)|] == ' '
    ensures Step(src, i) == Ok(Scan([t], i + |Spelling(t)|))
  {
    RunOfWritten(src, i, Spelling(t), IsDigit);
  }

  /** The symbol branch of the scanner reads back an operator or punctuation
      token from its spelling. */
  lemma SymbolScanned(src: string, i: nat, t: Token)
    requires IsSimple(t) && t.kind != Ident && t.kind != IntLit && !IsKeyword(t.kind)
    requires i + |Spelling(t)| < |src|
    requires src[i] == Spelling(t)[0]
    requires |Spelling(t)| == 2 ==> src[i + 1] == Spelling(t)[1]
    requires src[i + |Spelling(t)|] == ' '
    ensures src[i] != '"' && ScanSymbol(src, i) == Ok(Scan([t], i + |Spelling(t)|))
  {
    assert t == Token(t.kind, None);
    if t.kind in {Eq, EqEq, Neq, Lt, Lte, Gt, Gte} {
      OperatorScanned(src, i, t);
    } else {
      assert SymbolKind(src[i]) == Some(t.kind);
    }
  }

  /** `SymbolScanned` for the operators that may absorb a following '='. */
  lemma OperatorScanned(src: string, i: nat, t: Token)
    requires t == Token(t.kind, None) && t.kind in {Eq, EqEq, Neq, Lt, Lte, Gt, Gte}
    requires i + |Spelling(t)| < |src|
    requires src[i] == Spelling(t)[0]
    requires |Spelling(t)| == 2 ==> src[i + 1] == Spelling(t)[1]
    requires src[i + |Spelling(t)|] == ' '
    ensures src[i] != '"' && ScanSymbol(src, i) == Ok(Scan([t], i + |Spelling(t)|))
  {
    match t.kind
    case Eq =>
    case EqEq =>
    case Neq =>
    case Lt =>
    case Lte =>
    case Gt =>
    case Gte =>
  }

  /** An operator or punctuation token spelled at `i` and followed by a space
      is scanned back as itself. */
  lemma SymbolStep(src: string, i: nat, t: Token)
    requires IsSimple(t) && t.kind != Ident && t.kind != IntLit && !IsKeyword(t.kind)
    requires i + |Spelling(t)| < |src|
    requires src[i] == Spelling(t)[0]
    requires |Spelling(t)| == 2 ==> src[i + 1] == Spelling(t)[1]
    requires src[i + |Spelling(t)|] == ' '
    ensures Step(src, i) == Ok(Scan([t], i + |Spelling(t)|))
  {
    SymbolScanned(src, i, t);
    assert src[i] in SymbolStarts;
    assert !IsAlpha(src[i]) && !IsDigit(src[i]) && !IsSpace(src[i]);
  }

  /** A simple token spelled at `i` and followed by a space is scanned back
      as itself, and the cursor stops on the space. */
  lemma SimpleStep(src: string, i: nat, t: Token)
    requires IsSimple(t)
    requires i + |Spelling(t)| < |src|
    requires src[i..i + |Spelling(t)|] == Spelling(t) && src[i + |Spelling(t)|] == ' '
    ensures Step(src, i) == Ok(Scan([t], i + |Spelling(t)|))
  {
    var w := Spelling(t);
    var n := i + |w|;
    if t.kind == Ident || IsKeyword(t.kind) {
      WordStep(src, i, t);
    } else if t.kind == IntLit {
      NumberStep(src, i, t);
    } else {
      assert |w| > 0;
      assert src[i] == w[0] by {
        assert src[i] == src[i..n][0];
      }
      if |w| == 2 {
        assert src[i + 1] == w[1] by {
          assert src[i + 1] == src[i..n][1];
        }
      }
      SymbolStep(src, i, t);
    }
  }

  /** One turn of the loop followed by the rest of the scan. */
  lemma TokenizeFromStep(src: string, i: nat, sc: Scan, rest: seq<Token>)
    requires i < |src| && Step(src, i) == Ok(sc) && TokenizeFrom(src, sc.next) == Ok(rest)
    ensures TokenizeFrom(src, i) == Ok(sc.emitted + rest)
  {
  }

  /** Nothing is left to scan. */
  lemma EndOfInput(src: string, i: nat)
    requires i <= |src| && src[i..] == ""
    ensures TokenizeFrom(src, i) == Ok([])
  {
    assert |src[i..]| == 0;
  }

  /** A space is skipped: scanning from it is scanning from the next
      character. */
  lemma SpaceSkipped(src: string, i: nat)
    requires i < |src| && IsSpace(src[i])
    ensures TokenizeFrom(src, i) == TokenizeFrom(src, i + 1)
  {
    assert Step(src, i) == Ok(Scan([], i + 1));
    match TokenizeFrom(src, i + 1)
    case Err(e) =>
    case Ok(rest) => assert [] + rest == rest;
  }

  // ---------------------------------------------------------------------
  // Round trip
  // ---------------------------------------------------------------------

  /** How a sequence that does not open with a quote is spelled. */
  lemma RenderSimple(ts: seq<Token>)
    requires |ts| > 0 && ts[0].kind != DoubleQuotes
    ensures Render(ts) == Spelling(ts[0]) + (" " + Render(ts[1..]))
  {
  }

  /** A text `i..` holding `w`, a space and `r`. */
  lemma SplitSpaced(src: string, i: nat, w: string, r: string)
    requires i <= |src| && src[i..] == w + (" " + r)
    ensures i + |w| < |src| && src[i..i + |w|] == w && src[i + |w|] == ' '
    ensures src[i + |w| + 1..] == r
  {
    SplitSuffix(src, i, w, " " + r);
    SplitSuffix(src, i + |w|, " ", r);
    assert src[i + |w|] == src[i + |w|..i + |w| + 1][0];
  }

  /** A simple token spelled at `i` and followed by a space and the text `r`
      is scanned back as itself; the cursor stops on the space. */
  lemma SimpleSpelledStep(src: string, i: nat, t: Token, r: string)
    requires IsSimple(t) && i <= |src| && src[i..] == Spelling(t) + (" " + r)
    ensures i + |Spelling(t)| < |src| && src[i + |Spelling(t)|] == ' '
    ensures src[i + |Spelling(t)| + 1..] == r
    ensures Step(src, i) == Ok(Scan([t], i + |Spelling(t)|))
  {
    SplitSpaced(src, i, Spelling(t), r);
    SimpleStep(src, i, t);
  }

  /** A lexeme scanned at `i`, then a space, then the rest of the scan. */
  lemma LexemeThenRest(src: string, i: nat, n: nat, head: seq<Token>, rest: seq<Token>)
    requires i < n < |src| && Step(src, i) == Ok(Scan(head, n)) && src[n] == ' '
    requires TokenizeFrom(src, n + 1) == Ok(rest)
    ensures TokenizeFrom(src, i) == Ok(head + rest)
  {
    SpaceSkipped(src, n);
    TokenizeFromStep(src, i, Scan(head, n), rest);
  }

  /** How a sequence that opens with a quote is spelled. */
  lemma RenderQuoted(ts: seq<Token>)
    requires |ts| >= 3 && ts[0].kind == DoubleQuotes
    ensures Render(ts) == "\"" + (Spelling(ts[1]) + ("\"" + (" " + Render(ts[3..]))))
  {
  }

  /** How a quoted string spelled at `i` and followed by a space lies in the
      text: the content runs to the closing quote, and the space follows. */
  lemma QuotedLayout(src: string, i: nat, s: string, r: string)
    requires '"' !in s
    requires i <= |src| && src[i..] == "\"" + (s + ("\"" + (" " + r)))
    ensures i + |s| + 2 < |src| && src[i + |s| + 2] == ' ' && src[i + |s| + 3..] == r
    ensures src[i] == '"' && src[i + 1 + |s|] == '"' && src[i + 1..i + 1 + |s|] == s
    ensures forall k | i + 1 <= k < i + 1 + |s| :: NotQuote(src[k])
  {
    var q := i + 1 + |s|;
    SplitSuffix(src, i, "\"", s + ("\"" + (" " + r)));
    SplitSuffix(src, i + 1, s, "\"" + (" " + r));
    SplitSuffix(src, q, "\"", " " + r);
    SplitSpaced(src, q + 1, "", r);
    assert src[i] == src[i..i + 1][0];
    assert src[q] == src[q..q + 1][0];
    forall k | i + 1 <= k < q ensures NotQuote(src[k]) {
      assert src[k] == src[i + 1..q][k - (i + 1)];
    }
  }

  /** A quoted string spelled at `i` and followed by a space is scanned back
      as quote, content, quote. */
  lemma QuotedStep(src: string, i: nat, s: string, r: string)
    requires '"' !in s
    requires i <= |src| && src[i..] == "\"" + (s + ("\"" + (" " + r)))
    ensures i + |s| + 2 < |src| && src[i + |s| + 2] == ' ' && src[i + |s| + 3..] == r
    ensures Step(src, i) == Ok(Scan([Quote, Token(StringLit, Some(s)), Quote], i + |s| + 2))
  {
    QuotedLayout(src, i, s, r);
    var q := i + 1 + |s|;
    RunEndUnique(src, i + 1, q, NotQuote);
    assert ScanString(src, i) == Ok(Scan([Quote, Token(StringLit, Some(s)), Quote], q + 1));
  }

  lemma WellFormedQuotedHead(ts: seq<Token>)
    requires WellFormed(ts) && ts != [] && ts[0].kind == DoubleQuotes
    ensures |ts| >= 3 && IsQuoted(ts[0], ts[1], ts[2]) && WellFormed(ts[3..])
  {
  }

  lemma WellFormedSimpleHead(ts: seq<Token>)
    requires WellFormed(ts) && ts != [] && ts[0].kind != DoubleQuotes
    ensures IsSimple(ts[0]) && WellFormed(ts[1..])
  {
  }

  /** A spelled sequence that opens with a quoted string: one loop turn scans
      the three tokens and stops on the space before the rest. */
  lemma QuotedHeadScan(ts: seq<Token>, src: string, i: nat) returns (n: nat)
    requires |ts| >= 3 && ts[0].kind == DoubleQuotes && IsQuoted(ts[0], ts[1], ts[2])
    requires i <= |src| && src[i..] == Render(ts)
    ensures i < n < |src| && Step(src, i) == Ok(Scan(ts[..3], n)) && src[n] == ' '
    ensures src[n + 1..] == Render(ts[3..])
  {
    RenderQuoted(ts);
    var s := ts[1].value.value;
    assert Spelling(ts[1]) == s;
    QuotedStep(src, i, s, Render(ts[3..]));
    assert ts[..3] == [Quote, Token(StringLit, Some(s)), Quote];
    n := i + |s| + 2;
  }

  /** A spelled sequence that opens with a simple token: one loop turn scans
      it and stops on the space before the rest. */
  lemma SimpleHeadScan(ts: seq<Token>, src: string, i: nat) returns (n: nat)
    requires ts != [] && ts[0].kind != DoubleQuotes && IsSimple(ts[0])
    requires i <= |src| && src[i..] == Render(ts)
    ensures i < n < |src| && Step(src, i) == Ok(Scan([ts[0]], n)) && src[n] == ' '
    ensures src[n + 1..] == Render(ts[1..])
  {
    var t, r := ts[0], Render(ts[1..]);
    RenderSimple(ts);
    assert src[i..] == Spelling(t) + (" " + r);
    SimpleSpelledStep(src, i, t, r);
    n := i + |Spelling(t)|;
  }

  /** The round trip for a sequence opening with a quoted string, given the
      round trip for what follows the string. */
  lemma QuotedRoundTripStep(ts: seq<Token>, src: string, i: nat)
    requires WellFormed(ts) && ts != [] && ts[0].kind == DoubleQuotes
    requires i <= |src| && src[i..] == Render(ts)
    requires forall src': string, j: nat ::
      |ts| >= 3 && j <= |src'| && src'[j..] == Render(ts[3..]) ==>
      TokenizeFrom(src', j) == Ok(ts[3..])
    ensures TokenizeFrom(src, i) == Ok(ts)
  {
    WellFormedQuotedHead(ts);
    var n := QuotedHeadScan(ts, src, i);
    LexemeThenRest(src, i, n, ts[..3], ts[3..]);
    assert ts[..3] + ts[3..] == ts;
  }

  /** The round trip for a sequence opening with a simple token, given the
      round trip for what follows the token. */
  lemma SimpleRoundTripStep(ts: seq<Token>, src: string, i: nat)
    requires WellFormed(ts) && ts != [] && ts[0].kind != DoubleQuotes
    requires i <= |src| && src[i..] == Render(ts)
    requires forall src': string, j: nat ::
      j <= |src'| && src'[j..] == Render(ts[1..]) ==>
      TokenizeFrom(src', j) == Ok(ts[1..])
    ensures TokenizeFrom(src, i) == Ok(ts)
  {
    WellFormedSimpleHead(ts);
    var n := SimpleHeadScan(ts, src, i);
    LexemeThenRest(src, i, n, [ts[0]], ts[1..]);
    assert [ts[0]] + ts[1..] == ts;
  }

  lemma {:induction false} RenderRoundTripFrom(ts: seq<Token>, src: string, i: nat)
    requires WellFormed(ts) && i <= |src| && src[i..] == Render(ts)
    ensures TokenizeFrom(src, i) == Ok(ts)
    decreases |ts|
  {
    if ts == [] {
      EndOfInput(src, i);
    } else if ts[0].kind == DoubleQuotes {
      WellFormedQuotedHead(ts);
      forall src': string, j: nat | j <= |src'| && src'[j..] == Render(ts[3..])
        ensures TokenizeFrom(src', j) == Ok(ts[3..])
      {
        RenderRoundTripFrom(ts[3..], src', j);
      }
      QuotedRoundTripStep(ts, src, i);
    } else {
      WellFormedSimpleHead(ts);
      forall src': string, j: nat | j <= |src'| && src'[j..] == Render(ts[1..])
        ensures TokenizeFrom(src', j) == Ok(ts[1..])
      {
        RenderRoundTripFrom(ts[1..], src', j);
      }
      SimpleRoundTripStep(ts, src, i);
    }
  }

  /** Scanning the spelled-out form of any token sequence the scanner can
      produce gives that sequence back. */
  lemma RenderRoundTrip(ts: seq<Token>)
    requires WellFormed(ts)
    ensures Tokenize(Render(ts)) == Ok(ts)
  {
    RenderRoundTripFrom(ts, Render(ts), 0);
  }

  // ---------------------------------------------------------------------
  // Lexeme by lexeme
  // ---------------------------------------------------------------------

  /** A maximal word is its keyword's token when it is spelled like a keyword,
      and otherwise (unless it opens a comment) an identifier carrying the
      whole word. */
  lemma ScanWordClassifies(src: string, i: nat, j: nat)
    requires i < |src| && IsAlpha(src[i]) && IsRunEnd(src, i, j, IsWordChar)
    ensures forall k :: IsKeyword(k) && src[i..j] == KeywordSpelling(k) ==>
      Step(src, i) == Ok(Scan([Token(k, None)], j))
    ensures
      && (forall k :: IsKeyword(k) ==> src[i..j] != KeywordSpelling(k))
      && src[i..j] != "secret" && src[i..j] != "hide"
      ==> Step(src, i) == Ok(Scan([Token(Ident, Some(src[i..j]))], j))
  {
    RunEndUnique(src, i + 1, j, IsWordChar);
    forall k | IsKeyword(k) && src[i..j] == KeywordSpelling(k)
      ensures Step(src, i) == Ok(Scan([Token(k, None)], j))
    {
      KeywordSpellingIsWord(k);
    }
  }

  /** A maximal digit run is one integer literal holding exactly those digits. */
  lemma ScanNumberMaximal(src: string, i: nat, j: nat)
    requires i < |src| && IsDigit(src[i]) && IsRunEnd(src, i, j, IsDigit)
    ensures Step(src, i) == Ok(Scan([Token(IntLit, Some(src[i..j]))], j))
  {
    RunEndUnique(src, i + 1, j, IsDigit);
  }

  /** `12ab` is the literal `12` followed by the identifier `ab`. */
  lemma DigitsThenWord()
    ensures Tokenize("12ab") == Ok([Token(IntLit, Some("12")), Token(Ident, Some("ab"))])
  {
    var src := "12ab";
    RunEndUnique(src, 1, 2, IsDigit);
    assert src[0..2] == "12";
    var s0 := Scan([Token(IntLit, Some("12"))], 2);
    assert Step(src, 0) == Ok(s0);
    RunEndUnique(src, 3, 4, IsWordChar);
    assert src[2..4] == "ab";
    var s2 := Scan([Token(Ident, Some("ab"))], 4);
    assert Step(src, 2) == Ok(s2);
    assert |src| == 4;
    assert TokenizeFrom(src, 4) == Ok([]);
    assert TokenizeFrom(src, 2) == Ok(s2.emitted + []);
    assert s2.emitted + [] == s2.emitted;
    assert TokenizeFrom(src, s0.next) == Ok(s2.emitted);
    assert TokenizeFrom(src, 0) == Ok(s0.emitted + s2.emitted);
    assert s0.emitted + s2.emitted == [Token(IntLit, Some("12")), Token(Ident, Some("ab"))];
    assert Tokenize(src) == TokenizeFrom(src, 0);
  }

  /** A quoted string is quote, content, quote, the content holding no quote;
      with no closing quote the scan fails. */
  lemma ScanQuoted(src: string, i: nat, q: nat)
    requires i < |src| && src[i] == '"' && IsRunEnd(src, i + 1, q, NotQuote)
    ensures q < |src| ==>
      && Step(src, i) == Ok(Scan([Quote, Token(StringLit, Some(src[i + 1..q])), Quote], q + 1))
      && '"' !in src[i + 1..q]
    ensures q == |src| ==> Step(src, i) == Err(UnterminatedString)
  {
    RunEndUnique(src, i + 1, q, NotQuote);
    if q < |src| {
      var s := src[i + 1..q];
      forall k | 0 <= k < |s| ensures s[k] != '"' {
        assert s[k] == src[i + 1 + k];
      }
    }
  }

  /** `=`, `<` and `>` take a following `=` into a two-character token and
      otherwise stand alone; `!` must be followed by `=`. */
  lemma ScanOperators(src: string, i: nat)
    requires i < |src|
    ensures src[i] == '=' ==>
      (Step(src, i) ==
        if i + 1 < |src| && src[i + 1] == '=' then Ok(Scan([Token(EqEq, None)], i + 2))
        else Ok(Scan([Token(Eq, None)], i + 1)))
    ensures src[i] == '<' ==>
      (Step(src, i) ==
        if i + 1 < |src| && src[i + 1] == '=' then Ok(Scan([Token(Lte, None)], i + 2))
        else Ok(Scan([Token(Lt, None)], i + 1)))
    ensures src[i] == '>' ==>
      (Step(src, i) ==
        if i + 1 < |src| && src[i + 1] == '=' then Ok(Scan([Token(Gte, None)], i + 2))
        else Ok(Scan([Token(Gt, None)], i + 1)))
    ensures src[i] == '!' ==>
      (Step(src, i) ==
        if i + 1 < |src| && src[i + 1] == '=' then Ok(Scan([Token(Neq, None)], i + 2))
        else Err(UnexpectedBang))
  {
  }

  /** `secret` discards the rest of the line but not the newline itself. */
  lemma LineComment(src: string, i: nat, e: nat)
    requires i + 6 <= |src| && src[i..i + 6] == "secret" && IsRunEnd(src, i, i + 6, IsWordChar)
    requires IsRunEnd(src, i + 6, e, NotNewline)
    ensures Step(src, i) == Ok(Scan([], e))
    ensures TokenizeFrom(src, i) == TokenizeFrom(src, e)
    ensures e < |src| ==> src[e] == '\n'
  {
    assert src[i] == src[i..i + 6][0];
    RunEndUnique(src, i + 1, i + 6, IsWordChar);
    RunEndUnique(src, i + 6, e, NotNewline);
    match TokenizeFrom(src, e)
    case Err(_) =>
    case Ok(rest) => assert [] + rest == rest;
  }

  /** A `hide` comment has exactly one end. */
  lemma HideEndUnique(src: string, i: nat, e: nat)
    requires i <= |src| && IsHideClose(src, i, e)
    ensures HideEnd(src, i) == e
  {
  }

  /** `hide` discards everything through the next `hide`, or to the end of
      the input when none follows. */
  lemma BlockComment(src: string, i: nat, e: nat)
    requires i + 4 <= |src| && src[i..i + 4] == "hide" && IsRunEnd(src, i, i + 4, IsWordChar)
    requires IsHideClose(src, i + 4, e)
    ensures Step(src, i) == Ok(Scan([], e))
    ensures TokenizeFrom(src, i) == TokenizeFrom(src, e)
  {
    assert src[i] == src[i..i + 4][0];
    RunEndUnique(src, i + 1, i + 4, IsWordChar);
    HideEndUnique(src, i + 4, e);
    match TokenizeFrom(src, e)
    case Err(_) =>
    case Ok(rest) => assert [] + rest == rest;
  }
}
