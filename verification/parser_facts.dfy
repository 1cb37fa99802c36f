/** Properties of the parser: it reads back exactly the statements whose
    spellings the tokens are, and printing a syntax tree as tokens and
    parsing those tokens gives the tree back. */
module ParserFacts {
  import opened Wrappers
  import opened Tokens
  import opened Parser

  // ---------------------------------------------------------------------
  // Unparsing: the inverse of the parser
  // ---------------------------------------------------------------------

  /** The canonical tokens of a statement: keywords and punctuation carry no
      text, as the scanner emits them. */
  function UnparseStmt(s: Stmt): seq<Token> {
    match s
    case ExitStmt(e) =>
      [Token(Bye, None), Token(OpenParen, None), ExprToken(e), Token(CloseParen, None), Token(Semi, None)]
    case HopeStmt(id, e) =>
      [Token(Hope, None), id, Token(Eq, None), ExprToken(e), Token(Semi, None)]
  }

  /** The canonical tokens of a statement list. */
  function Unparse(stmts: seq<Stmt>): seq<Token>
    decreases |stmts|
  {
    if stmts == [] then [] else UnparseStmt(stmts[0]) + Unparse(stmts[1..])
  }

  /** Every statement of the list has the tags its rule names. */
  predicate AllShaped(stmts: seq<Stmt>) {
    forall k :: 0 <= k < |stmts| ==> StmtShaped(stmts[k])
  }

  /** Every keyword and punctuation token carries no text. */
  predicate PlainPunctuation(ts: seq<Token>) {
    forall k :: 0 <= k < |ts| && !HasPayload(ts[k].kind) ==> ts[k].value == None
  }

  // ---------------------------------------------------------------------
  // Statement level
  // ---------------------------------------------------------------------

  /** A well-shaped statement is spelled by its canonical tokens. */
  lemma UnparseStmtSpells(s: Stmt)
    requires StmtShaped(s)
    ensures Spells(s, UnparseStmt(s))
  {
  }

  /** Five tokens spell at most one statement. */
  lemma SpellsUnique(s: Stmt, s': Stmt, w: seq<Token>)
    requires Spells(s, w) && Spells(s', w)
    ensures s == s'
  {
  }

  /** When the five tokens at `pos` spell `s`, `parse_stmt` reads `s` and moves
      the cursor past them. */
  lemma ParseStmtSpelled(ts: seq<Token>, pos: nat, s: Stmt)
    requires pos + 5 <= |ts| && Spells(s, ts[pos..pos + 5])
    ensures ParseStmt(ts, pos) == Ok(Parsed(s, pos + 5))
  {
    var w := ts[pos..pos + 5];
    assert ts[pos] == w[0] && ts[pos + 1] == w[1] && ts[pos + 2] == w[2];
    assert ExitAhead(ts, pos) || HopeAhead(ts, pos);
    assert SpellsSome(w);
    var r := ParseStmt(ts, pos);
    SpellsUnique(r.value.stmt, s, w);
  }

  /** Canonical tokens of plain statements are the statement's spelling and
      nothing else: a spelling without stray text is the canonical one. */
  lemma SpellingIsCanonical(s: Stmt, w: seq<Token>)
    requires Spells(s, w) && PlainPunctuation(w)
    ensures UnparseStmt(s) == w
  {
    assert !HasPayload(w[0].kind) && !HasPayload(w[4].kind);
    match s
    case ExitStmt(e) =>
      assert !HasPayload(w[1].kind) && !HasPayload(w[3].kind);
    case HopeStmt(_, _) =>
      assert !HasPayload(w[2].kind);
  }

  // ---------------------------------------------------------------------
  // Program level
  // ---------------------------------------------------------------------

  /** Tokens that spell a statement list are parsed, from any cursor, into
      exactly that list. */
  lemma {:induction false} ParseFromSpelled(ts: seq<Token>, pos: nat, stmts: seq<Stmt>)
    requires pos <= |ts| && SpellsAll(stmts, ts[pos..])
    ensures ParseFrom(ts, pos) == Ok(stmts)
    decreases |stmts|
  {
    if stmts == [] {
      assert |ts[pos..]| == 0;
    } else {
      var w, s, rest := ts[pos..], stmts[0], stmts[1..];
      assert Spells(s, w[..5]) && SpellsAll(rest, w[5..]);
      assert w[..5] == ts[pos..pos + 5] && w[5..] == ts[pos + 5..];
      ParseStmtSpelled(ts, pos, s);
      ParseFromSpelled(ts, pos + 5, rest);
      assert [s] + rest == stmts;
    }
  }

  /** `parse_prog` succeeds exactly on token lists that spell some statement
      list, and then returns that list. */
  lemma ParseProgramExact(ts: seq<Token>, stmts: seq<Stmt>)
    ensures ParseProgram(ts) == Ok(Program(stmts)) <==> SpellsAll(stmts, ts)
  {
    if SpellsAll(stmts, ts) {
      assert ts[0..] == ts;
      ParseFromSpelled(ts, 0, stmts);
    }
  }

  /** The canonical tokens of well-shaped statements spell them. */
  lemma {:induction false} UnparseSpellsAll(stmts: seq<Stmt>)
    requires AllShaped(stmts)
    ensures SpellsAll(stmts, Unparse(stmts))
    decreases |stmts|
  {
    if stmts != [] {
      var w := Unparse(stmts);
      UnparseStmtSpells(stmts[0]);
      assert AllShaped(stmts[1..]) by {
        forall k | 0 <= k < |stmts[1..]| ensures StmtShaped(stmts[1..][k]) {
          assert stmts[1..][k] == stmts[k + 1];
        }
      }
      UnparseSpellsAll(stmts[1..]);
      assert w[..5] == UnparseStmt(stmts[0]);
      assert w[5..] == Unparse(stmts[1..]);
    }
  }

  /** Parsing the canonical tokens of a well-shaped program gives it back. */
  lemma ParseUnparse(stmts: seq<Stmt>)
    requires AllShaped(stmts)
    ensures ParseProgram(Unparse(stmts)) == Ok(Program(stmts))
  {
    UnparseSpellsAll(stmts);
    ParseProgramExact(Unparse(stmts), stmts);
  }

  /** Every statement the parser returns is well shaped. */
  lemma {:induction false} SpelledAreShaped(stmts: seq<Stmt>, w: seq<Token>)
    requires SpellsAll(stmts, w)
    ensures AllShaped(stmts)
    decreases |stmts|
  {
    if stmts != [] {
      SpelledAreShaped(stmts[1..], w[5..]);
      forall k | 0 <= k < |stmts| ensures StmtShaped(stmts[k]) {
        if k > 0 {
          assert stmts[k] == stmts[1..][k - 1];
        }
      }
    }
  }

  /** A spelling without stray text on its keywords and punctuation is the
      canonical one. */
  lemma {:induction false} SpellingsAreCanonical(stmts: seq<Stmt>, w: seq<Token>)
    requires SpellsAll(stmts, w) && PlainPunctuation(w)
    ensures Unparse(stmts) == w
    decreases |stmts|
  {
    if stmts != [] {
      assert PlainPunctuation(w[..5]) by {
        forall k | 0 <= k < 5 && !HasPayload(w[..5][k].kind) ensures w[..5][k].value == None {
          assert w[..5][k] == w[k];
        }
      }
      assert PlainPunctuation(w[5..]) by {
        forall k | 0 <= k < |w[5..]| && !HasPayload(w[5..][k].kind) ensures w[5..][k].value == None {
          assert w[5..][k] == w[k + 5];
        }
      }
      SpellingIsCanonical(stmts[0], w[..5]);
      SpellingsAreCanonical(stmts[1..], w[5..]);
      assert w[..5] + w[5..] == w;
    }
  }

  /** Printing a parsed program as canonical tokens gives back the tokens it
      was parsed from, when those carry no stray text (as the scanner's
      output never does); and the parsed statements are well shaped. */
  lemma UnparseParsed(ts: seq<Token>)
    requires PlainPunctuation(ts) && ParseProgram(ts).Ok?
    ensures AllShaped(ParseProgram(ts).value.stmts)
    ensures Unparse(ParseProgram(ts).value.stmts) == ts
  {
    var stmts := ParseProgram(ts).value.stmts;
    SpelledAreShaped(stmts, ts);
    SpellingsAreCanonical(stmts, ts);
  }

  // ---------------------------------------------------------------------
  // Diagnostics
  // ---------------------------------------------------------------------

  /** The spelling of a statement list has five tokens per statement. */
  lemma {:induction false} SpellingLength(stmts: seq<Stmt>, w: seq<Token>)
    requires SpellsAll(stmts, w)
    ensures |w| == 5 * |stmts| && |w| % 5 == 0
    decreases |stmts|
  {
    if stmts != [] {
      SpellingLength(stmts[1..], w[5..]);
    }
  }

  /** A token list whose length is not a multiple of five is refused. */
  lemma RaggedRefused(ts: seq<Token>)
    requires |ts| % 5 != 0
    ensures ParseProgram(ts).Err?
  {
    var r := ParseProgram(ts);
    if r.Ok? {
      SpellingLength(r.value.stmts, ts);
    }
  }

  /** `bye ( 7 ; ;` stops at the missing `)`, and a lone `;` is no statement. */
  lemma ErrorExamples()
    ensures ParseProgram([Token(Bye, None), Token(OpenParen, None), Token(IntLit, Some("7")),
                          Token(Semi, None), Token(Semi, None)]) == Err(CloseParenExpected)
    ensures ParseProgram([Token(Semi, None)]) == Err(InvalidStatement)
  {
    var ts := [Token(Bye, None), Token(OpenParen, None), Token(IntLit, Some("7")),
               Token(Semi, None), Token(Semi, None)];
    assert ExitAhead(ts, 0);
    assert ParseExit(ts, 0) == Err(CloseParenExpected);
    assert ParseProgram(ts) == Err(CloseParenExpected) by {
      assert ParseFrom(ts, 0) == Err(CloseParenExpected);
    }
    var one := [Token(Semi, None)];
    assert ParseStmt(one, 0) == Ok(NoStmt);
    assert ParseFrom(one, 0) == Err(InvalidStatement);
  }
}
