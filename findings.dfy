/**
 * Two places where the parser, as written, does something its authors
 * evidently did not intend. Each is modelled here as written, with the
 * input that shows it, next to the corrected behaviour that the rest of
 * the model (module Pratt) uses.
 */
module Findings {
  import opened Wrappers
  import opened Tokens
  import opened Ast
  import opened Pratt
  import opened ParserProperties

  // ---------------------------------------------------------------------
  // 1. The skip to `;` after a let or return statement only stops at `;`.
  //    Past the end of its input the lexer hands out EOF forever, so a last
  //    statement without `;` never returns.

  /** `for !currTokenIs(SEMICOLON) { nextToken() }` as written, run for at
      most `fuel` rounds: None when it has not stopped by then. */
  function SkipToSemicolonAsWritten(ts: seq<Token>, c: Cursor, fuel: nat): (r: Option<Cursor>)
    decreases fuel
    ensures r.Some? ==> Curr(ts, r.value).kind == Semicolon && c.pos <= r.value.pos && r.value.errors == c.errors
  {
    if Curr(ts, c).kind == Semicolon then Some(c)
    else if fuel == 0 then None
    else SkipToSemicolonAsWritten(ts, Advance(c), fuel - 1)
  }

  /** With no `;` from the cursor on, the loop as written does not stop,
      however many rounds it is given. */
  lemma {:induction false} NoSemicolonNeverStops(ts: seq<Token>, c: Cursor, fuel: nat)
    requires forall i | c.pos <= i < |ts| :: ts[i].kind != Semicolon
    ensures SkipToSemicolonAsWritten(ts, c, fuel) == None
    decreases fuel
  {
    assert Curr(ts, c).kind != Semicolon;
    if fuel > 0 {
      NoSemicolonNeverStops(ts, Advance(c), fuel - 1);
    }
  }

  /** Where the corrected loop stops on a `;`, the loop as written stops at
      the same place once it has enough rounds: the two differ only when
      EOF comes first. */
  lemma {:induction false} SkipAgreesBeforeEof(ts: seq<Token>, c: Cursor, fuel: nat)
    requires Curr(ts, SkipToSemicolon(ts, c)).kind == Semicolon
    requires SkipToSemicolon(ts, c).pos - c.pos <= fuel
    ensures SkipToSemicolonAsWritten(ts, c, fuel) == Some(SkipToSemicolon(ts, c))
    decreases fuel
  {
    if Curr(ts, c).kind != Semicolon {
      assert !EndsStatement(Curr(ts, c).kind);
      SkipAgreesBeforeEof(ts, Advance(c), fuel - 1);
    }
  }

  /** The tokens of `let x = 5` with no `;`. */
  const LetWithoutSemicolon: seq<Token> := [Token(Let, "let"), Token(Ident, "x"), Token(Assign, "="), Token(Int, "5")]

  /** parseLetStatement as written, with its skip loop given `fuel` rounds:
      None when it has not returned by then. */
  function ParseLetStatementAsWritten(ts: seq<Token>, c: Cursor, fuel: nat): (r: Option<Step<Option<Statement>>>)
    requires Curr(ts, c).kind == Let
    ensures r.Some? && r.value.value.Some? ==> Curr(ts, r.value.cur).kind == Semicolon
  {
    var name := ExpectPeek(ts, c, Ident);
    if !name.value then Some(Step(None, name.cur))
    else
      var assign := ExpectPeek(ts, name.cur, Assign);
      if !assign.value then Some(Step(None, assign.cur))
      else
        var value := ParseExpression(ts, Advance(assign.cur), Lowest);
        var stop := SkipToSemicolonAsWritten(ts, value.cur, fuel);
        if stop.None? then None
        else Some(Step(Some(LetStatement(Curr(ts, c), IdentifierAt(ts, name.cur.pos), value.value)), stop.value))
  }

  /** `let <ident> = <int>` as the last statement, with EOF after it. */
  predicate LetIntegerLast(ts: seq<Token>, c: Cursor) {
    LetHeadAt(ts, c.pos) && IntegerAt(ts, c.pos + 3) && TokenAt(ts, c.pos + 4).kind == Eof
  }

  /** Corrected: a last let statement without `;` is parsed, and the parser
      stands on the EOF after it with no new error. */
  lemma LetIntegerLastParses(ts: seq<Token>, c: Cursor)
    requires LetIntegerLast(ts, c)
    ensures ParseLetStatement(ts, c)
         == Step(Some(LetStatement(Curr(ts, c), IdentifierAt(ts, c.pos + 1),
                                   IntegerLiteral(TokenAt(ts, c.pos + 3), ParseInt64(TokenAt(ts, c.pos + 3).literal).value))),
                 Cursor(c.pos + 4, c.errors))
  {
    var c3, c4 := Cursor(c.pos + 3, c.errors), Cursor(c.pos + 4, c.errors);
    LetHead(ts, c);
    LetIntegerLastValue(ts, c);
    assert SkipToSemicolon(ts, c4) == c4;
    assert SkipToSemicolon(ts, c3) == c4;
  }

  /** As written: with no `;` after it, a last let statement never returns. */
  lemma LetIntegerLastHangs(ts: seq<Token>, c: Cursor, fuel: nat)
    requires LetIntegerLast(ts, c)
    requires forall i | c.pos + 3 <= i < |ts| :: ts[i].kind != Semicolon
    ensures ParseLetStatementAsWritten(ts, c, fuel) == None
  {
    assert ExpectPeek(ts, c, Ident) == Step(true, Advance(c));
    assert ExpectPeek(ts, Advance(c), Assign) == Step(true, Cursor(c.pos + 2, c.errors));
    LetIntegerLastValue(ts, c);
    NoSemicolonNeverStops(ts, Cursor(c.pos + 3, c.errors), fuel);
  }

  /** The value of `let <ident> = <int>` followed by EOF is the integer
      alone, and the parser stays on it. */
  lemma LetIntegerLastValue(ts: seq<Token>, c: Cursor)
    requires LetIntegerLast(ts, c)
    ensures ParseExpression(ts, Cursor(c.pos + 3, c.errors), Lowest)
         == Step(IntegerLiteral(TokenAt(ts, c.pos + 3), ParseInt64(TokenAt(ts, c.pos + 3).literal).value), Cursor(c.pos + 3, c.errors))
  {
    IntegerAlone(ts, Cursor(c.pos + 3, c.errors), Lowest);
  }

  /** `let x = 5` as written never returns, for every number of rounds. */
  lemma LetWithoutSemicolonHangs(fuel: nat)
    ensures ParseLetStatementAsWritten(LetWithoutSemicolon, Cursor(0, []), fuel) == None
  {
    LetWithoutSemicolonShape();
    LetIntegerLastHangs(LetWithoutSemicolon, Cursor(0, []), fuel);
  }

  /** `let x = 5` is a last let statement, with no `;` anywhere. */
  lemma LetWithoutSemicolonShape()
    ensures LetIntegerLast(LetWithoutSemicolon, Cursor(0, []))
    ensures forall i | 3 <= i < |LetWithoutSemicolon| :: LetWithoutSemicolon[i].kind != Semicolon
    ensures TokenAt(LetWithoutSemicolon, 0) == letToken && TokenAt(LetWithoutSemicolon, 1) == Token(Ident, "x")
    ensures TokenAt(LetWithoutSemicolon, 3) == Token(Int, "5") && ParseInt64("5") == Some(5)
  {
    var ts := LetWithoutSemicolon;
    DecimalLiterals();
    assert TokenAt(ts, 3) == Token(Int, "5") && TokenAt(ts, 4) == EofToken;
    assert |ts| == 4;
  }

  /** Corrected: `let x = 5` is the statement `let x = 5;`, with no error,
      and the parser stands on the EOF after it. */
  lemma LetWithoutSemicolonParses()
    ensures ParseLetStatement(LetWithoutSemicolon, Cursor(0, []))
         == Step(Some(LetOf("x", "5", 5)), Cursor(4, []))
  {
    LetWithoutSemicolonShape();
    LetIntegerLastParses(LetWithoutSemicolon, Cursor(0, []));
  }

  /** parserReturnStatement as written, with its skip loop given `fuel`
      rounds: None when it has not returned by then. */
  function ParseReturnStatementAsWritten(ts: seq<Token>, c: Cursor, fuel: nat): (r: Option<Step<Statement>>)
    requires Curr(ts, c).kind == Return
    ensures r.Some? ==> Curr(ts, r.value.cur).kind == Semicolon && r.value.value.ReturnStatement?
  {
    var value := ParseExpression(ts, Advance(c), Lowest);
    var stop := SkipToSemicolonAsWritten(ts, value.cur, fuel);
    if stop.None? then None
    else Some(Step(ReturnStatement(Curr(ts, c), value.value), stop.value))
  }

  /** `return <int>` as the last statement, with EOF after it. */
  predicate ReturnIntegerLast(ts: seq<Token>, c: Cursor) {
    TokenAt(ts, c.pos).kind == Return && IntegerAt(ts, c.pos + 1) && TokenAt(ts, c.pos + 2).kind == Eof
  }

  /** As written: with no `;` after it, a last return statement never
      returns. */
  lemma ReturnWithoutSemicolonHangs(ts: seq<Token>, c: Cursor, fuel: nat)
    requires ReturnIntegerLast(ts, c)
    requires forall i | c.pos + 1 <= i < |ts| :: ts[i].kind != Semicolon
    ensures ParseReturnStatementAsWritten(ts, c, fuel) == None
  {
    IntegerAlone(ts, Advance(c), Lowest);
    NoSemicolonNeverStops(ts, Advance(c), fuel);
  }

  /** Corrected: a last return statement without `;` is parsed, and the
      parser stands on the EOF after it with no new error. */
  lemma ReturnWithoutSemicolonParses(ts: seq<Token>, c: Cursor)
    requires ReturnIntegerLast(ts, c)
    ensures ParseReturnStatement(ts, c)
         == Step(ReturnStatement(Curr(ts, c), IntegerLiteral(TokenAt(ts, c.pos + 1), ParseInt64(TokenAt(ts, c.pos + 1).literal).value)),
                 Cursor(c.pos + 2, c.errors))
  {
    IntegerAlone(ts, Advance(c), Lowest);
    assert SkipToSemicolon(ts, Cursor(c.pos + 2, c.errors)) == Cursor(c.pos + 2, c.errors);
  }

  /** The tokens of `return 5` with no `;`. */
  const ReturnWithoutSemicolon: seq<Token> := [Token(Return, "return"), Token(Int, "5")]

  /** `return 5` as written never returns, for every number of rounds. */
  lemma ReturnFiveHangs(fuel: nat)
    ensures ParseReturnStatementAsWritten(ReturnWithoutSemicolon, Cursor(0, []), fuel) == None
  {
    ReturnFiveShape();
    ReturnWithoutSemicolonHangs(ReturnWithoutSemicolon, Cursor(0, []), fuel);
  }

  /** Corrected: `return 5` is the statement `return 5;`, with no error,
      and the parser stands on the EOF after it. */
  lemma ReturnFiveParses()
    ensures ParseReturnStatement(ReturnWithoutSemicolon, Cursor(0, []))
         == Step(ReturnStatement(Token(Return, "return"), IntegerLiteral(Token(Int, "5"), 5)), Cursor(2, []))
  {
    ReturnFiveShape();
    ReturnWithoutSemicolonParses(ReturnWithoutSemicolon, Cursor(0, []));
  }

  /** `return 5` is a last return statement, with no `;` anywhere. */
  lemma ReturnFiveShape()
    ensures ReturnIntegerLast(ReturnWithoutSemicolon, Cursor(0, []))
    ensures forall i | 1 <= i < |ReturnWithoutSemicolon| :: ReturnWithoutSemicolon[i].kind != Semicolon
    ensures TokenAt(ReturnWithoutSemicolon, 0) == Token(Return, "return")
    ensures TokenAt(ReturnWithoutSemicolon, 1) == Token(Int, "5") && ParseInt64("5") == Some(5)
  {
    var ts := ReturnWithoutSemicolon;
    DecimalLiterals();
    assert TokenAt(ts, 1) == Token(Int, "5") && TokenAt(ts, 2) == EofToken;
  }

  // ---------------------------------------------------------------------
  // 2. parseLetStatement returns a nil *ast.LetStatement on failure, which
  //    parseStatement converts to a non-nil ast.Statement, so the test
  //    `statement != nil` in ParseProgram (and parseBlockStatement) always
  //    holds and a failed let is kept as a nil entry.

  /** The loop of ParseProgram as written: every result is kept, a failed
      let as None. */
  function ProgramLoopAsWritten(ts: seq<Token>, c: Cursor, statements: seq<Option<Statement>>)
    : (r: Step<seq<Option<Statement>>>)
    decreases |ts| - c.pos
    ensures |statements| <= |r.value| && r.value[..|statements|] == statements
  {
    if Curr(ts, c).kind == Eof then Step(statements, c)
    else
      var s := ParseStatement(ts, c);
      ProgramLoopAsWritten(ts, Advance(s.cur), statements + [s.value])
  }

  /** The statements present in a sequence of results, in order. */
  function Present(xs: seq<Option<Statement>>): (r: seq<Statement>)
    ensures |r| <= |xs|
  {
    if |xs| == 0 then []
    else Present(xs[..|xs| - 1]) + (if xs[|xs| - 1].Some? then [xs[|xs| - 1].value] else [])
  }

  /** The corrected loop is the loop as written with the nil entries
      dropped: it stops at the same place with the same errors. */
  lemma {:induction false} ProgramLoopDropsNil(ts: seq<Token>, c: Cursor, statements: seq<Option<Statement>>)
    decreases |ts| - c.pos
    ensures var w := ProgramLoopAsWritten(ts, c, statements);
      && ProgramLoop(ts, c, Present(statements)) == Step(Present(w.value), w.cur)
  {
    if Curr(ts, c).kind != Eof {
      var s := ParseStatement(ts, c);
      var more := statements + [s.value];
      assert more[..|more| - 1] == statements;
      assert Present(more) == if s.value.Some? then Present(statements) + [s.value.value] else Present(statements);
      ProgramLoopDropsNil(ts, Advance(s.cur), more);
    }
  }

  /** The loop of parseBlockStatement as written: every result is kept, a
      failed let as None. */
  function BlockLoopAsWritten(ts: seq<Token>, c: Cursor, statements: seq<Option<Statement>>)
    : (r: Step<seq<Option<Statement>>>)
    decreases |ts| - c.pos
    ensures |statements| <= |r.value| && r.value[..|statements|] == statements
    ensures EndsBlock(Curr(ts, r.cur).kind)
  {
    if EndsBlock(Curr(ts, c).kind) then Step(statements, c)
    else
      var s := ParseStatement(ts, c);
      BlockLoopAsWritten(ts, Advance(s.cur), statements + [s.value])
  }

  /** The corrected block loop is the loop as written with the nil entries
      dropped: it stops at the same place with the same errors. */
  lemma {:induction false} BlockLoopDropsNil(ts: seq<Token>, c: Cursor, statements: seq<Option<Statement>>)
    decreases |ts| - c.pos
    ensures var w := BlockLoopAsWritten(ts, c, statements);
      && BlockLoop(ts, c, Present(statements)) == Step(Present(w.value), w.cur)
  {
    if !EndsBlock(Curr(ts, c).kind) {
      var s := ParseStatement(ts, c);
      var more := statements + [s.value];
      assert more[..|more| - 1] == statements;
      assert Present(more) == if s.value.Some? then Present(statements) + [s.value.value] else Present(statements);
      BlockLoopDropsNil(ts, Advance(s.cur), more);
    }
  }

  /** The tokens of `let 5;`. */
  const LetWithoutName: seq<Token> := [Token(Let, "let"), Token(Int, "5"), Token(Semicolon, ";")]

  /** The expression statement `5` the second round of `let 5;` makes. */
  function Five(): Statement {
    ExpressionStatement(Token(Int, "5"), IntegerLiteral(Token(Int, "5"), 5))
  }

  /** The first round of `let 5;`: the let fails on its name. */
  lemma LetWithoutNameFirst()
    ensures ParseStatement(LetWithoutName, Cursor(0, [])) == Step(None, Cursor(0, [UnexpectedPeek(Ident, Int)]))
  {
    assert Peek(LetWithoutName, Cursor(0, [])) == Token(Int, "5");
  }

  /** The second round of `let 5;`: the expression statement `5;`. */
  lemma LetWithoutNameSecond()
    ensures var c1 := Cursor(1, [UnexpectedPeek(Ident, Int)]);
      ParseStatement(LetWithoutName, c1) == Step(Some(Five()), Cursor(2, c1.errors))
  {
    var ts := LetWithoutName;
    var c1 := Cursor(1, [UnexpectedPeek(Ident, Int)]);
    DecimalLiterals();
    assert Curr(ts, c1) == Token(Int, "5") && Peek(ts, c1) == Token(Semicolon, ";");
    assert ParsePrefix(ts, c1) == Step(IntegerLiteral(Token(Int, "5"), 5), c1);
    assert ParseExpression(ts, c1, Lowest) == Step(IntegerLiteral(Token(Int, "5"), 5), c1);
  }

  /** `let 5;` as written: a nil statement first, then `5`, and one error. */
  lemma LetWithoutNameKeepsNil()
    ensures var w := ProgramLoopAsWritten(LetWithoutName, Cursor(0, []), []);
      && w.value == [None, Some(Five())]
      && w.cur == Cursor(3, [UnexpectedPeek(Ident, Int)])
  {
    var ts := LetWithoutName;
    var errors := [UnexpectedPeek(Ident, Int)];
    LetWithoutNameFirst();
    LetWithoutNameSecond();
    assert Curr(ts, Cursor(0, [])).kind == Let && Curr(ts, Cursor(1, errors)).kind == Int;
    assert Curr(ts, Cursor(3, errors)).kind == Eof;
    assert ProgramLoopAsWritten(ts, Cursor(3, errors), [None, Some(Five())]) == Step([None, Some(Five())], Cursor(3, errors));
    assert [None] + [Some(Five())] == [None, Some(Five())];
    assert ProgramLoopAsWritten(ts, Cursor(1, errors), [None]) == Step([None, Some(Five())], Cursor(3, errors));
    var none: seq<Option<Statement>> := [];
    assert none + [None] == [None];
  }

  /** Corrected: `let 5;` is the program `5`, with the same error. */
  lemma LetWithoutNameDropsNil()
    ensures ParseProgram(LetWithoutName) == Step(Program([Five()]), Cursor(3, [UnexpectedPeek(Ident, Int)]))
  {
    LetWithoutNameKeepsNil();
    ProgramLoopDropsNil(LetWithoutName, Cursor(0, []), []);
    var xs: seq<Option<Statement>> := [None, Some(Five())];
    assert xs[..1] == [None] && xs[..1][..0] == [];
    assert Present(xs) == [Five()];
  }

  /** The tokens of `{ let 5; }`. */
  const BlockWithoutName: seq<Token> :=
    [Token(LBrace, "{"), Token(Let, "let"), Token(Int, "5"), Token(Semicolon, ";"), Token(RBrace, "}")]

  /** `{ let 5; }` as written: the block's loop keeps a nil statement, then
      `5`, with one error, and stops on the `}`. */
  lemma BlockWithoutNameKeepsNil()
    ensures var w := BlockLoopAsWritten(BlockWithoutName, Cursor(1, []), []);
      && w.value == [None, Some(Five())]
      && w.cur == Cursor(4, [UnexpectedPeek(Ident, Int)])
  {
    var ts := BlockWithoutName;
    var errors := [UnexpectedPeek(Ident, Int)];
    BlockWithoutNameFirst();
    BlockWithoutNameSecond();
    assert Curr(ts, Cursor(1, [])).kind == Let && Curr(ts, Cursor(2, errors)).kind == Int;
    assert Curr(ts, Cursor(4, errors)).kind == RBrace;
    assert BlockLoopAsWritten(ts, Cursor(4, errors), [None, Some(Five())]) == Step([None, Some(Five())], Cursor(4, errors));
    AppendThree<Option<Statement>>(None, Some(Five()), None);
    assert BlockLoopAsWritten(ts, Cursor(2, errors), [None]) == Step([None, Some(Five())], Cursor(4, errors));
  }

  /** The first round of `{ let 5; }`: the let fails on its name. */
  lemma BlockWithoutNameFirst()
    ensures ParseStatement(BlockWithoutName, Cursor(1, [])) == Step(None, Cursor(1, [UnexpectedPeek(Ident, Int)]))
  {
    assert Peek(BlockWithoutName, Cursor(1, [])) == Token(Int, "5");
  }

  /** The second round of `{ let 5; }`: the expression statement `5;`. */
  lemma BlockWithoutNameSecond()
    ensures var c2 := Cursor(2, [UnexpectedPeek(Ident, Int)]);
      ParseStatement(BlockWithoutName, c2) == Step(Some(Five()), Cursor(3, c2.errors))
  {
    var ts := BlockWithoutName;
    var c2 := Cursor(2, [UnexpectedPeek(Ident, Int)]);
    DecimalLiterals();
    assert Curr(ts, c2) == Token(Int, "5") && Peek(ts, c2) == Token(Semicolon, ";");
    assert ParsePrefix(ts, c2) == Step(IntegerLiteral(Token(Int, "5"), 5), c2);
    assert ParseExpression(ts, c2, Lowest) == Step(IntegerLiteral(Token(Int, "5"), 5), c2);
  }

  /** Corrected: `{ let 5; }` is the block `{ 5 }`, with the same error. */
  lemma BlockWithoutNameDropsNil()
    ensures ParseBlock(BlockWithoutName, Cursor(0, []))
         == Step(Block(Token(LBrace, "{"), [Five()]), Cursor(4, [UnexpectedPeek(Ident, Int)]))
  {
    BlockWithoutNameKeepsNil();
    BlockLoopDropsNil(BlockWithoutName, Cursor(1, []), []);
    var xs: seq<Option<Statement>> := [None, Some(Five())];
    assert xs[..1] == [None] && xs[..1][..0] == [];
    assert Present(xs) == [Five()];
  }
}
