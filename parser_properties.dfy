/**
 * What the parser functions of `Pratt` compute: the error discipline,
 * how precedence and associativity shape the tree, the shape of parameter
 * and argument lists, and where the statement and program loops stop.
 */
module ParserProperties {
  import opened Wrappers
  import opened Tokens
  import opened Ast
  import opened Pratt
  import opened AstProperties

  /** The parser never moves backwards and never forgets an error. */
  predicate Follows(c: Cursor, d: Cursor) {
    c.pos <= d.pos && c.errors <= d.errors
  }

  /** `d` is `c` with exactly one more error, `e`, at the end. */
  predicate OneErrorMore(c: Cursor, d: Cursor, e: ParseError) {
    |d.errors| == |c.errors| + 1 && d.errors[..|c.errors|] == c.errors && d.errors[|c.errors|] == e
  }

  // ---------------------------------------------------------------------
  // The error list is append-only: every parse function returns a cursor
  // whose error list extends the one it started with.

  lemma {:induction false} ParseExpressionAppends(ts: seq<Token>, c: Cursor, precedence: int)
    decreases |ts| - c.pos, 6
    ensures Follows(c, ParseExpression(ts, c, precedence).cur)
  {
    if HasPrefixParseFn(Curr(ts, c).kind) {
      var left := ParsePrefix(ts, c);
      ParsePrefixAppends(ts, c);
      InfixLoopAppends(ts, left.cur, precedence, left.value);
    }
  }

  lemma {:induction false} ParsePrefixAppends(ts: seq<Token>, c: Cursor)
    decreases |ts| - c.pos, 5
    ensures Follows(c, ParsePrefix(ts, c).cur)
  {
    var k := Curr(ts, c).kind;
    if k.Ident? {
    } else if k.Int? {
    } else if k.Bang? || k.Minus? {
      ParsePrefixExpressionAppends(ts, c);
    } else if k.True? || k.False? {
    } else if k.LParen? {
      ParseGroupedExpressionAppends(ts, c);
    } else if k.If? {
      ParseIfExpressionAppends(ts, c);
    } else if k.Function? {
      ParseFunctionLiteralAppends(ts, c);
    }
  }

  lemma {:induction false} InfixLoopAppends(ts: seq<Token>, c: Cursor, precedence: int, left: Expression)
    decreases |ts| - c.pos, 5
    ensures Follows(c, InfixLoop(ts, c, precedence, left).cur)
  {
    var k := Peek(ts, c).kind;
    if !(k == Semicolon || precedence >= Precedence(k) || !HasInfixParseFn(k)) {
      var c1 := Advance(c);
      if k == LParen {
        var e := ParseCallExpression(ts, c1, left);
        ParseCallExpressionAppends(ts, c1, left);
        InfixLoopAppends(ts, e.cur, precedence, e.value);
      } else {
        var e := ParseInfixExpression(ts, c1, left);
        ParseInfixExpressionAppends(ts, c1, left);
        InfixLoopAppends(ts, e.cur, precedence, e.value);
      }
    }
  }

  lemma {:induction false} ParsePrefixExpressionAppends(ts: seq<Token>, c: Cursor)
    requires Curr(ts, c).kind == Bang || Curr(ts, c).kind == Minus
    decreases |ts| - c.pos, 4
    ensures Follows(c, ParsePrefixExpression(ts, c).cur)
  {
    ParseExpressionAppends(ts, Advance(c), PrefixLevel);
  }

  lemma {:induction false} ParseInfixExpressionAppends(ts: seq<Token>, c: Cursor, left: Expression)
    requires IsBinaryOperator(Curr(ts, c).kind)
    decreases |ts| - c.pos, 4
    ensures Follows(c, ParseInfixExpression(ts, c, left).cur)
  {
    ParseExpressionAppends(ts, Advance(c), Precedence(Curr(ts, c).kind));
  }

  lemma {:induction false} ParseGroupedExpressionAppends(ts: seq<Token>, c: Cursor)
    requires Curr(ts, c).kind == LParen
    decreases |ts| - c.pos, 4
    ensures Follows(c, ParseGroupedExpression(ts, c).cur)
  {
    ParseExpressionAppends(ts, Advance(c), Lowest);
  }

  lemma {:induction false} ParseIfExpressionAppends(ts: seq<Token>, c: Cursor)
    requires Curr(ts, c).kind == If
    decreases |ts| - c.pos, 4
    ensures Follows(c, ParseIfExpression(ts, c).cur)
  {
    var open := ExpectPeek(ts, c, LParen);
    ExpectPeekFollows(ts, c, LParen);
    if open.value {
      var condition := ParseExpression(ts, Advance(open.cur), Lowest);
      ParseExpressionAppends(ts, Advance(open.cur), Lowest);
      var close := ExpectPeek(ts, condition.cur, RParen);
      ExpectPeekFollows(ts, condition.cur, RParen);
      assert Follows(c, close.cur);
      if close.value {
        var brace := ExpectPeek(ts, close.cur, LBrace);
        ExpectPeekFollows(ts, close.cur, LBrace);
        if brace.value {
          IfBlocksAppend(ts, c, brace.cur);
        }
      }
    }
  }

  /** The blocks of an if expression, from the `{` of its consequence on. */
  lemma {:induction false} IfBlocksAppend(ts: seq<Token>, c: Cursor, b: Cursor)
    requires Curr(ts, b).kind == LBrace && Follows(c, b)
    decreases |ts| - b.pos, 5
    ensures var consequence := ParseBlock(ts, b);
      && Follows(c, consequence.cur)
      && (Peek(ts, consequence.cur).kind == Else ==>
            var brace2 := ExpectPeek(ts, Advance(consequence.cur), LBrace);
            Follows(c, brace2.cur) && (brace2.value ==> Follows(c, ParseBlock(ts, brace2.cur).cur)))
  {
    var consequence := ParseBlock(ts, b);
    ParseBlockAppends(ts, b);
    if Peek(ts, consequence.cur).kind == Else {
      var brace2 := ExpectPeek(ts, Advance(consequence.cur), LBrace);
      ExpectPeekFollows(ts, Advance(consequence.cur), LBrace);
      if brace2.value {
        ParseBlockAppends(ts, brace2.cur);
      }
    }
  }

  /** expectPeek only moves forward and only adds errors. */
  lemma ExpectPeekFollows(ts: seq<Token>, c: Cursor, k: Kind)
    ensures Follows(c, ExpectPeek(ts, c, k).cur)
  {
  }

  lemma {:induction false} ParseBlockAppends(ts: seq<Token>, c: Cursor)
    requires Curr(ts, c).kind == LBrace
    decreases |ts| - c.pos, 4
    ensures Follows(c, ParseBlock(ts, c).cur)
  {
    BlockLoopEnds(ts, Advance(c), []);
  }

  lemma {:induction false} ParseFunctionLiteralAppends(ts: seq<Token>, c: Cursor)
    requires Curr(ts, c).kind == Function
    decreases |ts| - c.pos, 4
    ensures Follows(c, ParseFunctionLiteral(ts, c).cur)
  {
    var open := ExpectPeek(ts, c, LParen);
    if open.value {
      var parameters := ParseFunctionParameters(ts, open.cur);
      FunctionParametersShape(ts, open.cur);
      var brace := ExpectPeek(ts, parameters.cur, LBrace);
      if brace.value {
        ParseBlockAppends(ts, brace.cur);
      }
    }
  }

  lemma {:induction false} ParseCallExpressionAppends(ts: seq<Token>, c: Cursor, callee: Expression)
    requires Curr(ts, c).kind == LParen
    decreases |ts| - c.pos, 4
    ensures Follows(c, ParseCallExpression(ts, c, callee).cur)
  {
    CallArgumentsShape(ts, c);
  }

  /** parseCallArguments: an immediate `)` is the empty list. Otherwise
      the first argument is the expression after `(`, every later one is
      a round of the loop (`CommaRounds`), and the list is present exactly
      when the closing `)` follows the last argument, or absent with one
      "expected )" error added. */
  lemma {:induction false} CallArgumentsShape(ts: seq<Token>, c: Cursor)
    requires Curr(ts, c).kind == LParen
    decreases |ts| - c.pos, 3
    ensures Follows(c, ParseCallArguments(ts, c).cur)
    ensures Peek(ts, c).kind == RParen ==> ParseCallArguments(ts, c) == Step(Some([]), Advance(c))
    ensures var r := ParseCallArguments(ts, c);
      var first := ParseExpression(ts, Advance(c), Lowest);
      Peek(ts, c).kind != RParen && r.value.Some? ==>
        && |r.value.value| >= 1
        && r.value.value[0] == first.value
        && Curr(ts, r.cur).kind == RParen
        && exists d: Cursor :: CommaRounds(ts, first.cur, r.value.value[1..], d) && r.cur == Advance(d)
    ensures var r := ParseCallArguments(ts, c);
      Peek(ts, c).kind != RParen && r.value.None? ==>
        exists items: seq<Expression>, d: Cursor ::
          && CommaRounds(ts, ParseExpression(ts, Advance(c), Lowest).cur, items, d)
          && Follows(c, d) && Peek(ts, d).kind != RParen
          && r.cur == Fail(d, UnexpectedPeek(RParen, Peek(ts, d).kind))
  {
    if Peek(ts, c).kind != RParen {
      CallArgumentsPresent(ts, c);
      CallArgumentsAbsent(ts, c);
    }
  }

  /** CallArgumentsShape when the list is present. */
  lemma {:induction false} CallArgumentsPresent(ts: seq<Token>, c: Cursor)
    requires Curr(ts, c).kind == LParen && Peek(ts, c).kind != RParen
    decreases |ts| - c.pos, 2
    ensures Follows(c, ParseCallArguments(ts, c).cur)
    ensures var r := ParseCallArguments(ts, c);
      var first := ParseExpression(ts, Advance(c), Lowest);
      r.value.Some? ==>
        && |r.value.value| >= 1
        && r.value.value[0] == first.value
        && Curr(ts, r.cur).kind == RParen
        && exists d: Cursor :: CommaRounds(ts, first.cur, r.value.value[1..], d) && r.cur == Advance(d)
  {
    var first := ParseExpression(ts, Advance(c), Lowest);
    ParseExpressionAppends(ts, Advance(c), Lowest);
    var rest := ArgumentsLoop(ts, first.cur, [first.value]);
    ArgumentsLoopShape(ts, first.cur, [first.value]);
    var close := ExpectPeek(ts, rest.cur, RParen);
    ExpectPeekFollows(ts, rest.cur, RParen);
    assert ParseCallArguments(ts, c) == Step(if close.value then Some(rest.value) else None, close.cur);
    assert Follows(c, rest.cur);
    assert rest.value[0] == first.value;
    if close.value {
      assert CommaRounds(ts, first.cur, rest.value[1..], rest.cur);
    }
  }

  /** CallArgumentsShape when the closing `)` is missing. */
  lemma {:induction false} CallArgumentsAbsent(ts: seq<Token>, c: Cursor)
    requires Curr(ts, c).kind == LParen && Peek(ts, c).kind != RParen
    decreases |ts| - c.pos, 2
    ensures var r := ParseCallArguments(ts, c);
      r.value.None? ==>
        exists items: seq<Expression>, d: Cursor ::
          && CommaRounds(ts, ParseExpression(ts, Advance(c), Lowest).cur, items, d)
          && Follows(c, d) && Peek(ts, d).kind != RParen
          && r.cur == Fail(d, UnexpectedPeek(RParen, Peek(ts, d).kind))
  {
    var first := ParseExpression(ts, Advance(c), Lowest);
    ParseExpressionAppends(ts, Advance(c), Lowest);
    var rest := ArgumentsLoop(ts, first.cur, [first.value]);
    ArgumentsLoopShape(ts, first.cur, [first.value]);
    var close := ExpectPeek(ts, rest.cur, RParen);
    assert ParseCallArguments(ts, c) == Step(if close.value then Some(rest.value) else None, close.cur);
    if !close.value {
      assert Follows(c, rest.cur);
      assert CommaRounds(ts, first.cur, rest.value[1..], rest.cur) && Peek(ts, rest.cur).kind != RParen
        && close.cur == Fail(rest.cur, UnexpectedPeek(RParen, Peek(ts, rest.cur).kind));
    }
  }

  /** The rounds of parseCallArguments' loop from `c` up to `end`: in each
      round the peek token is `,` and the next argument is the expression
      after it, parsed at LOWEST; the loop stops at `end`, whose peek token
      is not `,`. So the loop takes one argument per comma. */
  predicate CommaRounds(ts: seq<Token>, c: Cursor, items: seq<Expression>, end: Cursor)
    decreases |items|
  {
    if |items| == 0 then end == c && Peek(ts, c).kind != Comma
    else
      && Peek(ts, c).kind == Comma
      && var e := ParseExpression(ts, Advance(Advance(c)), Lowest);
         items[0] == e.value && CommaRounds(ts, e.cur, items[1..], end)
  }

  /** The loop of parseCallArguments keeps the arguments it was given, in
      order, and appends one argument per round (`CommaRounds`). */
  lemma {:induction false} ArgumentsLoopShape(ts: seq<Token>, c: Cursor, args: seq<Expression>)
    decreases |ts| - c.pos, 2
    ensures var r := ArgumentsLoop(ts, c, args);
      && Follows(c, r.cur)
      && |args| <= |r.value| && r.value[..|args|] == args
      && CommaRounds(ts, c, r.value[|args|..], r.cur)
      && Peek(ts, r.cur).kind != Comma
  {
    if Peek(ts, c).kind == Comma {
      var e := ParseExpression(ts, Advance(Advance(c)), Lowest);
      ParseExpressionAppends(ts, Advance(Advance(c)), Lowest);
      ArgumentsLoopShape(ts, e.cur, args + [e.value]);
      var r := ArgumentsLoop(ts, e.cur, args + [e.value]);
      assert r.value[..|args|] == (r.value[..|args| + 1])[..|args|];
      assert r.value[|args|] == (r.value[..|args| + 1])[|args|] == e.value;
      var items := r.value[|args|..];
      assert items[1..] == r.value[|args| + 1..];
    } else {
      assert ArgumentsLoop(ts, c, args).value[|args|..] == [];
    }
  }

  // ---------------------------------------------------------------------
  // Statements

  /** parseStatement dispatches on the current token; only a `let` can fail
      (a nil statement), and a failed `let` has reported exactly one error:
      its name or its `=` was missing. */
  lemma {:induction false} ParseStatementAppends(ts: seq<Token>, c: Cursor)
    decreases |ts| - c.pos, 8
    ensures var r := ParseStatement(ts, c);
      && Follows(c, r.cur)
      && (r.value.None? ==>
            && Curr(ts, c).kind == Let
            && |r.cur.errors| == |c.errors| + 1 && r.cur.errors[..|c.errors|] == c.errors
            && r.cur.errors[|c.errors|].UnexpectedPeek?
            && (r.cur.errors[|c.errors|].expected == Ident || r.cur.errors[|c.errors|].expected == Assign))
      && (r.value.Some? ==>
            && (Curr(ts, c).kind == Let <==> r.value.value.LetStatement?)
            && (Curr(ts, c).kind == Return <==> r.value.value.ReturnStatement?)
            && (Curr(ts, c).kind != Let && Curr(ts, c).kind != Return <==> r.value.value.ExpressionStatement?))
  {
    var k := Curr(ts, c).kind;
    if k.Let? {
      var name := ExpectPeek(ts, c, Ident);
      if name.value {
        var assign := ExpectPeek(ts, name.cur, Assign);
        if assign.value {
          var value := ParseExpression(ts, Advance(assign.cur), Lowest);
          ParseExpressionAppends(ts, Advance(assign.cur), Lowest);
        }
      }
    } else if k.Return? {
      ParseExpressionAppends(ts, Advance(c), Lowest);
    } else {
      ParseExpressionAppends(ts, c, Lowest);
    }
  }

  /** The skip at the end of a `let` or `return` stops on the first `;` or
      EOF at or after the cursor, and reports nothing. */
  lemma {:induction false} SkipToSemicolonStops(ts: seq<Token>, c: Cursor)
    decreases |ts| - c.pos
    ensures var r := SkipToSemicolon(ts, c);
      && EndsStatement(Curr(ts, r).kind)
      && forall p | c.pos <= p < r.pos :: !EndsStatement(TokenAt(ts, p).kind)
  {
    if !EndsStatement(Curr(ts, c).kind) {
      SkipToSemicolonStops(ts, Advance(c));
    }
  }

  /** The loop of parseBlockStatement ends on `}` or EOF and keeps the
      statements it was given, in order. */
  lemma {:induction false} BlockLoopEnds(ts: seq<Token>, c: Cursor, statements: seq<Statement>)
    decreases |ts| - c.pos, 9
    ensures var r := BlockLoop(ts, c, statements);
      && Follows(c, r.cur)
      && EndsBlock(Curr(ts, r.cur).kind)
      && |statements| <= |r.value| && r.value[..|statements|] == statements
  {
    if !EndsBlock(Curr(ts, c).kind) {
      var s := ParseStatement(ts, c);
      ParseStatementAppends(ts, c);
      var kept := if s.value.Some? then statements + [s.value.value] else statements;
      BlockLoopEnds(ts, Advance(s.cur), kept);
      var r := BlockLoop(ts, Advance(s.cur), kept);
      assert r.value[..|statements|] == (r.value[..|kept|])[..|statements|];
    }
  }

  /** The loop of ParseProgram runs until the current token is EOF and keeps
      the statements it was given, in order. */
  lemma {:induction false} ProgramLoopEnds(ts: seq<Token>, c: Cursor, statements: seq<Statement>)
    decreases |ts| - c.pos
    ensures var r := ProgramLoop(ts, c, statements);
      && Follows(c, r.cur)
      && Curr(ts, r.cur).kind == Eof
      && |statements| <= |r.value| && r.value[..|statements|] == statements
  {
    if Curr(ts, c).kind != Eof {
      var s := ParseStatement(ts, c);
      ParseStatementAppends(ts, c);
      var kept := if s.value.Some? then statements + [s.value.value] else statements;
      ProgramLoopEnds(ts, Advance(s.cur), kept);
      var r := ProgramLoop(ts, Advance(s.cur), kept);
      assert r.value[..|statements|] == (r.value[..|kept|])[..|statements|];
    }
  }

  /** ParseProgram returns once the current token is EOF, with only the
      errors its statements reported. */
  lemma ParseProgramEnds(ts: seq<Token>)
    ensures var r := ParseProgram(ts);
      && Curr(ts, r.cur).kind == Eof
      && Follows(Cursor(0, []), r.cur)
  {
    ProgramLoopEnds(ts, Cursor(0, []), []);
  }

  // ---------------------------------------------------------------------
  // Function parameters

  /** The i-th item after the token at p in a comma-separated list of
      single tokens: a comma, then the item. */
  predicate AfterComma(ts: seq<Token>, p: nat, i: nat, id: Identifier) {
    TokenAt(ts, p + 2 * i + 1).kind == Comma && id == IdentifierAt(ts, p + 2 * i + 2)
  }

  /** The loop of parseFunctionParameters: each round takes the token two
      places on, which follows a comma; it ends where the peek token is not
      a comma, and reports nothing. */
  lemma {:induction false} ParametersLoopShape(ts: seq<Token>, c: Cursor, ids: seq<Identifier>)
    decreases |ts| - c.pos
    ensures var r := ParametersLoop(ts, c, ids);
      && |ids| <= |r.value| && r.value[..|ids|] == ids
      && r.cur == Cursor(c.pos + 2 * (|r.value| - |ids|), c.errors)
      && (forall j | |ids| <= j < |r.value| :: AfterComma(ts, c.pos, j - |ids|, r.value[j]))
      && Peek(ts, r.cur).kind != Comma
  {
    if Peek(ts, c).kind == Comma {
      var c2 := Advance(Advance(c));
      var more := ids + [IdentifierAt(ts, c2.pos)];
      ParametersLoopShape(ts, c2, more);
      var r := ParametersLoop(ts, c, ids);
      assert r == ParametersLoop(ts, c2, more);
      assert r.value[..|ids|] == (r.value[..|more|])[..|ids|];
      forall j | |ids| <= j < |r.value|
        ensures AfterComma(ts, c.pos, j - |ids|, r.value[j])
      {
        if j == |ids| {
          assert r.value[j] == r.value[..|more|][j] == more[|ids|];
        } else {
          assert AfterComma(ts, c2.pos, j - |more|, r.value[j]);
          assert c2.pos + 2 * (j - |more|) == c.pos + 2 * (j - |ids|);
        }
      }
    }
  }

  /** parseFunctionParameters: an immediate `)` is the empty list; a present
      list holds the token after `(` and the token after each comma, in
      order, and leaves the cursor on `)`; an absent one has added one
      "expected )" error where neither `,` nor `)` followed. */
  lemma FunctionParametersShape(ts: seq<Token>, c: Cursor)
    requires Curr(ts, c).kind == LParen
    ensures Follows(c, ParseFunctionParameters(ts, c).cur)
    ensures Peek(ts, c).kind == RParen ==> ParseFunctionParameters(ts, c) == Step(Some([]), Advance(c))
    ensures var r := ParseFunctionParameters(ts, c);
      Peek(ts, c).kind != RParen && r.value.Some? ==>
        var ps := r.value.value;
        && |ps| >= 1
        && r.cur == Cursor(c.pos + 2 * |ps|, c.errors)
        && Curr(ts, r.cur).kind == RParen
        && ps[0] == IdentifierAt(ts, c.pos + 1)
        && (forall j | 1 <= j < |ps| :: AfterComma(ts, c.pos + 1, j - 1, ps[j]))
    ensures var r := ParseFunctionParameters(ts, c);
      r.value.None? ==>
        exists d: Cursor :: d.errors == c.errors && Peek(ts, d).kind != RParen && Peek(ts, d).kind != Comma
          && r.cur == Fail(d, UnexpectedPeek(RParen, Peek(ts, d).kind))
  {
    if Peek(ts, c).kind != RParen {
      var c1 := Advance(c);
      var first := [IdentifierAt(ts, c1.pos)];
      ParametersLoopShape(ts, c1, first);
      var ps := ParametersLoop(ts, c1, first);
      assert ps.value[0] == ps.value[..1][0];
      var close := ExpectPeek(ts, ps.cur, RParen);
      if !close.value {
        assert Peek(ts, ps.cur).kind != RParen && ps.cur.errors == c.errors;
      }
    }
  }

  // ---------------------------------------------------------------------
  // Precedence

  /** The binding powers are strictly ordered. */
  lemma PrecedenceOrder()
    ensures Lowest < Equals < LessGreater < Sum < Product < PrefixLevel < CallLevel
    ensures forall k :: Precedence(k) < PrefixLevel || k == LParen
  {
  }

  /** The infix loop hands over only tokens that bind tighter than the
      floor: it ends before a `;`, before a token that binds no tighter
      than `precedence`, or before one with no infix function, and such a
      token stops it at once. */
  lemma {:induction false} InfixLoopStops(ts: seq<Token>, c: Cursor, precedence: int, left: Expression)
    decreases |ts| - c.pos
    ensures var r := InfixLoop(ts, c, precedence, left);
      var k := Peek(ts, r.cur).kind;
      k == Semicolon || Precedence(k) <= precedence || !HasInfixParseFn(k)
    ensures var k := Peek(ts, c).kind;
      k == Semicolon || Precedence(k) <= precedence ==> InfixLoop(ts, c, precedence, left) == Step(left, c)
  {
    var k := Peek(ts, c).kind;
    if !(k == Semicolon || precedence >= Precedence(k) || !HasInfixParseFn(k)) {
      var c1 := Advance(c);
      var e := if k == LParen then ParseCallExpression(ts, c1, left) else ParseInfixExpression(ts, c1, left);
      InfixLoopStops(ts, e.cur, precedence, e.value);
    }
  }

  /** Hence parseExpression(LOWEST) stops before any token absent from the
      precedence table. */
  lemma ParseExpressionStops(ts: seq<Token>, c: Cursor)
    requires HasPrefixParseFn(Curr(ts, c).kind)
    ensures var r := ParseExpression(ts, c, Lowest);
      var k := Peek(ts, r.cur).kind;
      k == Semicolon || Precedence(k) == Lowest
  {
    var left := ParsePrefix(ts, c);
    InfixLoopStops(ts, left.cur, Lowest, left.value);
  }

  /** A token with no prefix function makes parseExpression report exactly
      that one error and yield nil. */
  lemma NoPrefixReported(ts: seq<Token>, c: Cursor, precedence: int)
    requires !HasPrefixParseFn(Curr(ts, c).kind)
    ensures var r := ParseExpression(ts, c, precedence);
      r.value == Nil && r.cur.pos == c.pos && OneErrorMore(c, r.cur, NoPrefixParseFn(Curr(ts, c).kind))
  {
  }

  /** An integer literal strconv.ParseInt rejects is reported once and
      yields nil; an accepted one adds nothing. */
  lemma IntegerLiteralReported(ts: seq<Token>, c: Cursor)
    requires Curr(ts, c).kind == Int
    ensures var r := ParseIntegerLiteral(ts, c);
      var t := Curr(ts, c);
      && r.cur.pos == c.pos
      && (ParseInt64(t.literal).None? ==> r.value == Nil && OneErrorMore(c, r.cur, BadIntegerLiteral(t.literal)))
      && (ParseInt64(t.literal).Some? ==> r.value == IntegerLiteral(t, ParseInt64(t.literal).value) && r.cur == c)
  {
  }

  /** With base 0, a leading zero means octal: `010` is 8 and `09` is
      rejected; other digit strings are decimal. */
  lemma DecimalLiterals()
    ensures ParseInt64("010") == Some(8)
    ensures ParseInt64("09") == None
    ensures ParseInt64("5") == Some(5)
    ensures ParseInt64("10") == Some(10)
    ensures ParseInt64("8080") == Some(8080)
  {
    assert "1"[..0] == [] && "10"[..1] == "1";
    assert "010"[1..] == "10";
    assert "09"[1..] == "9";
    assert !AllDigits("9", 8) by {
      assert "9"[0] == '9';
    }
    assert "5"[..0] == [];
    assert DigitsValue("8080", 10) == 8080 by {
      assert "8080"[..3] == "808";
      assert "808"[..2] == "80";
      assert "80"[..1] == "8";
      assert "8"[..0] == [];
    }
  }

  // ---------------------------------------------------------------------
  // Associativity and binding, over the tokens `x o1 y o2 z` and `o x o2 y`

  /** The identifier expression of the token at index i. */
  function Atom(ts: seq<Token>, i: nat): Expression {
    Id(IdentifierAt(ts, i))
  }

  /** An identifier is its own prefix expression; the infix loop goes on
      from it. */
  lemma AtomOperand(ts: seq<Token>, c: Cursor, precedence: int)
    requires Curr(ts, c).kind == Ident
    ensures ParseExpression(ts, c, precedence) == InfixLoop(ts, c, precedence, Atom(ts, c.pos))
  {
    assert ParsePrefix(ts, c) == Step(Atom(ts, c.pos), c);
  }

  /** An identifier followed by a token that does not bind tighter than
      the floor is a whole operand. */
  lemma AtomAlone(ts: seq<Token>, c: Cursor, precedence: int)
    requires Curr(ts, c).kind == Ident
    requires Peek(ts, c).kind == Semicolon || Precedence(Peek(ts, c).kind) <= precedence
    ensures ParseExpression(ts, c, precedence) == Step(Atom(ts, c.pos), c)
  {
    AtomOperand(ts, c, precedence);
    InfixLoopStops(ts, c, precedence, Atom(ts, c.pos));
  }

  /** An integer literal strconv.ParseInt accepts, followed by a token that
      does not bind tighter than the floor, is a whole operand. */
  lemma IntegerAlone(ts: seq<Token>, c: Cursor, precedence: int)
    requires IntegerAt(ts, c.pos)
    requires Peek(ts, c).kind == Semicolon || Precedence(Peek(ts, c).kind) <= precedence
    ensures ParseExpression(ts, c, precedence)
         == Step(IntegerLiteral(Curr(ts, c), ParseInt64(Curr(ts, c).literal).value), c)
  {
    var v := IntegerLiteral(Curr(ts, c), ParseInt64(Curr(ts, c).literal).value);
    assert ParsePrefix(ts, c) == Step(v, c);
    assert InfixLoop(ts, c, precedence, v) == Step(v, c);
  }

  /** A binary operator that binds tighter than the floor takes the
      expression so far as its left operand. */
  lemma InfixStep(ts: seq<Token>, c: Cursor, precedence: int, left: Expression)
    requires IsBinaryOperator(Peek(ts, c).kind) && precedence < Precedence(Peek(ts, c).kind)
    ensures var e := ParseInfixExpression(ts, Advance(c), left);
      InfixLoop(ts, c, precedence, left) == InfixLoop(ts, e.cur, precedence, e.value)
  {
  }

  /** The operand `y` of `x o1 y o2 z` is taken by the operator that binds
      it tighter, and by the left one when they bind equally: `a - b - c` is
      `((a - b) - c)`, `a + b * c` is `(a + (b * c))`. */
  lemma BinaryNesting(ts: seq<Token>, c: Cursor)
    requires TokenAt(ts, c.pos).kind == Ident
    requires IsBinaryOperator(TokenAt(ts, c.pos + 1).kind)
    requires TokenAt(ts, c.pos + 2).kind == Ident
    requires IsBinaryOperator(TokenAt(ts, c.pos + 3).kind)
    requires TokenAt(ts, c.pos + 4).kind == Ident
    requires !HasInfixParseFn(TokenAt(ts, c.pos + 5).kind)
    ensures var o1 := TokenAt(ts, c.pos + 1);
      var o2 := TokenAt(ts, c.pos + 3);
      var x, y, z := Atom(ts, c.pos), Atom(ts, c.pos + 2), Atom(ts, c.pos + 4);
      ParseExpression(ts, c, Lowest) ==
        Step(if Precedence(o2.kind) <= Precedence(o1.kind)
             then InfixExpression(o2, InfixExpression(o1, x, o1.literal, y), o2.literal, z)
             else InfixExpression(o1, x, o1.literal, InfixExpression(o2, y, o2.literal, z)),
             Cursor(c.pos + 4, c.errors))
  {
    if Precedence(TokenAt(ts, c.pos + 3).kind) <= Precedence(TokenAt(ts, c.pos + 1).kind) {
      NestingLeft(ts, c);
    } else {
      NestingRight(ts, c);
    }
  }

  /** `x o1 y o2 z` when o2 binds no tighter than o1: `((x o1 y) o2 z)`. */
  lemma NestingLeft(ts: seq<Token>, c: Cursor)
    requires TokenAt(ts, c.pos).kind == Ident
    requires IsBinaryOperator(TokenAt(ts, c.pos + 1).kind)
    requires TokenAt(ts, c.pos + 2).kind == Ident
    requires IsBinaryOperator(TokenAt(ts, c.pos + 3).kind)
    requires TokenAt(ts, c.pos + 4).kind == Ident
    requires !HasInfixParseFn(TokenAt(ts, c.pos + 5).kind)
    requires Precedence(TokenAt(ts, c.pos + 3).kind) <= Precedence(TokenAt(ts, c.pos + 1).kind)
    ensures var o1 := TokenAt(ts, c.pos + 1);
      var o2 := TokenAt(ts, c.pos + 3);
      ParseExpression(ts, c, Lowest)
      == Step(InfixExpression(o2, InfixExpression(o1, Atom(ts, c.pos), o1.literal, Atom(ts, c.pos + 2)), o2.literal, Atom(ts, c.pos + 4)),
              Cursor(c.pos + 4, c.errors))
  {
    var o1 := TokenAt(ts, c.pos + 1);
    var o2 := TokenAt(ts, c.pos + 3);
    var x := Atom(ts, c.pos);
    var c1, c2 := Cursor(c.pos + 1, c.errors), Cursor(c.pos + 2, c.errors);
    var c3, c4 := Cursor(c.pos + 3, c.errors), Cursor(c.pos + 4, c.errors);
    var left := InfixExpression(o1, x, o1.literal, Atom(ts, c.pos + 2));
    InfixOfAtom(ts, c3, left);
    InfixOfAtom(ts, c1, x);
    InfixLoopStops(ts, c4, Lowest, InfixExpression(o2, left, o2.literal, Atom(ts, c.pos + 4)));
    AtomOperand(ts, c, Lowest);
    InfixStep(ts, c, Lowest, x);
    InfixStep(ts, c2, Lowest, left);
  }

  /** An infix operator whose right operand is an identifier followed by a
      token that binds no tighter takes just that identifier. */
  lemma InfixOfAtom(ts: seq<Token>, c: Cursor, left: Expression)
    requires IsBinaryOperator(Curr(ts, c).kind) && TokenAt(ts, c.pos + 1).kind == Ident
    requires Precedence(TokenAt(ts, c.pos + 2).kind) <= Precedence(Curr(ts, c).kind)
    ensures ParseInfixExpression(ts, c, left)
         == Step(InfixExpression(Curr(ts, c), left, Curr(ts, c).literal, Atom(ts, c.pos + 1)), Advance(c))
  {
    AtomAlone(ts, Advance(c), Precedence(Curr(ts, c).kind));
  }

  /** `x o1 y o2 z` when o2 binds tighter than o1: `(x o1 (y o2 z))`. */
  lemma NestingRight(ts: seq<Token>, c: Cursor)
    requires TokenAt(ts, c.pos).kind == Ident
    requires IsBinaryOperator(TokenAt(ts, c.pos + 1).kind)
    requires TokenAt(ts, c.pos + 2).kind == Ident
    requires IsBinaryOperator(TokenAt(ts, c.pos + 3).kind)
    requires TokenAt(ts, c.pos + 4).kind == Ident
    requires !HasInfixParseFn(TokenAt(ts, c.pos + 5).kind)
    requires Precedence(TokenAt(ts, c.pos + 1).kind) < Precedence(TokenAt(ts, c.pos + 3).kind)
    ensures var o1 := TokenAt(ts, c.pos + 1);
      var o2 := TokenAt(ts, c.pos + 3);
      ParseExpression(ts, c, Lowest)
      == Step(InfixExpression(o1, Atom(ts, c.pos), o1.literal, InfixExpression(o2, Atom(ts, c.pos + 2), o2.literal, Atom(ts, c.pos + 4))),
              Cursor(c.pos + 4, c.errors))
  {
    var o1 := TokenAt(ts, c.pos + 1);
    var o2 := TokenAt(ts, c.pos + 3);
    var p1 := Precedence(o1.kind);
    var x, y, z := Atom(ts, c.pos), Atom(ts, c.pos + 2), Atom(ts, c.pos + 4);
    var c1, c2 := Cursor(c.pos + 1, c.errors), Cursor(c.pos + 2, c.errors);
    var c3, c4 := Cursor(c.pos + 3, c.errors), Cursor(c.pos + 4, c.errors);
    var right := InfixExpression(o2, y, o2.literal, z);
    var e := InfixExpression(o1, x, o1.literal, right);
    InfixOfAtom(ts, c3, y);
    InfixLoopStops(ts, c4, p1, right);
    InfixLoopStops(ts, c4, Lowest, e);
    AtomOperand(ts, c2, p1);
    InfixStep(ts, c2, p1, y);
    assert ParseExpression(ts, c2, p1) == Step(right, c4);
    AtomOperand(ts, c, Lowest);
    InfixStep(ts, c, Lowest, x);
    assert ParseInfixExpression(ts, c1, x) == Step(e, c4);
  }

  /** `a - b - c` prints as `((a - b) - c)`. */
  lemma LeftAssociative(ts: seq<Token>, c: Cursor)
    requires TokenAt(ts, c.pos).kind == Ident
    requires TokenAt(ts, c.pos + 1).kind == Minus
    requires TokenAt(ts, c.pos + 2).kind == Ident
    requires TokenAt(ts, c.pos + 3).kind == Minus
    requires TokenAt(ts, c.pos + 4).kind == Ident
    requires !HasInfixParseFn(TokenAt(ts, c.pos + 5).kind)
    ensures var r := ParseExpression(ts, c, Lowest);
      var a, b, d := TokenAt(ts, c.pos).literal, TokenAt(ts, c.pos + 2).literal, TokenAt(ts, c.pos + 4).literal;
      var minus1, minus2 := TokenAt(ts, c.pos + 1).literal, TokenAt(ts, c.pos + 3).literal;
      && Printable(r.value)
      && ExpressionString(r.value) == "((" + a + " " + minus1 + " " + b + ") " + minus2 + " " + d + ")"
  {
    BinaryNesting(ts, c);
    LeftNestedString(TokenAt(ts, c.pos + 1), TokenAt(ts, c.pos + 3), IdentifierAt(ts, c.pos), IdentifierAt(ts, c.pos + 2), IdentifierAt(ts, c.pos + 4));
  }

  /** A prefix operator before an identifier and a binary operator takes
      the identifier alone as its operand. */
  lemma PrefixOperand(ts: seq<Token>, c: Cursor)
    requires Curr(ts, c).kind == Minus || Curr(ts, c).kind == Bang
    requires TokenAt(ts, c.pos + 1).kind == Ident
    requires IsBinaryOperator(TokenAt(ts, c.pos + 2).kind)
    ensures var neg := PrefixExpression(Curr(ts, c), Curr(ts, c).literal, Atom(ts, c.pos + 1));
      ParseExpression(ts, c, Lowest) == InfixLoop(ts, Cursor(c.pos + 1, c.errors), Lowest, neg)
  {
    var c1 := Cursor(c.pos + 1, c.errors);
    AtomAlone(ts, c1, PrefixLevel);
    assert ParsePrefix(ts, c) == ParsePrefixExpression(ts, c);
  }

  /** A prefix operator takes only the operand next to it: `-a * b` is
      `((-a) * b)`, whatever the binary operator. */
  lemma PrefixBindsTighter(ts: seq<Token>, c: Cursor)
    requires TokenAt(ts, c.pos).kind == Minus || TokenAt(ts, c.pos).kind == Bang
    requires TokenAt(ts, c.pos + 1).kind == Ident
    requires IsBinaryOperator(TokenAt(ts, c.pos + 2).kind)
    requires TokenAt(ts, c.pos + 3).kind == Ident
    requires !HasInfixParseFn(TokenAt(ts, c.pos + 4).kind)
    ensures var o, o2 := TokenAt(ts, c.pos), TokenAt(ts, c.pos + 2);
      var x, y := Atom(ts, c.pos + 1), Atom(ts, c.pos + 3);
      var e := InfixExpression(o2, PrefixExpression(o, o.literal, x), o2.literal, y);
      && ParseExpression(ts, c, Lowest) == Step(e, Cursor(c.pos + 3, c.errors))
      && Printable(e)
      && ExpressionString(e)
         == "((" + o.literal + TokenAt(ts, c.pos + 1).literal + ") " + o2.literal + " "
            + TokenAt(ts, c.pos + 3).literal + ")"
  {
    var o, o2 := TokenAt(ts, c.pos), TokenAt(ts, c.pos + 2);
    var x, y := Atom(ts, c.pos + 1), Atom(ts, c.pos + 3);
    var c1, c2, c3 := Cursor(c.pos + 1, c.errors), Cursor(c.pos + 2, c.errors), Cursor(c.pos + 3, c.errors);
    var neg := PrefixExpression(o, o.literal, x);
    var e := InfixExpression(o2, neg, o2.literal, y);
    PrefixOperand(ts, c);
    InfixStep(ts, c1, Lowest, neg);
    AtomAlone(ts, c3, Precedence(o2.kind));
    assert ParseInfixExpression(ts, c2, neg) == Step(e, c3);
    InfixLoopStops(ts, c3, Lowest, e);
    PrefixLeftString(o, o2, IdentifierAt(ts, c.pos + 1), IdentifierAt(ts, c.pos + 3));
  }

  /** `f(a, b)`: a call whose arguments are the comma-separated operands,
      printed with ", " between them. */
  lemma CallWithTwoArguments(ts: seq<Token>, c: Cursor)
    requires TokenAt(ts, c.pos).kind == Ident
    requires TokenAt(ts, c.pos + 1).kind == LParen
    requires TokenAt(ts, c.pos + 2).kind == Ident
    requires TokenAt(ts, c.pos + 3).kind == Comma
    requires TokenAt(ts, c.pos + 4).kind == Ident
    requires TokenAt(ts, c.pos + 5).kind == RParen
    requires !HasInfixParseFn(TokenAt(ts, c.pos + 6).kind)
    ensures var e := CallExpression(TokenAt(ts, c.pos + 1), Atom(ts, c.pos), [Atom(ts, c.pos + 2), Atom(ts, c.pos + 4)]);
      && ParseExpression(ts, c, Lowest) == Step(e, Cursor(c.pos + 5, c.errors))
      && Printable(e)
      && ExpressionString(e)
         == TokenAt(ts, c.pos).literal + "(" + TokenAt(ts, c.pos + 2).literal + ", "
            + TokenAt(ts, c.pos + 4).literal + ")"
  {
    var f, a, b := Atom(ts, c.pos), Atom(ts, c.pos + 2), Atom(ts, c.pos + 4);
    var c1, c5 := Cursor(c.pos + 1, c.errors), Cursor(c.pos + 5, c.errors);
    TwoArguments(ts, c1);
    var e := CallExpression(TokenAt(ts, c.pos + 1), f, [a, b]);
    assert ParseCallExpression(ts, c1, f) == Step(e, c5);
    assert ParseInfix(ts, c1, f) == Step(e, c5);
    AtomOperand(ts, c, Lowest);
    InfixLoopStops(ts, c5, Lowest, e);
    assert InfixLoop(ts, c, Lowest, f) == InfixLoop(ts, c5, Lowest, e);
    CallTwoString(TokenAt(ts, c.pos + 1), IdentifierAt(ts, c.pos), IdentifierAt(ts, c.pos + 2), IdentifierAt(ts, c.pos + 4));
  }

  /** `(a, b)`: two identifiers separated by a comma are two arguments,
      and the cursor ends on the `)`. */
  lemma TwoArguments(ts: seq<Token>, c: Cursor)
    requires Curr(ts, c).kind == LParen
    requires TokenAt(ts, c.pos + 1).kind == Ident
    requires TokenAt(ts, c.pos + 2).kind == Comma
    requires TokenAt(ts, c.pos + 3).kind == Ident
    requires TokenAt(ts, c.pos + 4).kind == RParen
    ensures ParseCallArguments(ts, c) == Step(Some([Atom(ts, c.pos + 1), Atom(ts, c.pos + 3)]), Cursor(c.pos + 4, c.errors))
  {
    var a, b := Atom(ts, c.pos + 1), Atom(ts, c.pos + 3);
    var c1, c3 := Cursor(c.pos + 1, c.errors), Cursor(c.pos + 3, c.errors);
    AtomAlone(ts, c1, Lowest);
    AtomAlone(ts, c3, Lowest);
    assert Advance(Advance(c1)) == c3;
    assert [a] + [b] == [a, b];
    assert ArgumentsLoop(ts, c3, [a, b]) == Step([a, b], c3);
    assert ArgumentsLoop(ts, c1, [a]) == Step([a, b], c3);
  }

  // ---------------------------------------------------------------------
  // A program: `let x = 5; let y = 10; let foobar = 8080;`

  /** The tokens at p..p+4 read `let <ident> = <int>;`, with an integer
      strconv.ParseInt accepts. */
  predicate LetIntegerAt(ts: seq<Token>, p: nat) {
    LetHeadAt(ts, p) && IntegerAt(ts, p + 3) && TokenAt(ts, p + 4).kind == Semicolon
  }

  /** `let <ident> =` from position `p`. */
  predicate LetHeadAt(ts: seq<Token>, p: nat) {
    TokenAt(ts, p).kind == Let && TokenAt(ts, p + 1).kind == Ident && TokenAt(ts, p + 2).kind == Assign
  }

  /** An integer literal strconv.ParseInt accepts, at position `p`. */
  predicate IntegerAt(ts: seq<Token>, p: nat) {
    TokenAt(ts, p).kind == Int && ParseInt64(TokenAt(ts, p).literal).Some?
  }

  /** The statement those tokens make. */
  function LetIntegerStatement(ts: seq<Token>, p: nat): Statement
    requires LetIntegerAt(ts, p)
  {
    LetStatement(TokenAt(ts, p), IdentifierAt(ts, p + 1),
                 IntegerLiteral(TokenAt(ts, p + 3), ParseInt64(TokenAt(ts, p + 3).literal).value))
  }

  /** `let <ident> = <int>;` is one let statement, and the cursor ends on
      its `;`. */
  lemma LetInteger(ts: seq<Token>, c: Cursor)
    requires LetIntegerAt(ts, c.pos)
    ensures ParseStatement(ts, c) == Step(Some(LetIntegerStatement(ts, c.pos)), Cursor(c.pos + 4, c.errors))
  {
    LetIntegerLet(ts, c);
    assert ParseStatement(ts, c) == ParseLetStatement(ts, c);
  }

  /** The same, for parseLetStatement itself. */
  lemma LetIntegerLet(ts: seq<Token>, c: Cursor)
    requires LetIntegerAt(ts, c.pos)
    ensures ParseLetStatement(ts, c) == Step(Some(LetIntegerStatement(ts, c.pos)), Cursor(c.pos + 4, c.errors))
  {
    var c3 := Cursor(c.pos + 3, c.errors);
    IntegerAlone(ts, c3, Lowest);
    LetSingleToken(ts, c, ParseExpression(ts, c3, Lowest).value);
  }

  /** `let <ident> = v;` where v is read from its one token. */
  lemma LetSingleToken(ts: seq<Token>, c: Cursor, v: Expression)
    requires LetHeadAt(ts, c.pos) && TokenAt(ts, c.pos + 4).kind == Semicolon
    requires !EndsStatement(TokenAt(ts, c.pos + 3).kind)
    requires ParseExpression(ts, Cursor(c.pos + 3, c.errors), Lowest) == Step(v, Cursor(c.pos + 3, c.errors))
    ensures ParseLetStatement(ts, c) == Step(Some(LetStatement(Curr(ts, c), IdentifierAt(ts, c.pos + 1), v)), Cursor(c.pos + 4, c.errors))
  {
    var c3 := Cursor(c.pos + 3, c.errors);
    LetHead(ts, c);
    SkipOneToSemicolon(ts, c3);
  }

  /** From a token that does not end the statement, with `;` next, the skip
      stops on that `;`. */
  lemma SkipOneToSemicolon(ts: seq<Token>, c: Cursor)
    requires !EndsStatement(Curr(ts, c).kind) && Peek(ts, c).kind == Semicolon
    ensures SkipToSemicolon(ts, c) == Advance(c)
  {
    assert SkipToSemicolon(ts, Advance(c)) == Advance(c);
  }

  /** `let <ident> =`: once the name and the `=` are there, the statement's
      value is the expression parsed from the token after `=`, and the
      parser then skips to the end of the statement. */
  lemma LetHead(ts: seq<Token>, c: Cursor)
    requires LetHeadAt(ts, c.pos)
    ensures var value := ParseExpression(ts, Cursor(c.pos + 3, c.errors), Lowest);
            ParseLetStatement(ts, c)
            == Step(Some(LetStatement(Curr(ts, c), IdentifierAt(ts, c.pos + 1), value.value)), SkipToSemicolon(ts, value.cur))
  {
    assert ExpectPeek(ts, c, Ident) == Step(true, Advance(c));
    assert ExpectPeek(ts, Advance(c), Assign) == Step(true, Cursor(c.pos + 2, c.errors));
  }

  /** One round of ParseProgram's loop over `let <ident> = <int>;`. */
  lemma LetIntegerRound(ts: seq<Token>, c: Cursor, statements: seq<Statement>)
    requires LetIntegerAt(ts, c.pos)
    ensures ProgramLoop(ts, c, statements)
         == ProgramLoop(ts, Cursor(c.pos + 5, c.errors), statements + [LetIntegerStatement(ts, c.pos)])
  {
    LetInteger(ts, c);
  }

  /** At EOF ParseProgram's loop is done. */
  lemma ProgramLoopAtEof(ts: seq<Token>, c: Cursor, statements: seq<Statement>)
    requires Curr(ts, c).kind == Eof
    ensures ProgramLoop(ts, c, statements) == Step(statements, c)
  {
  }

  const letToken := Token(Let, "let")
  const assignToken := Token(Assign, "=")
  const semicolonToken := Token(Semicolon, ";")

  /** The tokens of `let x = 5; let y = 10; let foobar = 8080;`. */
  const ThreeLets: seq<Token> := [
    letToken, Token(Ident, "x"), assignToken, Token(Int, "5"), semicolonToken,
    letToken, Token(Ident, "y"), assignToken, Token(Int, "10"), semicolonToken,
    letToken, Token(Ident, "foobar"), assignToken, Token(Int, "8080"), semicolonToken,
    EofToken]

  /** The statement a `let` of a known name and integer literal makes. */
  function LetOf(name: seq<Byte>, literal: seq<Byte>, value: int): Statement {
    LetStatement(letToken, Identifier(Token(Ident, name), name), IntegerLiteral(Token(Int, literal), value))
  }

  /** The statements of `let x = 5; let y = 10; let foobar = 8080;`. */
  const letX := LetOf("x", "5", 5)
  const letY := LetOf("y", "10", 10)
  const letFoobar := LetOf("foobar", "8080", 8080)

  /** The tokens `let name = literal;` at p make that statement. */
  lemma LetOfTokens(ts: seq<Token>, p: nat, name: seq<Byte>, literal: seq<Byte>, value: int)
    requires LetTokensAt(ts, p, name, literal) && ParseInt64(literal) == Some(value)
    ensures LetIntegerAt(ts, p) && LetIntegerStatement(ts, p) == LetOf(name, literal, value)
  {
  }

  /** The tokens `let name = literal;` from p. */
  predicate LetTokensAt(ts: seq<Token>, p: nat, name: seq<Byte>, literal: seq<Byte>) {
    && TokenAt(ts, p) == letToken && TokenAt(ts, p + 1) == Token(Ident, name)
    && TokenAt(ts, p + 2) == assignToken && TokenAt(ts, p + 3) == Token(Int, literal)
    && TokenAt(ts, p + 4) == semicolonToken
  }

  /** `ts` reads as ThreeLets: the same tokens, then EOF. */
  predicate ReadsThreeLets(ts: seq<Token>) {
    && LetTokensAt(ts, 0, "x", "5") && LetTokensAt(ts, 5, "y", "10")
    && LetTokensAt(ts, 10, "foobar", "8080") && TokenAt(ts, 15) == EofToken
  }

  /** ThreeLets itself reads as ThreeLets. */
  lemma ThreeLetsReads()
    ensures ReadsThreeLets(ThreeLets)
  {
  }

  /** Three let statements named x, y and foobar with the values 5, 10 and
      8080, no errors, and the program's token literal is that of its first
      statement. */
  lemma ThreeLetsParse(ts: seq<Token>)
    requires ReadsThreeLets(ts)
    ensures var r := ParseProgram(ts);
      && r.cur.errors == []
      && r.value.statements == [letX, letY, letFoobar]
      && ProgramTokenLiteral(r.value) == "let"
  {
    ThreeLetsStatements(ts);
    ThreeRounds(ts, letX, letY, letFoobar);
  }

  /** `let <ident> = <int>;` statements making ss, five tokens each from
      p on, and then EOF. */
  predicate LetRun(ts: seq<Token>, p: nat, ss: seq<Statement>)
    decreases |ss|
  {
    if |ss| == 0 then TokenAt(ts, p).kind == Eof
    else LetIntegerAt(ts, p) && LetIntegerStatement(ts, p) == ss[0] && LetRun(ts, p + 5, ss[1..])
  }

  /** Any number of let statements followed by EOF: ParseProgram's loop
      appends each in order, adds no error, and stops on the EOF. */
  lemma {:induction false} LetRunParses(ts: seq<Token>, p: nat, ss: seq<Statement>, errors: seq<ParseError>,
                                        statements: seq<Statement>)
    requires LetRun(ts, p, ss)
    decreases |ss|
    ensures ProgramLoop(ts, Cursor(p, errors), statements) == Step(statements + ss, Cursor(p + 5 * |ss|, errors))
  {
    if |ss| == 0 {
      ProgramLoopAtEof(ts, Cursor(p, errors), statements);
      assert statements + ss == statements;
    } else {
      LetRunParses(ts, p + 5, ss[1..], errors, statements + [ss[0]]);
      LetIntegerRound(ts, Cursor(p, errors), statements);
      AppendFirst(statements, ss);
    }
  }

  /** A program made only of `let <ident> = <int>;` statements parses to
      exactly those statements, in order, with no error. */
  lemma LetRunProgram(ts: seq<Token>, ss: seq<Statement>)
    requires LetRun(ts, 0, ss)
    ensures ParseProgram(ts) == Step(Program(ss), Cursor(5 * |ss|, []))
  {
    LetRunParses(ts, 0, ss, [], []);
    assert [] + ss == ss;
  }

  /** Moving the first of ss onto the end of the list so far. */
  lemma AppendFirst<T>(statements: seq<T>, ss: seq<T>)
    requires |ss| > 0
    ensures (statements + [ss[0]]) + ss[1..] == statements + ss
  {
    assert ss == [ss[0]] + ss[1..];
  }

  /** Three let statements a, b and f at 0, 5 and 10, then EOF: ParseProgram's
      loop appends a, b and f and stops on the EOF with no error. */
  lemma ThreeRounds(ts: seq<Token>, a: Statement, b: Statement, f: Statement)
    requires LetIntegerAt(ts, 0) && LetIntegerStatement(ts, 0) == a
    requires LetIntegerAt(ts, 5) && LetIntegerStatement(ts, 5) == b
    requires LetIntegerAt(ts, 10) && LetIntegerStatement(ts, 10) == f
    requires TokenAt(ts, 15).kind == Eof
    ensures ProgramLoop(ts, Cursor(0, []), []) == Step([a, b, f], Cursor(15, []))
  {
    LetIntegerRound(ts, Cursor(0, []), []);
    LetIntegerRound(ts, Cursor(5, []), [a]);
    LetIntegerRound(ts, Cursor(10, []), [a, b]);
    ProgramLoopAtEof(ts, Cursor(15, []), [a, b, f]);
    AppendThree(a, b, f);
  }

  /** Appending a, b and f one at a time to an empty list gives [a, b, f]. */
  lemma AppendThree<T>(a: T, b: T, f: T)
    ensures [] + [a] == [a] && [a] + [b] == [a, b] && [a, b] + [f] == [a, b, f]
  {
  }

  /** The let statements ThreeLets is made of: x, y and foobar. */
  lemma ThreeLetsStatements(ts: seq<Token>)
    requires ReadsThreeLets(ts)
    ensures LetIntegerAt(ts, 0) && LetIntegerStatement(ts, 0) == letX
    ensures LetIntegerAt(ts, 5) && LetIntegerStatement(ts, 5) == letY
    ensures LetIntegerAt(ts, 10) && LetIntegerStatement(ts, 10) == letFoobar
  {
    DecimalLiterals();
    LetOfTokens(ts, 0, "x", "5", 5);
    LetOfTokens(ts, 5, "y", "10", 10);
    LetOfTokens(ts, 10, "foobar", "8080", 8080);
  }
}
