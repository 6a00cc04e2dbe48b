/**
 * Parsing, then printing: what String() gives back for the trees the
 * parser builds. The printer writes each node from its tokens' literals,
 * so a parsed statement prints its own tokens with canonical spacing, an
 * integer prints as it was spelled rather than as its value, and an
 * expression statement loses the `;` it was parsed with.
 */
module ParsePrint {
  import opened Wrappers
  import opened Tokens
  import opened Ast
  import opened Pratt
  import opened AstProperties
  import opened ParserProperties

  /** The literal of the token at index i. */
  function Lit(ts: seq<Token>, i: nat): seq<Byte> {
    TokenAt(ts, i).literal
  }

  // ---------------------------------------------------------------------
  // Statements

  /** `let <ident> = <int>;` parses to a let statement that prints as its
      own tokens' literals, `let name = literal;`, with one space around
      the `=`. */
  lemma LetIntegerPrints(ts: seq<Token>, c: Cursor)
    requires LetIntegerAt(ts, c.pos)
    ensures var r := ParseStatement(ts, c);
      && r.value.Some? && StatementPrintable(r.value.value)
      && StatementString(r.value.value)
         == Lit(ts, c.pos) + " " + Lit(ts, c.pos + 1) + " = " + Lit(ts, c.pos + 3) + ";"
  {
    LetInteger(ts, c);
    var t3 := TokenAt(ts, c.pos + 3);
    LiteralLetPrints(TokenAt(ts, c.pos), IdentifierAt(ts, c.pos + 1), t3, ParseInt64(t3.literal).value);
  }

  /** A let statement binding an integer literal prints its literal's text. */
  lemma LiteralLetPrints(token: Token, name: Identifier, literal: Token, n: int)
    ensures var s := LetStatement(token, name, IntegerLiteral(literal, n));
      && StatementPrintable(s)
      && StatementString(s) == token.literal + " " + name.value + " = " + literal.literal + ";"
  {
  }

  /** An integer literal keeps its spelling: `let x = 010;` binds 8 and
      prints `let x = 010;`. */
  lemma OctalPrintsAsWritten(ts: seq<Token>, c: Cursor)
    requires LetHeadAt(ts, c.pos) && TokenAt(ts, c.pos + 3) == Token(Int, "010")
    requires TokenAt(ts, c.pos + 4).kind == Semicolon
    ensures var r := ParseStatement(ts, c);
      && r.value.Some? && r.value.value.LetStatement?
      && r.value.value.value == IntegerLiteral(Token(Int, "010"), 8)
      && StatementPrintable(r.value.value)
      && StatementString(r.value.value) == Lit(ts, c.pos) + " " + Lit(ts, c.pos + 1) + " = " + "010" + ";"
  {
    OctalEight();
    assert IntegerAt(ts, c.pos + 3);
    LetInteger(ts, c);
    assert LetIntegerStatement(ts, c.pos).value == IntegerLiteral(Token(Int, "010"), 8);
    LetIntegerPrints(ts, c);
  }

  /** strconv.ParseInt reads "010" as octal. */
  lemma OctalEight()
    ensures ParseInt64("010") == Some(8)
  {
    assert "010"[1..] == "10";
    assert "10"[..1] == "1";
    assert "1"[..0] == [];
  }

  /** `return <int>;` parses to a return statement, the cursor ends on
      its `;`, and it prints as `return literal;`. */
  lemma ReturnIntegerPrints(ts: seq<Token>, c: Cursor)
    requires Curr(ts, c).kind == Return && IntegerAt(ts, c.pos + 1)
    requires TokenAt(ts, c.pos + 2).kind == Semicolon
    ensures var r := ParseStatement(ts, c);
      var t := TokenAt(ts, c.pos + 1);
      && r == Step(Some(ReturnStatement(Curr(ts, c), IntegerLiteral(t, ParseInt64(t.literal).value))),
                   Cursor(c.pos + 2, c.errors))
      && StatementPrintable(r.value.value)
      && StatementString(r.value.value) == Lit(ts, c.pos) + " " + Lit(ts, c.pos + 1) + ";"
  {
    var c1, c2 := Cursor(c.pos + 1, c.errors), Cursor(c.pos + 2, c.errors);
    IntegerAlone(ts, c1, Lowest);
    assert SkipToSemicolon(ts, c2) == c2;
    assert SkipToSemicolon(ts, c1) == c2;
  }

  /** `<ident>;` parses to an expression statement whose text is the
      identifier alone: the `;` it was parsed with is not printed. */
  lemma ExpressionStatementDropsSemicolon(ts: seq<Token>, c: Cursor)
    requires Curr(ts, c).kind == Ident && TokenAt(ts, c.pos + 1).kind == Semicolon
    ensures var r := ParseStatement(ts, c);
      && r == Step(Some(ExpressionStatement(Curr(ts, c), Atom(ts, c.pos))), Cursor(c.pos + 1, c.errors))
      && StatementPrintable(r.value.value)
      && StatementString(r.value.value) == Lit(ts, c.pos)
  {
    AtomAlone(ts, c, Lowest);
  }

  /** So two expression statements `a; b;` parse to two statements and
      print as `ab`: the printed program does not parse back to them. */
  lemma ExpressionStatementsRunTogether(ts: seq<Token>)
    requires TokenAt(ts, 0).kind == Ident && TokenAt(ts, 1).kind == Semicolon
    requires TokenAt(ts, 2).kind == Ident && TokenAt(ts, 3).kind == Semicolon
    requires TokenAt(ts, 4).kind == Eof
    ensures var r := ParseProgram(ts);
      && r.cur.errors == []
      && r.value.statements
         == [ExpressionStatement(TokenAt(ts, 0), Atom(ts, 0)), ExpressionStatement(TokenAt(ts, 2), Atom(ts, 2))]
      && (forall i | 0 <= i < |r.value.statements| :: StatementPrintable(r.value.statements[i]))
      && ProgramString(r.value) == Lit(ts, 0) + Lit(ts, 2)
  {
    var c0, c2, c4 := Cursor(0, []), Cursor(2, []), Cursor(4, []);
    var a := ExpressionStatement(TokenAt(ts, 0), Atom(ts, 0));
    var b := ExpressionStatement(TokenAt(ts, 2), Atom(ts, 2));
    ExpressionStatementDropsSemicolon(ts, c0);
    ExpressionStatementDropsSemicolon(ts, Cursor(2, []));
    assert ProgramLoop(ts, c4, [a, b]) == Step([a, b], c4);
    assert [a] + [b] == [a, b];
    assert ProgramLoop(ts, c2, [a]) == Step([a, b], c4);
    assert [] + [a] == [a];
    assert ProgramLoop(ts, c0, []) == Step([a, b], c4);
    TwoStatementsPrint(ParseProgram(ts).value);
  }

  /** A program of two statements prints as their texts run together. */
  lemma TwoStatementsPrint(p: Program)
    requires |p.statements| == 2
    requires forall i | 0 <= i < |p.statements| :: StatementPrintable(p.statements[i])
    ensures ProgramString(p) == StatementString(p.statements[0]) + StatementString(p.statements[1])
  {
    var parts := seq(|p.statements|, i requires 0 <= i < |p.statements| => StatementString(p.statements[i]));
    var x: seq<Byte>, y: seq<Byte> := StatementString(p.statements[0]), StatementString(p.statements[1]);
    assert parts == [x, y];
    assert [x, y][1..] == [y];
    assert [y][1..] == [];
    assert Concat([y]) == y + Concat([]) == y;
  }

  /** The program `let x = 5; let y = 10; let foobar = 8080;` prints back
      with the spaces between its statements gone. */
  lemma ThreeLetsPrint()
    ensures var r := ParseProgram(ThreeLets);
      && (forall i | 0 <= i < |r.value.statements| :: StatementPrintable(r.value.statements[i]))
      && ProgramString(r.value) == "let x = 5;" + "let y = 10;" + "let foobar = 8080;"
  {
    ThreeLetsReads();
    ThreeLetsParse(ThreeLets);
    LetXPrints();
    LetYPrints();
    LetFoobarPrints();
    var p := ParseProgram(ThreeLets).value;
    assert p.statements[0] == letX && p.statements[1] == letY && p.statements[2] == letFoobar;
    ThreeStatementsPrint(p);
  }

  /** A program of three statements prints as their texts run together. */
  lemma ThreeStatementsPrint(p: Program)
    requires |p.statements| == 3
    requires forall i | 0 <= i < |p.statements| :: StatementPrintable(p.statements[i])
    ensures ProgramString(p) == StatementString(p.statements[0]) + StatementString(p.statements[1]) + StatementString(p.statements[2])
  {
    var parts := seq(|p.statements|, i requires 0 <= i < |p.statements| => StatementString(p.statements[i]));
    var x, y, z := StatementString(p.statements[0]), StatementString(p.statements[1]), StatementString(p.statements[2]);
    assert parts == [x, y, z];
    ConcatThree(x, y, z);
  }

  /** Three parts written one after another. */
  lemma ConcatThree(x: seq<Byte>, y: seq<Byte>, z: seq<Byte>)
    ensures Concat([x, y, z]) == x + y + z
  {
    assert [x, y, z][1..] == [y, z];
    assert [y, z][1..] == [z];
    assert [z][1..] == [];
    assert Concat([z]) == z + Concat([]) == z;
    assert Concat([y, z]) == y + Concat([z]);
  }

  /** The texts of the three statements. */
  lemma LetXPrints()
    ensures StatementPrintable(letX) && StatementString(letX) == "let x = 5;"
  {
    LetOfPrints("x", "5", 5);
  }

  lemma LetYPrints()
    ensures StatementPrintable(letY) && StatementString(letY) == "let y = 10;"
  {
    LetOfPrints("y", "10", 10);
  }

  lemma LetFoobarPrints()
    ensures StatementPrintable(letFoobar) && StatementString(letFoobar) == "let foobar = 8080;"
  {
    LetOfPrints("foobar", "8080", 8080);
  }

  /** The text of `let name = literal;`. */
  lemma LetOfPrints(name: seq<Byte>, literal: seq<Byte>, value: int)
    ensures StatementPrintable(LetOf(name, literal, value))
    ensures StatementString(LetOf(name, literal, value)) == "let " + name + " = " + literal + ";"
  {
    assert "let" + " " == "let ";
  }

  // ---------------------------------------------------------------------
  // Expressions

  /** The identifier made from a token prints as that token's text, which
      is also its token literal. */
  lemma IdentifierPrints(ts: seq<Token>, i: nat)
    ensures var id := Id(IdentifierAt(ts, i));
      && Printable(id)
      && ExpressionString(id) == Lit(ts, i)
      && ExpressionTokenLiteral(id) == ExpressionString(id)
  {
  }

  /** `!true` (or `!false`) is a prefix expression over a boolean whose
      value is the token's kind, printed `(!true)`. */
  lemma BangBooleanPrints(ts: seq<Token>, c: Cursor)
    requires Curr(ts, c).kind == Bang
    requires TokenAt(ts, c.pos + 1).kind == True || TokenAt(ts, c.pos + 1).kind == False
    requires TokenAt(ts, c.pos + 2).kind == Semicolon || !HasInfixParseFn(TokenAt(ts, c.pos + 2).kind)
    ensures var r := ParseExpression(ts, c, Lowest);
      var t := TokenAt(ts, c.pos + 1);
      && r == Step(PrefixExpression(Curr(ts, c), Lit(ts, c.pos), Boolean(t, t.kind == True)),
                   Cursor(c.pos + 1, c.errors))
      && Printable(r.value)
      && ExpressionString(r.value) == "(" + Lit(ts, c.pos) + Lit(ts, c.pos + 1) + ")"
  {
    var c1 := Cursor(c.pos + 1, c.errors);
    var t := TokenAt(ts, c.pos + 1);
    var b := Boolean(t, t.kind == True);
    assert ParsePrefix(ts, c1) == Step(b, c1);
    assert InfixLoop(ts, c1, PrefixLevel, b) == Step(b, c1);
    assert ParseExpression(ts, c1, PrefixLevel) == Step(b, c1);
    var e := PrefixExpression(Curr(ts, c), Lit(ts, c.pos), b);
    assert ParsePrefixExpression(ts, c) == Step(e, c1);
    assert ParsePrefix(ts, c) == Step(e, c1);
    assert InfixLoop(ts, c1, Lowest, e) == Step(e, c1);
  }

  /** `if ( x ) { y }` with no `else` after it parses to an if expression
      with the condition x, a one-statement block and no alternative, and
      prints as `if` and the condition, a space and the block's text:
      no parentheses or braces are printed. */
  lemma IfWithoutElsePrints(ts: seq<Token>, c: Cursor)
    requires Curr(ts, c).kind == If && TokenAt(ts, c.pos + 1).kind == LParen
    requires TokenAt(ts, c.pos + 2).kind == Ident && TokenAt(ts, c.pos + 3).kind == RParen
    requires TokenAt(ts, c.pos + 4).kind == LBrace && TokenAt(ts, c.pos + 5).kind == Ident
    requires TokenAt(ts, c.pos + 6).kind == RBrace && TokenAt(ts, c.pos + 7).kind != Else
    ensures var r := ParsePrefix(ts, c);
      var consequence := Block(TokenAt(ts, c.pos + 4), [ExpressionStatement(TokenAt(ts, c.pos + 5), Atom(ts, c.pos + 5))]);
      && r == Step(IfExpression(Curr(ts, c), Atom(ts, c.pos + 2), consequence, None), Cursor(c.pos + 6, c.errors))
      && Printable(r.value)
      && ExpressionString(r.value) == "if" + Lit(ts, c.pos + 2) + " " + Lit(ts, c.pos + 5)
  {
    IfWithoutElseParses(ts, c);
    AtomAlone(ts, Cursor(c.pos + 2, c.errors), Lowest);
    OneStatementBlock(ts, Cursor(c.pos + 4, c.errors));
    var consequence := Block(TokenAt(ts, c.pos + 4), [ExpressionStatement(TokenAt(ts, c.pos + 5), Atom(ts, c.pos + 5))]);
    IfNoElsePrints(Curr(ts, c), Atom(ts, c.pos + 2), consequence);
  }

  /** The parse half of the above: parseIfExpression reads `if (x) { y }`. */
  lemma IfWithoutElseParses(ts: seq<Token>, c: Cursor)
    requires Curr(ts, c).kind == If && TokenAt(ts, c.pos + 1).kind == LParen
    requires TokenAt(ts, c.pos + 2).kind == Ident && TokenAt(ts, c.pos + 3).kind == RParen
    requires TokenAt(ts, c.pos + 4).kind == LBrace && TokenAt(ts, c.pos + 5).kind == Ident
    requires TokenAt(ts, c.pos + 6).kind == RBrace && TokenAt(ts, c.pos + 7).kind != Else
    ensures var consequence := Block(TokenAt(ts, c.pos + 4), [ExpressionStatement(TokenAt(ts, c.pos + 5), Atom(ts, c.pos + 5))]);
      ParsePrefix(ts, c) == Step(IfExpression(Curr(ts, c), Atom(ts, c.pos + 2), consequence, None), Cursor(c.pos + 6, c.errors))
  {
    var c1, c2, c3 := Cursor(c.pos + 1, c.errors), Cursor(c.pos + 2, c.errors), Cursor(c.pos + 3, c.errors);
    var c4, c6 := Cursor(c.pos + 4, c.errors), Cursor(c.pos + 6, c.errors);
    AtomAlone(ts, c2, Lowest);
    OneStatementBlock(ts, c4);
    assert ExpectPeek(ts, c, LParen) == Step(true, c1);
    assert ExpectPeek(ts, c2, RParen) == Step(true, c3);
    assert ExpectPeek(ts, c3, LBrace) == Step(true, c4);
  }

  /** An `if` with no alternative prints `if`, its condition, a space and
      its block. */
  lemma IfNoElsePrints(token: Token, condition: Expression, consequence: Block)
    requires Printable(condition) && BlockPrintable(consequence)
    ensures var e := IfExpression(token, condition, consequence, None);
      && Printable(e)
      && ExpressionString(e) == "if" + ExpressionString(condition) + " " + BlockString(consequence)
  {
  }

  /** `{ y }`: a block of one expression statement, printed as the
      statement alone; the cursor ends on the `}`. */
  lemma OneStatementBlock(ts: seq<Token>, c: Cursor)
    requires Curr(ts, c).kind == LBrace && TokenAt(ts, c.pos + 1).kind == Ident
    requires TokenAt(ts, c.pos + 2).kind == RBrace
    ensures var s := ExpressionStatement(TokenAt(ts, c.pos + 1), Atom(ts, c.pos + 1));
      var r := ParseBlock(ts, c);
      && r == Step(Block(Curr(ts, c), [s]), Cursor(c.pos + 2, c.errors))
      && BlockPrintable(r.value)
      && BlockString(r.value) == Lit(ts, c.pos + 1)
  {
    var c1, c2 := Cursor(c.pos + 1, c.errors), Cursor(c.pos + 2, c.errors);
    AtomAlone(ts, c1, Lowest);
    var s := ExpressionStatement(TokenAt(ts, c.pos + 1), Atom(ts, c.pos + 1));
    assert ParseStatement(ts, c1) == Step(Some(s), c1);
    assert BlockLoop(ts, c2, [s]) == Step([s], c2);
    assert [] + [s] == [s];
    assert BlockLoop(ts, c1, []) == Step([s], c2);
    var parts := seq(1, i requires 0 <= i < 1 => StatementString([s][i]));
    assert parts == [Lit(ts, c.pos + 1)];
    assert Concat(parts) == Lit(ts, c.pos + 1) by {
      assert parts[1..] == [];
    }
  }
}
