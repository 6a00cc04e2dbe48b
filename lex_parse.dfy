/**
 * Lexing, then parsing: the input of the parser's let-statement test, read
 * by the lexer into tokens and those tokens parsed into a program.
 *
 * The test's input is three lines `let x = 5;`, `let y = 10;` and
 * `let foobar = 8080;`, each after a newline and four spaces, with a last
 * newline and four spaces. The lexer is run on it with any keyword table
 * in which `let` is the LET keyword and x, y and foobar are no keywords.
 */
module LexParse {
  import opened Wrappers
  import opened Tokens
  import opened Lexing
  import opened Ast
  import opened Pratt
  import opened ParserProperties

  /** A newline and the four spaces that indent each line of the input. */
  const Indent: seq<Byte> := "\n    "

  /** The input of the let-statement test. */
  const LetStatementsInput: seq<Byte> :=
    Indent + "let x = 5;" + Indent + "let y = 10;" + Indent + "let foobar = 8080;" + Indent

  /** The part of the token package's keyword table the input needs. */
  predicate KnowsLet(keywords: KeywordTable) {
    && "let" in keywords && keywords["let"] == Let
    && "x" !in keywords && "y" !in keywords && "foobar" !in keywords
  }

  /** The lexer reads the input as ThreeLets: the tokens of the three
      let statements, then EOF on every further call. */
  lemma TokenizeLetStatements(keywords: KeywordTable)
    requires KnowsLet(keywords)
    ensures ReadsThreeLets(Tokenize(LetStatementsInput, keywords))
    ensures forall n | n >= |ThreeLets| :: TokenAt(Tokenize(LetStatementsInput, keywords), n) == EofToken
  {
    var input := LetStatementsInput;
    Call0(keywords);
    Call1(keywords);
    Call2(keywords);
    Call3(keywords);
    Call4(keywords);
    LetLine(input, keywords, 0, 0, 8, 10, 12, 14, 15, "x", "5");
    Call5(keywords);
    Call6(keywords);
    Call7(keywords);
    Call8(keywords);
    Call9(keywords);
    LetLine(input, keywords, 5, 15, 23, 25, 27, 30, 31, "y", "10");
    Call10(keywords);
    Call11(keywords);
    Call12(keywords);
    Call13(keywords);
    Call14(keywords);
    LetLine(input, keywords, 10, 31, 39, 46, 48, 53, 54, "foobar", "8080");
    Call15(keywords);
    NthIs(input, keywords, 15, 54, EofToken, 60);
    EofAfter(input, keywords, 16);
  }

  /** The test: the program has three let statements, x = 5, y = 10 and
      foobar = 8080, each with the token literal `let`, and no errors. */
  lemma LetStatementsParse(keywords: KeywordTable)
    requires KnowsLet(keywords)
    ensures var r := ParseProgram(Tokenize(LetStatementsInput, keywords));
      && r.cur.errors == []
      && r.value.statements == [letX, letY, letFoobar]
      && ProgramTokenLiteral(r.value) == "let"
  {
    TokenizeLetStatements(keywords);
    ThreeLetsParse(Tokenize(LetStatementsInput, keywords));
  }

  /** The (n+1)-th call starts where the n-th ended; the token it reads is
      the n-th of the stream. */
  lemma NthIs(input: seq<Byte>, keywords: KeywordTable, n: nat, p: nat, t: Token, q: nat)
    requires PositionAfter(input, keywords, 0, n) == p && Scan(input, keywords, p) == Lexeme(t, q)
    ensures PositionAfter(input, keywords, 0, n + 1) == q
    ensures TokenAt(Tokenize(input, keywords), n) == t
  {
    PositionAfterStep(input, keywords, 0, n);
    TokenizeIsTheStream(input, keywords, n);
  }

  /** Once the position is past the end of the input, every further token
      of the stream is EOF. */
  lemma EofAfter(input: seq<Byte>, keywords: KeywordTable, m: nat)
    requires PositionAfter(input, keywords, 0, m) >= |input|
    ensures forall n | n >= m :: TokenAt(Tokenize(input, keywords), n) == EofToken
  {
    forall n | n >= m
      ensures TokenAt(Tokenize(input, keywords), n) == EofToken
    {
      PositionsGrow(input, keywords, m, n);
      TokenizeIsTheStream(input, keywords, n);
    }
  }

  /** Every call moves the position on by at least one. */
  lemma {:induction false} PositionsGrow(input: seq<Byte>, keywords: KeywordTable, m: nat, n: nat)
    requires m <= n
    ensures PositionAfter(input, keywords, 0, n) >= PositionAfter(input, keywords, 0, m) + (n - m)
    decreases n - m
  {
    if m < n {
      PositionsGrow(input, keywords, m, n - 1);
      PositionAfterStep(input, keywords, 0, n - 1);
    }
  }

  /** Five calls from the position after m tokens that read `let name =
      literal;` are tokens m to m + 4 of the stream. */
  lemma LetLine(input: seq<Byte>, keywords: KeywordTable, m: nat, p0: nat, p1: nat, p2: nat, p3: nat, p4: nat, p5: nat,
                name: seq<Byte>, literal: seq<Byte>)
    requires PositionAfter(input, keywords, 0, m) == p0
    requires Scan(input, keywords, p0) == Lexeme(letToken, p1)
    requires Scan(input, keywords, p1) == Lexeme(Token(Ident, name), p2)
    requires Scan(input, keywords, p2) == Lexeme(assignToken, p3)
    requires Scan(input, keywords, p3) == Lexeme(Token(Int, literal), p4)
    requires Scan(input, keywords, p4) == Lexeme(semicolonToken, p5)
    ensures PositionAfter(input, keywords, 0, m + 5) == p5
    ensures LetTokensAt(Tokenize(input, keywords), m, name, literal)
  {
    NthIs(input, keywords, m, p0, letToken, p1);
    NthIs(input, keywords, m + 1, p1, Token(Ident, name), p2);
    NthIs(input, keywords, m + 2, p2, assignToken, p3);
    NthIs(input, keywords, m + 3, p3, Token(Int, literal), p4);
    NthIs(input, keywords, m + 4, p4, semicolonToken, p5);
  }

  /** Call 0: `let`, read from position 0. */
  lemma Call0(keywords: KeywordTable)
    requires KnowsLet(keywords)
    ensures Scan(LetStatementsInput, keywords, 0) == Lexeme(letToken, 8)
  {
    StartFrom0();
    RunFrom5();
    assert LetStatementsInput[5..8] == "let";
    WordAt(LetStatementsInput, keywords, 0, 5, 8);
  }

  lemma StartFrom0()
    ensures TokenStart(LetStatementsInput, 0) == 5
  {
    assert RunEnd(LetStatementsInput, 5, Blanks) == 5;
    assert RunEnd(LetStatementsInput, 4, Blanks) == 5;
    assert RunEnd(LetStatementsInput, 3, Blanks) == 5;
    assert RunEnd(LetStatementsInput, 2, Blanks) == 5;
    assert RunEnd(LetStatementsInput, 1, Blanks) == 5;
    assert RunEnd(LetStatementsInput, 0, Blanks) == 5;
  }

  lemma RunFrom5()
    ensures RunEnd(LetStatementsInput, 5, Letters) == 8
  {
    assert RunEnd(LetStatementsInput, 8, Letters) == 8;
    assert RunEnd(LetStatementsInput, 7, Letters) == 8;
    assert RunEnd(LetStatementsInput, 6, Letters) == 8;
  }

  /** Call 1: `x`, read from position 8. */
  lemma Call1(keywords: KeywordTable)
    requires KnowsLet(keywords)
    ensures Scan(LetStatementsInput, keywords, 8) == Lexeme(Token(Ident, "x"), 10)
  {
    StartFrom8();
    RunFrom9();
    assert LetStatementsInput[9..10] == "x";
    WordAt(LetStatementsInput, keywords, 8, 9, 10);
  }

  lemma StartFrom8()
    ensures TokenStart(LetStatementsInput, 8) == 9
  {
    assert RunEnd(LetStatementsInput, 9, Blanks) == 9;
    assert RunEnd(LetStatementsInput, 8, Blanks) == 9;
  }

  lemma RunFrom9()
    ensures RunEnd(LetStatementsInput, 9, Letters) == 10
  {
    assert RunEnd(LetStatementsInput, 10, Letters) == 10;
  }

  /** Call 2: `=`, read from position 10. */
  lemma Call2(keywords: KeywordTable)
    ensures Scan(LetStatementsInput, keywords, 10) == Lexeme(assignToken, 12)
  {
    StartFrom10();
    OneByteAt(LetStatementsInput, keywords, 10, 11);
  }

  lemma StartFrom10()
    ensures TokenStart(LetStatementsInput, 10) == 11
  {
    assert RunEnd(LetStatementsInput, 11, Blanks) == 11;
    assert RunEnd(LetStatementsInput, 10, Blanks) == 11;
  }

  /** Call 3: `5`, read from position 12. */
  lemma Call3(keywords: KeywordTable)
    ensures Scan(LetStatementsInput, keywords, 12) == Lexeme(Token(Int, "5"), 14)
  {
    StartFrom12();
    RunFrom13();
    assert LetStatementsInput[13..14] == "5";
    NumberAt(LetStatementsInput, keywords, 12, 13, 14);
  }

  lemma StartFrom12()
    ensures TokenStart(LetStatementsInput, 12) == 13
  {
    assert RunEnd(LetStatementsInput, 13, Blanks) == 13;
    assert RunEnd(LetStatementsInput, 12, Blanks) == 13;
  }

  lemma RunFrom13()
    ensures RunEnd(LetStatementsInput, 13, Digits) == 14
  {
    assert RunEnd(LetStatementsInput, 14, Digits) == 14;
  }

  /** Call 4: `;`, read from position 14. */
  lemma Call4(keywords: KeywordTable)
    ensures Scan(LetStatementsInput, keywords, 14) == Lexeme(semicolonToken, 15)
  {
    StartFrom14();
    OneByteAt(LetStatementsInput, keywords, 14, 14);
  }

  lemma StartFrom14()
    ensures TokenStart(LetStatementsInput, 14) == 14
  {
    assert RunEnd(LetStatementsInput, 14, Blanks) == 14;
  }

  /** Call 5: `let`, read from position 15. */
  lemma Call5(keywords: KeywordTable)
    requires KnowsLet(keywords)
    ensures Scan(LetStatementsInput, keywords, 15) == Lexeme(letToken, 23)
  {
    StartFrom15();
    RunFrom20();
    assert LetStatementsInput[20..23] == "let";
    WordAt(LetStatementsInput, keywords, 15, 20, 23);
  }

  lemma StartFrom15()
    ensures TokenStart(LetStatementsInput, 15) == 20
  {
    assert RunEnd(LetStatementsInput, 20, Blanks) == 20;
    assert RunEnd(LetStatementsInput, 19, Blanks) == 20;
    assert RunEnd(LetStatementsInput, 18, Blanks) == 20;
    assert RunEnd(LetStatementsInput, 17, Blanks) == 20;
    assert RunEnd(LetStatementsInput, 16, Blanks) == 20;
    assert RunEnd(LetStatementsInput, 15, Blanks) == 20;
  }

  lemma RunFrom20()
    ensures RunEnd(LetStatementsInput, 20, Letters) == 23
  {
    assert RunEnd(LetStatementsInput, 23, Letters) == 23;
    assert RunEnd(LetStatementsInput, 22, Letters) == 23;
    assert RunEnd(LetStatementsInput, 21, Letters) == 23;
  }

  /** Call 6: `y`, read from position 23. */
  lemma Call6(keywords: KeywordTable)
    requires KnowsLet(keywords)
    ensures Scan(LetStatementsInput, keywords, 23) == Lexeme(Token(Ident, "y"), 25)
  {
    StartFrom23();
    RunFrom24();
    assert LetStatementsInput[24..25] == "y";
    WordAt(LetStatementsInput, keywords, 23, 24, 25);
  }

  lemma StartFrom23()
    ensures TokenStart(LetStatementsInput, 23) == 24
  {
    assert RunEnd(LetStatementsInput, 24, Blanks) == 24;
    assert RunEnd(LetStatementsInput, 23, Blanks) == 24;
  }

  lemma RunFrom24()
    ensures RunEnd(LetStatementsInput, 24, Letters) == 25
  {
    assert RunEnd(LetStatementsInput, 25, Letters) == 25;
  }

  /** Call 7: `=`, read from position 25. */
  lemma Call7(keywords: KeywordTable)
    ensures Scan(LetStatementsInput, keywords, 25) == Lexeme(assignToken, 27)
  {
    StartFrom25();
    OneByteAt(LetStatementsInput, keywords, 25, 26);
  }

  lemma StartFrom25()
    ensures TokenStart(LetStatementsInput, 25) == 26
  {
    assert RunEnd(LetStatementsInput, 26, Blanks) == 26;
    assert RunEnd(LetStatementsInput, 25, Blanks) == 26;
  }

  /** Call 8: `10`, read from position 27. */
  lemma Call8(keywords: KeywordTable)
    ensures Scan(LetStatementsInput, keywords, 27) == Lexeme(Token(Int, "10"), 30)
  {
    StartFrom27();
    RunFrom28();
    assert LetStatementsInput[28..30] == "10";
    NumberAt(LetStatementsInput, keywords, 27, 28, 30);
  }

  lemma StartFrom27()
    ensures TokenStart(LetStatementsInput, 27) == 28
  {
    assert RunEnd(LetStatementsInput, 28, Blanks) == 28;
    assert RunEnd(LetStatementsInput, 27, Blanks) == 28;
  }

  lemma RunFrom28()
    ensures RunEnd(LetStatementsInput, 28, Digits) == 30
  {
    assert RunEnd(LetStatementsInput, 30, Digits) == 30;
    assert RunEnd(LetStatementsInput, 29, Digits) == 30;
  }

  /** Call 9: `;`, read from position 30. */
  lemma Call9(keywords: KeywordTable)
    ensures Scan(LetStatementsInput, keywords, 30) == Lexeme(semicolonToken, 31)
  {
    StartFrom30();
    OneByteAt(LetStatementsInput, keywords, 30, 30);
  }

  lemma StartFrom30()
    ensures TokenStart(LetStatementsInput, 30) == 30
  {
    assert RunEnd(LetStatementsInput, 30, Blanks) == 30;
  }

  /** Call 10: `let`, read from position 31. */
  lemma Call10(keywords: KeywordTable)
    requires KnowsLet(keywords)
    ensures Scan(LetStatementsInput, keywords, 31) == Lexeme(letToken, 39)
  {
    StartFrom31();
    RunFrom36();
    assert LetStatementsInput[36..39] == "let";
    WordAt(LetStatementsInput, keywords, 31, 36, 39);
  }

  lemma StartFrom31()
    ensures TokenStart(LetStatementsInput, 31) == 36
  {
    assert RunEnd(LetStatementsInput, 36, Blanks) == 36;
    assert RunEnd(LetStatementsInput, 35, Blanks) == 36;
    assert RunEnd(LetStatementsInput, 34, Blanks) == 36;
    assert RunEnd(LetStatementsInput, 33, Blanks) == 36;
    assert RunEnd(LetStatementsInput, 32, Blanks) == 36;
    assert RunEnd(LetStatementsInput, 31, Blanks) == 36;
  }

  lemma RunFrom36()
    ensures RunEnd(LetStatementsInput, 36, Letters) == 39
  {
    assert RunEnd(LetStatementsInput, 39, Letters) == 39;
    assert RunEnd(LetStatementsInput, 38, Letters) == 39;
    assert RunEnd(LetStatementsInput, 37, Letters) == 39;
  }

  /** Call 11: `foobar`, read from position 39. */
  lemma Call11(keywords: KeywordTable)
    requires KnowsLet(keywords)
    ensures Scan(LetStatementsInput, keywords, 39) == Lexeme(Token(Ident, "foobar"), 46)
  {
    StartFrom39();
    RunFrom40();
    assert LetStatementsInput[40..46] == "foobar";
    WordAt(LetStatementsInput, keywords, 39, 40, 46);
  }

  lemma StartFrom39()
    ensures TokenStart(LetStatementsInput, 39) == 40
  {
    assert RunEnd(LetStatementsInput, 40, Blanks) == 40;
    assert RunEnd(LetStatementsInput, 39, Blanks) == 40;
  }

  lemma RunFrom40()
    ensures RunEnd(LetStatementsInput, 40, Letters) == 46
  {
    assert RunEnd(LetStatementsInput, 46, Letters) == 46;
    assert RunEnd(LetStatementsInput, 45, Letters) == 46;
    assert RunEnd(LetStatementsInput, 44, Letters) == 46;
    assert RunEnd(LetStatementsInput, 43, Letters) == 46;
    assert RunEnd(LetStatementsInput, 42, Letters) == 46;
    assert RunEnd(LetStatementsInput, 41, Letters) == 46;
  }

  /** Call 12: `=`, read from position 46. */
  lemma Call12(keywords: KeywordTable)
    ensures Scan(LetStatementsInput, keywords, 46) == Lexeme(assignToken, 48)
  {
    StartFrom46();
    OneByteAt(LetStatementsInput, keywords, 46, 47);
  }

  lemma StartFrom46()
    ensures TokenStart(LetStatementsInput, 46) == 47
  {
    assert RunEnd(LetStatementsInput, 47, Blanks) == 47;
    assert RunEnd(LetStatementsInput, 46, Blanks) == 47;
  }

  /** Call 13: `8080`, read from position 48. */
  lemma Call13(keywords: KeywordTable)
    ensures Scan(LetStatementsInput, keywords, 48) == Lexeme(Token(Int, "8080"), 53)
  {
    StartFrom48();
    RunFrom49();
    assert LetStatementsInput[49..53] == "8080";
    NumberAt(LetStatementsInput, keywords, 48, 49, 53);
  }

  lemma StartFrom48()
    ensures TokenStart(LetStatementsInput, 48) == 49
  {
    assert RunEnd(LetStatementsInput, 49, Blanks) == 49;
    assert RunEnd(LetStatementsInput, 48, Blanks) == 49;
  }

  lemma RunFrom49()
    ensures RunEnd(LetStatementsInput, 49, Digits) == 53
  {
    assert RunEnd(LetStatementsInput, 53, Digits) == 53;
    assert RunEnd(LetStatementsInput, 52, Digits) == 53;
    assert RunEnd(LetStatementsInput, 51, Digits) == 53;
    assert RunEnd(LetStatementsInput, 50, Digits) == 53;
  }

  /** Call 14: `;`, read from position 53. */
  lemma Call14(keywords: KeywordTable)
    ensures Scan(LetStatementsInput, keywords, 53) == Lexeme(semicolonToken, 54)
  {
    StartFrom53();
    OneByteAt(LetStatementsInput, keywords, 53, 53);
  }

  lemma StartFrom53()
    ensures TokenStart(LetStatementsInput, 53) == 53
  {
    assert RunEnd(LetStatementsInput, 53, Blanks) == 53;
  }

  /** Call 15: EOF, read from position 54, after the last indent. */
  lemma Call15(keywords: KeywordTable)
    ensures Scan(LetStatementsInput, keywords, 54) == Lexeme(EofToken, 60)
  {
    StartFrom54();
  }

  lemma StartFrom54()
    ensures TokenStart(LetStatementsInput, 54) == 59
  {
    assert RunEnd(LetStatementsInput, 59, Blanks) == 59;
    assert RunEnd(LetStatementsInput, 58, Blanks) == 59;
    assert RunEnd(LetStatementsInput, 57, Blanks) == 59;
    assert RunEnd(LetStatementsInput, 56, Blanks) == 59;
    assert RunEnd(LetStatementsInput, 55, Blanks) == 59;
    assert RunEnd(LetStatementsInput, 54, Blanks) == 59;
  }

  /** A word from p to e read from pos. */
  lemma WordAt(input: seq<Byte>, keywords: KeywordTable, pos: nat, p: nat, e: nat)
    requires TokenStart(input, pos) == p && IsLetter(CharAt(input, p)) && RunEnd(input, p, Letters) == e
    ensures Scan(input, keywords, pos) == Lexeme(Token(LookupIdent(keywords, input[p..e]), input[p..e]), e)
  {
    ScanRuns(input, keywords, pos);
  }

  /** A number from p to e read from pos. */
  lemma NumberAt(input: seq<Byte>, keywords: KeywordTable, pos: nat, p: nat, e: nat)
    requires TokenStart(input, pos) == p && IsDigit(CharAt(input, p)) && RunEnd(input, p, Digits) == e
    ensures Scan(input, keywords, pos) == Lexeme(Token(Int, input[p..e]), e)
  {
    ScanRuns(input, keywords, pos);
  }

  /** A `;` or a `=` not followed by `=`, at p, read from pos. */
  lemma OneByteAt(input: seq<Byte>, keywords: KeywordTable, pos: nat, p: nat)
    requires TokenStart(input, pos) == p
    requires CharAt(input, p) == ';' || (CharAt(input, p) == '=' && CharAt(input, p + 1) != '=')
    ensures Scan(input, keywords, pos)
         == Lexeme(Token(if CharAt(input, p) == ';' then Semicolon else Assign, [CharAt(input, p)]), p + 1)
  {
  }
}
