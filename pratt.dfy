/**
 * The parser as a function of its position: a Pratt (top-down operator
 * precedence) parser over the token stream `ts`, read through a `Cursor`
 * that holds the index of the current token and the errors reported so far.
 * Each function here is the meaning of the parser method of the same name:
 * given where that method starts, it returns what the method returns and
 * where the parser stands afterwards.
 *
 * Positions past the end of `ts` read as EOF (`TokenAt`), which is what the
 * lexer hands out forever once its input is exhausted. Termination is by
 * `|ts| - pos` followed by a rank that goes down along every call that does
 * not move the cursor.
 */
module Pratt {
  import opened Wrappers
  import opened Tokens
  import opened Ast

  // Binding powers, in increasing order.
  const Lowest := 1
  const Equals := 2
  const LessGreater := 3
  const Sum := 4
  const Product := 5
  const PrefixLevel := 6
  const CallLevel := 7

  predicate IsBinaryOperator(k: Kind) {
    k.Plus? || k.Minus? || k.Slash? || k.Asterisk? || k.Eq? || k.NotEq? || k.Lt? || k.Gt?
  }

  /** The kinds a prefix parse function is registered for. */
  predicate HasPrefixParseFn(k: Kind) {
    k.Ident? || k.Int? || k.Bang? || k.Minus? || k.True? || k.False? || k.LParen? || k.If? || k.Function?
  }

  /** The kinds an infix parse function is registered for. */
  predicate HasInfixParseFn(k: Kind) {
    IsBinaryOperator(k) || k == LParen
  }

  /** The kinds that close a block statement's loop. */
  predicate EndsBlock(k: Kind) {
    k.RBrace? || k.Eof?
  }

  /** The kinds that stop the skip at the end of a `let` or `return`. */
  predicate EndsStatement(k: Kind) {
    k.Semicolon? || k.Eof?
  }

  /** The precedences table, with LOWEST for a kind not in it. */
  function Precedence(k: Kind): (p: int)
    ensures Lowest <= p <= CallLevel
    ensures p != Lowest <==> HasInfixParseFn(k)
    ensures k == LParen <==> p == CallLevel
  {
    if k.Eq? || k.NotEq? then Equals
    else if k.Lt? || k.Gt? then LessGreater
    else if k.Plus? || k.Minus? then Sum
    else if k.Slash? || k.Asterisk? then Product
    else if k.LParen? then CallLevel
    else Lowest
  }

  /** What is appended to the parser's error list. */
  datatype ParseError =
    | NoPrefixParseFn(kind: Kind)
    | UnexpectedPeek(expected: Kind, got: Kind)
    | BadIntegerLiteral(literal: seq<Byte>)

  /** `pos` is the index of the current token; the peek token is the next one. */
  datatype Cursor = Cursor(pos: nat, errors: seq<ParseError>)

  datatype Step<T> = Step(value: T, cur: Cursor)

  function Curr(ts: seq<Token>, c: Cursor): Token { TokenAt(ts, c.pos) }
  function Peek(ts: seq<Token>, c: Cursor): Token { TokenAt(ts, c.pos + 1) }
  function Advance(c: Cursor): Cursor { c.(pos := c.pos + 1) }
  function Fail(c: Cursor, e: ParseError): Cursor { c.(errors := c.errors + [e]) }

  // ---------------------------------------------------------------------
  // Integer literals: strconv.ParseInt(literal, 0, 64)

  const MaxInt64 := 0x7FFF_FFFF_FFFF_FFFF

  predicate AllDigits(s: seq<Byte>, base: nat) {
    forall i | 0 <= i < |s| :: '0' <= s[i] && (s[i] as int) < '0' as int + base
  }

  /** The value of the digit string `s` in `base`, most significant first. */
  function DigitsValue(s: seq<Byte>, base: nat): nat
    requires AllDigits(s, base)
  {
    if |s| == 0 then 0
    else DigitsValue(s[..|s| - 1], base) * base + (s[|s| - 1] as int - '0' as int)
  }

  /** With base 0, a literal that starts with `0` is read in octal (so "0"
      is zero), any other in decimal; a value above the int64 maximum is a
      range error. Literals with a sign, a `0x`/`0b`/`0o` prefix or
      underscores are reported as errors: the lexer never makes them. */
  function ParseInt64(literal: seq<Byte>): (r: Option<int>)
    ensures r.Some? ==> 0 <= r.value <= MaxInt64
    ensures r.Some? ==> |literal| > 0 && AllDigits(literal, 10)
    ensures r.Some? && |literal| > 1 && literal[0] == '0' ==> AllDigits(literal[1..], 8)
  {
    if |literal| == 0 || !AllDigits(literal, 10) then None
    else
      var digits := if literal[0] == '0' then literal[1..] else literal;
      var base := if literal[0] == '0' then 8 else 10;
      if !AllDigits(digits, base) || DigitsValue(digits, base) > MaxInt64 then None
      else Some(DigitsValue(digits, base))
  }

  /** The decimal spelling of `n`, without leading zeros. */
  function DecimalString(n: nat): (s: seq<Byte>)
    ensures |s| > 0 && AllDigits(s, 10)
    ensures n > 0 ==> s[0] != '0'
  {
    var d := ['0' + (n % 10) as char];
    if n < 10 then d else DecimalString(n / 10) + d
  }

  lemma {:induction false} DecimalValue(n: nat)
    ensures DigitsValue(DecimalString(n), 10) == n
  {
    var s := DecimalString(n);
    if n >= 10 {
      DecimalValue(n / 10);
      assert s[..|s| - 1] == DecimalString(n / 10);
    }
  }

  /** Reading back a decimal spelling gives the number, exactly for the
      values that fit an int64. */
  lemma ParseInt64OfDecimal(n: nat)
    ensures ParseInt64(DecimalString(n)) == if n <= MaxInt64 then Some(n) else None
  {
    DecimalValue(n);
    var s := DecimalString(n);
    if n == 0 {
      assert s == ['0'];
      assert s[1..] == [];
    }
  }

  // ---------------------------------------------------------------------
  // Expressions
  //
  // The contracts below carry what termination and the callers'
  // preconditions need; what each function computes is stated in the
  // module ParserProperties.

  /** expectPeek: advance onto the peek token when it has kind `k`,
      otherwise report it and stay. */
  function ExpectPeek(ts: seq<Token>, c: Cursor, k: Kind): (r: Step<bool>)
    ensures c.pos <= r.cur.pos
    ensures r.value <==> Peek(ts, c).kind == k
    ensures r.value ==> r.cur == Advance(c) && Curr(ts, r.cur).kind == k
    ensures !r.value ==> r.cur == Fail(c, UnexpectedPeek(k, Peek(ts, c).kind))
  {
    if Peek(ts, c).kind == k then Step(true, Advance(c))
    else Step(false, Fail(c, UnexpectedPeek(k, Peek(ts, c).kind)))
  }

  /** parseExpression(precedence) */
  function ParseExpression(ts: seq<Token>, c: Cursor, precedence: int): (r: Step<Expression>)
    decreases |ts| - c.pos, 6
    ensures c.pos <= r.cur.pos
  {
    if !HasPrefixParseFn(Curr(ts, c).kind) then
      Step(Nil, Fail(c, NoPrefixParseFn(Curr(ts, c).kind)))
    else
      var left := ParsePrefix(ts, c);
      InfixLoop(ts, left.cur, precedence, left.value)
  }

  /** The call `prefixParseFns[currToken.Type]()`; a kind with no function
      registered reports it and yields nil. */
  function ParsePrefix(ts: seq<Token>, c: Cursor): (r: Step<Expression>)
    decreases |ts| - c.pos, 5
    ensures c.pos <= r.cur.pos
  {
    var t := Curr(ts, c);
    if t.kind.Ident? then Step(Id(Identifier(t, t.literal)), c)
    else if t.kind.Int? then ParseIntegerLiteral(ts, c)
    else if t.kind.Bang? || t.kind.Minus? then ParsePrefixExpression(ts, c)
    else if t.kind.True? || t.kind.False? then Step(Boolean(t, t.kind.True?), c)
    else if t.kind.LParen? then ParseGroupedExpression(ts, c)
    else if t.kind.If? then ParseIfExpression(ts, c)
    else if t.kind.Function? then ParseFunctionLiteral(ts, c)
    else Step(Nil, Fail(c, NoPrefixParseFn(t.kind)))
  }

  /** The loop of parseExpression: while the peek token is not `;` and
      binds tighter than `precedence`, hand `left` to its infix function. */
  function InfixLoop(ts: seq<Token>, c: Cursor, precedence: int, left: Expression): (r: Step<Expression>)
    decreases |ts| - c.pos, 5
    ensures c.pos <= r.cur.pos
  {
    var k := Peek(ts, c).kind;
    if k == Semicolon || precedence >= Precedence(k) || !HasInfixParseFn(k) then Step(left, c)
    else
      var e := ParseInfix(ts, Advance(c), left);
      InfixLoop(ts, e.cur, precedence, e.value)
  }

  /** The call `infixParseFns[peekToken.Type](leftExp)`. */
  function ParseInfix(ts: seq<Token>, c: Cursor, left: Expression): (r: Step<Expression>)
    requires HasInfixParseFn(Curr(ts, c).kind)
    decreases |ts| - c.pos, 5
    ensures c.pos <= r.cur.pos
  {
    if Curr(ts, c).kind == LParen then ParseCallExpression(ts, c, left)
    else ParseInfixExpression(ts, c, left)
  }

  /** parseIntegerLiteral */
  function ParseIntegerLiteral(ts: seq<Token>, c: Cursor): (r: Step<Expression>)
    requires Curr(ts, c).kind == Int
    ensures c.pos <= r.cur.pos
  {
    var t := Curr(ts, c);
    match ParseInt64(t.literal)
    case Some(v) => Step(IntegerLiteral(t, v), c)
    case None => Step(Nil, Fail(c, BadIntegerLiteral(t.literal)))
  }

  /** parsePrefixExpression: the operand binds at PREFIX. */
  function ParsePrefixExpression(ts: seq<Token>, c: Cursor): (r: Step<Expression>)
    requires Curr(ts, c).kind == Bang || Curr(ts, c).kind == Minus
    decreases |ts| - c.pos, 4
    ensures c.pos <= r.cur.pos
  {
    var right := ParseExpression(ts, Advance(c), PrefixLevel);
    Step(PrefixExpression(Curr(ts, c), Curr(ts, c).literal, right.value), right.cur)
  }

  /** parseInfixExpression: the right operand binds at the operator's own
      precedence, which makes equal operators associate to the left. */
  function ParseInfixExpression(ts: seq<Token>, c: Cursor, left: Expression): (r: Step<Expression>)
    requires IsBinaryOperator(Curr(ts, c).kind)
    decreases |ts| - c.pos, 4
    ensures c.pos <= r.cur.pos
  {
    var t := Curr(ts, c);
    var right := ParseExpression(ts, Advance(c), Precedence(t.kind));
    Step(InfixExpression(t, left, t.literal, right.value), right.cur)
  }

  /** parseGroupedExpression: nil unless the inner expression is followed by `)`. */
  function ParseGroupedExpression(ts: seq<Token>, c: Cursor): (r: Step<Expression>)
    requires Curr(ts, c).kind == LParen
    decreases |ts| - c.pos, 4
    ensures c.pos <= r.cur.pos
  {
    var e := ParseExpression(ts, Advance(c), Lowest);
    var close := ExpectPeek(ts, e.cur, RParen);
    Step(if close.value then e.value else Nil, close.cur)
  }

  /** parserIfExpression: `if ( condition ) { consequence }`, then an
      `else { alternative }` if the peek token is `else`. A missing
      delimiter makes the whole expression nil. */
  function ParseIfExpression(ts: seq<Token>, c: Cursor): (r: Step<Expression>)
    requires Curr(ts, c).kind == If
    decreases |ts| - c.pos, 4
    ensures c.pos <= r.cur.pos
  {
    var open := ExpectPeek(ts, c, LParen);
    if !open.value then Step(Nil, open.cur)
    else
      var condition := ParseExpression(ts, Advance(open.cur), Lowest);
      var close := ExpectPeek(ts, condition.cur, RParen);
      if !close.value then Step(Nil, close.cur)
      else
        var brace := ExpectPeek(ts, close.cur, LBrace);
        if !brace.value then Step(Nil, brace.cur)
        else
          var consequence := ParseBlock(ts, brace.cur);
          if Peek(ts, consequence.cur).kind != Else then
            Step(IfExpression(Curr(ts, c), condition.value, consequence.value, None), consequence.cur)
          else
            var brace2 := ExpectPeek(ts, Advance(consequence.cur), LBrace);
            if !brace2.value then Step(Nil, brace2.cur)
            else
              var alternative := ParseBlock(ts, brace2.cur);
              Step(IfExpression(Curr(ts, c), condition.value, consequence.value, Some(alternative.value)),
                   alternative.cur)
  }

  /** parseBlockStatement: statements up to the closing `}` (or EOF). */
  function ParseBlock(ts: seq<Token>, c: Cursor): (r: Step<Block>)
    requires Curr(ts, c).kind == LBrace
    decreases |ts| - c.pos, 4
    ensures c.pos <= r.cur.pos
  {
    var body := BlockLoop(ts, Advance(c), []);
    Step(Block(Curr(ts, c), body.value), body.cur)
  }

  /** The loop of parseBlockStatement; a failed `let` is dropped. */
  function BlockLoop(ts: seq<Token>, c: Cursor, statements: seq<Statement>): (r: Step<seq<Statement>>)
    decreases |ts| - c.pos, 9
    ensures c.pos <= r.cur.pos
  {
    if EndsBlock(Curr(ts, c).kind) then Step(statements, c)
    else
      var s := ParseStatement(ts, c);
      BlockLoop(ts, Advance(s.cur), if s.value.Some? then statements + [s.value.value] else statements)
  }

  /** parseFunctionLiteral */
  function ParseFunctionLiteral(ts: seq<Token>, c: Cursor): (r: Step<Expression>)
    requires Curr(ts, c).kind == Function
    decreases |ts| - c.pos, 4
    ensures c.pos <= r.cur.pos
  {
    var open := ExpectPeek(ts, c, LParen);
    if !open.value then Step(Nil, open.cur)
    else
      var parameters := ParseFunctionParameters(ts, open.cur);
      var brace := ExpectPeek(ts, parameters.cur, LBrace);
      if !brace.value then Step(Nil, brace.cur)
      else
        var body := ParseBlock(ts, brace.cur);
        Step(FunctionLiteral(Curr(ts, c), parameters.value.GetOr([]), body.value), body.cur)
  }

  /** parseIdentifier: the identifier node of the token at i. */
  function IdentifierAt(ts: seq<Token>, i: nat): Identifier {
    Identifier(TokenAt(ts, i), TokenAt(ts, i).literal)
  }

  /** parseFunctionParameters: after `(`, either `)` at once or a token,
      then any number of `,` token pairs, then `)`. The parameter tokens
      are taken as they are, whatever their kind. `None` is the nil slice
      returned when the closing `)` is missing. */
  function ParseFunctionParameters(ts: seq<Token>, c: Cursor): (r: Step<Option<seq<Identifier>>>)
    requires Curr(ts, c).kind == LParen
    ensures c.pos <= r.cur.pos
  {
    if Peek(ts, c).kind == RParen then Step(Some([]), Advance(c))
    else
      var c1 := Advance(c);
      var ps := ParametersLoop(ts, c1, [IdentifierAt(ts, c1.pos)]);
      var close := ExpectPeek(ts, ps.cur, RParen);
      Step(if close.value then Some(ps.value) else None, close.cur)
  }

  /** The loop of parseFunctionParameters: while the peek token is `,`,
      take the token after it as the next parameter. */
  function ParametersLoop(ts: seq<Token>, c: Cursor, ids: seq<Identifier>): (r: Step<seq<Identifier>>)
    decreases |ts| - c.pos
    ensures c.pos <= r.cur.pos
  {
    if Peek(ts, c).kind != Comma then Step(ids, c)
    else
      var c2 := Advance(Advance(c));
      ParametersLoop(ts, c2, ids + [IdentifierAt(ts, c2.pos)])
  }

  /** parseCallExpression: the expression before `(` is the callee. A
      failed argument list leaves a call with no arguments. */
  function ParseCallExpression(ts: seq<Token>, c: Cursor, callee: Expression): (r: Step<Expression>)
    requires Curr(ts, c).kind == LParen
    decreases |ts| - c.pos, 4
    ensures c.pos <= r.cur.pos
  {
    var arguments := ParseCallArguments(ts, c);
    Step(CallExpression(Curr(ts, c), callee, arguments.value.GetOr([])), arguments.cur)
  }

  /** parseCallArguments: `None` is the nil slice returned when the closing
      `)` is missing. */
  function ParseCallArguments(ts: seq<Token>, c: Cursor): (r: Step<Option<seq<Expression>>>)
    requires Curr(ts, c).kind == LParen
    decreases |ts| - c.pos, 3
    ensures c.pos <= r.cur.pos
  {
    if Peek(ts, c).kind == RParen then Step(Some([]), Advance(c))
    else
      var first := ParseExpression(ts, Advance(c), Lowest);
      var rest := ArgumentsLoop(ts, first.cur, [first.value]);
      var close := ExpectPeek(ts, rest.cur, RParen);
      Step(if close.value then Some(rest.value) else None, close.cur)
  }

  /** The loop of parseCallArguments. */
  function ArgumentsLoop(ts: seq<Token>, c: Cursor, args: seq<Expression>): (r: Step<seq<Expression>>)
    decreases |ts| - c.pos, 2
    ensures c.pos <= r.cur.pos
  {
    if Peek(ts, c).kind != Comma then Step(args, c)
    else
      var e := ParseExpression(ts, Advance(Advance(c)), Lowest);
      ArgumentsLoop(ts, e.cur, args + [e.value])
  }

  // ---------------------------------------------------------------------
  // Statements

  /** parseStatement. `None` is a `let` that failed (a nil *LetStatement). */
  function ParseStatement(ts: seq<Token>, c: Cursor): (r: Step<Option<Statement>>)
    decreases |ts| - c.pos, 8
    ensures c.pos <= r.cur.pos
  {
    var k := Curr(ts, c).kind;
    if k.Let? then ParseLetStatement(ts, c)
    else if k.Return? then
      var s := ParseReturnStatement(ts, c);
      Step(Some(s.value), s.cur)
    else
      var s := ParseExpressionStatement(ts, c);
      Step(Some(s.value), s.cur)
  }

  /** parseLetStatement, with the skip to `;` stopping at EOF as well. */
  function ParseLetStatement(ts: seq<Token>, c: Cursor): (r: Step<Option<Statement>>)
    requires Curr(ts, c).kind == Let
    decreases |ts| - c.pos, 7
    ensures c.pos <= r.cur.pos
  {
    var name := ExpectPeek(ts, c, Ident);
    if !name.value then Step(None, name.cur)
    else
      var assign := ExpectPeek(ts, name.cur, Assign);
      if !assign.value then Step(None, assign.cur)
      else
        var value := ParseExpression(ts, Advance(assign.cur), Lowest);
        Step(Some(LetStatement(Curr(ts, c), IdentifierAt(ts, name.cur.pos), value.value)),
             SkipToSemicolon(ts, value.cur))
  }

  /** parserReturnStatement, with the skip to `;` stopping at EOF as well. */
  function ParseReturnStatement(ts: seq<Token>, c: Cursor): (r: Step<Statement>)
    requires Curr(ts, c).kind == Return
    decreases |ts| - c.pos, 7
    ensures c.pos <= r.cur.pos
  {
    var value := ParseExpression(ts, Advance(c), Lowest);
    Step(ReturnStatement(Curr(ts, c), value.value), SkipToSemicolon(ts, value.cur))
  }

  /** parseExpressionStatement: a `;` after the expression is optional. */
  function ParseExpressionStatement(ts: seq<Token>, c: Cursor): (r: Step<Statement>)
    decreases |ts| - c.pos, 7
    ensures c.pos <= r.cur.pos
  {
    var e := ParseExpression(ts, c, Lowest);
    Step(ExpressionStatement(Curr(ts, c), e.value),
         if Peek(ts, e.cur).kind == Semicolon then Advance(e.cur) else e.cur)
  }

  /** The loop `for !currTokenIs(SEMICOLON) { nextToken() }` that ends a
      `let` or `return`, also stopping at EOF (see `SkipToSemicolonAsWritten`). */
  function SkipToSemicolon(ts: seq<Token>, c: Cursor): (r: Cursor)
    decreases |ts| - c.pos
    ensures r.errors == c.errors && c.pos <= r.pos
  {
    if EndsStatement(Curr(ts, c).kind) then c else SkipToSemicolon(ts, Advance(c))
  }

  // ---------------------------------------------------------------------
  // Programs

  /** The loop of ParseProgram: one statement per round, then step past its
      last token; a failed `let` is dropped. */
  function ProgramLoop(ts: seq<Token>, c: Cursor, statements: seq<Statement>): (r: Step<seq<Statement>>)
    decreases |ts| - c.pos, 9
    ensures c.pos <= r.cur.pos
  {
    if Curr(ts, c).kind == Eof then Step(statements, c)
    else
      var s := ParseStatement(ts, c);
      ProgramLoop(ts, Advance(s.cur), if s.value.Some? then statements + [s.value.value] else statements)
  }

  /** ParseProgram from the first token, with no errors yet. */
  function ParseProgram(ts: seq<Token>): Step<Program> {
    var body := ProgramLoop(ts, Cursor(0, []), []);
    Step(Program(body.value), body.cur)
  }
}
