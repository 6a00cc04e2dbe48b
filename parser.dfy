/**
 * The parser object (parser.Parser): it pulls tokens from a `Lexer` one at a
 * time and keeps the current token, the peek token and the error list.
 *
 * Every parsing method is proved against the function of the same name in
 * `Pratt`: started on the cursor `Cur()`, it returns that function's value
 * and leaves the parser on that function's cursor. `next` (ghost) counts the
 * tokens drawn from the lexer, so the current token is the (next-2)-th
 * token of the stream `tokens` the lexer produces.
 *
 * The prefix and infix function tables are the predicates
 * `HasPrefixParseFn` / `HasInfixParseFn` and a dispatch on the token kind.
 */
module Parsing {
  import opened Wrappers
  import opened Tokens
  import opened Lexing
  import opened Ast
  import opened Pratt

  /** A peek token with an infix function is not the EOF that pads the
      stream, so the peek position lies inside the stream. */
  lemma InfixPeekInside(ts: seq<Token>, c: Cursor)
    requires HasInfixParseFn(Peek(ts, c).kind)
    ensures c.pos + 1 < |ts|
  {
  }

  class Parser {
    const lexer: Lexer
    ghost const tokens: seq<Token>
    var errors: seq<ParseError>
    var curr: Token
    var peek: Token
    ghost var next: nat

    /** The lexer has handed out exactly `next` tokens of `tokens`; the last
        two of them are the peek and current tokens. */
    ghost predicate Reading()
      reads this, lexer
    {
      && lexer.Valid()
      && |tokens| == |lexer.input| + 1
      && Lexes(lexer.input, lexer.keywords, 0, tokens)
      && lexer.position == PositionAfter(lexer.input, lexer.keywords, 0, next)
      && (next >= 1 ==> peek == TokenAt(tokens, next - 1))
      && (next >= 2 ==> curr == TokenAt(tokens, next - 2))
    }

    /** Reading, with both tokens primed, stated in the terms of `Pratt`. */
    ghost predicate Valid()
      reads this, lexer
    {
      && Reading()
      && next >= 2
      && curr == Curr(tokens, Cur())
      && peek == Peek(tokens, Cur())
    }

    ghost function Cur(): Cursor
      reads this
      requires next >= 2
    {
      Cursor(next - 2, errors)
    }

    /** New: prime the current and peek tokens from a fresh lexer. */
    constructor (lexer: Lexer)
      requires lexer.Valid() && lexer.position == 0
      modifies lexer
      ensures Valid() && this.lexer == lexer
      ensures tokens == Tokenize(lexer.input, lexer.keywords)
      ensures Cur() == Cursor(0, [])
      ensures curr == TokenAt(tokens, 0) && peek == TokenAt(tokens, 1)
    {
      this.lexer := lexer;
      tokens := Tokenize(lexer.input, lexer.keywords);
      TokenizeIsTheStream(lexer.input, lexer.keywords, 0);
      errors := [];
      curr, peek := EofToken, EofToken;
      next := 0;
      new;
      NextToken();
      NextToken();
    }

    method NextToken()
      requires Reading()
      modifies this, lexer
      ensures Reading() && next == old(next) + 1
      ensures errors == old(errors) && curr == old(peek)
      ensures peek == NthToken(lexer.input, lexer.keywords, 0, old(next))
      ensures old(next) >= 1 ==> Valid()
      ensures old(next) >= 2 ==> Cur() == Advance(old(Cur()))
    {
      PositionAfterStep(lexer.input, lexer.keywords, 0, next);
      StreamAt(lexer.input, lexer.keywords, tokens, next);
      curr := peek;
      peek := lexer.NextToken();
      next := next + 1;
    }

    /** Errors: the error list, which is the cursor's. */
    function Errors(): (e: seq<ParseError>)
      reads this, lexer
      ensures Valid() ==> e == Cur().errors
    {
      errors
    }

    method NoPrefixFnError(kind: Kind)
      requires Valid()
      modifies this
      ensures old(next) <= next
      ensures Valid() && Cur() == Fail(old(Cur()), NoPrefixParseFn(kind))
      ensures curr == old(curr) && peek == old(peek)
    {
      errors := errors + [NoPrefixParseFn(kind)];
    }

    method PeekError(kind: Kind)
      requires Valid()
      modifies this
      ensures old(next) <= next
      ensures Valid() && Cur() == Fail(old(Cur()), UnexpectedPeek(kind, Peek(tokens, old(Cur())).kind))
      ensures curr == old(curr) && peek == old(peek)
    {
      errors := errors + [UnexpectedPeek(kind, peek.kind)];
    }

    /** currTokenIs: the kind of the token at the cursor. */
    function CurrTokenIs(kind: Kind): (b: bool)
      reads this, lexer
      ensures Valid() ==> (b <==> Curr(tokens, Cur()).kind == kind)
    {
      curr.kind == kind
    }

    /** peekTokenIs: the kind of the token after the cursor. */
    function PeekTokenIs(kind: Kind): (b: bool)
      reads this, lexer
      ensures Valid() ==> (b <==> Peek(tokens, Cur()).kind == kind)
    {
      peek.kind == kind
    }

    /** peekPrecedence */
    function PeekPrecedence(): (p: int)
      reads this, lexer
      ensures Valid() ==> p == Precedence(Peek(tokens, Cur()).kind)
    {
      Precedence(peek.kind)
    }

    /** currPrecedence */
    function CurrPrecedence(): (p: int)
      reads this, lexer
      ensures Valid() ==> p == Precedence(Curr(tokens, Cur()).kind)
    {
      Precedence(curr.kind)
    }

    method ExpectPeek(kind: Kind) returns (ok: bool)
      requires Valid()
      modifies this, lexer
      ensures old(next) <= next
      ensures Valid() && Step(ok, Cur()) == Pratt.ExpectPeek(tokens, old(Cur()), kind)
      ensures ok <==> old(peek).kind == kind
      ensures ok ==> curr == old(peek)
    {
      if PeekTokenIs(kind) {
        NextToken();
        ok := true;
      } else {
        PeekError(kind);
        ok := false;
      }
    }

    method ParseProgram() returns (program: Program)
      requires Valid()
      modifies this, lexer
      ensures old(next) <= next
      ensures Valid()
      ensures var r := ProgramLoop(tokens, old(Cur()), []);
        program == Program(r.value) && Cur() == r.cur
    {
      var statements: seq<Statement> := [];
      ghost var goal := ProgramLoop(tokens, Cur(), []);
      while curr.kind != Eof
        invariant Valid() && ProgramLoop(tokens, Cur(), statements) == goal
        decreases |tokens| + 2 - next
      {
        var statement := ParseStatement();
        if statement.Some? {
          statements := statements + [statement.value];
        }
        NextToken();
      }
      program := Program(statements);
    }

    method ParseStatement() returns (s: Option<Statement>)
      requires Valid()
      modifies this, lexer
      ensures old(next) <= next
      decreases |tokens| + 2 - next, 8
      ensures Valid() && Step(s, Cur()) == Pratt.ParseStatement(tokens, old(Cur()))
    {
      if curr.kind == Let {
        s := ParseLetStatement();
      } else if curr.kind == Return {
        var r := ParseReturnStatement();
        s := Some(r);
      } else {
        var r := ParseExpressionStatement();
        s := Some(r);
      }
    }

    method ParseLetStatement() returns (s: Option<Statement>)
      requires Valid() && curr.kind == Let
      modifies this, lexer
      ensures old(next) <= next
      decreases |tokens| + 2 - next, 7
      ensures Valid() && Step(s, Cur()) == Pratt.ParseLetStatement(tokens, old(Cur()))
    {
      var token := curr;
      var ok := ExpectPeek(Ident);
      if !ok {
        return None;
      }
      var name := Identifier(curr, curr.literal);
      ok := ExpectPeek(Assign);
      if !ok {
        return None;
      }
      NextToken();
      var value := ParseExpression(Lowest);
      SkipToSemicolon();
      s := Some(LetStatement(token, name, value));
    }

    method ParseReturnStatement() returns (s: Statement)
      requires Valid() && curr.kind == Return
      modifies this, lexer
      ensures old(next) <= next
      decreases |tokens| + 2 - next, 7
      ensures Valid() && Step(s, Cur()) == Pratt.ParseReturnStatement(tokens, old(Cur()))
    {
      var token := curr;
      NextToken();
      var value := ParseExpression(Lowest);
      SkipToSemicolon();
      s := ReturnStatement(token, value);
    }

    /** The loop that ends a `let` or `return`, stopping at EOF as well. */
    method SkipToSemicolon()
      requires Valid()
      modifies this, lexer
      ensures old(next) <= next
      ensures Valid() && Cur() == Pratt.SkipToSemicolon(tokens, old(Cur()))
    {
      while !CurrTokenIs(Semicolon) && !CurrTokenIs(Eof)
        invariant Valid() && Pratt.SkipToSemicolon(tokens, Cur()) == Pratt.SkipToSemicolon(tokens, old(Cur()))
        decreases |tokens| + 2 - next
      {
        NextToken();
      }
    }

    method ParseExpressionStatement() returns (s: Statement)
      requires Valid()
      modifies this, lexer
      ensures old(next) <= next
      decreases |tokens| + 2 - next, 7
      ensures Valid() && Step(s, Cur()) == Pratt.ParseExpressionStatement(tokens, old(Cur()))
    {
      var token := curr;
      var expression := ParseExpression(Lowest);
      if PeekTokenIs(Semicolon) {
        NextToken();
      }
      s := ExpressionStatement(token, expression);
    }

    method ParseExpression(precedence: int) returns (e: Expression)
      requires Valid()
      modifies this, lexer
      ensures old(next) <= next
      decreases |tokens| + 2 - next, 6
      ensures Valid() && Step(e, Cur()) == Pratt.ParseExpression(tokens, old(Cur()), precedence)
    {
      if !HasPrefixParseFn(curr.kind) {
        NoPrefixFnError(curr.kind);
        return Nil;
      }
      e := ParsePrefix();
      e := InfixLoop(precedence, e);
    }

    /** The loop of parseExpression, from the expression its prefix
        function returned. Returning `leftExp` from inside the loop when the
        peek token has no infix function ends it just as the loop condition
        does, so that test is part of the condition here. */
    method InfixLoop(precedence: int, left: Expression) returns (e: Expression)
      requires Valid()
      modifies this, lexer
      ensures old(next) <= next
      decreases |tokens| + 2 - next, 5
      ensures Valid() && Step(e, Cur()) == Pratt.InfixLoop(tokens, old(Cur()), precedence, left)
    {
      e := left;
      ghost var goal := Pratt.InfixLoop(tokens, Cur(), precedence, e);
      while !PeekTokenIs(Semicolon) && precedence < PeekPrecedence() && HasInfixParseFn(peek.kind)
        invariant Valid() && old(next) <= next
        invariant Pratt.InfixLoop(tokens, Cur(), precedence, e) == goal
        decreases |tokens| + 2 - next
      {
        InfixPeekInside(tokens, Cur());
        NextToken();
        e := ParseInfix(e);
      }
    }

    /** The call `infixParseFns[peekToken.Type](leftExp)` once the operator
        is the current token. */
    method ParseInfix(left: Expression) returns (e: Expression)
      requires Valid() && HasInfixParseFn(curr.kind)
      modifies this, lexer
      ensures old(next) <= next
      decreases |tokens| + 2 - next, 5
      ensures Valid() && Step(e, Cur()) == Pratt.ParseInfix(tokens, old(Cur()), left)
    {
      if curr.kind == LParen {
        e := ParseCallExpression(left);
      } else {
        e := ParseInfixExpression(left);
      }
    }

    /** The call `prefixParseFns[currToken.Type]()` for a kind that has one. */
    method ParsePrefix() returns (e: Expression)
      requires Valid() && HasPrefixParseFn(curr.kind)
      modifies this, lexer
      ensures old(next) <= next
      decreases |tokens| + 2 - next, 5
      ensures Valid() && Step(e, Cur()) == Pratt.ParsePrefix(tokens, old(Cur()))
    {
      if curr.kind == Ident {
        e := ParseIdentifier();
      } else if curr.kind == Int {
        e := ParseIntegerLiteral();
      } else if curr.kind == Bang || curr.kind == Minus {
        e := ParsePrefixExpression();
      } else if curr.kind == True || curr.kind == False {
        e := ParseBoolean();
      } else if curr.kind == LParen {
        e := ParseGroupedExpression();
      } else if curr.kind == If {
        e := ParseIfExpression();
      } else {
        e := ParseFunctionLiteral();
      }
    }

    /** parseIdentifier: the current token as an identifier. */
    function ParseIdentifier(): (e: Expression)
      reads this, lexer
      ensures Valid() && curr.kind == Ident ==> Step(e, Cur()) == Pratt.ParsePrefix(tokens, Cur())
    {
      Id(Identifier(curr, curr.literal))
    }

    /** parseBoolean: true exactly for the `true` keyword. */
    function ParseBoolean(): (e: Expression)
      reads this, lexer
      ensures Valid() && (curr.kind == True || curr.kind == False) ==>
        Step(e, Cur()) == Pratt.ParsePrefix(tokens, Cur())
    {
      Boolean(curr, CurrTokenIs(True))
    }

    method ParseIntegerLiteral() returns (e: Expression)
      requires Valid() && curr.kind == Int
      modifies this
      ensures old(next) <= next
      ensures Valid() && Step(e, Cur()) == Pratt.ParseIntegerLiteral(tokens, old(Cur()))
    {
      var value := ParseInt64(curr.literal);
      if value.None? {
        errors := errors + [BadIntegerLiteral(curr.literal)];
        return Nil;
      }
      e := IntegerLiteral(curr, value.value);
    }

    method ParsePrefixExpression() returns (e: Expression)
      requires Valid() && (curr.kind == Bang || curr.kind == Minus)
      modifies this, lexer
      ensures old(next) <= next
      decreases |tokens| + 2 - next, 4
      ensures Valid() && Step(e, Cur()) == Pratt.ParsePrefixExpression(tokens, old(Cur()))
    {
      var token := curr;
      NextToken();
      var right := ParseExpression(PrefixLevel);
      e := PrefixExpression(token, token.literal, right);
    }

    method ParseInfixExpression(left: Expression) returns (e: Expression)
      requires Valid() && IsBinaryOperator(curr.kind)
      modifies this, lexer
      ensures old(next) <= next
      decreases |tokens| + 2 - next, 4
      ensures Valid() && Step(e, Cur()) == Pratt.ParseInfixExpression(tokens, old(Cur()), left)
    {
      var token := curr;
      var precedence := CurrPrecedence();
      NextToken();
      var right := ParseExpression(precedence);
      e := InfixExpression(token, left, token.literal, right);
    }

    method ParseGroupedExpression() returns (e: Expression)
      requires Valid() && curr.kind == LParen
      modifies this, lexer
      ensures old(next) <= next
      decreases |tokens| + 2 - next, 4
      ensures Valid() && Step(e, Cur()) == Pratt.ParseGroupedExpression(tokens, old(Cur()))
    {
      NextToken();
      var expression := ParseExpression(Lowest);
      var ok := ExpectPeek(RParen);
      if !ok {
        return Nil;
      }
      e := expression;
    }

    method ParseIfExpression() returns (e: Expression)
      requires Valid() && curr.kind == If
      modifies this, lexer
      ensures old(next) <= next
      decreases |tokens| + 2 - next, 4
      ensures Valid() && Step(e, Cur()) == Pratt.ParseIfExpression(tokens, old(Cur()))
    {
      var token := curr;
      var ok := ExpectPeek(LParen);
      if !ok {
        return Nil;
      }
      NextToken();
      var condition := ParseExpression(Lowest);
      ok := ExpectPeek(RParen);
      if !ok {
        return Nil;
      }
      ok := ExpectPeek(LBrace);
      if !ok {
        return Nil;
      }
      var consequence := ParseBlockStatement();
      var alternative: Option<Block> := None;
      if PeekTokenIs(Else) {
        NextToken();
        ok := ExpectPeek(LBrace);
        if !ok {
          return Nil;
        }
        var block := ParseBlockStatement();
        alternative := Some(block);
      }
      e := IfExpression(token, condition, consequence, alternative);
    }

    method ParseBlockStatement() returns (b: Block)
      requires Valid() && curr.kind == LBrace
      modifies this, lexer
      ensures old(next) <= next
      decreases |tokens| + 2 - next, 4
      ensures Valid() && Step(b, Cur()) == Pratt.ParseBlock(tokens, old(Cur()))
    {
      var token := curr;
      var statements: seq<Statement> := [];
      NextToken();
      ghost var goal := BlockLoop(tokens, Cur(), []);
      while !CurrTokenIs(RBrace) && !CurrTokenIs(Eof)
        invariant Valid() && old(next) < next && BlockLoop(tokens, Cur(), statements) == goal
        decreases |tokens| + 2 - next
      {
        var statement := ParseStatement();
        if statement.Some? {
          statements := statements + [statement.value];
        }
        NextToken();
      }
      b := Block(token, statements);
    }

    method ParseFunctionLiteral() returns (e: Expression)
      requires Valid() && curr.kind == Function
      modifies this, lexer
      ensures old(next) <= next
      decreases |tokens| + 2 - next, 4
      ensures Valid() && Step(e, Cur()) == Pratt.ParseFunctionLiteral(tokens, old(Cur()))
    {
      var token := curr;
      var ok := ExpectPeek(LParen);
      if !ok {
        return Nil;
      }
      var parameters := ParseFunctionParameters();
      ok := ExpectPeek(LBrace);
      if !ok {
        return Nil;
      }
      var body := ParseBlockStatement();
      e := FunctionLiteral(token, parameters.GetOr([]), body);
    }

    method ParseFunctionParameters() returns (ids: Option<seq<Identifier>>)
      requires Valid() && curr.kind == LParen
      modifies this, lexer
      ensures old(next) <= next
      ensures Valid() && Step(ids, Cur()) == Pratt.ParseFunctionParameters(tokens, old(Cur()))
    {
      if PeekTokenIs(RParen) {
        NextToken();
        return Some([]);
      }
      NextToken();
      var identifiers := [Identifier(curr, curr.literal)];
      ghost var goal := ParametersLoop(tokens, Cur(), identifiers);
      while PeekTokenIs(Comma)
        invariant Valid() && old(next) <= next
        invariant ParametersLoop(tokens, Cur(), identifiers) == goal
        decreases |tokens| + 2 - next
      {
        NextToken();
        NextToken();
        identifiers := identifiers + [Identifier(curr, curr.literal)];
      }
      var ok := ExpectPeek(RParen);
      if !ok {
        return None;
      }
      ids := Some(identifiers);
    }

    method ParseCallExpression(callee: Expression) returns (e: Expression)
      requires Valid() && curr.kind == LParen
      modifies this, lexer
      ensures old(next) <= next
      decreases |tokens| + 2 - next, 4
      ensures Valid() && Step(e, Cur()) == Pratt.ParseCallExpression(tokens, old(Cur()), callee)
    {
      var token := curr;
      var arguments := ParseCallArguments();
      e := CallExpression(token, callee, arguments.GetOr([]));
    }

    method ParseCallArguments() returns (args: Option<seq<Expression>>)
      requires Valid() && curr.kind == LParen
      modifies this, lexer
      ensures old(next) <= next
      decreases |tokens| + 2 - next, 3
      ensures Valid() && Step(args, Cur()) == Pratt.ParseCallArguments(tokens, old(Cur()))
    {
      if PeekTokenIs(RParen) {
        NextToken();
        return Some([]);
      }
      NextToken();
      var first := ParseExpression(Lowest);
      var arguments := [first];
      ghost var goal := ArgumentsLoop(tokens, Cur(), arguments);
      while PeekTokenIs(Comma)
        invariant Valid() && old(next) < next
        invariant ArgumentsLoop(tokens, Cur(), arguments) == goal
        decreases |tokens| + 2 - next
      {
        NextToken();
        NextToken();
        var argument := ParseExpression(Lowest);
        arguments := arguments + [argument];
      }
      var ok := ExpectPeek(RParen);
      if !ok {
        return None;
      }
      args := Some(arguments);
    }
  }
}
