/**
 * What the printer of `Ast` promises: statements and programs are printed
 * one after another with no separator, joins put their separator only
 * between parts, literals print their token, and operator expressions are
 * fully parenthesised, one pair per operator.
 */
module AstProperties {
  import opened Wrappers
  import opened Tokens
  import opened Ast

  // ---------------------------------------------------------------------
  // One node at a time

  /** What every String() promises about its delimiters: operator and
      index expressions are enclosed in parentheses, arrays in brackets, a
      call is its callee's text followed by a parenthesised argument list,
      and an `if` and a function literal start with `if` and with their
      token and `(`. */
  lemma ExpressionStringDelimiters(e: Expression)
    requires Printable(e)
    ensures var r := ExpressionString(e);
      && (e.PrefixExpression? || e.InfixExpression? || e.IndexExpression? ==>
            2 <= |r| && r[0] == '(' && r[|r| - 1] == ')')
      && (e.ArrayLiteral? ==> 2 <= |r| && r[0] == '[' && r[|r| - 1] == ']')
      && (e.CallExpression? ==> ExpressionString(e.callee) + "(" <= r && r[|r| - 1] == ')')
      && (e.IfExpression? ==> "if" <= r)
      && (e.FunctionLiteral? ==> e.token.literal + "(" <= r)
  {
  }

  /** `(left op right)`, with a space on each side of the operator. */
  lemma InfixString(t: Token, left: Expression, op: seq<Byte>, right: Expression)
    requires Printable(left) && Printable(right)
    ensures Printable(InfixExpression(t, left, op, right))
    ensures ExpressionString(InfixExpression(t, left, op, right))
         == "(" + ExpressionString(left) + " " + op + " " + ExpressionString(right) + ")"
  {
  }

  /** `(op right)`, with no space after the operator. */
  lemma PrefixString(t: Token, op: seq<Byte>, right: Expression)
    requires Printable(right)
    ensures Printable(PrefixExpression(t, op, right))
    ensures ExpressionString(PrefixExpression(t, op, right)) == "(" + op + ExpressionString(right) + ")"
  {
  }

  /** `((x o1 y) o2 z)`: a left operand is parenthesised on its own. */
  lemma LeftNestedString(t1: Token, t2: Token, x: Identifier, y: Identifier, z: Identifier)
    ensures var e := InfixExpression(t2, InfixExpression(t1, Id(x), t1.literal, Id(y)), t2.literal, Id(z));
      && Printable(e)
      && ExpressionString(e) == "((" + x.value + " " + t1.literal + " " + y.value + ") " + t2.literal + " " + z.value + ")"
  {
    var inner := InfixExpression(t1, Id(x), t1.literal, Id(y));
    InfixString(t1, Id(x), t1.literal, Id(y));
    InfixString(t2, inner, t2.literal, Id(z));
    assert "((" == "(" + "(" && ") " == ")" + " ";
  }

  /** `((o x) o2 y)`: a prefix expression is parenthesised with no space
      after its operator. */
  lemma PrefixLeftString(t: Token, t2: Token, x: Identifier, y: Identifier)
    ensures var e := InfixExpression(t2, PrefixExpression(t, t.literal, Id(x)), t2.literal, Id(y));
      && Printable(e)
      && ExpressionString(e) == "((" + t.literal + x.value + ") " + t2.literal + " " + y.value + ")"
  {
    var neg := PrefixExpression(t, t.literal, Id(x));
    PrefixString(t, t.literal, Id(x));
    InfixString(t2, neg, t2.literal, Id(y));
    assert "((" == "(" + "(" && ") " == ")" + " ";
  }

  /** `f(a, b)`: arguments are joined by a comma and a space. */
  lemma CallTwoString(t: Token, f: Identifier, a: Identifier, b: Identifier)
    ensures var e := CallExpression(t, Id(f), [Id(a), Id(b)]);
      && Printable(e)
      && ExpressionString(e) == f.value + "(" + a.value + ", " + b.value + ")"
  {
    var args := [Id(a), Id(b)];
    var parts := seq(|args|, i requires 0 <= i < |args| => ExpressionString(args[i]));
    assert parts == [a.value, b.value];
    assert parts[1..] == [b.value];
    assert Join(parts, ", ") == a.value + ", " + b.value;
  }

  /** `fn(x,y) body`: parameters are joined by a comma alone, and a space
      separates the `)` from the body. */
  lemma FunctionTwoString(t: Token, x: Identifier, y: Identifier, body: Block)
    requires BlockPrintable(body)
    ensures var e := FunctionLiteral(t, [x, y], body);
      && Printable(e)
      && ExpressionString(e) == t.literal + "(" + x.value + "," + y.value + ") " + BlockString(body)
  {
    var ps := [x, y];
    var names := seq(|ps|, i requires 0 <= i < |ps| => ps[i].value);
    assert names == [x.value, y.value];
    assert names[1..] == [y.value];
    assert Join(names, ",") == x.value + "," + y.value;
  }

  /** `[a, b]`: array elements are bracketed and joined by a comma and a space. */
  lemma ArrayTwoString(t: Token, a: Identifier, b: Identifier)
    ensures var e := ArrayLiteral(t, [Id(a), Id(b)]);
      && Printable(e)
      && ExpressionString(e) == "[" + a.value + ", " + b.value + "]"
  {
    var es := [Id(a), Id(b)];
    var parts := seq(|es|, i requires 0 <= i < |es| => ExpressionString(es[i]));
    assert parts == [a.value, b.value];
    assert parts[1..] == [b.value];
    assert Join(parts, ", ") == a.value + ", " + b.value;
  }

  /** Empty lists print as nothing between their delimiters. */
  lemma EmptyListsString(t: Token, f: Expression, body: Block)
    requires Printable(f) && BlockPrintable(body)
    ensures Printable(CallExpression(t, f, [])) && ExpressionString(CallExpression(t, f, [])) == ExpressionString(f) + "()"
    ensures Printable(ArrayLiteral(t, [])) && ExpressionString(ArrayLiteral(t, [])) == "[]"
    ensures Printable(FunctionLiteral(t, [], body))
         && ExpressionString(FunctionLiteral(t, [], body)) == t.literal + "() " + BlockString(body)
  {
    EmptyCallString(t, f);
    EmptyArrayString(t);
    EmptyFunctionString(t, body);
  }

  /** A call with no arguments: the callee and `()`. */
  lemma EmptyCallString(t: Token, f: Expression)
    requires Printable(f)
    ensures Printable(CallExpression(t, f, [])) && ExpressionString(CallExpression(t, f, [])) == ExpressionString(f) + "()"
  {
    var none: seq<seq<Byte>> := [];
    assert Join(none, ", ") == [];
  }

  /** An array literal with no elements: `[]`. */
  lemma EmptyArrayString(t: Token)
    ensures Printable(ArrayLiteral(t, [])) && ExpressionString(ArrayLiteral(t, [])) == "[]"
  {
    var none: seq<seq<Byte>> := [];
    assert Join(none, ", ") == [];
  }

  /** A function literal with no parameters: its token's text, `() ` and the body. */
  lemma EmptyFunctionString(t: Token, body: Block)
    requires BlockPrintable(body)
    ensures Printable(FunctionLiteral(t, [], body))
         && ExpressionString(FunctionLiteral(t, [], body)) == t.literal + "() " + BlockString(body)
  {
    var none: seq<seq<Byte>> := [];
    assert Join(none, ",") == [];
  }

  // ---------------------------------------------------------------------
  // Buffers and joins

  /** `x` ends `y`. */
  predicate EndsWith(y: seq<Byte>, x: seq<Byte>) {
    |x| <= |y| && y[|y| - |x|..] == x
  }

  /** What ends `y` ends anything that ends with `y`. */
  lemma EndsWithAppend(a: seq<Byte>, y: seq<Byte>, x: seq<Byte>)
    requires EndsWith(y, x)
    ensures EndsWith(a + y, x)
  {
    assert (a + y)[|a + y| - |x|..] == y[|y| - |x|..];
  }

  /** A buffer starts with the first part written and ends with the last. */
  lemma {:induction false} ConcatEnds(parts: seq<seq<Byte>>)
    requires |parts| >= 1
    ensures parts[0] <= Concat(parts)
    ensures EndsWith(Concat(parts), parts[|parts| - 1])
    decreases |parts|
  {
    if |parts| == 1 {
      assert parts[1..] == [];
    } else {
      ConcatEnds(parts[1..]);
      EndsWithAppend(parts[0], Concat(parts[1..]), parts[|parts| - 1]);
    }
  }

  /** A block's text starts with its first statement's and ends with its
      last statement's: nothing is printed around the statements. */
  lemma BlockStringEnds(b: Block)
    requires BlockPrintable(b) && |b.statements| >= 1
    ensures StatementString(b.statements[0]) <= BlockString(b)
    ensures EndsWith(BlockString(b), StatementString(b.statements[|b.statements| - 1]))
  {
    var parts := seq(|b.statements|, i requires 0 <= i < |b.statements| => StatementString(b.statements[i]));
    ConcatEnds(parts);
  }

  /** A program's text starts with its first statement's and ends with its
      last statement's; an empty program prints as nothing. */
  lemma ProgramStringEnds(p: Program)
    requires forall i | 0 <= i < |p.statements| :: StatementPrintable(p.statements[i])
    ensures |p.statements| == 0 ==> ProgramString(p) == []
    ensures |p.statements| >= 1 ==> StatementString(p.statements[0]) <= ProgramString(p)
    ensures |p.statements| >= 1 ==> EndsWith(ProgramString(p), StatementString(p.statements[|p.statements| - 1]))
  {
    if |p.statements| >= 1 {
      var parts := seq(|p.statements|, i requires 0 <= i < |p.statements| => StatementString(p.statements[i]));
      ConcatEnds(parts);
    }
  }

  /** A program whose first statement is a `let` or a `return` prints its
      token literal first. */
  lemma ProgramTokenLiteralStarts(p: Program)
    requires forall i | 0 <= i < |p.statements| :: StatementPrintable(p.statements[i])
    requires |p.statements| >= 1
    requires p.statements[0].LetStatement? || p.statements[0].ReturnStatement?
    ensures ProgramTokenLiteral(p) <= ProgramString(p)
  {
    ProgramStringEnds(p);
  }

  /** Writing one more part appends it, with nothing in between. */
  lemma {:induction false} ConcatAppend(parts: seq<seq<Byte>>, x: seq<Byte>)
    ensures Concat(parts + [x]) == Concat(parts) + x
    decreases |parts|
  {
    if |parts| == 0 {
      assert [] + [x] == [x];
    } else {
      assert (parts + [x])[1..] == parts[1..] + [x];
      ConcatAppend(parts[1..], x);
    }
  }

  /** Joining one more part adds exactly one separator, before that part. */
  lemma {:induction false} JoinAppend(parts: seq<seq<Byte>>, sep: seq<Byte>, x: seq<Byte>)
    requires |parts| >= 1
    ensures Join(parts + [x], sep) == Join(parts, sep) + sep + x
    decreases |parts|
  {
    if |parts| == 1 {
      assert (parts + [x])[1..] == [x];
    } else {
      assert (parts + [x])[1..] == parts[1..] + [x];
      JoinAppend(parts[1..], sep, x);
    }
  }

  /** A program with one more statement prints as the old program followed
      directly by that statement. */
  lemma ProgramStringAppend(p: Program, s: Statement)
    requires forall i | 0 <= i < |p.statements| :: StatementPrintable(p.statements[i])
    requires StatementPrintable(s)
    ensures var q := Program(p.statements + [s]);
      && (forall i | 0 <= i < |q.statements| :: StatementPrintable(q.statements[i]))
      && ProgramString(q) == ProgramString(p) + StatementString(s)
  {
    var q := Program(p.statements + [s]);
    var before := seq(|p.statements|, i requires 0 <= i < |p.statements| => StatementString(p.statements[i]));
    var after := seq(|q.statements|, i requires 0 <= i < |q.statements| => StatementString(q.statements[i]));
    assert after == before + [StatementString(s)];
    ConcatAppend(before, StatementString(s));
  }

  /** A block with one more statement prints as the old block followed
      directly by that statement. */
  lemma BlockStringAppend(b: Block, s: Statement)
    requires BlockPrintable(b) && StatementPrintable(s)
    ensures var b2 := Block(b.token, b.statements + [s]);
      && BlockPrintable(b2)
      && BlockString(b2) == BlockString(b) + StatementString(s)
  {
    var b2 := Block(b.token, b.statements + [s]);
    var before := seq(|b.statements|, i requires 0 <= i < |b.statements| => StatementString(b.statements[i]));
    var after := seq(|b2.statements|, i requires 0 <= i < |b2.statements| => StatementString(b2.statements[i]));
    assert after == before + [StatementString(s)];
    ConcatAppend(before, StatementString(s));
  }

  /** Appending one statement and then more is appending them together. */
  lemma AppendOne(statements: seq<Statement>, s: Statement, more: seq<Statement>)
    ensures statements + [s] + more == statements + ([s] + more)
  {
  }

  // ---------------------------------------------------------------------
  // Statements

  // ---------------------------------------------------------------------
  // Operator expressions are fully parenthesised

  /** Identifiers, literals, and prefix, infix and index operators over them. */
  predicate OperatorFragment(e: Expression) {
    match e
    case Id(_) => true
    case IntegerLiteral(_, _) => true
    case Boolean(_, _) => true
    case PrefixExpression(_, _, right) => OperatorFragment(right)
    case InfixExpression(_, left, _, right) => OperatorFragment(left) && OperatorFragment(right)
    case IndexExpression(_, left, index) => OperatorFragment(left) && OperatorFragment(index)
    case _ => false
  }

  /** No leaf or operator text holds a parenthesis, as for every token the
      lexer makes for these nodes. */
  predicate ParenFree(e: Expression)
    requires OperatorFragment(e)
  {
    match e
    case Id(ident) => Count(ident.value, '(') == 0 && Count(ident.value, ')') == 0
    case IntegerLiteral(token, _) => Count(token.literal, '(') == 0 && Count(token.literal, ')') == 0
    case Boolean(token, _) => Count(token.literal, '(') == 0 && Count(token.literal, ')') == 0
    case PrefixExpression(_, op, right) => Count(op, '(') == 0 && Count(op, ')') == 0 && ParenFree(right)
    case InfixExpression(_, left, op, right) =>
      Count(op, '(') == 0 && Count(op, ')') == 0 && ParenFree(left) && ParenFree(right)
    case IndexExpression(_, left, index) => ParenFree(left) && ParenFree(index)
  }

  /** How many operators an expression applies. */
  function Operators(e: Expression): nat
    requires OperatorFragment(e)
  {
    match e
    case PrefixExpression(_, _, right) => 1 + Operators(right)
    case InfixExpression(_, left, _, right) => 1 + Operators(left) + Operators(right)
    case IndexExpression(_, left, index) => 1 + Operators(left) + Operators(index)
    case _ => 0
  }

  /** How often b occurs in s. */
  function Count(s: seq<Byte>, b: Byte): nat {
    if |s| == 0 then 0 else (if s[0] == b then 1 else 0) + Count(s[1..], b)
  }

  lemma {:induction false} CountConcat(s: seq<Byte>, t: seq<Byte>, b: Byte)
    ensures Count(s + t, b) == Count(s, b) + Count(t, b)
    decreases |s|
  {
    if |s| == 0 {
      assert s + t == t;
    } else {
      assert (s + t)[1..] == s[1..] + t;
      CountConcat(s[1..], t, b);
    }
  }

  /** Every operator, indexing included, prints exactly one pair of
      parentheses, so the printed text has as many `(` as `)` and as many
      of each as operators. */
  lemma {:induction false} OneParenPairPerOperator(e: Expression)
    requires OperatorFragment(e) && ParenFree(e)
    ensures Printable(e)
    ensures Count(ExpressionString(e), '(') == Operators(e)
    ensures Count(ExpressionString(e), ')') == Operators(e)
  {
    match e
    case Id(_) =>
    case IntegerLiteral(_, _) =>
    case Boolean(_, _) =>
    case PrefixExpression(_, op, right) =>
      OneParenPairPerOperator(right);
      PrefixCount(op, ExpressionString(right), '(');
      PrefixCount(op, ExpressionString(right), ')');
    case InfixExpression(_, left, op, right) =>
      OneParenPairPerOperator(left);
      OneParenPairPerOperator(right);
      InfixCount(ExpressionString(left), op, ExpressionString(right), '(');
      InfixCount(ExpressionString(left), op, ExpressionString(right), ')');
    case IndexExpression(_, left, index) =>
      OneParenPairPerOperator(left);
      OneParenPairPerOperator(index);
      IndexCount(ExpressionString(left), ExpressionString(index), '(');
      IndexCount(ExpressionString(left), ExpressionString(index), ')');
  }

  /** Occurrences in the text of a prefix operator. */
  lemma PrefixCount(op: seq<Byte>, r: seq<Byte>, b: Byte)
    ensures Count("(" + op + r + ")", b) == Count("(", b) + Count(op, b) + Count(r, b) + Count(")", b)
  {
    CountConcat("(", op, b);
    CountConcat("(" + op, r, b);
    CountConcat("(" + op + r, ")", b);
  }

  /** Occurrences in the text of an infix operator. */
  lemma InfixCount(l: seq<Byte>, op: seq<Byte>, r: seq<Byte>, b: Byte)
    ensures Count("(" + l + " " + op + " " + r + ")", b)
         == Count("(", b) + Count(l, b) + 2 * Count(" ", b) + Count(op, b) + Count(r, b) + Count(")", b)
  {
    CountConcat("(", l, b);
    CountConcat("(" + l, " ", b);
    CountConcat("(" + l + " ", op, b);
    CountConcat("(" + l + " " + op, " ", b);
    CountConcat("(" + l + " " + op + " ", r, b);
    CountConcat("(" + l + " " + op + " " + r, ")", b);
  }

  /** Occurrences in the text of an index expression. */
  lemma IndexCount(l: seq<Byte>, x: seq<Byte>, b: Byte)
    ensures Count("(" + l + "[" + x + "])", b) == Count("(", b) + Count(l, b) + Count("[", b) + Count(x, b) + Count("])", b)
  {
    CountConcat("(", l, b);
    CountConcat("(" + l, "[", b);
    CountConcat("(" + l + "[", x, b);
    CountConcat("(" + l + "[" + x, "])", b);
  }
}
