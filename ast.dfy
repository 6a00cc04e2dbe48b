/**
 * The syntax tree (package ast) and its canonical printer: String() and
 * TokenLiteral() of every node.
 *
 * A nil ast.Expression is the constructor `Nil`. String() dereferences the
 * children it prints, so in the source it panics on a nil child where it
 * does not test for one; here that is the precondition `Printable`.
 */
module Ast {
  import opened Wrappers
  import opened Tokens

  datatype Identifier = Identifier(token: Token, value: seq<Byte>)

  datatype Expression =
    | Nil
    | Id(ident: Identifier)
    | IntegerLiteral(token: Token, intValue: int)
    | StringLiteral(token: Token, strValue: seq<Byte>)
    | Boolean(token: Token, boolValue: bool)
    | PrefixExpression(token: Token, operator: seq<Byte>, right: Expression)
    | InfixExpression(token: Token, left: Expression, operator: seq<Byte>, right: Expression)
    | IfExpression(token: Token, condition: Expression, consequence: Block, alternative: Option<Block>)
    | FunctionLiteral(token: Token, parameters: seq<Identifier>, body: Block)
    | CallExpression(token: Token, callee: Expression, arguments: seq<Expression>)
    | ArrayLiteral(token: Token, elements: seq<Expression>)
    | IndexExpression(token: Token, left: Expression, index: Expression)

  datatype Block = Block(token: Token, statements: seq<Statement>)

  datatype Statement =
    | LetStatement(token: Token, name: Identifier, value: Expression)
    | ReturnStatement(token: Token, returnValue: Expression)
    | ExpressionStatement(token: Token, expression: Expression)
    | BlockStatement(block: Block)

  datatype Program = Program(statements: seq<Statement>)

  /** String() can be called without dereferencing a nil child. */
  predicate Printable(e: Expression)
    decreases e, 1
  {
    match e
    case Nil => false
    case Id(_) => true
    case IntegerLiteral(_, _) => true
    case StringLiteral(_, _) => true
    case Boolean(_, _) => true
    case PrefixExpression(_, _, right) => Printable(right)
    case InfixExpression(_, left, _, right) => Printable(left) && Printable(right)
    case IfExpression(_, condition, consequence, alternative) =>
      && Printable(condition)
      && BlockPrintable(consequence)
      && (alternative.Some? ==> BlockPrintable(alternative.value))
    case FunctionLiteral(_, _, body) => BlockPrintable(body)
    case CallExpression(_, callee, arguments) =>
      Printable(callee) && forall i | 0 <= i < |arguments| :: Printable(arguments[i])
    case ArrayLiteral(_, elements) => forall i | 0 <= i < |elements| :: Printable(elements[i])
    case IndexExpression(_, left, index) => Printable(left) && Printable(index)
  }

  /** Statements print a nil expression as nothing, so only what lies below
      a present expression must be printable. */
  predicate StatementPrintable(s: Statement)
    decreases s, 1
  {
    match s
    case LetStatement(_, _, value) => value == Nil || Printable(value)
    case ReturnStatement(_, value) => value == Nil || Printable(value)
    case ExpressionStatement(_, expression) => expression == Nil || Printable(expression)
    case BlockStatement(block) => BlockPrintable(block)
  }

  predicate BlockPrintable(b: Block)
    decreases b, 0
  {
    forall i | 0 <= i < |b.statements| :: StatementPrintable(b.statements[i])
  }

  /** The total length of the parts. */
  function TotalLength(parts: seq<seq<Byte>>): nat {
    if |parts| == 0 then 0 else |parts[0]| + TotalLength(parts[1..])
  }

  /** strings.Join: the parts in order with one separator between each two
      of them, so n parts hold n - 1 separators. */
  function Join(parts: seq<seq<Byte>>, sep: seq<Byte>): (r: seq<Byte>)
    decreases |parts|
    ensures |parts| >= 1 ==> |r| == TotalLength(parts) + (|parts| - 1) * |sep|
  {
    if |parts| == 0 then []
    else if |parts| == 1 then parts[0]
    else parts[0] + sep + Join(parts[1..], sep)
  }

  /** Writing the parts one after another into a bytes.Buffer: the buffer
      holds exactly the bytes written. */
  function Concat(parts: seq<seq<Byte>>): (r: seq<Byte>)
    decreases |parts|
    ensures |r| == TotalLength(parts)
  {
    if |parts| == 0 then [] else parts[0] + Concat(parts[1..])
  }

  function ExpressionString(e: Expression): seq<Byte>
    requires Printable(e)
    decreases e, 1
  {
    match e
    case Id(ident) => ident.value
    case IntegerLiteral(token, _) => token.literal
    case StringLiteral(token, _) => token.literal
    case Boolean(token, _) => token.literal
    case PrefixExpression(_, operator, right) =>
      "(" + operator + ExpressionString(right) + ")"
    case InfixExpression(_, left, operator, right) =>
      "(" + ExpressionString(left) + " " + operator + " " + ExpressionString(right) + ")"
    case IfExpression(_, condition, consequence, alternative) =>
      "if" + ExpressionString(condition) + " " + BlockString(consequence)
      + (if alternative.Some? then "else" + BlockString(alternative.value) else [])
    case FunctionLiteral(token, parameters, body) =>
      token.literal + "(" + Join(Names(parameters), ",") + ") " + BlockString(body)
    case CallExpression(_, callee, arguments) =>
      ExpressionString(callee) + "(" + Join(Texts(arguments), ", ") + ")"
    case ArrayLiteral(_, elements) =>
      "[" + Join(Texts(elements), ", ") + "]"
    case IndexExpression(_, left, index) =>
      "(" + ExpressionString(left) + "[" + ExpressionString(index) + "])"
  }

  /** The texts of a list of expressions, in order. */
  function Texts(es: seq<Expression>): (r: seq<seq<Byte>>)
    requires forall i | 0 <= i < |es| :: Printable(es[i])
    decreases es, 0
    ensures |r| == |es|
  {
    seq(|es|, i requires 0 <= i < |es| => ExpressionString(es[i]))
  }

  /** The names of a list of parameters, in order. */
  function Names(ps: seq<Identifier>): (r: seq<seq<Byte>>)
    ensures |r| == |ps| && forall i | 0 <= i < |ps| :: r[i] == ps[i].value
  {
    seq(|ps|, i requires 0 <= i < |ps| => ps[i].value)
  }

  /** String() of a statement: a `let` or `return` starts with its keyword
      and a space and ends with `;`; an expression statement adds nothing
      to its expression. */
  function StatementString(s: Statement): (r: seq<Byte>)
    requires StatementPrintable(s)
    decreases s, 1
    ensures s.LetStatement? ==> s.token.literal + " " + s.name.value + " = " <= r && r[|r| - 1] == ';'
    ensures s.ReturnStatement? ==> s.token.literal + " " <= r && r[|r| - 1] == ';'
    ensures s.ExpressionStatement? && s.expression != Nil ==> r == ExpressionString(s.expression)
  {
    match s
    case LetStatement(token, name, value) =>
      token.literal + " " + name.value + " = "
      + (if value == Nil then [] else ExpressionString(value)) + ";"
    case ReturnStatement(token, value) =>
      token.literal + " " + (if value == Nil then [] else ExpressionString(value)) + ";"
    case ExpressionStatement(_, expression) =>
      if expression == Nil then [] else ExpressionString(expression)
    case BlockStatement(block) => BlockString(block)
  }

  function BlockString(b: Block): seq<Byte>
    requires BlockPrintable(b)
    decreases b, 0
  {
    var parts := seq(|b.statements|, i requires 0 <= i < |b.statements| => StatementString(b.statements[i]));
    Concat(parts)
  }

  function ProgramString(p: Program): seq<Byte>
    requires forall i | 0 <= i < |p.statements| :: StatementPrintable(p.statements[i])
  {
    var parts := seq(|p.statements|, i requires 0 <= i < |p.statements| => StatementString(p.statements[i]));
    Concat(parts)
  }

  /** TokenLiteral(): for a literal, and for an identifier named by its own
      token, it is the text String() prints; a function literal's text
      starts with it. */
  function ExpressionTokenLiteral(e: Expression): (r: seq<Byte>)
    requires e != Nil
    ensures e.IntegerLiteral? || e.Boolean? || e.StringLiteral? ==> r == ExpressionString(e)
    ensures e.Id? && e.ident.value == e.ident.token.literal ==> r == ExpressionString(e)
    ensures e.FunctionLiteral? && Printable(e) ==> r <= ExpressionString(e)
  {
    match e
    case Id(ident) => ident.token.literal
    case IntegerLiteral(token, _) => token.literal
    case StringLiteral(token, _) => token.literal
    case Boolean(token, _) => token.literal
    case PrefixExpression(token, _, _) => token.literal
    case InfixExpression(token, _, _, _) => token.literal
    case IfExpression(token, _, _, _) => token.literal
    case FunctionLiteral(token, _, _) => token.literal
    case CallExpression(token, _, _) => token.literal
    case ArrayLiteral(token, _) => token.literal
    case IndexExpression(token, _, _) => token.literal
  }

  /** TokenLiteral() of a statement: a `let` or `return` prints it first. */
  function StatementTokenLiteral(s: Statement): (r: seq<Byte>)
    ensures (s.LetStatement? || s.ReturnStatement?) && StatementPrintable(s) ==> r <= StatementString(s)
  {
    match s
    case LetStatement(token, _, _) => token.literal
    case ReturnStatement(token, _) => token.literal
    case ExpressionStatement(token, _) => token.literal
    case BlockStatement(block) => block.token.literal
  }

  function ProgramTokenLiteral(p: Program): seq<Byte> {
    if |p.statements| > 0 then StatementTokenLiteral(p.statements[0]) else []
  }
}
