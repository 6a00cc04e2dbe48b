# Front end of a small interpreter: lexer, Pratt parser and syntax tree

This project models the three front-end packages of a tree-walking interpreter
written in Go:

- **the lexer** (`lexer`). It is a byte cursor (`position`, `readPosition`,
  `character`) over the input string. It skips blanks and hands out one token
  per `NextToken` call:
  - single-byte operators and delimiters;
  - `==` and `!=`;
  - maximal runs of letters (keywords or identifiers) and of digits;
  - quoted strings;
  - `ILLEGAL` for any other byte;
  - `EOF` with an empty literal, forever, once the input is exhausted.
- **the parser** (`parser`). It is a two-token-lookahead Pratt parser with a
  current token, a peek token and an append-only list of error messages. It
  parses `let`, `return` and expression statements. Expressions go through
  precedence climbing over seven binding powers (LOWEST < EQUALS <
  LESSGREATER < SUM < PRODUCT < PREFIX < CALL). It also parses grouped
  expressions, `if`, function literals, calls, and parameter and argument
  lists.
- **the syntax tree** (`ast`). It is a closed tree of statements and
  expressions. Every node has `String()`, a canonical text in which every
  operator is fully parenthesised, and `TokenLiteral()`.

Files:

| file | module | contents |
|---|---|---|
| `wrappers.dfy` | `Wrappers` | `Option` |
| `tokens.dfy` | `Tokens` | bytes, token kinds, tokens, the EOF-padded stream `TokenAt`, keyword lookup, Go's `string(byte)` |
| `lexer.dfy` | `Lexing` | `Scan`: one `NextToken` call as a function of the cursor; lemmas about it; `Tokenize`; the class `Lexer`, whose methods are proved to follow `Scan` |
| `ast.dfy` | `Ast` | the node datatypes, `String()` and `TokenLiteral()` |
| `ast_properties.dfy` | `AstProperties` | what the printer promises |
| `pratt.dfy` | `Pratt` | the parser as functions of a `Cursor` (index of the current token and errors so far) |
| `parser.dfy` | `Parsing` | the class `Parser`, whose methods are proved to return what the `Pratt` function of the same name returns and to leave the parser on its cursor |
| `parser_properties.dfy` | `ParserProperties` | error discipline, precedence, associativity, list shapes, program loop |
| `parse_print.dfy` | `ParsePrint` | what the printer gives for the trees the parser builds |
| `lex_parse.dfy` | `LexParse` | the lexer and the parser together on the input of the parser's let-statement test |
| `findings.dfy` | `Findings` | four behaviours of the parser as written, next to the corrected behaviour the model uses |

Modelling choices:

- A Go byte is a `char` below 256 (`Tokens.Byte`), so byte strings read as text.
- Keywords come from the token package's table, which is not part of this
  model. The lexer takes that table as the parameter `keywords` and uses it to
  look up words (`Tokens.LookupIdent`). Most of the parser's examples
  therefore start from token sequences. `LexParse` runs the lexer and the
  parser together on the let-statement test's input, for every keyword table
  that maps `let` to LET and has no entry for x, y or foobar.
- The parser's token source is the sequence `Lexing.Tokenize(input)`. Past
  its end it reads as EOF forever (`Tokens.TokenAt`). `Lexing.StreamAt`
  proves that the n-th token of that stream is the lexer's n-th token for
  every n. The class `Parser` pulls its tokens from a real `Lexer` object.
- A nil `ast.Expression` is the constructor `Ast.Expression.Nil`. A `let`
  that fails is `None`.
- The prefix and infix function maps are a dispatch on the token kind
  (`Pratt.HasPrefixParseFn`, `Pratt.HasInfixParseFn`).
- `strconv.ParseInt(lit, 0, 64)` is `Pratt.ParseInt64`. A leading `0` means
  octal, so `010` is 8 and `09` is rejected. Values above the int64 maximum
  are rejected. Only digit strings are accepted, because the lexer makes no
  other INT literal. Signs, `0x`/`0b`/`0o` prefixes and `_` separators are
  rejected here; Go would accept some of them.
- The error messages are the datatype `Pratt.ParseError`. Their text
  embeds the token package's type names, which are not part of this model.
- The `let`/`return` skip to `;` also stops at EOF; see Findings.

## Model

| member | source | states |
|---|---|---|
| `Tokens.RuneString` | lexer/lexer.go:109-114 | Go's `string(b)`: the byte itself below 0x80, otherwise a two-byte UTF-8 sequence whose payload decodes back to the byte |
| `Tokens.LookupIdent` | lexer/lexer.go:93-96 | the kind is IDENT or a keyword kind, and it is a keyword kind exactly when the word is in the keyword table |
| `Lexing.IsLetter` | lexer/lexer.go:135-138 | a letter is an ASCII byte that is neither a digit nor a blank, so a word never starts a number or a blank run |
| `Lexing.IsDigit` | lexer/lexer.go:154-156 | a digit is an ASCII byte that is not a blank |
| `Lexing.IsBlank` | lexer/lexer.go:140-144 | a blank is an ASCII byte other than NUL, the byte that stands for the end of the input |
| `Lexing.SingleByteKind` | lexer/lexer.go:35-88 | a byte that is a token on its own gets a delimiter or single-byte operator kind; no such byte is a letter, a digit, a blank, `!`, `=`, `"` or NUL |
| `Lexing.NewToken` | lexer/lexer.go:109-114 | newToken: a token of the given kind whose literal is one or two bytes, the byte itself when it is ASCII |
| `Lexing.RunEnd` | lexer/lexer.go:116-122 | the end of the maximal run of a byte class: every byte before it is in the class, the byte at it is not |
| `Lexing.StringEnd` | lexer/lexer.go:124-133 | the first `"` or NUL at or after the start, with none before it |
| `Lexing.Run` | lexer/lexer.go:116-122 | readIdentifier / readNumber: the literal is `input[start:end]` of a maximal run, the end stays unconsumed and lies within the input |
| `Lexing.QuotedText` | lexer/lexer.go:124-133 | readString: the text strictly between the opening quote and the next quote (or the end), which is where the cursor stops |
| `Lexing.TokenStart` | lexer/lexer.go:140-144 | skipWhiteSpaces: every byte skipped is a space, tab, LF or CR, and the byte reached is not one |
| `Lexing.Scan` | lexer/lexer.go:30-107 | one NextToken call: it always moves past the blanks and at least one more position, and at or past the end it is EOF with an empty literal, forever |
| `Lexing.ScanEnd` | lexer/lexer.go:89-91 | the token is EOF exactly when the byte after the blanks is NUL (the end of the input included), and EOF has an empty literal |
| `Lexing.ScanOperators` | lexer/lexer.go:40-61 | the token is EQ exactly when `=` is followed by `=`, NOT_EQ exactly when `!` is; a lone `=` is ASSIGN and a lone `!` is BANG; the cursor moves two bytes past a pair and one past a lone byte |
| `Lexing.ScanDelimiters` | lexer/lexer.go:35-88 | a token has a delimiter or single-byte operator kind exactly when the byte after the blanks has one; the token is that byte alone, and the cursor moves one past it |
| `Lexing.ScanLiteralIsInput` | lexer/lexer.go:30-133 | apart from EOF, strings and bytes above 0x7F, a token's literal is exactly the stretch of input it was read from; a string's literal is the input between its quotes |
| `Lexing.ScanUnquotedIsInput` | lexer/lexer.go:30-133 | apart from EOF, strings and bytes above 0x7F, a token's literal is exactly the stretch of input it was read from |
| `Lexing.ScanQuotedIsInput` | lexer/lexer.go:30-133 | a string's literal is the input between its quotes |
| `Lexing.ScanRuns` | lexer/lexer.go:93-100 | a letter starts a maximal word whose kind comes from the keyword table; a token is INT exactly when a digit starts it, and it is the maximal digit run |
| `Lexing.ScanStrings` | lexer/lexer.go:82-84 | a token is STRING exactly when a quote starts it; its literal is the quoted text and the closing quote is consumed |
| `Lexing.ScanIllegal` | lexer/lexer.go:101-105 | a token is ILLEGAL exactly when the byte after the blanks starts no other token; it consumes that byte alone, and its literal is Go's `string(byte)` of it |
| `Lexing.PositionAfter` | lexer/lexer.go:30-107 | the cursor after n NextToken calls has moved at least n positions |
| `Lexing.PositionAfterStep` | lexer/lexer.go:30-107 | one more call continues from where n calls ended |
| `Lexing.TokensFrom` | lexer/lexer.go:30-107 | the tokens of `count` successive calls, one per call |
| `Lexing.Tokenize` | lexer/lexer.go:30-107 | the first `len(input) + 1` tokens of a fresh lexer |
| `Lexing.TokensFromLexes` | lexer/lexer.go:30-107 | those tokens are the successive results of NextToken |
| `Lexing.LexesAt` | lexer/lexer.go:30-107 | the n-th of those tokens is the result of the (n+1)-th call |
| `Lexing.StreamAt` | lexer/lexer.go:89-91 | read with EOF after its end, such a token list gives the lexer's n-th token for every n, past the end included |
| `Lexing.TokenizeIsTheStream` | lexer/lexer.go:14-18 | `Tokenize` is such a list for a fresh lexer |
| `Lexing.Lexer.constructor` | lexer/lexer.go:14-18 | New: the cursor is on the first byte, `readPosition == position + 1` |
| `Lexing.Lexer.ReadChar` | lexer/lexer.go:20-28 | `position` takes the old `readPosition`, `readPosition` is one past it, `character` is the byte there or NUL past the end |
| `Lexing.Lexer.PeekChar` | lexer/lexer.go:158-164 | the byte after the current one, or NUL past the end; nothing changes |
| `Lexing.Lexer.SkipWhiteSpaces` | lexer/lexer.go:140-144 | leaves the cursor on `TokenStart` of where it started |
| `Lexing.Lexer.ReadIdentifier` | lexer/lexer.go:116-122 | returns the maximal letter run and leaves the cursor on the byte after it (`Run`) |
| `Lexing.Lexer.ReadNumber` | lexer/lexer.go:146-152 | returns the maximal digit run and leaves the cursor on the byte after it |
| `Lexing.Lexer.ReadString` | lexer/lexer.go:124-133 | returns the quoted text and leaves the cursor on the closing quote or the end (`QuotedText`) |
| `Lexing.Lexer.NextToken` | lexer/lexer.go:30-107 | returns the token `Scan` gives for the old position and leaves the cursor where `Scan` says |
| `Ast.Join` | ast/ast.go:269-311 | `strings.Join`: joining n ≥ 1 parts gives the length of the parts plus n − 1 separators |
| `Ast.Concat` | ast/ast.go:36-44 | the `bytes.Buffer` is as long as the parts written to it together |
| `Ast.StatementString` | ast/ast.go:59-130 | a let prints starting with its keyword, a space, its name and ` = `, and ends with `;`; a return prints starting with its keyword and a space and ends with `;`; an expression statement prints its expression's text with nothing added |
| `Ast.ExpressionTokenLiteral` | ast/ast.go:84-323 | for integer, boolean and string literals and a plain identifier the token literal is the whole printed text; for a function literal it is the start of it |
| `Ast.StatementTokenLiteral` | ast/ast.go:59-112 | the token literal of a let or return is the start of its printed text |
| `AstProperties.ExpressionStringDelimiters` | ast/ast.go:159-368 | prefix, infix and index expressions print enclosed in `(` `)`, an array in `[` `]`; a call prints its callee, then `(`, and ends with `)`; an `if` starts with `if`; a function literal starts with its keyword and `(` |
| `AstProperties.ConcatEnds` | ast/ast.go:36-44 | the buffer starts with the first part written and ends with the last |
| `AstProperties.BlockStringEnds` | ast/ast.go:248-255 | a block prints starting with its first statement's text and ending with its last statement's text |
| `AstProperties.ProgramStringEnds` | ast/ast.go:36-44 | an empty program prints as nothing; otherwise it starts with its first statement's text and ends with its last statement's text |
| `AstProperties.ProgramTokenLiteralStarts` | ast/ast.go:28-44 | when the first statement is a let or return, the program's token literal is the start of its printed text |
| `AstProperties.LeftNestedString` | ast/ast.go:183-193 | a left-nested pair of operators prints as `((x o1 y) o2 z)` |
| `AstProperties.PrefixLeftString` | ast/ast.go:159-193 | a prefix expression as a left operand prints as `((-x) o y)` |
| `AstProperties.CallTwoString` | ast/ast.go:296-311 | call arguments are joined with `", "`: `f(a, b)` |
| `AstProperties.FunctionTwoString` | ast/ast.go:269-284 | function parameters are joined with `","` alone, and `") "` comes before the body: `fn(x,y) body` |
| `AstProperties.ArrayTwoString` | ast/ast.go:334-347 | array elements are wrapped in `[` `]` and joined with `", "` |
| `AstProperties.EmptyListsString` | ast/ast.go:269-347 | an empty argument, element or parameter list prints as nothing between its delimiters |
| `AstProperties.EmptyCallString` | ast/ast.go:269-347 | a call with no arguments prints as its function followed by `()` |
| `AstProperties.EmptyArrayString` | ast/ast.go:269-347 | an array literal with no elements prints as `[]` |
| `AstProperties.EmptyFunctionString` | ast/ast.go:269-347 | a function literal with no parameters prints as its token literal, `() ` and its body |
| `AstProperties.ConcatAppend` | ast/ast.go:36-44 | writing one more part to the buffer appends it with no separator |
| `AstProperties.JoinAppend` | ast/ast.go:269-311 | joining one more part adds exactly one separator, before it |
| `AstProperties.ProgramStringAppend` | ast/ast.go:36-44 | a program with one more statement prints as the old program followed directly by that statement |
| `AstProperties.BlockStringAppend` | ast/ast.go:248-255 | the same for a block statement |
| `AstProperties.CountConcat` | ast/ast.go:159-193 | counting a byte in a concatenation adds the counts |
| `AstProperties.OneParenPairPerOperator` | ast/ast.go:159-193 | over identifiers, literals, prefix and infix operators and indexing, the printed text has exactly one `(` and one `)` per operator |
| `AstProperties.PrefixCount` | ast/ast.go:159-168 | a byte occurs in the printed `(op right)` as often as in its four parts together |
| `AstProperties.InfixCount` | ast/ast.go:183-193 | a byte occurs in the printed `(left op right)` as often as in its parts together, the two spaces included |
| `AstProperties.IndexCount` | ast/ast.go:358-368 | a byte occurs in the printed `(left[index])` as often as in its parts together |
| `Pratt.Precedence` | parser/parser.go:22-32 | the precedences table: a kind gets more than LOWEST exactly when it has an infix function, and only `(` gets CALL |
| `Pratt.ParseInt64` | parser/parser.go:220 | an accepted literal is a non-empty digit string whose value fits an int64, read in octal after a leading `0` |
| `Pratt.DecimalString` | parser/parser.go:220 | the decimal spelling of a number: non-empty digits with no leading zero |
| `Pratt.DecimalValue` | parser/parser.go:220 | a decimal spelling reads back as its number |
| `Pratt.ParseInt64OfDecimal` | parser/parser.go:220 | ParseInt accepts a decimal spelling exactly when it fits an int64, and returns the number |
| `Pratt.ExpectPeek` | parser/parser.go:272-280 | advances exactly one token iff the peek token has the kind, and then stands on it; otherwise adds exactly one "next token should be" error and stays |
| `Pratt.ParseExpression` | parser/parser.go:195-215 | parseExpression never moves the cursor back; what it computes is stated by the lemmas below |
| `Pratt.ParsePrefix` | parser/parser.go:196-201 | the prefix dispatch never moves the cursor back |
| `Pratt.InfixLoop` | parser/parser.go:203-214 | the infix loop never moves the cursor back |
| `Pratt.ParseInfix` | parser/parser.go:204-211 | the infix dispatch never moves the cursor back |
| `Pratt.ParseIntegerLiteral` | parser/parser.go:217-229 | parseIntegerLiteral stays on its token |
| `Pratt.ParsePrefixExpression` | parser/parser.go:238-249 | parsePrefixExpression never moves the cursor back |
| `Pratt.ParseInfixExpression` | parser/parser.go:251-262 | parseInfixExpression never moves the cursor back |
| `Pratt.ParseGroupedExpression` | parser/parser.go:282-292 | parseGroupedExpression never moves the cursor back |
| `Pratt.ParseIfExpression` | parser/parser.go:294-325 | parserIfExpression never moves the cursor back |
| `Pratt.ParseBlock` | parser/parser.go:327-341 | parseBlockStatement never moves the cursor back |
| `Pratt.BlockLoop` | parser/parser.go:333-339 | its loop never moves the cursor back |
| `Pratt.ParseFunctionLiteral` | parser/parser.go:343-358 | parseFunctionLiteral never moves the cursor back |
| `Pratt.ParseFunctionParameters` | parser/parser.go:360-391 | parseFunctionParameters never moves the cursor back |
| `Pratt.ParametersLoop` | parser/parser.go:376-384 | its loop never moves the cursor back |
| `Pratt.ParseCallExpression` | parser/parser.go:393-398 | parseCallExpression never moves the cursor back |
| `Pratt.ParseCallArguments` | parser/parser.go:400-422 | parseCallArguments never moves the cursor back |
| `Pratt.ArgumentsLoop` | parser/parser.go:411-415 | its loop never moves the cursor back |
| `Pratt.ParseStatement` | parser/parser.go:132-141 | parseStatement never moves the cursor back |
| `Pratt.ParseLetStatement` | parser/parser.go:143-167 | parseLetStatement never moves the cursor back |
| `Pratt.ParseReturnStatement` | parser/parser.go:169-181 | parserReturnStatement never moves the cursor back |
| `Pratt.ParseExpressionStatement` | parser/parser.go:183-193 | parseExpressionStatement never moves the cursor back |
| `Pratt.SkipToSemicolon` | parser/parser.go:162-164 | the skip reports no error and never moves the cursor back |
| `Pratt.ProgramLoop` | parser/parser.go:121-128 | the loop of ParseProgram never moves the cursor back |
| `Parsing.Parser.constructor` | parser/parser.go:51-84 | New primes the tokens with two NextToken calls: the current token is the stream's first, the peek token its second, with no errors |
| `Parsing.Parser.NextToken` | parser/parser.go:112-115 | shifts the window: the new current token is the old peek token, the new peek token is the lexer's next token, and the errors do not change |
| `Parsing.Parser.Errors` | parser/parser.go:98-100 | the error list of the parser's cursor |
| `Parsing.Parser.NoPrefixFnError` | parser/parser.go:102-105 | appends exactly one "no prefix parse function" error; the tokens do not move |
| `Parsing.Parser.PeekError` | parser/parser.go:107-110 | appends exactly one "next token should be" error naming the peek token's kind; the tokens do not move |
| `Parsing.Parser.CurrTokenIs` | parser/parser.go:264-266 | the kind test on the token at the cursor |
| `Parsing.Parser.PeekTokenIs` | parser/parser.go:268-270 | the kind test on the token after the cursor |
| `Parsing.Parser.PeekPrecedence` | parser/parser.go:424-429 | the table's precedence of the peek token, LOWEST when absent |
| `Parsing.Parser.CurrPrecedence` | parser/parser.go:431-436 | the table's precedence of the current token, LOWEST when absent |
| `Parsing.Parser.ExpectPeek` | parser/parser.go:272-280 | advances iff the old peek token has the kind, and then the current token is that old peek token; otherwise one error and no move (`Pratt.ExpectPeek`) |
| `Parsing.Parser.ParseProgram` | parser/parser.go:117-130 | returns the statements of `Pratt.ProgramLoop` and leaves the parser on its cursor |
| `Parsing.Parser.ParseStatement` | parser/parser.go:132-141 | returns `Pratt.ParseStatement`'s statement and cursor |
| `Parsing.Parser.ParseLetStatement` | parser/parser.go:143-167 | returns `Pratt.ParseLetStatement`'s statement and cursor |
| `Parsing.Parser.ParseReturnStatement` | parser/parser.go:169-181 | returns `Pratt.ParseReturnStatement`'s statement and cursor |
| `Parsing.Parser.SkipToSemicolon` | parser/parser.go:162-164 | leaves the parser on `Pratt.SkipToSemicolon`'s cursor |
| `Parsing.Parser.ParseExpressionStatement` | parser/parser.go:183-193 | returns `Pratt.ParseExpressionStatement`'s statement and cursor |
| `Parsing.Parser.ParseExpression` | parser/parser.go:195-215 | returns `Pratt.ParseExpression`'s expression and cursor |
| `Parsing.Parser.InfixLoop` | parser/parser.go:203-214 | returns `Pratt.InfixLoop`'s expression and cursor |
| `Parsing.Parser.ParseInfix` | parser/parser.go:204-211 | returns `Pratt.ParseInfix`'s expression and cursor |
| `Parsing.Parser.ParsePrefix` | parser/parser.go:196-201 | returns `Pratt.ParsePrefix`'s expression and cursor |
| `Parsing.Parser.ParseIdentifier` | parser/parser.go:94-96 | the current token as an identifier, without moving (`Pratt.ParsePrefix` on IDENT) |
| `Parsing.Parser.ParseBoolean` | parser/parser.go:231-236 | a boolean that is true exactly for TRUE, without moving |
| `Parsing.Parser.ParseIntegerLiteral` | parser/parser.go:217-229 | returns `Pratt.ParseIntegerLiteral`'s expression and cursor |
| `Parsing.Parser.ParsePrefixExpression` | parser/parser.go:238-249 | returns `Pratt.ParsePrefixExpression`'s expression and cursor |
| `Parsing.Parser.ParseInfixExpression` | parser/parser.go:251-262 | returns `Pratt.ParseInfixExpression`'s expression and cursor |
| `Parsing.Parser.ParseGroupedExpression` | parser/parser.go:282-292 | returns `Pratt.ParseGroupedExpression`'s expression and cursor |
| `Parsing.Parser.ParseIfExpression` | parser/parser.go:294-325 | returns `Pratt.ParseIfExpression`'s expression and cursor |
| `Parsing.Parser.ParseBlockStatement` | parser/parser.go:327-341 | returns `Pratt.ParseBlock`'s block and cursor |
| `Parsing.Parser.ParseFunctionLiteral` | parser/parser.go:343-358 | returns `Pratt.ParseFunctionLiteral`'s expression and cursor |
| `Parsing.Parser.ParseFunctionParameters` | parser/parser.go:360-391 | returns `Pratt.ParseFunctionParameters`'s list and cursor |
| `Parsing.Parser.ParseCallExpression` | parser/parser.go:393-398 | returns `Pratt.ParseCallExpression`'s expression and cursor |
| `Parsing.Parser.ParseCallArguments` | parser/parser.go:400-422 | returns `Pratt.ParseCallArguments`'s list and cursor |
| `ParserProperties.ParseExpressionAppends` | parser/parser.go:195-215 | the error list is append-only: parseExpression keeps every earlier error, in order, and never moves back |
| `ParserProperties.ParsePrefixAppends` | parser/parser.go:196-201 | the same for every prefix function |
| `ParserProperties.InfixLoopAppends` | parser/parser.go:203-214 | the same for the infix loop |
| `ParserProperties.ParsePrefixExpressionAppends` | parser/parser.go:238-249 | the same for parsePrefixExpression |
| `ParserProperties.ParseInfixExpressionAppends` | parser/parser.go:251-262 | the same for parseInfixExpression |
| `ParserProperties.ParseGroupedExpressionAppends` | parser/parser.go:282-292 | the same for parseGroupedExpression |
| `ParserProperties.ParseIfExpressionAppends` | parser/parser.go:294-325 | the same for parserIfExpression |
| `ParserProperties.IfBlocksAppend` | parser/parser.go:308-323 | from the consequence's `{` on, parsing the blocks of an `if` (and the `else` block when there is one) only moves forward and only adds errors |
| `ParserProperties.ExpectPeekFollows` | parser/parser.go:272-280 | expectPeek only moves forward and only adds errors |
| `ParserProperties.ParseBlockAppends` | parser/parser.go:327-341 | the same for parseBlockStatement |
| `ParserProperties.ParseFunctionLiteralAppends` | parser/parser.go:343-358 | the same for parseFunctionLiteral |
| `ParserProperties.ParseCallExpressionAppends` | parser/parser.go:393-398 | the same for parseCallExpression |
| `ParserProperties.CallArgumentsShape` | parser/parser.go:400-422 | an immediate `)` gives the empty list; otherwise the first argument is the expression after `(`, and a present list ends on `)`, while a missing `)` gives nil after exactly one "expected )" error |
| `ParserProperties.ArgumentsLoopShape` | parser/parser.go:411-415 | the argument loop keeps the arguments so far, in order, and stops where no comma follows |
| `ParserProperties.ParseStatementAppends` | parser/parser.go:132-141 | statements are dispatched on the current token (let, return, otherwise an expression statement); only a let can fail, and a failed let has added exactly one error, for its name or its `=` |
| `ParserProperties.SkipToSemicolonStops` | parser/parser.go:162-164 | the skip stops on the first `;` (or EOF) at or after the cursor |
| `ParserProperties.BlockLoopEnds` | parser/parser.go:333-339 | the block loop ends on `}` or EOF, keeps its statements in order, and keeps every error |
| `ParserProperties.ProgramLoopEnds` | parser/parser.go:121-128 | ParseProgram's loop runs until the current token is EOF, keeps its statements in order, and keeps every error |
| `ParserProperties.ParametersLoopShape` | parser/parser.go:376-384 | each round of the parameter loop takes the token after a comma, two places on, and adds no error |
| `ParserProperties.FunctionParametersShape` | parser/parser.go:360-391 | an immediate `)` gives the empty list; a present list holds the token after `(` and the token after each comma, in order, and ends on `)`; a missing `)` gives nil after exactly one "expected )" error |
| `ParserProperties.PrecedenceOrder` | parser/parser.go:11-32 | LOWEST < EQUALS < LESSGREATER < SUM < PRODUCT < PREFIX < CALL, and only `(` reaches PREFIX or above |
| `ParserProperties.InfixLoopStops` | parser/parser.go:203-214 | the infix loop only stops before `;`, before a token that binds no tighter than the floor, or before one with no infix function, and such a token stops it at once |
| `ParserProperties.ParseExpressionStops` | parser/parser.go:424-429 | parseExpression(LOWEST) stops before `;` or before any token absent from the table |
| `ParserProperties.NoPrefixReported` | parser/parser.go:196-200 | a token with no prefix function gives nil and exactly one more error, without moving |
| `ParserProperties.IntegerLiteralReported` | parser/parser.go:217-229 | a literal ParseInt rejects gives nil and exactly one more error; an accepted one gives its value and adds nothing |
| `ParserProperties.DecimalLiterals` | parser/parser.go:220 | with base 0, `010` is 8 and `09` is rejected; `5`, `10` and `8080` are decimal |
| `ParserProperties.AtomAlone` | parser/parser.go:195-215 | an identifier before a token that binds no tighter than the floor is a whole operand |
| `ParserProperties.IntegerAlone` | parser/parser.go:195-229 | the same for an accepted integer literal |
| `ParserProperties.InfixStep` | parser/parser.go:203-211 | a binary operator that binds tighter than the floor takes the expression so far as its left operand |
| `ParserProperties.BinaryNesting` | parser/parser.go:203-262 | for `x o1 y o2 z` the middle operand goes to the operator that binds tighter, and to the left one when they bind equally |
| `ParserProperties.NestingLeft` | parser/parser.go:203-262 | when o2 binds no tighter than o1, `x o1 y o2 z` is `((x o1 y) o2 z)` and the parser ends on `z` |
| `ParserProperties.NestingRight` | parser/parser.go:203-262 | when o2 binds tighter than o1, `x o1 y o2 z` is `(x o1 (y o2 z))` and the parser ends on `z` |
| `ParserProperties.InfixOfAtom` | parser/parser.go:251-262 | an operator whose right operand is an identifier followed by a token that binds no tighter takes just that identifier, with the operator's own literal |
| `ParserProperties.LeftAssociative` | parser/parser.go:251-262 | `a - b - c` parses and prints as `((a - b) - c)` |
| `ParserProperties.PrefixOperand` | parser/parser.go:238-249 | a prefix operator before an identifier and a binary operator takes the identifier alone |
| `ParserProperties.PrefixBindsTighter` | parser/parser.go:238-249 | `-a * b` (any prefix and binary operator) parses as Prefix(-, a) as the left operand and prints as `((-a) * b)` |
| `ParserProperties.CallWithTwoArguments` | parser/parser.go:393-422 | `f(a, b)` is a call of `f` with arguments `a` and `b`, printed `f(a, b)` |
| `ParserProperties.TwoArguments` | parser/parser.go:400-422 | `(a, b)` is two arguments in order, ending on `)` |
| `ParserProperties.LetInteger` | parser/parser.go:143-167 | `let <ident> = <int>;` is one let statement, and the parser ends on its `;` |
| `ParserProperties.LetIntegerLet` | parser/parser.go:143-167 | parseLetStatement reads `let <ident> = <int>;` as that let statement and ends on its `;` |
| `ParserProperties.LetSingleToken` | parser/parser.go:143-167 | when the value is read from the one token after `=` and `;` follows it, the let statement holds that value and ends on the `;` |
| `ParserProperties.SkipOneToSemicolon` | parser/parser.go:162-164 | from a token that does not end the statement, with `;` next, the skip stops on that `;` |
| `ParserProperties.LetHead` | parser/parser.go:143-167 | after the name and `=`, the value is the expression after `=`, followed by the skip to the end of the statement |
| `ParserProperties.LetIntegerRound` | parser/parser.go:121-128 | one round of ParseProgram over `let <ident> = <int>;` appends that statement and moves five tokens on |
| `ParserProperties.LetRunParses` | parser/parser.go:117-130 | any number of `let <ident> = <int>;` statements followed by EOF: from any list so far, ParseProgram's loop appends each statement in order, adds no error, and stops on the EOF five tokens per statement later |
| `ParserProperties.LetRunProgram` | parser/parser.go:117-130 | a token stream of only such let statements and then EOF parses to a program of exactly those statements, in order, with no error |
| `ParserProperties.ThreeRounds` | parser/parser.go:117-130 | three `let <ident> = <int>;` statements followed by EOF: ParseProgram's loop appends the three statements in order, stops on the EOF and adds no error |
| `ParserProperties.ThreeLetsParse` | parser/parser_test.go:10-46 | any token stream that reads `let x = 5; let y = 10; let foobar = 8080;` then EOF gives three let statements named x, y and foobar with values 5, 10 and 8080, no errors, and the program's token literal `let` |
| `ParserProperties.ParseProgramEnds` | parser/parser.go:117-130 | ParseProgram stops on EOF; its cursor never moves back from the first token, and the error list only grows at the end |
| `ParsePrint.LetIntegerPrints` | parser/parser.go:143-167 | a parsed `let <ident> = <int>;` prints back as its own tokens' literals with canonical spacing: `let name = literal;` |
| `ParsePrint.LiteralLetPrints` | ast/ast.go:59-73 | a let statement binding an integer literal prints as `let`, a space, the name, ` = `, the literal's text and `;` |
| `ParsePrint.OctalPrintsAsWritten` | ast/ast.go:143-145 | `let a = 010;` holds the value 8 but prints `010`, as it was spelled |
| `ParsePrint.ReturnIntegerPrints` | parser/parser.go:169-181 | a parsed `return <int>;` prints back as `return literal;` |
| `ParsePrint.ExpressionStatementDropsSemicolon` | ast/ast.go:125-130 | an expression statement parsed with its `;` prints without it |
| `ParsePrint.ExpressionStatementsRunTogether` | ast/ast.go:36-44 | `a; b;` parses to two statements with no errors and prints as `ab`: no separator and no `;` |
| `ParsePrint.ThreeLetsPrint` | ast/ast.go:36-44 | the let-statement test's program prints as its three statements' texts run together |
| `ParsePrint.ThreeStatementsPrint` | ast/ast.go:36-44 | a program of three statements prints as their three texts run together |
| `ParsePrint.TwoStatementsPrint` | ast/ast.go:36-44 | a program of two statements prints as their two texts run together |
| `ParsePrint.LetOfPrints` | ast/ast.go:59-73 | a let of a name and an integer literal prints as `let name = literal;` |
| `ParsePrint.IdentifierPrints` | parser/parser.go:94-96 | the identifier parseIdentifier makes prints as its token's text, which is also its token literal |
| `ParsePrint.BangBooleanPrints` | parser/parser.go:231-249 | `!true` parses to a prefix expression that prints `(!true)` |
| `ParsePrint.IfWithoutElsePrints` | parser/parser.go:294-325 | `if (x) { y }` with no `else` after it is an `if` with no alternative, ends on the `}`, and prints `if`, the condition, a space and the block |
| `ParsePrint.IfWithoutElseParses` | parser/parser.go:294-325 | the parse half: `if (x) { y }` with no `else` after it is an `if` with condition x, a one-statement block and no alternative, ending on the `}` |
| `ParsePrint.IfNoElsePrints` | ast/ast.go:223-237 | an `if` with no alternative prints `if`, its condition, a space and its block, with no parentheses or braces |
| `ParsePrint.OneStatementBlock` | parser/parser.go:327-341 | `{ y }` is a block holding the one expression statement `y`, ends on the `}`, and prints `y` |
| `LexParse.TokenizeLetStatements` | parser/parser_test.go:11-18 | the lexer reads the test's input as the tokens of `let x = 5; let y = 10; let foobar = 8080;`, then EOF on every further call |
| `LexParse.LetStatementsParse` | parser/parser_test.go:10-46 | lexing and parsing the test's input gives the statements x = 5, y = 10 and foobar = 8080, each with the token literal `let`, and no errors |
| `LexParse.EofAfter` | lexer/lexer.go:89-91 | once the cursor is past the end of the input, every further token is EOF |
| `LexParse.PositionsGrow` | lexer/lexer.go:30-107 | m calls move the cursor on by at least m |
| `Findings.SkipToSemicolonAsWritten` | parser/parser.go:162-164 | the skip as written, with a bound on its rounds: when it stops, it stands on `;` |
| `Findings.NoSemicolonNeverStops` | parser/parser.go:162-164 | with no `;` from the cursor on, the skip as written never stops, however many rounds it gets |
| `Findings.SkipAgreesBeforeEof` | parser/parser.go:162-164 | where the corrected skip stops on a `;`, the skip as written stops at the same place |
| `Findings.ParseLetStatementAsWritten` | parser/parser.go:143-167 | parseLetStatement as written, with a bound on its skip: a let it returns ends on `;` |
| `Findings.LetIntegerLastHangs` | parser/parser.go:143-167 | a last `let <ident> = <int>` with no later `;` never returns as written |
| `Findings.LetIntegerLastParses` | parser/parser.go:143-167 | corrected: the same statement is parsed, and the parser stands on the EOF with no new error |
| `Findings.LetWithoutSemicolonHangs` | parser/parser.go:162-164 | `let x = 5` never returns as written |
| `Findings.LetWithoutSemicolonParses` | parser/parser.go:162-164 | corrected: `let x = 5` is the statement `let x = 5;` with no error |
| `Findings.ParseReturnStatementAsWritten` | parser/parser.go:169-181 | parserReturnStatement as written, with a bound on its skip: a return statement it gives stands on `;` |
| `Findings.ReturnWithoutSemicolonHangs` | parser/parser.go:176-178 | a last `return <int>` with no later `;` never returns as written |
| `Findings.ReturnWithoutSemicolonParses` | parser/parser.go:169-181 | corrected: the same statement is parsed, and the parser stands on the EOF with no new error |
| `Findings.ReturnFiveHangs` | parser/parser.go:176-178 | `return 5` never returns as written |
| `Findings.ReturnFiveParses` | parser/parser.go:169-181 | corrected: `return 5` is the statement `return 5;` with no error |
| `Findings.ProgramLoopAsWritten` | parser/parser.go:121-128 | ParseProgram's loop as written keeps every result, a failed let as a nil entry, in order |
| `Findings.Present` | parser/parser.go:124-126 | the present statements of a result list are no more than its entries |
| `Findings.ProgramLoopDropsNil` | parser/parser.go:121-128 | the corrected loop gives the loop as written with the nil entries dropped, at the same place and with the same errors |
| `Findings.LetWithoutNameKeepsNil` | parser/parser.go:132-141 | as written, `let 5;` gives a nil statement, then `5`, and one error |
| `Findings.LetWithoutNameDropsNil` | parser/parser.go:124-126 | corrected: `let 5;` is the program `5` with the same error |
| `Findings.BlockLoopAsWritten` | parser/parser.go:333-339 | parseBlockStatement's loop as written keeps every result, a failed let as a nil entry, in order, and stops on `}` or EOF |
| `Findings.BlockLoopDropsNil` | parser/parser.go:333-339 | the corrected block loop gives the loop as written with the nil entries dropped, at the same place and with the same errors |
| `Findings.BlockWithoutNameKeepsNil` | parser/parser.go:335-337 | as written, `{ let 5; }` holds a nil statement, then `5`, with one error |
| `Findings.BlockWithoutNameDropsNil` | parser/parser.go:327-341 | corrected: `{ let 5; }` is the block `{ 5 }` with the same error |

## Left out

- The token package is not part of this model. The keyword table is a
  parameter, and the error messages are a datatype, not the formatted
  strings, because their text embeds the token package's type names.
- `Pratt.ParseInt64` models `strconv.ParseInt(lit, 0, 64)` only for digit
  strings, the only INT literals the lexer makes. Sign, base prefixes and
  underscores are treated as errors.
- `HashLiteral` (ast/ast.go:370-392) is not modelled. The parser never builds
  one, and its `String()` iterates a Go map in no fixed order.
- `Statement` and `Expression` are interfaces in Go. Here they are closed
  datatypes, and `statementNode()` / `expressionNode()` have no counterpart.
- `String()` on a node with a nil child dereferences nil and panics in Go.
  Here that is the precondition `Ast.Printable`, so the model does not say
  what happens then.
- Pointer identity and aliasing of nodes are not modelled: nodes are values.
- A nil parameter or argument slice (a missing `)`) and an empty one print
  alike. `Pratt.ParseFunctionLiteral` and `Pratt.ParseCallExpression` store
  the empty list in its place, and `Pratt.ParseFunctionParameters` /
  `Pratt.ParseCallArguments` still return `None` for it.
- `Pratt.SkipToSemicolon`, `Pratt.ParseLetStatement`, `Pratt.ParseReturnStatement`,
  `Parsing.Parser.SkipToSemicolon`, `Parsing.Parser.ParseLetStatement` and
  `Parsing.Parser.ParseReturnStatement`: the skip to `;` also stops at EOF.
  This is the corrected behaviour; the behaviour as written is in Findings.
  The model uses this EOF guard, not a precondition that a `;` remains.
- `Pratt.ProgramLoop`, `Pratt.BlockLoop`, `Pratt.ParseBlock`,
  `Parsing.Parser.ParseProgram` and `Parsing.Parser.ParseBlockStatement` drop
  a failed let; the code as written keeps it as a nil entry (Findings).
- Printing a parsed program and parsing the text again is not proved to give
  the same tree, and in general it does not. `String()` puts nothing between
  statements (ast/ast.go:36-44) and drops an expression statement's `;`
  (ast/ast.go:125-130), so `a; b;` prints as `ab`
  (`ParsePrint.ExpressionStatementsRunTogether`). An `if` prints its
  condition without parentheses and its blocks without braces. What is
  proved instead is what each parsed statement prints as (`ParsePrint`).
- The evaluator, object model, environments, REPL and `main.go` are not part
  of this model (I/O, and packages not included).

## Findings

| source | as written | input that shows it | evidently intended | confidence | as-written member | corrected member |
|---|---|---|---|---|---|---|
| parser/parser.go:162-164 | the skip at the end of `let` stops only on `;`, and the lexer returns EOF forever | `let x = 5` (no `;`) | stop at EOF too, as parseBlockStatement does | high, not executed | `Findings.LetWithoutSemicolonHangs` | `Findings.LetWithoutSemicolonParses` |
| parser/parser.go:124, 135, 147 | parseLetStatement returns a nil `*LetStatement`, which parseStatement turns into a non-nil `ast.Statement`, so `statement != nil` keeps a failed let | `let 5;` | drop the failed let | high, not executed | `Findings.LetWithoutNameKeepsNil` | `Findings.LetWithoutNameDropsNil` |
| parser/parser.go:176-178 | the skip at the end of `return` stops only on `;`, and the lexer returns EOF forever | `return 5` (no `;`) | stop at EOF too, as parseBlockStatement does | high, not executed | `Findings.ReturnFiveHangs` | `Findings.ReturnFiveParses` |
| parser/parser.go:135, 147, 335-337 | in parseBlockStatement too, `statement != nil` keeps the nil `*LetStatement` of a failed let | `{ let 5; }` | drop the failed let | high, not executed | `Findings.BlockWithoutNameKeepsNil` | `Findings.BlockWithoutNameDropsNil` |
