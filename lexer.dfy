/**
 * The lexer: a byte cursor over the input that yields one token per call.
 *
 * `Scan` is the specification of one `NextToken` call as a function of the
 * cursor position; the class `Lexer` is the imperative cursor, whose methods
 * are proved to follow it. `Tokenize` collects the whole token stream.
 */
module Lexing {
  import opened Wrappers
  import opened Tokens

  /** The byte under position i, or NUL past the end (readChar, peekChar). */
  function CharAt(input: seq<Byte>, i: nat): Byte {
    if i < |input| then input[i] else '\0'
  }

  /** isLetter: ASCII letters and the underscore, which never start a number
      or a blank run. */
  predicate IsLetter(c: Byte)
    ensures IsLetter(c) ==> c as int < 0x80 && !IsDigit(c) && !IsBlank(c)
  {
    'a' <= c <= 'z' || 'A' <= c <= 'Z' || c == '_'
  }

  /** isDigit: the ASCII decimal digits, none of which is a blank. */
  predicate IsDigit(c: Byte)
    ensures IsDigit(c) ==> c as int < 0x80 && !IsBlank(c)
  {
    '0' <= c <= '9'
  }

  /** The bytes skipWhiteSpaces passes over; NUL, which reads as the end of
      the input, is not one of them. */
  predicate IsBlank(c: Byte)
    ensures IsBlank(c) ==> c as int < 0x80 && c != '\0'
  {
    c == ' ' || c == '\t' || c == '\n' || c == '\r'
  }

  /** The three byte classes the lexer reads maximal runs of. */
  datatype Class = Letters | Digits | Blanks

  predicate InClass(c: Byte, k: Class) {
    match k
    case Letters => IsLetter(c)
    case Digits => IsDigit(c)
    case Blanks => IsBlank(c)
  }

  /** Where the maximal run of class-`k` bytes that starts at `pos` ends. */
  function RunEnd(input: seq<Byte>, pos: nat, k: Class): (e: nat)
    decreases |input| - pos
    ensures pos <= e
    ensures e == pos || e <= |input|
    ensures forall i | pos <= i < e :: InClass(CharAt(input, i), k)
    ensures !InClass(CharAt(input, e), k)
  {
    if InClass(CharAt(input, pos), k) then RunEnd(input, pos + 1, k) else pos
  }

  /** Where a string literal whose text starts at `pos` ends: the first
      double quote, or the end of the input (or a NUL byte). */
  function StringEnd(input: seq<Byte>, pos: nat): (e: nat)
    decreases |input| - pos
    ensures pos <= e
    ensures e == pos || e <= |input|
    ensures CharAt(input, e) == '"' || CharAt(input, e) == '\0'
    ensures forall i | pos <= i < e :: CharAt(input, i) != '"' && CharAt(input, i) != '\0'
  {
    var c := CharAt(input, pos);
    if c == '"' || c == '\0' then pos else StringEnd(input, pos + 1)
  }

  /** The kinds that a single byte makes, whatever follows it. */
  predicate IsDelimiterKind(k: Kind) {
    || k == Semicolon || k == Comma || k == Plus || k == Minus || k == Slash || k == Asterisk
    || k == LParen || k == RParen || k == LBrace || k == RBrace || k == Gt || k == Lt
    || k == LBracket || k == RBracket
  }

  /** The kinds of the bytes that form a token on their own, whatever
      follows: ASCII bytes that start no other token, one kind per byte. */
  function SingleByteKind(c: Byte): (r: Option<Kind>)
    ensures r.Some? ==> IsDelimiterKind(r.value)
    ensures r.Some? ==>
      && c as int < 0x80 && !IsLetter(c) && !IsDigit(c) && !IsBlank(c)
      && c != '!' && c != '=' && c != '"' && c != '\0'
  {
    if c == ';' then Some(Semicolon)
    else if c == ',' then Some(Comma)
    else if c == '+' then Some(Plus)
    else if c == '-' then Some(Minus)
    else if c == '/' then Some(Slash)
    else if c == '*' then Some(Asterisk)
    else if c == '(' then Some(LParen)
    else if c == ')' then Some(RParen)
    else if c == '{' then Some(LBrace)
    else if c == '}' then Some(RBrace)
    else if c == '>' then Some(Gt)
    else if c == '<' then Some(Lt)
    else if c == '[' then Some(LBracket)
    else if c == ']' then Some(RBracket)
    else None
  }

  /** newToken: a token whose literal is the one byte as Go's string(byte),
      which is the byte itself for ASCII. */
  function NewToken(kind: Kind, c: Byte): (t: Token)
    ensures t.kind == kind && 1 <= |t.literal| <= 2
    ensures c as int < 0x80 ==> t.literal == [c]
  {
    Token(kind, RuneString(c))
  }

  /** One NextToken call: the token read from cursor position `pos`, and the
      cursor position afterwards. */
  datatype Lexeme = Lexeme(token: Token, next: nat)

  /** readIdentifier / readNumber: the maximal run of class `k` starting at
      `p`, which the caller has checked begins with a byte of that class; the
      byte after the run is not consumed. */
  function Run(input: seq<Byte>, p: nat, k: Class): (r: (seq<Byte>, nat))
    requires InClass(CharAt(input, p), k)
    ensures var (lit, e) := r;
            && p < e <= |input|
            && lit == input[p..e]
            && (forall i | p <= i < e :: InClass(CharAt(input, i), k))
            && !InClass(CharAt(input, e), k)
  {
    var e := RunEnd(input, p, k);
    (input[p..e], e)
  }

  /** readString with the opening quote at `p`: the text up to the next quote
      (or the end of the input, or a NUL byte), and the position of that
      closing byte. */
  function QuotedText(input: seq<Byte>, p: nat): (r: (seq<Byte>, nat))
    requires CharAt(input, p) == '"'
    ensures var (lit, e) := r;
            && p + 1 <= e <= |input|
            && lit == input[p + 1..e]
            && (CharAt(input, e) == '"' || CharAt(input, e) == '\0')
            && (forall i | p + 1 <= i < e :: CharAt(input, i) != '"' && CharAt(input, i) != '\0')
  {
    var e := StringEnd(input, p + 1);
    (input[p + 1..e], e)
  }

  /** Where the token read from `pos` starts: after the blanks. */
  function TokenStart(input: seq<Byte>, pos: nat): (p: nat)
    ensures pos <= p
    ensures forall i | pos <= i < p :: IsBlank(CharAt(input, i))
    ensures !IsBlank(CharAt(input, p))
  {
    RunEnd(input, pos, Blanks)
  }

  function Scan(input: seq<Byte>, keywords: KeywordTable, pos: nat): (r: Lexeme)
    // every call consumes the blanks and at least one more position
    ensures r.next > TokenStart(input, pos)
    // once the input is exhausted: EOF with an empty literal, forever
    ensures pos >= |input| ==> r == Lexeme(EofToken, pos + 1)
  {
    var p := TokenStart(input, pos);
    var c := CharAt(input, p);
    if c == '!' then
      if CharAt(input, p + 1) == '=' then Lexeme(Token(NotEq, "!="), p + 2)
      else Lexeme(NewToken(Bang, c), p + 1)
    else if c == '=' then
      if CharAt(input, p + 1) == '=' then Lexeme(Token(Eq, "=="), p + 2)
      else Lexeme(NewToken(Assign, c), p + 1)
    else if c == '"' then
      var (lit, e) := QuotedText(input, p);
      Lexeme(Token(Str, lit), e + 1)
    else if c == '\0' then
      Lexeme(EofToken, p + 1)
    else if SingleByteKind(c).Some? then
      Lexeme(NewToken(SingleByteKind(c).value, c), p + 1)
    else if IsLetter(c) then
      var (lit, e) := Run(input, p, Letters);
      Lexeme(Token(LookupIdent(keywords, lit), lit), e)
    else if IsDigit(c) then
      var (lit, e) := Run(input, p, Digits);
      Lexeme(Token(Int, lit), e)
    else
      Lexeme(NewToken(Illegal, c), p + 1)
  }

  /** A NUL byte, the end of the input included, is EOF with an empty literal. */
  lemma ScanEnd(input: seq<Byte>, keywords: KeywordTable, pos: nat)
    ensures var r := Scan(input, keywords, pos);
      && (r.token.kind == Eof <==> CharAt(input, TokenStart(input, pos)) == '\0')
      && (r.token.kind == Eof ==> r.token.literal == [])
  {
  }

  /** `==` and `!=` are single two-byte tokens, and only those two bytes
      make them; a `=` or `!` not followed by `=` is a one-byte token. */
  lemma ScanOperators(input: seq<Byte>, keywords: KeywordTable, pos: nat)
    ensures var r := Scan(input, keywords, pos);
      var p := TokenStart(input, pos);
      var (c, d) := (CharAt(input, p), CharAt(input, p + 1));
      && (r.token.kind == Eq <==> c == '=' && d == '=')
      && (r.token.kind == NotEq <==> c == '!' && d == '=')
      && (r.token.kind == Assign <==> c == '=' && d != '=')
      && (r.token.kind == Bang <==> c == '!' && d != '=')
      && (c == '=' || c == '!' ==> r.next == if d == '=' then p + 2 else p + 1)
  {
  }

  /** A byte with a kind of its own is a token by itself, its literal the
      byte; those kinds come from no other byte. */
  lemma ScanDelimiters(input: seq<Byte>, keywords: KeywordTable, pos: nat)
    ensures var r := Scan(input, keywords, pos);
      var p := TokenStart(input, pos);
      var c := CharAt(input, p);
      && (SingleByteKind(c).Some? <==> IsDelimiterKind(r.token.kind))
      && (SingleByteKind(c).Some? ==> r == Lexeme(Token(SingleByteKind(c).value, [c]), p + 1))
  {
  }

  /** Apart from EOF, a string and a byte outside ASCII, a token's literal is
      exactly the input it was read from; a string's literal is the input
      between its quotes. */
  lemma ScanLiteralIsInput(input: seq<Byte>, keywords: KeywordTable, pos: nat)
    ensures var r := Scan(input, keywords, pos);
      var p := TokenStart(input, pos);
      && (r.token.kind != Str && r.token.kind != Eof && CharAt(input, p) as int < 0x80 ==>
            p < r.next <= |input| && r.token.literal == input[p..r.next])
      && (r.token.kind == Str ==>
            p < r.next - 1 <= |input| && r.token.literal == input[p + 1..r.next - 1])
  {
    ScanUnquotedIsInput(input, keywords, pos);
    ScanQuotedIsInput(input, keywords, pos);
  }

  /** The first half of ScanLiteralIsInput: tokens other than strings. */
  lemma ScanUnquotedIsInput(input: seq<Byte>, keywords: KeywordTable, pos: nat)
    ensures var r := Scan(input, keywords, pos);
      var p := TokenStart(input, pos);
      r.token.kind != Str && r.token.kind != Eof && CharAt(input, p) as int < 0x80 ==>
        p < r.next <= |input| && r.token.literal == input[p..r.next]
  {
    var p := TokenStart(input, pos);
    var c := CharAt(input, p);
    if c == '!' || c == '=' {
      if CharAt(input, p + 1) == '=' {
        assert input[p..p + 2] == [c, '='];
      } else {
        assert input[p..p + 1] == [c];
      }
    } else if c != '"' && c != '\0' && !IsLetter(c) && !IsDigit(c) && c as int < 0x80 {
      assert input[p..p + 1] == [c];
    }
  }

  /** The second half: a string's literal is the text between its quotes. */
  lemma ScanQuotedIsInput(input: seq<Byte>, keywords: KeywordTable, pos: nat)
    ensures var r := Scan(input, keywords, pos);
      var p := TokenStart(input, pos);
      r.token.kind == Str ==> p < r.next - 1 <= |input| && r.token.literal == input[p + 1..r.next - 1]
  {
  }

  /** Words and numbers are maximal runs; a word is a keyword or an
      identifier, and only a number is an INT. */
  lemma ScanRuns(input: seq<Byte>, keywords: KeywordTable, pos: nat)
    ensures var r := Scan(input, keywords, pos);
      var p := TokenStart(input, pos);
      && (IsLetter(CharAt(input, p)) ==>
            var (lit, e) := Run(input, p, Letters);
            r == Lexeme(Token(LookupIdent(keywords, lit), lit), e))
      && (IsDigit(CharAt(input, p)) <==> r.token.kind == Int)
      && (IsDigit(CharAt(input, p)) ==>
            var (lit, e) := Run(input, p, Digits);
            r == Lexeme(Token(Int, lit), e))
  {
  }

  /** A string token is the text between the quotes and ends just after the
      closing quote; only a quote starts one. */
  lemma ScanStrings(input: seq<Byte>, keywords: KeywordTable, pos: nat)
    ensures var r := Scan(input, keywords, pos);
      var p := TokenStart(input, pos);
      && (CharAt(input, p) == '"' <==> r.token.kind == Str)
      && (CharAt(input, p) == '"' ==>
            var (lit, e) := QuotedText(input, p);
            r == Lexeme(Token(Str, lit), e + 1))
  {
  }

  /** A byte is ILLEGAL exactly when it starts no token; it is consumed
      alone, and its literal is the byte read as a code point and encoded
      in UTF-8. */
  lemma ScanIllegal(input: seq<Byte>, keywords: KeywordTable, pos: nat)
    ensures var r := Scan(input, keywords, pos);
      var p := TokenStart(input, pos);
      var c := CharAt(input, p);
      && (r.token.kind == Illegal <==>
            && c != '!' && c != '=' && c != '"' && c != '\0'
            && SingleByteKind(c).None? && !IsLetter(c) && !IsDigit(c))
      && (r.token.kind == Illegal ==> r == Lexeme(Token(Illegal, RuneString(c)), p + 1))
  {
  }

  /** The cursor position after `n` NextToken calls from position `pos`. */
  function PositionAfter(input: seq<Byte>, keywords: KeywordTable, pos: nat, n: nat): (q: nat)
    decreases n
    ensures q >= pos + n
  {
    if n == 0 then pos else PositionAfter(input, keywords, Scan(input, keywords, pos).next, n - 1)
  }

  /** Scanning once more from where n tokens end is where n + 1 tokens end. */
  lemma {:induction false} PositionAfterStep(input: seq<Byte>, keywords: KeywordTable, pos: nat, n: nat)
    ensures PositionAfter(input, keywords, pos, n + 1)
         == Scan(input, keywords, PositionAfter(input, keywords, pos, n)).next
    decreases n
  {
    if n > 0 {
      var q := Scan(input, keywords, pos).next;
      PositionAfterStep(input, keywords, q, n - 1);
      assert PositionAfter(input, keywords, pos, n) == PositionAfter(input, keywords, q, n - 1);
      assert PositionAfter(input, keywords, pos, n + 1) == PositionAfter(input, keywords, q, n);
    }
  }

  /** The token that the (n+1)-th NextToken call from position `pos` returns. */
  function NthToken(input: seq<Byte>, keywords: KeywordTable, pos: nat, n: nat): Token {
    Scan(input, keywords, PositionAfter(input, keywords, pos, n)).token
  }

  /** The tokens of `count` NextToken calls starting at `pos`. */
  function TokensFrom(input: seq<Byte>, keywords: KeywordTable, pos: nat, count: nat): (ts: seq<Token>)
    decreases count
    ensures |ts| == count
  {
    if count == 0 then []
    else [Scan(input, keywords, pos).token] + TokensFrom(input, keywords, Scan(input, keywords, pos).next, count - 1)
  }

  /** The tokens of a fresh lexer's first |input| + 1 calls; only EOF follows. */
  function Tokenize(input: seq<Byte>, keywords: KeywordTable): (ts: seq<Token>)
    ensures |ts| == |input| + 1
  {
    TokensFrom(input, keywords, 0, |input| + 1)
  }

  /** `ts` are the tokens of |ts| successive NextToken calls from `pos`. */
  ghost predicate Lexes(input: seq<Byte>, keywords: KeywordTable, pos: nat, ts: seq<Token>)
    decreases |ts|
  {
    |ts| == 0
    || (ts[0] == Scan(input, keywords, pos).token
        && Lexes(input, keywords, Scan(input, keywords, pos).next, ts[1..]))
  }

  lemma {:induction false} TokensFromLexes(input: seq<Byte>, keywords: KeywordTable, pos: nat, count: nat)
    ensures Lexes(input, keywords, pos, TokensFrom(input, keywords, pos, count))
    decreases count
  {
    if count > 0 {
      var ts := TokensFrom(input, keywords, pos, count);
      TokensFromLexes(input, keywords, Scan(input, keywords, pos).next, count - 1);
      assert ts[1..] == TokensFrom(input, keywords, Scan(input, keywords, pos).next, count - 1);
    }
  }

  lemma {:induction false} LexesAt(input: seq<Byte>, keywords: KeywordTable, pos: nat, ts: seq<Token>, n: nat)
    requires Lexes(input, keywords, pos, ts) && n < |ts|
    ensures ts[n] == NthToken(input, keywords, pos, n)
    decreases n
  {
    if n > 0 {
      LexesAt(input, keywords, Scan(input, keywords, pos).next, ts[1..], n - 1);
    }
  }

  /** A token list that lexes the whole input from the start, read as a
      stream padded with EOF, gives exactly the tokens the lexer returns,
      call after call, for ever. */
  lemma StreamAt(input: seq<Byte>, keywords: KeywordTable, ts: seq<Token>, n: nat)
    requires Lexes(input, keywords, 0, ts) && |ts| == |input| + 1
    ensures TokenAt(ts, n) == NthToken(input, keywords, 0, n)
  {
    if n < |ts| {
      LexesAt(input, keywords, 0, ts, n);
    } else {
      var q := PositionAfter(input, keywords, 0, n);
      assert Scan(input, keywords, q).token == EofToken;
    }
  }

  /** Tokenize is such a list. */
  lemma TokenizeIsTheStream(input: seq<Byte>, keywords: KeywordTable, n: nat)
    ensures Lexes(input, keywords, 0, Tokenize(input, keywords))
    ensures TokenAt(Tokenize(input, keywords), n) == NthToken(input, keywords, 0, n)
  {
    TokensFromLexes(input, keywords, 0, |input| + 1);
    StreamAt(input, keywords, Tokenize(input, keywords), n);
  }

  /** The lexer object: a cursor over `input` (lexer.Lexer). */
  class Lexer {
    const input: seq<Byte>
    const keywords: KeywordTable
    var position: nat
    var readPosition: nat
    var character: Byte

    /** After every readChar, readPosition is one past position and
        character is the byte under position (NUL past the end). */
    ghost predicate Valid()
      reads this
    {
      readPosition == position + 1 && character == CharAt(input, position)
    }

    /** New: a lexer whose cursor is on the first byte. */
    constructor (input: seq<Byte>, keywords: KeywordTable)
      ensures Valid() && this.input == input && this.keywords == keywords
      ensures position == 0
    {
      this.input := input;
      this.keywords := keywords;
      position, readPosition, character := 0, 0, '\0';
      new;
      ReadChar();
    }

    method ReadChar()
      modifies this
      ensures position == old(readPosition) && readPosition == position + 1
      ensures character == CharAt(input, position)
    {
      if readPosition >= |input| {
        character := '\0';
      } else {
        character := input[readPosition];
      }
      position := readPosition;
      readPosition := readPosition + 1;
    }

    /** The byte after the current one (NUL past the end); nothing moves. */
    method PeekChar() returns (c: Byte)
      requires Valid()
      ensures c == CharAt(input, position + 1)
    {
      if readPosition >= |input| {
        c := '\0';
      } else {
        c := input[readPosition];
      }
    }

    method SkipWhiteSpaces()
      requires Valid()
      modifies this
      ensures Valid() && position == TokenStart(input, old(position))
    {
      while IsBlank(character)
        invariant Valid() && old(position) <= position
        invariant RunEnd(input, position, Blanks) == RunEnd(input, old(position), Blanks)
        decreases |input| - position
      {
        ReadChar();
      }
    }

    method ReadIdentifier() returns (lit: seq<Byte>)
      requires Valid() && IsLetter(character)
      modifies this
      ensures Valid() && (lit, position) == Run(input, old(position), Letters)
    {
      var start := position;
      while IsLetter(character)
        invariant Valid() && start <= position
        invariant RunEnd(input, position, Letters) == RunEnd(input, start, Letters)
        decreases |input| - position
      {
        ReadChar();
      }
      lit := input[start..position];
    }

    method ReadNumber() returns (lit: seq<Byte>)
      requires Valid() && IsDigit(character)
      modifies this
      ensures Valid() && (lit, position) == Run(input, old(position), Digits)
    {
      var start := position;
      while IsDigit(character)
        invariant Valid() && start <= position
        invariant RunEnd(input, position, Digits) == RunEnd(input, start, Digits)
        decreases |input| - position
      {
        ReadChar();
      }
      lit := input[start..position];
    }

    method ReadString() returns (lit: seq<Byte>)
      requires Valid() && character == '"'
      modifies this
      ensures Valid() && (lit, position) == QuotedText(input, old(position))
    {
      var start := position + 1;
      ReadChar();
      while character != '"' && character != '\0'
        invariant Valid() && start <= position
        invariant StringEnd(input, position) == StringEnd(input, start)
        decreases |input| - position
      {
        ReadChar();
      }
      lit := input[start..position];
    }

    method NextToken() returns (tok: Token)
      requires Valid()
      modifies this
      ensures Valid()
      ensures Lexeme(tok, position) == Scan(input, keywords, old(position))
    {
      SkipWhiteSpaces();
      var c := character;
      if c == '!' {
        var after := PeekChar();
        if after == '=' {
          ReadChar();
          tok := Token(NotEq, RuneString(c) + RuneString(character));
        } else {
          tok := NewToken(Bang, c);
        }
      } else if c == '=' {
        var after := PeekChar();
        if after == '=' {
          ReadChar();
          tok := Token(Eq, RuneString(c) + RuneString(character));
        } else {
          tok := NewToken(Assign, c);
        }
      } else if c == '"' {
        var lit := ReadString();
        tok := Token(Str, lit);
      } else if c == '\0' {
        tok := Token(Eof, []);
      } else if SingleByteKind(c).Some? {
        tok := NewToken(SingleByteKind(c).value, c);
      } else if IsLetter(c) {
        var lit := ReadIdentifier();
        tok := Token(LookupIdent(keywords, lit), lit);
        return;
      } else if IsDigit(c) {
        var lit := ReadNumber();
        tok := Token(Int, lit);
        return;
      } else {
        tok := NewToken(Illegal, c);
      }
      ReadChar();
    }
  }
}
