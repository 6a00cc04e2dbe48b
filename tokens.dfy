/**
 * Tokens as the lexer produces them and the parser consumes them.
 *
 * The token package of the interpreter (its TokenType constants and its
 * keyword table) is not part of this model: the kinds below are exactly the
 * ones the lexer and the parser refer to, and the keyword table is a
 * parameter (`keywords`) rather than a guess at its spellings.
 */
module Tokens {

  /** A Go byte, read as the character with the same code (Latin-1), so that
      byte strings can be written as string literals. */
  type Byte = c: char | c as int < 256

  datatype Kind =
    | Illegal | Eof
    | Ident | Int | Str
    | Assign | Plus | Minus | Bang | Asterisk | Slash | Lt | Gt | Eq | NotEq
    | Comma | Semicolon | LParen | RParen | LBrace | RBrace | LBracket | RBracket
    | Function | Let | True | False | If | Else | Return

  datatype Token = Token(kind: Kind, literal: seq<Byte>)

  /** The token the lexer returns, forever, once the input is exhausted. */
  const EofToken: Token := Token(Eof, [])

  /** The i-th token of a stream given as a finite sequence followed by EOF forever. */
  function TokenAt(ts: seq<Token>, i: nat): Token {
    if i < |ts| then ts[i] else EofToken
  }

  /** The kinds the parser expects for keywords; no lexer rule produces them,
      so they come from the keyword table. */
  predicate IsKeywordKind(k: Kind) {
    k in {Function, Let, True, False, If, Else, Return}
  }

  /** The token package's keyword table: words mapped to keyword kinds. */
  type KeywordTable = m: map<seq<Byte>, Kind> | forall w | w in m :: IsKeywordKind(m[w])

  /** token.LookupIdent: a keyword's own kind, or IDENT for any other word. */
  function LookupIdent(keywords: KeywordTable, ident: seq<Byte>): (k: Kind)
    ensures k == Ident || IsKeywordKind(k)
    ensures k != Ident <==> ident in keywords
  {
    if ident in keywords then keywords[ident] else Ident
  }

  /**
   * Go's `string(b)` for a byte `b`: the UTF-8 encoding of the code point b.
   * Below 0x80 that is the byte itself; from 0x80 on it is a two-byte
   * sequence whose payload bits decode back to b.
   */
  function RuneString(b: Byte): (s: seq<Byte>)
    ensures b as int < 0x80 ==> s == [b]
    ensures b as int >= 0x80 ==>
              && |s| == 2
              && 0xC2 <= s[0] as int <= 0xC3
              && 0x80 <= s[1] as int <= 0xBF
              && (s[0] as int - 0xC0) * 64 + (s[1] as int - 0x80) == b as int
  {
    if b as int < 0x80 then [b]
    else [(0xC0 + b as int / 64) as char, (0x80 + b as int % 64) as char]
  }
}
