/** The token model shared by the scanner, the parser, the formatter and the folding-range
    extractor: the SyntaxKind, ScanError, SettingKind and ErrorCode enumerations. */
module Kinds {

  /** The kind of a scanned token. */
  datatype SyntaxKind =
    | OpenBraceToken | CloseBraceToken | OpenParenToken | CloseParenToken
    | OpenBracketToken | CloseBracketToken | CommaToken | ColonToken
    | EqualToken | SemicolonToken | TrueKeyword | FalseKeyword
    | StringLiteral | NumericLiteral | PropertyName
    | LineCommentTrivia | BlockCommentTrivia | LineBreakTrivia | Trivia
    | Unknown | EOF
  {
    /** The numeric value of the enumeration member (1 .. 21). */
    function Code(): int {
      match this
      case OpenBraceToken => 1
      case CloseBraceToken => 2
      case OpenParenToken => 3
      case CloseParenToken => 4
      case OpenBracketToken => 5
      case CloseBracketToken => 6
      case CommaToken => 7
      case ColonToken => 8
      case EqualToken => 9
      case SemicolonToken => 10
      case TrueKeyword => 11
      case FalseKeyword => 12
      case StringLiteral => 13
      case NumericLiteral => 14
      case PropertyName => 15
      case LineCommentTrivia => 16
      case BlockCommentTrivia => 17
      case LineBreakTrivia => 18
      case Trivia => 19
      case Unknown => 20
      case EOF => 21
    }
  }

  /** The trivia kinds are exactly the members numbered LineCommentTrivia .. Trivia (16 .. 19). */
  predicate IsTrivia(k: SyntaxKind) {
    SyntaxKind.LineCommentTrivia.Code() <= k.Code() <= SyntaxKind.Trivia.Code()
  }

  predicate IsComment(k: SyntaxKind) {
    k == LineCommentTrivia || k == BlockCommentTrivia
  }

  /** The error code the scanner attaches to a token. UnexpectedEndOfPropertyName is declared
      but never produced. */
  datatype ScanError =
    | None | UnexpectedEndOfComment | UnexpectedEndOfString | UnexpectedEndOfNumber
    | InvalidUnicode | InvalidEscapeCharacter | InvalidCharacter | UnexpectedEndOfPropertyName

  /** The shape of a parsed value, as reported by the parser's value dispatch. */
  datatype SettingKind = Number | Boolean | String | Array | Group | List | Invalid

  /** Diagnostic codes reported by the parser (the members the parser uses; several share a
      name with a ScanError member, so uses are qualified). */
  datatype ErrorCode =
    | Undefined | PropertyExpected | ColonExpected | ValueExpected | CommaExpected
    | SemicolonExpected | InvalidUnicode | InvalidEscapeCharacter | InvalidCharacter
    | UnexpectedEndOfNumber | UnexpectedEndOfComment | UnexpectedEndOfString
}
