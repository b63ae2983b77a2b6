/** The `Token` enum of src/lexer.rs and the reserved-word table. */
module Tokens {

  datatype Option<T> = None | Some(value: T)

  /**
   * One lexeme. `Number` carries its lexeme rather than the `f64` the source
   * parses from it; `Eof` only stops the scan loop and is never yielded.
   */
  datatype Token =
    // single-character tokens
    | LeftParen | RightParen | LeftBrace | RightBrace | Comma | Dot
    | Minus | Plus | Semicolon | Slash | Star
    // one- or two-character tokens
    | Bang | BangEqual | Equal | EqualEqual
    | Greater | GreaterEqual | Less | LessEqual
    // literals
    | Ident(name: string) | String(body: string) | Number(lexeme: string)
    // keywords
    | And | Class | Else | False | Fun | For | If | Nil
    | Or | Print | Super | Return | This | True | Var | While
    // end of input, unclassifiable character, unterminated string
    | Eof | Unknown | Unexpected(line: nat, col: nat)
    // meaningless lexemes
    | Comment(text: string) | Whitespace

  /** The sixteen keyword variants. */
  predicate IsKeyword(t: Token)
  {
    t.And? || t.Class? || t.Else? || t.False? || t.Fun? || t.For? || t.If? || t.Nil? ||
    t.Or? || t.Print? || t.Super? || t.Return? || t.This? || t.True? || t.Var? || t.While?
  }

  /** The reserved word spelled by each keyword variant. */
  function KeywordText(t: Token): string
    requires IsKeyword(t)
  {
    match t
    case And => "and"
    case Class => "class"
    case Else => "else"
    case False => "false"
    case Fun => "fun"
    case For => "for"
    case If => "if"
    case Nil => "nil"
    case Or => "or"
    case Print => "print"
    case Super => "super"
    case Return => "return"
    case This => "this"
    case True => "true"
    case Var => "var"
    case While => "while"
  }

  /** The reserved-word arms of the `match` in `identifier`, in order: spelling and token. */
  const Reserved: seq<(string, Token)> := [
    ("and", And), ("class", Class), ("else", Else), ("false", False),
    ("for", For), ("fun", Fun), ("if", If), ("nil", Nil),
    ("or", Or), ("print", Print), ("return", Return), ("super", Super),
    ("this", This), ("true", True), ("var", Var), ("while", While)
  ]

  /** The token of the first entry of `Reserved` from index `i` on spelled `lexeme`, or else `Ident`. */
  function LookupFrom(lexeme: string, i: nat): Token
    decreases |Reserved| - i
  {
    if i >= |Reserved| then Ident(lexeme)
    else if Reserved[i].0 == lexeme then Reserved[i].1
    else LookupFrom(lexeme, i + 1)
  }

  /** With no entry from `i` on spelled `lexeme`, `LookupFrom` falls back to `Ident`. */
  lemma {:induction false} LookupFromMiss(lexeme: string, i: nat)
    requires i <= |Reserved|
    requires forall j :: i <= j < |Reserved| ==> Reserved[j].0 != lexeme
    ensures LookupFrom(lexeme, i) == Ident(lexeme)
    decreases |Reserved| - i
  {
    if i < |Reserved| {
      LookupFromMiss(lexeme, i + 1);
    }
  }

  /** With an entry from `i` on spelled `lexeme`, `LookupFrom` gives the token of such an entry. */
  lemma {:induction false} LookupFromHit(lexeme: string, i: nat, h: nat)
    requires i <= h < |Reserved| && Reserved[h].0 == lexeme
    ensures exists j :: i <= j < |Reserved| && Reserved[j] == (lexeme, LookupFrom(lexeme, i))
    decreases |Reserved| - i
  {
    if Reserved[i].0 != lexeme {
      LookupFromHit(lexeme, i + 1, h);
      var j :| i + 1 <= j < |Reserved| && Reserved[j] == (lexeme, LookupFrom(lexeme, i + 1));
    }
  }

  /** `LookupFrom` gives a keyword or `Ident` of the lexeme, nothing else. */
  lemma {:induction false} LookupFromKind(lexeme: string, i: nat)
    ensures LookupFrom(lexeme, i) == Ident(lexeme) || IsKeyword(LookupFrom(lexeme, i))
    decreases |Reserved| - i
  {
    if i < |Reserved| {
      if Reserved[i].0 == lexeme {
        ReservedEntry(i);
      } else {
        LookupFromKind(lexeme, i + 1);
      }
    }
  }

  /** Each entry of `Reserved` pairs a keyword variant with its spelling. */
  lemma ReservedEntry(i: nat)
    requires i < |Reserved|
    ensures IsKeyword(Reserved[i].1) && KeywordText(Reserved[i].1) == Reserved[i].0
  {
  }

  /** Every keyword variant has an entry in `Reserved`. */
  lemma KeywordListed(t: Token)
    requires IsKeyword(t)
    ensures exists i :: 0 <= i < |Reserved| && Reserved[i] == (KeywordText(t), t)
  {
    match t
    case And => assert Reserved[0] == ("and", And);
    case Class => assert Reserved[1] == ("class", Class);
    case Else => assert Reserved[2] == ("else", Else);
    case False => assert Reserved[3] == ("false", False);
    case For => assert Reserved[4] == ("for", For);
    case Fun => assert Reserved[5] == ("fun", Fun);
    case If => assert Reserved[6] == ("if", If);
    case Nil => assert Reserved[7] == ("nil", Nil);
    case Or => assert Reserved[8] == ("or", Or);
    case Print => assert Reserved[9] == ("print", Print);
    case Return => assert Reserved[10] == ("return", Return);
    case Super => assert Reserved[11] == ("super", Super);
    case This => assert Reserved[12] == ("this", This);
    case True => assert Reserved[13] == ("true", True);
    case Var => assert Reserved[14] == ("var", Var);
    case While => assert Reserved[15] == ("while", While);
  }

  /**
   * The `match` at the end of `identifier`: the keyword the whole lexeme
   * spells, or else an identifier holding the lexeme. Either way the token
   * is none of the literal, comment, whitespace or diagnostic tokens
   * (`IdentOrKeywordExact` says exactly which token it is).
   */
  function IdentOrKeyword(lexeme: string): (t: Token)
    ensures !t.String? && !t.Number? && !t.Unexpected? && !t.Comment?
    ensures t != Whitespace && t != Eof && t != Unknown
  {
    LookupFromKind(lexeme, 0);
    LookupFrom(lexeme, 0)
  }

  /**
   * A lexeme gives a keyword exactly when it spells one, and then the one it
   * spells; otherwise it gives `Ident` of itself.
   */
  lemma IdentOrKeywordExact(lexeme: string)
    ensures var t := IdentOrKeyword(lexeme);
      (t == Ident(lexeme) || IsKeyword(t)) &&
      (IsKeyword(t) ==> KeywordText(t) == lexeme) &&
      (t == Ident(lexeme) <==> forall k :: IsKeyword(k) ==> KeywordText(k) != lexeme)
  {
    var t := IdentOrKeyword(lexeme);
    if h :| 0 <= h < |Reserved| && Reserved[h].0 == lexeme {
      LookupFromHit(lexeme, 0, h);
      var j :| 0 <= j < |Reserved| && Reserved[j] == (lexeme, t);
      ReservedEntry(j);
    } else {
      LookupFromMiss(lexeme, 0);
      forall k | IsKeyword(k)
        ensures KeywordText(k) != lexeme
      {
        KeywordListed(k);
      }
    }
  }

  /** Every keyword is found again from its own text: the lookup inverts `KeywordText`. */
  lemma KeywordRoundTrip(t: Token)
    requires IsKeyword(t)
    ensures IdentOrKeyword(KeywordText(t)) == t
  {
    KeywordListed(t);
    var h :| 0 <= h < |Reserved| && Reserved[h] == (KeywordText(t), t);
    LookupFromHit(KeywordText(t), 0, h);
    var k := LookupFrom(KeywordText(t), 0);
    var j :| 0 <= j < |Reserved| && Reserved[j] == (KeywordText(t), k);
    ReservedEntry(j);
    KeywordTextInjective(k, t);
  }

  /** Reserved words are two to six characters long. */
  lemma KeywordTextLength(t: Token)
    requires IsKeyword(t)
    ensures 2 <= |KeywordText(t)| <= 6
  {
  }

  /** A lexeme too short or too long to be a reserved word is an identifier. */
  lemma IdentByLength(lexeme: string)
    requires |lexeme| < 2 || |lexeme| > 6
    ensures IdentOrKeyword(lexeme) == Ident(lexeme)
  {
    forall k | IsKeyword(k)
      ensures KeywordText(k) != lexeme
    {
      KeywordTextLength(k);
    }
    IdentOrKeywordExact(lexeme);
  }

  /** Distinct keywords are spelled differently. */
  lemma KeywordTextInjective(s: Token, t: Token)
    requires IsKeyword(s) && IsKeyword(t)
    ensures KeywordText(s) == KeywordText(t) <==> s == t
  {
  }
}
