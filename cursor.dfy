/**
 * The `Cursor` of src/lexer.rs, updated in place, and `tokenize` as the loop
 * that drains it. Every state-changing method is proved to compute exactly the
 * scan function of module Scanner that describes it.
 */
module Lexer {
  import opened Chars
  import opened Tokens
  import opened Scanner
  import opened ScanFacts
  import opened LexFacts

  class Cursor {
    /** The text being scanned; `pos` of it has been yielded by the character stream. */
    const input: string
    var pos: nat
    var line: nat
    var col: nat
    var prev: char

    ghost predicate Valid()
      reads this
    {
      pos <= |input|
    }

    /** The cursor's fields as a scan state. */
    function St(): State
      reads this
    {
      State(pos, line, col, prev)
    }

    /** `line`, `col` and `prev` are those of a fresh cursor that has consumed `pos` characters. */
    ghost predicate Tracks()
      reads this
      requires Valid()
    {
      Tracked(input, St())
    }

    constructor (input: string)
      ensures this.input == input && Valid()
      ensures St() == Fresh && Tracks()
    {
      this.input := input;
      pos, line, col, prev := 0, 1, 0, EOF_CHAR;
    }

    /** The one primitive through which every character is consumed. */
    method Next() returns (c: Option<char>)
      requires Valid()
      modifies this
      ensures Valid() && St() == Step(input, old(St()))
      ensures c == if old(pos) < |input| then Some(input[old(pos)]) else None
    {
      if prev == '\n' {
        line := line + 1;
        col := 0;
      }
      col := col + 1;
      if pos < |input| {
        c := Some(input[pos]);
        pos := pos + 1;
      } else {
        c := None;
      }
      prev := if c.Some? then c.value else EOF_CHAR;
    }

    /** The next character, left in the stream. */
    method Peek() returns (c: Option<char>)
      requires Valid()
      ensures c.Some? <==> pos < |input|
      ensures c.Some? ==> c.value == input[pos]
    {
      c := if pos < |input| then Some(input[pos]) else None;
    }

    method NextMatches(expected: char) returns (matched: bool)
      requires Valid()
      modifies this
      ensures Valid() && (matched, St()) == MatchNext(input, old(St()), expected)
    {
      var actual := Peek();
      if actual == Some(expected) {
        var _ := Next();
        matched := true;
      } else {
        matched := false;
      }
    }

    /** Collects the characters `f` accepts, consuming each, until it refuses one or the input ends. */
    method TakeWhile(f: Filter) returns (s: string)
      requires Valid()
      modifies this
      ensures Valid() && (s, St()) == Run(input, old(St()), f)
    {
      ghost var st0 := St();
      s := [];
      var g := f;
      while true
        invariant Valid() && st0.pos <= pos
        invariant s == input[st0.pos..pos]
        invariant St() == Steps(input, st0, pos - st0.pos)
        invariant RunLength(f, input, st0.pos) == |s| + RunLength(g, input, pos)
        decreases |input| - pos
      {
        var c := Peek();
        if c.None? || !Accepts(g, c.value) {
          break;
        }
        g := Update(g, c.value);
        s := s + [c.value];
        assert s == input[st0.pos..pos + 1];
        var _ := Next();
      }
      RunAt(input, st0, f, pos);
    }

    /** `TakeWhile` without collecting. */
    method EatWhile(f: Filter)
      requires Valid()
      modifies this
      ensures Valid() && St() == Run(input, old(St()), f).1
    {
      ghost var st0 := St();
      var g := f;
      while true
        invariant Valid() && st0.pos <= pos
        invariant St() == Steps(input, st0, pos - st0.pos)
        invariant RunLength(f, input, st0.pos) == pos - st0.pos + RunLength(g, input, pos)
        decreases |input| - pos
      {
        var c := Peek();
        if c.None? || !Accepts(g, c.value) {
          break;
        }
        g := Update(g, c.value);
        var _ := Next();
      }
      RunAt(input, st0, f, pos);
    }

    method Identifier(first: char) returns (t: Token)
      requires Valid()
      modifies this
      ensures Valid() && (t, St()) == ScanIdentifier(input, old(St()), first)
    {
      var tail := TakeWhile(IdentTail);
      var ident := [first] + tail;
      t := IdentOrKeyword(ident);
    }

    method Number(first: char) returns (t: Token)
      requires Valid()
      modifies this
      ensures Valid() && (t, St()) == ScanNumber(input, old(St()), first)
    {
      var tail := TakeWhile(NumberTail(false));
      t := Token.Number([first] + tail);
    }

    method String() returns (t: Token)
      requires Valid()
      modifies this
      ensures Valid() && (t, St()) == ScanString(input, old(St()))
    {
      var body := TakeWhile(StringBody(false));
      var closing := Peek();
      if closing != Some('"') {
        return Unexpected(line, col);
      }
      var _ := Next();
      t := Token.String(body);
    }

    /**
     * Scans one token. A cursor that tracked its position still does so after
     * every token other than `Eof`.
     */
    method AdvanceToken() returns (t: Token)
      requires Valid()
      modifies this
      ensures Valid() && (t, St()) == Scan(input, old(St()))
      ensures old(Tracks()) && t != Eof ==> Tracks()
    {
      ghost var st0 := St();
      var first := Next();
      if first.None? {
        t := Eof;
      } else {
        var c := first.value;
        if IsWhitespace(c) {
          EatWhile(Space);
          t := Whitespace;
        } else if IsPunctuation(c) {
          t := Punctuation(c);
        } else if IsOperatorStart(c) {
          var eq := NextMatches('=');
          t := Operator(c, eq);
        } else if c == '/' {
          var slash := NextMatches('/');
          if slash {
            var text := TakeWhile(NotNewline);
            t := Comment(text);
          } else {
            t := Slash;
          }
        } else if c == '"' {
          t := String();
        } else if IsDigit(c) {
          t := Number(c);
        } else if IsAsciiAlpha(c) {
          t := Identifier(c);
        } else {
          t := Unknown;
        }
      }
      if Tracked(input, st0) && t != Eof {
        ScanTracks(input, st0);
      }
    }
  }

  /** One round of `tokenize` keeps the tokens so far followed by the rest of the scan equal to the whole. */
  lemma TokensStep(tokens: seq<Token>, rest: seq<Token>, whole: seq<Token>, t: Token, rest': seq<Token>)
    requires tokens + rest == whole
    requires rest == if t == Eof then [] else [t] + rest'
    ensures t == Eof ==> tokens == whole
    ensures t != Eof ==> (tokens + [t]) + rest' == whole
  {
    if t != Eof {
      assert tokens + ([t] + rest') == (tokens + [t]) + rest';
    }
  }

  /**
   * `tokenize`: scans tokens until `Eof`, which it does not yield. It always
   * stops, with at most one token per input character.
   */
  method Tokenize(input: string) returns (tokens: seq<Token>)
    ensures tokens == Lex(input)
    ensures |tokens| <= |input| && Eof !in tokens
  {
    var cursor := new Cursor(input);
    tokens := [];
    var done := false;
    while !done
      invariant cursor.Valid() && cursor.input == input
      invariant !done ==> tokens + LexFrom(input, cursor.St()) == Lex(input)
      invariant done ==> tokens == Lex(input)
      decreases |input| - cursor.pos, !done
    {
      ghost var st := cursor.St();
      var t := cursor.AdvanceToken();
      LexFromStep(input, st, t, cursor.St());
      TokensStep(tokens, LexFrom(input, st), Lex(input), t, LexFrom(input, cursor.St()));
      if t == Eof {
        done := true;
      } else {
        tokens := tokens + [t];
      }
    }
    TokenizeFacts(input);
  }
}
