/** Whole inputs and the tokens `tokenize` yields for them. */
module Examples {
  import opened Chars
  import opened Tokens
  import opened Scanner
  import opened ScanFacts
  import opened Positions
  import opened LexFacts
  import opened TokenFacts

  lemma NumberFirst(st: State)
    requires st.pos == 0
    ensures Scan("1.2.3", st).0 == Number("1.2") && Scan("1.2.3", st).1.pos == 3
  {
    var s := "1.2.3";
    assert RunLength(NumberTail(true), s, 3) == 0;
    assert RunLength(NumberTail(true), s, 2) == 1;
    assert RunLength(NumberTail(false), s, 1) == 2;
    ScanIsNumber(s, st);
    NumberLexeme(s, st, 3);
    assert s[0..3] == "1.2";
  }

  lemma NumberLast(st: State)
    requires st.pos == 4
    ensures Scan("1.2.3", st).0 == Number("3") && Scan("1.2.3", st).1.pos == 5
  {
    assert RunLength(NumberTail(false), "1.2.3", 5) == 0;
  }

  /** `1.2.3` scans as the number `1.2`, a dot, and the number `3`. */
  lemma NumberWithTwoDots()
    ensures Lex("1.2.3") == [Number("1.2"), Dot, Number("3")]
  {
    var s := "1.2.3";
    NumberFirst(Fresh);
    var st1 := Scan(s, Fresh).1;
    var st2 := Scan(s, st1).1;
    NumberLast(st2);
    var st3 := Scan(s, st2).1;
    LexFromStep(s, Fresh, Scan(s, Fresh).0, Scan(s, Fresh).1);
    LexFromStep(s, st1, Scan(s, st1).0, Scan(s, st1).1);
    LexFromStep(s, st2, Scan(s, st2).0, Scan(s, st2).1);
  }

  /** A lexeme made only of identifier characters is scanned whole. */
  lemma IdentifierWhole(s: string, st: State)
    requires st.pos == 0 && |s| >= 1 && IsAsciiAlpha(s[0])
    requires forall i :: 1 <= i < |s| ==> IsIdentChar(s[i])
    ensures Scan(s, st).1.pos == |s|
    ensures Scan(s, st).0 == IdentOrKeyword(s)
  {
    ScanIdentifierToken(s, st);
    assert s[0..|s|] == s;
  }

  /** Keywords are matched against the whole lexeme, not a prefix of it. */
  lemma NotAKeyword(s: string)
    requires s == "printable"
    ensures Lex(s) == [Ident("printable")]
  {
    IdentifierWhole(s, Fresh);
    LexFromStep(s, Fresh, Scan(s, Fresh).0, Scan(s, Fresh).1);
    IdentByLength(s);
  }

  /** A whole reserved word is a keyword. */
  lemma AKeyword(s: string)
    requires s == "print"
    ensures Lex(s) == [Print]
  {
    IdentifierWhole(s, Fresh);
    LexFromStep(s, Fresh, Scan(s, Fresh).0, Scan(s, Fresh).1);
    KeywordRoundTrip(Print);
  }

  /** A bang followed by `=` is one token. */
  lemma BangEqualOperator(s: string)
    requires s == "!="
    ensures Lex(s) == [BangEqual]
  {
    ScanOperator(s, Fresh);
    LexFromStep(s, Fresh, Scan(s, Fresh).0, Scan(s, Fresh).1);
  }

  /** A bang followed by anything else stands alone. */
  lemma BangAlone(s: string)
    requires s == "! "
    ensures Lex(s) == [Bang, Whitespace]
  {
    ScanOperator(s, Fresh);
    var st1 := Scan(s, Fresh).1;
    ScanWhitespace(s, st1);
    LexFromStep(s, Fresh, Scan(s, Fresh).0, Scan(s, Fresh).1);
    LexFromStep(s, st1, Scan(s, st1).0, Scan(s, st1).1);
  }

  /** The last token, which leaves nothing behind it. */
  lemma LexLast(input: string, st: State)
    requires st.pos < |input| && Scan(input, st).1.pos == |input|
    ensures LexFrom(input, st) == [Scan(input, st).0]
  {
    LexFromStep(input, st, Scan(input, st).0, Scan(input, st).1);
  }

  lemma CommentText(s: string, st: State)
    requires s == "// abc\nx" && st.pos == 0
    ensures Scan(s, st).0 == Comment(" abc") && Scan(s, st).1.pos == 6
  {
    ScanSlash(s, st);
    var e := Scan(s, st).1.pos;
    assert s[6] == '\n' && forall i :: 2 <= i < 6 ==> s[i] != '\n';
    assert e <= 6;
    assert e == 6;
    CommentSlice(s);
  }

  lemma CommentSlice(s: string)
    requires s == "// abc\nx"
    ensures s[2..6] == " abc"
  {
  }

  lemma CommentNewline(s: string, st: State)
    requires s == "// abc\nx" && st.pos == 6
    ensures Scan(s, st).0 == Whitespace && Scan(s, st).1.pos == 7
  {
    ScanWhitespace(s, st);
    assert !IsWhitespace(s[7]);
  }

  lemma CommentNextLine(s: string, st: State)
    requires s == "// abc\nx" && st.pos == 7
    ensures Scan(s, st).0 == Ident("x") && Scan(s, st).1.pos == 8
  {
    ScanIdentifierToken(s, st);
    assert s[7..8] == "x";
    IdentByLength("x");
  }

  /** A comment stops before the newline, which is the next token. */
  lemma CommentThenNewline(s: string)
    requires s == "// abc\nx"
    ensures Lex(s) == [Comment(" abc"), Whitespace, Ident("x")]
  {
    CommentText(s, Fresh);
    var st1 := Scan(s, Fresh).1;
    CommentNewline(s, st1);
    var st2 := Scan(s, st1).1;
    CommentNextLine(s, st2);
    LexFromStep(s, Fresh, Scan(s, Fresh).0, Scan(s, Fresh).1);
    LexFromStep(s, st1, Scan(s, st1).0, Scan(s, st1).1);
    LexLast(s, st2);
  }

  /** A string body is kept verbatim, without its quotes. */
  lemma PlainString(s: string)
    requires s == "\"abc\""
    ensures Lex(s) == [String("abc")]
  {
    ScanStringToken(s, Fresh);
    assert s[4] == '"' && s[3] != '\\';
    assert Scan(s, Fresh).1.pos == 5 && s[1..4] == "abc";
    LexLast(s, Fresh);
  }

  /** An escaped quote does not end the string and stays in the body with its backslash. */
  lemma EscapedQuote(s: string)
    requires s == "\"a\\\"b\""
    ensures Lex(s) == [String("a\\\"b")]
  {
    ScanStringToken(s, Fresh);
    assert s[5] == '"' && s[4] != '\\';
    assert Scan(s, Fresh).1.pos == 6 && s[1..5] == "a\\\"b";
    LexLast(s, Fresh);
  }

  /**
   * The quote after an escaped backslash is itself escaped, so `"a\\"` is
   * unterminated; it is reported at the last character, line 1 column 5.
   */
  lemma EscapedBackslashThenQuote(s: string)
    requires s == "\"a\\\\\""
    ensures Lex(s) == [Unexpected(1, 5)]
  {
    ScanStringToken(s, Fresh);
    assert Scan(s, Fresh).1.pos == 5;
    LexFromStep(s, Fresh, Scan(s, Fresh).0, Scan(s, Fresh).1);
    TokenizeFacts(s);
    assert s[..4] == ['"', 'a', '\\', '\\'];
    assert LineOf(s, 4) == 1;
    assert LineStart(s, 4) == 0;
  }

  lemma SecondLineIdent(s: string, st: State)
    requires s == "a\n\"b" && st.pos == 0
    ensures Scan(s, st).0 == Ident("a") && Scan(s, st).1.pos == 1
  {
    ScanIdentifierToken(s, st);
    assert !IsIdentChar(s[1]) && s[0..1] == "a";
    IdentByLength("a");
  }

  lemma SecondLineNewline(s: string, st: State)
    requires s == "a\n\"b" && st.pos == 1
    ensures Scan(s, st).0 == Whitespace && Scan(s, st).1.pos == 2
  {
    ScanWhitespace(s, st);
    assert !IsWhitespace(s[2]);
  }

  lemma SecondLineString(s: string, st: State)
    requires s == "a\n\"b" && st.pos == 2
    ensures Scan(s, st).0.Unexpected? && Scan(s, st).1.pos == 4
  {
    ScanStringToken(s, st);
    assert s[3] != '"';
  }

  /** After a newline the line advances and the column restarts at 1. */
  lemma UnterminatedOnSecondLine(s: string)
    requires s == "a\n\"b"
    ensures Lex(s) == [Ident("a"), Whitespace, Unexpected(2, 2)]
  {
    SecondLineIdent(s, Fresh);
    var st1 := Scan(s, Fresh).1;
    SecondLineNewline(s, st1);
    var st2 := Scan(s, st1).1;
    SecondLineString(s, st2);
    LexFromStep(s, Fresh, Scan(s, Fresh).0, Scan(s, Fresh).1);
    LexFromStep(s, st1, Scan(s, st1).0, Scan(s, st1).1);
    LexLast(s, st2);
    TokenizeFacts(s);
    assert s[..3] == ['a', '\n', '"'];
    assert LineOf(s, 3) == 2;
    assert LineStart(s, 3) == 2;
  }
}
