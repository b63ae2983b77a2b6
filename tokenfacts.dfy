/**
 * What one call of `advance_token` yields and consumes, stated in terms of
 * the characters of the input, one lemma per scan path.
 */
module TokenFacts {
  import opened Chars
  import opened Tokens
  import opened Scanner
  import opened ScanFacts
  import opened Positions

  /**
   * `!`, `=`, `<` and `>` take the following `=` when there is one, and then
   * give the two-character operator; otherwise they consume nothing more.
   */
  lemma ScanOperator(input: string, st: State)
    requires st.pos < |input| && IsOperatorStart(input[st.pos])
    ensures var eq := st.pos + 1 < |input| && input[st.pos + 1] == '=';
      var (t, st') := Scan(input, st);
      st'.pos == st.pos + (if eq then 2 else 1) &&
      (input[st.pos] == '!' ==> t == if eq then BangEqual else Bang) &&
      (input[st.pos] == '=' ==> t == if eq then EqualEqual else Equal) &&
      (input[st.pos] == '<' ==> t == if eq then LessEqual else Less) &&
      (input[st.pos] == '>' ==> t == if eq then GreaterEqual else Greater)
  {
    ScanIsOperator(input, st);
  }

  /**
   * `//` starts a comment whose text is everything after it up to, not
   * including, the next newline or the end; the newline is left unconsumed.
   * A lone `/` is `Slash`.
   */
  lemma ScanSlash(input: string, st: State)
    requires st.pos < |input| && input[st.pos] == '/'
    ensures var (t, st') := Scan(input, st);
      if st.pos + 1 < |input| && input[st.pos + 1] == '/' then
        st.pos + 2 <= st'.pos &&
        t == Comment(input[st.pos + 2..st'.pos]) &&
        (forall i :: st.pos + 2 <= i < st'.pos ==> input[i] != '\n') &&
        (st'.pos == |input| || input[st'.pos] == '\n')
      else
        t == Slash && st'.pos == st.pos + 1
  {
    ScanIsSlash(input, st);
    var st1 := Step(input, st);
    if st.pos + 1 < |input| && input[st.pos + 1] == '/' {
      assert MatchNext(input, st1, '/') == (true, Step(input, st1));
      CommentBody(input, Step(input, st1));
    } else {
      assert MatchNext(input, st1, '/') == (false, st1);
    }
  }

  /** The comment text after `//`: every character up to, not including, the next newline or the end. */
  lemma CommentBody(input: string, st: State)
    requires st.pos <= |input|
    ensures var (text, st') := Run(input, st, NotNewline);
      st.pos <= st'.pos && text == input[st.pos..st'.pos] &&
      (forall i :: st.pos <= i < st'.pos ==> input[i] != '\n') &&
      (st'.pos == |input| || input[st'.pos] == '\n')
  {
    RunMaximal(NotNewline, input, st.pos);
  }

  /** A whitespace character starts a maximal run of whitespace, which is one `Whitespace` token. */
  lemma ScanWhitespace(input: string, st: State)
    requires st.pos < |input| && IsWhitespace(input[st.pos])
    ensures var (t, st') := Scan(input, st);
      t == Whitespace &&
      (forall i :: st.pos <= i < st'.pos ==> IsWhitespace(input[i])) &&
      (st'.pos == |input| || !IsWhitespace(input[st'.pos]))
  {
    ScanIsWhitespace(input, st);
    RunMaximal(Space, input, st.pos + 1);
  }

  /**
   * An ASCII letter starts the longest run of letters, digits and `_`; the
   * token is the keyword that run spells, or else an identifier holding it.
   */
  lemma ScanIdentifierToken(input: string, st: State)
    requires st.pos < |input| && IsAsciiAlpha(input[st.pos])
    ensures var (t, st') := Scan(input, st);
      var lexeme := input[st.pos..st'.pos];
      (forall i :: st.pos <= i < st'.pos ==> IsIdentChar(input[i])) &&
      (st'.pos == |input| || !IsIdentChar(input[st'.pos])) &&
      t == IdentOrKeyword(lexeme)
  {
    ScanIsIdentifier(input, st);
    IdentifierRun(input, st);
  }

  /** `identifier` after its first letter: the longest run of identifier characters, looked up whole. */
  lemma IdentifierRun(input: string, st: State)
    requires st.pos < |input| && IsIdentChar(input[st.pos])
    ensures var (t, st') := ScanIdentifier(input, Step(input, st), input[st.pos]);
      var lexeme := input[st.pos..st'.pos];
      (forall i :: st.pos <= i < st'.pos ==> IsIdentChar(input[i])) &&
      (st'.pos == |input| || !IsIdentChar(input[st'.pos])) &&
      t == IdentOrKeyword(lexeme)
  {
    var k := Step(input, st).pos;
    var e := k + RunLength(IdentTail, input, k);
    IdentifierLexeme(input, st, e);
    IdentTailRun(input, k, e);
  }

  /** The identifier tail from `k` stops at `e`: identifier characters up to it, and none at it. */
  lemma IdentTailRun(input: string, k: nat, e: nat)
    requires k <= |input| && e == k + RunLength(IdentTail, input, k)
    ensures (forall i :: k <= i < e ==> IsIdentChar(input[i])) && (e == |input| || !IsIdentChar(input[e]))
  {
    RunMaximal(IdentTail, input, k);
  }

  /** The lexeme `identifier` looks up is the input from its first letter to `e`, where the run stops. */
  lemma IdentifierLexeme(input: string, st: State, e: nat)
    requires st.pos < |input| && e == Step(input, st).pos + RunLength(IdentTail, input, Step(input, st).pos)
    ensures var (t, st') := ScanIdentifier(input, Step(input, st), input[st.pos]);
      st'.pos == e && t == IdentOrKeyword(input[st.pos..e])
  {
    RunAt(input, Step(input, st), IdentTail, e);
    ConsSlice(input, st.pos, Step(input, st).pos, e);
  }

  /**
   * A digit starts the longest run of digits holding at most one dot; the
   * lexeme is kept as the `Number` payload. A second dot ends the run.
   */
  lemma ScanNumberToken(input: string, st: State)
    requires st.pos < |input| && IsDigit(input[st.pos])
    ensures var (t, st') := Scan(input, st);
      var lexeme := input[st.pos..st'.pos];
      t == Number(lexeme) && |lexeme| >= 1 &&
      (forall i :: st.pos <= i < st'.pos ==> IsDigit(input[i]) || input[i] == '.') &&
      (forall i, j :: st.pos <= i < j < st'.pos && input[i] == '.' ==> input[j] != '.') &&
      (st'.pos == |input| || (!IsDigit(input[st'.pos]) &&
        (input[st'.pos] == '.' ==> exists i :: st.pos <= i < st'.pos && input[i] == '.')))
  {
    ScanIsNumber(input, st);
    NumberScan(input, st);
  }

  /** `number` after its first digit: the longest run of digits holding at most one dot. */
  lemma NumberScan(input: string, st: State)
    requires st.pos < |input| && IsDigit(input[st.pos])
    ensures var (t, st') := ScanNumber(input, Step(input, st), input[st.pos]);
      var lexeme := input[st.pos..st'.pos];
      t == Number(lexeme) && |lexeme| >= 1 &&
      (forall i :: st.pos <= i < st'.pos ==> IsDigit(input[i]) || input[i] == '.') &&
      (forall i, j :: st.pos <= i < j < st'.pos && input[i] == '.' ==> input[j] != '.') &&
      (st'.pos == |input| || (!IsDigit(input[st'.pos]) &&
        (input[st'.pos] == '.' ==> exists i :: st.pos <= i < st'.pos && input[i] == '.')))
  {
    var k := Step(input, st).pos;
    NumberLexeme(input, st, k + RunLength(NumberTail(false), input, k));
    NumberRun(false, input, k);
  }

  /** The lexeme `number` keeps is the input from its first digit to `e`, where the run stops. */
  lemma NumberLexeme(input: string, st: State, e: nat)
    requires st.pos < |input| && e == Step(input, st).pos + RunLength(NumberTail(false), input, Step(input, st).pos)
    ensures var (t, st') := ScanNumber(input, Step(input, st), input[st.pos]);
      st'.pos == e && t == Number(input[st.pos..e])
  {
    RunAt(input, Step(input, st), NumberTail(false), e);
    ConsSlice(input, st.pos, Step(input, st).pos, e);
  }

  /**
   * A quote starts a string. It ends at the first quote not preceded in the
   * body by a backslash; the payload is the body verbatim, the closing quote
   * is consumed. With no such quote the whole input is consumed and the
   * result is `Unexpected` with the cursor's position.
   */
  lemma ScanStringToken(input: string, st: State)
    requires st.pos < |input| && input[st.pos] == '"'
    ensures var (t, st') := Scan(input, st);
      (t.String? || t.Unexpected?) &&
      (t.String? ==>
        st.pos + 2 <= st'.pos && input[st'.pos - 1] == '"' &&
        t.body == input[st.pos + 1..st'.pos - 1] &&
        (st'.pos - 2 == st.pos || input[st'.pos - 2] != '\\') &&
        forall i :: st.pos + 1 <= i < st'.pos - 1 ==> input[i] != '"' || (i > st.pos + 1 && input[i - 1] == '\\')) &&
      (t.Unexpected? ==>
        st'.pos == |input| && t.line == st'.line && t.col == st'.col &&
        forall i :: st.pos + 1 <= i < |input| ==> input[i] != '"' || (i > st.pos + 1 && input[i - 1] == '\\'))
  {
    ScanIsString(input, st);
    StringScan(input, Step(input, st));
  }

  /** `string` after the opening quote, whose body starts at `st.pos`. */
  lemma StringScan(input: string, st: State)
    requires st.pos <= |input|
    ensures var (t, st') := ScanString(input, st);
      (t.String? || t.Unexpected?) &&
      (t.String? ==>
        st.pos + 1 <= st'.pos && input[st'.pos - 1] == '"' &&
        t.body == input[st.pos..st'.pos - 1] &&
        (st'.pos - 1 == st.pos || input[st'.pos - 2] != '\\') &&
        forall i :: st.pos <= i < st'.pos - 1 ==> input[i] != '"' || (i > st.pos && input[i - 1] == '\\')) &&
      (t.Unexpected? ==>
        st'.pos == |input| && t.line == st'.line && t.col == st'.col &&
        forall i :: st.pos <= i < |input| ==> input[i] != '"' || (i > st.pos && input[i - 1] == '\\'))
  {
    StringRun(false, input, st.pos);
  }

  /**
   * `Unknown` is given exactly for a character that begins no rule (`_` among
   * them), and consumes just that character.
   */
  lemma ScanUnknown(input: string, st: State)
    requires st.pos < |input|
    ensures Scan(input, st).0 == Unknown <==> !StartsToken(input[st.pos])
    ensures Scan(input, st).0 == Unknown ==> Scan(input, st).1.pos == st.pos + 1
    ensures input[st.pos] == '_' ==> Scan(input, st).0 == Unknown
  {
    var c := input[st.pos];
    if !StartsToken(c) {
      ScanIsUnknown(input, st);
    } else if c == '"' {
      ScanIsString(input, st);
    } else if IsDigit(c) {
      ScanIsNumber(input, st);
    } else if IsAsciiAlpha(c) {
      ScanIsIdentifier(input, st);
      IdentOrKeywordExact([c] + Run(input, Step(input, st), IdentTail).0);
    }
  }

  /**
   * The first character decides the kind of token: whitespace exactly for a
   * whitespace run, a string or `Unexpected` exactly after a quote, a number
   * exactly after a digit, a comment only after a slash.
   */
  lemma ScanKind(input: string, st: State)
    requires st.pos < |input|
    ensures var c, t := input[st.pos], Scan(input, st).0;
      (t == Whitespace <==> IsWhitespace(c)) &&
      (t.String? || t.Unexpected? <==> c == '"') &&
      (t.Number? <==> IsDigit(c)) &&
      (t.Comment? ==> c == '/')
  {
    var c := input[st.pos];
    if IsWhitespace(c) {
      ScanIsWhitespace(input, st);
    } else if IsPunctuation(c) {
      ScanIsPunctuation(input, st);
    } else if IsOperatorStart(c) {
      ScanIsOperator(input, st);
    } else if c == '/' {
      ScanIsSlash(input, st);
    } else if c == '"' {
      ScanIsString(input, st);
    } else if IsDigit(c) {
      ScanIsNumber(input, st);
    } else if IsAsciiAlpha(c) {
      ScanIsIdentifier(input, st);
    } else {
      ScanIsUnknown(input, st);
    }
  }

  /** `Unexpected` is given only once the input is exhausted. */
  lemma UnexpectedAtEnd(input: string, st: State)
    requires st.pos <= |input|
    requires Scan(input, st).0.Unexpected?
    ensures st.pos < |input| && input[st.pos] == '"'
    ensures Scan(input, st).1.pos == |input|
  {
    ScanKind(input, st);
    ScanStringToken(input, st);
  }

  /**
   * `Unexpected` reports the position of the last character of the input:
   * for a cursor started fresh, its line and column are those of that
   * character.
   */
  lemma UnexpectedPosition(input: string, st: State)
    requires Tracked(input, st)
    requires Scan(input, st).0.Unexpected?
    ensures Scan(input, st).1.pos == |input| && |input| >= 1
    ensures Scan(input, st).0.line == LineOf(input, |input| - 1)
    ensures Scan(input, st).0.col == ColOf(input, |input| - 1)
  {
    UnexpectedAtEnd(input, st);
    ScanStringToken(input, st);
    ScanTracks(input, st);
    AtPosition(input, |input|);
  }
}
