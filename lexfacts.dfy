/** Properties of the whole token sequence that `tokenize` yields. */
module LexFacts {
  import opened Chars
  import opened Tokens
  import opened Scanner
  import opened ScanFacts
  import opened Positions
  import opened TokenFacts

  /** One token of `tokenize`: the scan yields it and goes on from the state it leaves. */
  lemma LexFromStep(input: string, st: State, t: Token, st': State)
    requires st.pos <= |input| && (t, st') == Scan(input, st)
    ensures st'.pos <= |input|
    ensures t != Eof ==> st.pos < st'.pos
    ensures LexFrom(input, st) == if t == Eof then [] else [t] + LexFrom(input, st')
  {
  }

  /**
   * The scan is total: it yields at most one token per remaining character
   * (so none for empty input) and never yields `Eof`.
   */
  lemma {:induction false} LexBound(input: string, st: State)
    requires st.pos <= |input|
    ensures |LexFrom(input, st)| <= |input| - st.pos
    ensures Eof !in LexFrom(input, st)
    decreases |input| - st.pos
  {
    var (t, st') := Scan(input, st);
    if t != Eof {
      LexBound(input, st');
    }
  }

  /** Once the input is exhausted nothing more is yielded. */
  lemma LexAtEnd(input: string, st: State)
    requires st.pos == |input|
    ensures LexFrom(input, st) == []
  {
  }

  /** `Unexpected` can only be the last token yielded. */
  lemma {:induction false} UnexpectedIsLast(input: string, st: State)
    requires st.pos <= |input|
    ensures forall i :: 0 <= i < |LexFrom(input, st)| - 1 ==> !LexFrom(input, st)[i].Unexpected?
    decreases |input| - st.pos
  {
    var (t, st') := Scan(input, st);
    if t != Eof {
      UnexpectedIsLast(input, st');
      if t.Unexpected? {
        UnexpectedAtEnd(input, st);
        LexAtEnd(input, st');
      }
    }
  }

  /** No two adjacent tokens of `ts` are both `Whitespace`. */
  predicate NoAdjacentWhitespace(ts: seq<Token>)
  {
    forall i :: 0 <= i < |ts| - 1 ==> !(ts[i] == Whitespace && ts[i + 1] == Whitespace)
  }

  /** A maximal whitespace run gives one token: two `Whitespace` tokens are never adjacent. */
  lemma {:induction false} WhitespaceCoalesces(input: string, st: State)
    requires st.pos <= |input|
    ensures NoAdjacentWhitespace(LexFrom(input, st))
    decreases |input| - st.pos
  {
    var (t, st') := Scan(input, st);
    if t != Eof {
      WhitespaceCoalesces(input, st');
      var ts, rest := LexFrom(input, st), LexFrom(input, st');
      assert ts == [t] + rest;
      if t == Whitespace && |rest| > 0 {
        assert st'.pos < |input| && rest[0] == Scan(input, st').0;
        WhitespaceThenOther(input, st);
      }
      forall i | 0 <= i < |ts| - 1
        ensures !(ts[i] == Whitespace && ts[i + 1] == Whitespace)
      {
        if i > 0 {
          assert ts[i] == rest[i - 1] && ts[i + 1] == rest[i - 1 + 1];
        }
      }
    }
  }

  /** The token after a whitespace run is not whitespace. */
  lemma WhitespaceThenOther(input: string, st: State)
    requires st.pos <= |input| && Scan(input, st).0 == Whitespace
    requires Scan(input, st).1.pos < |input|
    ensures Scan(input, Scan(input, st).1).0 != Whitespace
  {
    ScanKind(input, st);
    ScanWhitespace(input, st);
    ScanKind(input, Scan(input, st).1);
  }

  /** Input made only of punctuation yields one punctuation token per character, in order. */
  lemma {:induction false} LexPunctuation(input: string, st: State)
    requires st.pos <= |input|
    requires forall i :: st.pos <= i < |input| ==> IsPunctuation(input[i])
    ensures LexFrom(input, st) == seq(|input| - st.pos, i requires 0 <= i < |input| - st.pos => Punctuation(input[st.pos + i]))
    decreases |input| - st.pos
  {
    if st.pos < |input| {
      var st' := Scan(input, st).1;
      LexPunctuation(input, st');
    }
  }

  /** Every `Unexpected` in `ts` carries the line and column of the last character of `input`. */
  predicate UnexpectedAtLastChar(input: string, ts: seq<Token>)
  {
    forall i :: 0 <= i < |ts| && ts[i].Unexpected? ==>
      |input| >= 1 && ts[i].line == LineOf(input, |input| - 1) && ts[i].col == ColOf(input, |input| - 1)
  }

  /**
   * For a cursor started fresh, a final `Unexpected` carries the line and
   * column of the last character of the input.
   */
  lemma {:induction false} LexUnexpectedPosition(input: string, st: State)
    requires Tracked(input, st)
    ensures UnexpectedAtLastChar(input, LexFrom(input, st))
    decreases |input| - st.pos
  {
    var (t, st') := Scan(input, st);
    if t != Eof {
      ScanTracks(input, st);
      LexUnexpectedPosition(input, st');
      var ts, rest := LexFrom(input, st), LexFrom(input, st');
      assert ts == [t] + rest;
      if t.Unexpected? {
        UnexpectedPosition(input, st);
      }
      forall i | 0 <= i < |ts| && ts[i].Unexpected?
        ensures |input| >= 1 && ts[i].line == LineOf(input, |input| - 1) && ts[i].col == ColOf(input, |input| - 1)
      {
        if i > 0 {
          assert ts[i] == rest[i - 1];
        }
      }
    }
  }

  /** `tokenize` of the whole input: the facts above from a fresh cursor. */
  lemma TokenizeFacts(input: string)
    ensures |Lex(input)| <= |input| && Eof !in Lex(input)
    ensures forall i :: 0 <= i < |Lex(input)| - 1 ==> !Lex(input)[i].Unexpected?
    ensures UnexpectedAtLastChar(input, Lex(input))
  {
    LexBound(input, Fresh);
    UnexpectedIsLast(input, Fresh);
    LexUnexpectedPosition(input, Fresh);
  }
}
