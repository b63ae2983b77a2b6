/** General facts about the scan functions of module Scanner. */
module ScanFacts {
  import opened Chars
  import opened Tokens
  import opened Scanner

  /** Consuming `a` characters and then `b` more is consuming `a + b`. */
  lemma {:induction false} StepsAdd(input: string, st: State, a: nat, b: nat)
    requires st.pos + a + b <= |input|
    ensures Steps(input, Steps(input, st, a), b) == Steps(input, st, a + b)
  {
    if b > 0 {
      StepsAdd(input, st, a, b - 1);
    }
  }

  /** `take_while` stopping at index `e`: it collects the input up to `e` and consumes exactly that. */
  lemma RunAt(input: string, st: State, f: Filter, e: nat)
    requires st.pos <= |input| && e == st.pos + RunLength(f, input, st.pos)
    ensures Run(input, st, f) == (input[st.pos..e], Steps(input, st, e - st.pos))
  {
  }

  /** A slice is its first character followed by the rest. */
  lemma ConsSlice(input: string, i: nat, k: nat, j: nat)
    requires i < j <= |input| && k == i + 1
    ensures [input[i]] + input[k..j] == input[i..j]
  {
  }

  /** Whether `c` begins some lexical rule of `advance_token`. */
  predicate StartsToken(c: char)
  {
    IsWhitespace(c) || IsPunctuation(c) || IsOperatorStart(c) || c == '/' || c == '"' ||
    IsDigit(c) || IsAsciiAlpha(c)
  }

  /** A whitespace character starts a whitespace run. */
  lemma ScanIsWhitespace(input: string, st: State)
    requires st.pos < |input| && IsWhitespace(input[st.pos])
    ensures Scan(input, st) == (Whitespace, Run(input, Step(input, st), Space).1)
  {
  }

  /** A punctuation character is a token on its own. */
  lemma ScanIsPunctuation(input: string, st: State)
    requires st.pos < |input| && IsPunctuation(input[st.pos])
    ensures Scan(input, st) == (Punctuation(input[st.pos]), Step(input, st))
  {
    assert !IsWhitespace(input[st.pos]);
  }

  /** An operator character takes a following `=` when there is one. */
  lemma ScanIsOperator(input: string, st: State)
    requires st.pos < |input| && IsOperatorStart(input[st.pos])
    ensures var (eq, st2) := MatchNext(input, Step(input, st), '=');
      Scan(input, st) == (Operator(input[st.pos], eq), st2)
  {
    assert !IsWhitespace(input[st.pos]) && !IsPunctuation(input[st.pos]);
  }

  /** A slash is a comment when a second slash follows it. */
  lemma ScanIsSlash(input: string, st: State)
    requires st.pos < |input| && input[st.pos] == '/'
    ensures var (slash, st2) := MatchNext(input, Step(input, st), '/');
      Scan(input, st) ==
        if slash then (Comment(Run(input, st2, NotNewline).0), Run(input, st2, NotNewline).1)
        else (Slash, st2)
  {
    assert !IsWhitespace('/') && !IsPunctuation('/') && !IsOperatorStart('/');
  }

  /** A quote hands the scan to `string`. */
  lemma ScanIsString(input: string, st: State)
    requires st.pos < |input| && input[st.pos] == '"'
    ensures Scan(input, st) == ScanString(input, Step(input, st))
  {
    assert !IsWhitespace('"') && !IsPunctuation('"') && !IsOperatorStart('"');
  }

  /** A digit hands the scan to `number`. */
  lemma ScanIsNumber(input: string, st: State)
    requires st.pos < |input| && IsDigit(input[st.pos])
    ensures Scan(input, st) == ScanNumber(input, Step(input, st), input[st.pos])
  {
    var c := input[st.pos];
    assert !IsWhitespace(c) && !IsPunctuation(c) && !IsOperatorStart(c);
    assert c != '/' && c != '"';
  }

  /** A letter hands the scan to `identifier`. */
  lemma ScanIsIdentifier(input: string, st: State)
    requires st.pos < |input| && IsAsciiAlpha(input[st.pos])
    ensures Scan(input, st) == ScanIdentifier(input, Step(input, st), input[st.pos])
  {
    var c := input[st.pos];
    assert !IsWhitespace(c) && !IsPunctuation(c) && !IsOperatorStart(c);
    assert c != '/' && c != '"' && !IsDigit(c);
  }

  /** A character that begins no rule is `Unknown` on its own. */
  lemma ScanIsUnknown(input: string, st: State)
    requires st.pos < |input| && !StartsToken(input[st.pos])
    ensures Scan(input, st) == (Unknown, Step(input, st))
  {
  }

  /** `st` is the state of a fresh cursor after it has consumed `st.pos` characters. */
  ghost predicate Tracked(input: string, st: State)
  {
    st.pos <= |input| && st == At(input, st.pos)
  }

  /** Consuming characters through `next` keeps a cursor tracked. */
  lemma StepsTracked(input: string, st: State, n: nat)
    requires Tracked(input, st) && st.pos + n <= |input|
    ensures Tracked(input, Steps(input, st, n))
  {
    StepsAdd(input, Fresh, st.pos, n);
  }

  lemma StepTracked(input: string, st: State)
    requires Tracked(input, st) && st.pos < |input|
    ensures Tracked(input, Step(input, st))
  {
    assert Steps(input, st, 1) == Step(input, st);
    StepsTracked(input, st, 1);
  }

  lemma RunTracked(input: string, st: State, f: Filter)
    requires Tracked(input, st)
    ensures Tracked(input, Run(input, st, f).1)
  {
    StepsTracked(input, st, RunLength(f, input, st.pos));
  }

  lemma MatchNextTracked(input: string, st: State, expected: char)
    requires Tracked(input, st)
    ensures Tracked(input, MatchNext(input, st, expected).1)
  {
    if MatchNext(input, st, expected).0 {
      StepTracked(input, st);
    }
  }

  lemma ScanStringTracked(input: string, st: State)
    requires Tracked(input, st)
    ensures Tracked(input, ScanString(input, st).1)
  {
    RunTracked(input, st, StringBody(false));
    var st' := Run(input, st, StringBody(false)).1;
    if st'.pos < |input| && input[st'.pos] == '"' {
      StepTracked(input, st');
    }
  }

  /** A tracked cursor stays tracked across every token but `Eof`. */
  lemma ScanTracks(input: string, st: State)
    requires Tracked(input, st)
    requires Scan(input, st).0 != Eof
    ensures Tracked(input, Scan(input, st).1)
  {
    var c := input[st.pos];
    var st1 := Step(input, st);
    StepTracked(input, st);
    if IsWhitespace(c) {
      RunTracked(input, st1, Space);
    } else if IsPunctuation(c) {
    } else if IsOperatorStart(c) {
      MatchNextTracked(input, st1, '=');
    } else if c == '/' {
      MatchNextTracked(input, st1, '/');
      RunTracked(input, MatchNext(input, st1, '/').1, NotNewline);
    } else if c == '"' {
      ScanIsString(input, st);
      ScanStringTracked(input, st1);
    } else if IsDigit(c) {
      ScanIsNumber(input, st);
      RunTracked(input, st1, NumberTail(false));
    } else if IsAsciiAlpha(c) {
      ScanIsIdentifier(input, st);
      RunTracked(input, st1, IdentTail);
    } else {
      ScanIsUnknown(input, st);
    }
  }

  /**
   * A predicate without a flag (comment body, identifier tail, whitespace)
   * takes the longest run of characters it accepts.
   */
  lemma {:induction false} RunMaximal(f: Filter, input: string, k: nat)
    requires f == NotNewline || f == IdentTail || f == Space
    requires k <= |input|
    ensures var n := RunLength(f, input, k);
      (forall i :: k <= i < k + n ==> Accepts(f, input[i])) &&
      (k + n < |input| ==> !Accepts(f, input[k + n]))
    decreases |input| - k
  {
    if k < |input| && Accepts(f, input[k]) {
      RunMaximal(f, input, k + 1);
    }
  }

  /**
   * The number predicate takes the longest run of digits holding at most
   * one dot (none when a dot was already seen); it stops at a non-digit that
   * is not a dot, or at a second dot.
   */
  lemma {:induction false} NumberRun(hasDot: bool, input: string, k: nat)
    requires k <= |input|
    ensures var n := RunLength(NumberTail(hasDot), input, k);
      (forall i :: k <= i < k + n ==> IsDigit(input[i]) || input[i] == '.') &&
      (forall i, j :: k <= i < j < k + n && input[i] == '.' ==> input[j] != '.') &&
      (hasDot ==> forall i :: k <= i < k + n ==> input[i] != '.') &&
      (k + n < |input| ==>
         !IsDigit(input[k + n]) &&
         (input[k + n] == '.' ==> hasDot || exists i :: k <= i < k + n && input[i] == '.'))
    decreases |input| - k
  {
    if k < |input| && Accepts(NumberTail(hasDot), input[k]) {
      var h' := hasDot || input[k] == '.';
      NumberRun(h', input, k + 1);
    }
  }

  /**
   * Whether the character at index `i` of a string body that starts at index
   * `k` is escaped: the body character before it is a backslash, or, for the
   * first one, the flag the predicate started with.
   */
  predicate EscapedAt(escaped: bool, input: string, k: nat, i: nat)
    requires k <= i <= |input|
  {
    if i == k then escaped else input[i - 1] == '\\'
  }

  /**
   * The string predicate takes every character up to the first quote that is
   * not escaped, and stops there.
   */
  lemma {:induction false} StringRun(escaped: bool, input: string, k: nat)
    requires k <= |input|
    ensures var n := RunLength(StringBody(escaped), input, k);
      (forall i :: k <= i < k + n ==> input[i] != '"' || EscapedAt(escaped, input, k, i)) &&
      (k + n < |input| ==> input[k + n] == '"' && !EscapedAt(escaped, input, k, k + n))
    decreases |input| - k
  {
    if k < |input| && Accepts(StringBody(escaped), input[k]) {
      StringRun(input[k] == '\\', input, k + 1);
    }
  }
}
