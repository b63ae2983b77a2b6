/**
 * The cursor of src/lexer.rs as values: a scan state over a fixed input, the
 * single-character consume primitive, the `take_while` predicates, and what
 * one call of `advance_token` and the whole of `tokenize` produce. The class
 * in module Lexer is proved to compute exactly these.
 */
module Scanner {
  import opened Chars
  import opened Tokens

  /** What `prev` holds before the first character and after reading past the end. */
  const EOF_CHAR: char := '\0'

  /** The cursor's fields; `pos` is how much of the input the character stream has yielded. */
  datatype State = State(pos: nat, line: nat, col: nat, prev: char)

  /** A fresh cursor: line 1, column 0, nothing consumed. */
  const Fresh: State := State(0, 1, 0, EOF_CHAR)

  /**
   * `next`: if the previously consumed character was a newline, move to the
   * next line with the column reset; then advance the column and read one
   * character (or nothing, at the end of the input).
   */
  function Step(input: string, st: State): State
  {
    var line := if st.prev == '\n' then st.line + 1 else st.line;
    var col := if st.prev == '\n' then 1 else st.col + 1;
    if st.pos < |input| then State(st.pos + 1, line, col, input[st.pos])
    else State(st.pos, line, col, EOF_CHAR)
  }

  /** `n` calls of `next`, none of them past the end of the input. */
  function Steps(input: string, st: State, n: nat): (r: State)
    requires st.pos + n <= |input|
    ensures r.pos == st.pos + n
  {
    if n == 0 then st else Step(input, Steps(input, st, n - 1))
  }

  /** The state of a fresh cursor after it has consumed the first `k` characters. */
  function At(input: string, k: nat): State
    requires k <= |input|
  {
    Steps(input, Fresh, k)
  }

  /**
   * The predicates handed to `take_while` and `eat_while`, with the flag that
   * the number and string predicates capture and update as they go.
   */
  datatype Filter =
    | NotNewline               // comment body
    | IdentTail                // identifier after its first letter
    | NumberTail(hasDot: bool) // number after its first digit
    | StringBody(escaped: bool)// string body after the opening quote
    | Space                    // whitespace run after its first character

  /** Whether the predicate accepts `c`. */
  predicate Accepts(f: Filter, c: char)
  {
    match f
    case NotNewline => c != '\n'
    case IdentTail => IsIdentChar(c)
    case NumberTail(hasDot) => IsDigit(c) || (c == '.' && !hasDot)
    case StringBody(escaped) => escaped || c != '"'
    case Space => IsWhitespace(c)
  }

  /** The predicate's captured flag after it has been asked about `c`. */
  function Update(f: Filter, c: char): Filter
  {
    match f
    case NumberTail(hasDot) => if c == '.' && !hasDot then NumberTail(true) else f
    case StringBody(_) => StringBody(c == '\\')
    case _ => f
  }

  /** How many characters from index `k` of the input a `take_while` with predicate `f` consumes. */
  function RunLength(f: Filter, input: string, k: nat): (n: nat)
    requires k <= |input|
    ensures k + n <= |input|
    decreases |input| - k
  {
    if k == |input| || !Accepts(f, input[k]) then 0
    else 1 + RunLength(Update(f, input[k]), input, k + 1)
  }

  /** `take_while`: the characters it collects and the state it leaves. */
  function Run(input: string, st: State, f: Filter): (string, State)
    requires st.pos <= |input|
  {
    var n := RunLength(f, input, st.pos);
    (input[st.pos..st.pos + n], Steps(input, st, n))
  }

  /** `next_matches`: consume the next character only when it is `expected`. */
  function MatchNext(input: string, st: State, expected: char): (bool, State)
    requires st.pos <= |input|
  {
    if st.pos < |input| && input[st.pos] == expected then (true, Step(input, st)) else (false, st)
  }

  /** The token of a punctuation character. */
  function Punctuation(c: char): Token
    requires IsPunctuation(c)
  {
    if c == '(' then LeftParen
    else if c == ')' then RightParen
    else if c == '{' then LeftBrace
    else if c == '}' then RightBrace
    else if c == ',' then Comma
    else if c == '.' then Dot
    else if c == '-' then Minus
    else if c == '+' then Plus
    else if c == ';' then Semicolon
    else Star
  }

  /** The one- or two-character operator starting with `c`. */
  function Operator(c: char, withEqual: bool): Token
    requires IsOperatorStart(c)
  {
    if c == '!' then (if withEqual then BangEqual else Bang)
    else if c == '=' then (if withEqual then EqualEqual else Equal)
    else if c == '<' then (if withEqual then LessEqual else Less)
    else (if withEqual then GreaterEqual else Greater)
  }

  /** `identifier`, called after the first letter has been consumed. */
  function ScanIdentifier(input: string, st: State, first: char): (Token, State)
    requires st.pos <= |input|
  {
    var (tail, st') := Run(input, st, IdentTail);
    var lexeme := [first] + tail;
    (IdentOrKeyword(lexeme), st')
  }

  /** `number`, called after the first digit has been consumed. */
  function ScanNumber(input: string, st: State, first: char): (Token, State)
    requires st.pos <= |input|
  {
    var (tail, st') := Run(input, st, NumberTail(false));
    (Number([first] + tail), st')
  }

  /** `string`, called after the opening quote has been consumed. */
  function ScanString(input: string, st: State): (Token, State)
    requires st.pos <= |input|
  {
    var (body, st') := Run(input, st, StringBody(false));
    if st'.pos < |input| && input[st'.pos] == '"' then (String(body), Step(input, st'))
    else (Unexpected(st'.line, st'.col), st')
  }

  /**
   * `advance_token`: `Eof` exactly when nothing is left, and otherwise a token
   * for which at least one character was consumed.
   */
  function Scan(input: string, st: State): (r: (Token, State))
    requires st.pos <= |input|
    ensures r.1.pos <= |input|
    ensures r.0 == Eof <==> st.pos == |input|
    ensures r.0 != Eof ==> st.pos < r.1.pos
  {
    if st.pos == |input| then (Eof, Step(input, st))
    else
      var c := input[st.pos];
      var st1 := Step(input, st);
      if IsWhitespace(c) then (Whitespace, Run(input, st1, Space).1)
      else if IsPunctuation(c) then (Punctuation(c), st1)
      else if IsOperatorStart(c) then
        var (eq, st2) := MatchNext(input, st1, '=');
        (Operator(c, eq), st2)
      else if c == '/' then
        var (slash, st2) := MatchNext(input, st1, '/');
        if slash then
          var (text, st3) := Run(input, st2, NotNewline);
          (Comment(text), st3)
        else (Slash, st2)
      else if c == '"' then ScanString(input, st1)
      else if IsDigit(c) then ScanNumber(input, st1, c)
      else if IsAsciiAlpha(c) then ScanIdentifier(input, st1, c)
      else (Unknown, st1)
  }

  /** The tokens `tokenize` yields from state `st` on: every token up to, not including, `Eof`. */
  function LexFrom(input: string, st: State): seq<Token>
    requires st.pos <= |input|
    decreases |input| - st.pos
  {
    var (t, st') := Scan(input, st);
    if t == Eof then [] else [t] + LexFrom(input, st')
  }

  /** `tokenize`. */
  function Lex(input: string): seq<Token>
  {
    LexFrom(input, Fresh)
  }
}
