/** The scanner: one forward pass over the source text that turns it into
    tokens, with one character of lookahead (two for a number's fraction). */
module Scanner {
  import opened Wrappers
  import opened Tokens

  /** The reserved words and the kinds they scan to. */
  const Keywords: map<string, TokenType> := map[
    "and" := AND, "class" := CLASS, "else" := ELSE, "false" := FALSE,
    "for" := FOR, "fun" := FUN, "if" := IF, "nil" := NIL, "or" := OR,
    "print" := PRINT, "return" := RETURN, "super" := SUPER, "this" := THIS,
    "true" := TRUE, "var" := VAR, "while" := WHILE
  ]

  predicate IsDigit(c: char) {
    '0' <= c <= '9'
  }

  predicate IsAlpha(c: char) {
    ('a' <= c <= 'z') || ('A' <= c <= 'Z') || c == '_'
  }

  predicate IsAlphaNumeric(c: char) {
    IsAlpha(c) || IsDigit(c)
  }

  /** The character classes the scanner's inner loops run over. */
  datatype Run = Digits | AlphaNumerics | RestOfLine | StringBody

  /** Whether a `while (... peek() ...) advance()` loop of the given kind
      keeps going over `c`. */
  predicate Keeps(run: Run, c: char) {
    match run
    case Digits => IsDigit(c)
    case AlphaNumerics => IsAlphaNumeric(c)
    case RestOfLine => c != '\n'
    case StringBody => c != Quote
  }

  /** The double quote that delimits string literals. */
  const Quote: char := 34 as char

  /** The kind of a scanned word: its keyword kind when the WHOLE word is
      reserved, IDENTIFIER otherwise. */
  function WordKind(text: string): (k: TokenType)
    ensures k != IDENTIFIER <==> text in Keywords
    ensures text in Keywords ==> k == Keywords[text]
  {
    if text in Keywords then Keywords[text] else IDENTIFIER
  }

  /** The character at `i`, or NUL past the end of the source. */
  function Peek(src: string, i: nat): char {
    if i < |src| then src[i] else '\0'
  }

  /** The first index at or after `i` whose character fails `keep` (or the end
      of the source): the cursor after a `while (keep(peek())) advance()` loop. */
  function SkipWhile(src: string, i: nat, run: Run): (j: nat)
    requires i <= |src|
    ensures i <= j <= |src|
    ensures forall k :: i <= k < j ==> Keeps(run, src[k])
    ensures j == |src| || !Keeps(run, src[j])
    decreases |src| - i
  {
    if i < |src| && Keeps(run, src[i]) then SkipWhile(src, i + 1, run) else i
  }

  /** The number of newline characters in `s`. */
  function Newlines(s: string): nat {
    if s == [] then 0 else (if s[0] == '\n' then 1 else 0) + Newlines(s[1..])
  }

  lemma {:induction false} NewlinesAppend(a: string, b: string)
    ensures Newlines(a + b) == Newlines(a) + Newlines(b)
  {
    if a == [] {
      assert a + b == b;
    } else {
      assert (a + b)[0] == a[0];
      assert (a + b)[1..] == a[1..] + b;
      NewlinesAppend(a[1..], b);
    }
  }

  lemma {:induction false} NewlinesSplit(s: string, i: nat, j: nat, k: nat)
    requires i <= j <= k <= |s|
    ensures Newlines(s[i .. k]) == Newlines(s[i .. j]) + Newlines(s[j .. k])
  {
    assert s[i..k] == s[i..j] + s[j..k];
    NewlinesAppend(s[i..j], s[j..k]);
  }

  lemma {:induction false} NoNewlines(s: string)
    requires forall k :: 0 <= k < |s| ==> s[k] != '\n'
    ensures Newlines(s) == 0
  {
    if s != [] {
      NoNewlines(s[1..]);
    }
  }

  /** The numeric value of a string of decimal digits. */
  function DigitsValue(digits: string): nat
    decreases |digits|
  {
    if digits == [] then 0
    else
      var d := (digits[|digits| - 1] as int) - ('0' as int);
      DigitsValue(digits[..|digits| - 1]) * 10 + (if 0 <= d then d else 0)
  }

  /** The exact value of the literal `whole.fraction`. */
  function DecimalValue(whole: string, fraction: string): Decimal {
    Decimal(DigitsValue(whole + fraction), |fraction|)
  }

  /** The effect of one `scanToken` call: where the cursor ends, the line
      counter afterwards, and the token or diagnostic it produced (if any). */
  datatype Step = Step(next: nat, line: nat, token: Option<Token>, diag: Option<Diag>)

  /** A token whose lexeme is the text consumed from `start` to `next`. */
  function Emit(src: string, start: nat, next: nat, line: nat, kind: TokenType, literal: Literal): Step
    requires start <= next <= |src|
  {
    Step(next, line, Some(Token(kind, src[start..next], literal, line)), None)
  }

  /** A one-character token. */
  function Single(src: string, start: nat, line: nat, kind: TokenType): (step: Step)
    requires start < |src| && src[start] != '\n'
    ensures step.next == start + 1 && step.line == line + Newlines(src[start .. (step.next)])
  {
    NoNewlines(src[start..start + 1]);
    Emit(src, start, start + 1, line, kind, NoLiteral)
  }

  /** A character that emits no token (whitespace), or only a diagnostic. */
  function Skip(src: string, start: nat, line: nat, diag: Option<Diag>): (step: Step)
    requires start < |src| && src[start] != '\n'
    ensures step.next == start + 1 && step.line == line + Newlines(src[start .. (step.next)])
  {
    NoNewlines(src[start..start + 1]);
    Step(start + 1, line, None, diag)
  }

  /** A one-character operator, or its two-character form when the next
      character is `=` (the source's `match('=')`). */
  function WithEqual(src: string, start: nat, line: nat, single: TokenType, double: TokenType): (step: Step)
    requires start < |src| && src[start] != '\n'
    ensures start < step.next <= |src| && step.line == line + Newlines(src[start .. (step.next)])
  {
    if start + 1 < |src| && src[start + 1] == '=' then
      NoNewlines(src[start..start + 2]);
      Emit(src, start, start + 2, line, double, NoLiteral)
    else
      Single(src, start, line, single)
  }

  /** A `//` comment starting at `start`: it runs up to, but not including,
      the end of the line, and emits nothing. */
  function SkipComment(src: string, start: nat, line: nat): (step: Step)
    requires start + 1 < |src| && src[start] == '/' && src[start + 1] == '/'
    ensures start < step.next <= |src| && step.line == line + Newlines(src[start .. (step.next)])
    ensures step.token.None? && step.diag.None?
  {
    var end := SkipWhile(src, start + 2, RestOfLine);
    NoNewlines(src[start..end]);
    Step(end, line, None, None)
  }

  /** A string literal whose opening quote is at `start`. The value is the
      text strictly between the quotes, with no escapes; newlines inside it
      advance the line. An unterminated string reports an error and emits
      nothing. */
  function ScanString(src: string, start: nat, line: nat): (step: Step)
    requires start < |src| && src[start] == Quote
    ensures start < step.next <= |src| && step.line == line + Newlines(src[start .. (step.next)])
  {
    var close := SkipWhile(src, start + 1, StringBody);
    var closeLine := line + Newlines(src[start + 1..close]);
    NewlinesSplit(src, start, start + 1, close);
    NoNewlines(src[start..start + 1]);
    if close == |src| then
      Step(|src|, closeLine, None, Some(LineError(closeLine, "Unterminated string.")))
    else
      NewlinesSplit(src, start, close, close + 1);
      NoNewlines(src[close..close + 1]);
      Emit(src, start, close + 1, closeLine, STRING, StringLiteral(src[start + 1..close]))
  }

  /** A number literal whose first digit is at `start`: a maximal run of
      digits, then a `.` and a second run only when a digit follows the `.`. */
  function ScanNumber(src: string, start: nat, line: nat): (step: Step)
    requires start < |src| && IsDigit(src[start])
    ensures start < step.next <= |src| && step.line == line + Newlines(src[start .. (step.next)])
  {
    var whole := SkipWhile(src, start + 1, Digits);
    if Peek(src, whole) == '.' && IsDigit(Peek(src, whole + 1)) then
      var end := SkipWhile(src, whole + 1, Digits);
      assert forall k :: start <= k < end ==> IsDigit(src[k]) || src[k] == '.';
      NoNewlines(src[start..end]);
      Emit(src, start, end, line, NUMBER, NumberLiteral(DecimalValue(src[start..whole], src[whole + 1..end])))
    else
      NoNewlines(src[start..whole]);
      Emit(src, start, whole, line, NUMBER, NumberLiteral(DecimalValue(src[start..whole], "")))
  }

  /** An identifier or keyword whose first letter is at `start`. */
  function ScanWord(src: string, start: nat, line: nat): (step: Step)
    requires start < |src| && IsAlpha(src[start])
    ensures start < step.next <= |src| && step.line == line + Newlines(src[start .. (step.next)])
  {
    var end := SkipWhile(src, start + 1, AlphaNumerics);
    NoNewlines(src[start..end]);
    Emit(src, start, end, line, WordKind(src[start..end]), NoLiteral)
  }

  /** One `scanToken` call starting at `start`. It always consumes at least
      one character, emits at most one token (never EOF) whose lexeme is
      exactly the consumed text, and advances the line once per newline
      consumed. */
  function ScanToken(src: string, start: nat, line: nat): (step: Step)
    requires start < |src|
    ensures start < step.next <= |src|
    ensures step.line == line + Newlines(src[start .. (step.next)])
    ensures step.token.Some? ==> step.token.value.lexeme == src[start .. (step.next)]
    ensures step.token.Some? ==> step.token.value.line == step.line && step.token.value.kind != EOF
    ensures step.token.None? || step.diag.None?
  {
    var c := src[start];
    if c in Punctuation then ScanPunctuation(src, start, line)
    else if c == Quote then ScanString(src, start, line)
    else
      match c
      case '/' =>
        if start + 1 < |src| && src[start + 1] == '/' then SkipComment(src, start, line)
        else Single(src, start, line, SLASH)
      case ' ' => Skip(src, start, line, None)
      case '\r' => Skip(src, start, line, None)
      case '\t' => Skip(src, start, line, None)
      case '\n' =>
        assert src[start..start + 1] == "\n";
        Step(start + 1, line + 1, None, None)
      case _ =>
        if IsDigit(c) then ScanNumber(src, start, line)
        else if IsAlpha(c) then ScanWord(src, start, line)
        else Skip(src, start, line, Some(LineError(line, "Unexpected character " + [c])))
  }

  /** The characters that start a one- or two-character operator token. */
  const Punctuation: set<char> := {'(', ')', '{', '}', ',', '.', '-', '+', ';', '*', '!', '=', '<', '>'}

  /** The operator cases of `scanToken`: a one-character token, or for `!`,
      `=`, `<` and `>` possibly the two-character form. */
  function ScanPunctuation(src: string, start: nat, line: nat): (step: Step)
    requires start < |src| && src[start] in Punctuation
    ensures start < step.next <= |src| && step.line == line
    ensures step.token.Some? && step.diag.None?
    ensures step.token.value.lexeme == src[start .. (step.next)] && step.token.value.line == line && step.token.value.kind != EOF
  {
    match src[start]
    case '(' => Single(src, start, line, LEFT_PAREN)
    case ')' => Single(src, start, line, RIGHT_PAREN)
    case '{' => Single(src, start, line, LEFT_BRACE)
    case '}' => Single(src, start, line, RIGHT_BRACE)
    case ',' => Single(src, start, line, COMMA)
    case '.' => Single(src, start, line, DOT)
    case '-' => Single(src, start, line, MINUS)
    case '+' => Single(src, start, line, PLUS)
    case ';' => Single(src, start, line, SEMICOLON)
    case '*' => Single(src, start, line, STAR)
    case '!' => WithEqual(src, start, line, BANG, BANG_EQUAL)
    case '=' => WithEqual(src, start, line, EQUAL, EQUAL_EQUAL)
    case '<' => WithEqual(src, start, line, LESS, LESS_EQUAL)
    case '>' => WithEqual(src, start, line, GREATER, GREATER_EQUAL)
  }

  /** Where a token's lexeme lies in the source: `src[start..end]`. */
  datatype Span = Span(start: nat, end: nat)

  /** The tokens (with their spans), diagnostics and final line counter of
      the scan loop run from some position to the end of the source. */
  datatype Scanned = Scanned(tokens: seq<Token>, spans: seq<Span>, diags: seq<Diag>, line: nat)

  /** The `while (!isAtEnd())` loop of `scanTokens`, from cursor `pos` with
      line counter `line`. Tokens come out in source order, each lexeme is
      the text of its span, no token is EOF, and each token's line is the
      starting line plus the newlines up to the token's end. */
  function ScanFrom(src: string, pos: nat, line: nat): (r: Scanned)
    requires pos <= |src|
    ensures |r.spans| == |r.tokens|
    ensures r.line == line + Newlines(src[pos..])
    ensures forall k :: 0 <= k < |r.tokens| ==>
      pos <= r.spans[k].start < r.spans[k].end <= |src|
      && r.tokens[k].lexeme == src[(r.spans[k].start) .. (r.spans[k].end)]
      && r.tokens[k].kind != EOF
      && r.tokens[k].line == line + Newlines(src[pos .. (r.spans[k].end)])
    ensures forall k :: 0 < k < |r.tokens| ==> r.spans[k - 1].end <= r.spans[k].start
    decreases |src| - pos
  {
    if pos == |src| then
      Scanned([], [], [], line)
    else
      var step := ScanToken(src, pos, line);
      var rest := ScanFrom(src, step.next, step.line);
      NewlinesSplit(src, pos, step.next, |src|);
      assert src[pos..] == src[pos..|src|] && src[step.next..] == src[step.next..|src|];
      forall k | 0 <= k < |rest.tokens|
        ensures rest.tokens[k].line == line + Newlines(src[pos..rest.spans[k].end])
      {
        NewlinesSplit(src, pos, step.next, rest.spans[k].end);
      }
      var diags := if step.diag.Some? then [step.diag.value] + rest.diags else rest.diags;
      if step.token.Some? then
        PrependToken(src, pos, line, step, rest);
        Scanned([step.token.value] + rest.tokens, [Span(pos, step.next)] + rest.spans, diags, rest.line)
      else
        Scanned(rest.tokens, rest.spans, diags, rest.line)
  }

  /** The step case of `ScanFrom`: a token emitted at `pos` goes in front of
      the tokens scanned after it, and the spans stay ordered. */
  lemma PrependToken(src: string, pos: nat, line: nat, step: Step, rest: Scanned)
    requires pos < step.next <= |src|
    requires step.line == line + Newlines(src[pos .. step.next])
    requires step.token.Some? && step.token.value.kind != EOF
    requires step.token.value.lexeme == src[pos .. step.next] && step.token.value.line == step.line
    requires |rest.spans| == |rest.tokens|
    requires forall k :: 0 <= k < |rest.tokens| ==>
      step.next <= rest.spans[k].start < rest.spans[k].end <= |src|
      && rest.tokens[k].lexeme == src[rest.spans[k].start .. rest.spans[k].end]
      && rest.tokens[k].kind != EOF
      && rest.tokens[k].line == line + Newlines(src[pos .. rest.spans[k].end])
    requires forall k :: 0 < k < |rest.tokens| ==> rest.spans[k - 1].end <= rest.spans[k].start
    ensures var tokens := [step.token.value] + rest.tokens;
      var spans := [Span(pos, step.next)] + rest.spans;
      && (forall k :: 0 <= k < |tokens| ==>
        pos <= spans[k].start < spans[k].end <= |src|
        && tokens[k].lexeme == src[spans[k].start .. spans[k].end]
        && tokens[k].kind != EOF
        && tokens[k].line == line + Newlines(src[pos .. spans[k].end]))
      && (forall k :: 0 < k < |tokens| ==> spans[k - 1].end <= spans[k].start)
  {
    var tokens := [step.token.value] + rest.tokens;
    var spans := [Span(pos, step.next)] + rest.spans;
    assert forall k :: 0 < k < |tokens| ==> tokens[k] == rest.tokens[k - 1] && spans[k] == rest.spans[k - 1];
  }

  /** What `scanTokens` returns, with the diagnostics it reported. */
  datatype ScanResult = ScanResult(tokens: seq<Token>, diags: seq<Diag>)

  /** `scanTokens`: the scan loop from the start of the source on line 1,
      followed by exactly one EOF token carrying the final line, which is
      one more than the number of newlines in the source. */
  function ScanTokens(src: string): (r: ScanResult)
    ensures |r.tokens| >= 1
    ensures r.tokens[|r.tokens| - 1] == Token(EOF, "", NoLiteral, 1 + Newlines(src))
    ensures forall k :: 0 <= k < |r.tokens| - 1 ==> r.tokens[k].kind != EOF
    ensures forall k :: 0 <= k < |r.tokens| ==> 1 <= r.tokens[k].line <= 1 + Newlines(src)
    ensures r.tokens[..|r.tokens| - 1] == ScanFrom(src, 0, 1).tokens
  {
    var loop := ScanFrom(src, 0, 1);
    assert src[0..] == src;
    forall k | 0 <= k < |loop.tokens|
      ensures loop.tokens[k].line <= 1 + Newlines(src)
    {
      NewlinesSplit(src, 0, loop.spans[k].end, |src|);
      assert src[0..|src|] == src;
    }
    ScanResult(loop.tokens + [Token(EOF, "", NoLiteral, loop.line)], loop.diags)
  }
}
