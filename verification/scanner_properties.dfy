/** Properties of the scanner that relate several steps or pin down how a
    particular kind of lexeme is recognised. */
module ScannerProperties {
  import opened Wrappers
  import opened Tokens
  import opened Scanner

  /** Newline counts only grow as a prefix of the source grows. */
  lemma NewlinesMonotone(src: string, i: nat, j: nat, k: nat)
    requires i <= j <= k <= |src|
    ensures Newlines(src[i..j]) <= Newlines(src[i..k])
  {
    NewlinesSplit(src, i, j, k);
  }

  /** Spans produced by the scan loop are ordered: every earlier token ends
      before every later token starts. */
  lemma {:induction false} SpansOrdered(src: string, pos: nat, line: nat, i: nat, j: nat)
    requires pos <= |src|
    requires i < j < |ScanFrom(src, pos, line).tokens|
    ensures ScanFrom(src, pos, line).spans[i].end <= ScanFrom(src, pos, line).spans[j].start
    decreases j - i
  {
    var r := ScanFrom(src, pos, line);
    if i + 1 < j {
      SpansOrdered(src, pos, line, i + 1, j);
      assert r.spans[i + 1].start < r.spans[i + 1].end;
    }
  }

  /** The line counter of a scan that started at `pos` on `line`, once the
      cursor has reached `p`. */
  function LineAt(src: string, pos: nat, line: nat, p: nat): nat
    requires pos <= p <= |src|
  {
    line + Newlines(src[pos..p])
  }

  /** The successive `scanToken` calls from cursor `i` on line `line` land
      exactly on `j` and emit no token on the way. */
  ghost predicate Silent(src: string, i: nat, j: nat, line: nat)
    decreases j - i
  {
    && i <= j <= |src|
    && (i == j
        || var s := ScanToken(src, i, line);
           s.token.None? && s.next <= j && Silent(src, s.next, j, s.line))
  }

  /** The tokens, with their spans, are exactly those the successive
      `scanToken` calls from cursor `i` on line `line` emit, in order: the
      calls reach the first span's start without emitting anything, the
      call there emits exactly the first token and stops at the span's
      end, the remaining tokens follow from there in the same way, and
      after the last one the calls reach the end of the source silently. */
  ghost predicate FollowsSteps(src: string, i: nat, line: nat, tokens: seq<Token>, spans: seq<Span>)
    decreases |tokens|
  {
    && |spans| == |tokens|
    && if tokens == [] then Silent(src, i, |src|, line)
       else
         && i <= spans[0].start < spans[0].end <= |src|
         && Silent(src, i, spans[0].start, line)
         && var s := ScanToken(src, spans[0].start, LineAt(src, i, line, spans[0].start));
            && s.next == spans[0].end && s.token == Some(tokens[0])
            && FollowsSteps(src, s.next, s.line, tokens[1..], spans[1..])
  }

  /** The scan loop emits exactly the tokens of its successive steps: no
      step's token is dropped, none is invented, and none is reordered. */
  lemma {:induction false} ScanFromFollowsSteps(src: string, pos: nat, line: nat)
    requires pos <= |src|
    ensures var r := ScanFrom(src, pos, line); FollowsSteps(src, pos, line, r.tokens, r.spans)
    decreases |src| - pos
  {
    var r := ScanFrom(src, pos, line);
    if pos == |src| {
      assert r.tokens == [] && r.spans == [];
    } else {
      var step := ScanToken(src, pos, line);
      var rest := ScanFrom(src, step.next, step.line);
      ScanFromFollowsSteps(src, step.next, step.line);
      if step.token.Some? {
        assert r.tokens == [step.token.value] + rest.tokens && r.spans == [Span(pos, step.next)] + rest.spans;
        EmittedFirst(src, pos, line, step, rest.tokens, rest.spans);
      } else {
        assert r.tokens == rest.tokens && r.spans == rest.spans;
        SilentFirst(src, pos, line, step, rest.tokens, rest.spans);
      }
    }
  }

  /** The loop case where the step at `pos` emits a token: it goes in
      front, with the span of the step. */
  lemma EmittedFirst(src: string, pos: nat, line: nat, step: Step, tokens: seq<Token>, spans: seq<Span>)
    requires pos < |src| && step == ScanToken(src, pos, line) && step.token.Some?
    requires FollowsSteps(src, step.next, step.line, tokens, spans)
    ensures FollowsSteps(src, pos, line, [step.token.value] + tokens, [Span(pos, step.next)] + spans)
  {
    assert LineAt(src, pos, line, pos) == line by {
      assert src[pos..pos] == [];
    }
    assert ([step.token.value] + tokens)[1..] == tokens;
    assert ([Span(pos, step.next)] + spans)[1..] == spans;
  }

  /** The loop case where the step at `pos` emits nothing: the tokens are
      those after it, and the silent run before the first of them (or
      before the end) now starts at `pos`. */
  lemma SilentFirst(src: string, pos: nat, line: nat, step: Step, tokens: seq<Token>, spans: seq<Span>)
    requires pos < |src| && step == ScanToken(src, pos, line) && step.token.None?
    requires FollowsSteps(src, step.next, step.line, tokens, spans)
    ensures FollowsSteps(src, pos, line, tokens, spans)
  {
    if tokens == [] {
      SilentStep(src, pos, |src|, line);
    } else {
      SilentStep(src, pos, spans[0].start, line);
      assert step.line == LineAt(src, pos, line, step.next);
      LineAtShift(src, pos, line, step.next, spans[0].start);
    }
  }

  /** A step that emits nothing extends a silent run backwards. */
  lemma SilentStep(src: string, pos: nat, j: nat, line: nat)
    requires pos < j <= |src|
    requires var s := ScanToken(src, pos, line);
      s.token.None? && s.next <= j && Silent(src, s.next, j, s.line)
    ensures Silent(src, pos, j, line)
  {
  }

  /** Counting lines from an earlier start gives the same line counter. */
  lemma LineAtShift(src: string, pos: nat, line: nat, next: nat, p: nat)
    requires pos <= next <= p <= |src|
    ensures LineAt(src, next, LineAt(src, pos, line, next), p) == LineAt(src, pos, line, p)
  {
    NewlinesSplit(src, pos, next, p);
  }

  /** Token lines never decrease along the output of `scanTokens`, EOF
      included. */
  lemma LinesNeverDecrease(src: string, i: nat, j: nat)
    requires i <= j < |ScanTokens(src).tokens|
    ensures ScanTokens(src).tokens[i].line <= ScanTokens(src).tokens[j].line
  {
    var loop := ScanFrom(src, 0, 1);
    var toks := ScanTokens(src).tokens;
    assert toks == loop.tokens + [Token(EOF, "", NoLiteral, loop.line)];
    if j < |loop.tokens| && i < j {
      SpansOrdered(src, 0, 1, i, j);
      NewlinesMonotone(src, 0, loop.spans[i].end, loop.spans[j].end);
    }
  }

  /** The one-character tokens of the `scanToken` switch and their kinds. */
  const SingleKinds: map<char, TokenType> := map[
    '(' := LEFT_PAREN, ')' := RIGHT_PAREN, '{' := LEFT_BRACE, '}' := RIGHT_BRACE,
    ',' := COMMA, '.' := DOT, '-' := MINUS, '+' := PLUS, ';' := SEMICOLON, '*' := STAR
  ]

  /** The operators that look for a following `=`, with the kind they scan
      to alone and the kind they scan to with the `=`. */
  const EqualKinds: map<char, (TokenType, TokenType)> := map[
    '!' := (BANG, BANG_EQUAL), '=' := (EQUAL, EQUAL_EQUAL),
    '<' := (LESS, LESS_EQUAL), '>' := (GREATER, GREATER_EQUAL)
  ]

  /** The token an operator character scans to, read off the two tables:
      one character for the single kinds; for the others, two characters
      and the second kind exactly when `=` follows. */
  function OperatorStep(src: string, start: nat, line: nat): Step
    requires start < |src| && (src[start] in SingleKinds || src[start] in EqualKinds)
  {
    var c := src[start];
    if c in SingleKinds then Step(start + 1, line, Some(Token(SingleKinds[c], [c], NoLiteral, line)), None)
    else if start + 1 < |src| && src[start + 1] == '=' then
      Step(start + 2, line, Some(Token(EqualKinds[c].1, [c, '='], NoLiteral, line)), None)
    else Step(start + 1, line, Some(Token(EqualKinds[c].0, [c], NoLiteral, line)), None)
  }

  /** Every punctuation character is in exactly one of the tables, and the
      operator cases of `scanToken` emit the token the tables give. */
  lemma PunctuationKinds(src: string, start: nat, line: nat)
    requires start < |src| && src[start] in Punctuation
    ensures src[start] in SingleKinds <==> src[start] !in EqualKinds
    ensures ScanPunctuation(src, start, line) == OperatorStep(src, start, line)
  {
    var c := src[start];
    assert src[start..start + 1] == [c];
    if start + 1 < |src| && src[start + 1] == '=' {
      assert src[start..start + 2] == [c, '='];
    }
  }

  /** A one-character token character scans to its kind alone. */
  lemma SingleCharacterTokens(src: string, start: nat, line: nat)
    requires start < |src| && src[start] in SingleKinds
    ensures ScanToken(src, start, line) == Step(start + 1, line, Some(Token(SingleKinds[src[start]], [src[start]], NoLiteral, line)), None)
  {
    assert src[start] in Punctuation;
    PunctuationKinds(src, start, line);
  }

  /** `!`, `=`, `<` and `>` scan to their two-character kind exactly when
      the next character is `=`, consuming two characters then and one
      otherwise; `<=` is LESS_EQUAL, `<` alone is LESS, and so on down
      the table. */
  lemma OperatorLookahead(src: string, start: nat, line: nat)
    requires start < |src| && src[start] in EqualKinds
    ensures var s := ScanToken(src, start, line);
      var twoChar := start + 1 < |src| && src[start + 1] == '=';
      && s.token.Some?
      && (s.token.value.kind in {BANG_EQUAL, EQUAL_EQUAL, LESS_EQUAL, GREATER_EQUAL} <==> twoChar)
      && (s.token.value.kind in {BANG, EQUAL, LESS, GREATER} <==> !twoChar)
      && s.token.value.kind == (if twoChar then EqualKinds[src[start]].1 else EqualKinds[src[start]].0)
      && s.next == start + (if twoChar then 2 else 1)
  {
    assert src[start] in Punctuation;
    PunctuationKinds(src, start, line);
  }

  /** `//` starts a comment: nothing is emitted or reported, and the cursor
      stops at the first newline after it (or the end of the source). */
  lemma CommentStopsBeforeNewline(src: string, start: nat, line: nat)
    requires start + 1 < |src| && src[start] == '/' && src[start + 1] == '/'
    ensures var s := ScanToken(src, start, line);
      && s.token.None? && s.diag.None? && s.line == line
      && (s.next == |src| || src[s.next] == '\n')
      && forall k :: start <= k < s.next ==> src[k] != '\n'
  {
    var s := ScanToken(src, start, line);
    assert s == SkipComment(src, start, line);
  }

  /** A `/` not followed by `/` is the SLASH token. */
  lemma LoneSlash(src: string, start: nat, line: nat)
    requires start < |src| && src[start] == '/'
    requires start + 1 == |src| || src[start + 1] != '/'
    ensures ScanToken(src, start, line) == Step(start + 1, line, Some(Token(SLASH, "/", NoLiteral, line)), None)
  {
    assert src[start..start + 1] == "/";
  }

  /** Blanks are skipped silently; a newline only advances the line. */
  lemma WhitespaceEmitsNothing(src: string, start: nat, line: nat)
    requires start < |src| && src[start] in {' ', '\r', '\t', '\n'}
    ensures var s := ScanToken(src, start, line);
      && s.token.None? && s.diag.None? && s.next == start + 1
      && s.line == line + (if src[start] == '\n' then 1 else 0)
  {
  }

  /** A terminated string literal's value is the text strictly between its
      quotes, and its line is the line of the closing quote. An unterminated
      one emits no token and reports "Unterminated string." at the end of
      the source. */
  lemma StringLiteralValue(src: string, start: nat, line: nat)
    requires start < |src| && src[start] == Quote
    ensures var s := ScanToken(src, start, line);
      var close := s.next - 1;
      if s.token.Some? then
        && start < close && src[close] == Quote
        && (forall k :: start < k < close ==> src[k] != Quote)
        && s.token.value == Token(STRING, src[start..s.next], StringLiteral(src[start + 1..close]), line + Newlines(src[start + 1..close]))
      else
        && s.next == |src|
        && (forall k :: start < k < |src| ==> src[k] != Quote)
        && s.diag == Some(LineError(s.line, "Unterminated string."))
  {
    var s := ScanToken(src, start, line);
    assert s == ScanString(src, start, line);
  }

  /** A number is a maximal run of digits, optionally followed by one `.`
      and a second non-empty run of digits. A `.` is taken only when a digit
      follows it, so a trailing `.` is not part of the number. */
  lemma NumberExtent(src: string, start: nat, line: nat)
    requires start < |src| && IsDigit(src[start])
    ensures NumberShape(src, start, ScanToken(src, start, line))
  {
    ScanTokenOnDigit(src, start, line);
    NumberRun(src, start, line);
  }

  /** The text `src[start..s.next]` is `digits` or `digits.digits`, the
      step emitted a NUMBER for it, and no further digit (nor a `.` with a
      digit after it, when no fraction was taken) follows. */
  ghost predicate NumberShape(src: string, start: nat, s: Step)
    requires start < s.next <= |src|
  {
    && s.token.Some? && s.token.value.kind == NUMBER
    && (s.next == |src| || !IsDigit(src[s.next]))
    && ((forall k :: start <= k < s.next ==> IsDigit(src[k]))
        ==> !(s.next + 1 < |src| && src[s.next] == '.' && IsDigit(src[s.next + 1])))
    && (forall k :: start <= k < s.next && !IsDigit(src[k]) ==>
          && src[k] == '.' && start < k && k + 1 < s.next
          && (forall m :: start <= m < s.next && m != k ==> IsDigit(src[m])))
  }

  lemma ScanTokenOnDigit(src: string, start: nat, line: nat)
    requires start < |src| && IsDigit(src[start])
    ensures ScanToken(src, start, line) == ScanNumber(src, start, line)
  {
  }

  lemma NumberRun(src: string, start: nat, line: nat)
    requires start < |src| && IsDigit(src[start])
    ensures ScanNumber(src, start, line).next <= |src|
    ensures NumberShape(src, start, ScanNumber(src, start, line))
  {
    var whole := SkipWhile(src, start + 1, Digits);
    if Peek(src, whole) == '.' && IsDigit(Peek(src, whole + 1)) {
      var end := SkipWhile(src, whole + 1, Digits);
      assert ScanNumber(src, start, line).next == end;
      assert !IsDigit(src[whole]);
    } else {
      assert ScanNumber(src, start, line).next == whole;
    }
  }

  /** `1.` scans as the number 1 followed by a DOT. */
  lemma TrailingDotIsSeparate()
    ensures ScanTokens("1.").tokens == [
      Token(NUMBER, "1", NumberLiteral(Decimal(1, 0)), 1),
      Token(DOT, ".", NoLiteral, 1),
      Token(EOF, "", NoLiteral, 1)]
  {
    TrailingDotFirstStep();
    TrailingDotSecondStep();
    assert ScanFrom("1.", 2, 1).tokens == [];
    assert Newlines("1.") == 0;
  }

  lemma TrailingDotFirstStep()
    ensures ScanToken("1.", 0, 1) == Step(1, 1, Some(Token(NUMBER, "1", NumberLiteral(Decimal(1, 0)), 1)), None)
  {
    var src := "1.";
    ScanTokenOnDigit(src, 0, 1);
    assert SkipWhile(src, 1, Digits) == 1;
    assert src[0..1] == "1" && "1" + "" == "1";
    assert DigitsValue("1") == 1 by {
      assert "1"[..0] == [];
    }
  }

  lemma TrailingDotSecondStep()
    ensures ScanToken("1.", 1, 1) == Step(2, 1, Some(Token(DOT, ".", NoLiteral, 1)), None)
  {
    assert "1."[1..2] == ".";
  }

  /** Identifiers are maximal runs of letters, digits and underscores that
      start with a letter or underscore; the run is a keyword only when the
      whole run is reserved. */
  lemma WordExtent(src: string, start: nat, line: nat)
    requires start < |src| && IsAlpha(src[start])
    ensures var s := ScanToken(src, start, line);
      && s.token.Some?
      && (forall k :: start <= k < s.next ==> IsAlphaNumeric(src[k]))
      && (s.next == |src| || !IsAlphaNumeric(src[s.next]))
      && (s.token.value.kind == IDENTIFIER <==> src[start..s.next] !in Keywords)
  {
    var s := ScanToken(src, start, line);
    assert s == ScanWord(src, start, line);
  }

  /** A keyword followed by more letters is an identifier: `orchid` is not
      `or`. */
  lemma KeywordPrefixIsIdentifier()
    ensures ScanTokens("orchid").tokens == [Token(IDENTIFIER, "orchid", NoLiteral, 1), Token(EOF, "", NoLiteral, 1)]
  {
    var src := "orchid";
    OrchidIsOneWord();
    assert ScanFrom(src, 6, 1).tokens == [];
    assert Newlines(src) == 0 by {
      assert src[0..6] == src;
    }
  }

  lemma OrchidIsOneWord()
    ensures ScanToken("orchid", 0, 1) == Step(6, 1, Some(Token(IDENTIFIER, "orchid", NoLiteral, 1)), None)
  {
    var src := "orchid";
    assert src[0] == 'o' && 'o' !in Punctuation && IsAlpha('o');
    assert ScanToken(src, 0, 1) == ScanWord(src, 0, 1);
    assert SkipWhile(src, 1, AlphaNumerics) == 6;
    assert src[0..6] == src;
    assert "orchid" !in Keywords;
  }

  /** A character the language does not use is reported with its line and
      skipped; the scan carries on with the next character. */
  lemma UnexpectedCharacterContinues(src: string, start: nat, line: nat)
    requires start < |src|
    requires !IsAlphaNumeric(src[start])
    requires src[start] !in "(){},.-+;*!=<>/ \r\t\n" && src[start] != Quote
    ensures ScanToken(src, start, line) == Step(start + 1, line, None, Some(LineError(line, "Unexpected character " + [src[start]])))
  {
  }
}
