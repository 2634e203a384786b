/**
 * The sub-lexer that splits one Rust string, byte-string, raw-string or
 * character literal into spans: runs of plain literal text and escape
 * sequences, each escape classified as valid, an invalid character escape
 * or an invalid unicode escape.
 *
 * The first half of the module gives the boundary scan and the
 * classification as functions on values (`Locate`, `Classify`, `Spans`)
 * and proves their properties; the class `StringLiteralLexer` at the end is
 * the resumable, field-updating lexer itself, proved against those
 * functions.
 */
module StringLiterals {
  import opened Tokens

  // The lexer's state codes; a saved state is one of these integers.
  const BEFORE_FIRST_QUOTE: int := 0   // still reading the `b` / `r` prefix
  const AFTER_FIRST_QUOTE: int := 1    // inside the literal
  const AFTER_LAST_QUOTE: int := 2     // the literal is exhausted

  predicate IsHexDigit(c: char) {
    '0' <= c <= '9' || 'a' <= c <= 'f' || 'A' <= c <= 'F'
  }

  /**
   * What one lexing session scans: the text, the end of the literal's span
   * in it, the literal's quote character and whether it is a raw literal.
   */
  datatype Literal = Literal(buffer: seq<char>, bufferEnd: int, quote: char, isRaw: bool)

  /** The result of one boundary scan: where the span ends, and the state after it. */
  datatype Scan = Scan(end: int, state: int)

  /** One emitted span `[start, end)` of the literal, with its token type. */
  datatype Span = Span(start: int, end: int, kind: TokenType)

  /**
   * A boundary scan may start at `s`: `s` lies in the span, and the scan
   * will not look at the character before offset 0 (the raw-mode test for
   * an escaped closing quote reads the character before the quote).
   */
  predicate CanScan(lit: Literal, state: int, s: int) {
    0 <= s <= lit.bufferEnd <= |lit.buffer| &&
    (s == 0 && 0 < lit.bufferEnd && lit.isRaw && state == AFTER_FIRST_QUOTE ==> lit.buffer[0] != lit.quote)
  }

  /** A state change the scan may make: none, to the end, or from before to after the opening quote. */
  predicate StepsForward(before: int, after: int) {
    after == before || after == AFTER_LAST_QUOTE ||
    (before == BEFORE_FIRST_QUOTE && after == AFTER_FIRST_QUOTE)
  }

  // ---------------------------------------------------------------------
  // The boundary scan
  // ---------------------------------------------------------------------

  /** The plain-text scan from offset `i`: up to a backslash (non-raw), past the closing quote, or to the end. */
  function ScanPlain(lit: Literal, state: int, i: int): (r: Scan)
    requires CanScan(lit, state, i)
    ensures i <= r.end <= lit.bufferEnd
    decreases lit.bufferEnd - i
  {
    if i == lit.bufferEnd then Scan(i, state)
    else if lit.buffer[i] == '\\' && !lit.isRaw then Scan(i, state)
    else if state == BEFORE_FIRST_QUOTE && lit.buffer[i] == lit.quote then
      ScanPlain(lit, AFTER_FIRST_QUOTE, i + 1)
    else if state == AFTER_FIRST_QUOTE && lit.buffer[i] == lit.quote
            && (!lit.isRaw || lit.buffer[i - 1] != '\\') then
      Scan(i + 1, AFTER_LAST_QUOTE)
    else ScanPlain(lit, state, i + 1)
  }

  /** The end of a `\x` escape that starts at `s`, scanning its digits from `i`. */
  function ScanHex(lit: Literal, s: int, i: int): (e: int)
    requires 0 <= s && s + 2 <= i <= s + 4 && i <= lit.bufferEnd <= |lit.buffer|
    ensures i <= e <= s + 4 && e <= lit.bufferEnd
    decreases s + 4 - i
  {
    if i == s + 4 then i
    else if i == lit.bufferEnd || lit.buffer[i] == '\n' || lit.buffer[i] == lit.quote then i
    else ScanHex(lit, s, i + 1)
  }

  /**
   * One boundary scan from `s` in `state`: the end of the span that starts
   * at `s` and the state after it.
   */
  function Locate(lit: Literal, state: int, s: int): (r: Scan)
    requires CanScan(lit, state, s)
    ensures s <= r.end <= lit.bufferEnd
    ensures s < lit.bufferEnd && state != AFTER_LAST_QUOTE ==> s < r.end
    ensures r.end == s ==> r.state == AFTER_LAST_QUOTE
    ensures CanScan(lit, r.state, r.end)
  {
    var st := if s == lit.bufferEnd then AFTER_LAST_QUOTE else state;
    if st == AFTER_LAST_QUOTE then Scan(s, st)
    else if lit.buffer[s] == '\\' then
      if lit.isRaw then Scan(s + 1, st)
      else if s + 1 == lit.bufferEnd then Scan(s + 1, AFTER_LAST_QUOTE)
      else if lit.buffer[s + 1] == 'x' then Scan(ScanHex(lit, s, s + 2), st)
      else Scan(s + 2, st)
    else ScanPlain(lit, st, s)
  }

  lemma {:induction false} ScanPlainStepsForward(lit: Literal, state: int, i: int)
    requires CanScan(lit, state, i)
    ensures StepsForward(state, ScanPlain(lit, state, i).state)
    decreases lit.bufferEnd - i
  {
    if i < lit.bufferEnd && !(lit.buffer[i] == '\\' && !lit.isRaw) {
      if state == BEFORE_FIRST_QUOTE && lit.buffer[i] == lit.quote {
        ScanPlainStepsForward(lit, AFTER_FIRST_QUOTE, i + 1);
      } else if !(state == AFTER_FIRST_QUOTE && lit.buffer[i] == lit.quote
                  && (!lit.isRaw || lit.buffer[i - 1] != '\\')) {
        ScanPlainStepsForward(lit, state, i + 1);
      }
    }
  }

  /**
   * The state only moves forward, from before the opening quote to inside
   * the literal to exhausted; a scan from the end of the span always
   * exhausts the literal, and an exhausted literal yields empty spans.
   */
  lemma LocateStepsForward(lit: Literal, state: int, s: int)
    requires CanScan(lit, state, s)
    ensures StepsForward(state, Locate(lit, state, s).state)
    ensures BEFORE_FIRST_QUOTE <= state <= AFTER_LAST_QUOTE ==>
              state <= Locate(lit, state, s).state <= AFTER_LAST_QUOTE
    ensures s == lit.bufferEnd || state == AFTER_LAST_QUOTE ==>
              Locate(lit, state, s) == Scan(s, AFTER_LAST_QUOTE)
  {
    if s < lit.bufferEnd && state != AFTER_LAST_QUOTE && lit.buffer[s] != '\\' {
      ScanPlainStepsForward(lit, state, s);
    }
  }

  lemma {:induction false} ScanPlainEnds(lit: Literal, state: int, i: int)
    requires CanScan(lit, state, i)
    requires state != AFTER_LAST_QUOTE
    ensures var r := ScanPlain(lit, state, i);
      (!lit.isRaw ==> forall k :: i <= k < r.end ==> lit.buffer[k] != '\\') &&
      (r.state == AFTER_LAST_QUOTE ==>
         i < r.end && lit.buffer[r.end - 1] == lit.quote &&
         (lit.isRaw ==> 2 <= r.end && lit.buffer[r.end - 2] != '\\')) &&
      (r.state != AFTER_LAST_QUOTE ==>
         r.end == lit.bufferEnd || (!lit.isRaw && lit.buffer[r.end] == '\\'))
    decreases lit.bufferEnd - i
  {
    if i < lit.bufferEnd && !(lit.buffer[i] == '\\' && !lit.isRaw) {
      if state == BEFORE_FIRST_QUOTE && lit.buffer[i] == lit.quote {
        ScanPlainEnds(lit, AFTER_FIRST_QUOTE, i + 1);
      } else if !(state == AFTER_FIRST_QUOTE && lit.buffer[i] == lit.quote
                  && (!lit.isRaw || lit.buffer[i - 1] != '\\')) {
        ScanPlainEnds(lit, state, i + 1);
      }
    }
  }

  /**
   * In a non-raw literal a plain-text span holds no backslash, and it ends
   * right before the next backslash, one past the closing quote, or at the
   * end of the span.
   */
  lemma PlainSpanHasNoBackslash(lit: Literal, state: int, s: int)
    requires CanScan(lit, state, s) && !lit.isRaw
    requires s < lit.bufferEnd && state != AFTER_LAST_QUOTE && lit.buffer[s] != '\\'
    ensures var r := Locate(lit, state, s);
      (forall k :: s <= k < r.end ==> lit.buffer[k] != '\\') &&
      (r.state == AFTER_LAST_QUOTE ==> lit.buffer[r.end - 1] == lit.quote) &&
      (r.state != AFTER_LAST_QUOTE ==> r.end == lit.bufferEnd || lit.buffer[r.end] == '\\')
  {
    ScanPlainEnds(lit, state, s);
  }

  /**
   * A scan exhausts the literal only at a lone backslash that ends a
   * non-raw span, or one past a closing quote; in a raw literal a quote
   * right after a backslash never closes it.
   */
  lemma ExhaustedOnlyAtClosingQuote(lit: Literal, state: int, s: int)
    requires CanScan(lit, state, s)
    requires s < lit.bufferEnd && state != AFTER_LAST_QUOTE
    ensures var r := Locate(lit, state, s);
      r.state == AFTER_LAST_QUOTE ==>
        (!lit.isRaw && lit.buffer[s] == '\\' && r.end == s + 1 == lit.bufferEnd) ||
        (lit.buffer[r.end - 1] == lit.quote &&
         (lit.isRaw ==> 2 <= r.end && lit.buffer[r.end - 2] != '\\'))
  {
    if lit.buffer[s] != '\\' {
      ScanPlainEnds(lit, state, s);
    }
  }

  lemma {:induction false} ScanHexStops(lit: Literal, s: int, i: int)
    requires 0 <= s && s + 2 <= i <= s + 4 && i <= lit.bufferEnd <= |lit.buffer|
    ensures var e := ScanHex(lit, s, i);
      (forall k :: i <= k < e ==> lit.buffer[k] != '\n' && lit.buffer[k] != lit.quote) &&
      (e < s + 4 ==> e == lit.bufferEnd || lit.buffer[e] == '\n' || lit.buffer[e] == lit.quote)
    decreases s + 4 - i
  {
    if i < s + 4 && i < lit.bufferEnd && lit.buffer[i] != '\n' && lit.buffer[i] != lit.quote {
      ScanHexStops(lit, s, i + 1);
    }
  }

  /**
   * The length of an escape span in a non-raw literal: a lone trailing
   * backslash is one character and exhausts the literal; `\x` takes at most
   * four characters, cut short at the end, a line break or the quote
   * character; every other `\c` takes exactly two.
   */
  lemma EscapeSpanLength(lit: Literal, state: int, s: int)
    requires CanScan(lit, state, s) && !lit.isRaw
    requires s < lit.bufferEnd && state != AFTER_LAST_QUOTE && lit.buffer[s] == '\\'
    ensures var r := Locate(lit, state, s);
      (s + 1 == lit.bufferEnd ==> r == Scan(s + 1, AFTER_LAST_QUOTE)) &&
      (s + 1 < lit.bufferEnd && lit.buffer[s + 1] == 'x' ==>
         r.state == state && s + 2 <= r.end <= s + 4 &&
         (forall k :: s + 2 <= k < r.end ==> lit.buffer[k] != '\n' && lit.buffer[k] != lit.quote) &&
         (r.end < s + 4 ==>
            r.end == lit.bufferEnd || lit.buffer[r.end] == '\n' || lit.buffer[r.end] == lit.quote)) &&
      (s + 1 < lit.bufferEnd && lit.buffer[s + 1] != 'x' ==> r == Scan(s + 2, state))
  {
    if s + 1 < lit.bufferEnd && lit.buffer[s + 1] == 'x' {
      ScanHexStops(lit, s, s + 2);
    }
  }

  /** In a raw literal a backslash is a one-character span of literal text. */
  lemma RawBackslashIsText(lit: Literal, original: TokenType, state: int, s: int)
    requires CanScan(lit, state, s) && lit.isRaw
    requires s < lit.bufferEnd && state != AFTER_LAST_QUOTE && lit.buffer[s] == '\\'
    ensures Locate(lit, state, s) == Scan(s + 1, state)
    ensures Classify(lit, original, s, s + 1) == Some(original)
  {
  }

  // ---------------------------------------------------------------------
  // Classification of a span
  // ---------------------------------------------------------------------

  /** The characters that form a valid escape when they follow a backslash (besides a line break). */
  predicate IsSimpleEscapeChar(c: char) {
    c == 'n' || c == 'r' || c == 't' || c == '\'' || c == '"' || c == '\\' || c == '0'
  }

  /** All `count` characters from `from` lie before `end` and are hex digits (`count` is 2, 4 or 8). */
  predicate HexDigitsWithin(buffer: seq<char>, from: int, count: int, end: int)
    requires 0 <= from && end <= |buffer|
  {
    from + count <= end && forall k :: from <= k < from + count ==> IsHexDigit(buffer[k])
  }

  /** The token type of the span `[s, e)`; `None` for an empty span. */
  function Classify(lit: Literal, original: TokenType, s: int, e: int): (r: Option<TokenType>)
    requires 0 <= s && e <= |lit.buffer|
    ensures r == None <==> s >= e
    ensures r.Some? && r.value != original ==>
              !lit.isRaw && lit.buffer[s] == '\\' &&
              r.value in {ValidStringEscape, InvalidCharacterEscape, InvalidUnicodeEscape}
    ensures r.Some? && lit.isRaw ==> r.value == original
  {
    if s >= e then None
    else if lit.isRaw || lit.buffer[s] != '\\' then Some(original)
    else if s + 1 >= e then Some(InvalidCharacterEscape)
    else
      var next := lit.buffer[s + 1];
      if next == '\n' then Some(ValidStringEscape)
      else if next == 'u' || next == 'U' then
        if HexDigitsWithin(lit.buffer, s + 2, if next == 'u' then 4 else 8, e)
        then Some(ValidStringEscape) else Some(InvalidUnicodeEscape)
      else if next == 'x' then
        if HexDigitsWithin(lit.buffer, s + 2, 2, e)
        then Some(ValidStringEscape) else Some(InvalidUnicodeEscape)
      else if IsSimpleEscapeChar(next) then Some(ValidStringEscape)
      else Some(InvalidCharacterEscape)
  }

  predicate AllHex(t: seq<char>) {
    forall k :: 0 <= k < |t| ==> IsHexDigit(t[k])
  }

  /**
   * The text `t` starts with a complete escape: backslash and line break,
   * backslash and one of `n r t ' " \ 0`, or `\x`, `\u`, `\U` followed by
   * 2, 4 or 8 hex digits.
   */
  predicate BeginsWithValidEscape(t: seq<char>) {
    2 <= |t| && t[0] == '\\' &&
    (t[1] == '\n' || IsSimpleEscapeChar(t[1]) ||
     (t[1] == 'x' && 4 <= |t| && AllHex(t[2..4])) ||
     (t[1] == 'u' && 6 <= |t| && AllHex(t[2..6])) ||
     (t[1] == 'U' && 10 <= |t| && AllHex(t[2..10])))
  }

  /** The text `t` starts with one of the numeric escape introducers `\x`, `\u`, `\U`. */
  predicate IsNumericEscape(t: seq<char>) {
    2 <= |t| && t[0] == '\\' && (t[1] == 'x' || t[1] == 'u' || t[1] == 'U')
  }

  lemma HexDigitsWithinSlice(buffer: seq<char>, s: int, e: int, width: int)
    requires 0 <= s && s + 2 <= e <= |buffer| && 0 < width
    ensures HexDigitsWithin(buffer, s + 2, width, e) <==>
              s + 2 + width <= e && AllHex(buffer[s..e][2..2 + width])
  {
    if s + 2 + width <= e {
      var u := buffer[s..e];
      var t := u[2..2 + width];
      forall j | 0 <= j < width ensures t[j] == buffer[s + 2 + j] {
        assert t[j] == u[2 + j];
      }
      if AllHex(t) {
        forall k | s + 2 <= k < s + 2 + width ensures IsHexDigit(buffer[k]) {
          assert IsHexDigit(t[k - s - 2]);
        }
      }
    }
  }

  /**
   * The classification of a span, against the escape grammar on the span's
   * own text: an empty span has no type; a raw literal's span, or one that
   * does not start with a backslash, is literal text; a backslash span is a
   * valid escape exactly when its text begins with a complete escape, and
   * otherwise an invalid unicode escape for `\x` / `\u` / `\U` and an
   * invalid character escape for everything else (a lone backslash too).
   */
  lemma ClassifyMatchesEscapeText(lit: Literal, original: TokenType, s: int, e: int)
    requires 0 <= s && e <= |lit.buffer|
    ensures s >= e ==> Classify(lit, original, s, e) == None
    ensures s < e && (lit.isRaw || lit.buffer[s] != '\\') ==>
              Classify(lit, original, s, e) == Some(original)
    ensures s < e && !lit.isRaw && lit.buffer[s] == '\\' ==>
              Classify(lit, original, s, e) ==
                Some(if BeginsWithValidEscape(lit.buffer[s..e]) then ValidStringEscape
                     else if IsNumericEscape(lit.buffer[s..e]) then InvalidUnicodeEscape
                     else InvalidCharacterEscape)
  {
    if s < e && !lit.isRaw && lit.buffer[s] == '\\' && s + 2 <= e {
      var t := lit.buffer[s..e];
      assert t[0] == '\\' && t[1] == lit.buffer[s + 1];
      HexDigitsWithinSlice(lit.buffer, s, e, 2);
      HexDigitsWithinSlice(lit.buffer, s, e, 4);
      HexDigitsWithinSlice(lit.buffer, s, e, 8);
    }
  }

  /**
   * A `\u` or `\U` escape is always scanned as a two-character span, so the
   * lexer always reports it as an invalid unicode escape, whatever digits
   * follow it.
   */
  lemma UnicodeEscapeIsAlwaysInvalid(lit: Literal, original: TokenType, state: int, s: int)
    requires CanScan(lit, state, s) && !lit.isRaw
    requires s + 1 < lit.bufferEnd && state != AFTER_LAST_QUOTE && lit.buffer[s] == '\\'
    requires lit.buffer[s + 1] == 'u' || lit.buffer[s + 1] == 'U'
    ensures Locate(lit, state, s).end == s + 2
    ensures Classify(lit, original, s, Locate(lit, state, s).end) == Some(InvalidUnicodeEscape)
  {
    var e := Locate(lit, state, s).end;
    assert e == s + 2;
  }

  /**
   * A `\x` span is reported valid exactly when two hex digits follow the
   * `x` inside the literal's span, and as an invalid unicode escape
   * otherwise.
   */
  lemma HexEscapeValidity(lit: Literal, original: TokenType, state: int, s: int)
    requires CanScan(lit, state, s) && !lit.isRaw && !IsHexDigit(lit.quote)
    requires s + 1 < lit.bufferEnd && state != AFTER_LAST_QUOTE
    requires lit.buffer[s] == '\\' && lit.buffer[s + 1] == 'x'
    ensures var kind := Classify(lit, original, s, Locate(lit, state, s).end);
      (kind == Some(ValidStringEscape) <==>
         s + 4 <= lit.bufferEnd && IsHexDigit(lit.buffer[s + 2]) && IsHexDigit(lit.buffer[s + 3])) &&
      (kind != Some(ValidStringEscape) ==> kind == Some(InvalidUnicodeEscape))
  {
    var e := Locate(lit, state, s).end;
    EscapeSpanLength(lit, state, s);
    if s + 4 <= lit.bufferEnd && IsHexDigit(lit.buffer[s + 2]) && IsHexDigit(lit.buffer[s + 3]) {
      assert e == s + 4;
      assert HexDigitsWithin(lit.buffer, s + 2, 2, e);
    }
    if HexDigitsWithin(lit.buffer, s + 2, 2, e) {
      assert s + 3 < e;
    }
  }

  // ---------------------------------------------------------------------
  // The whole sequence of spans
  // ---------------------------------------------------------------------

  /**
   * The spans the lexer emits, one per scan, from offset `s` in `state`
   * until a scan yields an empty span.
   */
  function Spans(lit: Literal, original: TokenType, state: int, s: int): (r: seq<Span>)
    requires CanScan(lit, state, s)
    ensures forall k :: 0 <= k < |r| ==> s <= r[k].start < r[k].end <= lit.bufferEnd
    decreases lit.bufferEnd - s
  {
    var r := Locate(lit, state, s);
    if r.end == s then []
    else [Span(s, r.end, Classify(lit, original, s, r.end).value)] + Spans(lit, original, r.state, r.end)
  }

  /**
   * The emitted spans (non-empty and inside the literal, by the contract of
   * `Spans`) tile the literal from `s` without gaps or overlaps, and there
   * are none exactly when the literal is exhausted or `s` is its end.
   */
  lemma {:induction false} SpansTile(lit: Literal, original: TokenType, state: int, s: int)
    requires CanScan(lit, state, s)
    ensures var sp := Spans(lit, original, state, s);
      (|sp| > 0 ==> sp[0].start == s) &&
      (forall k :: 0 <= k < |sp| - 1 ==> sp[k].end == sp[k + 1].start) &&
      (|sp| == 0 <==> state == AFTER_LAST_QUOTE || s == lit.bufferEnd)
    decreases lit.bufferEnd - s
  {
    var r := Locate(lit, state, s);
    LocateStepsForward(lit, state, s);
    if r.end != s {
      SpansTile(lit, original, r.state, r.end);
      var rest := Spans(lit, original, r.state, r.end);
      var sp := Spans(lit, original, state, s);
      assert sp[0].start == s && sp[0].end == r.end && sp[1..] == rest;
      forall k | 0 <= k < |sp| - 1 ensures sp[k].end == sp[k + 1].start {
        if k > 0 {
          assert sp[k] == rest[k - 1] && sp[k + 1] == rest[k];
        }
      }
    }
  }

  /** The last emitted span ends at the end of the literal or one past a quote character. */
  lemma {:induction false} SpansEndAtQuoteOrEnd(lit: Literal, original: TokenType, state: int, s: int)
    requires CanScan(lit, state, s)
    ensures var sp := Spans(lit, original, state, s);
      |sp| > 0 ==> sp[|sp| - 1].end == lit.bufferEnd || lit.buffer[sp[|sp| - 1].end - 1] == lit.quote
    decreases lit.bufferEnd - s
  {
    var r := Locate(lit, state, s);
    if r.end != s {
      SpansEndAtQuoteOrEnd(lit, original, r.state, r.end);
      var rest := Spans(lit, original, r.state, r.end);
      var sp := Spans(lit, original, state, s);
      assert sp[0].end == r.end && sp[1..] == rest;
      if |rest| == 0 {
        if r.end < lit.bufferEnd {
          ExhaustedOnlyAtClosingQuote(lit, state, s);
        }
      } else {
        assert sp[|sp| - 1] == rest[|rest| - 1];
      }
    }
  }

  /** Every span of `sp` lies in the buffer and carries the token type its own text is classified as. */
  predicate ClassifiedSpans(lit: Literal, original: TokenType, sp: seq<Span>) {
    forall k :: 0 <= k < |sp| ==>
      0 <= sp[k].start && sp[k].end <= |lit.buffer| &&
      Classify(lit, original, sp[k].start, sp[k].end) == Some(sp[k].kind)
  }

  /** Every emitted span carries the token type its own text is classified as. */
  lemma {:induction false} SpansClassified(lit: Literal, original: TokenType, state: int, s: int)
    requires CanScan(lit, state, s)
    ensures ClassifiedSpans(lit, original, Spans(lit, original, state, s))
    decreases lit.bufferEnd - s
  {
    var r := Locate(lit, state, s);
    if r.end != s {
      SpansClassified(lit, original, r.state, r.end);
      var rest := Spans(lit, original, r.state, r.end);
      var sp := Spans(lit, original, state, s);
      assert sp[1..] == rest;
      forall k | 0 <= k < |sp|
        ensures Classify(lit, original, sp[k].start, sp[k].end) == Some(sp[k].kind)
      {
        if k > 0 {
          assert sp[k] == rest[k - 1];
        }
      }
    }
  }

  // The three literals of the lexer's unit tests, each lexed from offset 0
  // in the initial state: text, escape, text.

  lemma LexesNewlineEscapeAsValid()
    ensures Spans(Literal("\"foo\\nbar\"", 10, '"', false), StringLit, BEFORE_FIRST_QUOTE, 0)
         == [Span(0, 4, StringLit), Span(4, 6, ValidStringEscape), Span(6, 10, StringLit)]
  {
    var lit := Literal("\"foo\\nbar\"", 10, '"', false);
    assert ScanPlain(lit, AFTER_FIRST_QUOTE, 1) == Scan(4, AFTER_FIRST_QUOTE);
    assert Locate(lit, BEFORE_FIRST_QUOTE, 0) == Scan(4, AFTER_FIRST_QUOTE);
    assert Locate(lit, AFTER_FIRST_QUOTE, 4) == Scan(6, AFTER_FIRST_QUOTE);
    assert ScanPlain(lit, AFTER_FIRST_QUOTE, 6) == Scan(10, AFTER_LAST_QUOTE);
    assert Spans(lit, StringLit, AFTER_LAST_QUOTE, 10) == [];
  }

  lemma LexesHexEscapeAsValid()
    ensures Spans(Literal("\"foo\\x12bar\"", 12, '"', false), StringLit, BEFORE_FIRST_QUOTE, 0)
         == [Span(0, 4, StringLit), Span(4, 8, ValidStringEscape), Span(8, 12, StringLit)]
  {
    var lit := Literal("\"foo\\x12bar\"", 12, '"', false);
    assert ScanPlain(lit, AFTER_FIRST_QUOTE, 1) == Scan(4, AFTER_FIRST_QUOTE);
    assert Locate(lit, BEFORE_FIRST_QUOTE, 0) == Scan(4, AFTER_FIRST_QUOTE);
    assert ScanHex(lit, 4, 6) == 8;
    assert Locate(lit, AFTER_FIRST_QUOTE, 4) == Scan(8, AFTER_FIRST_QUOTE);
    assert HexDigitsWithin(lit.buffer, 6, 2, 8);
    assert ScanPlain(lit, AFTER_FIRST_QUOTE, 8) == Scan(12, AFTER_LAST_QUOTE);
    assert Spans(lit, StringLit, AFTER_LAST_QUOTE, 12) == [];
  }

  lemma LexesUnknownEscapeAsInvalid()
    ensures Spans(Literal("\"foo\\abar\"", 10, '"', false), StringLit, BEFORE_FIRST_QUOTE, 0)
         == [Span(0, 4, StringLit), Span(4, 6, InvalidCharacterEscape), Span(6, 10, StringLit)]
  {
    var lit := Literal("\"foo\\abar\"", 10, '"', false);
    assert ScanPlain(lit, AFTER_FIRST_QUOTE, 1) == Scan(4, AFTER_FIRST_QUOTE);
    assert Locate(lit, BEFORE_FIRST_QUOTE, 0) == Scan(4, AFTER_FIRST_QUOTE);
    assert Locate(lit, AFTER_FIRST_QUOTE, 4) == Scan(6, AFTER_FIRST_QUOTE);
    assert ScanPlain(lit, AFTER_FIRST_QUOTE, 6) == Scan(10, AFTER_LAST_QUOTE);
    assert Spans(lit, StringLit, AFTER_LAST_QUOTE, 10) == [];
  }

  // ---------------------------------------------------------------------
  // The prefix read by `start`
  // ---------------------------------------------------------------------

  /** The literal at `s` can be read: its optional `b` and `r` are followed by a quote character. */
  predicate QuotedAt(buffer: seq<char>, s: int) {
    0 <= s < |buffer| && AfterByteMarker(buffer, s) < |buffer| &&
    (buffer[AfterByteMarker(buffer, s)] == 'r' ==> AfterByteMarker(buffer, s) + 1 < |buffer|) &&
    IsQuoteChar(buffer[QuoteIndex(buffer, s)])
  }

  predicate HasRawMarker(buffer: seq<char>, s: int)
    requires 0 <= s < |buffer| && AfterByteMarker(buffer, s) < |buffer|
  {
    buffer[AfterByteMarker(buffer, s)] == 'r'
  }

  /** The offset of the quote after an optional `b` and an optional `r`. */
  function QuoteIndex(buffer: seq<char>, s: int): int
    requires 0 <= s < |buffer| && AfterByteMarker(buffer, s) < |buffer|
    requires HasRawMarker(buffer, s) ==> AfterByteMarker(buffer, s) + 1 < |buffer|
  {
    if HasRawMarker(buffer, s) then AfterByteMarker(buffer, s) + 1 else AfterByteMarker(buffer, s)
  }

  // ---------------------------------------------------------------------
  // The resumable lexer
  // ---------------------------------------------------------------------

  /**
   * The lexer object. Between calls it holds the current span
   * `[tokenStart, tokenEnd)`, the state after scanning it (`state`) and the
   * state before that scan (`lastState`, the checkpoint the host saves).
   * The byte and raw flags are only ever set by `Start`, never cleared.
   */
  class StringLiteralLexer {
    const originalLiteralToken: TokenType
    var buffer: seq<char>
    var tokenStart: int
    var tokenEnd: int
    var state: int
    var lastState: int
    var bufferEnd: int
    var quoteChar: char
    var isByte: bool
    var isRaw: bool

    function Lit(): Literal
      reads this
    {
      Literal(buffer, bufferEnd, quoteChar, isRaw)
    }

    ghost predicate Valid()
      reads this
    {
      CanScan(Lit(), state, tokenEnd) && 0 <= tokenStart <= tokenEnd &&
      (tokenStart == tokenEnd ==> state == AFTER_LAST_QUOTE || tokenEnd == bufferEnd)
    }

    /** The consistency the lexer asserts for the current span. */
    predicate Consistent()
      reads this
    {
      tokenStart < tokenEnd || (tokenStart == tokenEnd && tokenEnd == bufferEnd)
    }

    /** The spans still to be emitted, the current one first. */
    ghost function Remaining(): seq<Span>
      reads this
      requires Valid()
    {
      if tokenStart == tokenEnd then []
      else [Span(tokenStart, tokenEnd, Classify(Lit(), originalLiteralToken, tokenStart, tokenEnd).value)]
           + Spans(Lit(), originalLiteralToken, state, tokenEnd)
    }

    constructor (originalLiteralToken: TokenType)
      ensures this.originalLiteralToken == originalLiteralToken
      ensures Valid() && !isByte && !isRaw
      ensures Remaining() == []
    {
      this.originalLiteralToken := originalLiteralToken;
      buffer := [];
      tokenStart, tokenEnd, bufferEnd := 0, 0, 0;
      state, lastState := BEFORE_FIRST_QUOTE, BEFORE_FIRST_QUOTE;
      quoteChar := '\0';
      isByte, isRaw := false, false;
    }

    /**
     * Starts lexing the literal at `startOffset`, ending at `endOffset`, in
     * `initialState`. Reads the optional `b` and `r` markers and the quote
     * character, and scans the first span.
     */
    method Start(buf: seq<char>, startOffset: int, endOffset: int, initialState: int)
      requires QuotedAt(buf, startOffset) && startOffset <= endOffset <= |buf|
      requires CanScan(Literal(buf, endOffset, buf[QuoteIndex(buf, startOffset)],
                               isRaw || HasRawMarker(buf, startOffset)), initialState, startOffset)
      modifies this
      ensures buffer == buf && bufferEnd == endOffset && tokenStart == startOffset
      ensures lastState == initialState
      ensures isByte == (old(isByte) || buf[startOffset] == 'b')
      ensures isRaw == (old(isRaw) || HasRawMarker(buf, startOffset))
      ensures quoteChar == buf[QuoteIndex(buf, startOffset)]
      ensures Scan(tokenEnd, state) == Locate(Lit(), initialState, startOffset)
      ensures Valid()
      ensures Remaining() == Spans(Lit(), originalLiteralToken, initialState, startOffset)
      ensures initialState != AFTER_LAST_QUOTE || startOffset == endOffset ==> Consistent()
    {
      buffer := buf;
      tokenStart := startOffset;
      state := initialState;
      lastState := initialState;
      bufferEnd := endOffset;

      var i := tokenStart;
      if buf[i] == 'b' {
        i := i + 1;
        isByte := true;
      }
      if buf[i] == 'r' {
        i := i + 1;
        isRaw := true;
      }
      quoteChar := buf[i];

      tokenEnd := LocateToken(tokenStart);
    }

    /** The state before the most recent scan. */
    method GetState() returns (s: int)
      ensures s == lastState
    {
      s := lastState;
    }

    /**
     * The start of the current span. The lexer asserts that the span is
     * non-empty, or empty at the end of the literal; that assertion is the
     * precondition here.
     */
    method GetTokenStart() returns (r: int)
      requires Valid() && Consistent()
      ensures r == tokenStart
      ensures r < tokenEnd || r == bufferEnd
    {
      r := tokenStart;
    }

    /**
     * The end of the current span. An inconsistent span is only logged, and
     * it can only be an empty span in the exhausted state.
     */
    method GetTokenEnd() returns (r: int)
      requires Valid()
      ensures r == tokenEnd
      ensures !Consistent() ==> r == tokenStart && r < bufferEnd && state == AFTER_LAST_QUOTE
    {
      r := tokenEnd;
    }

    /** The token type of the current span. */
    method GetTokenType() returns (t: Option<TokenType>)
      requires Valid()
      ensures t == Classify(Lit(), originalLiteralToken, tokenStart, tokenEnd)
    {
      if tokenStart >= tokenEnd {
        return None;
      }
      if isRaw || buffer[tokenStart] != '\\' {
        return Some(originalLiteralToken);
      }
      if tokenStart + 1 >= tokenEnd {
        return Some(InvalidCharacterEscape);
      }
      var nextChar := buffer[tokenStart + 1];
      if nextChar == '\n' {
        return Some(ValidStringEscape);
      }
      if nextChar == 'u' || nextChar == 'U' {
        var width := if nextChar == 'u' then 4 else 8;
        var i := tokenStart + 2;
        while i < tokenStart + width + 2
          invariant tokenStart + 2 <= i <= tokenStart + width + 2
          invariant i == tokenStart + 2 || i <= tokenEnd
          invariant forall k :: tokenStart + 2 <= k < i ==> IsHexDigit(buffer[k])
        {
          if i >= tokenEnd || !IsHexDigit(buffer[i]) {
            return Some(InvalidUnicodeEscape);
          }
          i := i + 1;
        }
        return Some(ValidStringEscape);
      }
      if nextChar == 'x' {
        var i := tokenStart + 2;
        while i < tokenStart + 4
          invariant tokenStart + 2 <= i <= tokenStart + 4
          invariant i == tokenStart + 2 || i <= tokenEnd
          invariant forall k :: tokenStart + 2 <= k < i ==> IsHexDigit(buffer[k])
        {
          if i >= tokenEnd || !IsHexDigit(buffer[i]) {
            assert !(i < tokenEnd && IsHexDigit(buffer[i]));
            return Some(InvalidUnicodeEscape);
          }
          i := i + 1;
        }
        return Some(ValidStringEscape);
      }
      if IsSimpleEscapeChar(nextChar) {
        return Some(ValidStringEscape);
      }
      return Some(InvalidCharacterEscape);
    }

    /** Scans the span that starts at `s`, updating the state. */
    method LocateToken(s: int) returns (e: int)
      requires CanScan(Lit(), state, s)
      modifies this`state
      ensures Scan(e, state) == Locate(Lit(), old(state), s)
    {
      if s == bufferEnd {
        state := AFTER_LAST_QUOTE;
      }
      if state == AFTER_LAST_QUOTE {
        return s;
      }
      var i := s;
      if buffer[i] == '\\' {
        i := i + 1;
        if isRaw {
          return i;
        }
        if i == bufferEnd {
          state := AFTER_LAST_QUOTE;
          return i;
        }
        if buffer[i] == 'x' {
          i := i + 1;
          while i < s + 4
            invariant s + 2 <= i <= s + 4 && i <= bufferEnd
            invariant ScanHex(Lit(), s, i) == ScanHex(Lit(), s, s + 2)
          {
            if i == bufferEnd || buffer[i] == '\n' || buffer[i] == quoteChar {
              return i;
            }
            i := i + 1;
          }
          return i;
        }
        return i + 1;
      }
      ghost var first := state;
      while i < bufferEnd
        invariant s <= i <= bufferEnd
        invariant i == 0 && 0 < bufferEnd && isRaw && state == AFTER_FIRST_QUOTE ==> buffer[0] != quoteChar
        invariant state != AFTER_LAST_QUOTE
        invariant ScanPlain(Lit(), state, i) == ScanPlain(Lit(), first, s)
      {
        if buffer[i] == '\\' && !isRaw {
          return i;
        }
        if state == BEFORE_FIRST_QUOTE && buffer[i] == quoteChar {
          state := AFTER_FIRST_QUOTE;
        } else if state == AFTER_FIRST_QUOTE && buffer[i] == quoteChar
                  && (!isRaw || buffer[i - 1] != '\\') {
          state := AFTER_LAST_QUOTE;
          return i + 1;
        }
        i := i + 1;
      }
      return i;
    }

    /** Moves to the next span: it starts where the current one ends. */
    method Advance()
      requires Valid()
      modifies this`lastState, this`tokenStart, this`tokenEnd, this`state
      ensures Valid()
      ensures lastState == old(state) && tokenStart == old(tokenEnd)
      ensures Scan(tokenEnd, state) == Locate(Lit(), old(state), tokenStart)
      ensures Remaining() == if old(Remaining()) == [] then [] else old(Remaining())[1..]
      ensures old(state) != AFTER_LAST_QUOTE || tokenStart == bufferEnd ==> Consistent()
    {
      lastState := state;
      tokenStart := tokenEnd;
      tokenEnd := LocateToken(tokenStart);
    }
  }
}
