# Rust literal sub-lexer and quote handler, modelled in Dafny

This project models two classes of an editor plugin for Rust. Both work on
the text of one literal token: a string, byte string, raw string or
character literal.

- `RustStringLiteralLexer` is a resumable lexer over one literal's span
  `[start, bufferEnd)`. It cuts the span into runs of plain literal text and
  escape sequences. It reports each escape as a valid escape, an invalid
  character escape or an invalid unicode escape. Its state is one of three
  integer codes: before the first quote (0), after the first quote (1) and
  after the last quote (2).
- `RustQuoteHandler` resolves where a literal's opening quote is. The quote
  comes after an optional `b`, an optional `r` and a raw literal's run of
  `#`. The handler also computes what text to insert to close the literal
  when a quote is typed, and decides whether the literal token is
  unterminated.

Files:

- `tokens.dfy` (module `Tokens`): the token types, an `Option` type
  (`None` stands for Java's `null`), and the quote-character and byte-marker
  tests that both modules use.
- `string_literals.dfy` (module `StringLiterals`): the lexer.
  - The boundary scan is the function `Locate`, built from `ScanPlain` (the
    plain-text loop) and `ScanHex` (the `\x` loop).
  - The classification of a span is `Classify`.
  - The whole run of spans is `Spans`.
  - The class `StringLiteralLexer` has the Java class's fields. Its methods
    `Start`, `Advance` and `LocateToken` update those fields and are proved
    against `Locate` and `Spans`. `GetTokenType` runs the hex-digit loops
    and is proved equal to `Classify`.
- `quote_handler.dfy` (module `QuoteHandler`): the quote handler. It has no
  class, because the Java class has no fields. The three loop-based
  operations are methods with loop invariants. Each is proved against a
  function (`ResolvePrefix`, `ClosingQuote`) or a predicate
  (`EndsWithClosingDelimiter`). The two editor tests are predicates.

In these places the model follows the code, some of which differ from the
Rust grammar or from what the lexer's names suggest:

- `start` does not skip `#`. The character after the optional `b` and `r`
  must be a quote. This is a precondition of `Start` (`QuotedAt`).
- `start` only ever sets the byte and raw flags. It never clears them, so
  they persist across `Start` calls.
- A `\u` or `\U` escape is scanned as a two-character span. Its hex digits
  therefore never lie inside the span, and it is always reported as an
  invalid unicode escape (`UnicodeEscapeIsAlwaysInvalid`).
- `isClosingQuote` refuses only literals whose hash count is above 0. A raw
  literal `r"…"` without `#` is handed to the generic test.
- `isNonClosedLiteral` looks for a `"` before the `#` run, whatever the
  literal's own quote. A character literal `'a'` is therefore reported
  unterminated (`NonClosedExamples`).
- The consistency condition the lexer asserts is "start before end, or both
  at the buffer end". It does not hold after every `advance`. Once the
  closing quote has been passed before the end of the span, the next span is
  empty and ends before the buffer end. `Advance` promises the condition
  only when the literal was not already exhausted. `GetTokenStart`, where
  the lexer asserts it, requires it.
  `ExhaustedOnlyAtClosingQuote` shows that exhaustion before the buffer end
  happens only one past a quote character.

Index reads that the Java code does without bounds checks are
preconditions:

- `CanScan`: in raw mode, the lexer's test for an escaped closing quote
  reads the character before the quote. The precondition excludes the one
  case where that character would be at offset -1.
- `QuotedAt`: the prefix read by `start` stays inside the text.
- `PrefixReadable`: the `#` run read by `findLiteralStartOffset` ends
  before the end of the text.
- `AbsorptionReadable`: the `#` run that `getClosingQuote` reads at the
  cursor stays inside the text.

## Model

| member | source | states |
|---|---|---|
| `StringLiterals.ScanPlain` | src/java/main/vektah/rust/RustStringLiteralLexer.java:171-185 | the plain-text scan from `i` ends inside `[i, bufferEnd]` |
| `StringLiterals.ScanHex` | src/java/main/vektah/rust/RustStringLiteralLexer.java:158-167 | the `\x` scan ends at most four characters after the backslash and never past the end of the span |
| `StringLiterals.Locate` | src/java/main/vektah/rust/RustStringLiteralLexer.java:143-186 | a span end lies in `[s, bufferEnd]`; it is strictly past `s` when `s` is before the end and the literal is not exhausted; an empty span exhausts the literal; the next scan may start at the span end |
| `StringLiterals.ScanPlainStepsForward` | src/java/main/vektah/rust/RustStringLiteralLexer.java:171-182 | the plain-text loop moves the state only forward |
| `StringLiterals.LocateStepsForward` | src/java/main/vektah/rust/RustStringLiteralLexer.java:144-179 | a scan keeps the state, exhausts the literal, or moves from before to after the opening quote (so states 0..2 never decrease); a scan at the end of the span or in the exhausted state yields the empty span and the exhausted state |
| `StringLiterals.ScanPlainEnds` | src/java/main/vektah/rust/RustStringLiteralLexer.java:171-185 | a plain-text run holds no backslash in non-raw mode; it exhausts the literal only one past a quote that, in raw mode, does not follow a backslash; otherwise it stops at the end or (non-raw) right before a backslash |
| `StringLiterals.PlainSpanHasNoBackslash` | src/java/main/vektah/rust/RustStringLiteralLexer.java:169-185 | in a non-raw literal a plain span holds no backslash and ends right before the next backslash, one past the closing quote, or at the end of the span |
| `StringLiterals.ExhaustedOnlyAtClosingQuote` | src/java/main/vektah/rust/RustStringLiteralLexer.java:149-179 | a scan exhausts the literal only at a lone trailing backslash (non-raw) or one past the closing quote; in raw mode a quote after a backslash does not close |
| `StringLiterals.ScanHexStops` | src/java/main/vektah/rust/RustStringLiteralLexer.java:159-166 | the `\x` digits scanned hold no line break and no quote character, and a span shorter than four characters stops at the end, a line break or the quote |
| `StringLiterals.EscapeSpanLength` | src/java/main/vektah/rust/RustStringLiteralLexer.java:149-168 | in non-raw mode a lone trailing backslash is a one-character span that exhausts the literal; `\x` spans two to four characters, cut short only at the end, a line break or the quote; any other `\c` is exactly two characters; the state is kept otherwise |
| `StringLiterals.RawBackslashIsText` | src/java/main/vektah/rust/RustStringLiteralLexer.java:149-152 | in a raw literal a backslash is a one-character span classified as the literal's own token type |
| `StringLiterals.Classify` | src/java/main/vektah/rust/RustStringLiteralLexer.java:85-129 | an empty span has no type; a type other than the literal's own is one of the three escape types and only for a span that starts with a backslash in a non-raw literal; every span of a raw literal has the literal's own type |
| `StringLiterals.ClassifyMatchesEscapeText` | src/java/main/vektah/rust/RustStringLiteralLexer.java:85-129 | an empty span has no type; a raw span, or one not starting with a backslash, has the literal's type; a backslash span is a valid escape exactly when its text begins with a complete escape (escaped line break, one of `n r t ' " \ 0`, or `\x`/`\u`/`\U` with 2/4/8 hex digits inside the span), otherwise an invalid unicode escape for `\x`/`\u`/`\U` and an invalid character escape for the rest |
| `StringLiterals.UnicodeEscapeIsAlwaysInvalid` | src/java/main/vektah/rust/RustStringLiteralLexer.java:100-106 | a `\u` or `\U` span is two characters long and is therefore always an invalid unicode escape |
| `StringLiterals.HexEscapeValidity` | src/java/main/vektah/rust/RustStringLiteralLexer.java:109-115 | a scanned `\x` span is valid exactly when two hex digits follow the `x` inside the literal's span, and is otherwise an invalid unicode escape |
| `StringLiterals.Spans` | src/java/main/vektah/rust/RustStringLiteralLexer.java:188-196 | every span emitted from `s` by repeated scans is non-empty and lies inside `[s, bufferEnd]` |
| `StringLiterals.SpansClassified` | src/java/main/vektah/rust/RustStringLiteralLexer.java:85-129 | every emitted span carries the token type that the classification gives for its own text |
| `StringLiterals.SpansTile` | src/java/main/vektah/rust/RustStringLiteralLexer.java:188-196 | the emitted spans start at `s` and follow each other without gap or overlap; there are none exactly when the literal is exhausted or `s` is its end |
| `StringLiterals.SpansEndAtQuoteOrEnd` | src/java/main/vektah/rust/RustStringLiteralLexer.java:175-185 | the last emitted span ends at the end of the literal or one past a quote character |
| `StringLiterals.LexesNewlineEscapeAsValid` | src/java/test/vektah/rust/StringLiteralLexerTest.java:6-9 | `"foo\nbar"` lexes as literal text, a valid escape, literal text |
| `StringLiterals.LexesHexEscapeAsValid` | src/java/test/vektah/rust/StringLiteralLexerTest.java:11-14 | `"foo\x12bar"` lexes as literal text, a four-character valid escape, literal text |
| `StringLiterals.LexesUnknownEscapeAsInvalid` | src/java/test/vektah/rust/StringLiteralLexerTest.java:16-19 | `"foo\abar"` lexes as literal text, an invalid character escape, literal text |
| `StringLiterals.StringLiteralLexer.constructor` | src/java/main/vektah/rust/RustStringLiteralLexer.java:49-51 | a new lexer keeps the literal's token type, has the byte and raw flags clear and has no spans to emit |
| `StringLiterals.StringLiteralLexer.Start` | src/java/main/vektah/rust/RustStringLiteralLexer.java:53-79 | sets buffer, span end, start and both states; sets (never clears) the byte and raw flags from the `b`/`r` prefix; takes the quote after them; scans the first span; the spans still to come are exactly `Spans` from the start offset in the initial state |
| `StringLiterals.StringLiteralLexer.GetState` | src/java/main/vektah/rust/RustStringLiteralLexer.java:81-83 | returns the state from before the latest scan |
| `StringLiterals.StringLiteralLexer.GetTokenStart` | src/java/main/vektah/rust/RustStringLiteralLexer.java:131-134 | requires the asserted consistency (the span is non-empty, or empty at the end of the literal) and returns the span start |
| `StringLiterals.StringLiteralLexer.GetTokenEnd` | src/java/main/vektah/rust/RustStringLiteralLexer.java:136-141 | returns the span end; when the logged consistency fails, the span is empty, ends before the end of the literal, and the literal is exhausted |
| `StringLiterals.StringLiteralLexer.GetTokenType` | src/java/main/vektah/rust/RustStringLiteralLexer.java:85-129 | the token type of the current span, computed with the hex-digit loops, equals `Classify` |
| `StringLiterals.StringLiteralLexer.LocateToken` | src/java/main/vektah/rust/RustStringLiteralLexer.java:143-186 | the loops return the span end and leave the state that `Locate` gives, changing no other field |
| `StringLiterals.StringLiteralLexer.Advance` | src/java/main/vektah/rust/RustStringLiteralLexer.java:188-196 | the saved state is the old state; the new span starts at the old end; the spans still to come lose exactly their first element; the consistency condition holds unless the literal was already exhausted before the end |
| `QuoteHandler.HashRunLength` | src/java/main/vektah/rust/RustQuoteHandler.java:87-90 | the run of `#` at `i` is all `#`, stays inside the text and is maximal |
| `QuoteHandler.Repeat` | src/java/main/vektah/rust/RustQuoteHandler.java:63 | `k` copies of the character |
| `QuoteHandler.ResolvePrefix` | src/java/main/vektah/rust/RustQuoteHandler.java:80-93 | the quote offset is the offset after an optional `b`; after an `r` it is one past the `r` plus the hash count, every character of the hash run is `#` and the quote is not `#`; without `r` the hash count is 0 |
| `QuoteHandler.FindLiteralStartOffset` | src/java/main/vektah/rust/RustQuoteHandler.java:81-93 | the counting loop returns exactly `ResolvePrefix`; it reads no state and changes nothing, so equal text and offset give equal pairs |
| `QuoteHandler.PrefixRoundTrip` | src/java/main/vektah/rust/RustQuoteHandler.java:81-93 | resolving a literal written as `b`?, `r` and `n` `#`, then a quote, gives the quote's offset and `n` |
| `QuoteHandler.PrefixTextBeforeQuote` | src/java/main/vektah/rust/RustQuoteHandler.java:81-93 | the text from the literal's start to the resolved quote is exactly its `b`/`r`/`#` prefix |
| `QuoteHandler.ClosingQuote` | src/java/main/vektah/rust/RustQuoteHandler.java:46-66 | the closing text starts with `"` exactly when the typed quote directly follows the opening quote; the rest is only `#`; their number is the hash count minus the `#` run already at the cursor, capped at the hash count; the length is at most one plus the hash count |
| `QuoteHandler.GetClosingQuote` | src/java/main/vektah/rust/RustQuoteHandler.java:46-66 | the absorbing loop returns exactly `ClosingQuote` |
| `QuoteHandler.ClosingQuoteOfEmptyRawLiteral` | src/java/main/vektah/rust/RustQuoteHandler.java:51-55 | a quote typed after `r##` is closed by `"##` |
| `QuoteHandler.ClosingQuoteAfterText` | src/java/main/vektah/rust/RustQuoteHandler.java:51-55 | a quote typed after `r##"foo` is closed by `##` |
| `QuoteHandler.ClosingQuoteAbsorbsHashes` | src/java/main/vektah/rust/RustQuoteHandler.java:57-62 | a quote typed after `r##"foo` with `##` already after the cursor is closed by nothing |
| `QuoteHandler.EndsWithClosingDelimiter` | src/java/main/vektah/rust/RustQuoteHandler.java:69-78 | the token is terminated exactly when its last `n`+1 characters, all inside the token, are `"` followed by `n` copies of `#` |
| `QuoteHandler.IsNonClosedLiteral` | src/java/main/vektah/rust/RustQuoteHandler.java:68-78 | the literal is unterminated exactly when the token does not end with a `"` followed by the hash count's `#`, all inside the token |
| `QuoteHandler.NonClosedExamples` | src/java/main/vektah/rust/RustQuoteHandler.java:69-78 | with the hash counts the prefix resolver gives, `"a"` and `r#"a"#` are terminated; `r#"a"` is not, and neither is `'a'` |
| `QuoteHandler.IsOpeningQuote` | src/java/main/vektah/rust/RustQuoteHandler.java:18-29 | only a literal token has an opening quote; it lies inside the text at or after the token start, right after the start, a `b`, an `r` or a `#` |
| `QuoteHandler.IsClosingQuote` | src/java/main/vektah/rust/RustQuoteHandler.java:31-42 | a quote is a closing quote exactly when the generic test says so and the literal does not start with `r#` (after an optional `b`) |
| `QuoteHandler.OpeningQuoteFollowsPrefix` | src/java/main/vektah/rust/RustQuoteHandler.java:18-29 | the opening quote of a literal token is exactly the character after its prefix, and only the three literal token types have one |
| `QuoteHandler.ClosingQuoteOnlyWithoutHashes` | src/java/main/vektah/rust/RustQuoteHandler.java:31-42 | a literal with `#` delimiters never has a simple closing quote; every other literal, `r"…"` included, gets the generic test's answer |

## Left out

- Logging and assertions that only report: `LOG.error`, `LOG.warn` and `LOG.assertTrue` in RustStringLiteralLexer.java (lines 138, 150, 193). They change no state. The consistency they report is stated as contracts instead.
- `getBufferSequence` and `getBufferEnd`: accessors with no logic. In the model `buffer` and `bufferEnd` are fields that callers read directly.
- StringLiterals.StringLiteralLexer.GetTokenStart: requires the consistency that the Java `assert` at RustStringLiteralLexer.java:132 checks. That state can be reached: after `start` in the exhausted state before the end, or after `advance` past a closing quote before the end. There, with Java assertions enabled the source fails, and with them disabled it returns the start of the empty span. The model covers neither outcome.
- The Java `assert` that a quote follows the prefix (RustStringLiteralLexer.java:74) is a precondition of `Start`. With Java assertions disabled, the code would go on with a non-quote quote character. The model does not cover that.
- Resuming mid-literal: `start` re-reads a `b`/`r` prefix at whatever offset it is given. A restart from a saved state is therefore modelled only at offsets where a quote follows the optional `b`/`r`. The spans a restart yields are `Spans` from that offset and state.
- Saved states are the Java integer codes. There is no separate enumeration with an encoding to integers, because the code has none.
- The editor's `Document` and `HighlighterIterator`, and their null checks (RustQuoteHandler.java:23-25, 33-35). They are replaced by the document text, the token start, end and type. A missing document is not modelled.
- `SimpleTokenSetQuoteHandler.isClosingQuote` (RustQuoteHandler.java:41) is library code that is not part of this model. Its answer is the parameter `superIsClosingQuote`.
- `StringUtil.isHexDigit` and `StringUtil.repeat` are replaced by `IsHexDigit` (`0-9a-fA-F`) and `Repeat`.
- Reads past the end of the document are preconditions, not modelled exceptions. This covers `findLiteralStartOffset` (RustQuoteHandler.java:83-87) and the absorbing loop of `getClosingQuote` (RustQuoteHandler.java:59).
- `QuoteHandler.ResolvePrefix`: states that the character at the quote offset is not `#` only for raw literals. Without an `r` the resolver does not test that character against `#`.
- Character width: the source indexes its text in UTF-16 code units, while the model's `char` is a Unicode scalar value, so every offset counts scalar values. A character outside the Basic Multilingual Plane right after a `\` (the two-unit escape span ending at RustStringLiteralLexer.java:168) or inside the `\x` window (the four-unit limit at :161) is split between spans by the source but kept whole by the model. The quote handler only compares ASCII characters and is unaffected.
- RustSyntaxHighlighter.java (colour table, layered-lexer wiring) and folding/RustFoldingBuilder.java (a walk over the editor's syntax tree) contain no logic about literals and are not part of this model.
