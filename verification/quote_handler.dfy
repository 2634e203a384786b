/**
 * The quote handler the editor consults when a quote is typed inside a
 * Rust literal token: where the literal's opening quote is (after its
 * optional `b`, optional `r` and a raw literal's run of `#`), what text
 * closes the literal, and whether the token is still unterminated.
 *
 * The handler keeps no state. The editor's document and highlighter are
 * replaced by the document text `chars` and the token's start, end and
 * type.
 */
module QuoteHandler {
  import opened Tokens

  /** The resolver's answer: the offset of the opening quote and the number of `#` of a raw literal. */
  datatype LiteralStart = LiteralStart(quoteOffset: int, numHashes: nat)

  /** The token types the handler treats as literals. */
  predicate IsLiteralToken(t: TokenType) {
    t == StringLit || t == RawStringLit || t == CharLit
  }

  /** The length of the run of `#` that starts at `i`. */
  function HashRunLength(chars: seq<char>, i: int): (n: nat)
    requires 0 <= i <= |chars|
    ensures i + n <= |chars|
    ensures forall k :: i <= k < i + n ==> chars[k] == '#'
    ensures i + n == |chars| || chars[i + n] != '#'
    decreases |chars| - i
  {
    if i == |chars| || chars[i] != '#' then 0 else 1 + HashRunLength(chars, i + 1)
  }

  /** `c` repeated `k` times. */
  function Repeat(c: char, k: nat): (s: string)
    ensures |s| == k
    ensures forall i :: 0 <= i < k ==> s[i] == c
  {
    if k == 0 then [] else [c] + Repeat(c, k - 1)
  }

  function Min(a: int, b: int): int {
    if a <= b then a else b
  }

  // ---------------------------------------------------------------------
  // Resolving the literal's prefix
  // ---------------------------------------------------------------------

  /**
   * The resolver's reads stay inside the text: there is a character after
   * the optional `b`, and the run of `#` after an `r` ends before the end
   * of the text.
   */
  predicate PrefixReadable(chars: seq<char>, offset: int) {
    0 <= offset < |chars| && AfterByteMarker(chars, offset) < |chars| &&
    (chars[AfterByteMarker(chars, offset)] == 'r' ==>
       AfterByteMarker(chars, offset) + 1 + HashRunLength(chars, AfterByteMarker(chars, offset) + 1) < |chars|)
  }

  /**
   * The literal's prefix, read from its first character at `offset`: the
   * quote comes after an optional `b` and, when an `r` follows, after the
   * `r` and exactly the run of `#` that follows it, whose length is the
   * hash count; without an `r` the hash count is 0.
   */
  function ResolvePrefix(chars: seq<char>, offset: int): (r: LiteralStart)
    requires PrefixReadable(chars, offset)
    ensures offset <= r.quoteOffset < |chars|
    ensures var p := AfterByteMarker(chars, offset);
      if chars[p] == 'r' then
        r.quoteOffset == p + 1 + r.numHashes &&
        (forall k :: r.quoteOffset - r.numHashes <= k < r.quoteOffset ==> chars[k] == '#') &&
        chars[r.quoteOffset] != '#'
      else
        r == LiteralStart(p, 0)
  {
    var p := AfterByteMarker(chars, offset);
    if chars[p] == 'r' then
      var n := HashRunLength(chars, p + 1);
      LiteralStart(p + 1 + n, n)
    else
      LiteralStart(p, 0)
  }

  /** The resolver as the handler runs it: a scan that counts the `#` one by one. */
  method FindLiteralStartOffset(chars: seq<char>, offset: int) returns (r: LiteralStart)
    requires PrefixReadable(chars, offset)
    ensures r == ResolvePrefix(chars, offset)
  {
    var i := offset;
    var numHashes := 0;
    if chars[i] == 'b' {
      i := i + 1;
    }
    if chars[i] == 'r' {
      i := i + 1;
      ghost var runStart := i;
      while chars[i] == '#'
        invariant runStart <= i <= |chars| && i - runStart == numHashes
        invariant i + HashRunLength(chars, i) == runStart + HashRunLength(chars, runStart)
        invariant runStart + HashRunLength(chars, runStart) < |chars|
        decreases |chars| - i
      {
        i := i + 1;
        numHashes := numHashes + 1;
      }
    }
    r := LiteralStart(i, numHashes);
  }

  /** The text of a literal prefix: an optional `b`, then for a raw literal `r` and `numHashes` `#`. */
  function PrefixText(isByte: bool, isRaw: bool, numHashes: nat): string {
    (if isByte then "b" else "") + (if isRaw then "r" + Repeat('#', numHashes) else "")
  }

  lemma {:induction false} HashRunOfRepeat(chars: seq<char>, i: int, n: nat)
    requires 0 <= i && i + n < |chars|
    requires forall k :: i <= k < i + n ==> chars[k] == '#'
    requires chars[i + n] != '#'
    ensures HashRunLength(chars, i) == n
    decreases n
  {
    if n > 0 {
      HashRunOfRepeat(chars, i + 1, n - 1);
    }
  }

  /**
   * Resolving the prefix of a literal written as prefix text and a quote
   * gives back the quote's offset and the hash count it was written with.
   */
  lemma PrefixRoundTrip(before: string, isByte: bool, isRaw: bool, numHashes: nat, rest: string)
    requires 0 < |rest| && IsQuoteChar(rest[0])
    requires !isRaw ==> numHashes == 0
    ensures var chars := before + PrefixText(isByte, isRaw, numHashes) + rest;
      PrefixReadable(chars, |before|) &&
      ResolvePrefix(chars, |before|) ==
        LiteralStart(|before| + |PrefixText(isByte, isRaw, numHashes)|, numHashes)
  {
    var prefix := PrefixText(isByte, isRaw, numHashes);
    var chars := before + prefix + rest;
    var p := |before| + (if isByte then 1 else 0);
    if isByte {
      assert chars[|before|] == 'b';
    } else if isRaw {
      assert chars[|before|] == 'r';
    } else {
      assert chars[|before|] == rest[0];
    }
    assert AfterByteMarker(chars, |before|) == p;
    if isRaw {
      assert chars[p] == 'r';
      forall k | p + 1 <= k < p + 1 + numHashes ensures chars[k] == '#' {
        assert chars[k] == prefix[k - |before|];
      }
      assert chars[p + 1 + numHashes] == rest[0];
      HashRunOfRepeat(chars, p + 1, numHashes);
    } else {
      assert chars[p] == rest[0];
    }
  }

  /** The text from the literal's first character to its opening quote is exactly its prefix. */
  lemma PrefixTextBeforeQuote(chars: seq<char>, offset: int)
    requires PrefixReadable(chars, offset)
    ensures var r := ResolvePrefix(chars, offset);
      chars[offset..r.quoteOffset] ==
        PrefixText(chars[offset] == 'b', chars[AfterByteMarker(chars, offset)] == 'r', r.numHashes)
  {
    var r := ResolvePrefix(chars, offset);
    var p := AfterByteMarker(chars, offset);
    var text := PrefixText(chars[offset] == 'b', chars[p] == 'r', r.numHashes);
    assert |text| == r.quoteOffset - offset;
    forall k | 0 <= k < |text| ensures chars[offset..r.quoteOffset][k] == text[k] {
      if chars[offset] == 'b' && k == 0 {
      } else if chars[p] == 'r' && k == p - offset {
      } else {
        assert chars[offset + k] == '#';
      }
    }
  }

  // ---------------------------------------------------------------------
  // The text that closes the literal
  // ---------------------------------------------------------------------

  /**
   * Absorbing the `#` already present at `offset` stays inside the text:
   * either the run there holds all `numHashes` of them, or it ends before
   * the end of the text.
   */
  predicate AbsorptionReadable(chars: seq<char>, numHashes: nat, offset: int) {
    numHashes == 0 ||
    (0 <= offset <= |chars| &&
     (numHashes <= HashRunLength(chars, offset) || offset + HashRunLength(chars, offset) < |chars|))
  }

  /**
   * The text to insert after a quote typed just before `offset`: a quote
   * when the typed one directly follows the opening quote (an empty
   * literal), then the hash count's `#` minus those already present at
   * `offset`.
   */
  function ClosingQuote(chars: seq<char>, tokenStart: int, offset: int): (r: string)
    requires PrefixReadable(chars, tokenStart)
    requires AbsorptionReadable(chars, ResolvePrefix(chars, tokenStart).numHashes, offset)
    ensures var ls := ResolvePrefix(chars, tokenStart);
      var lead := if offset - 1 == ls.quoteOffset then 1 else 0;
      ((0 < |r| && r[0] == '"') <==> offset - 1 == ls.quoteOffset) &&
      (forall k :: lead <= k < |r| ==> r[k] == '#') &&
      (ls.numHashes > 0 ==>
         |r| - lead == ls.numHashes - Min(ls.numHashes, HashRunLength(chars, offset))) &&
      (ls.numHashes == 0 ==> |r| == lead) &&
      |r| <= 1 + ls.numHashes
  {
    var ls := ResolvePrefix(chars, tokenStart);
    var absorbed := if ls.numHashes == 0 then 0 else Min(ls.numHashes, HashRunLength(chars, offset));
    (if offset - 1 == ls.quoteOffset then "\"" else "") + Repeat('#', ls.numHashes - absorbed)
  }

  /** The closing text as the handler computes it, skipping the `#` already present one by one. */
  method GetClosingQuote(chars: seq<char>, tokenStart: int, offset: int) returns (ret: string)
    requires PrefixReadable(chars, tokenStart)
    requires AbsorptionReadable(chars, ResolvePrefix(chars, tokenStart).numHashes, offset)
    ensures ret == ClosingQuote(chars, tokenStart, offset)
  {
    var pair := FindLiteralStartOffset(chars, tokenStart);
    ret := if offset - 1 == pair.quoteOffset then "\"" else "";

    var numHashes: nat := pair.numHashes;
    var i := offset;
    while numHashes > 0 && chars[i] == '#'
      invariant offset <= i && numHashes + (i - offset) == pair.numHashes
      invariant pair.numHashes == 0 ==> i == offset
      invariant pair.numHashes > 0 ==> 0 <= offset && i <= |chars|
      invariant pair.numHashes > 0 ==> i - offset <= HashRunLength(chars, offset)
      invariant forall k :: offset <= k < i ==> chars[k] == '#'
      decreases numHashes
    {
      i := i + 1;
      numHashes := numHashes - 1;
    }
    ret := ret + Repeat('#', numHashes);
  }

  // The handler's own examples, with the quote just typed: after `r##` it
  // adds `"##`; after `r##"foo` it adds `##`; and when `##` already
  // follows, it adds nothing.

  lemma ClosingQuoteOfEmptyRawLiteral()
    ensures ClosingQuote("r##\"\n", 0, 4) == "\"##"
  {
    var chars := "r##\"\n";
    HashRunOfRepeat(chars, 1, 2);
    assert ResolvePrefix(chars, 0) == LiteralStart(3, 2);
    HashRunOfRepeat(chars, 4, 0);
  }

  lemma ClosingQuoteAfterText()
    ensures ClosingQuote("r##\"foo\"\n", 0, 8) == "##"
  {
    var chars := "r##\"foo\"\n";
    HashRunOfRepeat(chars, 1, 2);
    assert ResolvePrefix(chars, 0) == LiteralStart(3, 2);
    HashRunOfRepeat(chars, 8, 0);
  }

  lemma ClosingQuoteAbsorbsHashes()
    ensures ClosingQuote("r##\"foo\"##", 0, 8) == ""
  {
    var chars := "r##\"foo\"##";
    HashRunOfRepeat(chars, 1, 2);
    assert ResolvePrefix(chars, 0) == LiteralStart(3, 2);
    assert HashRunLength(chars, 10) == 0;
    assert HashRunLength(chars, 8) == 2;
  }

  // ---------------------------------------------------------------------
  // Whether the literal is terminated
  // ---------------------------------------------------------------------

  /**
   * The token `[tokenStart, tokenEnd)` ends with a `"` followed by
   * `numHashes` `#`. The quote compared against is always `"`, also for a
   * character literal.
   */
  predicate EndsWithClosingDelimiter(chars: seq<char>, tokenStart: int, tokenEnd: int, numHashes: nat)
    requires 0 <= tokenStart && tokenEnd <= |chars|
    ensures EndsWithClosingDelimiter(chars, tokenStart, tokenEnd, numHashes) <==>
              tokenStart + numHashes + 1 <= tokenEnd &&
              chars[tokenEnd - numHashes - 1..tokenEnd] == ['"'] + Repeat('#', numHashes)
  {
    tokenStart <= tokenEnd - numHashes - 1 && chars[tokenEnd - numHashes - 1] == '"' &&
    forall k :: tokenEnd - numHashes <= k < tokenEnd ==> chars[k] == '#'
  }

  /** Scans backwards from the token's end for its `#` run and the `"` before it. */
  method IsNonClosedLiteral(chars: seq<char>, tokenStart: int, tokenEnd: int) returns (nonClosed: bool)
    requires PrefixReadable(chars, tokenStart) && tokenEnd <= |chars|
    ensures nonClosed <==>
              !EndsWithClosingDelimiter(chars, tokenStart, tokenEnd, ResolvePrefix(chars, tokenStart).numHashes)
  {
    var index := tokenEnd - 1;
    var pair := FindLiteralStartOffset(chars, tokenStart);
    var i := 0;
    while i < pair.numHashes
      invariant 0 <= i <= pair.numHashes && index == tokenEnd - 1 - i
      invariant i == 0 || tokenStart - 1 <= index
      invariant forall k :: index < k < tokenEnd ==> chars[k] == '#'
    {
      if index < tokenStart || chars[index] != '#' {
        return true;
      }
      index := index - 1;
      i := i + 1;
    }
    return index < tokenStart || chars[index] != '"';
  }

  // ---------------------------------------------------------------------
  // The editor's quote tests
  // ---------------------------------------------------------------------

  /** The character at `offset` is the opening quote of a literal token. */
  predicate IsOpeningQuote(tokenType: TokenType, chars: seq<char>, tokenStart: int, offset: int)
    requires IsLiteralToken(tokenType) ==> PrefixReadable(chars, tokenStart)
    ensures IsOpeningQuote(tokenType, chars, tokenStart, offset) ==>
              IsLiteralToken(tokenType) && tokenStart <= offset < |chars| &&
              (offset == tokenStart || chars[offset - 1] in {'b', 'r', '#'})
  {
    IsLiteralToken(tokenType) && ResolvePrefix(chars, tokenStart).quoteOffset == offset
  }

  /**
   * The quote is a closing quote: never for a literal with `#` delimiters,
   * otherwise the editor's generic test `superIsClosingQuote`.
   */
  predicate IsClosingQuote(chars: seq<char>, tokenStart: int, superIsClosingQuote: bool)
    requires PrefixReadable(chars, tokenStart)
    ensures var p := AfterByteMarker(chars, tokenStart);
            IsClosingQuote(chars, tokenStart, superIsClosingQuote) <==>
              superIsClosingQuote && !(chars[p] == 'r' && chars[p + 1] == '#')
  {
    if ResolvePrefix(chars, tokenStart).numHashes > 0 then false else superIsClosingQuote
  }

  /**
   * In a literal written as prefix text and a quote, the opening quote is
   * exactly the character right after the prefix, and only for the three
   * literal token types.
   */
  lemma OpeningQuoteFollowsPrefix(tokenType: TokenType, before: string, isByte: bool, isRaw: bool,
                                  numHashes: nat, rest: string, offset: int)
    requires 0 < |rest| && IsQuoteChar(rest[0])
    requires !isRaw ==> numHashes == 0
    ensures PrefixReadable(before + PrefixText(isByte, isRaw, numHashes) + rest, |before|)
    ensures IsOpeningQuote(tokenType, before + PrefixText(isByte, isRaw, numHashes) + rest, |before|, offset)
            <==> IsLiteralToken(tokenType) && offset == |before| + |PrefixText(isByte, isRaw, numHashes)|
  {
    PrefixRoundTrip(before, isByte, isRaw, numHashes, rest);
  }

  /**
   * A literal with `#` delimiters never has a closing quote in the
   * editor's simple sense; every other literal, a raw one without `#`
   * included, defers to the generic test.
   */
  lemma ClosingQuoteOnlyWithoutHashes(before: string, isByte: bool, isRaw: bool, numHashes: nat,
                                      rest: string, superIsClosingQuote: bool)
    requires 0 < |rest| && IsQuoteChar(rest[0])
    requires !isRaw ==> numHashes == 0
    ensures PrefixReadable(before + PrefixText(isByte, isRaw, numHashes) + rest, |before|)
    ensures IsClosingQuote(before + PrefixText(isByte, isRaw, numHashes) + rest, |before|, superIsClosingQuote)
            == (numHashes == 0 && superIsClosingQuote)
  {
    PrefixRoundTrip(before, isByte, isRaw, numHashes, rest);
  }

  /**
   * Termination examples: `"a"` and `r#"a"#` are closed, `r#"a"` is not,
   * and a character literal `'a'` is reported unterminated because the
   * test looks for `"`.
   */
  lemma NonClosedExamples()
    ensures EndsWithClosingDelimiter("\"a\"", 0, 3, ResolvePrefix("\"a\"", 0).numHashes)
    ensures EndsWithClosingDelimiter("r#\"a\"#", 0, 6, ResolvePrefix("r#\"a\"#", 0).numHashes)
    ensures !EndsWithClosingDelimiter("r#\"a\"", 0, 5, ResolvePrefix("r#\"a\"", 0).numHashes)
    ensures !EndsWithClosingDelimiter("'a'", 0, 3, ResolvePrefix("'a'", 0).numHashes)
  {
    var closed, open := "r#\"a\"#", "r#\"a\"";
    assert HashRunLength(closed, 3) == 0 && HashRunLength(open, 3) == 0;
    assert ResolvePrefix(closed, 0).numHashes == 1 && ResolvePrefix(open, 0).numHashes == 1;
  }
}
