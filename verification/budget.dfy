/**
 * The token-budgeted walk shared by both tools' `format_output`: lines are
 * taken greedily in order, each costing ceil((len + 1) / 4) tokens, until the
 * first line that would push the running count over the budget; that line
 * and everything after it are withheld and counted in a truncation marker.
 */
module Budget {
  import opened Text
  import opened Numerals

  /** Approximate characters per token. */
  const TokenCharCount: nat := 4

  /** `math.ceil((len(line) + 1) / TOKEN_CHAR_COUNT)`, the line plus its line break. */
  function LineCost(line: string): (t: nat)
    ensures (t - 1) * TokenCharCount < |line| + 1 <= t * TokenCharCount
    ensures t >= 1
  {
    (|line| + 1 + TokenCharCount - 1) / TokenCharCount
  }

  /** The summed cost of a sequence of lines. */
  function TotalCost(lines: seq<string>): nat
  {
    if lines == [] then 0 else TotalCost(lines[..|lines| - 1]) + LineCost(lines[|lines| - 1])
  }

  /** A tool's exit status and the text it shows: 0 shown in full, 1 truncated, 2 error. */
  datatype Exit = Exit(code: int, text: string)

  /** The state the loop ends in: the lines shown, whether it broke off, and how many were withheld. */
  datatype Cut = Cut(kept: seq<string>, truncated: bool, remaining: nat)

  /**
   * The loop from index `i` on, with `tokenCount` the cost of the lines
   * `lines[..i]` appended so far: the index at which it stops, either the
   * end of the lines or the first line that would exceed the budget.
   */
  function WalkFrom(lines: seq<string>, i: nat, tokenCount: nat, maxTokens: int): nat
    requires i <= |lines|
    requires tokenCount == TotalCost(lines[..i])
    decreases |lines| - i
  {
    if i == |lines| then i
    else
      var tokensLine := LineCost(lines[i]);
      if tokenCount + tokensLine > maxTokens then i
      else
        assert lines[..i + 1][..i] == lines[..i];
        WalkFrom(lines, i + 1, tokenCount + tokensLine, maxTokens)
  }

  /**
   * From index `i` on, the loop stops at or after `i`; where it stops before
   * the end, the next line would have exceeded the budget; what it has
   * appended by then fits.
   */
  lemma {:induction false} WalkFromSpec(lines: seq<string>, i: nat, tokenCount: nat, maxTokens: int)
    requires i <= |lines|
    requires tokenCount == TotalCost(lines[..i])
    requires i == 0 || tokenCount <= maxTokens
    ensures var n := WalkFrom(lines, i, tokenCount, maxTokens);
            && i <= n <= |lines|
            && (n < |lines| ==> TotalCost(lines[..n + 1]) > maxTokens)
            && (n == 0 || TotalCost(lines[..n]) <= maxTokens)
    decreases |lines| - i
  {
    if i < |lines| {
      var tokensLine := LineCost(lines[i]);
      assert lines[..i + 1][..i] == lines[..i];
      assert TotalCost(lines[..i + 1]) == tokenCount + tokensLine;
      if tokenCount + tokensLine <= maxTokens {
        WalkFromSpec(lines, i + 1, tokenCount + tokensLine, maxTokens);
      }
    }
  }

  /**
   * The whole loop of `format_output` over `lines`: the lines before the
   * stopping index are kept, and the rest are counted as remaining.
   */
  function Walk(lines: seq<string>, maxTokens: int): (c: Cut)
    ensures c.kept <= lines
    ensures c.truncated <==> |c.kept| < |lines|
    ensures c.truncated ==> |c.kept| < |lines| && c.remaining == |lines| - |c.kept| && TotalCost(lines[..|c.kept| + 1]) > maxTokens
    ensures !c.truncated ==> c.remaining == 0
    ensures c.kept == [] || TotalCost(c.kept) <= maxTokens
  {
    WalkFromSpec(lines, 0, 0, maxTokens);
    var n := WalkFrom(lines, 0, 0, maxTokens);
    Cut(lines[..n], n < |lines|, |lines| - n)
  }

  /** Each further line costs at least one token, so longer prefixes cost strictly more. */
  lemma {:induction false} PrefixCostIncreasing(lines: seq<string>, j: nat, k: nat)
    requires j < k <= |lines|
    ensures TotalCost(lines[..j]) < TotalCost(lines[..k])
    decreases k - j
  {
    assert lines[..k][..k - 1] == lines[..k - 1];
    if j < k - 1 {
      PrefixCostIncreasing(lines, j, k - 1);
    }
  }

  /**
   * The walk keeps exactly the longest non-empty prefix the budget affords:
   * a non-empty prefix is shown if and only if its summed cost is within budget.
   */
  lemma WalkKeepsLongestAffordablePrefix(lines: seq<string>, maxTokens: int)
    ensures forall k :: 0 < k <= |lines| ==>
              (TotalCost(lines[..k]) <= maxTokens <==> k <= |Walk(lines, maxTokens).kept|)
  {
    var c := Walk(lines, maxTokens);
    var n := |c.kept|;
    assert c.kept == lines[..n];
    forall k | 0 < k <= |lines| ensures TotalCost(lines[..k]) <= maxTokens <==> k <= n {
      if k < n {
        PrefixCostIncreasing(lines, k, n);
      } else if k > n {
        if k > n + 1 {
          PrefixCostIncreasing(lines, n + 1, k);
        }
      }
    }
  }

  /** A larger budget never shows fewer lines. */
  lemma WalkMonotone(lines: seq<string>, small: int, large: int)
    requires small <= large
    ensures |Walk(lines, small).kept| <= |Walk(lines, large).kept|
  {
    var n := |Walk(lines, small).kept|;
    if n > 0 {
      WalkKeepsLongestAffordablePrefix(lines, small);
      WalkKeepsLongestAffordablePrefix(lines, large);
      assert TotalCost(lines[..n]) <= small;
    }
  }

  /** Lines whose summed cost fits the budget are all shown, and nothing is marked truncated. */
  lemma WalkUnderBudget(lines: seq<string>, maxTokens: int)
    requires TotalCost(lines) <= maxTokens
    ensures Walk(lines, maxTokens) == Cut(lines, false, 0)
  {
    if |lines| > 0 {
      WalkKeepsLongestAffordablePrefix(lines, maxTokens);
      assert lines[..|lines|] == lines;
    }
  }

  /**
   * The walk breaks off exactly when there are lines and their summed cost
   * exceeds the budget; when it does not, every line is shown.
   */
  lemma WalkTruncatesIffOverBudget(lines: seq<string>, maxTokens: int)
    ensures Walk(lines, maxTokens).truncated <==> |lines| > 0 && TotalCost(lines) > maxTokens
    ensures !Walk(lines, maxTokens).truncated ==> Walk(lines, maxTokens).kept == lines
  {
    var c := Walk(lines, maxTokens);
    var n := |c.kept|;
    assert lines[..|lines|] == lines;
    if c.truncated {
      assert TotalCost(lines[..n + 1]) > maxTokens;
      if n + 1 < |lines| {
        PrefixCostIncreasing(lines, n + 1, |lines|);
      }
      assert TotalCost(lines) > maxTokens;
    } else {
      assert n == |lines|;
      assert c.kept == lines[..n] == lines;
    }
  }

  /** The text the marker opens with, after a blank line. */
  const MarkerHead: string := "\n\n[TRUNCATED] "

  /** `\n\n[TRUNCATED] {remaining} more {word} not shown (max tokens: {max_tokens})`. */
  function Marker(remaining: nat, word: string, maxTokens: int): (m: string)
    ensures StartsWith(m, MarkerHead)
    ensures EndsWith(m, ")")
  {
    MarkerHead + (NatToString(remaining) + MarkerTail(word, maxTokens))
  }

  /** What follows the count in the marker. */
  function MarkerTail(word: string, maxTokens: int): string
  {
    " more " + word + " not shown (max tokens: " + IntToString(maxTokens) + ")"
  }

  /** The count in the marker reads back as the number of lines withheld. */
  lemma MarkerReadsBack(remaining: nat, word: string, maxTokens: int)
    ensures var m := Marker(remaining, word, maxTokens);
            DigitsValue(LeadingDigits(m[|MarkerHead|..])) == remaining
  {
    var m := Marker(remaining, word, maxTokens);
    var digits := NatToString(remaining);
    var t := MarkerTail(word, maxTokens);
    assert m[|MarkerHead|..] == digits + t;
    LeadingDigitsOf(digits, t);
    NatToStringRoundTrip(remaining);
  }

  /** The shown lines joined by line breaks, followed by the marker when the walk broke off. */
  function Render(c: Cut, word: string, maxTokens: int): string
  {
    Join(c.kept, "\n") + (if c.truncated then Marker(c.remaining, word, maxTokens) else "")
  }

  /**
   * What `format_output` promises for `lines`: it reports truncation exactly
   * when there are lines and their summed cost exceeds the budget; otherwise
   * it shows every line. When truncated it shows the first `n` lines, where
   * the first `n` fit the budget (or `n` is 0) and the first `n + 1` do not,
   * followed by a marker counting the other `|lines| - n`.
   */
  predicate Shows(lines: seq<string>, maxTokens: int, word: string, text: string, truncated: bool)
  {
    && (truncated <==> |lines| > 0 && TotalCost(lines) > maxTokens)
    && (!truncated ==> text == Join(lines, "\n"))
    && (truncated ==>
          exists n :: 0 <= n < |lines| && ShowsFirst(lines, maxTokens, word, text, n))
  }

  /** Truncated after the first `n` lines: they fit (or `n` is 0), one more does not, and the marker counts the rest. */
  predicate ShowsFirst(lines: seq<string>, maxTokens: int, word: string, text: string, n: nat)
  {
    && n < |lines|
    && text == Join(lines[..n], "\n") + Marker(|lines| - n, word, maxTokens)
    && TotalCost(lines[..n + 1]) > maxTokens
    && (n == 0 || TotalCost(lines[..n]) <= maxTokens)
  }

  /** Rendering the walk shows what `format_output` promises. */
  lemma RenderShows(lines: seq<string>, maxTokens: int, word: string)
    ensures var c := Walk(lines, maxTokens);
            Shows(lines, maxTokens, word, Render(c, word, maxTokens), c.truncated)
  {
    var c := Walk(lines, maxTokens);
    WalkTruncatesIffOverBudget(lines, maxTokens);
    assert c.kept == lines[..|c.kept|];
    if c.truncated {
      assert ShowsFirst(lines, maxTokens, word, Render(c, word, maxTokens), |c.kept|);
    }
  }

  /**
   * Under a budget of 10 tokens, three 20-character lines cost 6 tokens each:
   * one line is shown and the marker reports the other 2.
   */
  lemma ThreeTwentyCharLinesUnderTen(a: string, b: string, c: string)
    requires |a| == 20 && |b| == 20 && |c| == 20
    ensures Walk([a, b, c], 10) == Cut([a], true, 2)
  {
    var lines := [a, b, c];
    assert LineCost(a) == 6 && LineCost(b) == 6;
    assert lines[..1] == [a] && lines[..2] == [a, b];
    assert [a, b][..1] == [a];
    assert TotalCost([a]) == 6;
    assert TotalCost(lines[..2]) == 12;
    WalkKeepsLongestAffordablePrefix(lines, 10);
  }
}
