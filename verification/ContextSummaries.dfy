/** The deterministic contextualizer and the word-boundary truncation of its summaries. */
module ContextSummaries {
  import opened Collapse
  import opened Text

  /** The position of the last space in `s`, or -1. */
  function LastSpace(s: string): (k: int)
    ensures -1 <= k < |s|
    ensures k >= 0 ==> s[k] == ' '
    ensures forall j :: k < j < |s| ==> s[j] != ' '
  {
    if s == "" then -1
    else if s[|s| - 1] == ' ' then |s| - 1
    else LastSpace(s[..|s| - 1])
  }

  /** Cut to `maxChars` - 1 characters, then back to the last space if there is one. */
  function TruncateText(value: string, maxChars: nat): string
    requires 0 < maxChars
  {
    if |value| <= maxChars then value
    else
      var trimmed := RStrip(value[..maxChars - 1]);
      (if LastSpace(trimmed) >= 0 then trimmed[..LastSpace(trimmed)] else trimmed) + "..."
  }

  /** What is kept of a long text is its beginning: the cut without trailing white space, up to its last
      space if it has one. */
  ghost predicate IsTruncation(kept: string, value: string, maxChars: nat)
    requires 0 < maxChars <= |value|
  {
    exists n: nat :: CutsAt(kept, value, maxChars, n)
  }

  predicate CutsAt(kept: string, value: string, maxChars: nat, n: nat)
    requires 0 < maxChars <= |value|
  {
    && n < maxChars
    && AllSpace(value[n..maxChars - 1]) && (n > 0 ==> !IsSpace(value[n - 1]))
    && |kept| <= n && kept == value[..|kept|]
    && (|kept| < n ==> value[|kept|] == ' ')
    && (forall k :: |kept| < k < n ==> value[k] != ' ')
    && (|kept| == n ==> ' ' !in value[..n])
  }

  lemma {:induction false} TruncationIsBeginning(value: string, maxChars: nat) returns (kept: string)
    requires 0 < maxChars
    ensures if |value| <= maxChars then TruncateText(value, maxChars) == value
            else TruncateText(value, maxChars) == kept + "..." && IsTruncation(kept, value, maxChars)
  {
    kept := "";
    if |value| > maxChars {
      var cut := value[..maxChars - 1];
      var trimmed := RStrip(cut);
      RStripIsPrefix(cut);
      var n, k := |trimmed|, LastSpace(trimmed);
      assert trimmed == value[..n] && cut[n..] == value[n..maxChars - 1];
      kept := if k >= 0 then trimmed[..k] else trimmed;
      assert CutsAt(kept, value, maxChars, n);
    }
  }

  /** The limit can be exceeded, but by at most two characters, and exactly when a long value has no
      space left after the cut and fewer than two characters were trimmed. */
  lemma {:induction false} TruncationExceedsIff(value: string, maxChars: nat)
    requires 0 < maxChars
    ensures |TruncateText(value, maxChars)| <= maxChars + 2
    ensures |TruncateText(value, maxChars)| > maxChars <==>
      && |value| > maxChars
      && ' ' !in RStrip(value[..maxChars - 1])
      && |RStrip(value[..maxChars - 1])| + 2 >= maxChars
  {
    if |value| > maxChars {
      var trimmed := RStrip(value[..maxChars - 1]);
      RStripIsPrefix(value[..maxChars - 1]);
      var k := LastSpace(trimmed);
      if k >= 0 {
        assert trimmed[k] == ' ' && IsSpace(' ');
        assert k < |trimmed| - 1;
      } else {
        assert ' ' !in trimmed;
      }
    }
  }

  /** A single word of one hundred letters exceeds a limit of eighty by two. */
  lemma {:induction false} LongWordExceeds()
    ensures var value := seq(100, _ => 'a'); |TruncateText(value, 80)| == 82
  {
    var value := seq(100, _ => 'a');
    var cut := value[..79];
    assert cut[78] == 'a';
    assert RStrip(cut) == cut;
    TruncationExceedsIff(value, 80);
  }

  /** The text that the deterministic contextualizer truncates. */
  function SummaryText(title: string, section: string, number: string, excerpt: string): string
  {
    "Document: " + title + ". Section: " + section + ". Chunk " + number + ": " + excerpt
  }

  lemma {:induction false} SummaryNamesItsParts()
    ensures SummaryText("t", "s", "1", "e") == "Document: t. Section: s. Chunk 1: e"
  {
  }

  /** Summaries stay within the limit all the same: they start with a label, a space and a title,
      so a space always survives the cut. */
  lemma {:induction false} SummariesStayWithinLimit(title: string, section: string, number: string, excerpt: string,
                                                    maxChars: nat)
    requires Trimmed(title) && title != "" && 80 <= maxChars
    ensures |TruncateText(SummaryText(title, section, number, excerpt), maxChars)| <= maxChars
  {
    var value := SummaryText(title, section, number, excerpt);
    TruncationExceedsIff(value, maxChars);
    if |value| > maxChars {
      var cut := value[..maxChars - 1];
      var head := "Document: " + [title[0]];
      assert |head| == 11 && head[9] == ' ' && head[10] == title[0];
      assert head <= cut;
      RStripKeeps(head, cut);
      assert RStrip(cut)[9] == ' ';
    }
  }
}
