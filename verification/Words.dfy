/** The scanner for `\S+\s*`: words with the white space after them. */
module Words {
  import opened Text

  datatype Span = Span(start: nat, end: nat)

  predicate IsWordStart(s: string, k: nat)
  {
    k < |s| && !IsSpace(s[k]) && (k == 0 || IsSpace(s[k - 1]))
  }

  ghost predicate HasWord(s: string)
  {
    exists k: nat :: IsWordStart(s, k)
  }

  /** No second word starts in `s`: the splitter cannot cut it. */
  ghost predicate AtMostOneWord(s: string)
  {
    forall j: nat, k: nat :: IsWordStart(s, j) && IsWordStart(s, k) ==> j == k
  }

  /** The position after the word characters at `k`. */
  function SkipWord(s: string, k: nat): (e: nat)
    requires k <= |s|
    ensures k <= e <= |s|
    ensures forall j :: k <= j < e ==> !IsSpace(s[j])
    ensures e < |s| ==> IsSpace(s[e])
    decreases |s| - k
  {
    if k < |s| && !IsSpace(s[k]) then SkipWord(s, k + 1) else k
  }

  function SkipSpace(s: string, k: nat): (e: nat)
    requires k <= |s|
    ensures k <= e <= |s|
    ensures forall j :: k <= j < e ==> IsSpace(s[j])
    ensures e < |s| ==> !IsSpace(s[e])
    decreases |s| - k
  {
    if k < |s| && IsSpace(s[k]) then SkipSpace(s, k + 1) else k
  }

  /** The end of the match that starts at `k`. */
  function WordEnd(s: string, k: nat): (e: nat)
    requires k <= |s|
    ensures k <= e <= |s|
  {
    SkipSpace(s, SkipWord(s, k))
  }

  /** A match holds one word: after its first character no word starts, and the next word, if
      any, starts at its end. */
  lemma {:induction false} MatchHoldsOneWord(s: string, k: nat)
    requires k < |s| && !IsSpace(s[k])
    ensures k < WordEnd(s, k)
    ensures forall j :: k < j < WordEnd(s, k) ==> !IsWordStart(s, j)
    ensures WordEnd(s, k) < |s| ==> IsWordStart(s, WordEnd(s, k))
  {
  }

  /** The matches of `\S+\s*` in the first `end` characters of `s`, in order: they start at words
      of `s`, follow each other without gaps and reach `end`. */
  ghost predicate Matches(s: string, words: seq<Span>, end: nat)
    requires end <= |s|
  {
    && (forall i {:trigger IsMatch(s, words[i])} :: 0 <= i < |words| ==> IsMatch(s, words[i]))
    && (forall i :: 0 < i < |words| ==> words[i].start == words[i - 1].end)
    && (if words == [] then end == SkipSpace(s, 0)
        else words[0].start == SkipSpace(s, 0) && words[|words| - 1].end == end)
  }

  ghost predicate IsMatch(s: string, w: Span)
  {
    IsWordStart(s, w.start) && w.end == WordEnd(s, w.start)
  }

  ghost predicate AreWords(s: string, words: seq<Span>)
  {
    Matches(s, words, |s|)
  }

  method FindWords(s: string) returns (words: seq<Span>)
    ensures AreWords(s, words)
    ensures words == [] <==> !HasWord(s)
  {
    words := [];
    var k := SkipSpace(s, 0);
    while k < |s|
      invariant k <= |s|
      invariant k < |s| ==> IsWordStart(s, k)
      invariant Matches(s, words, k)
    {
      MatchHoldsOneWord(s, k);
      var w := Span(k, WordEnd(s, k));
      assert IsMatch(s, w);
      words := words + [w];
      k := w.end;
    }
    NoMatchIffNoWord(s, words);
  }

  lemma {:induction false} NoMatchIffNoWord(s: string, words: seq<Span>)
    requires AreWords(s, words)
    ensures words == [] <==> !HasWord(s)
  {
    if words != [] {
      assert IsMatch(s, words[0]);
    }
  }

  /** Every word of `s` has its match. */
  lemma {:induction false} WordHasMatch(s: string, words: seq<Span>, k: nat, n: nat) returns (i: nat)
    requires AreWords(s, words) && IsWordStart(s, k) && 0 < n <= |words| && k < words[n - 1].end
    ensures i < n && words[i].start == k
    decreases n
  {
    if words[n - 1].start <= k {
      assert IsMatch(s, words[n - 1]);
      MatchHoldsOneWord(s, words[n - 1].start);
      i := n - 1;
    } else {
      i := WordHasMatch(s, words, k, n - 1);
    }
  }

  lemma {:induction false} MatchesIncrease(s: string, words: seq<Span>, i: nat, j: nat)
    requires AreWords(s, words) && i <= j < |words|
    ensures words[i].start <= words[j].start < words[j].end
    ensures i < j ==> words[i].end <= words[j].start
    decreases j
  {
    assert IsMatch(s, words[j]);
    MatchHoldsOneWord(s, words[j].start);
    if i < j {
      MatchesIncrease(s, words, i, j - 1);
    }
  }
}
