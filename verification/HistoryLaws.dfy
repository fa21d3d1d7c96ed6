/** What reaches the runner of a chat history, told by characters and positions. */
module HistoryLaws {
  import opened Collapse
  import opened History
  import opened HistorySummary
  import opened Text

  // -- Normalisation --

  /** The message is kept: its role is known and its text is not blank. */
  ghost predicate IsKept(raw: RawTurn)
  {
    (TrimsTo(raw.role, "user") || TrimsTo(raw.role, "assistant")) && !AllSpace(raw.content)
  }

  /** How many of the first n messages are kept. */
  ghost function KeptBefore(raw: seq<RawTurn>, n: nat): nat
    requires n <= |raw|
  {
    if n == 0 then 0 else KeptBefore(raw, n - 1) + if IsKept(raw[n - 1]) then 1 else 0
  }

  /** `turn` is the message without the white space around its role and text. */
  ghost predicate IsTurnOf(turn: Turn, raw: RawTurn)
  {
    TrimsTo(raw.role, if turn.role == User then "user" else "assistant") && TrimsTo(raw.content, turn.content)
  }

  lemma {:induction false} NormalizedOneIff(raw: RawTurn)
    ensures NormalizeOne(raw).Some? <==> IsKept(raw)
    ensures NormalizeOne(raw).Some? ==> IsTurnOf(NormalizeOne(raw).value, raw)
  {
    StripTrims(raw.role);
    StripTrims(raw.content);
    StripIsEmpty(raw.content);
    if TrimsTo(raw.role, "user") {
      TrimIsStrip(raw.role, "user");
    }
    if TrimsTo(raw.role, "assistant") {
      TrimIsStrip(raw.role, "assistant");
    }
  }

  /** Message i is kept as a turn at its place among the kept ones. */
  ghost predicate KeptAt(turns: seq<Turn>, raw: seq<RawTurn>, i: nat)
    requires i < |raw|
  {
    IsKept(raw[i]) ==> KeptBefore(raw, i) < |turns| && IsTurnOf(turns[KeptBefore(raw, i)], raw[i])
  }

  lemma {:induction false} KeptStays(turns: seq<Turn>, raw: seq<RawTurn>, more: seq<Turn>, n: nat, i: nat)
    requires i < n <= |raw| && turns <= more && KeptAt(turns, raw[..n], i)
    ensures KeptAt(more, raw, i)
  {
    KeptOfPrefix(raw, n, i);
    assert raw[..n][i] == raw[i];
  }

  lemma {:induction false} LastIsKept(turns: seq<Turn>, raw: seq<RawTurn>, more: seq<Turn>, n: nat)
    requires |raw| == n + 1 && |turns| == KeptBefore(raw[..n], n)
    requires more == turns + if NormalizeOne(raw[n]).Some? then [NormalizeOne(raw[n]).value] else []
    ensures KeptAt(more, raw, n) && |more| == KeptBefore(raw, n + 1)
  {
    NormalizedOneIff(raw[n]);
    KeptOfPrefix(raw, n, n);
  }

  /** The kept messages, and no others, are the turns in their order. */
  lemma {:induction false} NormalizedKeeps(raw: seq<RawTurn>, turns: seq<Turn>)
    requires turns == Normalized(raw)
    ensures |turns| == KeptBefore(raw, |raw|)
    ensures forall i {:trigger KeptAt(turns, raw, i)} :: 0 <= i < |raw| ==> KeptAt(turns, raw, i)
    decreases |raw|
  {
    if raw != [] {
      var n, before := |raw| - 1, Normalized(raw[..|raw| - 1]);
      NormalizedKeeps(raw[..n], before);
      LastIsKept(before, raw, turns, n);
      forall i | 0 <= i < n
        ensures KeptAt(turns, raw, i)
      {
        assert KeptAt(before, raw[..n], i);
        KeptStays(before, raw, turns, n, i);
      }
    }
  }

  lemma {:induction false} KeptOfPrefix(raw: seq<RawTurn>, n: nat, i: nat)
    requires i <= n <= |raw|
    ensures KeptBefore(raw[..n], i) == KeptBefore(raw, i)
  {
    if i > 0 {
      KeptOfPrefix(raw, n, i - 1);
    }
  }

  // -- Clips --

  /** `clip` is the collapsed text if it fits, and otherwise its beginning, with an ellipsis where the text
      and the white space before it were cut off. */
  ghost predicate IsClipOf(clip: string, collapsed: string, max: nat)
  {
    if |collapsed| <= max then clip == collapsed
    else exists n: nat :: ClippedAt(clip, collapsed, max, n)
  }

  predicate ClippedAt(clip: string, collapsed: string, max: nat, n: nat)
  {
    && n < max <= |collapsed| && clip == collapsed[..n] + "\U{2026}"
    && AllSpace(collapsed[n..max - 1]) && (n > 0 ==> !IsSpace(collapsed[n - 1]))
  }

  lemma {:induction false} ClipIsBeginning(text: string, max: nat)
    requires 0 < max
    ensures IsClipOf(Clip(text, max), Compact(text), max)
  {
    var collapsed := Compact(text);
    if |collapsed| > max {
      var cut := collapsed[..max - 1];
      RStripIsPrefix(cut);
      var n := |RStrip(cut)|;
      assert RStrip(cut) == collapsed[..n];
      assert cut[n..] == collapsed[n..max - 1];
      assert ClippedAt(Clip(text, max), collapsed, max, n);
    }
  }

  // -- Pinned facts --

  /** Which turns are pinned: those of the user whose words, one space apart, are eight to two hundred and
      eighty characters and match a pattern, whatever white space stands between and around them. */
  lemma {:induction false} PinsWordsIff(pinning: Pinning, turn: Turn, words: seq<string>)
    requires SplitWords(turn.content) == words
    ensures var text := Join(" ", words);
            Pins(pinning, turn) <==> turn.role == User && 7 < |text| < 281 && pinning.matches(text)
  {
  }

  // -- Latest facts --

  /** With a positive limit the latest facts are the end of the list, as long as the limit admits. */
  lemma {:induction false} LatestIsEnd(facts: seq<string>, limit: int)
    requires limit >= 1
    ensures var latest := Latest(facts, limit);
            && |latest| == (if |facts| < limit then |facts| else limit)
            && forall k :: 0 <= k < |latest| ==> latest[k] == facts[|facts| - |latest| + k]
  {
  }

  // -- The line that counts --

  predicate AreDigits(s: string)
  {
    forall k :: 0 <= k < |s| ==> '0' <= s[k] <= '9'
  }

  /** The number that decimal digits stand for. */
  function NumberOf(digits: string): nat
    requires AreDigits(digits)
  {
    if digits == "" then 0
    else
      assert '0' <= digits[|digits| - 1] <= '9';
      10 * NumberOf(digits[..|digits| - 1]) + (digits[|digits| - 1] as int - '0' as int)
  }

  lemma {:induction false} DigitsAreNumber(n: nat)
    ensures AreDigits(Digits(n)) && NumberOf(Digits(n)) == n
  {
    var last := n % 10;
    if n < 10 {
      assert Digits(n)[..0] == "";
    } else {
      DigitsAreNumber(n / 10);
      var front := Digits(n / 10);
      assert Digits(n)[..|front|] == front;
    }
  }

  lemma {:induction false} OmittedLineText(count: nat)
    ensures OmittedLine(count) == "- \U{2026}(" + Digits(count) + " earlier exchanges omitted)"
  {
    assert "- " + [ELLIPSIS] + "(" == "- \U{2026}(";
  }

  lemma {:induction false} SomeAreOmitted(bullets: seq<string>, budget: int)
    requires SizeFrom(bullets, 0) > budget && bullets != []
    ensures KeptFrom(bullets, budget, |bullets|) > 0
  {
  }

  /** A log that does not fit is shown from the first line that does, behind a line that tells how many
      lines are missing. */
  lemma {:induction false} OmissionIsCounted(bullets: seq<string>, remaining: int) returns (from: nat, digits: string)
    requires SizeFrom(bullets, 0) > remaining >= 0
    ensures 0 < from <= |bullets| && AreDigits(digits) && NumberOf(digits) == from
    ensures var line := "- \U{2026}(" + digits + " earlier exchanges omitted)";
            LogBody(bullets, remaining) == Join("\n", [line] + bullets[from..])
  {
    from := KeptFrom(bullets, remaining - 40, |bullets|);
    digits := Digits(from);
    DigitsAreNumber(from);
    OmittedLineText(from);
    SomeAreOmitted(bullets, remaining - 40);
  }

  // -- What the runner is handed --

  /** So the pinned facts stand in the first turn, behind its opening sentence, whenever their block is
      shorter than the limit. */
  lemma {:induction false} RunnerIsHandedFacts(pinning: Pinning, wording: Wording, turns: seq<Turn>, window: nat,
                                               maxSummaryChars: int, slots: int)
    requires window >= 1 && maxSummaryChars >= 1
    ensures var p := PreparedFrom(pinning, wording, turns, window, maxSummaryChars, slots);
            var block := PinnedText(p.pinnedFacts);
            p.pinnedFacts != [] && |block| < maxSummaryChars ==>
              && p.turns != [] && p.turns[0].role == User
              && wording.opening + block <= p.turns[0].content
  {
    var p := PreparedFrom(pinning, wording, turns, window, maxSummaryChars, slots);
    var block := PinnedText(p.pinnedFacts);
    PreparedIsBounded(pinning, wording, turns, window, maxSummaryChars, slots);
    if p.pinnedFacts != [] && |block| < maxSummaryChars {
      RunnerIsHandedSummary(pinning, wording, turns, window, maxSummaryChars, slots, p);
      PrefixInMiddle(wording.opening, block, p.summary.value, wording.closing);
    }
  }

  lemma {:induction false} PrefixInMiddle(opening: string, block: string, middle: string, closing: string)
    requires block <= middle
    ensures opening + block <= opening + middle + closing
  {
    assert middle == block + middle[|block|..];
    assert opening + middle + closing == opening + block + (middle[|block|..] + closing);
  }
}
