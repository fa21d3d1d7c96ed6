/** Concrete transcripts at the edges of the history guarantees. */
module HistoryExamples {
  import opened Collapse
  import opened History
  import opened HistoryCallers
  import opened HistorySummary
  import opened Options
  import opened Text

  // -- Texts of one word --

  /** `n` times the same letter. */
  function Letters(c: char, n: nat): (w: string)
    ensures |w| == n
    ensures forall k :: 0 <= k < n ==> w[k] == c
  {
    seq(n, _ => c)
  }

  lemma {:induction false} LettersAreKept(c: char, n: nat, max: nat)
    requires !IsSpace(c) && 0 < n <= max
    ensures Compact(Letters(c, n)) == Letters(c, n) && Clip(Letters(c, n), max) == Letters(c, n)
  {
    WordIsCompact(Letters(c, n));
  }

  // -- Wishes: texts that the first pin pattern finds --

  /** A user turn that says what the user wants. */
  function Wish(word: string): (w: string)
    ensures |w| == 7 + |word| && "i want " <= w
    ensures forall k :: 0 <= k < |word| ==> w[7 + k] == word[k]
  {
    "i want " + word
  }

  lemma {:induction false} WishIsJoined(word: string)
    ensures Wish(word) == Join(" ", ["i", "want", word])
  {
    var parts := ["i", "want", word];
    assert parts[1..] == ["want", word] && parts[1..][1..] == [word];
    assert Join(" ", [word]) == word && Join(" ", ["want", word]) == "want" + " " + word;
    assert Join(" ", parts) == "i" + " " + ("want" + " " + word);
    assert "i" + " " + ("want" + " " + word) == "i want " + word;
  }

  lemma {:induction false} WishIsKept(word: string, max: nat)
    requires IsWord(word) && 7 + |word| <= max
    ensures Compact(Wish(word)) == Wish(word) && Clip(Wish(word), max) == Wish(word)
  {
    WishIsJoined(word);
    SplitOfJoin(["i", "want", word]);
  }

  /** A pinning that finds a wish of one word pins it, whatever else it finds. */
  lemma {:induction false} WishIsPinned(pinning: Pinning, word: string)
    requires IsWord(word) && |word| <= 193 && pinning.matches(Wish(word))
    ensures Pins(pinning, Turn(User, Wish(word)))
  {
    WishIsKept(word, 200);
  }

  lemma {:induction false} LettersClip(c: char, n: nat, max: nat)
    requires !IsSpace(c) && 1 < max < n
    ensures Clip(Letters(c, n), max) == Letters(c, max - 1) + "\U{2026}"
  {
    WordIsCompact(Letters(c, n));
    var cut := Letters(c, n)[..max - 1];
    assert cut == Letters(c, max - 1);
    assert cut[max - 2] == c;
  }

  // -- The bounds of pinning, and the lengths of clips --

  /** Of the texts that the patterns find, those of eight to two hundred and eighty characters are pinned. */
  lemma {:induction false} LettersArePinnedIff(pinning: Pinning, c: char, n: nat)
    requires !IsSpace(c) && n > 0 && pinning.matches(Letters(c, n))
    ensures Pins(pinning, Turn(User, Letters(c, n))) <==> 8 <= n <= 280
    ensures !Pins(pinning, Turn(Assistant, Letters(c, n)))
  {
    WordIsCompact(Letters(c, n));
  }

  /** A fact of more than two hundred characters, a question of more than a hundred and sixty and an answer
      of more than a hundred and twenty are clipped to that length. */
  lemma {:induction false} LongTextsAreClipped(pinning: Pinning)
    requires pinning.matches(Letters('u', 201))
    ensures FactsOf(pinning, [Turn(User, Letters('u', 201))]) == [Letters('u', 199) + "\U{2026}"]
    ensures var turns := [Turn(User, Letters('u', 161)), Turn(Assistant, Letters('a', 121))];
            var question, answer := Letters('u', 159) + "\U{2026}", Letters('a', 119) + "\U{2026}";
            Rendered(turns, LogLines(turns)) == ["- User: " + question + " \U{2192} Assistant: " + answer]
  {
    LettersArePinnedIff(pinning, 'u', 201);
    LettersClip('u', 201, 200);
    FactsOfSnoc(pinning, [], Turn(User, Letters('u', 201)));
    assert [] + [Turn(User, Letters('u', 201))] == [Turn(User, Letters('u', 201))];
    ClippedExchange();
  }

  lemma {:induction false} ClippedExchange()
    ensures var turns := [Turn(User, Letters('u', 161)), Turn(Assistant, Letters('a', 121))];
            var question, answer := Letters('u', 159) + "\U{2026}", Letters('a', 119) + "\U{2026}";
            Rendered(turns, LogLines(turns)) == ["- User: " + question + " \U{2192} Assistant: " + answer]
  {
    var turns := [Turn(User, Letters('u', 161)), Turn(Assistant, Letters('a', 121))];
    LettersClip('u', 161, 160);
    LettersClip('a', 121, 120);
    assert LinesTo(turns, 1) == [];
    assert LogLines(turns) == [Exchange(0, 1)];
    RenderedSnoc(turns, [], Exchange(0, 1));
    assert [] + [Exchange(0, 1)] == [Exchange(0, 1)];
  }

  // -- A whole summary --

  /** A question with its answer, an answer without a question, and an open question. */
  function FourTurns(q: string, a: string, b: string, r: string): seq<Turn>
  {
    [Turn(User, q), Turn(Assistant, a), Turn(Assistant, b), Turn(User, r)]
  }

  predicate AreShort(q: string, a: string, b: string, r: string)
  {
    Clip(q, 160) == q && Clip(a, 120) == a && Clip(b, 120) == b && Clip(r, 160) == r
  }

  lemma {:induction false} FourLogLines(turns: seq<Turn>, q: string, a: string, b: string, r: string)
    requires turns == FourTurns(q, a, b, r)
    ensures LogLines(turns) == [Exchange(0, 1), Answer(2), Question(3)]
  {
    assert LinesTo(turns, 1) == [];
    assert LinesTo(turns, 2) == [Exchange(0, 1)];
    assert LinesTo(turns, 3) == [Exchange(0, 1)] + [Answer(2)];
  }

  lemma {:induction false} RenderedThree(turns: seq<Turn>, a: Line, b: Line, c: Line)
    ensures Rendered(turns, [a, b, c]) == [Shown(turns, a), Shown(turns, b), Shown(turns, c)]
  {
    RenderedSnoc(turns, [], a);
    RenderedSnoc(turns, [a], b);
    RenderedSnoc(turns, [a, b], c);
    assert [] + [a] == [a] && [a] + [b] == [a, b] && [a, b] + [c] == [a, b, c];
  }

  lemma {:induction false} FourLines(turns: seq<Turn>, q: string, a: string, b: string, r: string)
    requires turns == FourTurns(q, a, b, r) && AreShort(q, a, b, r)
    ensures Rendered(turns, LogLines(turns))
            == ["- User: " + q + " \U{2192} Assistant: " + a, "- Assistant: " + b, "- User: " + r]
  {
    FourLogLines(turns, q, a, b, r);
    RenderedThree(turns, Exchange(0, 1), Answer(2), Question(3));
  }

  lemma {:induction false} ShortLog(block: string, bullets: seq<string>, log: string)
    requires log == Join("\n", bullets) && |block| + 16 + |log| <= 2000
    ensures LogBody(bullets, Remaining(block, DEFAULT_MAX_SUMMARY_CHARS)) == log
  {
    SizeIsJoinLength(bullets, 0);
    assert bullets[0..] == bullets;
  }

  lemma {:induction false} ThreeJoined(a: string, b: string, c: string)
    ensures Join("\n", [a, b, c]) == a + "\n" + (b + "\n" + c)
  {
    assert [a, b, c][1..] == [b, c] && [b, c][1..] == [c];
    assert Join("\n", [c]) == c;
    assert Join("\n", [b, c]) == b + "\n" + c;
  }

  lemma {:induction false} OneFactText(fact: string)
    ensures PinnedText([fact])
            == "Pinned user-stated facts (authoritative for this thread):" + "\n- USER_FACT: " + fact
  {
    var facts := [fact];
    assert PinnedText(facts[..0]) == PIN_HEADER;
  }

  /** The whole text of the summary of four short turns under one fact. */
  lemma {:induction false} WholeSummary(q: string, a: string, b: string, r: string, fact: string)
    requires AreShort(q, a, b, r) && AreFacts([fact])
    ensures var header := "Pinned user-stated facts (authoritative for this thread):" + "\n- USER_FACT: " + fact;
            var exchange := "- User: " + q + " \U{2192} Assistant: " + a;
            var log := exchange + "\n" + ("- Assistant: " + b + "\n" + ("- User: " + r));
            |header| + 16 + |log| <= 2000 ==>
              Summary(FourTurns(q, a, b, r), DEFAULT_MAX_SUMMARY_CHARS, [fact]) == header + "\n\nExchange log:\n" + log
    ensures Summary([], DEFAULT_MAX_SUMMARY_CHARS, []) == "No earlier substantive turns."
  {
    var turns := FourTurns(q, a, b, r);
    var bullets := Rendered(turns, LogLines(turns));
    FourLines(turns, q, a, b, r);
    OneFactText(fact);
    ThreeJoined(bullets[0], bullets[1], bullets[2]);
    if |PinnedText([fact])| + 16 + |Join("\n", bullets)| <= 2000 {
      ShortLog(PinnedText([fact]), bullets, Join("\n", bullets));
      PinnedLogIsWholeIff(turns, DEFAULT_MAX_SUMMARY_CHARS, [fact]);
    }
  }

  // -- What is left for the log --

  /** Beside a block of three hundred characters the log gets what is left of the limit; beside a block that
      leaves less than two hundred it gets a third of the limit, but never less than two hundred. */
  lemma {:induction false} SharesOfTheLog(block: string)
    ensures Remaining("", 2400) == 2400
    ensures |block| == 300 ==> Remaining(block, 2400) == 2098 && Remaining(block, 502) == 200
    ensures |block| == 300 ==> Remaining(block, 501) == 200
    ensures |block| == 2300 ==> Remaining(block, 2400) == 800
  {
  }

  // -- Two questions in a row --

  /** The first of two questions in a row does not reach the log. */
  lemma {:induction false} FirstOfTwoQuestionsIsDropped()
    ensures var turns := [Turn(User, "a"), Turn(User, "b"), Turn(Assistant, "c")];
            LogLines(turns) == [Exchange(1, 2)] && !Logged(turns, 0) && Logged(turns, 1)
  {
    var turns := [Turn(User, "a"), Turn(User, "b"), Turn(Assistant, "c")];
    TurnIsLoggedIff(turns, 0);
    TurnIsLoggedIff(turns, 1);
    assert LinesTo(turns, 1) == [] && LinesTo(turns, 2) == [];
  }

  // -- A log that fits what was left for it, and is cut all the same --

  /** The same question and answer `n` / 2 times. */
  function Repeated(question: string, answer: string, n: nat): (turns: seq<Turn>)
    ensures |turns| == n
    ensures forall k :: 0 <= k < n ==> turns[k] == if k % 2 == 0 then Turn(User, question) else Turn(Assistant, answer)
  {
    seq(n, k => if k % 2 == 0 then Turn(User, question) else Turn(Assistant, answer))
  }

  lemma {:induction false} RepeatedLines(question: string, answer: string, n: nat, m: nat)
    requires n % 2 == 0 && 2 * m <= n
    ensures var lines := LinesTo(Repeated(question, answer, n), 2 * m);
            |lines| == m && forall k :: 0 <= k < m ==> lines[k] == Exchange(2 * k, 2 * k + 1)
  {
    if m > 0 {
      var turns := Repeated(question, answer, n);
      RepeatedLines(question, answer, n, m - 1);
      assert LinesTo(turns, 2 * m - 1) == LinesTo(turns, 2 * m - 2);
      assert LineAt(turns, 2 * m - 1) == Some(Exchange(2 * m - 2, 2 * m - 1));
    }
  }

  lemma {:induction false} RepeatedExchange(question: string, answer: string, n: nat, k: nat)
    requires 2 * k + 1 < n && Clip(question, 160) == question && Clip(answer, 120) == answer
    ensures var turns := Repeated(question, answer, n);
            Shown(turns, Exchange(2 * k, 2 * k + 1)) == ExchangeText(question, answer)
  {
    var turns := Repeated(question, answer, n);
    assert turns[2 * k] == Turn(User, question) && turns[2 * k + 1] == Turn(Assistant, answer);
    assert UserText(turns, 2 * k) == question;
    assert AnswerText(turns, 2 * k + 1) == answer;
  }

  lemma {:induction false} ExchangesLookAlike(turns: seq<Turn>, lines: seq<Line>, text: string)
    requires forall k :: 0 <= k < |lines| ==> Shown(turns, lines[k]) == text
    ensures forall k :: 0 <= k < |lines| ==> Rendered(turns, lines)[k] == text
  {
    if lines != [] {
      ExchangesLookAlike(turns, lines[..|lines| - 1], text);
    }
  }

  /** The log repeats one line. */
  lemma {:induction false} RepeatedLog(question: string, answer: string, n: nat, m: nat)
    requires n == 2 * m
    requires Clip(question, 160) == question && Clip(answer, 120) == answer
    ensures var turns := Repeated(question, answer, n);
            var bullets := Rendered(turns, LogLines(turns));
            |bullets| == m && forall k :: 0 <= k < m ==> bullets[k] == ExchangeText(question, answer)
  {
    var turns := Repeated(question, answer, n);
    var lines := LogLines(turns);
    RepeatedLines(question, answer, n, m);
    forall k | 0 <= k < |lines|
      ensures Shown(turns, lines[k]) == ExchangeText(question, answer)
    {
      RepeatedExchange(question, answer, n, k);
    }
    ExchangesLookAlike(turns, lines, ExchangeText(question, answer));
  }

  lemma {:induction false} FactsOfSnoc(pinning: Pinning, before: seq<Turn>, turn: Turn)
    ensures var line := Clip(turn.content, 200);
            FactsOf(pinning, before + [turn])
            == FactsOf(pinning, before)
               + if Pins(pinning, turn) && pinning.lower(line) !in KeysOf(pinning, before) then [line] else []
  {
    var turns := before + [turn];
    assert turns[..|turns| - 1] == before && turns[|turns| - 1] == turn;
    assert FactsOf(pinning, before) + [] == FactsOf(pinning, before);
  }

  /** The question is the only fact. */
  lemma {:induction false} RepeatedFacts(pinning: Pinning, question: string, answer: string, n: nat, m: nat)
    requires 0 < m <= n && Clip(question, 200) == question && Pins(pinning, Turn(User, question))
    ensures FactsOf(pinning, Repeated(question, answer, n)[..m]) == [question]
  {
    var turns := Repeated(question, answer, n);
    var before, turn := turns[..m - 1], turns[m - 1];
    assert turns[..m] == before + [turn];
    FactsOfSnoc(pinning, before, turn);
    if m > 1 {
      RepeatedFacts(pinning, question, answer, n, m - 1);
      KeyOfTurn(pinning, before, 0, question);
    } else {
      assert before == [];
    }
  }

  lemma {:induction false} KeyOfTurn(pinning: Pinning, turns: seq<Turn>, k: nat, line: string)
    requires k < |turns| && turns[k] == Turn(User, line) && Pins(pinning, turns[k]) && Clip(line, 200) == line
    ensures pinning.lower(line) in KeysOf(pinning, turns)
  {
  }

  lemma {:induction false} SizeOfEqualLines(bullets: seq<string>, length: nat, k: nat)
    requires k < |bullets| && forall i :: 0 <= i < |bullets| ==> |bullets[i]| == length
    ensures SizeFrom(bullets, k) == (|bullets| - k) * (length + 1) - 1
    decreases |bullets| - k
  {
    if k + 1 < |bullets| {
      SizeOfEqualLines(bullets, length, k + 1);
    }
  }

  lemma {:induction false} JoinEndsInLast(bullets: seq<string>)
    requires bullets != []
    ensures var joined, last := Join("\n", bullets), bullets[|bullets| - 1];
            |last| <= |joined| && joined[|joined| - |last|..] == last
  {
    if |bullets| > 1 {
      JoinEndsInLast(bullets[1..]);
      var rest := Join("\n", bullets[1..]);
      var joined := bullets[0] + "\n" + rest;
      assert joined[|bullets[0]| + 1..] == rest;
    }
  }

  const QUESTION := Wish(Letters('u', 129))
  const ANSWER := Letters('a', 115)

  /** Eight exchanges of the same question and answer. */
  const EIGHT_EXCHANGES := Repeated(QUESTION, ANSWER, 16)

  lemma {:induction false} OneFactIsPinned(pinning: Pinning)
    requires pinning.matches(QUESTION)
    ensures Latest(FactsOf(pinning, EIGHT_EXCHANGES), DEFAULT_PINNED_FACT_SLOTS) == [QUESTION]
  {
    WishIsKept(Letters('u', 129), 200);
    WishIsPinned(pinning, Letters('u', 129));
    RepeatedFacts(pinning, QUESTION, ANSWER, 16, 16);
    assert EIGHT_EXCHANGES[..16] == EIGHT_EXCHANGES;
  }

  lemma {:induction false} OneFactLength()
    ensures AreFacts([QUESTION]) && |PinnedText([QUESTION])| == 207
  {
    assert QUESTION[135] == Letters('u', 129)[128] == 'u';
    PinnedLength([QUESTION]);
    assert TotalLength([QUESTION]) == TotalLength([]) + 136 == 136;
  }

  lemma {:induction false} EqualBullets(bullets: seq<string>, text: string, n: nat, length: nat)
    requires |bullets| == n > 0 && |text| == length && forall k :: 0 <= k < n ==> bullets[k] == text
    ensures bullets[n - 1] == text && SizeFrom(bullets, 0) == n * (length + 1) - 1
  {
    SizeOfEqualLines(bullets, length, 0);
  }

  lemma {:induction false} EightLines()
    ensures var bullets := Rendered(EIGHT_EXCHANGES, LogLines(EIGHT_EXCHANGES));
            && |bullets| == 8 && bullets[7] == ExchangeText(QUESTION, ANSWER)
            && SizeFrom(bullets, 0) == 2191
  {
    WishIsKept(Letters('u', 129), 160);
    LettersAreKept('a', 115, 120);
    RepeatedLog(QUESTION, ANSWER, 16, 8);
    ExchangeLength(QUESTION, ANSWER);
    EqualBullets(Rendered(EIGHT_EXCHANGES, LogLines(EIGHT_EXCHANGES)), ExchangeText(QUESTION, ANSWER), 8, 273);
  }

  lemma {:induction false} ExchangeLength(question: string, answer: string)
    ensures |ExchangeText(question, answer)| == |question| + |answer| + 22
  {
  }

  lemma {:induction false} EndOfWhole(block: string, bullets: seq<string>, answer: string, question: string)
    requires bullets != [] && bullets[|bullets| - 1] == ExchangeText(question, answer)
    ensures var whole := block + LOG_HEADER + Join("\n", bullets);
            |answer| <= |whole| && whole[|whole| - |answer|..] == answer
  {
    var joined, last := Join("\n", bullets), ExchangeText(question, answer);
    JoinEndsInLast(bullets);
    assert last[|last| - |answer|..] == answer;
    assert joined[|joined| - |answer|..] == joined[|joined| - |last|..][|last| - |answer|..];
    var whole := block + LOG_HEADER + joined;
    assert whole[|whole| - |joined|..] == joined;
    assert whole[|whole| - |answer|..] == joined[|joined| - |answer|..];
  }

  /** With the default limit and slots, one fact and eight exchanges: the whole log has exactly the size
      that is left for it, so nothing is marked as omitted; the text is fourteen characters too long,
      and the newest answer loses its end. */
  lemma {:induction false} FittingLogLosesItsEnd(pinning: Pinning)
    requires pinning.matches(QUESTION)
    ensures var block := PinnedText([QUESTION]);
            var bullets := Rendered(EIGHT_EXCHANGES, LogLines(EIGHT_EXCHANGES));
            var whole := block + LOG_HEADER + Join("\n", bullets);
            && Latest(FactsOf(pinning, EIGHT_EXCHANGES), DEFAULT_PINNED_FACT_SLOTS) == [QUESTION]
            && |Join("\n", bullets)| == Remaining(block, DEFAULT_MAX_SUMMARY_CHARS)
            && |whole| == DEFAULT_MAX_SUMMARY_CHARS + 14
            && whole[|whole| - 15..] == Letters('a', 15)
            && Summary(EIGHT_EXCHANGES, DEFAULT_MAX_SUMMARY_CHARS, [QUESTION]) == whole[..|whole| - 15] + [ELLIPSIS]
  {
    var block := PinnedText([QUESTION]);
    var bullets := Rendered(EIGHT_EXCHANGES, LogLines(EIGHT_EXCHANGES));
    var whole := block + LOG_HEADER + Join("\n", bullets);
    OneFactIsPinned(pinning);
    OneFactLength();
    EightLines();
    SizeIsJoinLength(bullets, 0);
    assert bullets[0..] == bullets;
    assert |whole| == 2414 by {
      assert |LOG_HEADER| == 16;
    }
    EndOfWhole(block, bullets, ANSWER, QUESTION);
    NewestAnswerIsCut(whole);
    PinnedLogIsWholeIff(EIGHT_EXCHANGES, DEFAULT_MAX_SUMMARY_CHARS, [QUESTION]);
  }

  lemma {:induction false} NewestAnswerIsCut(whole: string)
    requires |whole| == 2414 && whole[2414 - 115..] == ANSWER
    ensures whole[2399..] == Letters('a', 15) && RStrip(whole[..2399]) == whole[..2399]
  {
    assert whole[2398] == ANSWER[99] == 'a';
    forall k | 0 <= k < 15
      ensures whole[2399..][k] == 'a'
    {
      assert whole[2399..][k] == ANSWER[100 + k];
    }
  }

  // -- Eleven facts of full length --

  /** A word of a hundred and ninety-three characters that starts with letter `k` of the alphabet. */
  function LongWord(k: nat): (w: string)
    requires k < 26
    ensures |w| == 193 && w[0] == 'a' + k as char && IsWord(w)
  {
    var w := ['a' + k as char] + Letters('x', 192);
    assert IsWord(w);
    w
  }

  /** A wish of two hundred characters. */
  function FullWish(k: nat): (w: string)
    requires k < 26
    ensures |w| == 200 && "i want " <= w && w[7] == 'a' + k as char
    ensures IsFact(w) && Clip(w, 200) == w
  {
    var w := Wish(LongWord(k));
    WishIsKept(LongWord(k), 200);
    assert w[7] == LongWord(k)[0] && w[199] == LongWord(k)[192];
    w
  }

  function FullWishes(n: nat): (turns: seq<Turn>)
    requires n <= 26
    ensures |turns| == n && forall k :: 0 <= k < n ==> turns[k] == Turn(User, FullWish(k))
  {
    seq(n, k requires 0 <= k < 26 => Turn(User, FullWish(k)))
  }

  /** The pinning finds the first `n` wishes, and lower-casing does not confuse them. */
  ghost predicate FindsWishes(pinning: Pinning, n: nat)
    requires n <= 26
  {
    && (forall k {:trigger FullWish(k)} :: 0 <= k < n ==> pinning.matches(FullWish(k)))
    && (forall j, k {:trigger FullWish(j), FullWish(k)} :: 0 <= j < k < n ==>
          pinning.lower(FullWish(j)) != pinning.lower(FullWish(k)))
  }

  /** Turns under different keys, all pinned as they stand. */
  ghost predicate DistinctAndPinned(pinning: Pinning, turns: seq<Turn>)
  {
    && (forall k :: 0 <= k < |turns| ==>
          Pins(pinning, turns[k]) && Clip(turns[k].content, 200) == turns[k].content)
    && (forall j, k :: 0 <= j < k < |turns| ==>
          pinning.lower(turns[j].content) != pinning.lower(turns[k].content))
  }

  lemma {:induction false} DistinctTurnsAreFacts(pinning: Pinning, turns: seq<Turn>)
    requires DistinctAndPinned(pinning, turns)
    ensures |FactsOf(pinning, turns)| == |turns|
    ensures forall k :: 0 <= k < |turns| ==> FactsOf(pinning, turns)[k] == turns[k].content
  {
    if turns != [] {
      var before, turn := turns[..|turns| - 1], turns[|turns| - 1];
      assert turns == before + [turn];
      DistinctTurnsAreFacts(pinning, before);
      LastKeyIsNew(pinning, before, turn);
      FactsOfSnoc(pinning, before, turn);
    }
  }

  lemma {:induction false} LastKeyIsNew(pinning: Pinning, before: seq<Turn>, turn: Turn)
    requires DistinctAndPinned(pinning, before + [turn])
    ensures Pins(pinning, turn) && Clip(turn.content, 200) == turn.content
    ensures pinning.lower(turn.content) !in KeysOf(pinning, before)
  {
    var turns := before + [turn];
    assert turns[|before|] == turn;
    forall k | 0 <= k < |before|
      ensures pinning.lower(Clip(before[k].content, 200)) != pinning.lower(turn.content)
    {
      assert turns[k] == before[k];
    }
  }

  lemma {:induction false} FullWishesAreFacts(pinning: Pinning, n: nat)
    requires n <= 26 && FindsWishes(pinning, n)
    ensures var facts := FactsOf(pinning, FullWishes(n));
            |facts| == n && forall k :: 0 <= k < n ==> facts[k] == FullWish(k)
  {
    var turns := FullWishes(n);
    forall k | 0 <= k < n
      ensures Pins(pinning, turns[k]) && Clip(turns[k].content, 200) == turns[k].content
    {
      assert pinning.matches(FullWish(k));
      WishIsPinned(pinning, LongWord(k));
      assert turns[k] == Turn(User, FullWish(k));
    }
    forall j, k | 0 <= j < k < n
      ensures pinning.lower(turns[j].content) != pinning.lower(turns[k].content)
    {
      assert pinning.lower(FullWish(j)) != pinning.lower(FullWish(k));
    }
    assert DistinctAndPinned(pinning, turns);
    DistinctTurnsAreFacts(pinning, turns);
  }

  /** Eleven wishes of two hundred characters pin eleven facts, fewer than the default slots, and the
      summary of the default size does not keep their block. */
  lemma {:induction false} ElevenPinnedFactsAreLost(pinning: Pinning)
    requires FindsWishes(pinning, 11)
    ensures var facts := Latest(FactsOf(pinning, FullWishes(11)), DEFAULT_PINNED_FACT_SLOTS);
            && |facts| == 11 && (forall k :: 0 <= k < 11 ==> facts[k] == FullWish(k))
            && !(PinnedText(facts) <= Summary(FullWishes(11), DEFAULT_MAX_SUMMARY_CHARS, facts))
  {
    var facts := Latest(FactsOf(pinning, FullWishes(11)), DEFAULT_PINNED_FACT_SLOTS);
    FullWishesAreFacts(pinning, 11);
    WishesAreFullFacts(facts);
    ElevenFullFactsAreCut(FullWishes(11), facts);
  }

  lemma {:induction false} WishesAreFullFacts(facts: seq<string>)
    requires |facts| <= 26 && forall k :: 0 <= k < |facts| ==> facts[k] == FullWish(k)
    ensures AreFacts(facts) && forall k :: 0 <= k < |facts| ==> |facts[k]| == 200
  {
    forall k | 0 <= k < |facts|
      ensures IsFact(facts[k]) && |facts[k]| == 200
    {
      assert facts[k] == FullWish(k);
    }
  }

  // -- A transcript that reaches the load limit --

  /** As many user messages as the load limit, each of one letter: a streamed turn prepares one message
      less than a turn that responds at once, for every service with a load limit. */
  lemma {:induction false} FullTranscriptDiffers(service: ChatService)
    requires service.loadLimit >= 1
    ensures var limit := service.loadLimit;
            var turns := seq(limit, _ => RawTurn("user", "a"));
            && service.From(Tail(turns, limit)) != service.From(Tail(turns, limit - 1))
            && service.From(Tail(turns[1..], limit)) == service.From(Tail(turns[1..], limit - 1))
  {
    var turns := seq(service.loadLimit, _ => RawTurn("user", "a"));
    OneLetterIsATurn();
    assert LosesOldest(turns, service.loadLimit);
    SameHistoryIff(service, turns);
    SameHistoryIff(service, turns[1..]);
  }

  lemma {:induction false} OneLetterIsATurn()
    ensures NormalizeOne(RawTurn("user", "a")) == Some(Turn(User, "a"))
  {
    assert LStrip("user") == "user" && RStrip("user") == "user";
    assert LStrip("a") == "a" && RStrip("a") == "a";
  }
}
