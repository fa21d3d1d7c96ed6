/** The summary of older turns: pinned facts first, then as many of the latest exchanges as fit. */
module HistorySummary {
  import opened History
  import opened Options
  import opened Text

  // -- The exchange log --

  /** A line of the log, by the positions of the turns it quotes. */
  datatype Line = Exchange(user: nat, answer: nat) | Answer(answer: nat) | Question(user: nat)

  predicate Quotes(line: Line, k: nat)
  {
    match line
    case Exchange(user, answer) => k == user || k == answer
    case Answer(answer) => k == answer
    case Question(user) => k == user
  }

  /** The line that ends with turn `k`, if any: an assistant turn answers the user turn directly before
      it; a user turn stands alone only at the end. */
  function LineAt(turns: seq<Turn>, k: nat): Option<Line>
    requires k < |turns|
  {
    if turns[k].role == Assistant then
      Some(if k > 0 && turns[k - 1].role == User then Exchange(k - 1, k) else Answer(k))
    else if k == |turns| - 1 then Some(Question(k))
    else None
  }

  function LinesTo(turns: seq<Turn>, n: nat): (lines: seq<Line>)
    requires n <= |turns|
  {
    if n == 0 then []
    else if LineAt(turns, n - 1).Some? then LinesTo(turns, n - 1) + [LineAt(turns, n - 1).value]
    else LinesTo(turns, n - 1)
  }

  function LogLines(turns: seq<Turn>): seq<Line>
  {
    LinesTo(turns, |turns|)
  }

  function UserText(turns: seq<Turn>, k: nat): string
  {
    if k < |turns| then Clip(turns[k].content, 160) else ""
  }

  function AnswerText(turns: seq<Turn>, k: nat): string
  {
    if k < |turns| then Clip(turns[k].content, 120) else ""
  }

  function ExchangeText(user: string, answer: string): string
  {
    "- User: " + user + " \U{2192} Assistant: " + answer
  }

  function AnswerOnlyText(answer: string): string
  {
    "- Assistant: " + answer
  }

  function QuestionText(user: string): string
  {
    "- User: " + user
  }

  function Shown(turns: seq<Turn>, line: Line): string
  {
    match line
    case Exchange(user, answer) => ExchangeText(UserText(turns, user), AnswerText(turns, answer))
    case Answer(answer) => AnswerOnlyText(AnswerText(turns, answer))
    case Question(user) => QuestionText(UserText(turns, user))
  }

  function Rendered(turns: seq<Turn>, lines: seq<Line>): (shown: seq<string>)
    ensures |shown| == |lines|
  {
    if lines == [] then []
    else Rendered(turns, lines[..|lines| - 1]) + [Shown(turns, lines[|lines| - 1])]
  }

  lemma {:induction false} RenderedSnoc(turns: seq<Turn>, lines: seq<Line>, line: Line)
    ensures Rendered(turns, lines + [line]) == Rendered(turns, lines) + [Shown(turns, line)]
  {
    assert (lines + [line])[..|lines|] == lines;
  }

  /** The lines of the first `n` turns without the question that would stand alone if they were all. */
  function Answered(turns: seq<Turn>, n: nat): seq<Line>
    requires n <= |turns|
  {
    if n == 0 then []
    else if turns[n - 1].role == User then Answered(turns, n - 1)
    else Answered(turns, n - 1) + [LineAt(turns, n - 1).value]
  }

  lemma {:induction false} AnsweredIsLog(turns: seq<Turn>, n: nat)
    requires n <= |turns|
    ensures LinesTo(turns, n)
            == Answered(turns, n) + if n == |turns| > 0 && turns[n - 1].role == User then [Question(n - 1)] else []
  {
    if n > 0 {
      AnsweredIsLog(turns, n - 1);
    }
  }

  /** The question that waits for its answer after `n` turns. */
  function Pending(turns: seq<Turn>, n: nat): Option<string>
    requires n <= |turns|
  {
    if n > 0 && turns[n - 1].role == User then Some(UserText(turns, n - 1)) else None
  }

  lemma {:induction false} AnsweredStep(turns: seq<Turn>, n: nat)
    requires n < |turns|
    ensures turns[n].role == User ==> Answered(turns, n + 1) == Answered(turns, n)
    ensures turns[n].role == Assistant ==>
              Rendered(turns, Answered(turns, n + 1))
              == Rendered(turns, Answered(turns, n)) + [AnswerShown(Pending(turns, n), AnswerText(turns, n))]
  {
    if turns[n].role == Assistant {
      var line := LineAt(turns, n).value;
      RenderedSnoc(turns, Answered(turns, n), line);
      assert Shown(turns, line) == AnswerShown(Pending(turns, n), AnswerText(turns, n)) by {
        assert line == if Pending(turns, n).Some? then Exchange(n - 1, n) else Answer(n);
      }
    }
  }

  function AnswerShown(pending: Option<string>, answer: string): string
  {
    if pending.Some? then ExchangeText(pending.value, answer) else AnswerOnlyText(answer)
  }

  lemma {:induction false} LogEnds(turns: seq<Turn>)
    ensures var answered, pending := Rendered(turns, Answered(turns, |turns|)), Pending(turns, |turns|);
            Rendered(turns, LogLines(turns))
            == if pending.Some? then answered + [QuestionText(pending.value)] else answered
  {
    AnsweredIsLog(turns, |turns|);
    if Pending(turns, |turns|).Some? {
      RenderedSnoc(turns, Answered(turns, |turns|), Question(|turns| - 1));
    } else {
      assert LogLines(turns) == Answered(turns, |turns|);
    }
  }

  method BuildLog(turns: seq<Turn>) returns (bullets: seq<string>)
    ensures bullets == Rendered(turns, LogLines(turns))
  {
    bullets := [];
    var pendingUser: Option<string> := None;
    for n := 0 to |turns|
      invariant bullets == Rendered(turns, Answered(turns, n))
      invariant pendingUser == Pending(turns, n)
    {
      AnsweredStep(turns, n);
      if turns[n].role == User {
        pendingUser := Some(Clip(turns[n].content, 160));
      } else {
        var answer := Clip(turns[n].content, 120);
        if pendingUser.Some? {
          bullets := bullets + [ExchangeText(pendingUser.value, answer)];
          pendingUser := None;
        } else {
          bullets := bullets + [AnswerOnlyText(answer)];
        }
      }
    }
    LogEnds(turns);
    if pendingUser.Some? {
      bullets := bullets + [QuestionText(pendingUser.value)];
    }
  }

  function Assistants(turns: seq<Turn>, n: nat): nat
    requires n <= |turns|
  {
    if n == 0 then 0 else Assistants(turns, n - 1) + if turns[n - 1].role == Assistant then 1 else 0
  }

  /** One line for each assistant turn, and one more for a last turn that is a user's. */
  lemma {:induction false} LinesAreAnswersPlusOpenQuestion(turns: seq<Turn>, n: nat)
    requires n <= |turns|
    ensures |LinesTo(turns, n)|
            == Assistants(turns, n) + if n == |turns| > 0 && turns[n - 1].role == User then 1 else 0
  {
    if n > 0 {
      LinesAreAnswersPlusOpenQuestion(turns, n - 1);
    }
  }

  lemma {:induction false} LogIsNotEmpty(turns: seq<Turn>)
    requires turns != []
    ensures LogLines(turns) != []
  {
    assert LineAt(turns, |turns| - 1).Some?;
  }

  /** Which lines the log has: exactly those that some turn ends. */
  lemma {:induction false} LineInLogIff(turns: seq<Turn>, n: nat, line: Line)
    requires n <= |turns|
    ensures line in LinesTo(turns, n) <==> exists k :: 0 <= k < n && LineAt(turns, k) == Some(line)
  {
    if n > 0 {
      LineInLogIff(turns, n - 1, line);
      if line in LinesTo(turns, n) && line !in LinesTo(turns, n - 1) {
        assert LineAt(turns, n - 1) == Some(line);
      }
    }
  }

  predicate Logged(turns: seq<Turn>, k: nat)
  {
    exists line :: line in LogLines(turns) && Quotes(line, k)
  }

  /** Every assistant turn reaches the log. A user turn does if and only if it is the last turn or an
      assistant turn follows it directly: of two user turns in a row the first is dropped. */
  lemma {:induction false} TurnIsLoggedIff(turns: seq<Turn>, k: nat)
    requires k < |turns|
    ensures Logged(turns, k)
            <==> turns[k].role == Assistant || k == |turns| - 1 || turns[k + 1].role == Assistant
  {
    if turns[k].role == Assistant || k == |turns| - 1 {
      LineInLogIff(turns, |turns|, LineAt(turns, k).value);
      assert Quotes(LineAt(turns, k).value, k);
    } else if turns[k + 1].role == Assistant {
      LineInLogIff(turns, |turns|, Exchange(k, k + 1));
      assert LineAt(turns, k + 1) == Some(Exchange(k, k + 1));
      assert Quotes(Exchange(k, k + 1), k);
    } else {
      forall line | line in LogLines(turns)
        ensures !Quotes(line, k)
      {
        LineInLogIff(turns, |turns|, line);
        var j :| 0 <= j < |turns| && LineAt(turns, j) == Some(line);
        assert j != k;
      }
    }
  }

  // -- The pinned block --

  const PIN_HEADER := "Pinned user-stated facts (authoritative for this thread):"

  function FactLines(facts: seq<string>): seq<string>
  {
    if facts == [] then [] else FactLines(facts[..|facts| - 1]) + ["- USER_FACT: " + facts[|facts| - 1]]
  }

  /** The header, the facts and an empty line, joined and stripped on the right. */
  function PinnedBlock(facts: seq<string>): string
  {
    if facts == [] then "" else RStrip(Join("\n", [PIN_HEADER] + FactLines(facts) + [""]))
  }

  /** The header and each fact on a line of its own. */
  function PinnedText(facts: seq<string>): string
  {
    if facts == [] then PIN_HEADER
    else PinnedText(facts[..|facts| - 1]) + "\n- USER_FACT: " + facts[|facts| - 1]
  }

  lemma {:induction false} JoinSnoc(separator: string, parts: seq<string>, last: string)
    requires parts != []
    ensures Join(separator, parts + [last]) == Join(separator, parts) + separator + last
  {
    if |parts| == 1 {
      assert (parts + [last])[1..] == [last];
    } else {
      assert (parts + [last])[1..] == parts[1..] + [last];
      JoinSnoc(separator, parts[1..], last);
      var rest := Join(separator, parts[1..]);
      assert parts[0] + separator + (rest + separator + last) == parts[0] + separator + rest + separator + last;
    }
  }

  lemma {:induction false} JoinOfFactLines(facts: seq<string>)
    ensures Join("\n", [PIN_HEADER] + FactLines(facts)) == PinnedText(facts)
  {
    if facts != [] {
      var n := |facts| - 1;
      var before := [PIN_HEADER] + FactLines(facts[..n]);
      var line := "- USER_FACT: " + facts[n];
      JoinOfFactLines(facts[..n]);
      JoinSnoc("\n", before, line);
      assert [PIN_HEADER] + FactLines(facts) == before + [line];
      assert "\n" + line == "\n- USER_FACT: " + facts[n];
      assert PinnedText(facts[..n]) + "\n" + line == PinnedText(facts[..n]) + ("\n" + line);
    }
  }

  lemma {:induction false} PinnedTextEnds(facts: seq<string>)
    requires AreFacts(facts) && facts != []
    ensures PinnedText(facts) != "" && !IsSpace(PinnedText(facts)[|PinnedText(facts)| - 1])
  {
    assert IsFact(facts[|facts| - 1]);
  }

  /** The trailing line break is all that stripping removes. */
  lemma {:induction false} PinnedBlockIsText(facts: seq<string>)
    requires AreFacts(facts) && facts != []
    ensures PinnedBlock(facts) == PinnedText(facts)
  {
    var lines := [PIN_HEADER] + FactLines(facts);
    JoinSnoc("\n", lines, "");
    JoinOfFactLines(facts);
    PinnedTextEnds(facts);
    var text := PinnedText(facts);
    var joined := text + "\n" + "";
    assert joined == text + "\n";
    assert IsSpace(joined[|joined| - 1]) && joined[..|joined| - 1] == text;
    assert RStrip(joined) == RStrip(text) == text;
  }

  function TotalLength(parts: seq<string>): nat
  {
    if parts == [] then 0 else TotalLength(parts[..|parts| - 1]) + |parts[|parts| - 1]|
  }

  lemma {:induction false} PinnedLength(facts: seq<string>)
    ensures |PinnedText(facts)| == 57 + 14 * |facts| + TotalLength(facts)
  {
    if facts != [] {
      PinnedLength(facts[..|facts| - 1]);
    }
  }

  // -- The part of the log that fits --

  /** The size of the log from line `k` on, with its line breaks. */
  function SizeFrom(bullets: seq<string>, k: nat): nat
    requires k <= |bullets|
    decreases |bullets| - k
  {
    if k == |bullets| then 0
    else |bullets[k]| + (if k + 1 < |bullets| then 1 else 0) + SizeFrom(bullets, k + 1)
  }

  lemma {:induction false} SizeIsJoinLength(bullets: seq<string>, k: nat)
    requires k <= |bullets|
    ensures |Join("\n", bullets[k..])| == SizeFrom(bullets, k)
    decreases |bullets| - k
  {
    if k < |bullets| {
      SizeIsJoinLength(bullets, k + 1);
      assert bullets[k..][1..] == bullets[k + 1..];
    }
  }

  /** `k` starts the longest end of the log that fits the budget. */
  predicate StartsLongestFit(bullets: seq<string>, budget: int, k: nat)
    requires k <= |bullets|
  {
    && (k < |bullets| ==> SizeFrom(bullets, k) <= budget)
    && (k > 0 ==> SizeFrom(bullets, k - 1) > budget)
  }

  lemma {:induction false} SizeShrinks(bullets: seq<string>, j: nat, k: nat)
    requires j <= k <= |bullets|
    ensures SizeFrom(bullets, k) <= SizeFrom(bullets, j)
    decreases k - j
  {
    if j < k {
      SizeShrinks(bullets, j + 1, k);
    }
  }

  lemma {:induction false} LongestFitIsUnique(bullets: seq<string>, budget: int, j: nat, k: nat)
    requires j <= |bullets| && StartsLongestFit(bullets, budget, j)
    requires k <= |bullets| && StartsLongestFit(bullets, budget, k)
    ensures j == k
  {
    if j < k {
      SizeShrinks(bullets, j, k - 1);
    } else if k < j {
      SizeShrinks(bullets, k, j - 1);
    }
  }

  /** Where the kept lines start. */
  function KeptFrom(bullets: seq<string>, budget: int, k: nat): (from: nat)
    requires k <= |bullets| && (k < |bullets| ==> SizeFrom(bullets, k) <= budget)
    ensures from <= k && StartsLongestFit(bullets, budget, from)
  {
    if k == 0 || SizeFrom(bullets, k - 1) > budget then k else KeptFrom(bullets, budget, k - 1)
  }

  /** Decimal digits, as `str` writes a count. */
  function Digits(n: nat): string
  {
    if n < 10 then [('0' as int + n) as char] else Digits(n / 10) + [('0' as int + n % 10) as char]
  }

  function OmittedLine(count: nat): string
  {
    "- " + [ELLIPSIS] + "(" + Digits(count) + " earlier exchanges omitted)"
  }

  /** Walks the log backwards, taking lines until the next one would not fit. */
  method KeepLatest(bullets: seq<string>, remaining: int) returns (kept: seq<string>)
    requires SizeFrom(bullets, 0) > remaining >= 0
    ensures var from := KeptFrom(bullets, remaining - 40, |bullets|);
            && from > 0
            && kept == [OmittedLine(from)] + bullets[from..]
  {
    kept := [];
    var size := 0;
    var k := |bullets|;
    while k > 0
      invariant 0 <= k <= |bullets|
      invariant kept == bullets[k..]
      invariant size == SizeFrom(bullets, k)
      invariant k < |bullets| ==> size <= remaining - 40
      invariant KeptFrom(bullets, remaining - 40, |bullets|) == KeptFrom(bullets, remaining - 40, k)
      decreases k
    {
      var add := |bullets[k - 1]| + if kept != [] then 1 else 0;
      if size + add > remaining - 40 {
        break;
      }
      kept := [bullets[k - 1]] + kept;
      size := size + add;
      k := k - 1;
    }
    var omitted := |bullets| - |kept|;
    if omitted > 0 {
      kept := [OmittedLine(omitted)] + kept;
    }
  }

  /** The characters left for the log once the pinned block and two line breaks are reserved. */
  function Remaining(pinnedBlock: string, maxChars: int): int
  {
    var left := maxChars - if pinnedBlock != "" then |pinnedBlock| + 2 else 0;
    if left >= 200 then left else if maxChars / 3 > 200 then maxChars / 3 else 200
  }

  function LogBody(bullets: seq<string>, remaining: int): string
    requires remaining >= 0
  {
    if SizeFrom(bullets, 0) <= remaining then Join("\n", bullets)
    else
      var from := KeptFrom(bullets, remaining - 40, |bullets|);
      Join("\n", [OmittedLine(from)] + bullets[from..])
  }

  const LOG_HEADER := "\n\nExchange log:\n"

  /** The summary before the final cut. */
  function FullText(pinnedBlock: string, bullets: seq<string>, maxChars: int): string
  {
    if bullets == [] then pinnedBlock
    else
      var body := LogBody(bullets, Remaining(pinnedBlock, maxChars));
      if pinnedBlock != "" then pinnedBlock + LOG_HEADER + body else body
  }

  /** `text[:n]`, where a negative `n` counts from the end. */
  function Prefix(text: string, n: int): (r: string)
    ensures r <= text
    ensures n >= 0 ==> |r| == if n <= |text| then n else |text|
    ensures n < 0 ==> |r| == if |text| + n >= 0 then |text| + n else 0
  {
    if n >= |text| then text
    else if n >= 0 then text[..n]
    else if |text| + n > 0 then text[..|text| + n]
    else ""
  }

  function Cut(text: string, maxChars: int): string
  {
    if |text| <= maxChars then text else RStrip(Prefix(text, maxChars - 1)) + [ELLIPSIS]
  }

  function Summary(turns: seq<Turn>, maxChars: int, facts: seq<string>): string
  {
    var bullets := Rendered(turns, LogLines(turns));
    if bullets == [] && facts == [] then "No earlier substantive turns."
    else Cut(FullText(PinnedBlock(facts), bullets, maxChars), maxChars)
  }

  method BuildPinnedBlock(facts: seq<string>) returns (block: string)
    ensures block == PinnedBlock(facts)
  {
    var sections: seq<string> := [];
    if facts != [] {
      sections := [PIN_HEADER];
      for n := 0 to |facts|
        invariant sections == [PIN_HEADER] + FactLines(facts[..n])
      {
        assert facts[..n + 1][..n] == facts[..n];
        sections := sections + ["- USER_FACT: " + facts[n]];
      }
      assert facts[..|facts|] == facts;
      sections := sections + [""];
    }
    block := RStrip(Join("\n", sections));
  }

  method FitLog(bullets: seq<string>, remaining: int) returns (body: string)
    requires remaining >= 0
    ensures body == LogBody(bullets, remaining)
  {
    body := Join("\n", bullets);
    SizeIsJoinLength(bullets, 0);
    assert bullets[0..] == bullets;
    if |body| > remaining {
      var kept := KeepLatest(bullets, remaining);
      body := Join("\n", kept);
    }
  }

  method SummarizeTurns(turns: seq<Turn>, maxChars: int, facts: seq<string>) returns (summary: string)
    ensures summary == Summary(turns, maxChars, facts)
  {
    var bullets := BuildLog(turns);
    if bullets == [] && facts == [] {
      return "No earlier substantive turns.";
    }
    var pinnedBlock := BuildPinnedBlock(facts);
    var remaining := maxChars - if pinnedBlock != "" then |pinnedBlock| + 2 else 0;
    if remaining < 200 {
      remaining := if maxChars / 3 > 200 then maxChars / 3 else 200;
    }
    var text := pinnedBlock;
    if bullets != [] {
      var body := FitLog(bullets, remaining);
      text := if pinnedBlock != "" then pinnedBlock + LOG_HEADER + body else body;
    }
    if |text| <= maxChars {
      return text;
    }
    summary := RStrip(Prefix(text, maxChars - 1)) + [ELLIPSIS];
  }

  // -- What the summary guarantees --

  lemma {:induction false} CutFits(text: string, maxChars: int)
    requires maxChars >= 1
    ensures |Cut(text, maxChars)| <= maxChars
  {
    if |text| > maxChars {
      RStripIsPrefix(Prefix(text, maxChars - 1));
    }
  }

  lemma {:induction false} FirstLineShown(turns: seq<Turn>, lines: seq<Line>)
    requires lines != []
    ensures Rendered(turns, lines)[0] != ""
  {
    if |lines| > 1 {
      FirstLineShown(turns, lines[..|lines| - 1]);
    } else {
      assert |"- User: "| == 8 && |"- Assistant: "| == 13;
    }
  }

  lemma {:induction false} TextIsNotEmpty(turns: seq<Turn>, maxChars: int, facts: seq<string>)
    requires turns != []
    ensures FullText(PinnedBlock(facts), Rendered(turns, LogLines(turns)), maxChars) != ""
  {
    var bullets := Rendered(turns, LogLines(turns));
    LogIsNotEmpty(turns);
    FirstLineShown(turns, LogLines(turns));
    assert |LOG_HEADER| == 16;
  }

  /** For any non-empty older part the summary keeps its limit if and only if the limit is positive. */
  lemma {:induction false} SummaryFitsIff(turns: seq<Turn>, maxChars: int, facts: seq<string>)
    requires turns != []
    ensures |Summary(turns, maxChars, facts)| <= maxChars <==> maxChars >= 1
  {
    LogIsNotEmpty(turns);
    var text := FullText(PinnedBlock(facts), Rendered(turns, LogLines(turns)), maxChars);
    if maxChars >= 1 {
      CutFits(text, maxChars);
    } else {
      TextIsNotEmpty(turns, maxChars, facts);
    }
  }

  /** A prefix that ends in a visible character survives the cut if it is one shorter than the limit. */
  lemma {:induction false} CutKeepsPrefix(p: string, text: string, maxChars: int)
    requires p <= text && p != "" && !IsSpace(p[|p| - 1]) && |p| <= maxChars - 1
    ensures p <= Cut(text, maxChars)
  {
    if |text| > maxChars {
      RStripKeeps(p, text[..maxChars - 1]);
    }
  }

  /** A longer one survives only in a corner: it has the length of the limit and its own last character
      is an ellipsis behind a visible one. */
  lemma {:induction false} CutLosesLongPrefix(p: string, text: string, maxChars: int)
    requires p < text && |p| >= maxChars >= 1 && |p| >= 2
    ensures p <= Cut(text, maxChars)
            <==> |p| == maxChars && p[|p| - 1] == ELLIPSIS && !IsSpace(p[|p| - 2])
  {
    var cut := text[..maxChars - 1];
    RStripIsPrefix(cut);
    var r := RStrip(cut) + [ELLIPSIS];
    assert Cut(text, maxChars) == r;
    if |p| == maxChars {
      assert cut == p[..|p| - 1];
      if !IsSpace(p[|p| - 2]) {
        assert RStrip(cut) == cut;
      } else {
        assert IsSpace(cut[|cut| - 1]);
        assert |RStrip(cut)| < |cut| by { RStripIsPrefix(cut[..|cut| - 1]); }
      }
    }
  }

  lemma {:induction false} BlockOpensText(block: string, bullets: seq<string>, maxChars: int)
    requires block != "" && bullets != []
    ensures block < FullText(block, bullets, maxChars)
  {
    assert |LOG_HEADER| == 16;
  }

  lemma {:induction false} BlockSurvivesIff(block: string, text: string, maxChars: int)
    requires block < text && |block| >= 2 && !IsSpace(block[|block| - 1]) && maxChars >= 1
    ensures block <= Cut(text, maxChars)
            <==> |block| < maxChars
                 || (|block| == maxChars && block[|block| - 1] == ELLIPSIS && !IsSpace(block[|block| - 2]))
  {
    if |block| < maxChars {
      CutKeepsPrefix(block, text, maxChars);
    } else {
      CutLosesLongPrefix(block, text, maxChars);
    }
  }

  lemma {:induction false} SummaryKeepsBlockIff(turns: seq<Turn>, maxChars: int, facts: seq<string>, block: string)
    requires turns != [] && maxChars >= 1
    requires PinnedBlock(facts) == block && |block| >= 2 && !IsSpace(block[|block| - 1])
    ensures block <= Summary(turns, maxChars, facts)
            <==> |block| < maxChars
                 || (|block| == maxChars && block[|block| - 1] == ELLIPSIS && !IsSpace(block[|block| - 2]))
  {
    var bullets := Rendered(turns, LogLines(turns));
    LogIsNotEmpty(turns);
    BlockOpensText(block, bullets, maxChars);
    BlockSurvivesIff(block, FullText(block, bullets, maxChars), maxChars);
  }

  /** When the pinned block reaches the runner whole, at the start of the summary: exactly when it is
      shorter than the limit, or as long as the limit and already ending in a clip. */
  lemma {:induction false} PinnedFactsSurviveIff(turns: seq<Turn>, maxChars: int, facts: seq<string>)
    requires turns != [] && AreFacts(facts) && facts != [] && maxChars >= 1
    ensures var block := PinnedText(facts);
            && |block| >= 2
            && (block <= Summary(turns, maxChars, facts)
                <==> |block| < maxChars
                     || (|block| == maxChars && block[|block| - 1] == ELLIPSIS && !IsSpace(block[|block| - 2])))
  {
    var block := PinnedText(facts);
    PinnedBlockIsText(facts);
    PinnedTextEnds(facts);
    PinnedLength(facts);
    SummaryKeepsBlockIff(turns, maxChars, facts, block);
  }

  lemma {:induction false} TotalIsBounded(facts: seq<string>)
    requires AreFacts(facts)
    ensures TotalLength(facts) <= 200 * |facts|
  {
    if facts != [] {
      TotalIsBounded(facts[..|facts| - 1]);
      assert IsFact(facts[|facts| - 1]);
    }
  }

  lemma {:induction false} FullFactsTotal(facts: seq<string>)
    requires forall k :: 0 <= k < |facts| ==> |facts[k]| == 200
    ensures TotalLength(facts) == 200 * |facts|
  {
    if facts != [] {
      FullFactsTotal(facts[..|facts| - 1]);
    }
  }

  const DEFAULT_MAX_SUMMARY_CHARS := 2400

  /** With the default limit any ten facts reach the runner whole. */
  lemma {:induction false} TenFactsSurvive(turns: seq<Turn>, facts: seq<string>)
    requires turns != [] && AreFacts(facts) && 1 <= |facts| <= 10
    ensures PinnedText(facts) <= Summary(turns, DEFAULT_MAX_SUMMARY_CHARS, facts)
  {
    PinnedLength(facts);
    TotalIsBounded(facts);
    PinnedFactsSurviveIff(turns, DEFAULT_MAX_SUMMARY_CHARS, facts);
  }

  /** Eleven or twelve facts, which the default number of slots admits, do not if each has the full
      length. */
  lemma {:induction false} ElevenFullFactsAreCut(turns: seq<Turn>, facts: seq<string>)
    requires turns != [] && AreFacts(facts) && |facts| >= 11
    requires forall k :: 0 <= k < |facts| ==> |facts[k]| == 200
    ensures !(PinnedText(facts) <= Summary(turns, DEFAULT_MAX_SUMMARY_CHARS, facts))
  {
    PinnedLength(facts);
    FullFactsTotal(facts);
    PinnedFactsSurviveIff(turns, DEFAULT_MAX_SUMMARY_CHARS, facts);
  }

  // -- When the log reaches the runner whole --

  lemma {:induction false} DigitsAreShort(n: nat, power: nat, width: nat)
    requires 1 <= width && n < power && power == Power10(width)
    ensures |Digits(n)| <= width
    decreases width
  {
    if n >= 10 {
      DigitsAreShort(n / 10, Power10(width - 1), width - 1);
    }
  }

  function Power10(width: nat): nat
  {
    if width == 0 then 1 else 10 * Power10(width - 1)
  }

  /** The forty characters held back are enough for the line that counts what was left out. */
  lemma {:induction false} LogBodyFits(bullets: seq<string>, remaining: int)
    requires remaining >= 200 && |bullets| < 100000000
    ensures |LogBody(bullets, remaining)| <= remaining
  {
    SizeIsJoinLength(bullets, 0);
    assert bullets[0..] == bullets;
    if SizeFrom(bullets, 0) > remaining {
      var from := KeptFrom(bullets, remaining - 40, |bullets|);
      assert Power10(8) == 100000000;
      DigitsAreShort(from, 100000000, 8);
      SizeIsJoinLength(bullets, from);
      assert ([OmittedLine(from)] + bullets[from..])[1..] == bullets[from..];
      assert |" earlier exchanges omitted)"| == 27;
    }
  }

  lemma {:induction false} CutIsWholeIff(text: string, maxChars: int)
    requires maxChars >= 1
    ensures Cut(text, maxChars) == text <==> |text| <= maxChars
  {
    CutFits(text, maxChars);
  }

  lemma {:induction false} UnpinnedSummaryIsCut(turns: seq<Turn>, maxChars: int) returns (body: string)
    requires turns != [] && maxChars >= 1
    ensures body == LogBody(Rendered(turns, LogLines(turns)), Remaining("", maxChars))
    ensures Summary(turns, maxChars, []) == Cut(body, maxChars)
  {
    var bullets := Rendered(turns, LogLines(turns));
    LogIsNotEmpty(turns);
    body := LogBody(bullets, Remaining("", maxChars));
    assert FullText("", bullets, maxChars) == body;
  }

  lemma {:induction false} UnpinnedBodyFits(bullets: seq<string>, maxChars: int)
    requires maxChars >= 200 && |bullets| < 100000000
    ensures |LogBody(bullets, Remaining("", maxChars))| <= maxChars
  {
    assert Remaining("", maxChars) == maxChars;
    LogBodyFits(bullets, maxChars);
  }

  /** Without pinned facts the selected log is whole if and only if it keeps the limit, which from two
      hundred characters on it always does: it is the whole log, or the line that counts what was left
      out followed by the longest end of the log that fits. */
  lemma {:induction false} UnpinnedLogIsWhole(turns: seq<Turn>, maxChars: int)
    requires turns != [] && maxChars >= 1
    ensures var body := LogBody(Rendered(turns, LogLines(turns)), Remaining("", maxChars));
            && (Summary(turns, maxChars, []) == body <==> |body| <= maxChars)
            && (maxChars >= 200 && |LogLines(turns)| < 100000000 ==> |body| <= maxChars)
  {
    var body := UnpinnedSummaryIsCut(turns, maxChars);
    CutIsWholeIff(body, maxChars);
    assert maxChars >= 200 && |LogLines(turns)| < 100000000 ==> |body| <= maxChars by {
      if maxChars >= 200 && |LogLines(turns)| < 100000000 {
        UnpinnedBodyFits(Rendered(turns, LogLines(turns)), maxChars);
      }
    }
  }

  /** Pinned block, header and selected log, before the final cut. */
  function WholeText(block: string, bullets: seq<string>, maxChars: int): string
  {
    block + LOG_HEADER + LogBody(bullets, Remaining(block, maxChars))
  }

  lemma {:induction false} SummaryIsCutOfWhole(turns: seq<Turn>, maxChars: int, facts: seq<string>, block: string)
    requires turns != [] && block != "" && PinnedBlock(facts) == block
    ensures Summary(turns, maxChars, facts)
            == Cut(WholeText(block, Rendered(turns, LogLines(turns)), maxChars), maxChars)
  {
    LogIsNotEmpty(turns);
  }

  /** With pinned facts the selected log is whole if and only if it also fits with the sixteen
      characters of its header; only two of them are reserved when the log is selected. Otherwise the
      end of the text, which is the newest exchange, gives way to an ellipsis. */
  lemma {:induction false} PinnedLogIsWholeIff(turns: seq<Turn>, maxChars: int, facts: seq<string>)
    requires turns != [] && AreFacts(facts) && facts != [] && maxChars >= 1
    ensures var block := PinnedText(facts);
            var body := LogBody(Rendered(turns, LogLines(turns)), Remaining(block, maxChars));
            var whole := block + LOG_HEADER + body;
            && (Summary(turns, maxChars, facts) == whole <==> |block| + 16 + |body| <= maxChars)
            && (|block| + 16 + |body| > maxChars ==>
                  Summary(turns, maxChars, facts) == RStrip(whole[..maxChars - 1]) + [ELLIPSIS])
  {
    var block, bullets := PinnedText(facts), Rendered(turns, LogLines(turns));
    PinnedBlockIsText(facts);
    PinnedTextEnds(facts);
    SummaryIsCutOfWhole(turns, maxChars, facts, block);
    WholeLength(block, bullets, maxChars);
    CutIsWholeIff(WholeText(block, bullets, maxChars), maxChars);
  }

  lemma {:induction false} WholeLength(block: string, bullets: seq<string>, maxChars: int)
    ensures |WholeText(block, bullets, maxChars)| == |block| + 16 + |LogBody(bullets, Remaining(block, maxChars))|
  {
    assert |LOG_HEADER| == 16;
  }

  /** How far the text can exceed the limit: by fourteen characters when the block leaves room for two
      hundred characters of log, and otherwise by what the guaranteed share of the log takes. */
  lemma {:induction false} PinnedOverflowIsBounded(block: string, bullets: seq<string>, maxChars: int)
    requires block != "" && |bullets| < 100000000
    ensures |WholeText(block, bullets, maxChars)| <= |block| + 16 + Remaining(block, maxChars)
    ensures |block| + 202 <= maxChars ==> |WholeText(block, bullets, maxChars)| <= maxChars + 14
  {
    WholeLength(block, bullets, maxChars);
    LogBodyFits(bullets, Remaining(block, maxChars));
  }

  // -- The history handed to the runner --

  const DEFAULT_KEEP_RECENT := 8
  const DEFAULT_PINNED_FACT_SLOTS := 12

  datatype Prepared = Prepared(
    turns: seq<Turn>, summary: Option<string>, totalMessages: nat, keptRecent: nat,
    summarizedMessages: nat, pinnedFacts: seq<string>)

  /** The fixed sentences around the summary, and the fixed reply to it. */
  datatype Wording = Wording(opening: string, closing: string, reply: string)

  function Bridge(wording: Wording, summary: string): seq<Turn>
  {
    [Turn(User, wording.opening + summary + wording.closing), Turn(Assistant, wording.reply)]
  }

  /** The size of the verbatim window; a value below one means the default. */
  function Window(keepRecent: int): (window: nat)
    ensures window == if keepRecent >= 1 then keepRecent else 8
  {
    if keepRecent < 1 then DEFAULT_KEEP_RECENT else keepRecent
  }

  method PrepareChatHistory(pinning: Pinning, wording: Wording, raw: seq<RawTurn>, keepRecent: int,
                            maxSummaryChars: int, slots: int)
    returns (p: Prepared)
    ensures p == PreparedFrom(pinning, wording, Normalized(raw), Window(keepRecent), maxSummaryChars, slots)
    ensures p.summary.Some? <==> |Normalized(raw)| > Window(keepRecent)
    ensures p.summary.Some? ==>
      && |p.turns| == p.keptRecent + 2
      && p.turns[0] == Turn(User, wording.opening + p.summary.value + wording.closing)
      && p.turns[1] == Turn(Assistant, wording.reply)
  {
    var turns := NormalizeTurns(raw);
    var keep := keepRecent;
    if keep < 1 {
      keep := DEFAULT_KEEP_RECENT;
    }
    p := CompressTurns(pinning, wording, turns, keep, maxSummaryChars, slots);
    RunnerIsHandedSummary(pinning, wording, turns, keep, maxSummaryChars, slots, p);
  }

  method CompressTurns(pinning: Pinning, wording: Wording, turns: seq<Turn>, keep: nat,
                       maxSummaryChars: int, slots: int)
    returns (p: Prepared)
    ensures p == PreparedFrom(pinning, wording, turns, keep, maxSummaryChars, slots)
  {
    var total := |turns|;
    if total <= keep {
      return Prepared(turns, None, total, total, 0, []);
    }
    var older := turns[..total - keep];
    var recent := turns[total - keep..];
    var pinned := ExtractPinnedFacts(pinning, older, slots);
    var summary := SummarizeTurns(older, maxSummaryChars, pinned);
    p := Prepared(Bridge(wording, summary) + recent, Some(summary), total, |recent|, |older|, pinned);
  }

  function PreparedFrom(pinning: Pinning, wording: Wording, turns: seq<Turn>, window: nat,
                        maxSummaryChars: int, slots: int): Prepared
  {
    var total := |turns|;
    if total <= window then Prepared(turns, None, total, total, 0, [])
    else
      var older := turns[..total - window];
      var pinned := Latest(FactsOf(pinning, older), slots);
      var summary := Summary(older, maxSummaryChars, pinned);
      Prepared(Bridge(wording, summary) + turns[total - window..], Some(summary), total, window, total - window, pinned)
  }

  /** Up to the window the runner is handed the turns themselves. Beyond it, the first turn is the summary
      between its fixed sentences, the second the fixed reply, and the rest the latest turns verbatim; the
      summary is that of all earlier turns, with the latest of their facts. */
  lemma {:induction false} RunnerIsHandedSummary(pinning: Pinning, wording: Wording, turns: seq<Turn>, window: nat,
                                                 maxSummaryChars: int, slots: int, p: Prepared)
    requires window >= 1 && p == PreparedFrom(pinning, wording, turns, window, maxSummaryChars, slots)
    ensures if |turns| <= window then p.turns == turns && p.summary.None? && p.pinnedFacts == []
            else
              var older := turns[..|turns| - window];
              && p.keptRecent == window && |p.turns| == window + 2
              && p.pinnedFacts == Latest(FactsOf(pinning, older), slots)
              && p.summary == Some(Summary(older, maxSummaryChars, p.pinnedFacts))
              && p.turns[0] == Turn(User, wording.opening + p.summary.value + wording.closing)
              && p.turns[1] == Turn(Assistant, wording.reply)
              && p.turns[2..] == turns[|turns| - window..]
  {
  }

  lemma {:induction false} LatestAreFacts(facts: seq<string>, limit: int)
    requires AreFacts(facts)
    ensures AreFacts(Latest(facts, limit))
    ensures limit >= 1 ==> |Latest(facts, limit)| <= limit && |Latest(facts, limit)| >= if facts == [] then 0 else 1
  {
    var latest := Latest(facts, limit);
    var skipped := |facts| - |latest|;
    forall k | 0 <= k < |latest|
      ensures IsFact(latest[k])
    {
      assert latest[k] == facts[skipped + k];
    }
  }

  /** What the runner is handed never exceeds the window by more than the two turns of the bridge; the
      last turns are the latest ones verbatim; every turn is either kept or summarised; and the summary
      keeps its limit and starts with the facts whenever their block is shorter than the limit. */
  lemma {:induction false} PreparedIsBounded(pinning: Pinning, wording: Wording, turns: seq<Turn>, window: nat,
                                             maxSummaryChars: int, slots: int)
    requires window >= 1 && maxSummaryChars >= 1
    ensures var p := PreparedFrom(pinning, wording, turns, window, maxSummaryChars, slots);
            && |p.turns| <= window + 2
            && p.keptRecent + p.summarizedMessages == p.totalMessages == |turns|
            && p.keptRecent == (if |turns| <= window then |turns| else window)
            && p.turns[|p.turns| - p.keptRecent..] == turns[|turns| - p.keptRecent..]
            && (p.summary.Some? <==> |turns| > window)
            && (p.summary.Some? ==> |p.summary.value| <= maxSummaryChars)
            && (p.pinnedFacts != [] && |PinnedText(p.pinnedFacts)| < maxSummaryChars ==>
                  p.summary.Some? && PinnedText(p.pinnedFacts) <= p.summary.value)
  {
    if |turns| > window {
      var older := turns[..|turns| - window];
      var facts := Latest(FactsOf(pinning, older), slots);
      FactsAreDistinctAndComplete(pinning, older);
      LatestAreFacts(FactsOf(pinning, older), slots);
      SummaryFitsIff(older, maxSummaryChars, facts);
      if facts != [] {
        PinnedFactsSurviveIff(older, maxSummaryChars, facts);
      }
    }
  }
}
