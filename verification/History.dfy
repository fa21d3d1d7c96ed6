/** Rolling chat history: recent turns verbatim, older ones condensed into one summary. */
module History {
  import opened Collapse
  import opened Options
  import opened Text

  // -- Turns --

  datatype Role = User | Assistant

  datatype Turn = Turn(role: Role, content: string)

  /** A stored message before normalisation: any role name, any text. */
  datatype RawTurn = RawTurn(role: string, content: string)

  function ReadRole(name: string): Option<Role>
  {
    var role := Strip(name);
    if role == "user" then Some(User) else if role == "assistant" then Some(Assistant) else None
  }

  function NormalizeOne(raw: RawTurn): Option<Turn>
  {
    var role, content := ReadRole(raw.role), Strip(raw.content);
    if role.None? || content == "" then None else Some(Turn(role.value, content))
  }

  function Normalized(raw: seq<RawTurn>): seq<Turn>
  {
    if raw == [] then []
    else
      var before, turn := Normalized(raw[..|raw| - 1]), NormalizeOne(raw[|raw| - 1]);
      if turn.Some? then before + [turn.value] else before
  }

  method NormalizeTurns(raw: seq<RawTurn>) returns (turns: seq<Turn>)
    ensures turns == Normalized(raw)
  {
    turns := [];
    for n := 0 to |raw|
      invariant turns == Normalized(raw[..n])
    {
      assert raw[..n + 1][..n] == raw[..n];
      var role := Strip(raw[n].role);
      var content := Strip(raw[n].content);
      if (role != "user" && role != "assistant") || content == "" {
        continue;
      }
      turns := turns + [Turn(if role == "user" then User else Assistant, content)];
    }
    assert raw[..|raw|] == raw;
  }

  /** Turns after normalisation have something to say. */
  predicate Substantive(turns: seq<Turn>)
  {
    forall k :: 0 <= k < |turns| ==> !AllSpace(turns[k].content)
  }

  lemma {:induction false} StripKeepsVisible(s: string)
    requires Strip(s) != ""
    ensures !AllSpace(Strip(s))
  {
    RStripIsPrefix(LStrip(s));
    var t := Strip(s);
    assert !IsSpace(t[|t| - 1]);
  }

  lemma {:induction false} NormalizedIsSubstantive(raw: seq<RawTurn>)
    ensures Substantive(Normalized(raw)) && |Normalized(raw)| <= |raw|
  {
    if raw != [] {
      NormalizedIsSubstantive(raw[..|raw| - 1]);
      var last := raw[|raw| - 1];
      if NormalizeOne(last).Some? {
        StripKeepsVisible(last.content);
      }
    }
  }

  // -- Clipping --

  const ELLIPSIS: char := '\U{2026}'

  function Clip(text: string, max: nat): (r: string)
    requires 0 < max
  {
    var collapsed := Compact(text);
    if |collapsed| <= max then collapsed else RStrip(collapsed[..max - 1]) + [ELLIPSIS]
  }

  /** A clipped text keeps the limit and ends in a visible character, and only blank text clips to
      nothing. */
  lemma {:induction false} ClipFits(text: string, max: nat)
    requires 0 < max
    ensures |Clip(text, max)| <= max
    ensures Clip(text, max) == "" <==> AllSpace(text)
    ensures Clip(text, max) != "" ==> !IsSpace(Clip(text, max)[|Clip(text, max)| - 1])
  {
    CompactIsTrimmed(text);
    StripIsEmpty(text);
    var collapsed := Compact(text);
    if |collapsed| > max {
      RStripIsPrefix(collapsed[..max - 1]);
    }
  }

  // -- Pinned facts --

  /** What is taken from outside: which collapsed texts match a pin pattern, and lower-casing. */
  datatype Pinning = Pinning(matches: string -> bool, lower: string -> string)

  predicate IsPinnable(pinning: Pinning, text: string)
  {
    var collapsed := Compact(text);
    8 <= |collapsed| <= 280 && pinning.matches(collapsed)
  }

  predicate Pins(pinning: Pinning, turn: Turn)
  {
    turn.role == User && IsPinnable(pinning, turn.content)
  }

  /** The keys of the pinnable turns. */
  function KeysOf(pinning: Pinning, turns: seq<Turn>): set<string>
  {
    set k | 0 <= k < |turns| && Pins(pinning, turns[k]) :: pinning.lower(Clip(turns[k].content, 200))
  }

  /** The facts of the turns in order, each under the wording in which it first appears. */
  function FactsOf(pinning: Pinning, turns: seq<Turn>): seq<string>
  {
    if turns == [] then []
    else
      var before, turn := turns[..|turns| - 1], turns[|turns| - 1];
      var facts := FactsOf(pinning, before);
      var line := Clip(turn.content, 200);
      if Pins(pinning, turn) && pinning.lower(line) !in KeysOf(pinning, before) then facts + [line] else facts
  }

  /** `facts[-limit:]` when there are more than `limit`; a limit of zero keeps every fact. */
  function Latest(facts: seq<string>, limit: int): seq<string>
  {
    if |facts| <= limit then facts
    else if limit > 0 then facts[|facts| - limit..]
    else if -limit <= |facts| then facts[-limit..]
    else []
  }

  lemma {:induction false} KeysSnoc(pinning: Pinning, before: seq<Turn>, turn: Turn)
    ensures KeysOf(pinning, before + [turn])
            == KeysOf(pinning, before) + if Pins(pinning, turn) then {pinning.lower(Clip(turn.content, 200))} else {}
  {
    var turns := before + [turn];
    forall key | key in KeysOf(pinning, before)
      ensures key in KeysOf(pinning, turns)
    {
      var k :| 0 <= k < |before| && Pins(pinning, before[k]) && key == pinning.lower(Clip(before[k].content, 200));
      assert turns[k] == before[k];
    }
    if Pins(pinning, turn) {
      assert turns[|before|] == turn;
    }
  }

  method ExtractPinnedFacts(pinning: Pinning, turns: seq<Turn>, limit: int) returns (facts: seq<string>)
    ensures facts == Latest(FactsOf(pinning, turns), limit)
  {
    facts := [];
    var seen: set<string> := {};
    for n := 0 to |turns|
      invariant facts == FactsOf(pinning, turns[..n])
      invariant seen == KeysOf(pinning, turns[..n])
    {
      var turn := turns[n];
      KeysSnoc(pinning, turns[..n], turn);
      assert turns[..n + 1] == turns[..n] + [turn] && turns[..n + 1][..n] == turns[..n];
      if turn.role != User {
        continue;
      }
      if !IsPinnable(pinning, turn.content) {
        continue;
      }
      var line := Clip(turn.content, 200);
      var key := pinning.lower(line);
      if key in seen {
        continue;
      }
      seen := seen + {key};
      facts := facts + [line];
    }
    assert turns[..|turns|] == turns;
    if |facts| > limit {
      facts := Latest(facts, limit);
    }
  }

  /** Facts as the summary receives them: short, not empty, ending in a visible character. */
  predicate AreFacts(facts: seq<string>)
  {
    forall k {:trigger IsFact(facts[k])} :: 0 <= k < |facts| ==> IsFact(facts[k])
  }

  predicate IsFact(fact: string)
  {
    0 < |fact| <= 200 && !IsSpace(fact[|fact| - 1])
  }

  function FactKeys(pinning: Pinning, facts: seq<string>): set<string>
  {
    set k | 0 <= k < |facts| :: pinning.lower(facts[k])
  }

  predicate DistinctKeys(pinning: Pinning, facts: seq<string>)
  {
    forall i, j :: 0 <= i < j < |facts| ==> pinning.lower(facts[i]) != pinning.lower(facts[j])
  }

  lemma {:induction false} FactAdded(pinning: Pinning, facts: seq<string>, line: string)
    ensures FactKeys(pinning, facts + [line]) == FactKeys(pinning, facts) + {pinning.lower(line)}
    ensures DistinctKeys(pinning, facts) && pinning.lower(line) !in FactKeys(pinning, facts) ==>
              DistinctKeys(pinning, facts + [line])
  {
    var all := facts + [line];
    forall i | 0 <= i < |facts|
      ensures pinning.lower(facts[i]) in FactKeys(pinning, all)
    {
      assert all[i] == facts[i];
    }
    assert all[|facts|] == line;
  }

  lemma {:induction false} ClippedIsFact(pinning: Pinning, text: string)
    requires IsPinnable(pinning, text)
    ensures IsFact(Clip(text, 200))
  {
    ClipFits(text, 200);
    CompactIsTrimmed(text);
    StripIsEmpty(text);
  }

  /** No two facts have the same key, and every pinnable user turn is among them under its key. */
  lemma {:induction false} FactsAreDistinctAndComplete(pinning: Pinning, turns: seq<Turn>)
    ensures AreFacts(FactsOf(pinning, turns))
    ensures DistinctKeys(pinning, FactsOf(pinning, turns))
    ensures FactKeys(pinning, FactsOf(pinning, turns)) == KeysOf(pinning, turns)
  {
    if turns != [] {
      var before, turn := turns[..|turns| - 1], turns[|turns| - 1];
      assert turns == before + [turn];
      FactsAreDistinctAndComplete(pinning, before);
      KeysSnoc(pinning, before, turn);
      if Pins(pinning, turn) {
        ClippedIsFact(pinning, turn.content);
        FactAdded(pinning, FactsOf(pinning, before), Clip(turn.content, 200));
      }
    }
  }
}
