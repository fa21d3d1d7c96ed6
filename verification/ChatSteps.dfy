/** Chat steps: their JSON form on the wire and in message metadata, and the client's fold of step
    events into the step list it shows. */
module ChatSteps {
  import opened Options
  import opened Text

  /** The member names of the JSON objects read here; any other name is kept as text. */
  datatype Key =
    | KId | KStatus | KElapsedMs | KDetail | KUsage
    | KSlot | KProvider | KModel | KInputTokens | KOutputTokens | KTotalTokens | KEstimatedCostUsd | KCostSource
    | KOther(name: string)

  datatype Json =
    | JNull
    | JBool(b: bool)
    | JNum(n: real)
    | JStr(s: string)
    | JArr(items: seq<Json>)
    | JObj(fields: map<Key, Json>)

  datatype StepStatus = Start | Done | Error

  datatype Usage = Usage(
    slot: string, provider: string, model: string,
    inputTokens: Option<real>, outputTokens: Option<real>, totalTokens: Option<real>,
    estimatedCostUsd: Option<real>, costSource: Option<string>)

  datatype ChatStep = ChatStep(
    id: string, status: StepStatus, elapsedMs: Option<real>,
    detail: Option<map<Key, Json>>, usage: Option<Usage>)

  // -- The server's serializer --

  function StatusText(s: StepStatus): string
  {
    match s
    case Start => "start"
    case Done => "done"
    case Error => "error"
  }

  /** `if value is not None: payload[key] = value`. */
  function Put(payload: map<Key, Json>, key: Key, value: Option<Json>): (m: map<Key, Json>)
    ensures forall k :: k in m <==> k in payload || (k == key && value.Some?)
    ensures forall k :: k in m && k != key ==> m[k] == payload[k]
    ensures value.Some? ==> m[key] == value.value
  {
    if value.Some? then payload[key := value.value] else payload
  }

  function Num(v: Option<real>): Option<Json>
  {
    if v.Some? then Some(JNum(v.value)) else None
  }

  function SerializeUsage(u: Usage): map<Key, Json>
  {
    var p0 := map[KSlot := JStr(u.slot), KProvider := JStr(u.provider), KModel := JStr(u.model)];
    var p1 := Put(p0, KInputTokens, Num(u.inputTokens));
    var p2 := Put(p1, KOutputTokens, Num(u.outputTokens));
    var p3 := Put(p2, KTotalTokens, Num(u.totalTokens));
    var p4 := Put(p3, KEstimatedCostUsd, Num(u.estimatedCostUsd));
    Put(p4, KCostSource, if u.costSource.Some? then Some(JStr(u.costSource.value)) else None)
  }

  function SerializeStep(s: ChatStep): map<Key, Json>
  {
    var p0 := map[KId := JStr(s.id), KStatus := JStr(StatusText(s.status))];
    var p1 := Put(p0, KElapsedMs, Num(s.elapsedMs));
    var p2 := Put(p1, KDetail, if s.detail.Some? then Some(JObj(s.detail.value)) else None);
    Put(p2, KUsage, if s.usage.Some? then Some(JObj(SerializeUsage(s.usage.value))) else None)
  }

  // -- The client's parser --

  function ReadString(fields: map<Key, Json>, key: Key): Option<string>
  {
    if key in fields && fields[key].JStr? && !IsJsBlank(fields[key].s) then Some(fields[key].s) else None
  }

  function ReadNumber(fields: map<Key, Json>, key: Key): Option<real>
  {
    if key in fields && fields[key].JNum? && fields[key].n >= 0.0 then Some(fields[key].n) else None
  }

  function ReadStatus(fields: map<Key, Json>): Option<StepStatus>
  {
    if KStatus !in fields then None
    else match fields[KStatus]
    case JStr(s) =>
      if s == "start" then Some(Start)
      else if s == "done" then Some(Done)
      else if s == "error" then Some(Error)
      else None
    case _ => None
  }

  function ParseUsage(value: Json): Option<Usage>
  {
    match value
    case JObj(f) =>
      var slot, provider, model := ReadString(f, KSlot), ReadString(f, KProvider), ReadString(f, KModel);
      if slot.None? || provider.None? || model.None? then None
      else Some(Usage(slot.value, provider.value, model.value,
                      ReadNumber(f, KInputTokens), ReadNumber(f, KOutputTokens), ReadNumber(f, KTotalTokens),
                      ReadNumber(f, KEstimatedCostUsd), ReadString(f, KCostSource)))
    case _ => None
  }

  function ParseStep(value: Json): Option<ChatStep>
  {
    match value
    case JObj(f) =>
      var id, status := ReadString(f, KId), ReadStatus(f);
      if id.None? || status.None? then None
      else Some(ChatStep(id.value, status.value, ReadNumber(f, KElapsedMs),
                         if KDetail in f && f[KDetail].JObj? then Some(f[KDetail].fields) else None,
                         if KUsage in f then ParseUsage(f[KUsage]) else None))
    case _ => None
  }

  /** The steps of a message's metadata: malformed entries are dropped. */
  function ParseSteps(items: seq<Json>): seq<ChatStep>
  {
    if items == [] then []
    else
      var rest := ParseSteps(items[..|items| - 1]);
      var step := ParseStep(items[|items| - 1]);
      if step.Some? then rest + [step.value] else rest
  }

  predicate NonNegative(v: Option<real>)
  {
    v.Some? ==> v.value >= 0.0
  }

  predicate WellFormedUsage(u: Usage)
  {
    && !IsJsBlank(u.slot) && !IsJsBlank(u.provider) && !IsJsBlank(u.model)
    && NonNegative(u.inputTokens) && NonNegative(u.outputTokens) && NonNegative(u.totalTokens)
    && NonNegative(u.estimatedCostUsd)
    && (u.costSource.Some? ==> !IsJsBlank(u.costSource.value))
  }

  predicate WellFormed(s: ChatStep)
  {
    && !IsJsBlank(s.id)
    && NonNegative(s.elapsedMs)
    && (s.usage.Some? ==> WellFormedUsage(s.usage.value))
  }

  /** Reading a number that was put under its key. */
  ghost predicate HoldsNumber(f: map<Key, Json>, key: Key, v: Option<real>)
  {
    (key in f <==> v.Some?) && (v.Some? ==> f[key] == JNum(v.value))
  }

  lemma {:induction false} NumberReadBackIff(f: map<Key, Json>, key: Key, v: Option<real>)
    requires HoldsNumber(f, key, v)
    ensures ReadNumber(f, key) == v <==> NonNegative(v)
  {
  }

  ghost predicate HoldsString(f: map<Key, Json>, key: Key, v: Option<string>)
  {
    (key in f <==> v.Some?) && (v.Some? ==> f[key] == JStr(v.value))
  }

  lemma {:induction false} StringReadBackIff(f: map<Key, Json>, key: Key, v: Option<string>)
    requires HoldsString(f, key, v)
    ensures ReadString(f, key) == v <==> (v.Some? ==> !IsJsBlank(v.value))
    ensures v.Some? && IsJsBlank(v.value) ==> ReadString(f, key) == None
  {
  }

  lemma {:induction false} UsageNumbers(u: Usage)
    ensures var f := SerializeUsage(u);
            && HoldsNumber(f, KInputTokens, u.inputTokens) && HoldsNumber(f, KOutputTokens, u.outputTokens)
            && HoldsNumber(f, KTotalTokens, u.totalTokens) && HoldsNumber(f, KEstimatedCostUsd, u.estimatedCostUsd)
  {
  }

  lemma {:induction false} PutKeepsString(f: map<Key, Json>, key: Key, value: Option<Json>, other: Key,
                                          v: Option<string>)
    requires key != other && HoldsString(f, other, v)
    ensures HoldsString(Put(f, key, value), other, v)
  {
  }

  /** The texts that are put first are still there after everything else. */
  lemma {:induction false} UsageName(u: Usage, key: Key, v: string)
    requires key == KSlot || key == KProvider || key == KModel
    requires v == if key == KSlot then u.slot else if key == KProvider then u.provider else u.model
    ensures HoldsString(SerializeUsage(u), key, Some(v))
  {
    var p0 := map[KSlot := JStr(u.slot), KProvider := JStr(u.provider), KModel := JStr(u.model)];
    var p1 := Put(p0, KInputTokens, Num(u.inputTokens));
    var p2 := Put(p1, KOutputTokens, Num(u.outputTokens));
    var p3 := Put(p2, KTotalTokens, Num(u.totalTokens));
    PutKeepsString(p0, KInputTokens, Num(u.inputTokens), key, Some(v));
    PutKeepsString(p1, KOutputTokens, Num(u.outputTokens), key, Some(v));
    PutKeepsString(p2, KTotalTokens, Num(u.totalTokens), key, Some(v));
    PutKeepsString(p3, KEstimatedCostUsd, Num(u.estimatedCostUsd), key, Some(v));
  }

  lemma {:induction false} UsageSource(u: Usage)
    ensures HoldsString(SerializeUsage(u), KCostSource, u.costSource)
  {
  }

  lemma {:induction false} UsageReadBackIff(f: map<Key, Json>, u: Usage)
    requires HoldsNumber(f, KInputTokens, u.inputTokens) && HoldsNumber(f, KOutputTokens, u.outputTokens)
    requires HoldsNumber(f, KTotalTokens, u.totalTokens) && HoldsNumber(f, KEstimatedCostUsd, u.estimatedCostUsd)
    requires HoldsString(f, KSlot, Some(u.slot)) && HoldsString(f, KProvider, Some(u.provider))
    requires HoldsString(f, KModel, Some(u.model)) && HoldsString(f, KCostSource, u.costSource)
    ensures ParseUsage(JObj(f)) == Some(u) <==> WellFormedUsage(u)
  {
    NumberReadBackIff(f, KInputTokens, u.inputTokens);
    NumberReadBackIff(f, KOutputTokens, u.outputTokens);
    NumberReadBackIff(f, KTotalTokens, u.totalTokens);
    NumberReadBackIff(f, KEstimatedCostUsd, u.estimatedCostUsd);
    StringReadBackIff(f, KSlot, Some(u.slot));
    StringReadBackIff(f, KProvider, Some(u.provider));
    StringReadBackIff(f, KModel, Some(u.model));
    StringReadBackIff(f, KCostSource, u.costSource);
  }

  lemma {:induction false} UsageRoundTripIff(u: Usage)
    ensures ParseUsage(JObj(SerializeUsage(u))) == Some(u) <==> WellFormedUsage(u)
  {
    UsageNumbers(u);
    UsageName(u, KSlot, u.slot);
    UsageName(u, KProvider, u.provider);
    UsageName(u, KModel, u.model);
    UsageSource(u);
    UsageReadBackIff(SerializeUsage(u), u);
  }

  lemma {:induction false} StepScalars(s: ChatStep)
    ensures var f := SerializeStep(s);
            && HoldsString(f, KId, Some(s.id)) && HoldsNumber(f, KElapsedMs, s.elapsedMs)
            && KStatus in f && f[KStatus] == JStr(StatusText(s.status))
  {
  }

  lemma {:induction false} StepRecords(s: ChatStep)
    ensures var f := SerializeStep(s);
            && (KDetail in f <==> s.detail.Some?) && (s.detail.Some? ==> f[KDetail] == JObj(s.detail.value))
            && (KUsage in f <==> s.usage.Some?) && (s.usage.Some? ==> f[KUsage] == JObj(SerializeUsage(s.usage.value)))
  {
  }

  /** How a status is written. */
  lemma {:induction false} StatusIsWritten(s: ChatStep)
    ensures var f := SerializeStep(s);
            KStatus in f && f[KStatus] == JStr(if s.status == Start then "start"
                                               else if s.status == Done then "done" else "error")
  {
    StepScalars(s);
  }

  lemma {:induction false} StatusReadBack(f: map<Key, Json>, status: StepStatus)
    requires KStatus in f && f[KStatus] == JStr(StatusText(status))
    ensures ReadStatus(f) == Some(status)
  {
    assert |"start"| == |"error"| == 5 && "start"[0] != "error"[0] && |"done"| == 4;
  }

  lemma {:induction false} ScalarsReadBackIff(f: map<Key, Json>, s: ChatStep)
    requires HoldsString(f, KId, Some(s.id)) && HoldsNumber(f, KElapsedMs, s.elapsedMs)
    ensures ReadString(f, KId) == Some(s.id) <==> !IsJsBlank(s.id)
    ensures ReadString(f, KId).Some? ==> ReadString(f, KId) == Some(s.id)
    ensures ReadNumber(f, KElapsedMs) == s.elapsedMs <==> NonNegative(s.elapsedMs)
  {
    StringReadBackIff(f, KId, Some(s.id));
    NumberReadBackIff(f, KElapsedMs, s.elapsedMs);
  }

  lemma {:induction false} UsageOfStepIff(f: map<Key, Json>, s: ChatStep)
    requires KUsage in f <==> s.usage.Some?
    requires s.usage.Some? ==> f[KUsage] == JObj(SerializeUsage(s.usage.value))
    ensures (if KUsage in f then ParseUsage(f[KUsage]) else None) == s.usage
            <==> (s.usage.Some? ==> WellFormedUsage(s.usage.value))
  {
    if s.usage.Some? {
      UsageRoundTripIff(s.usage.value);
    }
  }

  /** The exact round trip of a step: it is read back as it was written if and only if its texts are
      not blank and its numbers are not negative. */
  lemma {:induction false} StepRoundTripIff(s: ChatStep)
    ensures ParseStep(JObj(SerializeStep(s))) == Some(s) <==> WellFormed(s)
  {
    var f := SerializeStep(s);
    StepScalars(s);
    StepRecords(s);
    StatusReadBack(f, s.status);
    ScalarsReadBackIff(f, s);
    UsageOfStepIff(f, s);
  }

  /** The `steps` list of a message's metadata. */
  function Serialized(steps: seq<ChatStep>): seq<Json>
  {
    if steps == [] then []
    else Serialized(steps[..|steps| - 1]) + [JObj(SerializeStep(steps[|steps| - 1]))]
  }

  predicate AllWellFormed(steps: seq<ChatStep>)
  {
    forall k {:trigger WellFormed(steps[k])} :: 0 <= k < |steps| ==> WellFormed(steps[k])
  }

  lemma {:induction false} ParsedSnoc(items: seq<Json>, item: Json)
    ensures ParseSteps(items + [item])
            == if ParseStep(item).Some? then ParseSteps(items) + [ParseStep(item).value] else ParseSteps(items)
  {
    assert (items + [item])[..|items|] == items;
  }

  /** A list of steps is read back from the metadata as it was written if and only if every step of
      it is; one malformed step shortens the list or changes it. */
  lemma {:induction false} StepsRoundTripIff(steps: seq<ChatStep>)
    ensures ParseSteps(Serialized(steps)) == steps <==> AllWellFormed(steps)
    ensures |ParseSteps(Serialized(steps))| <= |steps|
  {
    if steps != [] {
      var n := |steps| - 1;
      var before, last := steps[..n], steps[n];
      var item := JObj(SerializeStep(last));
      assert steps == before + [last];
      StepsRoundTripIff(before);
      assert ParseStep(item) == Some(last) <==> WellFormed(last) by {
        StepRoundTripIff(last);
      }
      ReadDecides(Serialized(before), item, before, last);
    }
  }

  lemma {:induction false} ReadDecides(items: seq<Json>, item: Json, before: seq<ChatStep>, last: ChatStep)
    requires ParseSteps(items) == before <==> AllWellFormed(before)
    requires |ParseSteps(items)| <= |before|
    requires ParseStep(item) == Some(last) <==> WellFormed(last)
    ensures ParseSteps(items + [item]) == before + [last] <==> AllWellFormed(before + [last])
    ensures |ParseSteps(items + [item])| <= |before| + 1
  {
    ParsedSnoc(items, item);
    LastDecides(ParseSteps(items), ParseStep(item), before, last);
    AllSplits(before, last);
  }

  lemma {:induction false} AllSplits(before: seq<ChatStep>, last: ChatStep)
    ensures AllWellFormed(before + [last]) <==> AllWellFormed(before) && WellFormed(last)
  {
    var all := before + [last];
    if AllWellFormed(all) {
      forall k | 0 <= k < |before|
        ensures WellFormed(before[k])
      {
        assert WellFormed(all[k]);
      }
      assert WellFormed(all[|before|]);
    }
  }

  lemma {:induction false} LastDecides(read: seq<ChatStep>, parsed: Option<ChatStep>, before: seq<ChatStep>,
                                       last: ChatStep)
    requires |read| <= |before|
    ensures (if parsed.Some? then read + [parsed.value] else read) == before + [last]
            <==> read == before && parsed == Some(last)
  {
    if parsed.Some? && read + [parsed.value] == before + [last] {
      assert |read| == |before|;
      assert (read + [parsed.value])[..|read|] == read && (before + [last])[..|before|] == before;
      assert (read + [parsed.value])[|read|] == parsed.value && (before + [last])[|before|] == last;
    }
  }

  // -- The fold --

  /** The last open start of `id`, or -1. */
  function LastStart(steps: seq<ChatStep>, id: string): (k: int)
    ensures -1 <= k < |steps|
    ensures k >= 0 ==> steps[k].id == id && steps[k].status == Start
    ensures forall j :: k < j < |steps| ==> !(steps[j].id == id && steps[j].status == Start)
  {
    if steps == [] then -1
    else
      var n := |steps| - 1;
      if steps[n].id == id && steps[n].status == Start then n else LastStart(steps[..n], id)
  }

  /** `{ ...a, ...b }` for the fields that the event carries. */
  function Merge(a: ChatStep, b: ChatStep): ChatStep
  {
    ChatStep(b.id, b.status,
             if b.elapsedMs.Some? then b.elapsedMs else a.elapsedMs,
             if b.detail.Some? then b.detail else a.detail,
             if b.usage.Some? then b.usage else a.usage)
  }

  function Apply(steps: seq<ChatStep>, event: ChatStep): seq<ChatStep>
  {
    var k := LastStart(steps, event.id);
    if event.status == Start || k < 0 then steps + [event]
    else steps[k := Merge(steps[k], event)]
  }

  method FindLastMatchingStart(steps: seq<ChatStep>, id: string) returns (index: int)
    ensures index == LastStart(steps, id)
  {
    index := |steps| - 1;
    while index >= 0
      invariant -1 <= index < |steps|
      invariant forall j :: index < j < |steps| ==> !(steps[j].id == id && steps[j].status == Start)
    {
      if steps[index].id == id && steps[index].status == Start {
        return;
      }
      index := index - 1;
    }
  }

  method ApplyChatStepEvent(steps: seq<ChatStep>, event: ChatStep) returns (nextSteps: seq<ChatStep>)
    ensures nextSteps == Apply(steps, event)
  {
    if event.status == Start {
      return steps + [event];
    }
    nextSteps := steps;
    var activeIndex := FindLastMatchingStart(nextSteps, event.id);
    if activeIndex == -1 {
      return nextSteps + [event];
    }
    nextSteps := nextSteps[activeIndex := Merge(nextSteps[activeIndex], event)];
  }

  /** A start, and an end without an open start of its id, is shown behind the others. An end with one takes
      the place of the last such start: it shows its own status and every field that it carries, and
      those of the start that it does not carry; the other steps stay as they are. */
  lemma {:induction false} EventIsShown(steps: seq<ChatStep>, e: ChatStep)
    ensures var k, shown := LastStart(steps, e.id), Apply(steps, e);
            if e.status == Start || k < 0 then shown == steps + [e]
            else
              && |shown| == |steps| && (forall j :: 0 <= j < |steps| && j != k ==> shown[j] == steps[j])
              && shown[k].id == e.id && shown[k].status == e.status
              && (shown[k].elapsedMs == if e.elapsedMs.Some? then e.elapsedMs else steps[k].elapsedMs)
              && (shown[k].detail == if e.detail.Some? then e.detail else steps[k].detail)
              && (shown[k].usage == if e.usage.Some? then e.usage else steps[k].usage)
  {
  }

  /** Applies the events in order, starting from `base`. */
  function Fold(base: seq<ChatStep>, events: seq<ChatStep>): seq<ChatStep>
    decreases |events|
  {
    if events == [] then base
    else Apply(Fold(base, events[..|events| - 1]), events[|events| - 1])
  }

  lemma {:induction false} FoldSnoc(base: seq<ChatStep>, events: seq<ChatStep>, e: ChatStep)
    ensures Fold(base, events + [e]) == Apply(Fold(base, events), e)
  {
    assert (events + [e])[..|events|] == events;
  }

  lemma {:induction false} FoldAppend(base: seq<ChatStep>, a: seq<ChatStep>, b: seq<ChatStep>)
    ensures Fold(base, a + b) == Fold(Fold(base, a), b)
    decreases |b|
  {
    if b == [] {
      assert a + b == a;
    } else {
      var n := |b| - 1;
      assert (a + b)[..|a| + n] == a + b[..n];
      FoldAppend(base, a, b[..n]);
    }
  }

  // -- Open starts, for any list of events --

  function OpenCount(steps: seq<ChatStep>, id: string): nat
  {
    if steps == [] then 0
    else
      var n := |steps| - 1;
      OpenCount(steps[..n], id) + if steps[n].id == id && steps[n].status == Start then 1 else 0
  }

  /** The starts of `id` that later ends have not closed; an end without an open start closes none. */
  function Pending(events: seq<ChatStep>, id: string): nat
  {
    if events == [] then 0
    else
      var n := |events| - 1;
      var before := Pending(events[..n], id);
      if events[n].id != id then before
      else if events[n].status == Start then before + 1
      else if before > 0 then before - 1
      else 0
  }

  lemma {:induction false} PendingSnoc(events: seq<ChatStep>, e: ChatStep, id: string)
    ensures Pending(events + [e], id)
            == if e.id != id then Pending(events, id)
               else if e.status == Start then Pending(events, id) + 1
               else if Pending(events, id) > 0 then Pending(events, id) - 1
               else 0
  {
    assert (events + [e])[..|events|] == events;
  }

  /** Events behind a list without a pending start of `id` count as if they came first. */
  lemma {:induction false} PendingAppend(a: seq<ChatStep>, b: seq<ChatStep>, id: string)
    requires Pending(a, id) == 0
    ensures Pending(a + b, id) == Pending(b, id)
    decreases |b|
  {
    if b == [] {
      assert a + b == a;
    } else {
      var front, last := b[..|b| - 1], b[|b| - 1];
      assert b == front + [last] && a + b == (a + front) + [last];
      PendingAppend(a, front, id);
      PendingSnoc(front, last, id);
      PendingSnoc(a + front, last, id);
    }
  }

  lemma {:induction false} PendingOfOthers(a: seq<ChatStep>, b: seq<ChatStep>, id: string)
    requires forall k :: 0 <= k < |b| ==> b[k].id != id
    ensures Pending(a + b, id) == Pending(a, id)
    decreases |b|
  {
    if b == [] {
      assert a + b == a;
    } else {
      var front, last := b[..|b| - 1], b[|b| - 1];
      assert a + b == (a + front) + [last];
      PendingOfOthers(a, front, id);
      PendingSnoc(a + front, last, id);
    }
  }

  lemma {:induction false} OpenCountSnoc(steps: seq<ChatStep>, s: ChatStep, id: string)
    ensures OpenCount(steps + [s], id) == OpenCount(steps, id) + if s.id == id && s.status == Start then 1 else 0
  {
    assert (steps + [s])[..|steps|] == steps;
  }

  lemma {:induction false} ReplaceBeforeLast(front: seq<ChatStep>, last: ChatStep, k: nat, s: ChatStep)
    requires k < |front|
    ensures (front + [last])[k := s] == front[k := s] + [last]
  {
  }

  lemma {:induction false} OpenCountClosed(steps: seq<ChatStep>, k: nat, s: ChatStep, id: string)
    requires k < |steps| && steps[k].status == Start && s.status != Start && s.id == steps[k].id
    ensures OpenCount(steps, id) > 0 || steps[k].id != id
    ensures OpenCount(steps[k := s], id) == OpenCount(steps, id) - if steps[k].id == id then 1 else 0
    decreases |steps|
  {
    var front, last := steps[..|steps| - 1], steps[|steps| - 1];
    assert steps == front + [last];
    OpenCountSnoc(front, last, id);
    if k == |front| {
      assert steps[k := s] == front + [s];
      OpenCountSnoc(front, s, id);
    } else {
      OpenCountClosed(front, k, s, id);
      ReplaceBeforeLast(front, last, k, s);
      OpenCountSnoc(front[k := s], last, id);
    }
  }

  lemma {:induction false} NoOpenStart(steps: seq<ChatStep>, id: string)
    ensures OpenCount(steps, id) == 0 <==> LastStart(steps, id) < 0
  {
    if steps != [] {
      NoOpenStart(steps[..|steps| - 1], id);
    }
  }

  /** The open starts that the fold shows are the pending ones, for every list of events and every
      id; so nothing is left running exactly when every start has been closed. */
  lemma {:induction false} FoldShowsPending(events: seq<ChatStep>, id: string)
    ensures OpenCount(Fold([], events), id) == Pending(events, id)
    ensures LastStart(Fold([], events), id) < 0 <==> Pending(events, id) == 0
    decreases |events|
  {
    if events != [] {
      var n := |events| - 1;
      var steps, e := Fold([], events[..n]), events[n];
      FoldShowsPending(events[..n], id);
      NoOpenStart(steps, e.id);
      var k := LastStart(steps, e.id);
      if e.status == Start || k < 0 {
        OpenCountSnoc(steps, e, id);
      } else {
        OpenCountClosed(steps, k, Merge(steps[k], e), id);
      }
    }
    NoOpenStart(Fold([], events), id);
  }

  // -- Ends, for any list of events --

  /** What the server keeps in the message metadata: every step that is not a start. */
  function NonStarts(steps: seq<ChatStep>): seq<ChatStep>
  {
    if steps == [] then []
    else
      var rest := NonStarts(steps[..|steps| - 1]);
      if steps[|steps| - 1].status == Start then rest else rest + [steps[|steps| - 1]]
  }

  lemma {:induction false} NonStartsSnoc(steps: seq<ChatStep>, s: ChatStep)
    ensures NonStarts(steps + [s]) == if s.status == Start then NonStarts(steps) else NonStarts(steps) + [s]
  {
    assert (steps + [s])[..|steps|] == steps;
  }

  /** The end carries every field that the start carries, so it replaces the start as it is. */
  predicate Carries(start: ChatStep, end: ChatStep)
  {
    && (start.elapsedMs.Some? ==> end.elapsedMs.Some?)
    && (start.detail.Some? ==> end.detail.Some?)
    && (start.usage.Some? ==> end.usage.Some?)
  }

  /** Every end carries what the earlier starts of its id carry. */
  predicate EndsCarryStarts(events: seq<ChatStep>)
  {
    forall i, j :: 0 <= i < j < |events| && events[i].id == events[j].id
                   && events[i].status == Start && events[j].status != Start
                   ==> Carries(events[i], events[j])
  }

  lemma {:induction false} EndsOfReplaced(steps: seq<ChatStep>, k: nat, s: ChatStep)
    requires k < |steps| && steps[k].status == Start && s.status != Start
    ensures multiset(NonStarts(steps[k := s])) == multiset(NonStarts(steps)) + multiset{s}
    decreases |steps|
  {
    var front, last := steps[..|steps| - 1], steps[|steps| - 1];
    assert steps == front + [last];
    NonStartsSnoc(front, last);
    if k == |front| {
      assert steps[k := s] == front + [s];
      NonStartsSnoc(front, s);
    } else {
      EndsOfReplaced(front, k, s);
      ReplaceBeforeLast(front, last, k, s);
      NonStartsSnoc(front[k := s], last);
    }
  }

  /** Every start in `shown` is one of `events`. */
  predicate StartsAmong(shown: seq<ChatStep>, events: seq<ChatStep>)
  {
    forall k :: 0 <= k < |shown| && shown[k].status == Start ==> shown[k] in events
  }

  /** One event: an end is added to the ends that are shown, whether or not it replaces a start. */
  lemma {:induction false} ApplyKeepsEnds(steps: seq<ChatStep>, e: ChatStep)
    requires forall k :: 0 <= k < |steps| && steps[k].id == e.id && steps[k].status == Start && e.status != Start
                         ==> Carries(steps[k], e)
    ensures multiset(NonStarts(Apply(steps, e)))
            == multiset(NonStarts(steps)) + if e.status == Start then multiset{} else multiset{e}
    ensures StartsAmong(Apply(steps, e), steps + [e])
  {
    var k := LastStart(steps, e.id);
    if e.status == Start || k < 0 {
      NonStartsSnoc(steps, e);
    } else {
      assert Merge(steps[k], e) == e;
      EndsOfReplaced(steps, k, e);
    }
  }

  lemma {:induction false} CarriesShown(steps: seq<ChatStep>, before: seq<ChatStep>, e: ChatStep, k: nat)
    requires EndsCarryStarts(before + [e]) && StartsAmong(steps, before)
    requires k < |steps| && steps[k].id == e.id && steps[k].status == Start && e.status != Start
    ensures Carries(steps[k], e)
  {
    var events := before + [e];
    var i :| 0 <= i < |before| && before[i] == steps[k];
    assert events[i] == steps[k] && events[|before|] == e;
  }

  lemma {:induction false} FoldKeepsEndsSnoc(steps: seq<ChatStep>, before: seq<ChatStep>, e: ChatStep)
    requires EndsCarryStarts(before + [e]) && StartsAmong(steps, before)
    requires multiset(NonStarts(steps)) == multiset(NonStarts(before))
    ensures multiset(NonStarts(Apply(steps, e))) == multiset(NonStarts(before + [e]))
    ensures StartsAmong(Apply(steps, e), before + [e])
  {
    forall k | 0 <= k < |steps| && steps[k].id == e.id && steps[k].status == Start && e.status != Start
      ensures Carries(steps[k], e)
    {
      CarriesShown(steps, before, e, k);
    }
    ApplyKeepsEnds(steps, e);
    NonStartsSnoc(before, e);
    StartsAmongSnoc(Apply(steps, e), steps, before, e);
  }

  lemma {:induction false} StartsAmongSnoc(shown: seq<ChatStep>, steps: seq<ChatStep>, before: seq<ChatStep>,
                                           e: ChatStep)
    requires StartsAmong(shown, steps + [e]) && StartsAmong(steps, before)
    ensures StartsAmong(shown, before + [e])
  {
    forall k | 0 <= k < |shown| && shown[k].status == Start
      ensures shown[k] in before + [e]
    {
      if shown[k] != e {
        assert shown[k] in steps;
        var i :| 0 <= i < |steps| && steps[i] == shown[k];
      }
    }
  }

  /** The ends that the fold shows are the ends that were sent, for every list of events in which ends
      carry what starts carry, open starts included. */
  lemma {:induction false} FoldKeepsEnds(events: seq<ChatStep>)
    requires EndsCarryStarts(events)
    ensures multiset(NonStarts(Fold([], events))) == multiset(NonStarts(events))
    ensures StartsAmong(Fold([], events), events)
    decreases |events|
  {
    if events != [] {
      var before, e := events[..|events| - 1], events[|events| - 1];
      assert before + [e] == events;
      FoldKeepsEnds(before);
      var shown := Fold([], before);
      FoldSnoc([], before, e);
      FoldKeepsEndsSnoc(shown, before, e);
    }
  }

  ghost predicate NoneOpen(steps: seq<ChatStep>)
  {
    forall k :: 0 <= k < |steps| ==> steps[k].status != Start
  }

  ghost predicate NonePending(events: seq<ChatStep>)
  {
    forall id :: Pending(events, id) == 0
  }

  lemma {:induction false} NoLastStart(steps: seq<ChatStep>, id: string)
    requires NoneOpen(steps)
    ensures LastStart(steps, id) < 0
  {
  }

  /** No start is left in what is shown if and only if no id has a pending one. */
  lemma {:induction false} NothingRunsIff(events: seq<ChatStep>, shown: seq<ChatStep>)
    requires shown == Fold([], events)
    ensures NoneOpen(shown) <==> NonePending(events)
  {
    if NonePending(events) {
      forall k | 0 <= k < |shown|
        ensures shown[k].status != Start
      {
        FoldShowsPending(events, shown[k].id);
        assert Pending(events, shown[k].id) == 0;
      }
    }
    if NoneOpen(shown) {
      forall id
        ensures Pending(events, id) == 0
      {
        FoldShowsPending(events, id);
        NoLastStart(shown, id);
      }
    }
  }

  // -- Runs of retrieval calls --

  /** One call of the retrieval tool in the step log: a start and the step that closes it. */
  datatype Call = Call(start: ChatStep, close: ChatStep)

  predicate Closes(c: Call)
  {
    c.start.id == c.close.id && c.start.status == Start && c.close.status != Start && Carries(c.start, c.close)
  }

  predicate AreCalls(calls: seq<Call>, id: string)
  {
    forall k :: 0 <= k < |calls| ==> Closes(calls[k]) && calls[k].start.id == id
  }

  function LogOf(calls: seq<Call>): seq<ChatStep>
  {
    if calls == [] then []
    else LogOf(calls[..|calls| - 1]) + [calls[|calls| - 1].start, calls[|calls| - 1].close]
  }

  function ClosingSteps(calls: seq<Call>): seq<ChatStep>
  {
    if calls == [] then []
    else ClosingSteps(calls[..|calls| - 1]) + [calls[|calls| - 1].close]
  }

  lemma {:induction false} NonStartsAppend(a: seq<ChatStep>, b: seq<ChatStep>)
    ensures NonStarts(a + b) == NonStarts(a) + NonStarts(b)
    decreases |b|
  {
    if b == [] {
      assert a + b == a;
    } else {
      var n := |b| - 1;
      assert (a + b)[..|a| + n] == a + b[..n];
      NonStartsAppend(a, b[..n]);
    }
  }

  lemma {:induction false} NonStartsOfLog(calls: seq<Call>, id: string)
    requires AreCalls(calls, id)
    ensures NonStarts(LogOf(calls)) == ClosingSteps(calls)
  {
    if calls != [] {
      var n := |calls| - 1;
      var c, log := calls[n], LogOf(calls[..n]);
      NonStartsOfLog(calls[..n], id);
      NonStartsSnoc(log, c.start);
      NonStartsSnoc(log + [c.start], c.close);
      assert LogOf(calls) == log + [c.start] + [c.close];
    }
  }

  lemma {:induction false} LastStartOfPushed(base: seq<ChatStep>, s: ChatStep)
    requires s.status == Start
    ensures LastStart(base + [s], s.id) == |base|
  {
  }

  /** A call adds exactly its closing step to what the client shows. */
  lemma {:induction false} FoldCall(base: seq<ChatStep>, c: Call)
    requires Closes(c)
    ensures Apply(Apply(base, c.start), c.close) == base + [c.close]
  {
    LastStartOfPushed(base, c.start);
    assert Merge(c.start, c.close) == c.close;
  }

  lemma {:induction false} FoldCalls(base: seq<ChatStep>, calls: seq<Call>, id: string)
    requires AreCalls(calls, id)
    ensures Fold(base, LogOf(calls)) == base + ClosingSteps(calls)
  {
    if calls == [] {
      assert base + [] == base;
    } else {
      var n := |calls| - 1;
      var c, log := calls[n], LogOf(calls[..n]);
      var before := base + ClosingSteps(calls[..n]);
      assert Fold(base, log) == before by {
        FoldCalls(base, calls[..n], id);
      }
      assert Fold(base, log + [c.start] + [c.close]) == before + [c.close] by {
        FoldSnoc(base, log, c.start);
        FoldSnoc(base, log + [c.start], c.close);
        FoldCall(before, c);
      }
      assert LogOf(calls) == log + [c.start] + [c.close];
      assert base + ClosingSteps(calls) == before + [c.close];
    }
  }
}
