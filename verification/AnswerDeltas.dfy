/** The emission loop of the streaming client, and what its pieces add up to. */
module AnswerDeltas {
  import opened Options
  import opened PartialAnswer
  import opened Text

  datatype Emission = Emission(content: string, emitted: string, out: string)

  /** One content delta: the answer read so far is emitted as far as it is longer than before. */
  function Emit(e: Emission, delta: string): Emission
  {
    if delta == "" then e
    else
      var content := e.content + delta;
      var partial := Extract(content);
      if partial.Some? && |partial.value| > |e.emitted|
      then Emission(content, partial.value, e.out + partial.value[|e.emitted|..])
      else e.(content := content)
  }

  /** The loop after the first n deltas. */
  function EmitAll(deltas: seq<string>, n: nat): Emission
    requires n <= |deltas|
  {
    if n == 0 then Emission("", "", "") else Emit(EmitAll(deltas, n - 1), deltas[n - 1])
  }

  method EmitAnswerDeltas(deltas: seq<string>) returns (content: string, pieces: seq<string>)
    ensures content == EmitAll(deltas, |deltas|).content
    ensures Concat(pieces) == EmitAll(deltas, |deltas|).out
    ensures forall k :: 0 <= k < |pieces| ==> pieces[k] != ""
  {
    content, pieces := "", [];
    var emittedAnswer := "";
    for n := 0 to |deltas|
      invariant EmitAll(deltas, n) == Emission(content, emittedAnswer, Concat(pieces))
      invariant forall k :: 0 <= k < |pieces| ==> pieces[k] != ""
    {
      var deltaText := deltas[n];
      if deltaText != "" {
        content := content + deltaText;
        var partial := PartialAnswerFromJsonBuffer(content);
        if partial.Some? && |partial.value| > |emittedAnswer| {
          var piece := partial.value[|emittedAnswer|..];
          emittedAnswer := partial.value;
          ConcatSnoc(pieces, piece);
          pieces := pieces + [piece];
        }
      }
    }
  }

  /** The answer that a buffer shows, empty before the key has arrived. */
  function Answer(b: string): string
  {
    match Extract(b)
    case None => ""
    case Some(a) => a
  }

  /** The buffer stops inside an escape of the answer. */
  predicate InEscape(b: string)
  {
    FindKey(b, 0) >= 0 && EndsInEscape(b, FindKey(b, 0))
  }

  /** What the loop keeps: as many characters are out as the answer has, and a dangling backslash
      has been emitted. */
  ghost predicate InStep(e: Emission)
  {
    && |e.emitted| == |e.out| == |Answer(e.content)|
    && (InEscape(e.content) ==> e.out != "" && e.out[|e.out| - 1] == '\\')
  }

  /** A buffer that stops inside an escape shows the backslash last. */
  lemma {:induction false} EscapeIsShown(b: string)
    requires InEscape(b)
    ensures Answer(b) != "" && Answer(b)[|Answer(b)| - 1] == '\\'
  {
    EscapeIsText(b, FindKey(b, 0));
  }

  /** Past the key the answer is what is read there, in every extension. */
  lemma {:induction false} AnswerPastKey(b: string, x: string, k: nat)
    requires FindKey(b, 0) == k
    ensures Answer(b) == Unescape(b, k) && Answer(b + x) == Unescape(b + x, k)
    ensures InEscape(b) == EndsInEscape(b, k) && InEscape(b + x) == EndsInEscape(b + x, k)
  {
    FindKeyStable(b, x, 0);
  }

  /** How the shown answer changes when the buffer grows. */
  lemma {:induction false} AnswerGrows(b: string, x: string)
    requires x != ""
    ensures !InEscape(b) ==> Answer(b) <= Answer(b + x)
    ensures InEscape(b) ==> Replaces(Answer(b), Answer(b + x), Escaped(x[0]))
    ensures InEscape(b + x) ==> |Answer(b)| < |Answer(b + x)|
    ensures InEscape(b + x) ==> Answer(b + x)[|Answer(b + x)| - 1] == '\\'
  {
    if InEscape(b + x) {
      EscapeIsShown(b + x);
    }
    if FindKey(b, 0) >= 0 {
      var k: nat := FindKey(b, 0);
      AnswerPastKey(b, x, k);
      if EndsInEscape(b, k) {
        OpenEscapeIsReplaced(b, x, k);
      } else {
        CleanPrefixGrows(b, x, k);
      }
    } else {
      assert Answer(b) == "";
    }
  }

  /** One delta: the emitted text stays right exactly when it was right and the delta does not
      complete an escape, or completes the escape of a backslash. */
  lemma {:induction false} EmitKeepsStep(e: Emission, x: string)
    requires InStep(e) && x != ""
    ensures InStep(Emit(e, x))
    ensures Emit(e, x).content == e.content + x
    ensures Emit(e, x).out == Answer(e.content + x) <==>
      e.out == Answer(e.content) && (InEscape(e.content) ==> x[0] == '\\')
  {
    var u, v := Answer(e.content), Answer(e.content + x);
    AnswerGrows(e.content, x);
    if !InEscape(e.content) {
      CleanStep(u, v, e.out);
    } else {
      EscapeStep(u, v, e.out, x[0]);
    }
    OutAfter(e, x);
  }

  lemma {:induction false} OutAfter(e: Emission, x: string)
    requires InStep(e) && x != "" && |Answer(e.content)| <= |Answer(e.content + x)|
    ensures var v := Answer(e.content + x);
            Emit(e, x).out == e.out + v[|e.out|..] && |Emit(e, x).emitted| == |v|
  {
    var v := Answer(e.content + x);
    if |v| == |e.emitted| {
      assert v[|e.out|..] == "";
      assert e.out + "" == e.out;
    }
  }

  lemma {:induction false} CleanStep(u: string, v: string, out: string)
    requires u <= v && |out| == |u|
    ensures out + v[|out|..] == v <==> out == u
  {
    assert v[..|u|] == u;
    assert v == v[..|out|] + v[|out|..];
    if out + v[|out|..] == v {
      assert (out + v[|out|..])[..|out|] == out;
    }
  }

  lemma {:induction false} EscapeStep(u: string, v: string, out: string, c: char)
    requires Replaces(u, v, Escaped(c)) && |out| == |u| && out[|out| - 1] == '\\'
    ensures out + v[|out|..] == v <==> out == u && c == '\\'
  {
    var n := |u| - 1;
    assert v == v[..|out|] + v[|out|..];
    assert Escaped(c) == '\\' <==> c == '\\';
    assert u == u[..n] + [u[n]] && out == out[..n] + [out[n]] && v[..|out|] == v[..n] + [v[n]];
    if out + v[|out|..] == v {
      assert (out + v[|out|..])[..|out|] == out;
      assert out == v[..|out|];
      assert out[..n] == v[..n];
    }
  }

  // -- The whole stream --

  function Buffer(deltas: seq<string>, n: nat): string
    requires n <= |deltas|
  {
    EmitAll(deltas, n).content
  }

  lemma {:induction false} BufferGrows(deltas: seq<string>, k: nat, n: nat)
    requires k <= n <= |deltas|
    ensures Buffer(deltas, k) <= Buffer(deltas, n)
    decreases n
  {
    if k < n {
      BufferGrows(deltas, k, n - 1);
      assert Buffer(deltas, n) == Buffer(deltas, n - 1) + deltas[n - 1];
    }
  }

  lemma {:induction false} BufferIsConcat(deltas: seq<string>, n: nat)
    requires n <= |deltas|
    ensures Buffer(deltas, n) == Concat(deltas[..n])
  {
    if n > 0 {
      BufferIsConcat(deltas, n - 1);
      ConcatSnoc(deltas[..n - 1], deltas[n - 1]);
      assert deltas[..n] == deltas[..n - 1] + [deltas[n - 1]];
    }
  }

  /** A boundary at `a` inside `b` is harmless: it is not inside an escape, or the escape is that
      of a backslash, or nothing has followed it yet. */
  predicate Harmless(a: string, b: string)
  {
    InEscape(a) && |a| < |b| ==> b[|a|] == '\\'
  }

  predicate AllHarmless(deltas: seq<string>, n: nat)
    requires n <= |deltas|
  {
    forall k :: 0 <= k <= n ==> Harmless(Buffer(deltas, k), Buffer(deltas, n))
  }

  lemma {:induction false} HarmlessStep(deltas: seq<string>, n: nat, next: nat)
    requires n < |deltas| && next == n + 1 && deltas[n] != ""
    ensures AllHarmless(deltas, next) <==>
      AllHarmless(deltas, n) && (InEscape(Buffer(deltas, n)) ==> deltas[n][0] == '\\')
  {
    var b, c := Buffer(deltas, n), Buffer(deltas, n + 1);
    assert c == b + deltas[n] && c[|b|] == deltas[n][0];
    forall k | 0 <= k <= n
      ensures Buffer(deltas, k) <= b
    {
      BufferGrows(deltas, k, n);
    }
    if AllHarmless(deltas, n + 1) {
      assert Harmless(b, c);
      forall k | 0 <= k <= n
        ensures Harmless(Buffer(deltas, k), b)
      {
        assert Harmless(Buffer(deltas, k), c);
      }
    }
    if AllHarmless(deltas, n) && (InEscape(b) ==> deltas[n][0] == '\\') {
      forall k | 0 <= k <= n + 1
        ensures Harmless(Buffer(deltas, k), c)
      {
        if k <= n {
          assert Harmless(Buffer(deltas, k), b);
          if |Buffer(deltas, k)| == |b| {
            assert Buffer(deltas, k) == b;
          }
        }
      }
    }
  }

  /** The exact condition for the delta stream to spell the answer: every boundary between deltas
      that falls inside an escape falls inside the escape of a backslash. The number of characters
      is right in every case. */
  lemma {:induction false} PiecesSpellAnswerIff(deltas: seq<string>, n: nat)
    requires n <= |deltas|
    ensures InStep(EmitAll(deltas, n))
    ensures |EmitAll(deltas, n).out| == |Answer(Buffer(deltas, n))|
    ensures EmitAll(deltas, n).out == Answer(Buffer(deltas, n)) <==> AllHarmless(deltas, n)
  {
    if n > 0 {
      var before: nat := n - 1;
      PiecesSpellAnswerIff(deltas, before);
      assert EmitAll(deltas, n) == Emit(EmitAll(deltas, before), deltas[before]);
      if deltas[before] == "" {
        SkipEmptyDelta(deltas, before, n);
      } else {
        EmitKeepsStep(EmitAll(deltas, before), deltas[before]);
        HarmlessStep(deltas, before, n);
      }
    }
  }

  lemma {:induction false} SkipEmptyDelta(deltas: seq<string>, n: nat, next: nat)
    requires n < |deltas| && next == n + 1 && deltas[n] == ""
    ensures AllHarmless(deltas, next) <==> AllHarmless(deltas, n)
  {
    assert Buffer(deltas, n + 1) == Buffer(deltas, n);
    if AllHarmless(deltas, n + 1) {
      forall k | 0 <= k <= n
        ensures Harmless(Buffer(deltas, k), Buffer(deltas, n))
      {
        assert Harmless(Buffer(deltas, k), Buffer(deltas, n + 1));
      }
    }
    if AllHarmless(deltas, n) {
      forall k | 0 <= k <= n + 1
        ensures Harmless(Buffer(deltas, k), Buffer(deltas, n + 1))
      {
        assert k <= n ==> Harmless(Buffer(deltas, k), Buffer(deltas, n));
      }
    }
  }

  // -- Retries --

  /** What the first n attempts emit: each reads and emits from its own start. */
  function AttemptsOut(attempts: seq<seq<string>>, n: nat): string
    requires n <= |attempts|
  {
    if n == 0 then "" else AttemptsOut(attempts, n - 1) + EmitAll(attempts[n - 1], |attempts[n - 1]|).out
  }

  /** The answer that an attempt has shown by its end. */
  function Shown(deltas: seq<string>): string
  {
    Answer(Buffer(deltas, |deltas|))
  }

  /** The attempts of one request: every attempt but the last breaks off behind its deltas. */
  method EmitAttempts(attempts: seq<seq<string>>) returns (r: Result<string>, pieces: seq<string>)
    requires attempts != []
    ensures var last := attempts[|attempts| - 1];
            var content := Buffer(last, |last|);
            r == if AllSpace(content) then Err("qwen chat stream returned empty content") else Ok(content)
    ensures Concat(pieces) == AttemptsOut(attempts, |attempts|)
  {
    var content := "";
    pieces := [];
    for n := 0 to |attempts|
      invariant n > 0 ==> content == Buffer(attempts[n - 1], |attempts[n - 1]|)
      invariant Concat(pieces) == AttemptsOut(attempts, n)
    {
      var more: seq<string>;
      content, more := EmitAnswerDeltas(attempts[n]);
      ConcatAppend(pieces, more);
      pieces := pieces + more;
    }
    StripIsEmpty(content);
    if Strip(content) == "" {
      return Err("qwen chat stream returned empty content"), pieces;
    }
    return Ok(content), pieces;
  }

  lemma {:induction false} OutIsAsLong(deltas: seq<string>)
    ensures |EmitAll(deltas, |deltas|).out| == |Shown(deltas)|
  {
    PiecesSpellAnswerIff(deltas, |deltas|);
  }

  /** None of the first n attempts has shown any of its answer. */
  predicate NothingShown(attempts: seq<seq<string>>, n: nat)
    requires n <= |attempts|
  {
    n > 0 ==> NothingShown(attempts, n - 1) && Shown(attempts[n - 1]) == ""
  }

  lemma {:induction false} EarlierOutIsEmptyIff(attempts: seq<seq<string>>, n: nat)
    requires n <= |attempts|
    ensures AttemptsOut(attempts, n) == "" <==> NothingShown(attempts, n)
  {
    if n > 0 {
      EarlierOutIsEmptyIff(attempts, n - 1);
      OutGrowsBy(attempts, n - 1, n);
    }
  }

  lemma {:induction false} OutGrowsBy(attempts: seq<seq<string>>, n: nat, next: nat)
    requires n < |attempts| && next == n + 1
    ensures |AttemptsOut(attempts, next)| == |AttemptsOut(attempts, n)| + |Shown(attempts[n])|
  {
    OutIsAsLong(attempts[n]);
  }

  lemma {:induction false} SuffixIsWholeIff(before: string, last: string, answer: string)
    requires |last| == |answer|
    ensures before + last == answer <==> before == "" && last == answer
  {
    if before == "" {
      assert before + last == last;
    } else {
      assert |before + last| > |answer|;
    }
  }

  /** The exact condition for the text emitted over all attempts to be the answer of the last one: no
      earlier attempt had shown any of its answer, and the last one's boundaries are harmless. */
  lemma {:induction false} AttemptsSpellAnswerIff(attempts: seq<seq<string>>)
    requires attempts != []
    ensures var n := |attempts| - 1;
            var last := attempts[n];
            AttemptsOut(attempts, |attempts|) == Shown(last)
            <==> NothingShown(attempts, n) && AllHarmless(last, |last|)
  {
    var n := |attempts| - 1;
    var last := attempts[n];
    EarlierOutIsEmptyIff(attempts, n);
    OutIsAsLong(last);
    PiecesSpellAnswerIff(last, |last|);
    SuffixIsWholeIff(AttemptsOut(attempts, n), EmitAll(last, |last|).out, Shown(last));
  }

  // -- An escape split over two deltas --

  const BEFORE_BREAK := "{\"answer\":\"a\\"
  const AFTER_BREAK := "nb\"}"

  /** A line break whose escape is split over two deltas arrives wrong. */
  lemma {:induction false} SplitEscapeIsWrong()
    ensures var deltas := [BEFORE_BREAK, AFTER_BREAK];
            EmitAll(deltas, 2).out != Answer(Buffer(deltas, 2))
  {
    var deltas := [BEFORE_BREAK, AFTER_BREAK];
    PiecesSpellAnswerIff(deltas, 2);
    BeforeBreakIsOpen();
    BuffersOfTwo(BEFORE_BREAK, AFTER_BREAK);
    assert !Harmless(Buffer(deltas, 1), Buffer(deltas, 2));
  }

  lemma {:induction false} BuffersOfTwo(first: string, second: string)
    requires second != ""
    ensures var deltas := [first, second];
            Buffer(deltas, 1) == first && Buffer(deltas, 2) == first + second
            && Buffer(deltas, 2)[|first|] == second[0]
  {
    var deltas := [first, second];
    assert Buffer(deltas, 0) == "";
    assert "" + first == first;
  }

  lemma {:induction false} BeforeBreakIsOpen()
    ensures InEscape(BEFORE_BREAK)
  {
    KeyOfBreak();
    assert |BEFORE_BREAK| == 13 && BEFORE_BREAK[11] == 'a' && BEFORE_BREAK[12] == '\\';
    assert EndsInEscape(BEFORE_BREAK, 12);
  }

  lemma {:induction false} KeyOfBreak()
    ensures FindKey(BEFORE_BREAK, 0) == 11
  {
    assert BEFORE_BREAK[..8][0] == '{';
    assert KeyEnd(BEFORE_BREAK, 0) == -1;
    KeyAtOne();
  }

  lemma {:induction false} KeyAtOne()
    ensures KeyEnd(BEFORE_BREAK, 1) == 11
  {
    var b := BEFORE_BREAK;
    assert b[1..9] == KEY;
    assert b[9] == ':' && b[10] == '"';
  }

  // -- A stream that breaks off and is tried again --

  const BROKEN := "{\"answer\":\"a"
  const COMPLETE := BROKEN + "\"}"

  /** An attempt that breaks off behind one letter leaves that letter in front of the next attempt's answer. */
  lemma {:induction false} RetryRepeatsAnswer()
    ensures var attempts := [[BROKEN], [COMPLETE]];
            AttemptsOut(attempts, 2) != Shown([COMPLETE]) && Shown([BROKEN]) == "a"
  {
    var attempts := [[BROKEN], [COMPLETE]];
    OneDelta(BROKEN);
    BrokenShowsLetter();
    assert Shown(attempts[0]) != "";
    AttemptsSpellAnswerIff(attempts);
  }

  lemma {:induction false} OneDelta(delta: string)
    requires delta != ""
    ensures Shown([delta]) == Answer(delta)
  {
    assert EmitAll([delta], 0).content == "";
    assert "" + delta == delta;
  }

  lemma {:induction false} BrokenShowsLetter()
    ensures Answer(BROKEN) == "a"
  {
    var b := BROKEN;
    assert |b| == 12 && b[..8][0] == '{';
    assert KeyEnd(b, 0) == -1;
    assert b[1..9] == KEY && b[9] == ':' && b[10] == '"';
    assert KeyEnd(b, 1) == 11;
    assert FindKey(b, 0) == 11;
    assert Unescape(b, 12) == "";
    assert b[11] == 'a' && Unescape(b, 11) == ['a'] + "";
  }
}
