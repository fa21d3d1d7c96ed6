/** The incremental extractor of the `answer` field from a growing JSON buffer, and the loop that
    emits what each new piece of the buffer adds. */
module PartialAnswer {
  import opened Options
  import opened Text
  import opened Words

  // -- Finding the key --

  const KEY := "\"answer\""

  /** The end of a match of `"answer"\s*:\s*"` at `i`, or -1. */
  function KeyEnd(b: string, i: nat): (e: int)
    requires i <= |b|
    ensures e == -1 || i + 10 <= e <= |b|
  {
    if i + 8 <= |b| && b[i..i + 8] == KEY then
      var j := SkipSpace(b, i + 8);
      if j < |b| && b[j] == ':' then
        var k := SkipSpace(b, j + 1);
        if k < |b| && b[k] == '"' then k + 1 else -1
      else -1
    else -1
  }

  /** The end of the first match at or after `i`, or -1. */
  function FindKey(b: string, i: nat): (e: int)
    requires i <= |b|
    ensures e == -1 || i < e <= |b|
    decreases |b| - i
  {
    if KeyEnd(b, i) >= 0 then KeyEnd(b, i)
    else if i < |b| then FindKey(b, i + 1)
    else -1
  }

  /** From `i` to `e` stand the quoted key, white space, a colon at `p`, white space, and a quote. */
  predicate KeyStands(b: string, i: nat, p: nat, e: nat)
  {
    && i + 8 <= p && p + 1 < e <= |b|
    && b[i..i + 8] == "\"answer\"" && b[p] == ':' && b[e - 1] == '"'
    && (forall k :: i + 8 <= k < p ==> IsSpace(b[k])) && (forall k :: p < k < e - 1 ==> IsSpace(b[k]))
  }

  ghost predicate KeyStandsAt(b: string, i: nat, e: nat)
  {
    exists p: nat :: KeyStands(b, i, p, e)
  }

  lemma {:induction false} SpaceEnds(b: string, k: nat, p: nat)
    requires k <= p < |b| && !IsSpace(b[p]) && forall j :: k <= j < p ==> IsSpace(b[j])
    ensures SkipSpace(b, k) == p
  {
  }

  /** A match is the key as it stands in the text, with any white space around its colon. */
  lemma {:induction false} KeyEndIff(b: string, i: nat, e: nat)
    requires i <= |b|
    ensures KeyEnd(b, i) == e <==> KeyStandsAt(b, i, e)
  {
    if KeyEnd(b, i) == e {
      assert KeyStands(b, i, SkipSpace(b, i + 8), e);
    }
    if p: nat :| KeyStands(b, i, p, e) {
      SpaceEnds(b, i + 8, p);
      SpaceEnds(b, p + 1, e - 1);
    }
  }

  ghost predicate NoKeyAt(b: string, i: nat)
  {
    forall e: nat :: !KeyStandsAt(b, i, e)
  }

  lemma {:induction false} NoKeyIff(b: string, i: nat)
    requires i <= |b|
    ensures KeyEnd(b, i) < 0 <==> NoKeyAt(b, i)
  {
    forall e: nat
      ensures KeyEnd(b, i) == e <==> KeyStandsAt(b, i, e)
    {
      KeyEndIff(b, i, e);
    }
    if KeyEnd(b, i) >= 0 {
      assert KeyStandsAt(b, i, KeyEnd(b, i));
    }
  }

  /** The answer is read behind the first key that stands in the text, and not at all without one. */
  lemma {:induction false} FindKeyIsFirst(b: string, i: nat) returns (m: nat)
    requires i <= |b|
    ensures i <= m <= |b| + 1 && forall j :: i <= j < m ==> NoKeyAt(b, j)
    ensures FindKey(b, i) < 0 <==> m == |b| + 1
    ensures FindKey(b, i) >= 0 ==> KeyStandsAt(b, m, FindKey(b, i))
    decreases |b| - i
  {
    NoKeyIff(b, i);
    m := i;
    if KeyEnd(b, i) >= 0 {
      KeyEndIff(b, i, KeyEnd(b, i));
    } else if i < |b| {
      m := FindKeyIsFirst(b, i + 1);
    } else {
      m := |b| + 1;
    }
  }

  lemma {:induction false} SkipSpaceStable(b: string, x: string, k: nat)
    requires k <= |b|
    ensures SkipSpace(b, k) < |b| ==> SkipSpace(b + x, k) == SkipSpace(b, k)
    ensures SkipSpace(b, k) == |b| ==> SkipSpace(b + x, k) >= |b|
    decreases |b| - k
  {
    if k < |b| {
      assert (b + x)[k] == b[k];
      if IsSpace(b[k]) {
        SkipSpaceStable(b, x, k + 1);
      }
    }
  }

  lemma {:induction false} KeyEndStable(b: string, x: string, i: nat)
    requires i <= |b| && KeyEnd(b, i) >= 0
    ensures KeyEnd(b + x, i) == KeyEnd(b, i)
  {
    assert (b + x)[i..i + 8] == b[i..i + 8];
    var j := SkipSpace(b, i + 8);
    SkipSpaceStable(b, x, i + 8);
    SkipSpaceStable(b, x, j + 1);
  }

  /** Two keys cannot overlap so that the second is followed by a match of the first. */
  lemma {:induction false} KeysDoNotOverlap(c: string, j: nat, i: nat)
    requires j < i < j + 8 && i + 8 <= |c| && c[i..i + 8] == KEY
    ensures KeyEnd(c, j) < 0
  {
    assert c[i] == c[i..i + 8][0] && c[i + 1] == c[i..i + 8][1];
    if c[j..j + 8] == KEY {
      assert c[j..j + 8][i - j] == c[i];
      assert i == j + 7;
      assert SkipSpace(c, j + 8) == j + 8;
    }
  }

  lemma {:induction false} QuoteStopsSpace(b: string, k: nat, i: nat)
    requires k <= i < |b| && !IsSpace(b[i])
    ensures k <= SkipSpace(b, k) <= i
    decreases i - k
  {
    if k < i && IsSpace(b[k]) {
      QuoteStopsSpace(b, k + 1, i);
    }
  }

  /** White space that ends before `b` does ends at the same place in every extension. */
  lemma {:induction false} SpaceEndsBefore(b: string, x: string, k: nat, i: nat)
    requires k <= i < |b| && !IsSpace(b[i])
    ensures k <= SkipSpace(b, k) == SkipSpace(b + x, k) <= i
    ensures (b + x)[SkipSpace(b, k)] == b[SkipSpace(b, k)]
  {
    QuoteStopsSpace(b, k, i);
    SkipSpaceStable(b, x, k);
  }

  /** After its key a match reads white space, a colon and white space, so it ends before the next
      quote; a match that reaches past that quote does not exist. */
  lemma {:induction false} QuoteStopsMatch(b: string, x: string, j: nat, i: nat)
    requires j + 8 <= i < |b| && b[i] == '"' && KeyEnd(b, j) < 0
    ensures KeyEnd(b + x, j) < 0
  {
    var c := b + x;
    assert c[j..j + 8] == b[j..j + 8];
    var p := SkipSpace(b, j + 8);
    SpaceEndsBefore(b, x, j + 8, i);
    if b[p] == ':' {
      SpaceEndsBefore(b, x, p + 1, i);
    }
  }

  /** A match that needs the extension begins after every match inside `b`. */
  lemma {:induction false} NoEarlierMatch(b: string, x: string, j: nat, i: nat)
    requires j < i <= |b| && KeyEnd(b, j) < 0 && KeyEnd(b, i) >= 0
    ensures KeyEnd(b + x, j) < 0
  {
    assert b[i..i + 8][0] == b[i];
    if i < j + 8 {
      assert (b + x)[i..i + 8] == b[i..i + 8];
      KeysDoNotOverlap(b + x, j, i);
    } else {
      QuoteStopsMatch(b, x, j, i);
    }
  }

  /** The first match is stable: once a buffer has one, every extension has the same one. */
  lemma {:induction false} FindKeyStable(b: string, x: string, i: nat)
    requires i <= |b| && FindKey(b, i) >= 0
    ensures FindKey(b + x, i) == FindKey(b, i)
    decreases |b| - i
  {
    if KeyEnd(b, i) >= 0 {
      KeyEndStable(b, x, i);
    } else {
      FindKeyStable(b, x, i + 1);
      var m := FirstMatch(b, i + 1);
      NoEarlierMatch(b, x, i, m);
    }
  }

  lemma {:induction false} FirstMatch(b: string, i: nat) returns (m: nat)
    requires i <= |b| && FindKey(b, i) >= 0
    ensures i <= m <= |b| && KeyEnd(b, m) >= 0
    decreases |b| - i
  {
    m := i;
    if KeyEnd(b, i) < 0 {
      m := FirstMatch(b, i + 1);
    }
  }

  // -- Reading the answer --

  /** What the reader takes an escape for. */
  function Escaped(c: char): char
  {
    match c
    case 'n' => '\n'
    case 't' => '\t'
    case '"' => '"'
    case '\\' => '\\'
    case _ => c
  }

  /** The answer text in `b` from `i` on, up to the closing quote or the end of the buffer. */
  function Unescape(b: string, i: nat): string
    decreases |b| - i
  {
    if i >= |b| then ""
    else if b[i] == '\\' && i + 1 < |b| then [Escaped(b[i + 1])] + Unescape(b, i + 2)
    else if b[i] == '"' then ""
    else [b[i]] + Unescape(b, i + 1)
  }

  function Extract(b: string): Option<string>
  {
    if FindKey(b, 0) < 0 then None else Some(Unescape(b, FindKey(b, 0)))
  }

  method PartialAnswerFromJsonBuffer(buffer: string) returns (answer: Option<string>)
    ensures answer == Extract(buffer)
  {
    var start := FindKey(buffer, 0);
    if start < 0 {
      return None;
    }
    var chars := ReadUpToQuote(buffer, start);
    return Some(chars);
  }

  /** The reading loop of the extractor. */
  method ReadUpToQuote(buffer: string, start: nat) returns (chars: string)
    ensures chars == Unescape(buffer, start)
  {
    chars := "";
    var index := start;
    while index < |buffer|
      invariant Unescape(buffer, start) == chars + Unescape(buffer, index)
      decreases |buffer| - index
    {
      var c := buffer[index];
      if c == '\\' && index + 1 < |buffer| {
        var decoded := DecodeEscape(buffer[index + 1]);
        ReadOne(buffer, start, chars, index, decoded, index + 2);
        chars := chars + [decoded];
        index := index + 2;
        continue;
      }
      if c == '"' {
        break;
      }
      ReadOne(buffer, start, chars, index, c, index + 1);
      chars := chars + [c];
      index := index + 1;
    }
    assert Unescape(buffer, index) == "";
    assert chars + "" == chars;
  }

  method DecodeEscape(escape: char) returns (decoded: char)
    ensures decoded == Escaped(escape)
  {
    if escape == 'n' {
      decoded := '\n';
    } else if escape == 't' {
      decoded := '\t';
    } else if escape == '"' {
      decoded := '"';
    } else if escape == '\\' {
      decoded := '\\';
    } else {
      decoded := escape;
    }
  }

  lemma {:induction false} ReadOne(buffer: string, start: nat, chars: string, index: nat, c: char, next: nat)
    requires Unescape(buffer, start) == chars + Unescape(buffer, index)
    requires Unescape(buffer, index) == [c] + Unescape(buffer, next)
    ensures Unescape(buffer, start) == (chars + [c]) + Unescape(buffer, next)
  {
  }

  // -- Growing buffers --

  /** The buffer ends in the middle of an escape: its last character is a backslash that still
      waits for the character it escapes. */
  predicate EndsInEscape(b: string, i: nat)
    decreases |b| - i
  {
    if i >= |b| then false
    else if b[i] == '\\' then i + 1 == |b| || EndsInEscape(b, i + 2)
    else b[i] != '"' && EndsInEscape(b, i + 1)
  }

  /** The answer is closed inside the buffer. */
  predicate Closed(b: string, i: nat)
    decreases |b| - i
  {
    if i >= |b| then false
    else if b[i] == '\\' then i + 1 < |b| && Closed(b, i + 2)
    else b[i] == '"' || Closed(b, i + 1)
  }

  /** Outside escapes extraction is monotone, and strictly so towards a buffer that ends in an
      escape; once closed it no longer changes. */
  lemma {:induction false} CleanPrefixGrows(b: string, x: string, i: nat)
    requires i <= |b| && !EndsInEscape(b, i)
    ensures Unescape(b, i) <= Unescape(b + x, i)
    ensures EndsInEscape(b + x, i) ==> |Unescape(b, i)| < |Unescape(b + x, i)|
    ensures Closed(b, i) ==> Unescape(b + x, i) == Unescape(b, i) && !EndsInEscape(b + x, i)
    decreases |b| - i
  {
    var c := b + x;
    if i < |b| {
      assert c[i] == b[i];
      if b[i] == '\\' {
        assert c[i + 1] == b[i + 1];
        CleanPrefixGrows(b, x, i + 2);
      } else if b[i] != '"' {
        CleanPrefixGrows(b, x, i + 1);
      }
    } else {
      EscapeIsText(c, i);
    }
  }

  /** A buffer that ends in an escape shows the backslash as its last character. */
  lemma {:induction false} EscapeIsText(b: string, i: nat)
    requires EndsInEscape(b, i) || i >= 0
    ensures EndsInEscape(b, i) ==> var u := Unescape(b, i); u != "" && u[|u| - 1] == '\\' && b[|b| - 1] == '\\'
    decreases |b| - i
  {
    if i < |b| {
      if b[i] == '\\' {
        EscapeIsText(b, i + 2);
      } else {
        EscapeIsText(b, i + 1);
      }
    }
  }

  /** `v` is `u` with its last character, a backslash, replaced by `c`, and possibly more. */
  ghost predicate Replaces(u: string, v: string, c: char)
  {
    && 0 < |u| <= |v|
    && u[..|u| - 1] == v[..|u| - 1]
    && u[|u| - 1] == '\\' && v[|u| - 1] == c
  }

  lemma {:induction false} ReplacesCons(h: char, u: string, v: string, c: char)
    requires Replaces(u, v, c)
    ensures Replaces([h] + u, [h] + v, c)
  {
    var a, b := [h] + u, [h] + v;
    assert a[..|a| - 1] == [h] + u[..|u| - 1];
    assert b[..|a| - 1] == [h] + v[..|u| - 1];
  }

  /** When the buffer grows past an open escape, the backslash shown last is replaced by the
      character the escape stands for. */
  lemma {:induction false} OpenEscapeIsReplaced(b: string, x: string, i: nat)
    requires EndsInEscape(b, i) && x != ""
    ensures Replaces(Unescape(b, i), Unescape(b + x, i), Escaped(x[0]))
    ensures EndsInEscape(b + x, i) ==> |Unescape(b, i)| < |Unescape(b + x, i)|
    decreases |b| - i
  {
    var c := b + x;
    assert c[i] == b[i];
    if b[i] == '\\' && i + 1 == |b| {
      assert c[i + 1] == x[0];
      assert Unescape(b, i + 1) == "";
      assert Unescape(b, i) == ['\\'] + "";
      EscapeIsText(c, i + 2);
    } else if b[i] == '\\' {
      assert c[i + 1] == b[i + 1];
      OpenEscapeIsReplaced(b, x, i + 2);
      ReplacesCons(Escaped(b[i + 1]), Unescape(b, i + 2), Unescape(c, i + 2), Escaped(x[0]));
    } else {
      OpenEscapeIsReplaced(b, x, i + 1);
      ReplacesCons(b[i], Unescape(b, i + 1), Unescape(c, i + 1), Escaped(x[0]));
    }
  }
}
