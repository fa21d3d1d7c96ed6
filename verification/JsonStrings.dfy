/** JSON string encodings (section 7 of RFC 8259) and which of them the extractor reads back. */
module JsonStrings {
  import opened Options
  import opened PartialAnswer

  /** One character as it may be written inside a JSON string: as itself, with a two-character
      escape, or with a six-character escape of hexadecimal digits. */
  datatype Token =
    | Literal(c: char)
    | Short(e: char)
    | Unicode(value: char, digits: string)

  /** The escape letters of RFC 8259. */
  predicate IsEscapeLetter(e: char)
  {
    e in {'"', '\\', '/', 'b', 'f', 'n', 'r', 't'}
  }

  predicate IsToken(t: Token)
  {
    match t
    case Literal(c) => c != '"' && c != '\\' && ' ' <= c
    case Short(e) => IsEscapeLetter(e)
    case Unicode(_, digits) => |digits| == 4 && forall k :: 0 <= k < 4 ==> digits[k] in "0123456789abcdefABCDEF"
  }

  predicate AreTokens(ts: seq<Token>)
  {
    forall k :: 0 <= k < |ts| ==> IsToken(ts[k])
  }

  /** How a token is written. */
  function Written(t: Token): string
  {
    match t
    case Literal(c) => [c]
    case Short(e) => ['\\', e]
    case Unicode(_, digits) => ['\\', 'u'] + digits
  }

  /** The character that a token stands for. */
  function Value(t: Token): char
  {
    match t
    case Literal(c) => c
    case Short('b') => '\U{8}'
    case Short('f') => '\U{c}'
    case Short('n') => '\n'
    case Short('r') => '\r'
    case Short('t') => '\t'
    case Short(e) => e
    case Unicode(v, _) => v
  }

  function Encoded(ts: seq<Token>): string
  {
    if ts == [] then "" else Written(ts[0]) + Encoded(ts[1..])
  }

  function Decoded(ts: seq<Token>): string
  {
    if ts == [] then "" else [Value(ts[0])] + Decoded(ts[1..])
  }

  /** What the extractor makes of a token. */
  function Shown(t: Token): string
  {
    match t
    case Literal(c) => [c]
    case Short(e) => [Escaped(e)]
    case Unicode(_, digits) => "u" + digits
  }

  function AllShown(ts: seq<Token>): string
  {
    if ts == [] then "" else Shown(ts[0]) + AllShown(ts[1..])
  }

  /** The tokens that the extractor understands. */
  predicate IsSimple(t: Token)
  {
    t.Literal? || (t.Short? && t.e in {'"', '\\', '/', 'n', 't'})
  }

  /** A raw line break never occurs in an encoded string, so the encoding fits on one line. */
  lemma {:induction false} EncodedIsOneLine(ts: seq<Token>)
    requires AreTokens(ts)
    ensures forall k :: 0 <= k < |Encoded(ts)| ==> ' ' <= Encoded(ts)[k]
  {
    if ts != [] {
      EncodedIsOneLine(ts[1..]);
      var w := Written(ts[0]);
      assert IsToken(ts[0]);
      assert forall k :: 0 <= k < |w| ==> ' ' <= w[k];
    }
  }

  /** `w` stands at position `i` of `b`. */
  ghost predicate At(b: string, i: nat, w: string)
  {
    i + |w| <= |b| && forall k :: 0 <= k < |w| ==> b[i + k] == w[k]
  }

  lemma {:induction false} AtSplit(b: string, i: nat, w: string, rest: string)
    requires At(b, i, w + rest)
    ensures At(b, i, w) && At(b, i + |w|, rest)
  {
    forall k | 0 <= k < |w|
      ensures b[i + k] == w[k]
    {
      assert b[i + k] == (w + rest)[k];
    }
    forall k | 0 <= k < |rest|
      ensures b[i + |w| + k] == rest[k]
    {
      assert b[i + (|w| + k)] == (w + rest)[|w| + k];
    }
  }

  lemma {:induction false} ReadsChar(b: string, i: nat)
    requires i < |b| && b[i] != '"' && b[i] != '\\'
    ensures Unescape(b, i) == [b[i]] + Unescape(b, i + 1)
  {
  }

  /** Characters other than quotes and backslashes are read as they are. */
  lemma {:induction false} ReadsPlain(b: string, i: nat, w: string)
    requires At(b, i, w) && forall k :: 0 <= k < |w| ==> w[k] != '"' && w[k] != '\\'
    ensures Unescape(b, i) == w + Unescape(b, i + |w|)
    decreases |w|
  {
    if w != "" {
      var first, rest := w[0], w[1..];
      assert w == [first] + rest;
      AtSplit(b, i, [first], rest);
      assert b[i + 0] == first;
      ReadsPlain(b, i + 1, rest);
      ReadsChar(b, i);
      Associate(first, rest, Unescape(b, i + 1 + |rest|));
    } else {
      assert w + Unescape(b, i) == Unescape(b, i);
    }
  }

  lemma {:induction false} ReadsEscape(b: string, i: nat, e: char)
    requires At(b, i, ['\\', e])
    ensures Unescape(b, i) == [Escaped(e)] + Unescape(b, i + 2)
  {
    var w := ['\\', e];
    assert w[0] == '\\' && w[1] == e;
    assert b[i + 0] == w[0] && b[i + 1] == w[1];
  }

  lemma {:induction false} ReadsUnicode(b: string, i: nat, digits: string)
    requires At(b, i, ['\\', 'u'] + digits)
    requires forall k :: 0 <= k < |digits| ==> digits[k] != '"' && digits[k] != '\\'
    ensures Unescape(b, i) == ("u" + digits) + Unescape(b, i + 2 + |digits|)
  {
    var rest := Unescape(b, i + 2 + |digits|);
    assert Unescape(b, i) == ['u'] + Unescape(b, i + 2) by {
      AtSplit(b, i, ['\\', 'u'], digits);
      ReadsEscape(b, i, 'u');
    }
    assert Unescape(b, i + 2) == digits + rest by {
      AtSplit(b, i, ['\\', 'u'], digits);
      ReadsPlain(b, i + 2, digits);
    }
    Associate('u', digits, rest);
  }

  lemma {:induction false} Associate(c: char, s: string, t: string)
    ensures [c] + (s + t) == ([c] + s) + t
  {
  }

  lemma {:induction false} DigitsArePlain(digits: string)
    requires forall k :: 0 <= k < |digits| ==> digits[k] in "0123456789abcdefABCDEF"
    ensures forall k :: 0 <= k < |digits| ==> digits[k] != '"' && digits[k] != '\\'
  {
    forall k | 0 <= k < |digits|
      ensures digits[k] != '"' && digits[k] != '\\'
    {
      var d :| 0 <= d < 22 && "0123456789abcdefABCDEF"[d] == digits[k];
    }
  }

  lemma {:induction false} ReadsLiteral(b: string, i: nat, c: char)
    requires c != '"' && c != '\\' && At(b, i, [c])
    ensures Unescape(b, i) == [c] + Unescape(b, i + 1)
  {
    assert b[i + 0] == [c][0];
    ReadsChar(b, i);
  }

  lemma {:induction false} ReadsToken(b: string, i: nat, t: Token)
    requires IsToken(t) && At(b, i, Written(t))
    ensures Unescape(b, i) == Shown(t) + Unescape(b, i + |Written(t)|)
  {
    match t {
      case Literal(c) =>
        ReadsLiteral(b, i, c);
      case Short(e) =>
        ReadsEscape(b, i, e);
      case Unicode(_, digits) =>
        DigitsArePlain(digits);
        ReadsUnicode(b, i, digits);
    }
  }

  /** The extractor stops at the quote that closes an encoded string, whatever follows. */
  lemma {:induction false} ReadsEncoded(b: string, i: nat, ts: seq<Token>)
    requires AreTokens(ts) && At(b, i, Encoded(ts) + "\"")
    ensures Unescape(b, i) == AllShown(ts)
    decreases |ts|
  {
    if ts == [] {
      assert b[i + 0] == ("" + "\"")[0];
    } else {
      var w, rest := Written(ts[0]), Encoded(ts[1..]) + "\"";
      assert Encoded(ts) + "\"" == w + rest;
      AtSplit(b, i, w, rest);
      ReadsToken(b, i, ts[0]);
      ReadsEncoded(b, i + |w|, ts[1..]);
    }
  }

  lemma {:induction false} ShownIsLonger(ts: seq<Token>)
    requires AreTokens(ts)
    ensures |AllShown(ts)| >= |ts| == |Decoded(ts)|
  {
    if ts != [] {
      ShownIsLonger(ts[1..]);
    }
  }

  lemma {:induction false} ShownIsValueIff(t: Token)
    requires IsToken(t)
    ensures Shown(t) == [Value(t)] <==> IsSimple(t)
    ensures |Shown(t)| == 1 || |Shown(t)| == 5
  {
  }

  lemma {:induction false} AllShownIsDecodedIff(ts: seq<Token>)
    requires AreTokens(ts)
    ensures AllShown(ts) == Decoded(ts) <==> forall k :: 0 <= k < |ts| ==> IsSimple(ts[k])
  {
    if ts != [] {
      var t, rest := ts[0], ts[1..];
      AllShownIsDecodedIff(rest);
      ShownIsValueIff(t);
      ShownIsLonger(rest);
      assert forall k :: 0 <= k < |rest| ==> rest[k] == ts[k + 1];
      assert forall k :: 0 < k < |ts| ==> ts[k] == rest[k - 1];
      if AllShown(ts) == Decoded(ts) {
        assert |Shown(t)| == 1;
        assert Shown(t)[0] == AllShown(ts)[0] == Value(t);
        assert AllShown(rest) == AllShown(ts)[1..] == Decoded(ts)[1..] == Decoded(rest);
      }
    }
  }

  /** The exact round trip: from any buffer that ends in the opening quote of the answer, followed
      by an encoding of a text and its closing quote, the extractor returns that text if and only
      if the encoding uses no escapes but those for quote, backslash, slash, line feed and tab. */
  lemma {:induction false} ExtractInvertsEncodingIff(head: string, ts: seq<Token>, tail: string)
    requires AreTokens(ts) && FindKey(head, 0) == |head|
    ensures Extract(head + Encoded(ts) + "\"" + tail) == Some(Decoded(ts))
      <==> forall k :: 0 <= k < |ts| ==> IsSimple(ts[k])
  {
    var x := Encoded(ts) + "\"" + tail;
    assert head + Encoded(ts) + "\"" + tail == head + x;
    FindKeyStable(head, x, 0);
    ReadsEncoded(head + x, |head|, ts);
    AllShownIsDecodedIff(ts);
  }
}
