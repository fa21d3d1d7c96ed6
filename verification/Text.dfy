/** Whitespace and string helpers shared by the models of the Python modules. */
module Text {

  /** The characters that Python's `str.isspace`, `str.strip` and `\s` agree on. */
  predicate IsSpace(c: char)
  {
    || '\t' <= c <= '\r'
    || '\U{1c}' <= c <= ' '
    || c == '\U{85}' || c == '\U{a0}' || c == '\U{1680}'
    || '\U{2000}' <= c <= '\U{200a}'
    || c == '\U{2028}' || c == '\U{2029}' || c == '\U{202f}'
    || c == '\U{205f}' || c == '\U{3000}'
  }

  /** The code points one by one. */
  lemma {:induction false} SpacesOneByOne(c: char)
    ensures IsSpace(c) <==> c as int in {
        9, 10, 11, 12, 13, 28, 29, 30, 31, 32, 133, 160, 5760, 8192, 8193, 8194, 8195, 8196, 8197, 8198, 8199,
        8200, 8201, 8202, 8232, 8233, 8239, 8287, 12288}
  {
  }

  predicate AllSpace(s: string)
  {
    forall k :: 0 <= k < |s| ==> IsSpace(s[k])
  }

  /** The characters that JavaScript's `trim` removes. */
  predicate IsJsSpace(c: char)
  {
    || '\t' <= c <= '\r' || c == ' ' || c == '\U{a0}' || c == '\U{1680}'
    || '\U{2000}' <= c <= '\U{200a}' || c == '\U{2028}' || c == '\U{2029}'
    || c == '\U{202f}' || c == '\U{205f}' || c == '\U{3000}' || c == '\U{feff}'
  }

  /** JavaScript takes U+FEFF for white space, and not U+001C to U+001F and U+0085. */
  lemma {:induction false} JsSpacesDiffer(c: char)
    ensures IsSpace(c) != IsJsSpace(c) <==> c as int in {28, 29, 30, 31, 133, 65279}
  {
  }

  predicate IsJsBlank(s: string)
  {
    forall k :: 0 <= k < |s| ==> IsJsSpace(s[k])
  }

  function LStrip(s: string): string
  {
    if s != [] && IsSpace(s[0]) then LStrip(s[1..]) else s
  }

  function RStrip(s: string): string
  {
    if s != [] && IsSpace(s[|s| - 1]) then RStrip(s[..|s| - 1]) else s
  }

  function Strip(s: string): string
  {
    RStrip(LStrip(s))
  }

  predicate StartsWith(s: string, prefix: string)
  {
    prefix <= s
  }

  lemma {:induction false} RStripIsPrefix(s: string)
    ensures RStrip(s) <= s
    ensures RStrip(s) != [] ==> !IsSpace(RStrip(s)[|RStrip(s)| - 1])
    ensures AllSpace(s[|RStrip(s)|..])
  {
    if s != [] && IsSpace(s[|s| - 1]) {
      var front, t := s[..|s| - 1], RStrip(s);
      RStripIsPrefix(front);
      assert t == RStrip(front);
      PrefixOfFront(s, front, t);
    } else {
      assert s[|s|..] == "";
    }
  }

  lemma {:induction false} PrefixOfFront(s: string, front: string, t: string)
    requires s != "" && IsSpace(s[|s| - 1]) && front == s[..|s| - 1]
    requires t <= front && AllSpace(front[|t|..])
    ensures t <= s && AllSpace(s[|t|..])
  {
    forall k | 0 <= k < |s| - |t|
      ensures IsSpace(s[|t|..][k])
    {
      if k < |front| - |t| {
        assert s[|t| + k] == front[|t|..][k];
      }
    }
  }

  /** Stripping on the right never reaches into a prefix that ends in a visible character. */
  lemma {:induction false} RStripKeeps(p: string, s: string)
    requires p != [] && !IsSpace(p[|p| - 1])
    requires p <= s
    ensures p <= RStrip(s)
  {
    if IsSpace(s[|s| - 1]) {
      RStripKeeps(p, s[..|s| - 1]);
    }
  }

  lemma {:induction false} LStripIsSuffix(s: string)
    ensures |LStrip(s)| <= |s| && LStrip(s) == s[|s| - |LStrip(s)|..]
    ensures LStrip(s) != [] ==> !IsSpace(LStrip(s)[0])
    ensures AllSpace(s[..|s| - |LStrip(s)|])
  {
    if s != [] && IsSpace(s[0]) {
      var rest, t := s[1..], LStrip(s);
      LStripIsSuffix(rest);
      assert t == LStrip(rest);
      SuffixOfRest(s, rest, t);
    } else {
      assert s[0..] == s && s[..0] == "";
    }
  }

  lemma {:induction false} SuffixOfRest(s: string, rest: string, t: string)
    requires s != "" && IsSpace(s[0]) && rest == s[1..]
    requires |t| <= |rest| && t == rest[|rest| - |t|..] && AllSpace(rest[..|rest| - |t|])
    ensures t == s[|s| - |t|..] && AllSpace(s[..|s| - |t|])
  {
    var n := |s| - |t|;
    forall k | 0 <= k < n
      ensures IsSpace(s[..n][k])
    {
      if k > 0 {
        assert s[k] == rest[..n - 1][k - 1];
      }
    }
  }

  lemma {:induction false} StripIsEmpty(s: string)
    ensures Strip(s) == [] <==> AllSpace(s)
  {
    LStripIsSuffix(s);
    RStripIsPrefix(LStrip(s));
    var n := |s| - |LStrip(s)|;
    if Strip(s) == [] {
      assert LStrip(s)[0..] == LStrip(s);
      assert LStrip(s) == [];
      assert s[..|s|] == s;
    }
    if AllSpace(s) {
      AllSpaceLStrips(s);
    }
  }

  lemma {:induction false} AllSpaceLStrips(s: string)
    requires AllSpace(s)
    ensures LStrip(s) == []
  {
    if s != [] {
      AllSpaceLStrips(s[1..]);
    }
  }

  // -- Trimmed text, by its characters --

  /** `t` is `s` without the white space around it. */
  ghost predicate TrimsTo(s: string, t: string)
  {
    && (t != "" ==> !IsSpace(t[0]) && !IsSpace(t[|t| - 1]))
    && exists a: nat, b: nat :: a <= b <= |s| && t == s[a..b] && AllSpace(s[..a]) && AllSpace(s[b..])
  }

  /** Behind leading white space comes what is left of it. */
  lemma {:induction false} LStripSkips(s: string, k: nat)
    requires k < |s| && AllSpace(s[..k]) && !IsSpace(s[k])
    ensures LStrip(s) == s[k..]
    decreases k
  {
    if k > 0 {
      var rest := s[1..];
      assert s[..k][0] == s[0];
      assert rest[..k - 1] == s[..k][1..];
      LStripSkips(rest, k - 1);
      assert rest[k - 1..] == s[k..];
    } else {
      assert s[0..] == s;
    }
  }

  lemma {:induction false} RStripSkips(s: string, k: nat)
    requires 0 < k <= |s| && AllSpace(s[k..]) && !IsSpace(s[k - 1])
    ensures RStrip(s) == s[..k]
    decreases |s|
  {
    if k < |s| {
      var front := s[..|s| - 1];
      assert s[k..][|s| - 1 - k] == s[|s| - 1];
      assert front[k..] == s[k..][..|s| - 1 - k];
      RStripSkips(front, k);
      assert front[..k] == s[..k];
    } else {
      assert s[..k] == s;
    }
  }

  /** A text is stripped to its trimmed text, which is the only one. */
  lemma {:induction false} TrimIsStrip(s: string, t: string)
    requires TrimsTo(s, t)
    ensures t == Strip(s)
  {
    var a: nat, b: nat :| a <= b <= |s| && t == s[a..b] && AllSpace(s[..a]) && AllSpace(s[b..]);
    if t == "" {
      NothingBetween(s, a);
      StripIsEmpty(s);
    } else {
      assert s[a] == t[0] && s[b - 1] == t[|t| - 1];
      StripOfSpan(s, a, b);
    }
  }

  lemma {:induction false} NothingBetween(s: string, a: nat)
    requires a <= |s| && AllSpace(s[..a]) && AllSpace(s[a..])
    ensures AllSpace(s)
  {
    forall k | 0 <= k < |s|
      ensures IsSpace(s[k])
    {
      assert s[k] == if k < a then s[..a][k] else s[a..][k - a];
    }
  }

  lemma {:induction false} StripOfSpan(s: string, a: nat, b: nat)
    requires a < b <= |s| && AllSpace(s[..a]) && AllSpace(s[b..])
    requires !IsSpace(s[a]) && !IsSpace(s[b - 1])
    ensures Strip(s) == s[a..b]
  {
    LStripSkips(s, a);
    var left := s[a..];
    assert left[b - a..] == s[b..] && left[b - a - 1] == s[b - 1];
    RStripSkips(left, b - a);
    assert left[..b - a] == s[a..b];
  }

  lemma {:induction false} StripTrims(s: string)
    ensures TrimsTo(s, Strip(s))
  {
    var left, t := LStrip(s), Strip(s);
    LStripIsSuffix(s);
    RStripIsPrefix(left);
    var a := |s| - |left|;
    var b := a + |t|;
    assert left == s[a..] && t == left[..|t|];
    assert t == s[a..b];
    assert s[b..] == left[|t|..];
    if t != "" {
      assert t[0] == left[0];
    }
  }

  // -- Lists of strings --

  /** Concatenates the strings of `parts`. */
  function Concat(parts: seq<string>): string
  {
    if parts == [] then "" else parts[0] + Concat(parts[1..])
  }

  lemma {:induction false} ConcatAppend(a: seq<string>, b: seq<string>)
    ensures Concat(a + b) == Concat(a) + Concat(b)
  {
    if a == [] {
      assert a + b == b;
    } else {
      assert (a + b)[1..] == a[1..] + b;
      ConcatAppend(a[1..], b);
    }
  }

  lemma {:induction false} ConcatSnoc(a: seq<string>, s: string)
    ensures Concat(a + [s]) == Concat(a) + s
  {
    ConcatAppend(a, [s]);
    assert Concat([s]) == s + Concat([]);
  }

  function Join(separator: string, parts: seq<string>): string
  {
    if parts == [] then ""
    else if |parts| == 1 then parts[0]
    else parts[0] + separator + Join(separator, parts[1..])
  }
}
