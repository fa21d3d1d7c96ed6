/** `" ".join(text.split())` and the helpers that cut text to a length. */
module Collapse {
  import opened Text
  import opened Words

  /** The words of `s`, as `str.split` returns them. */
  function SplitWords(s: string): (parts: seq<string>)
    ensures forall i {:trigger IsWord(parts[i])} :: 0 <= i < |parts| ==> IsWord(parts[i])
    ensures parts == [] <==> SkipSpace(s, 0) == |s|
    decreases |s|
  {
    var a := SkipSpace(s, 0);
    if a == |s| then []
    else
      var e := SkipWord(s, a);
      [s[a..e]] + SplitWords(s[e..])
  }

  predicate IsWord(w: string)
  {
    w != "" && forall k {:trigger IsSpace(w[k])} :: 0 <= k < |w| ==> !IsSpace(w[k])
  }

  function Compact(s: string): string
  {
    Join(" ", SplitWords(s))
  }

  /** `s` neither starts nor ends in white space; an empty `s` qualifies. */
  predicate Trimmed(s: string)
  {
    s != "" ==> !IsSpace(s[0]) && !IsSpace(s[|s| - 1])
  }

  lemma {:induction false} JoinOfWords(parts: seq<string>)
    requires forall i {:trigger IsWord(parts[i])} :: 0 <= i < |parts| ==> IsWord(parts[i])
    ensures Trimmed(Join(" ", parts))
    ensures Join(" ", parts) == "" <==> parts == []
  {
    if |parts| > 1 {
      JoinOfWords(parts[1..]);
      var rest := Join(" ", parts[1..]);
      assert Join(" ", parts) == parts[0] + " " + rest;
      assert IsWord(parts[0]);
    } else if |parts| == 1 {
      assert IsWord(parts[0]);
    }
  }

  /** Compacting leaves no white space at the ends, and leaves nothing only of white space. */
  lemma {:induction false} CompactIsTrimmed(s: string)
    ensures Trimmed(Compact(s))
    ensures Compact(s) == "" <==> Strip(s) == ""
  {
    JoinOfWords(SplitWords(s));
    StripIsEmpty(s);
    if SkipSpace(s, 0) < |s| {
      assert !IsSpace(s[SkipSpace(s, 0)]);
    }
  }

  // -- Collapsing keeps the words and nothing else --

  lemma {:induction false} SkipWordOver(w: string, rest: string, k: nat)
    requires IsWord(w) && k <= |w| && (rest == "" || IsSpace(rest[0]))
    ensures SkipWord(w + rest, k) == |w|
    decreases |w| - k
  {
    if k < |w| {
      assert (w + rest)[k] == w[k];
      SkipWordOver(w, rest, k + 1);
    }
  }

  /** A word that ends at white space or at the end is the first part. */
  lemma {:induction false} SplitFirstWord(w: string, rest: string)
    requires IsWord(w) && (rest == "" || IsSpace(rest[0]))
    ensures SplitWords(w + rest) == [w] + SplitWords(rest)
  {
    var s := w + rest;
    SkipWordOver(w, rest, 0);
    assert s[0] == w[0] && SkipSpace(s, 0) == 0;
    assert s[0..|w|] == w && s[|w|..] == rest;
  }

  lemma {:induction false} SkipWordAfterSpace(s: string, k: nat)
    requires k <= |s|
    ensures SkipWord(" " + s, k + 1) == SkipWord(s, k) + 1
    decreases |s| - k
  {
    if k < |s| {
      assert (" " + s)[k + 1] == s[k];
      SkipWordAfterSpace(s, k + 1);
    }
  }

  lemma {:induction false} SplitAfterSpace(rest: string)
    requires rest != "" && !IsSpace(rest[0])
    ensures SplitWords(" " + rest) == SplitWords(rest)
  {
    var s, e := " " + rest, SkipWord(rest, 0);
    SkipWordAfterSpace(rest, 0);
    assert s[0] == ' ' && s[1] == rest[0];
    assert SkipSpace(s, 0) == 1 && SkipSpace(rest, 0) == 0;
    assert s[1..e + 1] == rest[0..e] && s[e + 1..] == rest[e..];
  }

  lemma {:induction false} SplitTwo(w: string, spaced: string, rest: string)
    requires IsWord(w) && rest != "" && !IsSpace(rest[0]) && spaced == " " + rest
    ensures SplitWords(w + spaced) == [w] + SplitWords(rest)
  {
    assert IsSpace(spaced[0]);
    SplitFirstWord(w, spaced);
    SplitAfterSpace(rest);
  }

  lemma {:induction false} JoinUnfolds(parts: seq<string>)
    requires |parts| > 1
    ensures Join(" ", parts) == parts[0] + (" " + Join(" ", parts[1..]))
  {
  }

  lemma {:induction false} SplitOfJoin(parts: seq<string>)
    requires forall i {:trigger IsWord(parts[i])} :: 0 <= i < |parts| ==> IsWord(parts[i])
    ensures SplitWords(Join(" ", parts)) == parts
  {
    if |parts| == 1 {
      assert IsWord(parts[0]);
      SplitFirstWord(parts[0], "");
      assert parts[0] + "" == parts[0];
    } else if |parts| > 1 {
      assert IsWord(parts[0]);
      SplitOfJoin(parts[1..]);
      JoinOfWords(parts[1..]);
      JoinUnfolds(parts);
      SplitTwo(parts[0], " " + Join(" ", parts[1..]), Join(" ", parts[1..]));
    }
  }

  /** What the words of a text are, by its characters: there are none in white space, and otherwise the
      first is the run of visible characters behind leading white space, and the others are the words of
      what follows it. */
  lemma {:induction false} SplitUnfolds(s: string) returns (a: nat, e: nat)
    ensures AllSpace(s) <==> SplitWords(s) == []
    ensures !AllSpace(s) ==>
      && a < e <= |s| && AllSpace(s[..a])
      && (forall k :: a <= k < e ==> !IsSpace(s[k])) && (e < |s| ==> IsSpace(s[e]))
      && SplitWords(s) == [s[a..e]] + SplitWords(s[e..])
  {
    a := SkipSpace(s, 0);
    e := if a < |s| then SkipWord(s, a) else a;
    if a < |s| {
      assert !IsSpace(s[a]);
    }
  }

  /** White space is a single space between two visible characters. */
  predicate OneSpaced(s: string)
  {
    forall k :: 0 <= k < |s| && IsSpace(s[k]) ==>
      s[k] == ' ' && 0 < k < |s| - 1 && !IsSpace(s[k - 1]) && !IsSpace(s[k + 1])
  }

  lemma {:induction false} JoinIsOneSpaced(parts: seq<string>)
    requires forall i {:trigger IsWord(parts[i])} :: 0 <= i < |parts| ==> IsWord(parts[i])
    ensures OneSpaced(Join(" ", parts))
  {
    if |parts| > 1 {
      var w, rest := parts[0], Join(" ", parts[1..]);
      JoinIsOneSpaced(parts[1..]);
      JoinOfWords(parts[1..]);
      var s := Join(" ", parts);
      assert s == w + " " + rest && IsWord(w);
      assert forall k :: 0 <= k < |w| ==> s[k] == w[k] && !IsSpace(s[k]);
      forall k | 0 <= k < |s| && IsSpace(s[k])
        ensures s[k] == ' ' && 0 < k < |s| - 1 && !IsSpace(s[k - 1]) && !IsSpace(s[k + 1])
      {
        assert k >= |w|;
        if k > |w| {
          assert s[k] == rest[k - |w| - 1];
          assert s[k - 1] == rest[k - |w| - 2] && s[k + 1] == rest[k - |w|];
        } else {
          assert s[k - 1] == w[k - 1] && s[k + 1] == rest[0];
        }
      }
    } else if |parts| == 1 {
      assert IsWord(parts[0]);
    }
  }

  /** Collapsing keeps every word in order, leaves single spaces between them and no other white
      space, and has nothing to do the second time. */
  lemma {:induction false} CompactKeepsWords(s: string)
    ensures SplitWords(Compact(s)) == SplitWords(s)
    ensures OneSpaced(Compact(s))
    ensures Compact(Compact(s)) == Compact(s)
  {
    SplitOfJoin(SplitWords(s));
    JoinIsOneSpaced(SplitWords(s));
  }

  lemma {:induction false} WordIsCompact(w: string)
    requires IsWord(w)
    ensures Compact(w) == w
  {
    SplitFirstWord(w, "");
    assert w + "" == w;
  }
}
