/** The section path that the Markdown block parser keeps while it reads headings. */
module SectionPath {

  datatype Heading = Heading(level: nat, title: string) {
    predicate Valid()
    {
      1 <= level <= 6
    }
  }

  predicate AllValid(hs: seq<Heading>)
  {
    forall k :: 0 <= k < |hs| ==> hs[k].Valid()
  }

  /** Python's `path[:n]`, which stops at the end of a shorter list. */
  function Truncate<T>(path: seq<T>, n: nat): (r: seq<T>)
  {
    if n <= |path| then path[..n] else path
  }

  /** One heading seen by the parser: keep the first level - 1 entries, then add the title. */
  function Push(path: seq<string>, h: Heading): seq<string>
    requires h.Valid()
  {
    Truncate(path, h.level - 1) + [h.title]
  }

  /** The parser's path after the first `n` headings of `hs`. */
  function PathAfter(hs: seq<Heading>, n: nat): seq<string>
    requires AllValid(hs) && n <= |hs|
  {
    if n == 0 then [] else Push(PathAfter(hs, n - 1), hs[n - 1])
  }

  lemma {:induction false} PathOfPrefix(hs: seq<Heading>, more: seq<Heading>, n: nat)
    requires AllValid(hs) && AllValid(more) && hs <= more && n <= |hs|
    ensures PathAfter(more, n) == PathAfter(hs, n)
  {
    if n > 0 {
      PathOfPrefix(hs, more, n - 1);
    }
  }

  // -- The reference: the chain of nearest earlier headings of a lower level --

  /** The nearest heading before position `j` whose level is lower than `level`, or -1. */
  function NearestBelow(hs: seq<Heading>, j: nat, level: nat): (p: int)
    requires j <= |hs|
    ensures -1 <= p < j
    ensures 0 <= p ==> hs[p].level < level
    ensures forall k :: p < k < j ==> hs[k].level >= level
  {
    if j == 0 then -1
    else if hs[j - 1].level < level then j - 1
    else NearestBelow(hs, j - 1, level)
  }

  function Parent(hs: seq<Heading>, i: nat): (p: int)
    requires i < |hs|
    ensures -1 <= p < i
  {
    NearestBelow(hs, i, hs[i].level)
  }

  /** The ancestors of heading `i`, outermost first, and heading `i` itself. */
  function Chain(hs: seq<Heading>, i: nat): (c: seq<Heading>)
    requires i < |hs|
    ensures |c| > 0 && c[|c| - 1] == hs[i]
    decreases i
  {
    var p := Parent(hs, i);
    if p < 0 then [hs[i]] else Chain(hs, p) + [hs[i]]
  }

  /** The chain that is open just before heading `i`. */
  function OpenChain(hs: seq<Heading>, i: nat): seq<Heading>
    requires i <= |hs|
  {
    if i == 0 then [] else Chain(hs, i - 1)
  }

  function Titles(c: seq<Heading>): (ts: seq<string>)
    ensures |ts| == |c|
  {
    if c == [] then [] else Titles(c[..|c| - 1]) + [c[|c| - 1].title]
  }

  lemma {:induction false} TitlesOfPrefix(c: seq<Heading>, n: nat)
    requires n <= |c|
    ensures Titles(c[..n]) == Titles(c)[..n]
  {
    if n < |c| {
      TitlesOfPrefix(c[..|c| - 1], n);
      assert c[..|c| - 1][..n] == c[..n];
    } else {
      assert c[..n] == c;
    }
  }

  /** The path a reader expects after the first `n` headings of `hs`. */
  function ExpectedPath(hs: seq<Heading>, n: nat): seq<string>
    requires n <= |hs|
  {
    Titles(OpenChain(hs, n))
  }

  /** Along a chain no level exceeds the last one, and the chain is no longer than that level. */
  lemma {:induction false} ChainDepth(hs: seq<Heading>, i: nat)
    requires i < |hs| && AllValid(hs)
    ensures |Chain(hs, i)| <= hs[i].level
    ensures LowUpTo(Chain(hs, i), |Chain(hs, i)|, hs[i].level + 1)
    decreases i
  {
    var p := Parent(hs, i);
    if p >= 0 {
      ChainDepth(hs, p);
    }
  }

  /** The first d entries of `c` are lower than `level`. */
  ghost predicate LowUpTo(c: seq<Heading>, d: nat, level: nat)
  {
    d <= |c| && forall k :: 0 <= k < d ==> c[k].level < level
  }

  /** Entries d and later of `c` are at `level` or deeper. */
  ghost predicate DeepFrom(c: seq<Heading>, d: nat, level: nat)
  {
    forall k :: d <= k < |c| ==> c[k].level >= level
  }

  /** If the headings after p are all at `level` or deeper and p is not, the chain of m starts with
      the chain of p and continues at `level` or deeper. */
  lemma {:induction false} ChainPassesThrough(hs: seq<Heading>, p: nat, m: nat, level: nat)
    requires p <= m < |hs| && hs[p].level < level
    requires forall k :: p < k <= m ==> hs[k].level >= level
    ensures Chain(hs, p) <= Chain(hs, m)
    ensures DeepFrom(Chain(hs, m), |Chain(hs, p)|, level)
    decreases m
  {
    if m > p {
      var q := Parent(hs, m);
      assert q >= p;
      ChainPassesThrough(hs, p, q, level);
    }
  }

  lemma {:induction false} ChainOfNewRoot(hs: seq<Heading>, m: nat, level: nat)
    requires m < |hs|
    requires forall k :: 0 <= k <= m ==> hs[k].level >= level
    ensures DeepFrom(Chain(hs, m), 0, level)
    decreases m
  {
    var p := Parent(hs, m);
    if p >= 0 {
      ChainOfNewRoot(hs, p, level);
    }
  }

  /** Cutting `open` at depth d leaves the entries lower than `h` and drops the others. */
  ghost predicate CutsAt(open: seq<Heading>, d: nat, h: Heading)
  {
    LowUpTo(open, d, h.level) && d < h.level && DeepFrom(open, d, h.level)
  }

  /** The stack discipline that the parser is meant to follow: the chain of heading i is the open
      chain cut before its first entry that is not lower than i, with i added. */
  lemma {:induction false} ChainStep(hs: seq<Heading>, i: nat) returns (d: nat)
    requires i < |hs| && AllValid(hs)
    ensures CutsAt(OpenChain(hs, i), d, hs[i])
    ensures Chain(hs, i) == OpenChain(hs, i)[..d] + [hs[i]]
  {
    var p := Parent(hs, i);
    if p >= 0 {
      d := ChainStepBelow(hs, p, i);
    } else {
      d := 0;
      if i > 0 {
        ChainOfNewRoot(hs, i - 1, hs[i].level);
      }
    }
  }

  lemma {:induction false} ChainStepBelow(hs: seq<Heading>, p: nat, i: nat) returns (d: nat)
    requires p < i < |hs| && AllValid(hs) && hs[p].level < hs[i].level
    requires forall k :: p < k < i ==> hs[k].level >= hs[i].level
    ensures CutsAt(Chain(hs, i - 1), d, hs[i])
    ensures Chain(hs, p) == Chain(hs, i - 1)[..d]
  {
    var low, open := Chain(hs, p), Chain(hs, i - 1);
    ChainDepth(hs, p);
    ChainPassesThrough(hs, p, i - 1, hs[i].level);
    d := |low|;
    LowPrefix(low, open, hs[p].level + 1, hs[i].level);
  }

  lemma {:induction false} LowPrefix(low: seq<Heading>, open: seq<Heading>, level: nat, higher: nat)
    requires low <= open && level <= higher && LowUpTo(low, |low|, level)
    ensures LowUpTo(open, |low|, higher)
  {
    forall k | 0 <= k < |low|
      ensures open[k].level < higher
    {
      assert open[k] == low[k];
    }
  }

  /** Heading `h` lands at its place below the open chain: each of the first level - 1 entries,
      which are the ones the parser keeps, is lower than `h`. */
  ghost predicate Lands(open: seq<Heading>, h: Heading)
  {
    forall k :: 0 <= k < |open| && k < h.level - 1 ==> open[k].level < h.level
  }

  ghost predicate LandsAt(hs: seq<Heading>, i: nat)
    requires i < |hs|
  {
    Lands(OpenChain(hs, i), hs[i])
  }

  ghost predicate AgreesAt(hs: seq<Heading>, i: nat)
    requires AllValid(hs) && i <= |hs|
  {
    PathAfter(hs, i) == ExpectedPath(hs, i)
  }

  /** Each of the first `n` headings lands at its place. */
  ghost predicate AllLand(hs: seq<Heading>, n: nat)
    requires n <= |hs|
  {
    forall i {:trigger LandsAt(hs, i)} :: 0 <= i < n ==> LandsAt(hs, i)
  }

  /** The parser's path is right after each of the first `n` headings. */
  ghost predicate AlwaysExpected(hs: seq<Heading>, n: nat)
    requires AllValid(hs) && n <= |hs|
  {
    forall i {:trigger AgreesAt(hs, i)} :: 0 <= i <= n ==> AgreesAt(hs, i)
  }

  /** A heading skips a level when its level exceeds the depth of the open chain by more than one. */
  ghost predicate NoSkip(hs: seq<Heading>)
  {
    forall i {:trigger OpenChain(hs, i)} :: 0 <= i < |hs| ==> hs[i].level <= |OpenChain(hs, i)| + 1
  }

  /** The parser's path has at most six entries, no more than the level, and ends in the heading. */
  lemma {:induction false} PathShape(hs: seq<Heading>, n: nat)
    requires AllValid(hs) && 0 < n <= |hs|
    ensures 1 <= |PathAfter(hs, n)| <= hs[n - 1].level <= 6
    ensures PathAfter(hs, n)[|PathAfter(hs, n)| - 1] == hs[n - 1].title
  {
    assert PathAfter(hs, n) == Push(PathAfter(hs, n - 1), hs[n - 1]);
  }

  lemma {:induction false} OneStep(hs: seq<Heading>, i: nat, next: nat)
    requires AllValid(hs) && i < |hs| && next == i + 1
    requires AgreesAt(hs, i)
    ensures AgreesAt(hs, next) <==> LandsAt(hs, i)
  {
    var d := ChainStep(hs, i);
    PushIsCutIff(OpenChain(hs, i), hs[i], d);
  }

  lemma {:induction false} PushIsCutIff(open: seq<Heading>, h: Heading, d: nat)
    requires h.Valid() && CutsAt(open, d, h)
    ensures Push(Titles(open), h) == Titles(open[..d] + [h]) <==> Lands(open, h)
  {
    PushKeeps(open, h);
    TitlesSnoc(open[..d], h);
    LandsIff(open, h, d);
    var kept := Truncate(open, h.level - 1);
    if |kept| == d {
      assert kept == open[..d];
    } else {
      assert |Push(Titles(open), h)| != |Titles(open[..d] + [h])|;
    }
  }

  lemma {:induction false} TitlesSnoc(c: seq<Heading>, h: Heading)
    ensures Titles(c + [h]) == Titles(c) + [h.title]
  {
    assert (c + [h])[..|c|] == c;
  }

  lemma {:induction false} PushKeeps(open: seq<Heading>, h: Heading)
    requires h.Valid()
    ensures Push(Titles(open), h) == Titles(Truncate(open, h.level - 1)) + [h.title]
  {
    if h.level - 1 <= |open| {
      TitlesOfPrefix(open, h.level - 1);
    }
  }

  lemma {:induction false} LandsIff(open: seq<Heading>, h: Heading, d: nat)
    requires CutsAt(open, d, h)
    ensures Lands(open, h) <==> |Truncate(open, h.level - 1)| == d
  {
    if |Truncate(open, h.level - 1)| > d {
      assert open[d].level >= h.level;
    }
  }

  lemma {:induction false} LandingGivesPath(hs: seq<Heading>, n: nat, i: nat)
    requires AllValid(hs) && i <= n <= |hs| && AllLand(hs, n)
    ensures AgreesAt(hs, i)
  {
    if i > 0 {
      var before: nat := i - 1;
      LandingGivesPath(hs, n, before);
      assert LandsAt(hs, before);
      OneStep(hs, before, i);
    }
  }

  /** The exact condition: the parser's path is the chain of nearest lower headings after every
      heading if and only if every heading lands at its place. */
  lemma {:induction false} PathIsChainIffHeadingsLand(hs: seq<Heading>, n: nat)
    requires AllValid(hs) && n <= |hs|
    ensures AlwaysExpected(hs, n) <==> AllLand(hs, n)
  {
    if AllLand(hs, n) {
      forall i | 0 <= i <= n
        ensures AgreesAt(hs, i)
      {
        LandingGivesPath(hs, n, i);
      }
    }
    if AlwaysExpected(hs, n) {
      forall i | 0 <= i < n
        ensures LandsAt(hs, i)
      {
        assert AgreesAt(hs, i) && AgreesAt(hs, i + 1);
        OneStep(hs, i, i + 1);
      }
    }
  }

  /** When no heading skips a level, the parser's path is the chain of nearest lower headings. */
  lemma {:induction false} NoSkipGivesChain(hs: seq<Heading>)
    requires AllValid(hs) && NoSkip(hs)
    ensures AlwaysExpected(hs, |hs|)
  {
    forall i | 0 <= i < |hs|
      ensures LandsAt(hs, i)
    {
      NoSkipDepth(hs, i);
    }
    PathIsChainIffHeadingsLand(hs, |hs|);
  }

  /** Without skips the entry at depth k has level k + 1. */
  lemma {:induction false} NoSkipDepth(hs: seq<Heading>, i: nat)
    requires i <= |hs| && AllValid(hs) && NoSkip(hs)
    ensures LevelsAreDepths(OpenChain(hs, i))
    decreases i
  {
    if i > 0 {
      var open := OpenChain(hs, i - 1);
      assert LevelsAreDepths(open) by {
        NoSkipDepth(hs, i - 1);
      }
      assert hs[i - 1].level <= |open| + 1;
      var d := ChainStep(hs, i - 1);
      DepthAfterStep(open, hs[i - 1], d);
    }
  }

  ghost predicate LevelsAreDepths(c: seq<Heading>)
  {
    forall k :: 0 <= k < |c| ==> c[k].level == k + 1
  }

  lemma {:induction false} DepthAfterStep(open: seq<Heading>, h: Heading, d: nat)
    requires LevelsAreDepths(open) && h.level <= |open| + 1
    requires CutsAt(open, d, h)
    ensures LevelsAreDepths(open[..d] + [h])
  {
    if d < |open| {
      assert open[d].level >= h.level;
    }
  }

  /** A skipped level is not always repaired: after `#`, `###`, `###` the second third-level
      heading is filed under the first one, its sibling. */
  lemma {:induction false} SkippedLevelNestsSibling()
    ensures var hs := [Heading(1, "a"), Heading(3, "b"), Heading(3, "c")];
            PathAfter(hs, 3) == ["a", "b", "c"] && ExpectedPath(hs, 3) == ["a", "c"]
  {
    var hs := [Heading(1, "a"), Heading(3, "b"), Heading(3, "c")];
    assert PathAfter(hs, 1) == ["a"];
    assert PathAfter(hs, 2) == ["a", "b"];
    assert NearestBelow(hs, 1, 3) == 0;
    assert Parent(hs, 2) == 0;
    assert Chain(hs, 0) == [hs[0]];
    assert Chain(hs, 2) == [hs[0], hs[2]];
    TitlesSnoc([hs[0]], hs[2]);
    TitlesSnoc([], hs[0]);
    assert [] + [hs[0]] == [hs[0]] && [hs[0]] + [hs[2]] == [hs[0], hs[2]];
  }
}
