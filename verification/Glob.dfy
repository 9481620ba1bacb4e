/** The wildcard matcher of VSS filespecs: `*` is any run of characters, `?` any one. */
module Glob {
  import opened Wrappers

  /** What matching means. */
  predicate Matches(pat: string, text: string)
    decreases |pat| + |text|
  {
    if pat == [] then text == []
    else if pat[0] == '*' then Matches(pat[1..], text) || (text != [] && Matches(pat, text[1..]))
    else text != [] && (pat[0] == '?' || pat[0] == text[0]) && Matches(pat[1..], text[1..])
  }

  predicate AllStars(pat: string) {
    forall i :: 0 <= i < |pat| ==> pat[i] == '*'
  }

  /** The matcher's cursors are consistent: the last star lies behind both of them. */
  predicate Cursors(pat: string, text: string, p: nat, t: nat, star: Option<nat>, starT: nat) {
    && p <= |pat| && t <= |text|
    && (star.Some? ==> star.value < p && starT <= t)
  }

  function StarsLeft(pat: string, star: Option<nat>): nat
    requires star.Some? ==> star.value < |pat|
  {
    if star.Some? then |pat| - star.value else |pat| + 1
  }

  /** The greedy matcher from given cursors: one backtrack point, the last star seen. */
  function GlobFrom(pat: string, text: string, p: nat, t: nat, star: Option<nat>, starT: nat): bool
    requires Cursors(pat, text, p, t, star, starT)
    decreases StarsLeft(pat, star), if star.Some? then |text| - starT else 0, |text| - t
  {
    if t == |text| then AllStars(pat[p..])
    else if p < |pat| && (pat[p] == '?' || pat[p] == text[t]) then GlobFrom(pat, text, p + 1, t + 1, star, starT)
    else if p < |pat| && pat[p] == '*' then GlobFrom(pat, text, p + 1, t, Some(p), t)
    else if star.Some? then GlobFrom(pat, text, star.value + 1, starT + 1, star, starT + 1)
    else false
  }

  function Glob(pat: string, text: string): bool {
    GlobFrom(pat, text, 0, 0, None, 0)
  }

  /** The loop: it computes `Glob` on every input, and `Matches` when the text holds no star. */
  method GlobMatch(pat: string, text: string) returns (r: bool)
    ensures r == Glob(pat, text)
    ensures '*' !in text ==> r == Matches(pat, text)
  {
    if '*' !in text { GlobIsMatches(pat, text); }
    var p: nat, t: nat := 0, 0;
    var star: Option<nat>, starT: nat := None, 0;
    while t < |text|
      invariant Cursors(pat, text, p, t, star, starT)
      invariant GlobFrom(pat, text, p, t, star, starT) == Glob(pat, text)
      decreases StarsLeft(pat, star), if star.Some? then |text| - starT else 0, |text| - t
    {
      if p < |pat| && (pat[p] == '?' || pat[p] == text[t]) {
        p, t := p + 1, t + 1;
      } else if p < |pat| && pat[p] == '*' {
        star, starT := Some(p), t;
        p := p + 1;
      } else if star.Some? {
        p := star.value + 1;
        starT := starT + 1;
        t := starT;
      } else {
        return false;
      }
    }
    while p < |pat| && pat[p] == '*'
      invariant p <= |pat| && AllStars(pat[p..]) == Glob(pat, text)
    {
      assert pat[p..] == [pat[p]] + pat[p + 1..];
      p := p + 1;
    }
    assert p < |pat| ==> pat[p..][0] != '*';
    r := p == |pat|;
  }

  // ---------------------------------------------------------------- facts about Matches

  lemma {:induction false} MatchesEmpty(pat: string)
    ensures Matches(pat, "") <==> AllStars(pat)
  {
    if pat != [] {
      MatchesEmpty(pat[1..]);
      assert pat == [pat[0]] + pat[1..];
    }
  }

  /** A leading star absorbs any prefix. */
  lemma {:induction false} StarAbsorbs(pat: string, text: string, k: nat)
    requires pat != [] && pat[0] == '*' && k <= |text| && Matches(pat, text[k..])
    ensures Matches(pat, text)
    decreases k
  {
    if k > 0 {
      assert text[1..][k - 1..] == text[k..];
      StarAbsorbs(pat, text[1..], k - 1);
    } else {
      assert text[0..] == text;
    }
  }

  /** A leading star hands over at some position. */
  lemma {:induction false} StarHandsOver(pat: string, text: string) returns (k: nat)
    requires pat != [] && pat[0] == '*' && Matches(pat, text)
    ensures k <= |text| && Matches(pat[1..], text[k..])
    decreases |text|
  {
    if Matches(pat[1..], text) {
      k := 0;
      assert text[0..] == text;
    } else {
      var rest := StarHandsOver(pat, text[1..]);
      k := rest + 1;
      assert text[1..][rest..] == text[k..];
    }
  }

  /** The first `n` pattern characters are not stars and fit the first `n` of the text. */
  predicate Fits(pat: string, text: string, n: nat) {
    n <= |pat| && n <= |text| && forall i :: 0 <= i < n ==> pat[i] != '*' && (pat[i] == '?' || pat[i] == text[i])
  }

  lemma {:induction false} FittingPrefix(pat: string, text: string, n: nat)
    requires Fits(pat, text, n)
    ensures Matches(pat, text) <==> Matches(pat[n..], text[n..])
    decreases n
  {
    if n == 0 {
      assert pat[0..] == pat && text[0..] == text;
    } else {
      FittingPrefix(pat[1..], text[1..], n - 1);
      assert pat[1..][n - 1..] == pat[n..] && text[1..][n - 1..] == text[n..];
    }
  }

  /** A star-free prefix of a matching pattern fits the front of the text. */
  lemma {:induction false} StarFreePrefixFits(pat: string, text: string, n: nat)
    requires n <= |pat| && (forall i :: 0 <= i < n ==> pat[i] != '*') && Matches(pat, text)
    ensures Fits(pat, text, n)
    decreases n
  {
    if n > 0 {
      StarFreePrefixFits(pat[1..], text[1..], n - 1);
      assert forall i :: 0 < i < n ==> pat[i] == pat[1..][i - 1] && text[i] == text[1..][i - 1];
    }
  }

  // ---------------------------------------------------------------- the greedy matcher is right

  /** Where the current attempt started, in the pattern and in the text. */
  function BaseP(star: Option<nat>): nat { if star.Some? then star.value + 1 else 0 }
  function BaseT(star: Option<nat>, starT: nat): nat { if star.Some? then starT else 0 }

  /** Since its start the attempt consumed no star and fits. */
  predicate Attempt(pat: string, text: string, p: nat, t: nat, star: Option<nat>, starT: nat) {
    && Cursors(pat, text, p, t, star, starT)
    && (star.Some? ==> pat[star.value] == '*')
    && BaseP(star) <= p && BaseT(star, starT) <= t && p - BaseP(star) == t - BaseT(star, starT)
    && Fits(pat[BaseP(star)..], text[BaseT(star, starT)..], p - BaseP(star))
  }

  /** What is left to decide: the rest of the pattern from the last star on. */
  predicate Goal(pat: string, text: string, star: Option<nat>, starT: nat)
    requires star.Some? ==> star.value < |pat| && starT <= |text|
  {
    if star.Some? then Matches(pat[star.value..], text[starT..]) else Matches(pat, text)
  }

  /** The current attempt decides exactly the suffixes at the cursors. */
  lemma AttemptDecides(pat: string, text: string, p: nat, t: nat, star: Option<nat>, starT: nat)
    requires Attempt(pat, text, p, t, star, starT)
    ensures Matches(pat[BaseP(star)..], text[BaseT(star, starT)..]) <==> Matches(pat[p..], text[t..])
  {
    FittingPrefix(pat[BaseP(star)..], text[BaseT(star, starT)..], p - BaseP(star));
    assert pat[BaseP(star)..][p - BaseP(star)..] == pat[p..];
    assert text[BaseT(star, starT)..][t - BaseT(star, starT)..] == text[t..];
  }

  /** If the goal holds at all, some later start of the same attempt works. */
  lemma LaterStart(pat: string, text: string, p: nat, t: nat, star: Option<nat>, starT: nat) returns (k: nat)
    requires Attempt(pat, text, p, t, star, starT) && star.Some? && Goal(pat, text, star, starT)
    ensures t <= k <= |text| && Matches(pat[p..], text[k..])
  {
    var sp := star.value;
    var rest := pat[sp..];
    var j := StarHandsOver(rest, text[starT..]);
    assert rest[1..] == pat[sp + 1..] && text[starT..][j..] == text[starT + j..];
    var n := p - (sp + 1);
    var tail := pat[sp + 1..];
    assert forall i :: 0 <= i < n ==> tail[i] != '*';
    StarFreePrefixFits(tail, text[starT + j..], n);
    FittingPrefix(tail, text[starT + j..], n);
    assert pat[sp + 1..][n..] == pat[p..];
    assert text[starT + j..][n..] == text[starT + j + n..];
    k := starT + j + n;
  }

  lemma GoalByAttempt(pat: string, text: string, p: nat, t: nat, star: Option<nat>, starT: nat)
    requires Attempt(pat, text, p, t, star, starT) && Matches(pat[p..], text[t..])
    ensures Goal(pat, text, star, starT)
  {
    AttemptDecides(pat, text, p, t, star, starT);
    if star.Some? {
      assert pat[star.value..][1..] == pat[star.value + 1..];
    } else {
      assert pat[0..] == pat && text[0..] == text;
    }
  }

  /** Out of text: no later start can work, so the rest of the pattern must be stars. */
  lemma AtEnd(pat: string, text: string, p: nat, star: Option<nat>, starT: nat)
    requires Attempt(pat, text, p, |text|, star, starT)
    ensures AllStars(pat[p..]) <==> Goal(pat, text, star, starT)
  {
    MatchesEmpty(pat[p..]);
    assert text[|text|..] == "";
    if AllStars(pat[p..]) {
      GoalByAttempt(pat, text, p, |text|, star, starT);
    }
    if Goal(pat, text, star, starT) {
      if star.Some? {
        var k := LaterStart(pat, text, p, |text|, star, starT);
      } else {
        AttemptDecides(pat, text, p, |text|, star, starT);
        assert pat[0..] == pat && text[0..] == text;
      }
    }
  }

  /** A new star makes the older one irrelevant: the leftmost attempt is as good as any. */
  lemma AtStar(pat: string, text: string, p: nat, t: nat, star: Option<nat>, starT: nat)
    requires Attempt(pat, text, p, t, star, starT) && p < |pat| && pat[p] == '*'
    ensures Goal(pat, text, Some(p), t) <==> Goal(pat, text, star, starT)
  {
    if Goal(pat, text, Some(p), t) {
      GoalByAttempt(pat, text, p, t, star, starT);
    }
    if Goal(pat, text, star, starT) {
      if star.Some? {
        var k := LaterStart(pat, text, p, t, star, starT);
        assert text[t..][k - t..] == text[k..];
        StarAbsorbs(pat[p..], text[t..], k - t);
      } else {
        AttemptDecides(pat, text, p, t, star, starT);
        assert pat[0..] == pat && text[0..] == text;
      }
    }
  }

  /** A mismatch kills this start, not the later ones. */
  lemma AtMismatch(pat: string, text: string, p: nat, t: nat, star: Option<nat>, starT: nat)
    requires Attempt(pat, text, p, t, star, starT) && t < |text|
    requires p < |pat| ==> pat[p] != '*' && pat[p] != '?' && pat[p] != text[t]
    ensures star.None? ==> !Goal(pat, text, star, starT)
    ensures star.Some? ==> (Goal(pat, text, star, starT + 1) <==> Goal(pat, text, star, starT))
  {
    assert !Matches(pat[p..], text[t..]);
    AttemptDecides(pat, text, p, t, star, starT);
    if star.None? {
      assert pat[0..] == pat && text[0..] == text;
    } else {
      var rest := pat[star.value..];
      assert rest[1..] == pat[star.value + 1..];
      assert text[starT..][1..] == text[starT + 1..];
    }
  }

  /** On star-free text the greedy matcher decides its goal from every consistent position. */
  lemma {:induction false} GlobFromDecides(pat: string, text: string, p: nat, t: nat, star: Option<nat>, starT: nat)
    requires '*' !in text && Attempt(pat, text, p, t, star, starT)
    ensures GlobFrom(pat, text, p, t, star, starT) == Goal(pat, text, star, starT)
    decreases StarsLeft(pat, star), if star.Some? then |text| - starT else 0, |text| - t
  {
    if t == |text| {
      AtEnd(pat, text, p, star, starT);
    } else if p < |pat| && (pat[p] == '?' || pat[p] == text[t]) {
      assert pat[p] != '*';
      GlobFromDecides(pat, text, p + 1, t + 1, star, starT);
    } else if p < |pat| && pat[p] == '*' {
      AtStar(pat, text, p, t, star, starT);
      GlobFromDecides(pat, text, p + 1, t, Some(p), t);
    } else {
      AtMismatch(pat, text, p, t, star, starT);
      if star.Some? { GlobFromDecides(pat, text, star.value + 1, starT + 1, star, starT + 1); }
    }
  }

  /** For every pattern and every text without a star, the greedy matcher is the definition. */
  lemma GlobIsMatches(pat: string, text: string)
    requires '*' !in text
    ensures Glob(pat, text) == Matches(pat, text)
  {
    GlobFromDecides(pat, text, 0, 0, None, 0);
  }

  // ---------------------------------------------------------------- and exactly there

  function Marks(n: nat): (s: string)
    ensures |s| == n && forall i :: 0 <= i < n ==> s[i] == '?'
  {
    seq(n, _ => '?')
  }

  lemma MarksMatch(text: string)
    ensures Matches(Marks(|text|), text)
  {
    FittingPrefix(Marks(|text|), text, |text|);
    assert Marks(|text|)[|text|..] == "" && text[|text|..] == "";
  }

  /** While every character fits, the matcher never reaches its star case. */
  lemma {:induction false} GlobAlongFit(pat: string, text: string, i: nat)
    requires |text| <= |pat| && i <= |text|
    requires forall k :: 0 <= k < |text| ==> pat[k] == '?' || pat[k] == text[k]
    ensures GlobFrom(pat, text, i, i, None, 0) == AllStars(pat[|text|..])
    decreases |text| - i
  {
    if i < |text| { GlobAlongFit(pat, text, i + 1); }
  }

  function StarPattern(text: string, q: nat): (pat: string)
    requires q < |text|
    ensures |pat| == |text| + 1 && pat[q] == '*' && forall i :: 0 <= i < |pat| && i != q ==> pat[i] == '?'
  {
    Marks(q) + "*" + Marks(|text| - q)
  }

  lemma StarPatternMatches(text: string, q: nat)
    requires q < |text|
    ensures Matches(StarPattern(text, q), text)
  {
    var pat := StarPattern(text, q);
    FittingPrefix(pat, text, q);
    assert pat[q..] == "*" + Marks(|text| - q);
    assert pat[q..][1..] == Marks(|text[q..]|);
    MarksMatch(text[q..]);
  }

  /** For a text with a star at `q`: a pattern that matches it and that the matcher rejects. */
  lemma StarInTextFails(text: string, q: nat)
    requires q < |text| && text[q] == '*'
    ensures Matches(StarPattern(text, q), text) && !Glob(StarPattern(text, q), text)
  {
    var pat := StarPattern(text, q);
    StarPatternMatches(text, q);
    GlobAlongFit(pat, text, 0);
    assert pat[|text|..][0] == '?';
  }

  /** The matcher is right about every pattern on a text if and only if the text holds no star. */
  lemma ExactlyStarFreeTexts(text: string)
    ensures (forall pat :: Glob(pat, text) == Matches(pat, text)) <==> '*' !in text
  {
    if '*' !in text {
      forall pat
        ensures Glob(pat, text) == Matches(pat, text)
      {
        GlobIsMatches(pat, text);
      }
    } else {
      var q :| 0 <= q < |text| && text[q] == '*';
      StarInTextFails(text, q);
    }
  }
}
