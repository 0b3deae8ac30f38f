/**
 The wildcard matcher of services/llm/policy/policy.go: the one-backtrack loop of MatchWildcard,
 the glob relation its documentation describes, and exactly when the two agree.
 */
module Wildcard {

  /** The documented meaning of a pattern: "p from i on" matches "s from j on". A `*` stands for any
      run of characters, every other character for itself. */
  ghost predicate GlobAt(p: string, i: nat, s: string, j: nat)
    requires i <= |p| && j <= |s|
    decreases |p| - i, 0
  {
    if i == |p| then j == |s|
    else if p[i] == '*' then GlobFrom(p, i + 1, s, j)
    else j < |s| && s[j] == p[i] && GlobAt(p, i + 1, s, j + 1)
  }

  /** "p from i on" matches "s from k on" for some k at or after j. */
  ghost predicate GlobFrom(p: string, i: nat, s: string, j: nat)
    requires i <= |p|
    decreases |p| - i, 1
  {
    exists k | j <= k <= |s| :: GlobAt(p, i, s, k)
  }

  ghost predicate Glob(p: string, s: string) {
    GlobAt(p, 0, s, 0)
  }

  predicate AllStars(t: string) {
    forall i | 0 <= i < |t| :: t[i] == '*'
  }

  predicate StarFree(t: string) {
    '*' !in t
  }

  /** The variables of the loop at its head; star is -1 until a `*` has been taken as a wildcard. */
  predicate LoopState(p: string, s: string, pi: nat, si: nat, star: int, mark: nat) {
    && pi <= |p| && mark <= si <= |s|
    && -1 <= star < pi
    && (star >= 0 ==> p[star] == '*')
  }

  /** What the loop answers from a given state: one case per case of its switch, in its order. */
  function Greedy(p: string, s: string, pi: nat, si: nat, star: int, mark: nat): bool
    requires LoopState(p, s, pi, si, star, mark)
    decreases |s| - mark, |p| - pi
  {
    if si == |s| then AllStars(p[pi..])
    else if pi < |p| && p[pi] == s[si] then Greedy(p, s, pi + 1, si + 1, star, mark)
    else if pi < |p| && p[pi] == '*' then Greedy(p, s, pi + 1, si, pi, si)
    else if star >= 0 then Greedy(p, s, star + 1, mark + 1, star, mark + 1)
    else false
  }

  /** The answer of MatchWildcard, as a function for use in specifications. */
  function Accepts(p: string, s: string): bool {
    Greedy(p, s, 0, 0, -1, 0)
  }

  /** MatchWildcard itself. `steps` counts the iterations of the main loop. */
  method MatchWildcard(pattern: string, s: string) returns (ok: bool, ghost steps: nat)
    ensures ok == Accepts(pattern, s)
    ensures steps < (|s| + 1) * (|pattern| + 1)
  {
    var pi, si := 0, 0;
    var star, mark := -1, 0;
    steps := 0;
    ghost var width := |pattern| + 1;
    while si < |s|
      invariant LoopState(pattern, s, pi, si, star, mark)
      invariant Greedy(pattern, s, pi, si, star, mark) == Accepts(pattern, s)
      invariant steps <= mark * width + pi
      decreases |s| - mark, |pattern| - pi
    {
      ghost var before := mark;
      if pi < |pattern| && pattern[pi] == s[si] {
        pi, si := pi + 1, si + 1;
      } else if pi < |pattern| && pattern[pi] == '*' {
        MulMonotone(mark, si, width);
        star, mark := pi, si;
        pi := pi + 1;
      } else if star >= 0 {
        assert (mark + 1) * width == mark * width + width;
        pi := star + 1;
        mark := mark + 1;
        si := mark;
      } else {
        MulMonotone(mark, |s|, width);
        assert (|s| + 1) * width == |s| * width + width;
        return false, steps;
      }
      steps := steps + 1;
    }
    MulMonotone(mark, |s|, width);
    assert (|s| + 1) * width == |s| * width + width;
    while pi < |pattern| && pattern[pi] == '*'
      invariant pi <= |pattern|
      invariant AllStars(pattern[pi..]) == Accepts(pattern, s)
    {
      assert pattern[pi..] == [pattern[pi]] + pattern[pi + 1..];
      pi := pi + 1;
    }
    if pi < |pattern| {
      assert pattern[pi..][0] != '*';
    }
    ok := pi == |pattern|;
  }

  lemma MulMonotone(a: nat, b: nat, c: nat)
    requires a <= b
    ensures a * c <= b * c
  {
    assert b * c == a * c + (b - a) * c;
  }

  // ----- true implies glob, for every subject -----

  /** The places from which the rest of the pattern may still match: here, or after the last `*`
      has absorbed more. */
  ghost predicate StillPossible(p: string, s: string, pi: nat, si: nat, star: int, mark: nat)
    requires LoopState(p, s, pi, si, star, mark)
  {
    || GlobAt(p, pi, s, si)
    || (star >= 0 && GlobFrom(p, star + 1, s, mark + 1))
  }

  lemma AllStarsMatchesEnd(p: string, pi: nat, s: string)
    requires pi <= |p|
    ensures AllStars(p[pi..]) <==> GlobAt(p, pi, s, |s|)
    decreases |p| - pi
  {
    if pi < |p| {
      AllStarsMatchesEnd(p, pi + 1, s);
      assert p[pi..] == [p[pi]] + p[pi + 1..];
    }
  }

  lemma {:induction false} GreedySound(p: string, s: string, pi: nat, si: nat, star: int, mark: nat)
    requires LoopState(p, s, pi, si, star, mark)
    requires Greedy(p, s, pi, si, star, mark)
    ensures StillPossible(p, s, pi, si, star, mark)
    decreases |s| - mark, |p| - pi
  {
    if si == |s| {
      AllStarsMatchesEnd(p, pi, s);
    } else if pi < |p| && p[pi] == s[si] {
      GreedySound(p, s, pi + 1, si + 1, star, mark);
      if GlobAt(p, pi + 1, s, si + 1) {
        assert GlobAt(p, pi, s, si);
      }
    } else if pi < |p| && p[pi] == '*' {
      GreedySound(p, s, pi + 1, si, pi, si);
      assert GlobAt(p, pi, s, si);
    } else {
      GreedySound(p, s, star + 1, mark + 1, star, mark + 1);
    }
  }

  /** Every subject: what the loop accepts, the glob relation accepts. */
  lemma AcceptsImpliesGlob(p: string, s: string)
    requires Accepts(p, s)
    ensures Glob(p, s)
  {
    GreedySound(p, s, 0, 0, -1, 0);
  }

  // ----- glob implies true, when the subject has no `*` before its last character -----

  predicate StarOnlyLast(s: string) {
    forall i | 0 <= i < |s| - 1 :: s[i] != '*'
  }

  /** What the loop has read since its last wildcard is a literal run of the pattern. */
  ghost predicate LiteralSinceStar(p: string, s: string, pi: nat, si: nat, star: int, mark: nat)
    requires LoopState(p, s, pi, si, star, mark)
  {
    star >= 0 ==>
      && si - mark == pi - star - 1
      && (forall i | star < i < pi :: p[i] == '*' ==> i == pi - 1 && si == |s|)
  }

  /** A literal stretch of the pattern fixes the subject and can be peeled off. */
  lemma {:induction false} PeelLiterals(p: string, i: nat, j: nat, s: string, m: nat)
    requires i <= j <= |p| && m <= |s|
    requires forall k | i <= k < j :: p[k] != '*'
    requires GlobAt(p, i, s, m)
    ensures m + (j - i) <= |s| && s[m..m + (j - i)] == p[i..j] && GlobAt(p, j, s, m + (j - i))
    decreases j - i
  {
    if i < j {
      PeelLiterals(p, i + 1, j, s, m + 1);
      assert p[i..j] == [p[i]] + p[i + 1..j];
      assert s[m..m + (j - i)] == [s[m]] + s[m + 1..m + (j - i)];
    }
  }

  lemma {:induction false} GreedyComplete(p: string, s: string, pi: nat, si: nat, star: int, mark: nat)
    requires LoopState(p, s, pi, si, star, mark)
    requires StarOnlyLast(s)
    requires LiteralSinceStar(p, s, pi, si, star, mark)
    requires StillPossible(p, s, pi, si, star, mark)
    ensures Greedy(p, s, pi, si, star, mark)
    decreases |s| - mark, |p| - pi
  {
    if si == |s| {
      AtEnd(p, s, pi, star, mark);
    } else if pi < |p| && p[pi] == s[si] {
      if p[pi] == '*' && GlobAt(p, pi, s, si) {
        StarAgainstLastStar(p, s, pi);
      }
      GreedyComplete(p, s, pi + 1, si + 1, star, mark);
    } else if pi < |p| && p[pi] == '*' {
      if !GlobAt(p, pi, s, si) {
        var m :| mark < m <= |s| && GlobAt(p, star + 1, s, m);
        PeelLiterals(p, star + 1, pi, s, m);
      }
      assert GlobFrom(p, pi + 1, s, si);
      assert GlobAt(p, pi + 1, s, si) || GlobFrom(p, pi + 1, s, si + 1);
      GreedyComplete(p, s, pi + 1, si, pi, si);
    } else {
      GreedyComplete(p, s, star + 1, mark + 1, star, mark + 1);
    }
  }

  /** At the end of the subject nothing is left to revisit: a later start of the last `*` leaves too
      few characters for the literals already read. */
  lemma AtEnd(p: string, s: string, pi: nat, star: int, mark: nat)
    requires LoopState(p, s, pi, |s|, star, mark)
    requires LiteralSinceStar(p, s, pi, |s|, star, mark)
    requires StillPossible(p, s, pi, |s|, star, mark)
    ensures AllStars(p[pi..])
  {
    AllStarsMatchesEnd(p, pi, s);
    if !GlobAt(p, pi, s, |s|) {
      var m :| mark < m <= |s| && GlobAt(p, star + 1, s, m);
      if star + 1 < pi && p[pi - 1] == '*' {
        PeelLiterals(p, star + 1, pi - 1, s, m);
      } else {
        PeelLiterals(p, star + 1, pi, s, m);
      }
    }
  }

  /** A pattern `*` against a final subject `*`: taking it literally loses nothing. */
  lemma StarAgainstLastStar(p: string, s: string, pi: nat)
    requires pi < |p| && |s| > 0 && p[pi] == '*' && s[|s| - 1] == '*'
    requires GlobAt(p, pi, s, |s| - 1)
    ensures GlobAt(p, pi + 1, s, |s|)
  {
    var k :| |s| - 1 <= k <= |s| && GlobAt(p, pi + 1, s, k);
    if k == |s| - 1 {
      OnlyStarsMatchAStar(p, pi + 1, s);
    }
  }

  lemma {:induction false} OnlyStarsMatchAStar(p: string, i: nat, s: string)
    requires i <= |p| && |s| > 0 && s[|s| - 1] == '*'
    requires GlobAt(p, i, s, |s| - 1)
    ensures GlobAt(p, i, s, |s|)
    decreases |p| - i
  {
    var k :| |s| - 1 <= k <= |s| && GlobAt(p, i + 1, s, k);
    if k == |s| - 1 {
      OnlyStarsMatchAStar(p, i + 1, s);
    }
    assert GlobAt(p, i + 1, s, |s|);
  }

  lemma GlobImpliesAccepts(p: string, s: string)
    requires StarOnlyLast(s)
    requires Glob(p, s)
    ensures Accepts(p, s)
  {
    GreedyComplete(p, s, 0, 0, -1, 0);
  }

  // ----- and only then -----

  /** The loop follows a literal stretch of the pattern in lockstep with the subject. */
  lemma {:induction false} LiteralRun(p: string, s: string, k: nat, n: nat)
    requires k <= n <= |p| && k <= |s| && p[..k] == s[..k]
    requires forall i | k <= i < n :: p[i] != '*'
    ensures Greedy(p, s, k, k, -1, 0) <==>
            n <= |s| && p[..n] == s[..n] && Greedy(p, s, n, n, -1, 0)
    decreases n - k
  {
    if k < n {
      if k < |s| && p[k] == s[k] {
        assert p[..k + 1] == p[..k] + [p[k]] && s[..k + 1] == s[..k] + [s[k]];
        LiteralRun(p, s, k + 1, n);
      } else if k == |s| {
        assert p[k..][0] == p[k];
      } else if n <= |s| {
        assert p[..n][k] == p[k] && s[..n][k] == s[k];
      }
    }
  }

  /** The subject `u*v` against the pattern `u*`, with v non-empty: the loop takes the star of the
      pattern for the star of the subject and is stuck. */
  lemma StarInsideIsMissed(s: string, i: nat)
    requires i < |s| - 1 && s[i] == '*' && forall k | 0 <= k < i :: s[k] != '*'
    ensures Glob(s[..i + 1], s) && !Accepts(s[..i + 1], s)
  {
    var p := s[..i + 1];
    LiteralRun(p, s, 0, i);
    assert !Greedy(p, s, i, i, -1, 0) by {
      assert p[i] == s[i];
      assert !Greedy(p, s, i + 1, i + 1, -1, 0);
    }
    assert GlobAt(p, i + 1, s, |s|);
    assert GlobAt(p, i, s, i);
    CopyMatches(p, 0, s, 0, i);
  }

  /** A stretch of the subject that repeats the pattern is matched by it. */
  lemma {:induction false} CopyMatches(p: string, i: nat, s: string, m: nat, n: nat)
    requires i + n <= |p| && m + n <= |s| && p[i..i + n] == s[m..m + n]
    requires GlobAt(p, i + n, s, m + n)
    ensures GlobAt(p, i, s, m)
    decreases n
  {
    if n > 0 {
      assert p[i] == p[i..i + n][0] == s[m..m + n][0] == s[m];
      assert p[i + 1..i + n] == p[i..i + n][1..] && s[m + 1..m + n] == s[m..m + n][1..];
      CopyMatches(p, i + 1, s, m + 1, n - 1);
    }
  }

  /** For a subject s, the loop computes the glob relation for every pattern if and only if s has no
      `*` before its last character. */
  lemma ExactForSubject(s: string)
    ensures (forall p: string :: Accepts(p, s) <==> Glob(p, s)) <==> StarOnlyLast(s)
  {
    if StarOnlyLast(s) {
      forall p: string
        ensures Accepts(p, s) <==> Glob(p, s)
      {
        if Accepts(p, s) { AcceptsImpliesGlob(p, s); }
        if Glob(p, s) { GlobImpliesAccepts(p, s); }
      }
    } else {
      var i := FirstStar(s);
      StarInsideIsMissed(s, i);
    }
  }

  lemma FirstStar(s: string) returns (i: nat)
    requires !StarFree(s)
    ensures i < |s| && s[i] == '*' && forall k | 0 <= k < i :: s[k] != '*'
  {
    i := 0;
    while s[i] != '*'
      invariant i < |s| && forall k | 0 <= k < i :: s[k] != '*'
      decreases |s| - i
    {
      assert exists j :: 0 <= j < |s| && s[j] == '*';
      i := i + 1;
    }
  }

  /** The smallest failure: `*` stands for any run, yet the loop rejects `*a` against it. */
  lemma StarDoesNotMatchStarA()
    ensures Glob("*", "*a") && !Accepts("*", "*a")
  {
    assert GlobAt("*", 1, "*a", 2);
  }

  /** A pattern without `*` is matched by itself alone, whatever the subject holds. */
  lemma LiteralPattern(p: string, s: string)
    requires StarFree(p)
    ensures Accepts(p, s) <==> p == s
    ensures Glob(p, s) <==> p == s
  {
    LiteralRun(p, s, 0, |p|);
    if |p| <= |s| && p[..|p|] == s[..|p|] {
      assert p == s[..|p|];
      if |p| == |s| { assert s == s[..|p|]; }
    }
    if Glob(p, s) {
      PeelLiterals(p, 0, |p|, s, 0);
      assert s[0..|p|] == s;
    }
    if p == s {
      CopyMatches(p, 0, s, 0, |p|);
    }
  }

  /** For a pattern p, the loop computes the glob relation for every subject if and only if p has
      no `*`. */
  lemma ExactForPattern(p: string)
    ensures (forall s: string :: Accepts(p, s) <==> Glob(p, s)) <==> StarFree(p)
  {
    if StarFree(p) {
      forall s: string
        ensures Accepts(p, s) <==> Glob(p, s)
      {
        LiteralPattern(p, s);
      }
    } else {
      var j := EndOfFirstStars(p);
      var c := if j < |p| && p[j] == 'a' then 'b' else 'a';
      var s := p[..j] + [c] + p[j..];
      Lockstep(p, s, 0, j);
      assert !Accepts(p, s);
      assert s[j + 1..] == p[j..];
      CopyMatches(p, j, s, j + 1, |p| - j);
      assert GlobAt(p, j, s, j + 1);
      assert GlobFrom(p, j, s, j - 1);
      CopyMatches(p, 0, s, 0, j - 1);
    }
  }

  lemma EndOfFirstStars(p: string) returns (j: nat)
    requires !StarFree(p)
    ensures 0 < j <= |p| && p[j - 1] == '*' && (j < |p| ==> p[j] != '*')
  {
    var i := FirstStar(p);
    j := i + 1;
    while j < |p| && p[j] == '*'
      invariant i < j <= |p| && p[j - 1] == '*'
    {
      j := j + 1;
    }
  }

  /** As long as pattern and subject agree, the loop takes every character literally, `*` too. */
  lemma {:induction false} Lockstep(p: string, s: string, k: nat, n: nat)
    requires k <= n <= |p| && n <= |s| && p[..n] == s[..n]
    requires n < |s|
    ensures Greedy(p, s, k, k, -1, 0) == Greedy(p, s, n, n, -1, 0)
    decreases n - k
  {
    if k < n {
      assert p[..n][k] == s[..n][k];
      Lockstep(p, s, k + 1, n);
    }
  }

  /** A final `*` after a literal prefix: the pattern family the bundle compiler emits. The rest of the
      subject may be anything, except that it must not begin with `*` and go on. */
  lemma LiteralThenStar(u: string, s: string)
    requires StarFree(u)
    ensures Accepts(u + "*", s) <==>
            && |u| <= |s| && s[..|u|] == u
            && !(|s| > |u| + 1 && s[|u|] == '*')
  {
    var p := u + "*";
    var n := |u|;
    LiteralRun(p, s, 0, n);
    assert p[..n] == u;
    if n <= |s| && s[..n] == u {
      if n < |s| && s[n] != '*' {
        LastStarAbsorbs(p, s, n);
      }
    }
  }

  lemma {:induction false} LastStarAbsorbs(p: string, s: string, mark: nat)
    requires |p| > 0 && p[|p| - 1] == '*' && mark <= |s|
    ensures Greedy(p, s, |p|, mark, |p| - 1, mark)
    decreases |s| - mark
  {
    if mark < |s| {
      LastStarAbsorbs(p, s, mark + 1);
    }
  }
}
