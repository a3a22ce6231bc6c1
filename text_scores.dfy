/**
 * The similarity measures of the phrase matcher: edit distance, normalised
 * similarity, case-insensitive containment, common substrings and the
 * weighted match score that combines them.
 */
module TextScores {
  import opened Wrappers
  import opened JsStrings

  function Min(a: int, b: int): int { if a <= b then a else b }
  function Max(a: int, b: int): int { if a >= b then a else b }
  function Abs(a: int): nat { if a < 0 then -a else a }
  function RMin(a: real, b: real): real { if a <= b then a else b }
  function RMax(a: real, b: real): real { if a >= b then a else b }

  /** Edit distance (insertions, deletions, substitutions), by the recurrence
    * the dynamic-programming table fills in: `Lev(a, b)` is cell
    * `dp[|a|][|b|]`. Equal last characters cost nothing; otherwise the
    * cheapest of delete, insert and substitute plus one. */
  function Lev(a: seq<char>, b: seq<char>): (d: nat)
    ensures Abs(|a| - |b|) <= d <= Max(|a|, |b|)
    decreases |a| + |b|
  {
    if |a| == 0 then |b|
    else if |b| == 0 then |a|
    else if a[|a| - 1] == b[|b| - 1] then Lev(a[..|a| - 1], b[..|b| - 1])
    else
      Min(Min(Lev(a[..|a| - 1], b), Lev(a, b[..|b| - 1])), Lev(a[..|a| - 1], b[..|b| - 1])) + 1
  }

  /** Cell (i, j) of the table: the distance between the prefixes of length i and j. */
  function Cell(a: seq<char>, b: seq<char>, i: nat, j: nat): nat
    requires i <= |a| && j <= |b|
  {
    Lev(a[..i], b[..j])
  }

  lemma CellBorders(a: seq<char>, b: seq<char>, i: nat, j: nat)
    requires i <= |a| && j <= |b|
    ensures Cell(a, b, i, 0) == i && Cell(a, b, 0, j) == j
  {
  }

  lemma CellStep(a: seq<char>, b: seq<char>, i: nat, j: nat)
    requires 1 <= i <= |a| && 1 <= j <= |b|
    ensures Cell(a, b, i, j) ==
      if a[i - 1] == b[j - 1] then Cell(a, b, i - 1, j - 1)
      else Min(Min(Cell(a, b, i - 1, j), Cell(a, b, i, j - 1)), Cell(a, b, i - 1, j - 1)) + 1
  {
    assert a[..i][..i - 1] == a[..i - 1];
    assert b[..j][..j - 1] == b[..j - 1];
  }

  /** `levenshteinDistance`: the (|a|+1) x (|b|+1) table, first column and
    * first row initialised, then filled row by row. */
  method LevenshteinDistance(a: seq<char>, b: seq<char>) returns (d: nat)
    ensures d == Lev(a, b)
  {
    var dp := new nat[|a| + 1, |b| + 1];
    var i := 0;
    while i <= |a|
      invariant 0 <= i <= |a| + 1
      invariant forall k :: 0 <= k < i ==> dp[k, 0] == k
    {
      dp[i, 0] := i;
      i := i + 1;
    }
    var j := 0;
    while j <= |b|
      invariant 0 <= j <= |b| + 1
      invariant forall k :: 0 <= k <= |a| ==> dp[k, 0] == k
      invariant forall l :: 0 <= l < j ==> dp[0, l] == l
    {
      CellBorders(a, b, 0, j);
      dp[0, j] := j;
      j := j + 1;
    }
    i := 1;
    while i <= |a|
      invariant 1 <= i <= |a| + 1
      invariant forall k :: 0 <= k <= |a| ==> dp[k, 0] == k
      invariant forall k, l :: 0 <= k < i && 0 <= l <= |b| ==> dp[k, l] == Cell(a, b, k, l)
    {
      CellBorders(a, b, i, 0);
      j := 1;
      while j <= |b|
        invariant 1 <= j <= |b| + 1
        invariant forall k :: 0 <= k <= |a| ==> dp[k, 0] == k
        invariant forall k, l :: 0 <= k < i && 0 <= l <= |b| ==> dp[k, l] == Cell(a, b, k, l)
        invariant forall l :: 0 <= l < j ==> dp[i, l] == Cell(a, b, i, l)
      {
        CellStep(a, b, i, j);
        if a[i - 1] == b[j - 1] {
          dp[i, j] := dp[i - 1, j - 1];
        } else {
          dp[i, j] := Min(Min(dp[i - 1, j], dp[i, j - 1]), dp[i - 1, j - 1]) + 1;
        }
        j := j + 1;
      }
      i := i + 1;
    }
    assert a[..|a|] == a && b[..|b|] == b;
    d := dp[|a|, |b|];
  }

  /** A string is at distance zero from itself. */
  lemma {:induction false} LevSelf(a: seq<char>)
    ensures Lev(a, a) == 0
    decreases |a|
  {
    if |a| > 0 {
      LevSelf(a[..|a| - 1]);
    }
  }

  /** Distance zero only between equal strings. */
  lemma {:induction false} LevZeroOnlyIfEqual(a: seq<char>, b: seq<char>)
    requires Lev(a, b) == 0
    ensures a == b
    decreases |a| + |b|
  {
    if |a| > 0 && |b| > 0 {
      LevZeroOnlyIfEqual(a[..|a| - 1], b[..|b| - 1]);
      assert a == a[..|a| - 1] + [a[|a| - 1]];
      assert b == b[..|b| - 1] + [b[|b| - 1]];
    }
  }

  /** The distance does not depend on the order of its arguments. */
  lemma {:induction false} LevSymmetric(a: seq<char>, b: seq<char>)
    ensures Lev(a, b) == Lev(b, a)
    decreases |a| + |b|
  {
    if |a| > 0 && |b| > 0 {
      LevSymmetric(a[..|a| - 1], b[..|b| - 1]);
      if a[|a| - 1] != b[|b| - 1] {
        LevSymmetric(a[..|a| - 1], b);
        LevSymmetric(a, b[..|b| - 1]);
      }
    }
  }

  /** `calculateSimilarity`: 1 for identical strings, 0 when one side is empty,
    * otherwise one minus the distance over the longer length, clamped at 0. */
  function Similarity(a: seq<char>, b: seq<char>): real
  {
    if a == b then 1.0
    else if |a| == 0 || |b| == 0 then 0.0
    else RMax(0.0, 1.0 - (Lev(a, b) as real) / (Max(|a|, |b|) as real))
  }

  lemma Ratio(d: nat, m: nat)
    requires 0 < d <= m
    ensures 0.0 < (d as real) / (m as real) <= 1.0
  {
  }

  /** For two different non-empty strings the similarity is one minus the
    * distance over the longer length, strictly below 1; the clamp at 0 never
    * changes the value because the distance is at most the longer length. */
  lemma SimilarityOfDifferent(a: seq<char>, b: seq<char>)
    requires a != b && |a| > 0 && |b| > 0
    ensures Similarity(a, b) == 1.0 - (Lev(a, b) as real) / (Max(|a|, |b|) as real)
    ensures 0.0 <= Similarity(a, b) < 1.0
  {
    var d := Lev(a, b);
    if d == 0 {
      LevZeroOnlyIfEqual(a, b);
    }
    Ratio(d, Max(|a|, |b|));
  }

  /** The similarity lies in [0, 1], is 1 exactly for equal strings (two
    * empty ones included) and 0 when exactly one of them is empty. */
  lemma SimilarityRange(a: seq<char>, b: seq<char>)
    ensures 0.0 <= Similarity(a, b) <= 1.0
    ensures Similarity(a, b) == 1.0 <==> a == b
    ensures (|a| == 0) != (|b| == 0) ==> Similarity(a, b) == 0.0
  {
    if a != b && |a| > 0 && |b| > 0 {
      SimilarityOfDifferent(a, b);
    }
  }

  /** `containsSubstring(text, search)`: an empty search never matches;
    * otherwise case-insensitive `includes`. */
  predicate ContainsSubstring(text: seq<char>, search: seq<char>)
  {
    if |search| == 0 then false else Includes(Lower(text), Lower(search))
  }

  /** Containment needs a non-empty search no longer than the text, and every
    * non-empty string contains itself. */
  lemma ContainsSubstringFacts(text: seq<char>, search: seq<char>)
    ensures ContainsSubstring(text, search) ==> 0 < |search| <= |text|
    ensures |search| > 0 ==> ContainsSubstring(search, search)
  {
    if |search| > 0 {
      assert OccursAt(Lower(search), Lower(search), 0);
    }
  }

  /** The window of `a` of length `len` at position i occurs in `b`. */
  predicate WindowIn(a: seq<char>, i: int, len: int, b: seq<char>)
  {
    0 <= i && 0 <= len && i + len <= |a| && Includes(b, a[i..i + len])
  }

  /** Some length-m window of `a` occurs in `b`, both strings being at least m long. */
  predicate CommonSubstring(a: seq<char>, b: seq<char>, m: nat)
  {
    |a| >= m && |b| >= m && exists i | 0 <= i <= |a| - m :: WindowIn(a, i, m, b)
  }

  /** A string containing `s` contains every prefix of `s`. */
  lemma IncludesPrefix(b: seq<char>, s: seq<char>, m: nat)
    requires Includes(b, s) && m <= |s|
    ensures Includes(b, s[..m])
  {
    var k :| 0 <= k <= |b| - |s| && OccursAt(s, b, k);
    assert b[k..k + m] == s[..m];
    assert OccursAt(s[..m], b, k);
  }

  /** `hasCommonSubstring`: windows of `a` from the longest length down to m,
    * stopping at the first one found in `b`. Trying longer windows first
    * adds nothing: the result is whether a window of length exactly m occurs. */
  method HasCommonSubstring(a: seq<char>, b: seq<char>, m: nat) returns (found: bool)
    ensures found == CommonSubstring(a, b, m)
  {
    if |a| < m || |b| < m {
      return false;
    }
    var maxLen := Max(|a|, |b|);
    found := false;
    var len := maxLen;
    ghost var witnessI := 0;
    ghost var witnessLen := 0;
    while len >= m && !found
      invariant m - 1 <= len <= maxLen
      invariant found ==> m <= witnessLen && WindowIn(a, witnessI, witnessLen, b)
      invariant !found ==> forall l, k :: len < l && 0 <= k ==> !WindowIn(a, k, l, b)
      decreases len + 1, if found then 0 else 1
    {
      var i := 0;
      while i <= |a| - len && !found
        invariant 0 <= i
        invariant found ==> m <= witnessLen && WindowIn(a, witnessI, witnessLen, b)
        invariant !found ==> forall l, k :: len < l && 0 <= k ==> !WindowIn(a, k, l, b)
        invariant !found ==> forall k :: 0 <= k < i ==> !WindowIn(a, k, len, b)
        decreases |a| - len - i + 1, if found then 0 else 1
      {
        if Includes(b, a[i..i + len]) {
          assert WindowIn(a, i, len, b);
          found := true;
          witnessI, witnessLen := i, len;
        }
        i := i + 1;
      }
      len := len - 1;
    }
    if found {
      IncludesPrefix(b, a[witnessI..witnessI + witnessLen], m);
      assert a[witnessI..witnessI + witnessLen][..m] == a[witnessI..witnessI + m];
      assert WindowIn(a, witnessI, m, b);
    }
  }

  /** The containment part of the score: up to 0.3 when the candidate
    * contains the input (half the length ratio), 0.1 for a shared
    * two-character substring, otherwise 0. */
  function SubstringBonus(input: seq<char>, candidate: seq<char>): (bonus: real)
    ensures bonus == 0.0 || bonus == 0.1 || 0.0 < bonus <= 0.3
  {
    if ContainsSubstring(candidate, input) then
      ContainsSubstringFacts(candidate, input);
      RMin(0.3, (|input| as real / |candidate| as real) * 0.5)
    else if CommonSubstring(input, candidate, 2) then 0.1
    else 0.0
  }

  /** The length part of the score: a fifth of the relative length difference,
    * capped at 0.2; undefined (NaN in the source) when both strings are empty. */
  function LengthPenalty(input: seq<char>, candidate: seq<char>): real
    requires |input| > 0 || |candidate| > 0
  {
    RMin(0.2, (Abs(|input| - |candidate|) as real / Max(|input|, |candidate|) as real) * 0.2)
  }

  /** `calculateMatchScore`: 0.6 x similarity + bonus - penalty, clamped to
    * [0, 1]. `None` stands for the NaN the source computes when both strings
    * are empty (0 / 0 in the length penalty). */
  function MatchScore(input: seq<char>, candidate: seq<char>): Option<real>
  {
    if |input| == 0 && |candidate| == 0 then None
    else
      var score := Similarity(input, candidate) * 0.6
        + SubstringBonus(input, candidate) - LengthPenalty(input, candidate);
      Some(RMax(0.0, RMin(1.0, score)))
  }

  /** The score is defined whenever one string is non-empty, and then lies in
    * [0, 0.9]: the weights add up to at most 0.6 + 0.3, so the clamp at 1
    * never applies. */
  lemma MatchScoreRange(input: seq<char>, candidate: seq<char>)
    ensures MatchScore(input, candidate).Some? <==> |input| > 0 || |candidate| > 0
    ensures MatchScore(input, candidate).Some? ==>
      0.0 <= MatchScore(input, candidate).value <= 0.9
  {
    if |input| > 0 || |candidate| > 0 {
      var sim := Similarity(input, candidate);
      var bonus := SubstringBonus(input, candidate);
      var penalty := LengthPenalty(input, candidate);
      SimilarityRange(input, candidate);
      ScoreParts(input, candidate);
      assert sim * 0.6 + bonus - penalty <= 0.9;
    }
  }

  /** The score as a total function of two strings. The one undefined case
    * (both strings empty) never reaches the matcher, whose input is never
    * blank; it reads as 0 here. */
  function ScoreOf(input: seq<char>, candidate: seq<char>): real
  {
    match MatchScore(input, candidate)
    case Some(v) => v
    case None => 0.0
  }

  /** Without the clamps: the penalty lies in [0, 0.2] and the bonus in [0, 0.3]. */
  lemma ScoreParts(input: seq<char>, candidate: seq<char>)
    requires |input| > 0 || |candidate| > 0
    ensures 0.0 <= LengthPenalty(input, candidate) <= 0.2
    ensures 0.0 <= SubstringBonus(input, candidate) <= 0.3
    ensures LengthPenalty(input, candidate) == 0.0 <==> |input| == |candidate|
  {
  }

  /** An exact match scores 0.9, not 1. */
  lemma ExactMatchScore(s: seq<char>)
    requires |s| > 0
    ensures MatchScore(s, s) == Some(0.9)
  {
    ContainsSubstringFacts(s, s);
  }

  /** A fixed input: the candidate "你好" for the input "你好呀" scores
    * 0.6 x 2/3 + 0.1 - 1/15 = 13/30. */
  lemma ScoreOfLongerInput()
    ensures MatchScore("你好呀", "你好") == Some(13.0 / 30.0)
  {
    var input := "你好呀";
    var cand := "你好";
    assert input[..2] == cand;
    assert Lev(input, cand) == 1 by {
      LevSelf(cand);
    }
    assert !ContainsSubstring(cand, input);
    assert OccursAt(input[0..2], cand, 0);
    assert WindowIn(input, 0, 2, cand);
  }
}
