/**
 * The phrase index (category and first-character buckets) and the fuzzy
 * matcher that searches it: candidate selection, threshold filtering, the
 * relaxation passes and best-first ordering.
 */
module TextMatcher {
  import opened Wrappers
  import opened JsStrings
  import opened TranslationTypes
  import opened TextScores
  import StableSort

  /** One matcher hit: the phrase, its score and the language that was compared. */
  datatype MatchResult = MatchResult(phrase: Phrase, similarity: real, matchedLang: Language)

  function SimilarityOf(m: MatchResult): real { m.similarity }

  // ---------------------------------------------------------------------
  // Bucket specification

  /** Bucket keys: every phrase has a category; a phrase has a first-character
    * key only when that text is non-empty. */
  function CategoryKeyOf(p: Phrase): Option<PhraseCategory> { Some(p.category) }
  function ZhKeyOf(p: Phrase): Option<char> { if |p.zh| > 0 then Some(p.zh[0]) else None }
  function KoKeyOf(p: Phrase): Option<char> { if |p.ko| > 0 then Some(p.ko[0]) else None }
  function FirstCharKeyOf(lang: Language): Phrase -> Option<char>
  {
    if lang == Zh then ZhKeyOf else KoKeyOf
  }

  /** A bucket, or the empty list for a missing key (`map.get(k) || []`). */
  function Lookup<K(==)>(m: map<K, seq<Phrase>>, k: K): seq<Phrase>
  {
    if k in m then m[k] else []
  }

  /** The map after appending `p` to the bucket of its key, creating the bucket if needed. */
  function Push<K(==)>(m: map<K, seq<Phrase>>, k: Option<K>, p: Phrase): map<K, seq<Phrase>>
  {
    if k.None? then m else m[k.value := Lookup(m, k.value) + [p]]
  }

  /** The buckets after pushing every phrase in order. */
  function Buckets<K(==)>(ps: seq<Phrase>, key: Phrase -> Option<K>): map<K, seq<Phrase>>
  {
    if |ps| == 0 then map[] else Push(Buckets(ps[..|ps| - 1], key), key(ps[|ps| - 1]), ps[|ps| - 1])
  }

  /** The keys in the order their buckets were created (JavaScript `Map` order). */
  function KeyOrder<K(==)>(ps: seq<Phrase>, key: Phrase -> Option<K>): seq<K>
  {
    if |ps| == 0 then []
    else
      var order := KeyOrder(ps[..|ps| - 1], key);
      var k := key(ps[|ps| - 1]);
      if k.Some? && k.value !in order then order + [k.value] else order
  }

  /** The phrases with the given key, in input order. */
  function Matching<K(==)>(ps: seq<Phrase>, key: Phrase -> Option<K>, k: K): seq<Phrase>
  {
    if |ps| == 0 then []
    else
      var rest := Matching(ps[..|ps| - 1], key, k);
      if key(ps[|ps| - 1]) == Some(k) then rest + [ps[|ps| - 1]] else rest
  }

  /** The buckets concatenated in the given key order. */
  function Concat<K(==)>(keys: seq<K>, m: map<K, seq<Phrase>>): seq<Phrase>
  {
    if |keys| == 0 then [] else Concat(keys[..|keys| - 1], m) + Lookup(m, keys[|keys| - 1])
  }

  /** Every phrase in category buckets, categories in order of first appearance. */
  function InIndexOrder(ps: seq<Phrase>): seq<Phrase>
  {
    Concat(KeyOrder(ps, CategoryKeyOf), Buckets(ps, CategoryKeyOf))
  }

  /** One bucket update as `build` writes it: create an empty bucket when the
    * key is new, then append the phrase. */
  method AddToBucket<K>(m: map<K, seq<Phrase>>, k: K, p: Phrase) returns (m': map<K, seq<Phrase>>)
    ensures m' == Push(m, Some(k), p)
  {
    m' := m;
    if k !in m' {
      m' := m'[k := []];
    }
    m' := m'[k := m'[k] + [p]];
  }

  /** Pushing one more phrase: the recurrences unfolded at `ps + [p]`. */
  lemma BucketsSnoc<K>(ps: seq<Phrase>, p: Phrase, key: Phrase -> Option<K>)
    ensures Buckets(ps + [p], key) == Push(Buckets(ps, key), key(p), p)
    ensures KeyOrder(ps + [p], key) ==
      var order := KeyOrder(ps, key);
      if key(p).Some? && key(p).value !in order then order + [key(p).value] else order
  {
    assert (ps + [p])[..|ps|] == ps;
  }

  /** Each bucket holds exactly the phrases with its key, in input order; a key
    * has a bucket iff some phrase has that key, iff it is in the key order. */
  lemma {:induction false} BucketsAreFilters<K>(ps: seq<Phrase>, key: Phrase -> Option<K>, k: K)
    ensures Lookup(Buckets(ps, key), k) == Matching(ps, key, k)
    ensures k in Buckets(ps, key) <==> |Matching(ps, key, k)| > 0
    ensures k in Buckets(ps, key) <==> k in KeyOrder(ps, key)
  {
    if |ps| > 0 {
      BucketsAreFilters(ps[..|ps| - 1], key, k);
    }
  }

  /** A phrase is in its key's bucket iff it is in the input with that key. */
  lemma {:induction false} MatchingMembers<K>(ps: seq<Phrase>, key: Phrase -> Option<K>, k: K, p: Phrase)
    ensures p in Matching(ps, key, k) <==> p in ps && key(p) == Some(k)
  {
    if |ps| > 0 {
      MatchingMembers(ps[..|ps| - 1], key, k, p);
      assert ps == ps[..|ps| - 1] + [ps[|ps| - 1]];
    }
  }

  /** The key order lists each key once. */
  lemma {:induction false} KeyOrderDistinct<K>(ps: seq<Phrase>, key: Phrase -> Option<K>)
    ensures forall i, j :: 0 <= i < j < |KeyOrder(ps, key)| ==> KeyOrder(ps, key)[i] != KeyOrder(ps, key)[j]
  {
    if |ps| > 0 {
      KeyOrderDistinct(ps[..|ps| - 1], key);
    }
  }

  lemma {:induction false} ConcatIgnoresOtherKeys<K>(keys: seq<K>, m: map<K, seq<Phrase>>, k: K, v: seq<Phrase>)
    requires k !in keys
    ensures Concat(keys, m[k := v]) == Concat(keys, m)
  {
    if |keys| > 0 {
      ConcatIgnoresOtherKeys(keys[..|keys| - 1], m, k, v);
    }
  }

  lemma {:induction false} ConcatAppendOne<K>(keys: seq<K>, m: map<K, seq<Phrase>>, k: K, p: Phrase)
    requires forall i, j :: 0 <= i < j < |keys| ==> keys[i] != keys[j]
    requires k in keys
    ensures multiset(Concat(keys, m[k := Lookup(m, k) + [p]])) == multiset(Concat(keys, m)) + multiset{p}
  {
    var init := keys[..|keys| - 1];
    var last := keys[|keys| - 1];
    if last == k {
      assert k !in init;
      ConcatIgnoresOtherKeys(init, m, k, Lookup(m, k) + [p]);
    } else {
      assert k in init;
      ConcatAppendOne(init, m, k, p);
    }
  }

  /** The catalogue read back in index order is a permutation of the phrases
    * that were built: every built entry appears exactly once. */
  lemma {:induction false} InIndexOrderIsPermutation(ps: seq<Phrase>)
    ensures multiset(InIndexOrder(ps)) == multiset(ps)
  {
    if |ps| > 0 {
      var init := ps[..|ps| - 1];
      var p := ps[|ps| - 1];
      InIndexOrderIsPermutation(init);
      var c := p.category;
      var order := KeyOrder(init, CategoryKeyOf);
      var m := Buckets(init, CategoryKeyOf);
      assert ps[..|ps| - 1] == init;
      assert Buckets(ps, CategoryKeyOf) == m[c := Lookup(m, c) + [p]];
      BucketsAreFilters(init, CategoryKeyOf, c);
      if c in order {
        assert KeyOrder(ps, CategoryKeyOf) == order;
        KeyOrderDistinct(init, CategoryKeyOf);
        ConcatAppendOne(order, m, c, p);
      } else {
        assert KeyOrder(ps, CategoryKeyOf) == order + [c];
        assert Lookup(m, c) == [];
        var m' := m[c := [p]];
        assert Lookup(m, c) + [p] == [p];
        assert Buckets(ps, CategoryKeyOf) == m';
        ConcatIgnoresOtherKeys(order, m, c, [p]);
        assert (order + [c])[..|order|] == order;
        assert Concat(order + [c], m') == Concat(order, m') + Lookup(m', c);
        assert InIndexOrder(ps) == Concat(order, m) + [p];
      }
      assert ps == init + [p];
    }
  }

  /** The four index fields as functions of the phrases they were built from. */
  ghost predicate IndexState(ps: seq<Phrase>, order: seq<PhraseCategory>,
    byCategory: map<PhraseCategory, seq<Phrase>>, byZh: map<char, seq<Phrase>>, byKo: map<char, seq<Phrase>>)
  {
    && order == KeyOrder(ps, CategoryKeyOf)
    && byCategory == Buckets(ps, CategoryKeyOf)
    && byZh == Buckets(ps, ZhKeyOf)
    && byKo == Buckets(ps, KoKeyOf)
  }

  /** One iteration of `build` keeps the fields equal to the buckets of the phrases seen so far. */
  lemma IndexStateStep(ps: seq<Phrase>, p: Phrase, order: seq<PhraseCategory>,
    byCategory: map<PhraseCategory, seq<Phrase>>, byZh: map<char, seq<Phrase>>, byKo: map<char, seq<Phrase>>)
    requires IndexState(ps, order, byCategory, byZh, byKo)
    ensures IndexState(ps + [p],
      if p.category in byCategory then order else order + [p.category],
      Push(byCategory, Some(p.category), p), Push(byZh, ZhKeyOf(p), p), Push(byKo, KoKeyOf(p), p))
  {
    BucketsAreFilters(ps, CategoryKeyOf, p.category);
    BucketsSnoc(ps, p, CategoryKeyOf);
    BucketsSnoc(ps, p, ZhKeyOf);
    BucketsSnoc(ps, p, KoKeyOf);
  }

  // ---------------------------------------------------------------------
  // The index object

  /** `PhraseIndex`: buckets by category and by first Chinese and Korean
    * character. `built` is the list of the last `build`, which determines
    * every field. */
  class PhraseIndex {
    var categoryOrder: seq<PhraseCategory>
    var categoryIndex: map<PhraseCategory, seq<Phrase>>
    var zhFirstCharIndex: map<char, seq<Phrase>>
    var koFirstCharIndex: map<char, seq<Phrase>>
    ghost var built: seq<Phrase>

    ghost predicate Valid()
      reads this
    {
      IndexState(built, categoryOrder, categoryIndex, zhFirstCharIndex, koFirstCharIndex)
    }

    constructor()
      ensures Valid() && built == []
    {
      categoryOrder := [];
      categoryIndex := map[];
      zhFirstCharIndex := map[];
      koFirstCharIndex := map[];
      built := [];
    }

    /** `build`: clears the three maps, then pushes each phrase into its
      * category bucket and, when the text is non-empty, into the bucket of
      * its first Chinese and first Korean character. The maps are filled as
      * locals and stored at the end, which nothing can observe in between. The new state depends
      * on `phrases` alone, so building twice from the same list changes
      * nothing. */
    method Build(phrases: seq<Phrase>)
      modifies this
      ensures Valid() && built == phrases
    {
      var order: seq<PhraseCategory> := [];
      var byCategory: map<PhraseCategory, seq<Phrase>> := map[];
      var byZh: map<char, seq<Phrase>> := map[];
      var byKo: map<char, seq<Phrase>> := map[];
      var i := 0;
      while i < |phrases|
        invariant 0 <= i <= |phrases|
        invariant IndexState(phrases[..i], order, byCategory, byZh, byKo)
      {
        var p := phrases[i];
        IndexStateStep(phrases[..i], p, order, byCategory, byZh, byKo);
        if p.category !in byCategory {
          order := order + [p.category];
        }
        byCategory := AddToBucket(byCategory, p.category, p);
        if |p.zh| > 0 {
          byZh := AddToBucket(byZh, p.zh[0], p);
        }
        if |p.ko| > 0 {
          byKo := AddToBucket(byKo, p.ko[0], p);
        }
        assert phrases[..i + 1] == phrases[..i] + [p];
        i := i + 1;
      }
      assert phrases[..|phrases|] == phrases;
      categoryOrder, categoryIndex, zhFirstCharIndex, koFirstCharIndex := order, byCategory, byZh, byKo;
      built := phrases;
    }

    /** `getByCategory`: the built phrases of that category, in build order. */
    function GetByCategory(category: PhraseCategory): (r: seq<Phrase>)
      requires Valid()
      reads this
      ensures r == Matching(built, CategoryKeyOf, category)
    {
      BucketsAreFilters(built, CategoryKeyOf, category);
      Lookup(categoryIndex, category)
    }

    /** `getByZhFirstChar`: the built phrases whose Chinese text starts with `c`. */
    function GetByZhFirstChar(c: char): (r: seq<Phrase>)
      requires Valid()
      reads this
      ensures r == Matching(built, ZhKeyOf, c)
    {
      BucketsAreFilters(built, ZhKeyOf, c);
      Lookup(zhFirstCharIndex, c)
    }

    /** `getByKoFirstChar`: the built phrases whose Korean text starts with `c`. */
    function GetByKoFirstChar(c: char): (r: seq<Phrase>)
      requires Valid()
      reads this
      ensures r == Matching(built, KoKeyOf, c)
    {
      BucketsAreFilters(built, KoKeyOf, c);
      Lookup(koFirstCharIndex, c)
    }

    /** `getAll`: the category buckets concatenated in map order, which is a
      * permutation of the built list. */
    method GetAll() returns (all: seq<Phrase>)
      requires Valid()
      ensures all == InIndexOrder(built)
      ensures multiset(all) == multiset(built)
    {
      all := [];
      var i := 0;
      while i < |categoryOrder|
        invariant 0 <= i <= |categoryOrder|
        invariant all == Concat(categoryOrder[..i], categoryIndex)
      {
        assert categoryOrder[..i + 1][..i] == categoryOrder[..i];
        all := all + Lookup(categoryIndex, categoryOrder[i]);
        i := i + 1;
      }
      assert categoryOrder[..|categoryOrder|] == categoryOrder;
      InIndexOrderIsPermutation(built);
    }
  }

  // ---------------------------------------------------------------------
  // Fuzzy matching specification

  /** The number of relaxation passes still possible from `threshold`:
    * a pass at t > 0.5 retries at 0.8 t, and 10 t then drops by more than 1. */
  function PassMeasure(threshold: real): nat
  {
    if threshold > 0.5 then (threshold * 10.0).Floor else 0
  }

  lemma PassMeasureDecreases(threshold: real)
    requires threshold > 0.5
    ensures PassMeasure(threshold * 0.8) < PassMeasure(threshold)
  {
    var x := threshold * 10.0;
    var y := threshold * 0.8 * 10.0;
    assert y <= x - 1.0;
    assert (y.Floor as real) <= y;
    assert x < (x.Floor as real) + 1.0;
  }

  /** The threshold of the last pass from `threshold`: 0.8 gives 0.4096 and
    * 0.7 gives 0.448. */
  function LowestPass(threshold: real): real
    decreases PassMeasure(threshold)
  {
    if threshold > 0.5 then
      PassMeasureDecreases(threshold);
      LowestPass(threshold * 0.8)
    else threshold
  }

  lemma {:induction false} LowestPassBounds(threshold: real)
    ensures LowestPass(threshold) <= threshold
    ensures threshold > 0.5 ==> LowestPass(threshold) > 0.4
    decreases PassMeasure(threshold)
  {
    if threshold > 0.5 {
      PassMeasureDecreases(threshold);
      LowestPassBounds(threshold * 0.8);
    }
  }

  lemma DefaultPassFloors()
    ensures LowestPass(0.8) == 0.4096
    ensures LowestPass(0.7) == 0.448
  {
    PassMeasureDecreases(0.8);
    PassMeasureDecreases(0.64);
    PassMeasureDecreases(0.512);
    PassMeasureDecreases(0.7);
    PassMeasureDecreases(0.56);
  }

  /** Scores every phrase lies in [0, 0.9]; `ScoreOf` is one such scorer. */
  ghost predicate ScoreBounded(score: (Text, Text) -> real)
  {
    forall input, candidate :: 0.0 <= score(input, candidate) <= 0.9
  }

  lemma ScoreOfBounded()
    ensures ScoreBounded(ScoreOf)
  {
    forall input, candidate
      ensures 0.0 <= ScoreOf(input, candidate) <= 0.9
    {
      MatchScoreRange(input, candidate);
    }
  }

  /** Every candidate paired with its score against the input. */
  function Scored(candidates: seq<Phrase>, input: Text, lang: Language, score: (Text, Text) -> real): (r: seq<MatchResult>)
    ensures |r| == |candidates|
  {
    if |candidates| == 0 then []
    else
      var p := candidates[|candidates| - 1];
      Scored(candidates[..|candidates| - 1], input, lang, score) + [MatchResult(p, score(input, TextIn(p, lang)), lang)]
  }

  /** The candidates for an input: the first-character bucket, or every
    * phrase in index order when that bucket has fewer than five entries. */
  function Candidates(ps: seq<Phrase>, input: Text, lang: Language): seq<Phrase>
    requires |input| > 0
  {
    var bucket := Matching(ps, FirstCharKeyOf(lang), input[0]);
    if |bucket| < 5 then InIndexOrder(ps) else bucket
  }

  /** The passes of `fuzzyMatch` over the scored candidates: keep those
    * reaching the threshold; when none does and the threshold is above 0.5,
    * retry at 0.8 x threshold; otherwise the best kept one, by a stable sort. */
  function Passes(scored: seq<MatchResult>, threshold: real): Option<MatchResult>
    decreases PassMeasure(threshold)
  {
    var matches := StableSort.AtLeast(scored, SimilarityOf, threshold);
    if |matches| == 0 && threshold > 0.5 then
      PassMeasureDecreases(threshold);
      Passes(scored, threshold * 0.8)
    else if |matches| > 0 then Some(StableSort.SortDesc(matches, SimilarityOf)[0])
    else None
  }

  /** The passes of `fuzzyMatch` for a trimmed, non-empty input over the
    * built phrases `ps`. */
  function FuzzyPasses(input: Text, lang: Language, threshold: real, ps: seq<Phrase>, score: (Text, Text) -> real): Option<MatchResult>
    requires |input| > 0
  {
    Passes(Scored(Candidates(ps, input, lang), input, lang, score), threshold)
  }

  /** `fuzzyMatch(input, lang, threshold)` over the built phrases `ps`. */
  function Fuzzy(ps: seq<Phrase>, input: Text, lang: Language, threshold: real, score: (Text, Text) -> real): Option<MatchResult>
  {
    if IsBlank(input) then None else FuzzyPasses(Trim(input), lang, threshold, ps, score)
  }

  /** What the passes amount to: the earliest best-scoring candidate, provided
    * its score reaches the threshold of the last pass; otherwise nothing. */
  lemma {:induction false} PassesIsBestCandidate(scored: seq<MatchResult>, threshold: real)
    ensures Passes(scored, threshold) ==
      if |scored| > 0 && StableSort.FirstMax(scored, SimilarityOf).similarity >= LowestPass(threshold)
      then Some(StableSort.FirstMax(scored, SimilarityOf))
      else None
    decreases PassMeasure(threshold)
  {
    var matches := StableSort.AtLeast(scored, SimilarityOf, threshold);
    LowestPassBounds(threshold);
    if |scored| > 0 && StableSort.FirstMax(scored, SimilarityOf).similarity >= threshold {
      StableSort.FirstMaxOfAtLeast(scored, SimilarityOf, threshold);
      StableSort.SortDescHeadIsFirstMax(matches, SimilarityOf);
    } else {
      if |scored| > 0 {
        StableSort.FirstMaxIsMaximal(scored, SimilarityOf);
      }
      StableSort.AtLeastEmpty(scored, SimilarityOf, threshold);
      if threshold > 0.5 {
        PassMeasureDecreases(threshold);
        PassesIsBestCandidate(scored, threshold * 0.8);
      }
    }
  }

  lemma {:induction false} ScoredFacts(candidates: seq<Phrase>, input: Text, lang: Language, score: (Text, Text) -> real)
    requires ScoreBounded(score)
    ensures forall m :: m in Scored(candidates, input, lang, score) ==>
      && m.phrase in candidates && m.matchedLang == lang && 0.0 <= m.similarity <= 0.9
      && m.similarity == score(input, TextIn(m.phrase, lang))
  {
    if |candidates| > 0 {
      var p := candidates[|candidates| - 1];
      ScoredFacts(candidates[..|candidates| - 1], input, lang, score);
      assert forall q :: q in candidates[..|candidates| - 1] ==> q in candidates;
    }
  }

  lemma CandidatesFromIndex(ps: seq<Phrase>, input: Text, lang: Language)
    requires |input| > 0
    ensures forall p :: p in Candidates(ps, input, lang) ==> p in ps
  {
    InIndexOrderIsPermutation(ps);
    forall p | p in Candidates(ps, input, lang)
      ensures p in ps
    {
      MatchingMembers(ps, FirstCharKeyOf(lang), input[0], p);
      assert p in multiset(InIndexOrder(ps)) ==> p in multiset(ps);
    }
  }

  /** A hit of the passes is a catalog phrase compared in the source
    * language, scores at least the last pass's threshold and at most 0.9,
    * and no candidate scores higher. */
  lemma PassesResultFacts(input: Text, lang: Language, threshold: real, ps: seq<Phrase>, score: (Text, Text) -> real)
    requires ScoreBounded(score)
    requires |input| > 0 && FuzzyPasses(input, lang, threshold, ps, score).Some?
    ensures var m := FuzzyPasses(input, lang, threshold, ps, score).value;
      var scored := Scored(Candidates(ps, input, lang), input, lang, score);
      && m.phrase in ps && m.matchedLang == lang
      && LowestPass(threshold) <= m.similarity <= 0.9
      && (forall i :: 0 <= i < |scored| ==> scored[i].similarity <= m.similarity)
  {
    var scored := Scored(Candidates(ps, input, lang), input, lang, score);
    PassesIsBestCandidate(scored, threshold);
    StableSort.FirstMaxIsMaximal(scored, SimilarityOf);
    ScoredFacts(Candidates(ps, input, lang), input, lang, score);
    CandidatesFromIndex(ps, input, lang);
  }

  /** `fuzzyMatch` gives nothing for blank input; a result is a phrase of the
    * index scoring between the last pass's threshold and 0.9. */
  lemma FuzzyResultFacts(ps: seq<Phrase>, input: Text, lang: Language, threshold: real, score: (Text, Text) -> real)
    requires ScoreBounded(score)
    ensures IsBlank(input) ==> Fuzzy(ps, input, lang, threshold, score).None?
    ensures Fuzzy(ps, input, lang, threshold, score).Some? ==>
      var m := Fuzzy(ps, input, lang, threshold, score).value;
      m.phrase in ps && m.matchedLang == lang && LowestPass(threshold) <= m.similarity <= 0.9
  {
    if !IsBlank(input) && Fuzzy(ps, input, lang, threshold, score).Some? {
      PassesResultFacts(Trim(input), lang, threshold, ps, score);
    }
  }

  /** `findSimilarPhrases` over the built phrases: every phrase scoring above
    * 0.3, best first, cut by `slice(0, limit)`. */
  function Similar(ps: seq<Phrase>, input: Text, lang: Language, limit: int, score: (Text, Text) -> real): seq<MatchResult>
  {
    if IsBlank(input) then []
    else
      var t := Trim(input);
      var matches := StableSort.Above(Scored(InIndexOrder(ps), t, lang, score), SimilarityOf, 0.3);
      Slice(StableSort.SortDesc(matches, SimilarityOf), 0, limit)
  }

  /** A prefix cut of a sorted list is sorted, has at most `limit` elements
    * when the limit is non-negative, and keeps only elements of the list. */
  lemma SortedPrefixCut<T>(s: seq<T>, key: T -> real, limit: int)
    requires StableSort.SortedDesc(s, key)
    ensures StableSort.SortedDesc(Slice(s, 0, limit), key)
    ensures limit >= 0 ==> |Slice(s, 0, limit)| <= limit
    ensures forall x :: x in Slice(s, 0, limit) ==> x in s
  {
    var b := RelativeIndex(limit, |s|);
    if 0 < b {
      assert Slice(s, 0, limit) == s[..b];
      assert forall x :: x in s[..b] ==> x in s;
    }
  }

  /** At most `limit` results (for a non-negative limit), all scoring above
    * 0.3, in descending order of score, each a phrase of the index. */
  lemma SimilarFacts(ps: seq<Phrase>, input: Text, lang: Language, limit: int, score: (Text, Text) -> real)
    requires ScoreBounded(score)
    ensures limit >= 0 ==> |Similar(ps, input, lang, limit, score)| <= limit
    ensures StableSort.SortedDesc(Similar(ps, input, lang, limit, score), SimilarityOf)
    ensures forall m :: m in Similar(ps, input, lang, limit, score) ==>
      m.similarity > 0.3 && m.phrase in ps && m.matchedLang == lang
  {
    if !IsBlank(input) {
      var t := Trim(input);
      var scored := Scored(InIndexOrder(ps), t, lang, score);
      var matches := StableSort.Above(scored, SimilarityOf, 0.3);
      var sorted := StableSort.SortDesc(matches, SimilarityOf);
      StableSort.SortDescIsSorted(matches, SimilarityOf);
      SortedPrefixCut(sorted, SimilarityOf, limit);
      forall m | m in Similar(ps, input, lang, limit, score)
        ensures m.similarity > 0.3 && m.phrase in ps && m.matchedLang == lang
      {
        StableSort.SortDescIsPermutation(matches, SimilarityOf);
        assert m in multiset(matches);
        StableSort.AboveBounded(scored, SimilarityOf, 0.3);
        ScoredFacts(InIndexOrder(ps), t, lang, score);
        InIndexOrderIsPermutation(ps);
        assert m.phrase in multiset(InIndexOrder(ps));
      }
    }
  }

  /** Every candidate of `findSimilarPhrases` scoring above 0.3, in index order. */
  function AboveCutoff(ps: seq<Phrase>, input: Text, lang: Language, score: (Text, Text) -> real): seq<MatchResult>
  {
    StableSort.Above(Scored(InIndexOrder(ps), Trim(input), lang, score), SimilarityOf, 0.3)
  }

  /** The other half of `findSimilarPhrases`: blank input finds nothing;
    * otherwise the result holds the first `limit` of the candidates above
    * 0.3 (all of them when the limit is at least their number, and, for a
    * negative limit, all but the last -limit), and no candidate above 0.3
    * that is left out scores higher than any result. */
  lemma SimilarKeepsTop(ps: seq<Phrase>, input: Text, lang: Language, limit: int, score: (Text, Text) -> real)
    ensures IsBlank(input) ==> Similar(ps, input, lang, limit, score) == []
    ensures !IsBlank(input) ==>
      var r := Similar(ps, input, lang, limit, score);
      var all := AboveCutoff(ps, input, lang, score);
      && (limit >= 0 ==> |r| == if limit < |all| then limit else |all|)
      && (limit < 0 ==> |r| == if |all| + limit < 0 then 0 else |all| + limit)
      && multiset(r) <= multiset(all)
      && (limit >= |all| ==> multiset(r) == multiset(all))
      && forall i, y :: 0 <= i < |r| && y in multiset(all) - multiset(r) ==> y.similarity <= r[i].similarity
  {
    if !IsBlank(input) {
      var all := AboveCutoff(ps, input, lang, score);
      var r := Similar(ps, input, lang, limit, score);
      SimilarIsSlice(ps, input, lang, limit, score);
      SlicedTop(all, SimilarityOf, limit);
      forall i, y: MatchResult | 0 <= i < |r| && y in multiset(all) - multiset(r)
        ensures y.similarity <= r[i].similarity
      {
        assert SimilarityOf(y) <= SimilarityOf(r[i]);
      }
    }
  }

  lemma SimilarIsSlice(ps: seq<Phrase>, input: Text, lang: Language, limit: int, score: (Text, Text) -> real)
    requires !IsBlank(input)
    ensures Similar(ps, input, lang, limit, score) == Slice(StableSort.SortDesc(AboveCutoff(ps, input, lang, score), SimilarityOf), 0, limit)
  {
  }

  /** `slice(0, limit)` of a sorted copy keeps its first elements. */
  lemma SlicedTop<T>(all: seq<T>, key: T -> real, limit: int)
    ensures var r := Slice(StableSort.SortDesc(all, key), 0, limit);
      && (limit >= 0 ==> |r| == if limit < |all| then limit else |all|)
      && (limit < 0 ==> |r| == if |all| + limit < 0 then 0 else |all| + limit)
      && multiset(r) <= multiset(all)
      && (limit >= |all| ==> multiset(r) == multiset(all))
      && forall i, y :: 0 <= i < |r| && y in multiset(all) - multiset(r) ==> key(y) <= key(r[i])
  {
    var sorted := StableSort.SortDesc(all, key);
    var b := RelativeIndex(limit, |all|);
    assert Slice(sorted, 0, limit) == sorted[..b];
    StableSort.SortDescTop(all, key, b);
  }

  /** The loop of one `fuzzyMatch` pass: scores every candidate and keeps
    * those reaching the threshold. */
  method CollectMatches(candidates: seq<Phrase>, input: Text, lang: Language, threshold: real, score: (Text, Text) -> real)
    returns (matches: seq<MatchResult>)
    requires |input| > 0
    ensures matches == StableSort.AtLeast(Scored(candidates, input, lang, score), SimilarityOf, threshold)
  {
    matches := [];
    var i := 0;
    while i < |candidates|
      invariant 0 <= i <= |candidates|
      invariant matches == StableSort.AtLeast(Scored(candidates[..i], input, lang, score), SimilarityOf, threshold)
    {
      var phrase := candidates[i];
      var value := score(input, TextIn(phrase, lang));
      assert candidates[..i + 1][..i] == candidates[..i];
      if value >= threshold {
        matches := matches + [MatchResult(phrase, value, lang)];
      }
      i := i + 1;
    }
    assert candidates[..|candidates|] == candidates;
  }

  /** The loop of `findSimilarPhrases`: keeps the candidates scoring above 0.3. */
  method CollectAbove(candidates: seq<Phrase>, input: Text, lang: Language, score: (Text, Text) -> real)
    returns (matches: seq<MatchResult>)
    requires |input| > 0
    ensures matches == StableSort.Above(Scored(candidates, input, lang, score), SimilarityOf, 0.3)
  {
    matches := [];
    var i := 0;
    while i < |candidates|
      invariant 0 <= i <= |candidates|
      invariant matches == StableSort.Above(Scored(candidates[..i], input, lang, score), SimilarityOf, 0.3)
    {
      var phrase := candidates[i];
      var value := score(input, TextIn(phrase, lang));
      assert candidates[..i + 1][..i] == candidates[..i];
      if value > 0.3 {
        matches := matches + [MatchResult(phrase, value, lang)];
      }
      i := i + 1;
    }
    assert candidates[..|candidates|] == candidates;
  }

  /** Candidate selection of `fuzzyMatch`: the first-character bucket of the
    * source language, or `getAll()` when it has fewer than five phrases. */
  method SelectCandidates(index: PhraseIndex, input: Text, lang: Language) returns (candidates: seq<Phrase>)
    requires index.Valid() && |input| > 0
    ensures candidates == Candidates(index.built, input, lang)
  {
    if lang == Zh {
      candidates := index.GetByZhFirstChar(input[0]);
    } else {
      candidates := index.GetByKoFirstChar(input[0]);
    }
    if |candidates| < 5 {
      candidates := index.GetAll();
    }
  }

  // ---------------------------------------------------------------------
  // The module-level index and the matching entry points

  /** The module's global `phraseIndex`, created on first use. */
  class Matcher {
    var phraseIndex: PhraseIndex?
    /** The scoring function, `calculateMatchScore`; the matching loops are
      * proved for any scorer. */
    const score: (Text, Text) -> real

    ghost predicate Valid()
      reads this, phraseIndex
    {
      phraseIndex != null ==> phraseIndex.Valid()
    }

    /** The phrases the current index was built from; none before creation. */
    ghost function Built(): seq<Phrase>
      reads this, phraseIndex
    {
      if phraseIndex == null then [] else phraseIndex.built
    }

    constructor()
      ensures Valid() && phraseIndex == null && score == ScoreOf
    {
      phraseIndex := null;
      score := ScoreOf;
    }

    /** `getPhraseIndex`: the existing index, or a new empty one. */
    method GetPhraseIndex() returns (index: PhraseIndex)
      requires Valid()
      modifies this
      ensures Valid() && index == phraseIndex && Built() == old(Built())
      ensures old(phraseIndex) != null ==> index == old(phraseIndex)
      ensures old(phraseIndex) == null ==> fresh(index)
    {
      if phraseIndex == null {
        phraseIndex := new PhraseIndex();
      }
      index := phraseIndex;
    }

    /** `initPhraseIndex`: builds the (possibly new) index from `phrases`. */
    method InitPhraseIndex(phrases: seq<Phrase>)
      requires Valid()
      modifies this, phraseIndex
      ensures Valid() && phraseIndex != null && Built() == phrases
      ensures old(phraseIndex) != null ==> phraseIndex == old(phraseIndex)
      ensures old(phraseIndex) == null ==> fresh(phraseIndex)
    {
      var index := GetPhraseIndex();
      index.Build(phrases);
    }

    /** `clearPhraseIndex`: forgets the index. */
    method ClearPhraseIndex()
      modifies this
      ensures Valid() && phraseIndex == null && Built() == []
    {
      phraseIndex := null;
    }

    /** `fuzzyMatch`: blank input gives nothing; otherwise candidates are
      * scored against the trimmed input, those reaching the threshold are
      * kept, an empty pass above 0.5 retries at 0.8 x threshold, and the
      * best score wins, ties going to the earliest candidate. */
    method FuzzyMatch(input: Text, lang: Language, threshold: real) returns (r: Option<MatchResult>)
      requires Valid()
      modifies this
      ensures Valid() && Built() == old(Built())
      ensures old(phraseIndex) != null ==> phraseIndex == old(phraseIndex)
      ensures IsBlank(input) ==> phraseIndex == old(phraseIndex)
      ensures phraseIndex == old(phraseIndex) || fresh(phraseIndex)
      ensures r == Fuzzy(Built(), input, lang, threshold, score)
      decreases PassMeasure(threshold)
    {
      if IsBlank(input) {
        return None;
      }
      var trimmed := Trim(input);
      var index := GetPhraseIndex();
      var candidates := SelectCandidates(index, trimmed, lang);
      var matches := CollectMatches(candidates, trimmed, lang, threshold, score);
      if |matches| == 0 && threshold > 0.5 {
        PassMeasureDecreases(threshold);
        r := FuzzyMatch(input, lang, threshold * 0.8);
        return;
      }
      if |matches| > 0 {
        var best := StableSort.SortDesc(matches, SimilarityOf)[0];
        return Some(MatchResult(best.phrase, best.similarity, best.matchedLang));
      }
      return None;
    }

    /** `batchFuzzyMatch`: `fuzzyMatch` on each input, in order. */
    method BatchFuzzyMatch(inputs: seq<Text>, lang: Language, threshold: real) returns (rs: seq<Option<MatchResult>>)
      requires Valid()
      modifies this
      ensures Valid() && Built() == old(Built())
      ensures old(phraseIndex) != null ==> phraseIndex == old(phraseIndex)
      ensures |rs| == |inputs|
      ensures forall k :: 0 <= k < |inputs| ==> rs[k] == Fuzzy(Built(), inputs[k], lang, threshold, score)
    {
      ghost var ps := Built();
      rs := [];
      var i := 0;
      while i < |inputs|
        invariant 0 <= i <= |inputs|
        invariant Valid() && Built() == ps
        invariant old(phraseIndex) != null ==> phraseIndex == old(phraseIndex)
        invariant |rs| == i
        invariant forall k :: 0 <= k < i ==> rs[k] == Fuzzy(ps, inputs[k], lang, threshold, score)
      {
        var r := FuzzyMatch(inputs[i], lang, threshold);
        assert r == Fuzzy(ps, inputs[i], lang, threshold, score);
        ghost var prev := rs;
        rs := rs + [r];
        assert forall k :: 0 <= k < i ==> rs[k] == prev[k];
        i := i + 1;
      }
    }

    /** `findSimilarPhrases`: every phrase of the index scoring above 0.3 against
      * the trimmed input, best first, at most `limit` of them. */
    method FindSimilarPhrases(input: Text, lang: Language, limit: int) returns (r: seq<MatchResult>)
      requires Valid()
      modifies this
      ensures Valid() && Built() == old(Built())
      ensures old(phraseIndex) != null ==> phraseIndex == old(phraseIndex)
      ensures r == Similar(Built(), input, lang, limit, score)
    {
      if IsBlank(input) {
        return [];
      }
      var trimmed := Trim(input);
      var index := GetPhraseIndex();
      var candidates := index.GetAll();
      var matches := CollectAbove(candidates, trimmed, lang, score);
      r := Slice(StableSort.SortDesc(matches, SimilarityOf), 0, limit);
    }
  }
}
