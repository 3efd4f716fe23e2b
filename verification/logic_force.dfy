/**
 * `LogicForceProcessor`: a table of rules (patterns with a weight and an
 * optional context), the wildcard matcher, and the four components of the
 * logical force computed from the matches found in a text.
 */
module LogicForces {
  import opened Wrappers
  import opened Numeric
  import opened Text
  import opened Collections

  /** `np.pi`. */
  const Pi: real := 3.141592653589793

  /** The `LogicForce` record. */
  datatype LogicForce = LogicForce(magnitude: real, coherence: real, direction: real, uncertainty: real)

  /** The force returned when no rule matches. */
  const NoMatch: LogicForce := LogicForce(0.0, 1.0, 0.0, 1.0)

  /** The `LogicRule` record. */
  datatype LogicRule = LogicRule(patterns: seq<string>, weight: real, context: Option<string>)

  /**
   * The exceptions of the processor: the `ValueError`s, the `RuntimeError`, and
   * the errors of `int(-np.log2(uncertainty))` in the qubit count: an
   * `OverflowError` for uncertainty 0 (the logarithm is infinite) and a
   * `ValueError` for a negative uncertainty (the logarithm is not a number).
   */
  datatype ForceError = WeightOutOfRange | QuantumDisabled | IncompatibleStates | QubitCountOverflow | QubitCountUndefined

  predicate WeightInRange(weight: real)
  {
    0.0 <= weight <= 1.0
  }

  predicate WeightsInRange(rules: map<string, LogicRule>)
  {
    forall id :: id in rules ==> WeightInRange(rules[id].weight)
  }

  // Pattern matching

  predicate EndsWithStar(pattern: string)
  {
    pattern != [] && pattern[|pattern| - 1] == '*'
  }

  /** `pattern[:-1]` of a wildcard pattern. */
  function Stem(pattern: string): string
    requires EndsWithStar(pattern)
  {
    pattern[..|pattern| - 1]
  }

  /** `_pattern_matches`: a trailing `*` matches any continuation; otherwise the word must be the pattern. */
  predicate PatternMatches(pattern: string, word: string)
    ensures word == pattern ==> PatternMatches(pattern, word)
    ensures !EndsWithStar(pattern) ==> (PatternMatches(pattern, word) ==> word == pattern)
    ensures PatternMatches(pattern, word) ==> |pattern| - 1 <= |word|
  {
    if EndsWithStar(pattern) then Stem(pattern) <= word else pattern == word
  }

  /** `stem*` matches exactly the words that start with `stem`; in particular `*` matches every word. */
  lemma WildcardMatches(stem: string, word: string)
    ensures PatternMatches(stem + "*", word) <==> stem <= word
    ensures PatternMatches("*", word)
  {
    assert Stem(stem + "*") == stem;
    assert Stem("*") == [];
  }

  /** `any(self._pattern_matches(pattern, word) for word in words)`. */
  predicate MatchesAny(pattern: string, words: seq<string>)
  {
    exists i :: 0 <= i < |words| && PatternMatches(pattern, words[i])
  }

  /** The patterns of a rule that match some word, in the rule's order. */
  function MatchedPatterns(patterns: seq<string>, words: seq<string>): (matched: seq<string>)
    ensures |matched| <= |patterns|
    ensures forall p :: p in matched <==> p in patterns && MatchesAny(p, words)
    ensures multiset(matched) <= multiset(patterns)
    ensures forall p :: multiset(matched)[p] == if MatchesAny(p, words) then multiset(patterns)[p] else 0
    ensures matched != [] <==> exists p :: p in patterns && MatchesAny(p, words)
  {
    if patterns == [] then []
    else
      var init := patterns[..|patterns| - 1];
      var last := patterns[|patterns| - 1];
      assert patterns == init + [last];
      assert multiset(patterns) == multiset(init) + multiset{last};
      var rest := MatchedPatterns(init, words);
      if MatchesAny(last, words) then rest + [last] else rest
  }

  /** The last pattern is kept, at the end, exactly when it matches some word. */
  lemma MatchedPatternsLast(patterns: seq<string>, words: seq<string>)
    requires patterns != []
    ensures MatchedPatterns(patterns, words) == MatchedPatterns(patterns[..|patterns| - 1], words)
      + if MatchesAny(patterns[|patterns| - 1], words) then [patterns[|patterns| - 1]] else []
  {
  }

  /** Filtering a concatenation filters each part, so the kept patterns keep the rule's order. */
  lemma {:induction false} MatchedPatternsAppend(a: seq<string>, b: seq<string>, words: seq<string>)
    ensures MatchedPatterns(a + b, words) == MatchedPatterns(a, words) + MatchedPatterns(b, words)
    decreases |b|
  {
    if b == [] {
      assert a + b == a;
    } else {
      var init, last := b[..|b| - 1], b[|b| - 1];
      var kept := if MatchesAny(last, words) then [last] else [];
      assert MatchedPatterns(a + b, words) == MatchedPatterns(a + init, words) + kept by {
        var ab := a + b;
        assert ab[..|ab| - 1] == a + init && ab[|ab| - 1] == last;
        MatchedPatternsLast(ab, words);
      }
      MatchedPatternsLast(b, words);
      MatchedPatternsAppend(a, init, words);
      ConcatAssociative(MatchedPatterns(a, words), MatchedPatterns(init, words), kept);
    }
  }

  /** `_find_pattern_matches`: every rule with at least one matching pattern, mapped to its matching patterns. */
  function Matches(rules: map<string, LogicRule>, words: seq<string>): (matches: map<string, seq<string>>)
    ensures forall id :: id in matches <==>
      id in rules && exists p :: p in rules[id].patterns && MatchesAny(p, words)
    ensures forall id :: id in matches ==> matches[id] == MatchedPatterns(rules[id].patterns, words)
    ensures words == [] ==> matches == map[]
  {
    map id | id in rules && MatchedPatterns(rules[id].patterns, words) != [] :: MatchedPatterns(rules[id].patterns, words)
  }

  // Magnitude

  /** The contribution `weight * len(patterns)` of one rule id; 0 for a rule that did not match. */
  function Contribution(rules: map<string, LogicRule>, matches: map<string, seq<string>>, id: string): real
  {
    if id in matches && id in rules then rules[id].weight * (|matches[id]| as real) else 0.0
  }

  /** The sum of the contributions of `ids`. */
  function WeightedSum(rules: map<string, LogicRule>, matches: map<string, seq<string>>, ids: seq<string>): (sum: real)
    ensures (forall i :: 0 <= i < |ids| ==> ids[i] !in matches) ==> sum == 0.0
  {
    if ids == [] then 0.0
    else WeightedSum(rules, matches, ids[..|ids| - 1]) + Contribution(rules, matches, ids[|ids| - 1])
  }

  lemma {:induction false} WeightedSumNonNegative(
    rules: map<string, LogicRule>, matches: map<string, seq<string>>, ids: seq<string>)
    ensures WeightsInRange(rules) ==> 0.0 <= WeightedSum(rules, matches, ids)
  {
    if ids != [] {
      WeightedSumNonNegative(rules, matches, ids[..|ids| - 1]);
      if WeightsInRange(rules) {
        ContributionNonNegative(rules, matches, ids[|ids| - 1]);
      }
    }
  }

  lemma ContributionNonNegative(rules: map<string, LogicRule>, matches: map<string, seq<string>>, id: string)
    requires WeightsInRange(rules)
    ensures 0.0 <= Contribution(rules, matches, id)
  {
    if id in matches && id in rules {
      var weight, count := rules[id].weight, |matches[id]| as real;
      assert 0.0 <= weight && 0.0 <= count;
      assert 0.0 <= weight * count;
    }
  }

  /** `_calculate_magnitude`: the weighted pattern count per rule, capped at 1. */
  function Magnitude(rules: map<string, LogicRule>, ids: seq<string>, matches: map<string, seq<string>>): (magnitude: real)
    requires rules != map[]
    ensures magnitude <= 1.0
    ensures WeightsInRange(rules) ==> 0.0 <= magnitude
  {
    var average := WeightedSum(rules, matches, ids) / (|rules| as real);
    WeightedSumNonNegative(rules, matches, ids);
    if average < 1.0 then average else 1.0
  }

  // Coherence

  /** No rule id is listed twice. */
  predicate DistinctIds(ids: seq<string>)
  {
    forall i, j :: 0 <= i < j < |ids| ==> ids[i] != ids[j]
  }

  /** The listed rule ids that matched. */
  function MatchedIds(ids: seq<string>, matches: map<string, seq<string>>): set<string>
  {
    set id | id in ids && id in matches
  }

  /** `[len(patterns) for patterns in matches.values()]`, in rule order. */
  function PatternCounts(ids: seq<string>, matches: map<string, seq<string>>): (counts: seq<nat>)
    ensures |counts| <= |ids|
    ensures (forall id :: id in matches ==> matches[id] != []) ==> forall i :: 0 <= i < |counts| ==> 0 < counts[i]
  {
    if ids == [] then []
    else
      var rest := PatternCounts(ids[..|ids| - 1], matches);
      var id := ids[|ids| - 1];
      if id in matches then rest + [|matches[id]|] else rest
  }

  /** The last id adds its count, at the end, exactly when it matched. */
  lemma PatternCountsLast(ids: seq<string>, matches: map<string, seq<string>>)
    requires ids != []
    ensures PatternCounts(ids, matches) == PatternCounts(ids[..|ids| - 1], matches)
      + if ids[|ids| - 1] in matches then [|matches[ids[|ids| - 1]]|] else []
  {
  }

  /** Counting a concatenation counts each part: the counts follow the order of the ids. */
  lemma {:induction false} PatternCountsAppend(a: seq<string>, b: seq<string>, matches: map<string, seq<string>>)
    ensures PatternCounts(a + b, matches) == PatternCounts(a, matches) + PatternCounts(b, matches)
    decreases |b|
  {
    if b == [] {
      assert a + b == a;
    } else {
      var init, last := b[..|b| - 1], b[|b| - 1];
      var kept := if last in matches then [|matches[last]|] else [];
      assert PatternCounts(a + b, matches) == PatternCounts(a + init, matches) + kept by {
        var ab := a + b;
        assert ab[..|ab| - 1] == a + init && ab[|ab| - 1] == last;
        PatternCountsLast(ab, matches);
      }
      PatternCountsLast(b, matches);
      PatternCountsAppend(a, init, matches);
      ConcatAssociative(PatternCounts(a, matches), PatternCounts(init, matches), kept);
    }
  }

  /** One id gives its rule's matched-pattern count, or nothing when the rule did not match. */
  lemma PatternCountsSingle(id: string, matches: map<string, seq<string>>)
    ensures PatternCounts([id], matches) == if id in matches then [|matches[id]|] else []
  {
    assert [id][..0] == [];
  }

  /** With distinct ids, there is one count per listed rule that matched. */
  lemma {:induction false} PatternCountsLength(ids: seq<string>, matches: map<string, seq<string>>)
    requires DistinctIds(ids)
    ensures |PatternCounts(ids, matches)| == |MatchedIds(ids, matches)|
  {
    if ids != [] {
      var init, last := ids[..|ids| - 1], ids[|ids| - 1];
      PatternCountsLength(init, matches);
      assert forall i :: 0 <= i < |init| ==> init[i] == ids[i] != last;
      assert last !in init;
      if last in matches {
        assert MatchedIds(ids, matches) == MatchedIds(init, matches) + {last};
      } else {
        assert MatchedIds(ids, matches) == MatchedIds(init, matches);
      }
    }
  }

  /** When the ids list every matched rule once, there is exactly one count per matched rule. */
  lemma PatternCountsPerMatchedRule(ids: seq<string>, matches: map<string, seq<string>>)
    requires DistinctIds(ids) && forall id :: id in matches ==> id in ids
    ensures |PatternCounts(ids, matches)| == |matches|
  {
    PatternCountsLength(ids, matches);
    assert MatchedIds(ids, matches) == matches.Keys;
  }

  /**
   * `_calculate_coherence`: 1 when at most one rule matched; otherwise the
   * entropy measure of the pattern counts, which is a parameter here.
   */
  function Coherence(ids: seq<string>, matches: map<string, seq<string>>, entropyCoherence: seq<nat> -> real)
    : (coherence: real)
    ensures |matches| <= 1 ==> coherence == 1.0
    ensures 1 < |matches| ==> coherence == entropyCoherence(PatternCounts(ids, matches))
  {
    if |matches| == 0 then 1.0
    else if |matches| == 1 then 1.0
    else entropyCoherence(PatternCounts(ids, matches))
  }

  // Direction

  /** The matched rules whose context is `context`. */
  function Aligned(rules: map<string, LogicRule>, matches: map<string, seq<string>>, context: string): (aligned: set<string>)
    ensures forall id :: id in aligned <==> id in matches && id in rules && rules[id].context == Some(context)
    ensures aligned <= matches.Keys && |aligned| <= |matches|
    ensures (forall id :: id in matches ==> id in rules && rules[id].context == Some(context)) ==> aligned == matches.Keys
  {
    var aligned := set id | id in matches && id in rules && rules[id].context == Some(context);
    SubsetCardinality(aligned, matches.Keys);
    aligned
  }

  /** `not context`: no context, or the empty one. */
  predicate NoContext(context: Option<string>)
  {
    context.None? || context.value == ""
  }

  /** `_calculate_direction`. */
  function Direction(rules: map<string, LogicRule>, matches: map<string, seq<string>>, context: Option<string>)
    : (direction: real)
    ensures NoContext(context) ==> direction == 0.0
    ensures !NoContext(context) && Aligned(rules, matches, context.value) == {} ==> direction == Pi
    ensures !NoContext(context) && Aligned(rules, matches, context.value) != {} ==> 0.0 < direction <= 2.0 * Pi
  {
    if NoContext(context) then 0.0
    else
      var aligned := Aligned(rules, matches, context.value);
      if |aligned| == 0 then Pi
      else
        RatioBetweenZeroAndOne(|aligned|, |matches|);
        2.0 * Pi * ((|aligned| as real) / (|matches| as real))
  }

  /** When every matched rule carries the context the direction is a full turn. */
  lemma {:induction false} FullAlignment(rules: map<string, LogicRule>, matches: map<string, seq<string>>, context: string)
    requires context != "" && matches != map[]
    requires forall id :: id in matches ==> id in rules && rules[id].context == Some(context)
    ensures Direction(rules, matches, Some(context)) == 2.0 * Pi
  {
    assert Aligned(rules, matches, context) == matches.Keys;
    var id :| id in matches;
    assert id in Aligned(rules, matches, context);
  }

  // Uncertainty

  /**
   * What one pattern adds to `matched_words`: every input word it matches, and
   * nothing it does not match; a pattern that matched some word adds input words only.
   */
  function PatternCover(pattern: string, words: seq<string>): (cover: set<string>)
    ensures forall w :: w in cover ==> PatternMatches(pattern, w)
    ensures forall w :: w in words && PatternMatches(pattern, w) ==> w in cover
    ensures MatchesAny(pattern, words) ==> forall w :: w in cover ==> w in words
  {
    if EndsWithStar(pattern) then set w | w in words && Stem(pattern) <= w else {pattern}
  }

  /** What a list of patterns adds to `matched_words`, pattern after pattern. */
  function PatternsCover(patterns: seq<string>, words: seq<string>): set<string>
  {
    if patterns == [] then {}
    else PatternsCover(patterns[..|patterns| - 1], words) + PatternCover(patterns[|patterns| - 1], words)
  }

  /** A word added by a list of patterns is added by one of them. */
  lemma {:induction false} PatternsCoverWitness(patterns: seq<string>, words: seq<string>, w: string)
    returns (p: string)
    requires w in PatternsCover(patterns, words)
    ensures p in patterns && w in PatternCover(p, words)
  {
    var init, last := patterns[..|patterns| - 1], patterns[|patterns| - 1];
    if w in PatternCover(last, words) {
      p := last;
    } else {
      p := PatternsCoverWitness(init, words, w);
      assert p in init;
    }
  }

  /** A word added by one pattern of a list is added by the list. */
  lemma {:induction false} PatternsCoverHas(patterns: seq<string>, words: seq<string>, p: string, w: string)
    requires p in patterns && w in PatternCover(p, words)
    ensures w in PatternsCover(patterns, words)
  {
    var init, last := patterns[..|patterns| - 1], patterns[|patterns| - 1];
    if p != last {
      assert patterns == init + [last];
      PatternsCoverHas(init, words, p, w);
    }
  }

  /** What the rules `ids` of `matches` add to `matched_words`. */
  function CoverOf(matches: map<string, seq<string>>, ids: set<string>, words: seq<string>): set<string>
  {
    set id, w | id in ids && id in matches && w in PatternsCover(matches[id], words) :: w
  }

  /** The whole `matched_words` set. */
  function Cover(matches: map<string, seq<string>>, words: seq<string>): set<string>
  {
    CoverOf(matches, matches.Keys, words)
  }

  /** `_calculate_uncertainty`: one minus the share of the words covered by the matched patterns. */
  function Uncertainty(matches: map<string, seq<string>>, words: seq<string>): (uncertainty: real)
    ensures words == [] ==> uncertainty == 1.0
    ensures uncertainty <= 1.0
  {
    if words == [] then 1.0
    else
      assert 0.0 <= (|Cover(matches, words)| as real) / (|words| as real);
      1.0 - (|Cover(matches, words)| as real) / (|words| as real)
  }

  /** A covered word is an input word matched by a matched pattern. */
  lemma CoveredWordIsMatched(rules: map<string, LogicRule>, words: seq<string>, w: string)
    returns (id: string, p: string)
    requires w in Cover(Matches(rules, words), words)
    ensures id in Matches(rules, words) && p in Matches(rules, words)[id]
    ensures w in words && PatternMatches(p, w)
  {
    var matches := Matches(rules, words);
    id :| id in matches && w in PatternsCover(matches[id], words);
    p := PatternsCoverWitness(matches[id], words, w);
    if !EndsWithStar(p) {
      assert MatchesAny(p, words);
      var i :| 0 <= i < |words| && PatternMatches(p, words[i]);
      assert words[i] == w;
    }
  }

  /** An input word matched by a matched pattern is covered. */
  lemma MatchedWordIsCovered(rules: map<string, LogicRule>, words: seq<string>, w: string, id: string, p: string)
    requires id in Matches(rules, words) && p in Matches(rules, words)[id]
    requires w in words && PatternMatches(p, w)
    ensures w in Cover(Matches(rules, words), words)
  {
    var matches := Matches(rules, words);
    assert w in PatternCover(p, words);
    PatternsCoverHas(matches[id], words, p, w);
  }

  /** The covered words are exactly the input words that some matched pattern matches. */
  lemma CoverIsMatchedWords(rules: map<string, LogicRule>, words: seq<string>)
    ensures var matches := Matches(rules, words);
      forall w :: w in Cover(matches, words) <==>
        w in words && exists id, p :: id in matches && p in matches[id] && PatternMatches(p, w)
  {
    var matches := Matches(rules, words);
    forall w | w in Cover(matches, words)
      ensures w in words && exists id, p :: id in matches && p in matches[id] && PatternMatches(p, w)
    {
      var id, p := CoveredWordIsMatched(rules, words, w);
    }
    forall w | w in words && exists id, p :: id in matches && p in matches[id] && PatternMatches(p, w)
      ensures w in Cover(matches, words)
    {
      var id, p :| id in matches && p in matches[id] && PatternMatches(p, w);
      MatchedWordIsCovered(rules, words, w, id, p);
    }
  }

  /** A list has at least as many entries as distinct entries. */
  lemma {:induction false} DistinctAtMostLength(words: seq<string>)
    ensures |set w | w in words| <= |words|
  {
    if words != [] {
      var init := words[..|words| - 1];
      DistinctAtMostLength(init);
      assert (set w | w in words) == (set w | w in init) + {words[|words| - 1]};
    }
  }

  /** The covered words are at most as many as the input words. */
  lemma CoverAtMostWords(rules: map<string, LogicRule>, words: seq<string>)
    ensures |Cover(Matches(rules, words), words)| <= |words|
  {
    var cover := Cover(Matches(rules, words), words);
    forall w | w in cover ensures w in words {
      var id, p := CoveredWordIsMatched(rules, words, w);
    }
    SubsetCardinality(cover, set w | w in words);
    DistinctAtMostLength(words);
  }

  /** As soon as a rule matched, some word is covered. */
  lemma CoverNonEmpty(rules: map<string, LogicRule>, words: seq<string>)
    requires Matches(rules, words) != map[]
    ensures Cover(Matches(rules, words), words) != {}
  {
    var matches := Matches(rules, words);
    var id :| id in matches;
    var p :| p in matches[id];
    assert MatchesAny(p, words);
    var i :| 0 <= i < |words| && PatternMatches(p, words[i]);
    MatchedWordIsCovered(rules, words, words[i], id, p);
  }

  /** Uncertainty lies in [0, 1], and below 1 as soon as a rule matched. */
  lemma UncertaintyInRange(rules: map<string, LogicRule>, words: seq<string>)
    ensures var matches := Matches(rules, words);
      && 0.0 <= Uncertainty(matches, words) <= 1.0
      && (matches != map[] ==> Uncertainty(matches, words) < 1.0)
  {
    var matches := Matches(rules, words);
    if words != [] {
      var cover := Cover(matches, words);
      CoverAtMostWords(rules, words);
      if matches != map[] {
        CoverNonEmpty(rules, words);
      }
      RatioBetweenZeroAndOne(|cover|, |words|);
    }
  }

  /**
   * A single word that some rule matches is fully covered: the uncertainty is
   * 0, the value for which `to_quantum_state` cannot compute a qubit count.
   */
  lemma SingleMatchedWordIsCertain(rules: map<string, LogicRule>, w: string)
    requires Matches(rules, [w]) != map[]
    ensures Uncertainty(Matches(rules, [w]), [w]) == 0.0
  {
    CoverAtMostWords(rules, [w]);
    CoverNonEmpty(rules, [w]);
  }

  // The force

  /** `input_text.lower().split()`. */
  function Words(inputText: string): (words: seq<string>)
    ensures words == [] <==> AllSpace(inputText)
  {
    Split(Lower(inputText))
  }

  /** `calculate_force` on the words of a text, for a rule table listed in insertion order by `ids`. */
  function Force(
    rules: map<string, LogicRule>, ids: seq<string>, words: seq<string>,
    context: Option<string>, entropyCoherence: seq<nat> -> real): (force: LogicForce)
    ensures Matches(rules, words) == map[] ==> force == NoMatch
    ensures words == [] ==> force == NoMatch
    ensures force.uncertainty <= 1.0
    ensures |Matches(rules, words)| <= 1 ==> force.coherence == 1.0
  {
    var matches := Matches(rules, words);
    if matches == map[] then NoMatch
    else
      LogicForce(
        Magnitude(rules, ids, matches),
        Coherence(ids, matches, entropyCoherence),
        Direction(rules, matches, context),
        Uncertainty(matches, words))
  }

  /** The no-match force is returned exactly when no rule matches. */
  lemma ForceNoMatchIff(
    rules: map<string, LogicRule>, ids: seq<string>, words: seq<string>,
    context: Option<string>, entropyCoherence: seq<nat> -> real)
    ensures Force(rules, ids, words, context, entropyCoherence) == NoMatch <==> Matches(rules, words) == map[]
  {
    UncertaintyInRange(rules, words);
  }

  /** Blank text matches nothing. */
  lemma BlankTextHasNoForce(
    rules: map<string, LogicRule>, ids: seq<string>, inputText: string,
    context: Option<string>, entropyCoherence: seq<nat> -> real)
    requires AllSpace(inputText)
    ensures Force(rules, ids, Words(inputText), context, entropyCoherence) == NoMatch
  {
  }

  /** Every component of the force lies in its documented range. */
  lemma ForceInRange(
    rules: map<string, LogicRule>, ids: seq<string>, words: seq<string>,
    context: Option<string>, entropyCoherence: seq<nat> -> real)
    requires WeightsInRange(rules)
    ensures var force := Force(rules, ids, words, context, entropyCoherence);
      && 0.0 <= force.magnitude <= 1.0
      && 0.0 <= force.direction <= 2.0 * Pi
      && 0.0 <= force.uncertainty <= 1.0
      && (|Matches(rules, words)| <= 1 ==> force.coherence == 1.0)
  {
    UncertaintyInRange(rules, words);
  }

  /** Adding the covered words of one more rule. */
  lemma CoverOfInsert(matches: map<string, seq<string>>, done: set<string>, id: string, words: seq<string>)
    requires id in matches
    ensures CoverOf(matches, done + {id}, words) == CoverOf(matches, done, words) + PatternsCover(matches[id], words)
  {
  }

  /** Adding the covered words of one more pattern. */
  lemma PatternsCoverSnoc(patterns: seq<string>, j: nat, words: seq<string>)
    requires j < |patterns|
    ensures PatternsCover(patterns[..j + 1], words) == PatternsCover(patterns[..j], words) + PatternCover(patterns[j], words)
  {
    assert patterns[..j + 1][..j] == patterns[..j];
  }

  // The quantum interface

  function Scale(alpha: real, z: Complex): Complex
  {
    Complex(alpha * z.re, alpha * z.im)
  }

  /** `alpha * force_state + (1 - alpha) * target_state`, before normalisation. */
  function Superpose(alpha: real, forceState: seq<Complex>, targetState: seq<Complex>): (blend: seq<Complex>)
    requires |forceState| == |targetState|
    ensures |blend| == |forceState|
  {
    seq(|forceState|, i requires 0 <= i < |forceState| =>
      var f, t := Scale(alpha, forceState[i]), Scale(1.0 - alpha, targetState[i]);
      Complex(f.re + t.re, f.im + t.im))
  }

  /** A full-magnitude force replaces the target by the force state; a zero one leaves the target. */
  lemma SuperposeEndpoints(forceState: seq<Complex>, targetState: seq<Complex>)
    requires |forceState| == |targetState|
    ensures Superpose(1.0, forceState, targetState) == forceState
    ensures Superpose(0.0, forceState, targetState) == targetState
  {
    var full, none := Superpose(1.0, forceState, targetState), Superpose(0.0, forceState, targetState);
    forall i | 0 <= i < |forceState| ensures full[i] == forceState[i] && none[i] == targetState[i] {
    }
  }

  class LogicForceProcessor {
    const forceThreshold: real
    const coherenceThreshold: real
    const quantumEnabled: bool
    /** The rule ids of `_rules`, in insertion order. */
    var ids: seq<string>
    /** `_rules`. */
    var rules: map<string, LogicRule>

    /** The rule table is a dictionary whose stored weights passed the range check. */
    predicate Valid()
      reads this
    {
      && DistinctIds(ids)
      && (forall id :: id in rules ==> id in ids)
      && (forall i :: 0 <= i < |ids| ==> ids[i] in rules)
      && WeightsInRange(rules)
    }

    constructor (forceThreshold: real := 0.5, coherenceThreshold: real := 0.7, quantumEnabled: bool := true)
      ensures Valid()
      ensures this.forceThreshold == forceThreshold && this.coherenceThreshold == coherenceThreshold
      ensures this.quantumEnabled == quantumEnabled
      ensures ids == [] && rules == map[]
    {
      this.forceThreshold := forceThreshold;
      this.coherenceThreshold := coherenceThreshold;
      this.quantumEnabled := quantumEnabled;
      ids := [];
      rules := map[];
    }

    /** `add_rule`: a weight outside [0, 1] is refused and nothing changes; otherwise the id is (re)bound. */
    method AddRule(ruleId: string, patterns: seq<string>, weight: real, context: Option<string> := None)
      returns (outcome: Outcome<ForceError>)
      requires Valid()
      modifies this
      ensures Valid()
      ensures !WeightInRange(weight) ==> outcome == Fail(WeightOutOfRange) && rules == old(rules) && ids == old(ids)
      ensures WeightInRange(weight) ==> outcome == Pass
      ensures WeightInRange(weight) ==> rules == old(rules)[ruleId := LogicRule(patterns, weight, context)]
      ensures WeightInRange(weight) ==> ids == if ruleId in old(ids) then old(ids) else old(ids) + [ruleId]
    {
      if !(0.0 <= weight <= 1.0) {
        return Fail(WeightOutOfRange);
      }
      if ruleId !in rules {
        ids := ids + [ruleId];
      }
      rules := rules[ruleId := LogicRule(patterns, weight, context)];
      return Pass;
    }

    /** `_find_pattern_matches`, walking the rules in insertion order. */
    method FindPatternMatches(words: seq<string>) returns (matches: map<string, seq<string>>)
      requires Valid()
      ensures matches == Matches(rules, words)
    {
      matches := map[];
      var i := 0;
      while i < |ids|
        invariant 0 <= i <= |ids|
        invariant forall id :: id in matches <==>
          id in ids[..i] && id in rules && MatchedPatterns(rules[id].patterns, words) != []
        invariant forall id :: id in matches ==> id in rules && matches[id] == MatchedPatterns(rules[id].patterns, words)
      {
        var ruleId := ids[i];
        var matchedPatterns := MatchedPatterns(rules[ruleId].patterns, words);
        if matchedPatterns != [] {
          matches := matches[ruleId := matchedPatterns];
        }
        assert forall id :: id in ids[..i + 1] <==> id in ids[..i] || id == ruleId;
        i := i + 1;
      }
      assert ids[..i] == ids;
      assert matches.Keys == Matches(rules, words).Keys;
    }

    /** The inner loop of `_calculate_uncertainty`: the words the patterns of one rule add to `matchedWords`. */
    method AddCoveredWords(matchedWords: set<string>, patterns: seq<string>, words: seq<string>)
      returns (grown: set<string>)
      ensures grown == matchedWords + PatternsCover(patterns, words)
    {
      grown := matchedWords;
      var j := 0;
      while j < |patterns|
        invariant 0 <= j <= |patterns|
        invariant grown == matchedWords + PatternsCover(patterns[..j], words)
      {
        var pattern := patterns[j];
        var added: set<string>;
        if EndsWithStar(pattern) {
          added := set w | w in words && Stem(pattern) <= w;
        } else {
          added := {pattern};
        }
        assert added == PatternCover(pattern, words);
        PatternsCoverSnoc(patterns, j, words);
        UnionAssociative(matchedWords, PatternsCover(patterns[..j], words), added);
        grown := grown + added;
        j := j + 1;
      }
      assert patterns[..j] == patterns;
    }

    /** `_calculate_uncertainty`, growing `matched_words` rule by rule. */
    method CalculateUncertainty(matches: map<string, seq<string>>, words: seq<string>) returns (uncertainty: real)
      ensures uncertainty == Uncertainty(matches, words)
    {
      if |words| == 0 {
        return 1.0;
      }
      var matchedWords: set<string> := {};
      var done: set<string> := {};
      var remaining := matches.Keys;
      while remaining != {}
        invariant remaining + done == matches.Keys && remaining !! done
        invariant matchedWords == CoverOf(matches, done, words)
        decreases |remaining|
      {
        var id :| id in remaining;
        matchedWords := AddCoveredWords(matchedWords, matches[id], words);
        CoverOfInsert(matches, done, id, words);
        done := done + {id};
        remaining := remaining - {id};
      }
      assert done == matches.Keys;
      return 1.0 - (|matchedWords| as real) / (|words| as real);
    }

    /** `calculate_force`; the entropy measure of coherence is a parameter. */
    method CalculateForce(inputText: string, entropyCoherence: seq<nat> -> real, context: Option<string> := None)
      returns (force: LogicForce)
      requires Valid()
      ensures force == Force(rules, ids, Words(inputText), context, entropyCoherence)
    {
      var words := Words(inputText);
      var matches := FindPatternMatches(words);
      if |matches| == 0 {
        return NoMatch;
      }
      var magnitude := Magnitude(rules, ids, matches);
      var coherence := Coherence(ids, matches, entropyCoherence);
      var direction := Direction(rules, matches, context);
      var uncertainty := CalculateUncertainty(matches, words);
      return LogicForce(magnitude, coherence, direction, uncertainty);
    }

    /**
     * The guards of `to_quantum_state`: quantum processing must be enabled and
     * the qubit count `int(-np.log2(uncertainty))` must exist; the encoding
     * itself is a parameter.
     */
    method ToQuantumState(force: LogicForce, encode: LogicForce -> seq<Complex>)
      returns (r: Result<seq<Complex>, ForceError>)
      ensures !quantumEnabled ==> r == Failure(QuantumDisabled)
      ensures quantumEnabled && force.uncertainty == 0.0 ==> r == Failure(QubitCountOverflow)
      ensures quantumEnabled && force.uncertainty < 0.0 ==> r == Failure(QubitCountUndefined)
      ensures quantumEnabled && force.uncertainty > 0.0 ==> r == Success(encode(force))
    {
      if !quantumEnabled {
        return Failure(QuantumDisabled);
      }
      if force.uncertainty == 0.0 {
        return Failure(QubitCountOverflow);
      }
      if force.uncertainty < 0.0 {
        return Failure(QubitCountUndefined);
      }
      return Success(encode(force));
    }

    /** `apply_force`: the guards, then the blend by magnitude; the normalisation is a parameter. */
    method ApplyForce(
      targetState: seq<Complex>, force: LogicForce,
      encode: LogicForce -> seq<Complex>, normalize: seq<Complex> -> seq<Complex>)
      returns (r: Result<seq<Complex>, ForceError>)
      ensures !quantumEnabled ==> r == Failure(QuantumDisabled)
      ensures quantumEnabled && force.uncertainty == 0.0 ==> r == Failure(QubitCountOverflow)
      ensures quantumEnabled && force.uncertainty < 0.0 ==> r == Failure(QubitCountUndefined)
      ensures quantumEnabled && force.uncertainty > 0.0 && |encode(force)| != |targetState| ==>
        r == Failure(IncompatibleStates)
      ensures quantumEnabled && force.uncertainty > 0.0 && |encode(force)| == |targetState| ==>
        r == Success(normalize(Superpose(force.magnitude, encode(force), targetState)))
    {
      if !quantumEnabled {
        return Failure(QuantumDisabled);
      }
      var forceState := ToQuantumState(force, encode);
      if forceState.Failure? {
        return forceState;
      }
      if |forceState.value| != |targetState| {
        return Failure(IncompatibleStates);
      }
      var blended := Superpose(force.magnitude, forceState.value, targetState);
      return Success(normalize(blended));
    }
  }
}
