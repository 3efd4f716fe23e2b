/**
 * `QuantumProcessor`: the register held across operations, the mapping of
 * measurement probabilities onto named actions, and the decision rule.
 */
module QuantumProcessing {
  import opened Wrappers
  import opened Numeric
  import opened Collections

  /** One `key: value` item of an insertion-ordered dictionary. */
  datatype Entry = Entry(key: string, value: real)

  function Keys(entries: seq<Entry>): (keys: seq<string>)
    ensures |keys| == |entries|
    ensures forall i :: 0 <= i < |entries| ==> keys[i] == entries[i].key
  {
    seq(|entries|, i requires 0 <= i < |entries| => entries[i].key)
  }

  function Values(entries: seq<Entry>): (values: seq<real>)
    ensures |values| == |entries|
    ensures forall i :: 0 <= i < |entries| ==> values[i] == entries[i].value
  {
    seq(|entries|, i requires 0 <= i < |entries| => entries[i].value)
  }

  /** What a Python dictionary guarantees of its items: no key occurs twice. */
  predicate DistinctKeys(entries: seq<Entry>)
  {
    forall i, j :: 0 <= i < j < |entries| ==> entries[i].key != entries[j].key
  }

  /** The `QuantumDecision` record. */
  datatype QuantumDecision = QuantumDecision(
    confidence: real,
    chosenAction: string,
    alternateActions: seq<Entry>,
    qubitsUsed: nat,
    coherence: real)

  /** The `ZeroDivisionError` of `len(probs) // len(actions)` on an empty action map. */
  datatype DecisionError = NoActions

  /** `_initialize_state`: the ground state of a `numQubits`-qubit register. */
  method InitializeState(numQubits: nat) returns (state: seq<Complex>)
    ensures |state| == Pow2(numQubits)
    ensures state[0] == One
    ensures forall i :: 1 <= i < |state| ==> state[i] == Zero
  {
    var dim := Pow2(numQubits);
    var amplitudes := new Complex[dim](_ => Zero);
    amplitudes[0] := One;
    state := amplitudes[..];
  }

  /** `np.abs(state) ** 2`, the measurement probabilities of a state. */
  function Probabilities(state: seq<Complex>): (probs: seq<real>)
    ensures |probs| == |state|
    ensures AllNonNegative(probs)
  {
    seq(|state|, i requires 0 <= i < |state| => NormSquared(state[i]))
  }

  /** `len(probs) // len(actions)`. */
  function ChunkSize(numProbs: nat, numActions: nat): nat
    requires 0 < numActions
  {
    numProbs / numActions
  }

  /** `i * chunk`, the first index of chunk `i`, as repeated addition. */
  function ChunkStart(chunk: nat, i: nat): nat
  {
    if i == 0 then 0 else ChunkStart(chunk, i - 1) + chunk
  }

  lemma {:induction false} ChunkStartIsProduct(chunk: nat, i: nat)
    ensures ChunkStart(chunk, i) == i * chunk
  {
    if i > 0 {
      ChunkStartIsProduct(chunk, i - 1);
    }
  }

  lemma {:induction false} ChunkStartMonotonic(chunk: nat, i: nat, j: nat)
    requires i <= j
    ensures ChunkStart(chunk, i) <= ChunkStart(chunk, j)
    decreases j
  {
    if i < j {
      ChunkStartMonotonic(chunk, i, j - 1);
    }
  }

  /** The chunks of distinct actions lie inside the probability vector, in order and without overlap. */
  lemma ChunkBounds(numProbs: nat, numActions: nat, i: nat, j: nat)
    requires i < j <= numActions
    ensures ChunkStart(ChunkSize(numProbs, numActions), i + 1) <= ChunkStart(ChunkSize(numProbs, numActions), j)
    ensures ChunkStart(ChunkSize(numProbs, numActions), j) <= numProbs
  {
    var c := ChunkSize(numProbs, numActions);
    ChunkStartMonotonic(c, i + 1, j);
    ChunkStartMonotonic(c, j, numActions);
    ChunkStartIsProduct(c, numActions);
    assert numActions * c <= numProbs;
  }

  /** `np.sum(probs[i * chunk:(i + 1) * chunk])`. */
  function ChunkSum(probs: seq<real>, numActions: nat, i: nat): real
    requires i < numActions
  {
    var c := ChunkSize(|probs|, numActions);
    ChunkBounds(|probs|, numActions, i, i + 1);
    Sum(probs[ChunkStart(c, i)..ChunkStart(c, i + 1)])
  }

  /** The chunk of action `i` is the slice between `i * chunk` and `(i + 1) * chunk`. */
  lemma ChunkSumIsSlice(probs: seq<real>, numActions: nat, i: nat)
    requires i < numActions
    ensures (i + 1) * ChunkSize(|probs|, numActions) <= |probs|
    ensures ChunkSum(probs, numActions, i)
      == Sum(probs[i * ChunkSize(|probs|, numActions)..(i + 1) * ChunkSize(|probs|, numActions)])
  {
    var c := ChunkSize(|probs|, numActions);
    ChunkBounds(|probs|, numActions, i, i + 1);
    ChunkStartIsProduct(c, i);
    ChunkStartIsProduct(c, i + 1);
  }

  /** `weight * np.sum(probs[start:end])` for action `i`. */
  function RawScore(probs: seq<real>, actions: seq<Entry>, i: nat): real
    requires i < |actions|
  {
    actions[i].value * ChunkSum(probs, |actions|, i)
  }

  /** The raw score of every action, in the order of `actions`. */
  function RawScores(probs: seq<real>, actions: seq<Entry>): (scores: seq<real>)
    requires actions != []
    ensures |scores| == |actions|
    ensures forall i :: 0 <= i < |actions| ==> scores[i] == RawScore(probs, actions, i)
  {
    seq(|actions|, i requires 0 <= i < |actions| => RawScore(probs, actions, i))
  }

  /** Division by the total when it is positive; otherwise the scores unchanged. */
  function Normalize(scores: seq<real>): (r: seq<real>)
    ensures |r| == |scores|
    ensures Sum(scores) <= 0.0 ==> r == scores
    ensures Sum(scores) > 0.0 ==> forall i :: 0 <= i < |r| ==> r[i] == scores[i] / Sum(scores)
    ensures AllNonNegative(scores) ==> AllNonNegative(r) && forall i :: 0 <= i < |r| ==> r[i] <= 1.0
    ensures AllNonNegative(scores) && Sum(scores) > 0.0 ==> Sum(r) == 1.0
  {
    var total := Sum(scores);
    if total > 0.0 then
      var r := seq(|scores|, i requires 0 <= i < |scores| => scores[i] / total);
      SumDivided(scores, r, total);
      SharesBounded(scores, r);
      r
    else
      SharesBounded(scores, scores);
      scores
  }

  /** Non-negative scores divided by their positive total are shares in [0, 1]. */
  lemma SharesBounded(scores: seq<real>, r: seq<real>)
    requires |r| == |scores|
    requires Sum(scores) > 0.0 ==> forall i :: 0 <= i < |scores| ==> r[i] == scores[i] / Sum(scores)
    requires Sum(scores) <= 0.0 ==> r == scores
    ensures AllNonNegative(scores) ==> AllNonNegative(r) && forall i :: 0 <= i < |r| ==> r[i] <= 1.0
  {
    if AllNonNegative(scores) {
      var total := Sum(scores);
      forall i | 0 <= i < |scores| ensures 0.0 <= r[i] <= 1.0 {
        EntryAtMostSum(scores, i);
        if total > 0.0 {
          ShareInUnit(scores[i], total);
        } else {
          SumNonNegative(scores);
        }
      }
    }
  }

  /** Pairs keys with values, position by position. */
  function Zip(keys: seq<string>, values: seq<real>): (entries: seq<Entry>)
    requires |keys| == |values|
    ensures Keys(entries) == keys && Values(entries) == values
  {
    seq(|keys|, i requires 0 <= i < |keys| => Entry(keys[i], values[i]))
  }

  predicate NonNegativeWeights(actions: seq<Entry>)
  {
    forall i :: 0 <= i < |actions| ==> 0.0 <= actions[i].value
  }

  /** The action-probability map `_calculate_action_probabilities` builds for given probabilities. */
  function ActionProbabilities(probs: seq<real>, actions: seq<Entry>): (actionProbs: seq<Entry>)
    requires actions != []
    ensures Keys(actionProbs) == Keys(actions)
    ensures DistinctKeys(actions) ==> DistinctKeys(actionProbs)
  {
    Zip(Keys(actions), Normalize(RawScores(probs, actions)))
  }

  /** Dividing the values of `keys` zipped with `scores` by a positive total is zipping with the normalized scores. */
  lemma NormalizedEntries(entries: seq<Entry>, keys: seq<string>, scores: seq<real>)
    requires |entries| == |keys| == |scores|
    requires forall j :: 0 <= j < |entries| ==> entries[j] == Entry(keys[j], scores[j])
    ensures Sum(scores) <= 0.0 ==> entries == Zip(keys, Normalize(scores))
    ensures Sum(scores) > 0.0 ==>
      Zip(keys, Normalize(scores))
      == seq(|entries|, j requires 0 <= j < |entries| => Entry(entries[j].key, entries[j].value / Sum(scores)))
  {
  }

  /**
   * `_calculate_action_probabilities`: an empty action map is the division by
   * zero of the source; otherwise the action-probability map.
   */
  method CalculateActionProbabilities(probs: seq<real>, actions: seq<Entry>)
    returns (r: Result<seq<Entry>, DecisionError>)
    ensures actions == [] ==> r == Failure(NoActions)
    ensures actions != [] ==> r == Success(ActionProbabilities(probs, actions))
  {
    if |actions| == 0 {
      return Failure(NoActions);
    }
    var chunkSize := |probs| / |actions|;
    var actionProbs: seq<Entry> := [];
    var i := 0;
    while i < |actions|
      invariant 0 <= i <= |actions|
      invariant |actionProbs| == i
      invariant forall j :: 0 <= j < i ==> actionProbs[j] == Entry(actions[j].key, RawScore(probs, actions, j))
    {
      var start := i * chunkSize;
      var end := (i + 1) * chunkSize;
      ChunkSumIsSlice(probs, |actions|, i);
      actionProbs := actionProbs + [Entry(actions[i].key, actions[i].value * Sum(probs[start..end]))];
      i := i + 1;
    }
    var raw := RawScores(probs, actions);
    var total := Sum(raw);
    NormalizedEntries(actionProbs, Keys(actions), raw);
    if total > 0.0 {
      actionProbs := seq(|actionProbs|, j requires 0 <= j < |actionProbs| =>
        Entry(actionProbs[j].key, actionProbs[j].value / total));
    }
    return Success(actionProbs);
  }

  /** With non-negative probabilities and weights the action probabilities are a distribution, or all zero. */
  lemma {:induction false} ActionProbabilitiesAreDistribution(probs: seq<real>, actions: seq<Entry>)
    requires actions != [] && AllNonNegative(probs) && NonNegativeWeights(actions)
    ensures var values := Values(ActionProbabilities(probs, actions));
      && (forall i :: 0 <= i < |values| ==> 0.0 <= values[i] <= 1.0)
      && (Sum(values) == 1.0 || forall i :: 0 <= i < |values| ==> values[i] == 0.0)
  {
    var raw := RawScores(probs, actions);
    forall i | 0 <= i < |raw| ensures 0.0 <= raw[i] {
      var c := ChunkSize(|probs|, |actions|);
      ChunkBounds(|probs|, |actions|, i, i + 1);
      var chunk := probs[ChunkStart(c, i)..ChunkStart(c, i + 1)];
      assert AllNonNegative(chunk);
      SumNonNegative(chunk);
    }
    if Sum(raw) <= 0.0 {
      SumNonNegative(raw);
      forall i | 0 <= i < |raw| ensures raw[i] == 0.0 {
        EntryAtMostSum(raw, i);
      }
    }
  }

  /** The scores of the first `m` actions, with unit weights, cover exactly the first `m` chunks. */
  lemma {:induction false} UnitScoresCoverPrefix(probs: seq<real>, actions: seq<Entry>, m: nat)
    requires actions != [] && m <= |actions|
    requires forall i :: 0 <= i < |actions| ==> actions[i].value == 1.0
    ensures ChunkStart(ChunkSize(|probs|, |actions|), m) <= |probs|
    ensures Sum(RawScores(probs, actions)[..m]) == Sum(probs[..ChunkStart(ChunkSize(|probs|, |actions|), m)])
  {
    var c := ChunkSize(|probs|, |actions|);
    var raw := RawScores(probs, actions);
    if m == 0 {
      assert raw[..0] == [];
      assert probs[..0] == [];
    } else {
      UnitScoresCoverPrefix(probs, actions, m - 1);
      ChunkBounds(|probs|, |actions|, m - 1, m);
      var a, b := ChunkStart(c, m - 1), ChunkStart(c, m);
      assert Sum(raw[..m]) == Sum(raw[..m - 1]) + raw[m - 1] by {
        assert raw[..m] == raw[..m - 1] + [raw[m - 1]];
        SumAppend(raw[..m - 1], [raw[m - 1]]);
      }
      assert raw[m - 1] == Sum(probs[a..b]);
      assert Sum(probs[..b]) == Sum(probs[..a]) + Sum(probs[a..b]) by {
        assert probs[..b] == probs[..a] + probs[a..b];
        SumAppend(probs[..a], probs[a..b]);
      }
    }
  }

  /**
   * With unit weights the raw scores add up to the probability mass of the
   * first `len(actions) * chunk` indices: the remainder past the last chunk
   * is counted for no action.
   */
  lemma RawScoresDropRemainder(probs: seq<real>, actions: seq<Entry>)
    requires actions != []
    requires forall i :: 0 <= i < |actions| ==> actions[i].value == 1.0
    ensures |actions| * ChunkSize(|probs|, |actions|) <= |probs|
    ensures Sum(RawScores(probs, actions)) == Sum(probs[..|actions| * ChunkSize(|probs|, |actions|)])
  {
    UnitScoresCoverPrefix(probs, actions, |actions|);
    ChunkStartIsProduct(ChunkSize(|probs|, |actions|), |actions|);
    assert RawScores(probs, actions)[..|actions|] == RawScores(probs, actions);
  }

  /** Probabilities past the last chunk do not influence the action probabilities at all. */
  lemma {:induction false} RemainderIgnored(probs: seq<real>, probs': seq<real>, actions: seq<Entry>)
    requires actions != [] && |probs| == |probs'|
    requires |actions| * ChunkSize(|probs|, |actions|) <= |probs|
    requires probs[..|actions| * ChunkSize(|probs|, |actions|)] == probs'[..|actions| * ChunkSize(|probs|, |actions|)]
    ensures ActionProbabilities(probs, actions) == ActionProbabilities(probs', actions)
  {
    var c := ChunkSize(|probs|, |actions|);
    var k := |actions|;
    ChunkStartIsProduct(c, k);
    var covered := ChunkStart(c, k);
    forall i | 0 <= i < k ensures RawScore(probs, actions, i) == RawScore(probs', actions, i) {
      ChunkBounds(|probs|, k, i, k);
      var a, b := ChunkStart(c, i), ChunkStart(c, i + 1);
      ChunkStartMonotonic(c, i, i + 1);
      assert probs[a..b] == probs[..covered][a..b];
      assert probs'[a..b] == probs'[..covered][a..b];
    }
    assert RawScores(probs, actions) == RawScores(probs', actions);
  }

  /** With more actions than probabilities every chunk is empty and every action gets 0. */
  lemma MoreActionsThanProbabilities(probs: seq<real>, actions: seq<Entry>)
    requires |probs| < |actions|
    ensures forall i :: 0 <= i < |actions| ==> RawScores(probs, actions)[i] == 0.0
    ensures Values(ActionProbabilities(probs, actions)) == RawScores(probs, actions)
  {
    var raw := RawScores(probs, actions);
    forall i | 0 <= i < |actions| ensures raw[i] == 0.0 {
      ChunkStartIsProduct(0, i);
      ChunkStartIsProduct(0, i + 1);
    }
    SumOfZeros(raw);
  }

  /** The index of the first maximal value: what `max(probs.items(), key=...)` selects. */
  function FirstMaxIndex(values: seq<real>): (k: nat)
    requires values != []
    ensures k < |values|
    ensures forall j :: 0 <= j < |values| ==> values[j] <= values[k]
    ensures forall j :: 0 <= j < k ==> values[j] < values[k]
  {
    if |values| == 1 then 0
    else
      var k := FirstMaxIndex(values[..|values| - 1]);
      if values[|values| - 1] > values[k] then |values| - 1 else k
  }

  /** `{k: v for k, v in probs.items() if k != key}`: every item but those under `key`. */
  function WithoutKey(entries: seq<Entry>, key: string): (rest: seq<Entry>)
    ensures |rest| <= |entries|
  {
    if entries == [] then []
    else
      var init := WithoutKey(entries[..|entries| - 1], key);
      var last := entries[|entries| - 1];
      if last.key == key then init else init + [last]
  }

  /** The items kept are exactly the items whose key is not the removed one. */
  lemma {:induction false} WithoutKeyMembers(entries: seq<Entry>, key: string)
    ensures forall e :: e in WithoutKey(entries, key) <==> e in entries && e.key != key
  {
    if entries != [] {
      var init := entries[..|entries| - 1];
      WithoutKeyMembers(init, key);
      WithoutKeyLast(entries, key);
      assert entries == init + [entries[|entries| - 1]];
    }
  }

  /** The last item is kept, at the end, exactly when its key is not the removed one. */
  lemma WithoutKeyLast(entries: seq<Entry>, key: string)
    requires entries != []
    ensures WithoutKey(entries, key) == WithoutKey(entries[..|entries| - 1], key)
      + if entries[|entries| - 1].key == key then [] else [entries[|entries| - 1]]
  {
  }

  lemma WithoutKeySnoc(init: seq<Entry>, last: Entry, key: string)
    ensures WithoutKey(init + [last], key) == WithoutKey(init, key) + if last.key == key then [] else [last]
  {
    WithoutKeyLast(init + [last], key);
    assert (init + [last])[..|init|] == init;
  }

  /** Removing the key of position `k` from a dictionary removes exactly that item and keeps the order. */
  lemma {:induction false} WithoutKeyAt(entries: seq<Entry>, k: nat)
    requires k < |entries| && DistinctKeys(entries)
    ensures WithoutKey(entries, entries[k].key) == entries[..k] + entries[k + 1..]
    decreases |entries|
  {
    var n := |entries| - 1;
    var init, key := entries[..n], entries[k].key;
    if k == n {
      assert WithoutKey(entries, key) == WithoutKey(init, key) by {
        WithoutKeyLast(entries, key);
      }
      WithoutKeyMissing(init, key);
      assert init == entries[..k] + entries[k + 1..];
    } else {
      var rest := WithoutKey(init, key);
      assert rest == init[..k] + init[k + 1..] by {
        assert init[k] == entries[k] && DistinctKeys(init);
        WithoutKeyAt(init, k);
      }
      var last := entries[n];
      assert last.key != key;
      assert WithoutKey(entries, key) == rest + [last] by {
        assert entries == init + [last];
        WithoutKeySnoc(init, last, key);
      }
      SnocAround(entries, k, rest);
    }
  }

  lemma {:induction false} WithoutKeyMissing(entries: seq<Entry>, key: string)
    requires forall i :: 0 <= i < |entries| ==> entries[i].key != key
    ensures WithoutKey(entries, key) == entries
  {
    if entries != [] {
      var init := entries[..|entries| - 1];
      assert WithoutKey(init, key) == init by {
        WithoutKeyMissing(init, key);
      }
      WithoutKeyLast(entries, key);
      assert entries == init + [entries[|entries| - 1]];
    }
  }

  /** `_calculate_confidence`: entropy-based, apart from its two early returns. */
  function Confidence(actionProbs: seq<Entry>, entropyConfidence: seq<real> -> real): (confidence: real)
    ensures actionProbs == [] ==> confidence == 0.0
    ensures |actionProbs| == 1 ==> confidence == 1.0
    ensures 1 < |actionProbs| ==> confidence == entropyConfidence(Values(actionProbs))
  {
    if actionProbs == [] then 0.0
    else if |actionProbs| == 1 then 1.0
    else entropyConfidence(Values(actionProbs))
  }

  /** The decision `make_decision` assembles from an action-probability map. */
  function Decide(actionProbs: seq<Entry>, numQubits: nat, entropyConfidence: seq<real> -> real, coherence: real)
    : (decision: QuantumDecision)
    requires actionProbs != [] && DistinctKeys(actionProbs)
    ensures exists k :: (
      && 0 <= k < |actionProbs|
      && decision.chosenAction == actionProbs[k].key
      && (forall j :: 0 <= j < |actionProbs| ==> actionProbs[j].value <= actionProbs[k].value)
      && (forall j :: 0 <= j < k ==> actionProbs[j].value < actionProbs[k].value)
      && decision.alternateActions == actionProbs[..k] + actionProbs[k + 1..])
    ensures |decision.alternateActions| == |actionProbs| - 1
    ensures forall e :: e in decision.alternateActions ==> e.key != decision.chosenAction
    ensures decision.confidence == Confidence(actionProbs, entropyConfidence)
    ensures |actionProbs| == 1 ==> decision.confidence == 1.0
    ensures decision.qubitsUsed == numQubits && decision.coherence == coherence
  {
    var k := FirstMaxIndex(Values(actionProbs));
    var alternates := WithoutKey(actionProbs, actionProbs[k].key);
    FirstMaxEntry(actionProbs, k);
    AlternatesAround(actionProbs, k, alternates);
    QuantumDecision(
      Confidence(actionProbs, entropyConfidence),
      actionProbs[k].key,
      alternates,
      numQubits,
      coherence)
  }

  /** The first maximum of the values is the first entry holding the largest value. */
  lemma FirstMaxEntry(entries: seq<Entry>, k: nat)
    requires entries != [] && k == FirstMaxIndex(Values(entries))
    ensures k < |entries|
    ensures forall j :: 0 <= j < |entries| ==> entries[j].value <= entries[k].value
    ensures forall j :: 0 <= j < k ==> entries[j].value < entries[k].value
  {
    var values := Values(entries);
    assert forall j :: 0 <= j < |entries| ==> values[j] == entries[j].value;
  }

  /** With distinct keys, removing the key at `k` leaves the other items in order, none under that key. */
  lemma AlternatesAround(entries: seq<Entry>, k: nat, alternates: seq<Entry>)
    requires k < |entries| && DistinctKeys(entries)
    requires alternates == WithoutKey(entries, entries[k].key)
    ensures alternates == entries[..k] + entries[k + 1..]
    ensures |alternates| == |entries| - 1
    ensures forall e :: e in alternates ==> e.key != entries[k].key
  {
    assert alternates == entries[..k] + entries[k + 1..] by {
      WithoutKeyAt(entries, k);
    }
    SliceAroundLength(entries, k, alternates);
    WithoutKeyMembers(entries, entries[k].key);
  }

  class QuantumProcessor {
    const numQubits: nat
    const errorThreshold: real
    const maxDepth: int
    var state: seq<Complex>

    constructor (numQubits: nat := 4, errorThreshold: real := 0.01, maxDepth: int := 10)
      ensures this.numQubits == numQubits && this.errorThreshold == errorThreshold && this.maxDepth == maxDepth
      ensures |state| == Pow2(numQubits) && state[0] == One
      ensures forall i :: 1 <= i < |state| ==> state[i] == Zero
    {
      var ground := InitializeState(numQubits);
      this.numQubits := numQubits;
      this.errorThreshold := errorThreshold;
      this.maxDepth := maxDepth;
      state := ground;
    }

    /**
     * `make_decision`: the entropy measure of confidence and the l1 coherence
     * of the state are supplied by the caller.
     */
    method MakeDecision(
      actions: seq<Entry>,
      entropyConfidence: seq<real> -> real,
      stateCoherence: seq<Complex> -> real)
      returns (r: Result<QuantumDecision, DecisionError>)
      requires DistinctKeys(actions)
      ensures actions == [] ==> r == Failure(NoActions)
      ensures actions != [] ==> r == Success(Decide(
        ActionProbabilities(Probabilities(state), actions), numQubits, entropyConfidence, stateCoherence(state)))
    {
      var probs := CalculateActionProbabilities(Probabilities(state), actions);
      if probs.Failure? {
        return Failure(probs.error);
      }
      var decision := Decide(probs.value, numQubits, entropyConfidence, stateCoherence(state));
      return Success(decision);
    }
  }
}
