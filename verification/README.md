# Logic Force Theory core, modelled in Dafny

This project models the discrete, counting and ratio logic of the Logic Force
Theory framework and proves properties of it. The model has seven modules:

- `LogicForces` (`logic_force.dfy`) models the rule table of a
  `LogicForceProcessor`, which maps a rule id to its patterns, weight and
  optional context and range-checks the weight on entry. It also models:
  - the wildcard pattern matcher;
  - the match finder, which maps each rule to its matching patterns;
  - the four components of a `LogicForce`: magnitude, coherence, direction
    and uncertainty;
  - the guards of the quantum interface.
- `QuantumProcessing` (`quantum_processor.dfy`) models a `QuantumProcessor`:
  - the ground state it holds;
  - the action-probability map, built by summing equal contiguous chunks of
    the measurement probabilities, weighting them and normalising;
  - the decision: the first maximal action, with every other entry kept as an
    alternate;
  - the early returns of the confidence.
- `AIInterface` (`ai_interface.dfy`) covers input preprocessing
  (`strip().lower()`) and the confidence-band wording of responses.
- `Measurements` (`measurements.dfy`) covers `PerformanceMetrics`, an
  append-only metric history with per-name statistics.
- `Text`, `Numeric`, `Collections` and `Wrappers` hold the string
  primitives (Python's `isspace`, `lower`, `strip` and `split`), exact sums
  of reals, complex amplitudes, small facts about sequences and sets, and
  the `Option`/`Result`/`Outcome` types.

How the Python code maps onto the model:

- Python dictionaries whose insertion order matters are ordered sequences of
  entries with distinct keys. These are the actions and the action
  probabilities.
- The rule table is a `map` plus the sequence of its ids in insertion order.
- The match map is a `map`; only order-free sums, counts and unions are taken
  over it.
- Python's default arguments are Dafny default parameter values:
  - `LogicForceProcessor` defaults to thresholds 0.5 and 0.7 with quantum
    processing enabled;
  - `add_rule` and `calculate_force` default the context to `None`;
  - `QuantumProcessor` defaults to 4 qubits, error threshold 0.01 and depth 10.
  `CalculateForce` takes the entropy measure as a parameter before the
  context, so that the context can stay last and keep its default.
- Floats are exact `real`s. `np.pi` is the decimal constant
  3.141592653589793; the proofs use only that it is positive.
- Exceptions are error values:
  - `ValueError` on a weight outside [0, 1] is `Outcome.Fail(WeightOutOfRange)`;
  - `RuntimeError` when quantum processing is disabled is `QuantumDisabled`;
  - `ValueError` on a shape mismatch is `IncompatibleStates`;
  - the `OverflowError` of `int(-np.log2(0.0))`, raised when the distinct
    matched words are as many as the input words and the uncertainty is
    therefore 0, is `QubitCountOverflow`;
  - the `ValueError` of converting `-np.log2` of a negative uncertainty (a
    NaN) to an integer is `QubitCountUndefined`;
  - the division by zero of an empty action map is `NoActions`.
- Quantities computed by floating-point numerics outside the modelled core are
  function-typed parameters. These are the entropy-based coherence and
  confidence, the l1 coherence of the state, the state encoding of a force,
  and the normalisation of a state. Each appears exactly where the code calls
  it, and every guard and early return around it is modelled.

Behaviour of the code that a reader might not expect, and which the model keeps:

- The last action's chunk does not absorb the remainder of
  `len(probs) // len(actions)`. The probabilities past `len(actions) * chunk`
  are counted for no action (`RawScoresDropRemainder`, `RemainderIgnored`).
- The field comment `# 0-2π` of `LogicForce.direction`
  (src/core/logic_force.py:11) gives the range of the direction. A fully
  aligned context reaches its upper end: the direction is exactly 2π
  (`FullAlignment`), so the range is the closed interval [0, 2π].
- tests/test_logic_force.py calls a scalar force mode,
  `generate_quantum_state` and `apply_coherence_check`, which
  src/core/logic_force.py does not define.
- `LogicForceProcessor` defines no `process` method. Yet
  tests/test_logic_force.py and `AIInterface.process_message`
  (src/core/ai_interface.py:81) call `process` on a `LogicForceProcessor`.
- `QuantumDecisionSystem` is not defined in src/core/quantum_processor.py.
  Yet tests/test_quantum_processor.py, the package `__init__` files,
  `AIInterface` (src/core/ai_interface.py:18, 66) and the chatbot example
  (line 83 of `chatbot_example.py`) use it and call its `process`.
- None of these undefined members is modelled.

## Model

| member | source | states |
|---|---|---|
| LogicForces.LogicForceProcessor.constructor | src/core/logic_force.py:24-31 | the thresholds and the enable flag, by default 0.5, 0.7 and enabled, are stored; the rule table starts empty and valid |
| LogicForces.LogicForceProcessor.AddRule | src/core/logic_force.py:33-41 | a weight outside [0, 1] fails and leaves the table unchanged; otherwise the id is bound to the new rule, no other id changes, a new id is appended to the insertion order, and every stored weight stays in [0, 1] |
| LogicForces.PatternMatches | src/core/logic_force.py:79-83 | a word always matches itself; a pattern without a trailing `*` matches only the identical word; a matched word is at most one character shorter than the pattern |
| LogicForces.WildcardMatches | src/core/logic_force.py:79-83 | `stem*` matches a word exactly when the word starts with `stem`; `*` matches every word |
| LogicForces.MatchedPatterns | src/core/logic_force.py:71-74 | the kept patterns are exactly the rule's patterns that match some word; each matching pattern is kept as often as the rule lists it and a non-matching one never; the result is empty exactly when no pattern matches |
| LogicForces.MatchedPatternsAppend | src/core/logic_force.py:71-74 | filtering a concatenation of pattern lists gives the concatenation of the filtered parts, so the kept patterns stay in the rule's order |
| LogicForces.Matches | src/core/logic_force.py:67-77 | the keys are exactly the rules with a pattern matching some word; each value is that rule's matching patterns; no words give no matches |
| LogicForces.LogicForceProcessor.FindPatternMatches | src/core/logic_force.py:67-77 | the loop over the rules in insertion order builds exactly `Matches` |
| LogicForces.WeightedSum | src/core/logic_force.py:87-88 | when none of the listed rule ids matched, the weighted sum is 0 |
| LogicForces.WeightedSumNonNegative | src/core/logic_force.py:87-88 | with stored weights in [0, 1] the sum of weight × matched-pattern count is non-negative |
| LogicForces.Magnitude | src/core/logic_force.py:85-89 | the magnitude is at most 1, and at least 0 when the stored weights are in range |
| LogicForces.PatternCounts | src/core/logic_force.py:97 | no more counts than listed rules, and each count is positive when every matched rule kept a pattern |
| LogicForces.PatternCountsSingle | src/core/logic_force.py:97 | a single rule id gives the length of its matched-pattern list when it matched, and no count otherwise |
| LogicForces.PatternCountsAppend | src/core/logic_force.py:97 | the counts of a concatenation of id lists are the counts of the first part followed by those of the second, so the counts follow the order of the rules |
| LogicForces.PatternCountsLength | src/core/logic_force.py:97 | with distinct ids, there are as many counts as listed rules that matched |
| LogicForces.PatternCountsPerMatchedRule | src/core/logic_force.py:97 | when the ids list every matched rule once, there is exactly one count per matched rule |
| LogicForces.Coherence | src/core/logic_force.py:91-99 | coherence is 1 when at most one rule matched; otherwise it is the entropy measure of the pattern counts |
| LogicForces.Aligned | src/core/logic_force.py:121-124 | the aligned rules are exactly the matched rules whose context equals the given one; they are among the matched rules and no more numerous; when every matched rule carries the context, all matched rules are aligned |
| LogicForces.Direction | src/core/logic_force.py:113-131 | no context or an empty one gives 0; no aligned matched rule gives π; otherwise the direction lies in (0, 2π] |
| LogicForces.FullAlignment | src/core/logic_force.py:129-131 | when every matched rule carries the context, the direction is exactly 2π |
| LogicForces.PatternCover | src/core/logic_force.py:144-150 | every word a pattern adds is matched by the pattern; every input word the pattern matches is added; a pattern that matches some input word adds input words only |
| LogicForces.CoveredWordIsMatched | src/core/logic_force.py:140-150 | every word in the matched-word set is an input word matched by a matched pattern |
| LogicForces.MatchedWordIsCovered | src/core/logic_force.py:140-150 | every input word matched by a matched pattern is in the matched-word set |
| LogicForces.CoverIsMatchedWords | src/core/logic_force.py:140-150 | the matched-word set is exactly the input words that some matched pattern matches, in both directions |
| LogicForces.CoverAtMostWords | src/core/logic_force.py:140-153 | the matched-word set has at most as many elements as there are input words |
| LogicForces.CoverNonEmpty | src/core/logic_force.py:140-153 | as soon as a rule matched, the matched-word set is not empty |
| LogicForces.Uncertainty | src/core/logic_force.py:133-154 | no words give uncertainty 1; uncertainty never exceeds 1 |
| LogicForces.SingleMatchedWordIsCertain | src/core/logic_force.py:133-154 | a single input word that some rule matches gives uncertainty 0, the value on which `to_quantum_state` overflows |
| LogicForces.UncertaintyInRange | src/core/logic_force.py:133-154 | for the matches of the words, uncertainty lies in [0, 1], and below 1 as soon as a rule matched |
| LogicForces.LogicForceProcessor.AddCoveredWords | src/core/logic_force.py:143-150 | the inner loop adds exactly the words covered by the rule's patterns |
| LogicForces.LogicForceProcessor.CalculateUncertainty | src/core/logic_force.py:133-154 | the nested loops compute exactly `Uncertainty` |
| LogicForces.Words | src/core/logic_force.py:47 | the token list is empty exactly when the text is all whitespace |
| LogicForces.ForceNoMatchIff | src/core/logic_force.py:47-65 | the force is the no-match force (0, 1, 0, 1) exactly when no rule matched |
| LogicForces.BlankTextHasNoForce | src/core/logic_force.py:47-51 | empty or whitespace-only text gives the no-match force |
| LogicForces.Force | src/core/logic_force.py:43-65 | no matching rule, in particular no words, gives the no-match force; the uncertainty never exceeds 1; coherence is 1 when at most one rule matched |
| LogicForces.ForceInRange | src/core/logic_force.py:6-12 | with stored weights in range, magnitude and uncertainty lie in [0, 1] and direction in [0, 2π]; coherence is 1 when at most one rule matched |
| LogicForces.LogicForceProcessor.CalculateForce | src/core/logic_force.py:43-65 | the method computes exactly `Force` on the lower-cased, split text |
| LogicForces.LogicForceProcessor.ToQuantumState | src/core/logic_force.py:156-161 | disabled processing fails with `QuantumDisabled`; uncertainty 0 fails with `QubitCountOverflow` and a negative uncertainty with `QubitCountUndefined`; otherwise the result is the encoding of the force |
| LogicForces.Superpose | src/core/logic_force.py:199-200 | the blend has the length of the two states |
| LogicForces.SuperposeEndpoints | src/core/logic_force.py:199-200 | magnitude 1 yields the force state and magnitude 0 the target state |
| LogicForces.LogicForceProcessor.ApplyForce | src/core/logic_force.py:184-205 | disabled processing fails; the qubit-count errors of `to_quantum_state` are passed on; states of different lengths fail with `IncompatibleStates`; otherwise the result is the normalised blend by magnitude |
| QuantumProcessing.InitializeState | src/core/quantum_processor.py:27-32 | the state has length 2^n, amplitude 1 at index 0 and 0 everywhere else |
| QuantumProcessing.QuantumProcessor.constructor | src/core/quantum_processor.py:18-32 | the parameters, by default 4 qubits, 0.01 and 10, are stored and the register starts in the ground state of 2^n amplitudes |
| QuantumProcessing.Probabilities | src/core/quantum_processor.py:154 | one non-negative probability per amplitude |
| QuantumProcessing.ChunkBounds | src/core/quantum_processor.py:158-163 | the chunks of distinct actions are in order, do not overlap, and lie inside the probability vector |
| QuantumProcessing.ChunkSumIsSlice | src/core/quantum_processor.py:161-163 | action i's chunk is the slice from i·chunk to (i+1)·chunk, which lies inside the vector |
| QuantumProcessing.Normalize | src/core/quantum_processor.py:165-168 | a positive total divides every score by the total; otherwise the scores are unchanged; non-negative scores become shares in [0, 1] that sum to 1 when the total is positive |
| QuantumProcessing.ActionProbabilities | src/core/quantum_processor.py:150-170 | one entry per action, with the same keys in the same order; distinct keys stay distinct |
| QuantumProcessing.CalculateActionProbabilities | src/core/quantum_processor.py:150-170 | no actions fail with `NoActions`; otherwise the chunk loop and the normalisation compute exactly `ActionProbabilities` |
| QuantumProcessing.ActionProbabilitiesAreDistribution | src/core/quantum_processor.py:163-168 | with non-negative probabilities and weights, every value lies in [0, 1], and the values sum to 1 or are all 0 |
| QuantumProcessing.UnitScoresCoverPrefix | src/core/quantum_processor.py:158-163 | with unit weights, the first m scores sum to the probability mass of the first m chunks |
| QuantumProcessing.RawScoresDropRemainder | src/core/quantum_processor.py:158-163 | with unit weights, the raw scores sum to the mass of the first len(actions)·chunk probabilities only |
| QuantumProcessing.RemainderIgnored | src/core/quantum_processor.py:158-163 | probabilities past len(actions)·chunk never change the action probabilities |
| QuantumProcessing.MoreActionsThanProbabilities | src/core/quantum_processor.py:158-163 | with more actions than probabilities every raw score is 0 and no normalisation happens |
| QuantumProcessing.FirstMaxIndex | src/core/quantum_processor.py:134 | the selected index holds a maximal value, and every earlier index holds a strictly smaller one |
| QuantumProcessing.WithoutKey | src/core/quantum_processor.py:145 | the filtered dictionary is never longer than the original; its items are given by `WithoutKeyMembers` and `WithoutKeyAt` |
| QuantumProcessing.WithoutKeyMembers | src/core/quantum_processor.py:145 | the items kept are exactly the items whose key is not the removed one |
| QuantumProcessing.WithoutKeyAt | src/core/quantum_processor.py:145 | removing the key at position k of a dictionary removes exactly that item and keeps the order of the rest |
| QuantumProcessing.Confidence | src/core/quantum_processor.py:172-183 | an empty map gives 0, a single action gives 1, and larger maps use the entropy measure |
| QuantumProcessing.FirstMaxEntry | src/core/quantum_processor.py:134 | the first maximal value belongs to an entry whose value no other entry exceeds and every earlier entry falls short of |
| QuantumProcessing.AlternatesAround | src/core/quantum_processor.py:134-145 | with distinct keys, removing the chosen key leaves every other entry in order, one fewer than before, none under the chosen key |
| QuantumProcessing.Decide | src/core/quantum_processor.py:127-148 | the chosen action is the first maximal entry; the alternates are every other entry in order and never carry the chosen key; the confidence is `Confidence` of the action probabilities; the qubit count and coherence are passed through |
| QuantumProcessing.QuantumProcessor.MakeDecision | src/core/quantum_processor.py:127-148 | no actions fail; otherwise the decision is `Decide` on the action probabilities of the current state |
| AIInterface.PreprocessInput | src/core/ai_interface.py:35-39 | the result is the middle of the input between its leading and trailing whitespace, lower-cased character by character; it has no outer whitespace and no upper-case letter, and is empty exactly when the input is all whitespace |
| AIInterface.PreprocessIdempotent | src/core/ai_interface.py:38 | preprocessing twice equals preprocessing once |
| AIInterface.EnhanceResponse | src/core/ai_interface.py:41-58 | above 0.8 the high-confidence prefix; in (0.5, 0.8] the analysis prefix; otherwise, including a missing probability, the cautious prefix; the response always ends with the base response |
| AIInterface.EnhanceResponseBandIff | src/core/ai_interface.py:46-56 | each prefix is produced exactly in its own confidence band |
| Text.Strip | src/core/ai_interface.py:38 | the result is the slice of the input that starts after its leading whitespace and is followed only by whitespace; it has no outer whitespace and is empty exactly when the input is all whitespace |
| Text.StripKeepsStripped | src/core/ai_interface.py:38 | a string without outer whitespace is unchanged by stripping |
| Text.LowerChar | src/core/ai_interface.py:38 | `A`..`Z` move up by 32 to `a`..`z`; every other character is kept; whitespace stays whitespace |
| Text.Lower | src/core/ai_interface.py:38 | same length; each character is lower-cased on its own, so non-capitals are kept and capitals become their small letters |
| Text.LowerIdempotent | src/core/ai_interface.py:38 | lower-casing twice equals lower-casing once |
| Text.Split | src/core/logic_force.py:47 | every word is non-empty and whitespace-free; there are no words exactly when the text is all whitespace |
| Text.WordLengthUnique | src/core/logic_force.py:47 | the first word of a text is its longest whitespace-free prefix, and no other |
| Text.SplitWord | src/core/logic_force.py:47 | a non-empty whitespace-free text splits into exactly one word, itself |
| Text.SplitAtSpace | src/core/logic_force.py:47 | a whitespace character separates words: splitting `a + c + b` at whitespace `c` gives the words of `a` followed by the words of `b` |
| Text.SplitKeepsEveryOtherChar | src/core/logic_force.py:47 | the words, concatenated, are the non-whitespace characters of the text in order |
| Measurements.PerformanceMetrics.constructor | utils/measurements.py:75-76 | the history starts empty |
| Measurements.PerformanceMetrics.RecordMetric | utils/measurements.py:78-93 | exactly one record is appended at the end; that name's count grows by one; every other name's statistics are unchanged |
| Measurements.ValuesOf | utils/measurements.py:100-104 | as many values as records carrying the name, and exactly the values of those records |
| Measurements.ValuesOfAppend | utils/measurements.py:100-104 | the values of a concatenated history are the values of its parts, in order |
| Measurements.Mean | utils/measurements.py:110 | the mean lies between the minimum and the maximum |
| Measurements.Minimum | utils/measurements.py:112 | a value of the list that is no greater than any other |
| Measurements.Maximum | utils/measurements.py:113 | a value of the list that is no smaller than any other |
| Measurements.Stats | utils/measurements.py:95-115 | empty exactly when no record carries the name; otherwise the count equals the number of such records, min ≤ mean ≤ max, min and max are recorded values, and every recorded value lies between them |
| Measurements.OtherNamesUnaffected | utils/measurements.py:100-104 | a record under another name does not change a name's statistics |
| Measurements.StatsDependOnlyOnOwnValues | utils/measurements.py:100-115 | statistics depend only on the values recorded under the name |
| Measurements.PerformanceMetrics.GetMetricStats | utils/measurements.py:95-115 | the method returns `Stats` of the current history and changes nothing |
| Measurements.PerformanceMetrics.ClearHistory | utils/measurements.py:117-119 | the history is empty and every name's statistics are empty |

## Left out

- The entropy-based coherence for two or more matched rules
  (src/core/logic_force.py:101-111) and the entropy-based confidence for two
  or more actions (src/core/quantum_processor.py:178-187) are logarithms over
  floats. Each is a function parameter.
- The l1 coherence of the state (src/core/quantum_processor.py:189-194) is
  complex floating-point arithmetic. It is a function parameter.
- The body of `to_quantum_state` after its guards is left out: the qubit
  count from `log2`, the phases from `exp`, and the normalisation by the
  Euclidean norm (src/core/logic_force.py:161-182). The encoding is a
  parameter. The errors of the qubit-count computation are modelled as
  guards (`QubitCountOverflow`, `QubitCountUndefined`).
- The final normalisation of `apply_force` (src/core/logic_force.py:203) is
  a parameter, because it uses a square root.
- `apply_logic_operation`, `_create_logic_operator`,
  `_apply_partial_operator` and `_extend_to_system`
  (src/core/quantum_processor.py:34-125) are left out. They are matrix
  algebra over a foreign linear-algebra library. The state therefore stays
  in its ground state in this model.
- `LogicMeasurements` and `QuantumAnalytics` (utils/measurements.py:11-70)
  are left out: fidelity, von Neumann entropy and variance over complex
  floats.
- Measurements.Stats: the `std` entry (utils/measurements.py:111) is left
  out, because it needs a square root.
- Measurements.PerformanceMetrics.RecordMetric: the timestamp is always
  passed in. The wall-clock default `time.time()` (utils/measurements.py:85-87)
  is not modelled.
- `AIInterface.__init__`, `process_message`, `update_rules` and `calibrate`
  (src/core/ai_interface.py:14-33, 60-99) are left out. They call a
  `QuantumDecisionSystem` that the source does not define. `process_message`
  also calls `process` on a `LogicForceProcessor`, a method that class does
  not define (src/core/ai_interface.py:81).
- The chatbot example, the packaging files and the package re-exports are
  left out.
- Text.Lower: lower-cases ASCII letters only. Python's `str.lower` also maps
  other Unicode letters.
- Floating-point rounding is left out: sums and quotients are exact reals.
- QuantumProcessing.InitializeState: the qubit count is a natural number.
  A negative `num_qubits`, which makes `2 ** n` a float in Python, is not
  modelled.
- QuantumProcessing.QuantumProcessor.MakeDecision: a Python dictionary's
  distinct keys are a precondition on the action list.
