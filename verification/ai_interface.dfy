/**
 * The pure text helpers of `AIInterface`: input normalisation and the
 * confidence-band wording of a response.
 */
module AIInterface {
  import opened Text

  /** `input_text.strip().lower()`: the middle of the input between its outer whitespace, lower-cased. */
  function PreprocessInput(inputText: string): (text: string)
    ensures |text| <= |inputText|
    ensures var a := LeadingSpace(inputText);
      && Trimmed(inputText, a, |text|)
      && forall i :: 0 <= i < |text| ==> text[i] == LowerChar(inputText[a + i])
    ensures NoOuterSpace(text)
    ensures forall i :: 0 <= i < |text| ==> !IsUpper(text[i])
    ensures text == [] <==> AllSpace(inputText)
  {
    LowerOfStrip(inputText);
    Lower(Strip(inputText))
  }

  /** Lower-casing the stripped text keeps it the middle of `s`, free of outer whitespace and of capitals. */
  lemma LowerOfStrip(s: string)
    ensures var a, text := LeadingSpace(s), Lower(Strip(s));
      && |text| <= |s|
      && Trimmed(s, a, |text|)
      && (forall i :: 0 <= i < |text| ==> text[i] == LowerChar(s[a + i]))
      && NoOuterSpace(text)
      && (forall i :: 0 <= i < |text| ==> !IsUpper(text[i]))
      && (text == [] <==> AllSpace(s))
  {
    var r := Strip(s);
    LowerOfMiddle(s, LeadingSpace(s), r);
  }

  /** Lower-casing a middle `r` of `s` gives the lower-cased middle, still free of outer whitespace and of capitals. */
  lemma LowerOfMiddle(s: string, a: nat, r: string)
    requires Trimmed(s, a, |r|) && r == s[a..a + |r|]
    requires NoOuterSpace(r) && (r == [] <==> AllSpace(s))
    ensures var text := Lower(r);
      && |text| <= |s|
      && Trimmed(s, a, |text|)
      && (forall i :: 0 <= i < |text| ==> text[i] == LowerChar(s[a + i]))
      && NoOuterSpace(text)
      && (forall i :: 0 <= i < |text| ==> !IsUpper(text[i]))
      && (text == [] <==> AllSpace(s))
  {
    LowerKeepsNoOuterSpace(r);
  }

  /** Lower-casing keeps a string free of outer whitespace. */
  lemma LowerKeepsNoOuterSpace(s: string)
    requires NoOuterSpace(s)
    ensures NoOuterSpace(Lower(s))
  {
  }

  /** Preprocessing an already preprocessed text changes nothing. */
  lemma {:induction false} PreprocessIdempotent(inputText: string)
    ensures PreprocessInput(PreprocessInput(inputText)) == PreprocessInput(inputText)
  {
    var once := PreprocessInput(inputText);
    var stripped := Strip(inputText);
    LowerKeepsNoOuterSpace(stripped);
    StripKeepsStripped(once);
    LowerIdempotent(stripped);
  }

  const HighConfidencePrefix: string := "With high confidence: "
  const AnalysisPrefix: string := "Based on my analysis: "
  const CautiousPrefix: string := "Taking into consideration the complexity: "

  /** `quantum_decision.get('probability', 0.0)`. */
  function DecisionProbability(quantumDecision: map<string, real>): real
  {
    if "probability" in quantumDecision then quantumDecision["probability"] else 0.0
  }

  /** The response wording chosen by the decision's probability band. */
  function EnhanceResponse(baseResponse: string, quantumDecision: map<string, real>): (enhanced: string)
    ensures DecisionProbability(quantumDecision) > 0.8 ==> enhanced == HighConfidencePrefix + baseResponse
    ensures 0.5 < DecisionProbability(quantumDecision) <= 0.8 ==> enhanced == AnalysisPrefix + baseResponse
    ensures DecisionProbability(quantumDecision) <= 0.5 ==> enhanced == CautiousPrefix + baseResponse
    ensures "probability" !in quantumDecision ==> enhanced == CautiousPrefix + baseResponse
    ensures |enhanced| > |baseResponse| && enhanced[|enhanced| - |baseResponse|..] == baseResponse
  {
    var confidence := DecisionProbability(quantumDecision);
    if confidence > 0.8 then
      HighConfidencePrefix + baseResponse
    else if confidence > 0.5 then
      AnalysisPrefix + baseResponse
    else
      CautiousPrefix + baseResponse
  }

  /** The wording identifies the band: each prefix is produced by exactly one band. */
  lemma {:induction false} EnhanceResponseBandIff(baseResponse: string, quantumDecision: map<string, real>)
    ensures var enhanced := EnhanceResponse(baseResponse, quantumDecision);
      && (HighConfidencePrefix <= enhanced <==> DecisionProbability(quantumDecision) > 0.8)
      && (AnalysisPrefix <= enhanced <==> 0.5 < DecisionProbability(quantumDecision) <= 0.8)
      && (CautiousPrefix <= enhanced <==> DecisionProbability(quantumDecision) <= 0.5)
  {
    var enhanced := EnhanceResponse(baseResponse, quantumDecision);
    var confidence := DecisionProbability(quantumDecision);
    assert HighConfidencePrefix[0] == 'W' && AnalysisPrefix[0] == 'B' && CautiousPrefix[0] == 'T';
    if confidence > 0.8 {
      assert enhanced[0] == 'W';
    } else if confidence > 0.5 {
      assert enhanced[0] == 'B';
    } else {
      assert enhanced[0] == 'T';
    }
  }
}
