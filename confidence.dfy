/** The confidence gate: accept the classifier's prediction or escalate to
    the fallback chain, by one comparison against a threshold fixed when the
    gate is built. */
module Confidence {
  import opened Strings

  /** What `check` returns: `(is_confident, message)`. */
  datatype Verdict = Verdict(accepted: bool, message: string)

  const AcceptAction := "Accepting prediction."
  const EscalateAction := "Triggering fallback."

  /** The message names the confidence as a percentage with one decimal, the
      comparison made, the threshold as a whole percentage, and the action. */
  /** The action a verdict announces. */
  function ActionFor(accepted: bool): string
  {
    if accepted then AcceptAction else EscalateAction
  }

  /** The comparison a verdict reports, with the text around it. */
  function ComparisonFor(accepted: bool): string
  {
    if accepted then "%) >= threshold (" else "%) < threshold ("
  }

  function VerdictMessage(confidence: real, threshold: real, accepted: bool): string
  {
    "Confidence (" + FormatFixed(confidence * 100.0, 1)
      + (ComparisonFor(accepted) + FormatFixed(threshold * 100.0, 0) + ("%). " + ActionFor(accepted)))
  }

  /** The message gives, in order, the confidence as a percentage with one
      decimal, the comparison made (`>=` when accepted, `<` otherwise), the
      threshold as a whole percentage, and ends with the action taken. */
  lemma VerdictMessageShape(confidence: real, threshold: real, accepted: bool)
    ensures var message := VerdictMessage(confidence, threshold, accepted);
            var percent := FormatFixed(confidence * 100.0, 1);
            var comparison := ComparisonFor(accepted);
            var limit := FormatFixed(threshold * 100.0, 0);
            var action := ActionFor(accepted);
            var afterPercent := 12 + |percent|;
            var afterComparison := afterPercent + |comparison|;
            |message| >= afterComparison + |limit| + |action|
            && message[..12] == "Confidence ("
            && message[12..afterPercent] == percent
            && message[afterPercent..afterComparison] == comparison
            && message[afterComparison..afterComparison + |limit|] == limit
            && message[|message| - |action|..] == action
  {
    SlicesOfParts("Confidence (", FormatFixed(confidence * 100.0, 1), ComparisonFor(accepted),
                  FormatFixed(threshold * 100.0, 0), "%). ", ActionFor(accepted));
  }

  /** Where each part lies in `opening + percent + (comparison + limit + (close + action))`. */
  lemma SlicesOfParts(opening: string, percent: string, comparison: string, limit: string, close: string, action: string)
    ensures var m := opening + percent + (comparison + limit + (close + action));
            var a := |opening| + |percent|;
            var b := a + |comparison|;
            |m| == b + |limit| + |close| + |action|
            && m[..|opening|] == opening && m[|opening|..a] == percent
            && m[a..b] == comparison && m[b..b + |limit|] == limit
            && m[|m| - |action|..] == action
  {
    var lead := opening + percent;
    var tail := comparison + limit + (close + action);
    var m := lead + tail;
    assert m[..|opening|] == opening;
    assert m[|opening|..|lead|] == percent;
    assert m[|lead|..] == tail;
    assert tail[..|comparison|] == comparison;
    assert tail[|comparison|..|comparison| + |limit|] == limit;
    assert m[|m| - |action|..] == action;
  }

  /** A gate whose only state is the threshold, written once when it is built. */
  datatype ConfidenceCheckNode = ConfidenceCheckNode(threshold: real)
  {
    /** Accepts exactly when `confidence >= threshold` (so it escalates
        exactly when `confidence < threshold`, and a confidence equal to the
        threshold is accepted); the label plays no part; there is no failing
        path. */
    function Check(predictedLabel: string, confidence: real): (v: Verdict)
      ensures v.accepted <==> confidence >= threshold
    {
      var accepted := confidence >= threshold;
      Verdict(accepted, VerdictMessage(confidence, threshold, accepted))
    }
  }

  /** The verdict, message included, does not depend on the label. */
  lemma CheckIgnoresLabel(gate: ConfidenceCheckNode, label1: string, label2: string, confidence: real)
    ensures gate.Check(label1, confidence) == gate.Check(label2, confidence)
  {
  }

  /** Raising the confidence never turns an acceptance into an escalation. */
  lemma CheckMonotone(gate: ConfidenceCheckNode, predictedLabel: string, low: real, high: real)
    requires low <= high
    ensures gate.Check(predictedLabel, low).accepted ==> gate.Check(predictedLabel, high).accepted
  {
  }

  /** The message ends in the action the verdict takes. */
  lemma MessageNamesAction(gate: ConfidenceCheckNode, predictedLabel: string, confidence: real)
    ensures var v := gate.Check(predictedLabel, confidence);
            var action := if v.accepted then AcceptAction else EscalateAction;
            |v.message| >= |action| && v.message[|v.message| - |action|..] == action
  {
    VerdictMessageShape(confidence, gate.threshold, confidence >= gate.threshold);
  }
}
