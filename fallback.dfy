/** The fallback resolver: the escalation chain run after the confidence gate
    rejects a prediction. Its stages are user clarification, zero-shot
    classification of the original text, and a forced explicit label, and it
    always ends in a `(label, reason)` pair unless standard input runs out. */
module Fallback {
  import opened Wrappers
  import opened Strings

  const NEGATIVE := "NEGATIVE"
  const POSITIVE := "POSITIVE"

  /** The labels used when the caller passes none, or an empty list. */
  const DefaultCandidates := [NEGATIVE, POSITIVE]

  /** The zero-shot model name `__init__` uses when none is given. */
  const DefaultZeroShotModel := "facebook/bart-large-mnli"

  const ClarifiedReason := "Corrected by user clarification"
  const NegationReason := "Heuristic from user text"
  const DefaultPositiveReason := "Heuristic from user text (default positive)"
  const ExplicitReason := "Explicit user-provided final label"
  const DefaultReason := "Default fallback - chose NEGATIVE"

  /** The configured strategy string. Any string other than the three known
      names is kept as `Other`: it enables neither the clarification stage
      nor the zero-shot stage. */
  datatype Strategy = AskUser | ZeroShot | AskThenZeroShot | Other(name: string)
  {
    /** Stage 1 runs under these strategies. */
    predicate AsksUser() { AskUser? || AskThenZeroShot? }

    /** A zero-shot classifier is loaded, and stage 2 may run, under these. */
    predicate AllowsZeroShot() { ZeroShot? || AskThenZeroShot? }
  }

  /** Reads the `fallback_strategy` string. */
  function ParseStrategy(name: string): (s: Strategy)
    ensures s == AskUser <==> name == "ask_user"
    ensures s == ZeroShot <==> name == "zero_shot"
    ensures s == AskThenZeroShot <==> name == "ask_then_zero_shot"
    ensures s.Other? ==> s.name == name
  {
    if name == "ask_user" then AskUser
    else if name == "zero_shot" then ZeroShot
    else if name == "ask_then_zero_shot" then AskThenZeroShot
    else Other(name)
  }

  function StrategyName(s: Strategy): string
  {
    match s
    case AskUser => "ask_user"
    case ZeroShot => "zero_shot"
    case AskThenZeroShot => "ask_then_zero_shot"
    case Other(name) => name
  }

  /** The strategy remembers exactly the string it was configured with. */
  lemma StrategyNameRoundTrip(name: string)
    ensures StrategyName(ParseStrategy(name)) == name
  {
  }

  /** The top entry of a zero-shot classification: `labels[0]` and `scores[0]`. */
  datatype TopPrediction = TopPrediction(topLabel: string, score: real)

  /** A loaded zero-shot pipeline, called as `zero_shot(text, candidate_labels)`. */
  type ZeroShotClassifier = (string, seq<string>) -> TopPrediction

  /** The fields `__init__` sets; none of them changes afterwards. */
  datatype FallbackNode = FallbackNode(
    strategy: Strategy,
    zeroShotModel: string,
    zeroShot: Option<ZeroShotClassifier>)

  /** `FallbackNode.__init__`: a zero-shot classifier is loaded exactly when
      the strategy names zero-shot and the library could be imported.
      `loadPipeline` stands for building the library's pipeline from a model name. */
  function NewFallbackNode(
    strategyName: string,
    zeroShotModel: string,
    zeroShotAvailable: bool,
    loadPipeline: string -> ZeroShotClassifier): (node: FallbackNode)
    ensures node.strategy == ParseStrategy(strategyName)
    ensures node.zeroShotModel == zeroShotModel
    ensures node.zeroShot.Some? <==>
              (strategyName in {"zero_shot", "ask_then_zero_shot"} && zeroShotAvailable)
    ensures node.zeroShot.Some? ==> node.zeroShot.value == loadPipeline(zeroShotModel)
  {
    var strategy := ParseStrategy(strategyName);
    var zeroShot := if strategy.AllowsZeroShot() && zeroShotAvailable
                    then Some(loadPipeline(zeroShotModel)) else None;
    FallbackNode(strategy, zeroShotModel, zeroShot)
  }

  /** How the chain ends: a label with its reason and the number of user
      responses read, or `EndOfInput` when a prompt finds standard input
      exhausted (`input()` raises `EOFError`). */
  datatype Resolution = Resolved(finalLabel: string, reason: string, consumed: nat) | EndOfInput

  /** `candidate_labels or ["NEGATIVE", "POSITIVE"]`. */
  function EffectiveCandidates(candidateLabels: Option<seq<string>>): (c: seq<string>)
    ensures c != []
    ensures candidateLabels.Some? && candidateLabels.value != [] ==> c == candidateLabels.value
    ensures candidateLabels.None? || candidateLabels.value == [] ==> c == DefaultCandidates
  {
    match candidateLabels
    case Some(labels) => if labels != [] then labels else DefaultCandidates
    case None => DefaultCandidates
  }

  predicate IsNegativeToken(low: string) { low == "negative" || low == "neg" || low == "n" }

  predicate IsPositiveToken(low: string) { low == "positive" || low == "pos" || low == "p" }

  /** The lexical negation test on lowercased free text: a plain substring
      test, so `no` also matches inside `know` or `nothing`. */
  predicate HasNegationMarker(low: string)
    ensures HasNegationMarker(low) <==>
              (exists i :: OccursAt(low, "not", i)) || (exists i :: OccursAt(low, "n't", i))
              || (exists i :: OccursAt(low, "no", i))
  {
    Contains(low, "not") || Contains(low, "n't") || Contains(low, "no")
  }

  const FreeTextPrefix := "User free-text clarified; zero-shot interpreted as "
  const ZeroShotPrefix := "Zero-shot fallback: "

  /** A zero-shot reason: `prefix`, then the top label, then its score with
      two decimals in parentheses. */
  function ScoredReason(prefix: string, top: TopPrediction): (reason: string)
    ensures |reason| > |prefix| + |top.topLabel|
    ensures reason[..|prefix|] == prefix
    ensures reason[|prefix|..|prefix| + |top.topLabel|] == top.topLabel
  {
    var reason := prefix + top.topLabel + " (" + FormatFixed(top.score, 2) + ")";
    assert reason == prefix + top.topLabel + (" (" + FormatFixed(top.score, 2) + ")");
    reason
  }

  /** After the label, a zero-shot reason gives the score with two decimals
      in parentheses. */
  lemma ScoredReasonScore(prefix: string, top: TopPrediction)
    ensures ScoredReason(prefix, top)[|prefix| + |top.topLabel|..] == " (" + FormatFixed(top.score, 2) + ")"
  {
    var tail := " (" + FormatFixed(top.score, 2) + ")";
    assert ScoredReason(prefix, top) == (prefix + top.topLabel) + tail;
  }

  /** Stage 3, the last resort: read one more response, strip and uppercase
      it; a canonical label is taken as given, anything else gives NEGATIVE. */
  function ForcedChoice(rest: seq<string>, used: nat): (r: Resolution)
    ensures r.EndOfInput? <==> rest == []
    ensures r.Resolved? ==> r.consumed == used + 1
    ensures r.Resolved? ==> (r.finalLabel == NEGATIVE || r.finalLabel == POSITIVE)
    ensures r.Resolved? ==> (r.reason == ExplicitReason <==> Upper(Strip(rest[0])) in DefaultCandidates)
    ensures r.Resolved? && r.reason == ExplicitReason ==> r.finalLabel == Upper(Strip(rest[0]))
    ensures r.Resolved? && r.reason != ExplicitReason ==> r.finalLabel == NEGATIVE && r.reason == DefaultReason
  {
    if rest == [] then EndOfInput
    else
      var userLabel := Upper(Strip(rest[0]));
      if userLabel == NEGATIVE || userLabel == POSITIVE then Resolved(userLabel, ExplicitReason, used + 1)
      else Resolved(NEGATIVE, DefaultReason, used + 1)
  }

  /** Stages 2 and 3, entered with `used` responses already read. The
      zero-shot stage classifies the ORIGINAL text. */
  function ZeroShotOrForced(node: FallbackNode, text: string, candidates: seq<string>, rest: seq<string>, used: nat): (r: Resolution)
    ensures r.EndOfInput? ==> rest == []
    ensures r.Resolved? ==> r.reason != [] && used <= r.consumed <= used + 1 && r.consumed - used <= |rest|
    ensures r.Resolved? ==>
              r.finalLabel == NEGATIVE || r.finalLabel == POSITIVE
              || (node.zeroShot.Some? && r.finalLabel == node.zeroShot.value(text, candidates).topLabel)
  {
    if node.strategy.AllowsZeroShot() && node.zeroShot.Some? then
      var top := node.zeroShot.value(text, candidates);
      Resolved(top.topLabel, ScoredReason(ZeroShotPrefix, top), used)
    else
      ForcedChoice(rest, used)
  }

  /** Stage 1 on one response `user`, already stripped: a recognised label
      token, or free text interpreted by the zero-shot classifier when there
      is one and by the negation heuristic otherwise. `None` means `skip` or
      an empty response: the chain goes on. */
  function Clarify(node: FallbackNode, candidates: seq<string>, user: string): (r: Option<Resolution>)
    ensures r.None? <==> (Lower(user) == "skip" || user == [])
    ensures r.Some? ==> r.value.Resolved? && r.value.consumed == 1 && r.value.reason != []
    ensures r.Some? ==>
              r.value.finalLabel == NEGATIVE || r.value.finalLabel == POSITIVE
              || (node.zeroShot.Some? && r.value.finalLabel == node.zeroShot.value(user, candidates).topLabel)
  {
    var low := Lower(user);
    if IsNegativeToken(low) then Some(Resolved(NEGATIVE, ClarifiedReason, 1))
    else if IsPositiveToken(low) then Some(Resolved(POSITIVE, ClarifiedReason, 1))
    else if low == "skip" || user == [] then None
    else match node.zeroShot
      case Some(classify) =>
        var top := classify(user, candidates);
        Some(Resolved(top.topLabel, ScoredReason(FreeTextPrefix, top), 1))
      case None =>
        if HasNegationMarker(low) then Some(Resolved(NEGATIVE, NegationReason, 1))
        else Some(Resolved(POSITIVE, DefaultPositiveReason, 1))
  }

  /** `FallbackNode.run(text, candidate_labels)` reading user responses from
      `responses` in order. Whatever the strategy and whichever collaborators
      are present, it ends in a label with a non-empty reason after reading at
      most two responses, and with two responses available it never runs out
      of input. The label is NEGATIVE, POSITIVE, or the top label the zero-shot
      classifier gives for the original text or for the user's stripped reply. */
  function Run(node: FallbackNode, text: string, candidateLabels: Option<seq<string>>, responses: seq<string>): (r: Resolution)
    ensures r.Resolved? ==> r.reason != [] && r.consumed <= 2 && r.consumed <= |responses|
    ensures r.EndOfInput? ==> |responses| < 2
    ensures r.Resolved? ==>
              r.finalLabel == NEGATIVE || r.finalLabel == POSITIVE
              || (node.zeroShot.Some? &&
                   (r.finalLabel == node.zeroShot.value(text, EffectiveCandidates(candidateLabels)).topLabel
                    || (responses != [] &&
                        r.finalLabel == node.zeroShot.value(Strip(responses[0]), EffectiveCandidates(candidateLabels)).topLabel)))
  {
    var candidates := EffectiveCandidates(candidateLabels);
    if node.strategy.AsksUser() then
      if responses == [] then EndOfInput
      else
        match Clarify(node, candidates, Strip(responses[0]))
        case Some(outcome) => outcome
        case None => ZeroShotOrForced(node, text, candidates, responses[1..], 1)
    else
      ZeroShotOrForced(node, text, candidates, responses, 0)
  }

  /** A stripped reply that stage 1 treats as new evidence: neither a label
      token, nor `skip`, nor empty. */
  predicate IsFreeText(user: string)
  {
    var low := Lower(user);
    user != [] && !IsNegativeToken(low) && !IsPositiveToken(low) && low != "skip"
  }

  /** Under a strategy that asks the user, a reply that strips and lowercases
      to `negative`, `neg` or `n` (resp. `positive`, `pos`, `p`) settles the
      label at once, after one response. */
  lemma ClarificationTokens(node: FallbackNode, text: string, candidateLabels: Option<seq<string>>, responses: seq<string>)
    requires node.strategy.AsksUser() && responses != []
    ensures IsNegativeToken(Lower(Strip(responses[0]))) ==>
              Run(node, text, candidateLabels, responses) == Resolved(NEGATIVE, ClarifiedReason, 1)
    ensures IsPositiveToken(Lower(Strip(responses[0]))) ==>
              Run(node, text, candidateLabels, responses) == Resolved(POSITIVE, ClarifiedReason, 1)
  {
  }

  /** `skip` in any case, or a reply that strips to nothing, settles nothing:
      the chain goes on to the later stages with one response read. */
  lemma SkipFallsThrough(node: FallbackNode, text: string, candidateLabels: Option<seq<string>>, responses: seq<string>)
    requires node.strategy.AsksUser() && responses != []
    requires Lower(Strip(responses[0])) == "skip" || AllSpace(responses[0])
    ensures Run(node, text, candidateLabels, responses)
            == ZeroShotOrForced(node, text, EffectiveCandidates(candidateLabels), responses[1..], 1)
  {
    StripEmptyIff(responses[0]);
  }

  /** The `not` test is subsumed by the `no` test: the heuristic answers
      NEGATIVE exactly when the text contains `no` or `n't`. */
  lemma {:induction false} NegationMarkerIff(low: string)
    ensures HasNegationMarker(low) <==> Contains(low, "no") || Contains(low, "n't")
  {
    if Contains(low, "not") {
      ContainsPrefix(low, "not", 2);
      assert "not"[..2] == "no";
    }
  }

  /** Free text with no zero-shot classifier goes to the lexical heuristic:
      NEGATIVE exactly when the lowercased reply contains `no` or `n't`
      (hence also `not`), POSITIVE otherwise. */
  lemma FreeTextHeuristic(node: FallbackNode, text: string, candidateLabels: Option<seq<string>>, responses: seq<string>)
    requires node.strategy.AsksUser() && node.zeroShot.None?
    requires responses != [] && IsFreeText(Strip(responses[0]))
    ensures var low := Lower(Strip(responses[0]));
            Run(node, text, candidateLabels, responses)
            == if Contains(low, "no") || Contains(low, "n't")
               then Resolved(NEGATIVE, NegationReason, 1)
               else Resolved(POSITIVE, DefaultPositiveReason, 1)
  {
    NegationMarkerIff(Lower(Strip(responses[0])));
  }

  /** Free text with a zero-shot classifier is classified as the REPLY
      itself, not the original text. */
  lemma FreeTextZeroShot(node: FallbackNode, text: string, candidateLabels: Option<seq<string>>, responses: seq<string>)
    requires node.strategy.AsksUser() && node.zeroShot.Some?
    requires responses != [] && IsFreeText(Strip(responses[0]))
    ensures var top := node.zeroShot.value(Strip(responses[0]), EffectiveCandidates(candidateLabels));
            Run(node, text, candidateLabels, responses) == Resolved(top.topLabel, ScoredReason(FreeTextPrefix, top), 1)
  {
  }

  /** A node built for `ask_user` never has a zero-shot classifier, so its
      free-text replies always go to the heuristic. */
  lemma AskUserUsesHeuristic(
    zeroShotModel: string, zeroShotAvailable: bool, loadPipeline: string -> ZeroShotClassifier,
    text: string, candidateLabels: Option<seq<string>>, responses: seq<string>)
    requires responses != [] && IsFreeText(Strip(responses[0]))
    ensures var node := NewFallbackNode("ask_user", zeroShotModel, zeroShotAvailable, loadPipeline);
            var low := Lower(Strip(responses[0]));
            node.zeroShot.None? &&
            Run(node, text, candidateLabels, responses)
            == if HasNegationMarker(low)
               then Resolved(NEGATIVE, NegationReason, 1)
               else Resolved(POSITIVE, DefaultPositiveReason, 1)
  {
  }

  /** The zero-shot stage classifies the ORIGINAL text: directly under
      `zero_shot`, and after a skipped or empty reply under
      `ask_then_zero_shot`. */
  lemma ZeroShotClassifiesOriginalText(node: FallbackNode, text: string, candidateLabels: Option<seq<string>>, responses: seq<string>)
    requires node.zeroShot.Some?
    requires node.strategy == ZeroShot
             || (node.strategy == AskThenZeroShot && responses != []
                 && (Lower(Strip(responses[0])) == "skip" || AllSpace(responses[0])))
    ensures var top := node.zeroShot.value(text, EffectiveCandidates(candidateLabels));
            Run(node, text, candidateLabels, responses)
            == Resolved(top.topLabel, ScoredReason(ZeroShotPrefix, top), if node.strategy == ZeroShot then 0 else 1)
  {
    if node.strategy == AskThenZeroShot {
      SkipFallsThrough(node, text, candidateLabels, responses);
    }
  }

  /** With no zero-shot classifier and no clarification stage (an
      unrecognised strategy, or `zero_shot` without the library) the chain
      goes straight to the forced explicit label. */
  lemma StraightToForcedChoice(node: FallbackNode, text: string, candidateLabels: Option<seq<string>>, responses: seq<string>)
    requires !node.strategy.AsksUser() && node.zeroShot.None?
    ensures Run(node, text, candidateLabels, responses) == ForcedChoice(responses, 0)
  {
  }

  /** Stage 2 runs exactly when the strategy allows zero-shot and a
      classifier is loaded, and then classifies the original text; otherwise
      the forced choice runs. */
  lemma ZeroShotOnlyWhenLoaded(node: FallbackNode, text: string, candidates: seq<string>, rest: seq<string>, used: nat)
    ensures node.strategy.AllowsZeroShot() && node.zeroShot.Some? ==>
              var top := node.zeroShot.value(text, candidates);
              ZeroShotOrForced(node, text, candidates, rest, used) == Resolved(top.topLabel, ScoredReason(ZeroShotPrefix, top), used)
    ensures !(node.strategy.AllowsZeroShot() && node.zeroShot.Some?) ==>
              ZeroShotOrForced(node, text, candidates, rest, used) == ForcedChoice(rest, used)
  {
  }

  /** A skipped or empty clarification with no usable classifier (`ask_user`,
      or `ask_then_zero_shot` without the library) goes straight to the forced
      choice on the second response. */
  lemma SkipThenForcedChoice(node: FallbackNode, text: string, candidateLabels: Option<seq<string>>, responses: seq<string>)
    requires node.strategy.AsksUser() && responses != []
    requires !(node.strategy.AllowsZeroShot() && node.zeroShot.Some?)
    requires Lower(Strip(responses[0])) == "skip" || AllSpace(responses[0])
    ensures Run(node, text, candidateLabels, responses) == ForcedChoice(responses[1..], 1)
  {
    SkipFallsThrough(node, text, candidateLabels, responses);
  }

  /** The zero-shot classifier picks one of the labels it is offered. */
  ghost predicate ChoosesAmong(classify: ZeroShotClassifier)
  {
    forall t, cs :: classify(t, cs).topLabel in cs
  }

  /** When the zero-shot classifier picks among the labels offered, the final
      label is a candidate label or one of the two canonical labels. */
  lemma LabelIsCandidate(node: FallbackNode, text: string, candidateLabels: Option<seq<string>>, responses: seq<string>)
    requires node.zeroShot.Some? ==> ChoosesAmong(node.zeroShot.value)
    ensures var r := Run(node, text, candidateLabels, responses);
            r.Resolved? ==> r.finalLabel in EffectiveCandidates(candidateLabels) || r.finalLabel in DefaultCandidates
  {
    var r := Run(node, text, candidateLabels, responses);
    var candidates := EffectiveCandidates(candidateLabels);
    if r.Resolved? && node.zeroShot.Some? {
      var classify := node.zeroShot.value;
      assert classify(text, candidates).topLabel in candidates;
      if responses != [] {
        assert classify(Strip(responses[0]), candidates).topLabel in candidates;
      }
    }
  }

  // The scenarios below keep the literal replies behind a parameter: each
  // first establishes what stage 1 sees of the reply, then applies the stage
  // lemmas above.

  lemma StrippedLowered(reply: string)
    requires reply == "neg" || reply == "skip" || reply == "it wasn't good"
    ensures Strip(reply) == reply && Lower(reply) == reply
  {
    StripUnchanged(reply);
    LowerUnchanged(reply);
  }

  lemma StrippedUppered(reply: string)
    requires reply == "maybe"
    ensures Upper(Strip(reply)) == "MAYBE"
  {
    StripUnchanged(reply);
  }

  /** A user who answers `neg` under `ask_user` corrects the label to NEGATIVE. */
  lemma ScenarioUserSaysNeg(text: string, zeroShotAvailable: bool, loadPipeline: string -> ZeroShotClassifier, responses: seq<string>)
    requires responses == ["neg"]
    ensures var node := NewFallbackNode("ask_user", DefaultZeroShotModel, zeroShotAvailable, loadPipeline);
            Run(node, text, None, responses) == Resolved(NEGATIVE, ClarifiedReason, 1)
  {
    var node := NewFallbackNode("ask_user", DefaultZeroShotModel, zeroShotAvailable, loadPipeline);
    StrippedLowered(responses[0]);
    ClarificationTokens(node, text, None, responses);
  }

  lemma FormatScore081()
    ensures FormatFixed(0.81, 2) == "0.81"
  {
    assert Pow10(2) == 100;
    assert RoundedUnits(0.81, 2) == 81;
    assert NatToString(81) == "81";
  }

  lemma ZeroShotReason081(top: TopPrediction)
    requires top == TopPrediction(POSITIVE, 0.81)
    ensures ScoredReason(ZeroShotPrefix, top) == "Zero-shot fallback: POSITIVE (0.81)"
  {
    FormatScore081();
  }

  /** Under `ask_then_zero_shot`, `skip` hands the original text to the
      zero-shot classifier, whose top label and score make up the reason. */
  lemma ScenarioSkipThenZeroShot(text: string, classify: ZeroShotClassifier, responses: seq<string>)
    requires classify(text, DefaultCandidates) == TopPrediction(POSITIVE, 0.81)
    requires responses == ["skip"]
    ensures var node := NewFallbackNode("ask_then_zero_shot", DefaultZeroShotModel, true, _ => classify);
            Run(node, text, None, responses) == Resolved(POSITIVE, "Zero-shot fallback: POSITIVE (0.81)", 1)
  {
    var node := NewFallbackNode("ask_then_zero_shot", DefaultZeroShotModel, true, _ => classify);
    StrippedLowered(responses[0]);
    ZeroShotClassifiesOriginalText(node, text, None, responses);
    ZeroShotReason081(classify(text, DefaultCandidates));
  }

  /** Free text with a contraction, and no zero-shot classifier, is read as NEGATIVE. */
  lemma ScenarioContractionIsNegative(text: string, loadPipeline: string -> ZeroShotClassifier, responses: seq<string>)
    requires responses == ["it wasn't good"]
    ensures var node := NewFallbackNode("ask_user", DefaultZeroShotModel, true, loadPipeline);
            Run(node, text, None, responses) == Resolved(NEGATIVE, NegationReason, 1)
  {
    var node := NewFallbackNode("ask_user", DefaultZeroShotModel, true, loadPipeline);
    var reply := responses[0];
    StrippedLowered(reply);
    assert reply[6..9] == "n't";
    assert OccursAt(reply, "n't", 6);
    FreeTextHeuristic(node, text, None, responses);
  }

  /** A skipped clarification followed by an unrecognised final label ends in
      the documented default. */
  lemma ScenarioExhausted(text: string, loadPipeline: string -> ZeroShotClassifier, responses: seq<string>)
    requires responses == ["skip", "maybe"]
    ensures var node := NewFallbackNode("ask_user", DefaultZeroShotModel, true, loadPipeline);
            Run(node, text, None, responses) == Resolved(NEGATIVE, DefaultReason, 2)
  {
    var node := NewFallbackNode("ask_user", DefaultZeroShotModel, true, loadPipeline);
    StrippedLowered(responses[0]);
    SkipFallsThrough(node, text, None, responses);
    StrippedUppered(responses[1]);
  }
}
