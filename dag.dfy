/** The decision orchestrator: one classification episode runs inference,
    the confidence gate and, on rejection, the fallback chain, appending one
    structured event to the log at each phase and returning a decision record. */
module Dag {
  import opened Wrappers
  import opened Confidence
  import opened Fallback

  /** What the classifier returns for one text: its top label and the
      probability it gives that label. */
  datatype Prediction = Prediction(predictedLabel: string, confidence: real)

  /** The inference collaborator: the label map (class index to label, in
      insertion order) and the prediction it makes for each text. */
  datatype InferenceNode = InferenceNode(labelMap: seq<(int, string)>, predict: string -> Prediction)

  /** `list(label_map.values())`. */
  function LabelValues(labelMap: seq<(int, string)>): (values: seq<string>)
    ensures |values| == |labelMap|
    ensures forall i :: 0 <= i < |labelMap| ==> values[i] == labelMap[i].1
  {
    if labelMap == [] then [] else [labelMap[0].1] + LabelValues(labelMap[1..])
  }

  /** The record `run` returns. */
  datatype DecisionRecord = DecisionRecord(finalLabel: string, confidence: real, accepted: bool, reason: string)

  const ConfidenceOkReason := "confidence_ok"

  /** The phase an event records; its `Name` is the `event` field written
      to the log. */
  datatype Phase = Inference | ConfidenceCheck | FallbackTrigger | FallbackResult | FinalDecision
  {
    function Name(): string
    {
      match this
      case Inference => "inference"
      case ConfidenceCheck => "confidence_check"
      case FallbackTrigger => "fallback_trigger"
      case FallbackResult => "fallback_result"
      case FinalDecision => "final_decision"
    }
  }

  /** The event names written to the log tell the phases apart, so the
      phase sequence of an episode is what its `event` fields record. */
  lemma NamesIdentifyPhases(a: Phase, b: Phase)
    ensures a.Name() == b.Name() <==> a == b
  {
    if a != b {
      match a
      case Inference => assert a.Name()[0] == 'i';
      case ConfidenceCheck => assert a.Name()[0] == 'c';
      case FallbackTrigger => assert a.Name()[9] == 't';
      case FallbackResult => assert a.Name()[9] == 'r';
      case FinalDecision => assert a.Name()[1] == 'i';
    }
  }

  /** One logged event with its details (the timestamp is left out). */
  datatype LogEntry =
    | InferenceEvent(inputText: string, predictedLabel: string, confidence: real)
    | ConfidenceCheckEvent(predictedLabel: string, confidence: real, threshold: real, result: bool, message: string)
    | FallbackTriggerEvent(predictedLabel: string, confidence: real)
    | FallbackResultEvent(finalLabel: string, reason: string)
    | FinalDecisionEvent(finalLabel: string, accepted: bool, reason: string)
  {
    function Phase(): Phase
    {
      match this
      case InferenceEvent(_, _, _) => Inference
      case ConfidenceCheckEvent(_, _, _, _, _) => ConfidenceCheck
      case FallbackTriggerEvent(_, _) => FallbackTrigger
      case FallbackResultEvent(_, _) => FallbackResult
      case FinalDecisionEvent(_, _, _) => FinalDecision
    }
  }

  /** The phases of a run of log entries, in order. */
  function Phases(entries: seq<LogEntry>): (phases: seq<Phase>)
    ensures |phases| == |entries|
  {
    seq(|entries|, i requires 0 <= i < |entries| => entries[i].Phase())
  }

  /** What one call of `run` produces: the entries it appends, the record it
      returns (`None` when a prompt hit the end of input and `EOFError`
      escaped), and how many user responses it read. */
  datatype Episode = Episode(entries: seq<LogEntry>, result: Option<DecisionRecord>, consumed: nat)

  /** The episode `run(text)` goes through, with `responses` as what standard
      input still holds. */
  function RunEpisode(
    inference: InferenceNode, gate: ConfidenceCheckNode, fallback: FallbackNode,
    text: string, responses: seq<string>): (e: Episode)
    ensures |e.entries| >= 3 && e.entries[0] == InferenceEvent(text, inference.predict(text).predictedLabel, inference.predict(text).confidence)
    ensures e.consumed <= |responses|
  {
    var p := inference.predict(text);
    var verdict := gate.Check(p.predictedLabel, p.confidence);
    var checked := [InferenceEvent(text, p.predictedLabel, p.confidence),
                    ConfidenceCheckEvent(p.predictedLabel, p.confidence, gate.threshold, verdict.accepted, verdict.message)];
    if verdict.accepted then
      Episode(checked + [FinalDecisionEvent(p.predictedLabel, true, ConfidenceOkReason)],
              Some(DecisionRecord(p.predictedLabel, p.confidence, true, ConfidenceOkReason)), 0)
    else
      var triggered := checked + [FallbackTriggerEvent(p.predictedLabel, p.confidence)];
      match Fallback.Run(fallback, text, Some(LabelValues(inference.labelMap)), responses)
      case EndOfInput => Episode(triggered, None, |responses|)
      case Resolved(finalLabel, reason, used) =>
        Episode(triggered + [FallbackResultEvent(finalLabel, reason), FinalDecisionEvent(finalLabel, false, reason)],
                Some(DecisionRecord(finalLabel, p.confidence, false, reason)), used)
  }

  /** The JSON-lines log: an append-only sequence of events. */
  class JSONLogger {
    var entries: seq<LogEntry>

    /** `existing` stands for what the log file already holds. */
    constructor(existing: seq<LogEntry>)
      ensures entries == existing
    {
      entries := existing;
    }

    method Log(entry: LogEntry)
      modifies this
      ensures entries == old(entries) + [entry]
    {
      entries := entries + [entry];
    }
  }

  /** Standard input: the lines the user has yet to type. */
  class Console {
    var pending: seq<string>

    constructor(lines: seq<string>)
      ensures pending == lines
    {
      pending := lines;
    }
  }

  class SimpleLangGraphDAG {
    const inference: InferenceNode
    const confidence: ConfidenceCheckNode
    const fallback: FallbackNode
    const logger: JSONLogger

    /** Builds the gate and the fallback node from the configuration; the
        logger appends to a log that already holds `existingLog`. */
    constructor(
      inference: InferenceNode, threshold: real, fallbackStrategy: string,
      zeroShotAvailable: bool, loadPipeline: string -> ZeroShotClassifier,
      existingLog: seq<LogEntry>)
      ensures this.inference == inference
      ensures confidence == ConfidenceCheckNode(threshold)
      ensures fallback == NewFallbackNode(fallbackStrategy, DefaultZeroShotModel, zeroShotAvailable, loadPipeline)
      ensures fresh(logger) && logger.entries == existingLog
    {
      this.inference := inference;
      confidence := ConfidenceCheckNode(threshold);
      fallback := NewFallbackNode(fallbackStrategy, DefaultZeroShotModel, zeroShotAvailable, loadPipeline);
      logger := new JSONLogger(existingLog);
    }

    /** `run(text)`: logs each phase before acting on it, appends exactly the
        episode's entries to the log, reads the episode's responses from
        standard input, and returns the episode's record. */
    method Run(text: string, console: Console) returns (record: Option<DecisionRecord>)
      modifies logger, console
      ensures var e := RunEpisode(inference, confidence, fallback, text, old(console.pending));
              logger.entries == old(logger.entries) + e.entries
              && record == e.result
              && e.consumed <= |old(console.pending)|
              && console.pending == old(console.pending)[e.consumed..]
    {
      var p := inference.predict(text);
      logger.Log(InferenceEvent(text, p.predictedLabel, p.confidence));

      var verdict := confidence.Check(p.predictedLabel, p.confidence);
      logger.Log(ConfidenceCheckEvent(p.predictedLabel, p.confidence, confidence.threshold, verdict.accepted, verdict.message));

      if verdict.accepted {
        record := Accept(text, p, verdict, console, old(logger.entries));
      } else {
        record := TriggerFallback(text, p, verdict, console, old(logger.entries));
      }
    }

    /** The accepting branch of `run`, entered with the inference and check
        events logged after `start`: logs the final decision and returns the
        prediction as accepted, without reading standard input. */
    method Accept(text: string, p: Prediction, verdict: Verdict, console: Console, ghost start: seq<LogEntry>)
      returns (record: Option<DecisionRecord>)
      requires p == inference.predict(text) && verdict == confidence.Check(p.predictedLabel, p.confidence)
      requires verdict.accepted
      requires logger.entries == start + [InferenceEvent(text, p.predictedLabel, p.confidence),
                                          ConfidenceCheckEvent(p.predictedLabel, p.confidence, confidence.threshold, verdict.accepted, verdict.message)]
      modifies logger
      ensures var e := RunEpisode(inference, confidence, fallback, text, console.pending);
              logger.entries == start + e.entries && record == e.result && e.consumed == 0
    {
      ConfidentEpisode(inference, confidence, fallback, text, console.pending);
      logger.Log(FinalDecisionEvent(p.predictedLabel, true, ConfidenceOkReason));
      record := Some(DecisionRecord(p.predictedLabel, p.confidence, true, ConfidenceOkReason));
    }

    /** The escalating branch of `run`, entered with the inference and check
        events logged after `start`: logs the trigger and hands over to the
        fallback node. */
    method TriggerFallback(text: string, p: Prediction, verdict: Verdict, console: Console, ghost start: seq<LogEntry>)
      returns (record: Option<DecisionRecord>)
      requires p == inference.predict(text) && verdict == confidence.Check(p.predictedLabel, p.confidence)
      requires !verdict.accepted
      requires logger.entries == start + [InferenceEvent(text, p.predictedLabel, p.confidence),
                                          ConfidenceCheckEvent(p.predictedLabel, p.confidence, confidence.threshold, verdict.accepted, verdict.message)]
      modifies logger, console
      ensures var e := RunEpisode(inference, confidence, fallback, text, old(console.pending));
              logger.entries == start + e.entries
              && record == e.result
              && e.consumed <= |old(console.pending)|
              && console.pending == old(console.pending)[e.consumed..]
    {
      var first := [InferenceEvent(text, p.predictedLabel, p.confidence),
                    ConfidenceCheckEvent(p.predictedLabel, p.confidence, confidence.threshold, verdict.accepted, verdict.message)];
      logger.Log(FallbackTriggerEvent(p.predictedLabel, p.confidence));
      ghost var triggered := first + [FallbackTriggerEvent(p.predictedLabel, p.confidence)];
      assert logger.entries == start + triggered by {
        AppendAssoc(start, first, [FallbackTriggerEvent(p.predictedLabel, p.confidence)]);
      }
      EscalatedEpisode(inference, confidence, fallback, text, console.pending);
      ghost var outcome := Fallback.Run(fallback, text, Some(LabelValues(inference.labelMap)), console.pending);
      record := Escalate(text, p.confidence, console);
      if outcome.Resolved? {
        AppendAssoc(start, triggered, [FallbackResultEvent(outcome.finalLabel, outcome.reason),
                                       FinalDecisionEvent(outcome.finalLabel, false, outcome.reason)]);
      }
    }

    /** The fallback part of `run`: asks the fallback node for a label, reading
        the responses it consumes from standard input, then logs its result and
        the final decision. When the input runs out nothing more is logged. */
    method Escalate(text: string, originalConfidence: real, console: Console) returns (record: Option<DecisionRecord>)
      modifies logger, console
      ensures var outcome := Fallback.Run(fallback, text, Some(LabelValues(inference.labelMap)), old(console.pending));
              (outcome.EndOfInput? ==>
                 logger.entries == old(logger.entries) && record == None && console.pending == [])
              && (outcome.Resolved? ==>
                    outcome.consumed <= |old(console.pending)|
                    && logger.entries == old(logger.entries)
                         + [FallbackResultEvent(outcome.finalLabel, outcome.reason),
                            FinalDecisionEvent(outcome.finalLabel, false, outcome.reason)]
                    && record == Some(DecisionRecord(outcome.finalLabel, originalConfidence, false, outcome.reason))
                    && console.pending == old(console.pending)[outcome.consumed..])
    {
      var outcome := Fallback.Run(fallback, text, Some(LabelValues(inference.labelMap)), console.pending);
      match outcome
      case EndOfInput =>
        console.pending := [];
        record := None;
      case Resolved(finalLabel, reason, used) =>
        console.pending := console.pending[used..];
        logger.Log(FallbackResultEvent(finalLabel, reason));
        logger.Log(FinalDecisionEvent(finalLabel, false, reason));
        record := Some(DecisionRecord(finalLabel, originalConfidence, false, reason));
    }
  }

  lemma AppendAssoc(a: seq<LogEntry>, b: seq<LogEntry>, c: seq<LogEntry>)
    ensures a + b + c == a + (b + c)
  {
  }

  /** The escalated episode, spelled out from the fallback's outcome. */
  lemma EscalatedEpisode(
    inference: InferenceNode, gate: ConfidenceCheckNode, fallback: FallbackNode,
    text: string, responses: seq<string>)
    requires inference.predict(text).confidence < gate.threshold
    ensures var p := inference.predict(text);
            var verdict := gate.Check(p.predictedLabel, p.confidence);
            var triggered := [InferenceEvent(text, p.predictedLabel, p.confidence),
                              ConfidenceCheckEvent(p.predictedLabel, p.confidence, gate.threshold, verdict.accepted, verdict.message),
                              FallbackTriggerEvent(p.predictedLabel, p.confidence)];
            var outcome := Fallback.Run(fallback, text, Some(LabelValues(inference.labelMap)), responses);
            var e := RunEpisode(inference, gate, fallback, text, responses);
            (outcome.EndOfInput? ==> e == Episode(triggered, None, |responses|))
            && (outcome.Resolved? ==>
                  e == Episode(triggered + [FallbackResultEvent(outcome.finalLabel, outcome.reason),
                                            FinalDecisionEvent(outcome.finalLabel, false, outcome.reason)],
                               Some(DecisionRecord(outcome.finalLabel, p.confidence, false, outcome.reason)),
                               outcome.consumed))
  {
    var p := inference.predict(text);
    var verdict := gate.Check(p.predictedLabel, p.confidence);
    assert !verdict.accepted;
    var triggered := [InferenceEvent(text, p.predictedLabel, p.confidence),
                      ConfidenceCheckEvent(p.predictedLabel, p.confidence, gate.threshold, verdict.accepted, verdict.message)]
                     + [FallbackTriggerEvent(p.predictedLabel, p.confidence)];
    assert triggered == [InferenceEvent(text, p.predictedLabel, p.confidence),
                         ConfidenceCheckEvent(p.predictedLabel, p.confidence, gate.threshold, verdict.accepted, verdict.message),
                         FallbackTriggerEvent(p.predictedLabel, p.confidence)];
  }

  /** The phases of a log that has an inference event, a check event and a
      third event, in that order. */
  lemma PhasesOfThree(entries: seq<LogEntry>)
    requires |entries| == 3
    requires entries[0].InferenceEvent? && entries[1].ConfidenceCheckEvent?
    ensures Phases(entries) == [Inference, ConfidenceCheck, entries[2].Phase()]
  {
  }

  /** The phases of a log that has the five events of an escalated episode,
      in order. */
  lemma PhasesOfFive(entries: seq<LogEntry>)
    requires |entries| == 5
    requires entries[0].InferenceEvent? && entries[1].ConfidenceCheckEvent? && entries[2].FallbackTriggerEvent?
    requires entries[3].FallbackResultEvent? && entries[4].FinalDecisionEvent?
    ensures Phases(entries) == [Inference, ConfidenceCheck, FallbackTrigger, FallbackResult, FinalDecision]
  {
  }

  /** The confident episode, spelled out. */
  lemma ConfidentEpisode(
    inference: InferenceNode, gate: ConfidenceCheckNode, fallback: FallbackNode,
    text: string, responses: seq<string>)
    requires inference.predict(text).confidence >= gate.threshold
    ensures var p := inference.predict(text);
            var verdict := gate.Check(p.predictedLabel, p.confidence);
            RunEpisode(inference, gate, fallback, text, responses)
            == Episode([InferenceEvent(text, p.predictedLabel, p.confidence),
                        ConfidenceCheckEvent(p.predictedLabel, p.confidence, gate.threshold, verdict.accepted, verdict.message),
                        FinalDecisionEvent(p.predictedLabel, true, ConfidenceOkReason)],
                       Some(DecisionRecord(p.predictedLabel, p.confidence, true, ConfidenceOkReason)), 0)
  {
  }

  /** Accepted path: exactly `inference`, `confidence_check`,
      `final_decision`; the prediction is returned as is with reason
      `confidence_ok`; no response is read, so the fallback never ran. */
  lemma AcceptedEpisode(
    inference: InferenceNode, gate: ConfidenceCheckNode, fallback: FallbackNode,
    text: string, responses: seq<string>)
    requires inference.predict(text).confidence >= gate.threshold
    ensures var p := inference.predict(text);
            var e := RunEpisode(inference, gate, fallback, text, responses);
            Phases(e.entries) == [Inference, ConfidenceCheck, FinalDecision]
            && e.result == Some(DecisionRecord(p.predictedLabel, p.confidence, true, ConfidenceOkReason))
            && e.consumed == 0
  {
    ConfidentEpisode(inference, gate, fallback, text, responses);
    PhasesOfThree(RunEpisode(inference, gate, fallback, text, responses).entries);
  }

  /** Rejected path, fallback resolved: exactly `inference`,
      `confidence_check`, `fallback_trigger`, `fallback_result`,
      `final_decision`, and the record carries the fallback's label and reason
      with `accepted` false. The fallback is offered the values of the label
      map as candidate labels. */
  lemma RejectedEpisode(
    inference: InferenceNode, gate: ConfidenceCheckNode, fallback: FallbackNode,
    text: string, responses: seq<string>)
    requires inference.predict(text).confidence < gate.threshold
    requires Fallback.Run(fallback, text, Some(LabelValues(inference.labelMap)), responses).Resolved?
    ensures var p := inference.predict(text);
            var e := RunEpisode(inference, gate, fallback, text, responses);
            var outcome := Fallback.Run(fallback, text, Some(LabelValues(inference.labelMap)), responses);
            Phases(e.entries) == [Inference, ConfidenceCheck, FallbackTrigger, FallbackResult, FinalDecision]
            && e.entries[3] == FallbackResultEvent(outcome.finalLabel, outcome.reason)
            && e.result == Some(DecisionRecord(outcome.finalLabel, p.confidence, false, outcome.reason))
            && e.consumed == outcome.consumed
  {
    EscalatedEpisode(inference, gate, fallback, text, responses);
    var e := RunEpisode(inference, gate, fallback, text, responses);
    PhasesOfFive(e.entries);
  }

  /** Rejected path, standard input exhausted: the log stops after
      `fallback_trigger`, no record is returned, and every pending response
      has been read. */
  lemma InterruptedEpisode(
    inference: InferenceNode, gate: ConfidenceCheckNode, fallback: FallbackNode,
    text: string, responses: seq<string>)
    requires inference.predict(text).confidence < gate.threshold
    requires Fallback.Run(fallback, text, Some(LabelValues(inference.labelMap)), responses).EndOfInput?
    ensures var e := RunEpisode(inference, gate, fallback, text, responses);
            Phases(e.entries) == [Inference, ConfidenceCheck, FallbackTrigger]
            && e.result == None && e.consumed == |responses|
  {
    EscalatedEpisode(inference, gate, fallback, text, responses);
    PhasesOfThree(RunEpisode(inference, gate, fallback, text, responses).entries);
  }

  /** Whatever happens: the returned `accepted` is the gate's verdict on the
      original prediction, the returned confidence is the original
      confidence even when the fallback changed the label, the reason is
      non-empty, the last entry is a `final_decision` that agrees with the
      record, 3 or 5 entries are appended, at most two responses are read,
      and with two responses available a record is always returned. */
  lemma {:induction false} EpisodeInvariants(
    inference: InferenceNode, gate: ConfidenceCheckNode, fallback: FallbackNode,
    text: string, responses: seq<string>)
    ensures var p := inference.predict(text);
            var e := RunEpisode(inference, gate, fallback, text, responses);
            (|e.entries| == 3 || |e.entries| == 5)
            && e.entries[0] == InferenceEvent(text, p.predictedLabel, p.confidence)
            && e.entries[1].ConfidenceCheckEvent?
            && e.entries[1].result == gate.Check(p.predictedLabel, p.confidence).accepted
            && e.consumed <= 2 && e.consumed <= |responses|
            && (|responses| >= 2 ==> e.result.Some?)
            && (e.result.Some? ==>
                  var r := e.result.value;
                  r.accepted == (p.confidence >= gate.threshold)
                  && r.confidence == p.confidence
                  && r.reason != []
                  && e.entries[|e.entries| - 1] == FinalDecisionEvent(r.finalLabel, r.accepted, r.reason))
  {
  }

  /** The orchestrator classifies a confident prediction of POSITIVE at 0.92
      against a 0.70 threshold as accepted, without consulting anyone. */
  lemma ScenarioConfidentPositive(
    inference: InferenceNode, fallback: FallbackNode, text: string, responses: seq<string>)
    requires inference.predict(text) == Prediction(POSITIVE, 0.92)
    ensures RunEpisode(inference, ConfidenceCheckNode(0.70), fallback, text, responses).result
            == Some(DecisionRecord(POSITIVE, 0.92, true, ConfidenceOkReason))
  {
  }
}
