# Self-healing classification: decision escalation, in Dafny

This project models the decision core of a self-healing text classifier: what
happens after the classifier has produced a `(label, confidence)` pair.

- **Confidence gate** (`confidence_node.py`, module `Confidence`). `ConfidenceCheckNode`
  holds a threshold that is set once. `Check` accepts exactly when
  `confidence >= threshold`, and returns a verdict together with a message.
- **Fallback resolver** (`fallback_node.py`, module `Fallback`). `NewFallbackNode`
  is `FallbackNode.__init__`: it decides whether a zero-shot classifier is
  loaded. `Run` is `FallbackNode.run`, the escalation chain:
  1. user clarification: label tokens, `skip`, empty input, or free text;
  2. zero-shot classification of the original text;
  3. a forced explicit label, with NEGATIVE as the default.

  User input is a sequence of responses, read in order. Running out of input
  is the `EOFError` that `input()` raises. It is modelled as the outcome
  `EndOfInput`.
- **Orchestrator** (`dag.py`, module `Dag`). `SimpleLangGraphDAG` is a class.
  Its `Run` method runs inference, the gate and, on rejection, the fallback.
  It appends one event per phase to a `JSONLogger` object, reads responses
  from a `Console` object, and returns a decision record. Its two branches are
  the methods `Accept` and `TriggerFallback`. The pure function
  `RunEpisode` describes one call; the lemmas about it hold the properties.
- Module `Strings` models the Python string operations the core uses:
  `strip`, `lower`, `upper`, the `in` substring test, and `.Nf` formatting.

The gate and the fallback node never change after construction, so they are
immutable datatypes. It follows that `check` cannot change the threshold. The
orchestrator's log and standard input change during `run`, so they are
objects whose fields `Run` updates.

Two places where `fallback_node.py` behaves differently from what its
wording suggests:

- The comment at `fallback_node.py:57` speaks of checking "'not' / 'no'
  words", but line 59 is a plain substring test on the lowercased reply. So
  "i know" or "nothing" also count as negative. The model keeps the substring
  test (`Fallback.HasNegationMarker`).
- The final label is not always one of the candidate labels. Lines 40, 42,
  60, 62, 73 and 75 return NEGATIVE or POSITIVE whatever the candidates are.
  `Fallback.LabelIsCandidate` therefore states membership in the candidates
  together with those two labels.

## Model

| member | source | states |
|---|---|---|
| `Confidence.VerdictMessageShape` | confidence_node.py:20-22 | the message built by `VerdictMessage` is laid out as "Confidence (", the confidence as a percentage with one decimal, the comparison ("%) >= threshold (" when accepted, "%) < threshold (" otherwise), the threshold as a whole percentage, and at the end "Accepting prediction." when accepted and "Triggering fallback." otherwise |
| `Confidence.ConfidenceCheckNode.Check` | confidence_node.py:15-22 | accepted exactly when `confidence >= threshold` (so equality accepts); rejected exactly when `confidence < threshold`; no failing path; the layout of the message is stated by `Confidence.VerdictMessageShape` |
| `Confidence.CheckIgnoresLabel` | confidence_node.py:15-22 | the verdict and message do not depend on the label argument |
| `Confidence.CheckMonotone` | confidence_node.py:19-22 | raising the confidence never turns an acceptance into an escalation |
| `Confidence.MessageNamesAction` | confidence_node.py:20-22 | the message ends in "Accepting prediction." when accepted, "Triggering fallback." otherwise |
| `Strings.Strip` | fallback_node.py:38 | the reply loses exactly its leading and trailing whitespace: everything removed is whitespace and the kept part, when not empty, starts and ends with non-whitespace |
| `Strings.StripEmptyIff` | fallback_node.py:48 | a reply strips to the empty string exactly when it is all whitespace |
| `Strings.LowerMapsCapitals` | fallback_node.py:39-43 | `Lower` (`str.lower()`, also at line 58) maps each ASCII capital to its small letter and the Kelvin sign to `k`, and keeps every other character; the function's own contract gives only the length; no other Unicode case mapping is modelled |
| `Strings.UpperMapsSmallLetters` | fallback_node.py:71 | `Upper` (`str.upper()`) maps each ASCII small letter to its capital, dotless i to `I` and long s to `S`, and keeps every other character; the function's own contract gives only the length; no other Unicode case mapping is modelled |
| `Strings.RoundedUnitsNearest` | confidence_node.py:20-22 | the number of units `FormatFixed` writes is within half a unit of the exact value, and an exact half is rounded to the even unit |
| `Strings.TiesToEven` | confidence_node.py:20-22 | exact ties round to even, as Python's `format` does: 12.5 with no decimals gives "12" and 0.625 with two decimals gives "0.62" |
| `Strings.FormatFixedShape` | confidence_node.py:20-22 | `FormatFixed` (the `:.Nf` format, also at fallback_node.py:55 and 68) writes a leading `-` exactly for a negative number, then digits and, when decimals are asked for, a point followed by exactly that many digits |
| `Strings.Contains` | fallback_node.py:59 | the `in` test on strings holds exactly when the substring occurs at some position |
| `Fallback.ParseStrategy` | fallback_node.py:23 | the three known strategy names map to their own cases, in both directions; any other string is kept unchanged as `Other` |
| `Fallback.StrategyNameRoundTrip` | fallback_node.py:23 | the node keeps exactly the strategy string it was configured with |
| `Fallback.NewFallbackNode` | fallback_node.py:19-28 | a zero-shot classifier is loaded exactly when the strategy is `zero_shot` or `ask_then_zero_shot` and the library is available, and it is the pipeline for the configured model |
| `Fallback.EffectiveCandidates` | fallback_node.py:34 | a missing or empty candidate list becomes `["NEGATIVE","POSITIVE"]`; a non-empty one is kept; the result is never empty |
| `Fallback.Clarify` | fallback_node.py:38-62 | stage 1 lets the chain go on exactly when the stripped reply is `skip` (any case) or empty; otherwise it settles after one response with a non-empty reason, with NEGATIVE, POSITIVE, or the zero-shot top label for the reply |
| `Fallback.ZeroShotOrForced` | fallback_node.py:64-75 | stages 2-3 end with a non-empty reason after at most one more response; the label is NEGATIVE, POSITIVE or the zero-shot top label for the original text; they run out of input only when no response is left |
| `Fallback.ZeroShotOnlyWhenLoaded` | fallback_node.py:64-75 | stage 2 runs exactly when the strategy allows zero-shot and a classifier is loaded, and then settles with the top label for the original text and the "Zero-shot fallback: " reason; otherwise stages 2-3 are exactly the forced choice |
| `Fallback.SkipThenForcedChoice` | fallback_node.py:43-75 | under a strategy that asks the user but has no loaded classifier, `skip` or an all-whitespace first reply makes run exactly the forced choice on the remaining responses, with one response already read |
| `Fallback.ScoredReason` | fallback_node.py:55 | a zero-shot reason starts with its fixed wording ("User free-text clarified; zero-shot interpreted as " or, at line 68, "Zero-shot fallback: ") and continues with the top label; something follows the label |
| `Fallback.ScoredReasonScore` | fallback_node.py:55 | after the label, a zero-shot reason is exactly " (", the score with two decimals, and ")" (the same shape at line 68) |
| `Fallback.ForcedChoice` | fallback_node.py:70-75 | the last resort reads one response; the reason is "Explicit user-provided final label" exactly when the stripped, uppercased reply is NEGATIVE or POSITIVE, and the label is then that reply; otherwise the result is NEGATIVE with "Default fallback - chose NEGATIVE"; end of input only when no response is left |
| `Fallback.Run` | fallback_node.py:30-75 | for every strategy and collaborator set: a non-empty reason; at most two responses read; never out of input when two responses are available; the label is NEGATIVE, POSITIVE, or the zero-shot top label for the original text or for the stripped first reply |
| `Fallback.ClarificationTokens` | fallback_node.py:36-42 | under `ask_user`/`ask_then_zero_shot`, a reply that strips and lowercases to `negative`/`neg`/`n` gives (NEGATIVE, "Corrected by user clarification"), and `positive`/`pos`/`p` gives the POSITIVE counterpart, after one response |
| `Fallback.SkipFallsThrough` | fallback_node.py:43-48 | `skip` in any case, or an all-whitespace reply, produces no outcome; the chain continues with stages 2-3 after one response |
| `Fallback.HasNegationMarker` | fallback_node.py:59 | the negation test holds exactly when `not`, `n't` or `no` occurs somewhere in the lowercased reply, as a substring and not as a word |
| `Fallback.NegationMarkerIff` | fallback_node.py:57-59 | the `not`/`n't`/`no` substring test holds exactly when `no` or `n't` occurs (the `not` test is subsumed) |
| `Fallback.FreeTextHeuristic` | fallback_node.py:56-62 | free text with no zero-shot classifier gives (NEGATIVE, "Heuristic from user text") exactly when the lowercased reply contains `no` or `n't`, otherwise (POSITIVE, "... (default positive)") |
| `Fallback.FreeTextZeroShot` | fallback_node.py:51-55 | free text with a zero-shot classifier is classified as the stripped reply itself, and the top label is returned with the free-text reason |
| `Fallback.AskUserUsesHeuristic` | fallback_node.py:25-62 | a node built for `ask_user` has no zero-shot classifier, so its free-text replies always go to the heuristic |
| `Fallback.ZeroShotClassifiesOriginalText` | fallback_node.py:63-68 | the zero-shot stage classifies the original text: at once under `zero_shot`, and after `skip`/empty under `ask_then_zero_shot` |
| `Fallback.StraightToForcedChoice` | fallback_node.py:36-75 | with no clarification stage and no classifier (an unrecognised strategy, or zero-shot without the library), run is exactly the forced choice on the first response |
| `Fallback.LabelIsCandidate` | fallback_node.py:30-75 | if the zero-shot classifier picks among the labels it is offered, the final label is a candidate label or NEGATIVE/POSITIVE |
| `Fallback.ScenarioUserSaysNeg` | fallback_node.py:38-40 | under `ask_user`, the reply `neg` gives (NEGATIVE, "Corrected by user clarification") |
| `Fallback.ScenarioSkipThenZeroShot` | fallback_node.py:43-68 | under `ask_then_zero_shot`, `skip` followed by a zero-shot top of POSITIVE at 0.81 gives the reason "Zero-shot fallback: POSITIVE (0.81)" |
| `Fallback.ScenarioContractionIsNegative` | fallback_node.py:57-60 | under `ask_user`, the reply "it wasn't good" gives (NEGATIVE, "Heuristic from user text") |
| `Fallback.ScenarioExhausted` | fallback_node.py:70-75 | `skip` and then an unrecognised final label gives (NEGATIVE, "Default fallback - chose NEGATIVE") after two responses |
| `Dag.LabelValues` | dag.py:39 | the candidate list is the label map's values, in order |
| `Dag.JSONLogger.Log` | logger.py:19-25 | logging appends exactly one entry and leaves earlier entries unchanged |
| `Dag.SimpleLangGraphDAG.constructor` | dag.py:13-17 | the gate gets the configured threshold; the fallback node is built from the configured strategy with the default zero-shot model; the logger is new and holds the existing log |
| `Dag.SimpleLangGraphDAG.Run` | dag.py:19-44 | the log gains exactly the episode's entries after the old ones; standard input loses exactly the responses the episode read; the returned record is the episode's |
| `Dag.RunEpisode` | dag.py:19-44 | one call of `run` as a value: at least three entries, the first being the inference event for the text and its prediction, and never more responses read than are available; the lemmas below state the rest |
| `Dag.NamesIdentifyPhases` | dag.py:22-42 | the five event names written to the log ("inference", "confidence_check", "fallback_trigger", "fallback_result", "final_decision") are pairwise different, so the phase list of an episode is what the `event` fields record |
| `Dag.SimpleLangGraphDAG.Accept` | dag.py:30-34 | the accepting branch logs the final decision after the inference and check events and returns the episode's record, reading no input |
| `Dag.SimpleLangGraphDAG.TriggerFallback` | dag.py:35-44 | the escalating branch logs the trigger and the fallback's events after the inference and check events, returns the episode's record, and standard input loses exactly the responses read |
| `Dag.SimpleLangGraphDAG.Escalate` | dag.py:39-44 | the fallback is offered the label map's values; when it settles, `fallback_result` and `final_decision` are logged with its label and reason, the record keeps the original confidence with `accepted` false, and standard input loses exactly the responses it read; when input runs out nothing is logged, no record is returned and standard input is empty |
| `Dag.ConfidentEpisode` | dag.py:21-34 | an accepted prediction gives exactly the `inference`, `confidence_check` and `final_decision` entries, the record (label, confidence, true, "confidence_ok") and no response read |
| `Dag.EscalatedEpisode` | dag.py:35-44 | a rejected prediction gives the `inference`, `confidence_check` and `fallback_trigger` entries followed, when the fallback settles, by its result and the final decision, with the fallback's responses read; when input runs out the episode stops after `fallback_trigger` |
| `Dag.AcceptedEpisode` | dag.py:21-34 | accepted path: phases `inference`, `confidence_check`, `final_decision`; the record is (label, confidence, true, "confidence_ok"); no response is read, so the fallback never runs |
| `Dag.RejectedEpisode` | dag.py:35-44 | rejected path: phases `inference`, `confidence_check`, `fallback_trigger`, `fallback_result`, `final_decision`; the fallback is run on the label map's values; the record carries its label and reason with `accepted` false and the original confidence |
| `Dag.InterruptedEpisode` | dag.py:37-39 | when the fallback runs out of input, the log stops after `fallback_trigger`, every pending response has been read, and no record is returned |
| `Dag.EpisodeInvariants` | dag.py:19-44 | in every case: 3 or 5 entries are appended, starting with `inference`; `confidence_check` records the gate's verdict; at most two responses are read; with two responses available a record is returned; `accepted` equals the verdict; the confidence is the original one; the reason is non-empty; the final `final_decision` entry matches the record |
| `Dag.ScenarioConfidentPositive` | dag.py:30-34 | a POSITIVE prediction at 0.92 against a threshold of 0.70 is accepted with "confidence_ok" |

## Left out

- Inference (`inference_node.py`) is not part of this model. Tokenisation, tensors, softmax and argmax are replaced by an abstract `predict` function and a label map, given as its entries in insertion order.
- The library import test (`fallback_node.py:6-10`) is a boolean parameter. Loading the zero-shot pipeline is a function parameter, and a loaded pipeline is a function that returns its top label and score. Exceptions raised by the classifier, by the pipeline, or by indexing an empty ranking are not modelled.
- The logger's file I/O, JSON serialisation and UTC timestamps (`logger.py`) are left out. A log entry is the event and its details, and the existing file contents are a constructor argument.
- All `print` output is left out, and so are `train.py` and the interactive loop and argument parsing of `cli.py`.
- Strings.FormatFixedShape: states the layout of a formatted number (sign, digits, point, number of decimals), not its value; the value follows from the definition of `Strings.FormatFixed`, which rounds to units of `10^-places`.
- Python floats are exact `real` values here, so NaN and binary rounding are not modelled. `Strings.FormatFixed` rounds exact ties to the even unit, as Python does for values that are exact in binary (12.5, 0.625); a decimal such as 2.675 is not exact in binary, Python rounds its binary approximation (giving "2.67"), and the model rounds the decimal value (giving "2.68").
- `Strings.Lower` handles ASCII capitals and the Kelvin sign. `Strings.Upper` handles ASCII small letters, dotless i and long s. These are the single-character case mappings that produce a letter of the tokens the resolver compares against. Every other Unicode case mapping is left out.
- Default argument values are not modelled; every caller passes every argument. In the source the defaults are a threshold of 0.70, the strategy `ask_user` for the fallback node, `ask_then_zero_shot` for the orchestrator, and the model and log file names. The default zero-shot model name is kept as `Fallback.DefaultZeroShotModel`.
