/** `transformPrompt`: return an input that already reads as a complete
    text-adventure prompt as it is (trimmed), and otherwise ask the model to
    analyse and expand it, rejecting an empty answer.

    The model runtime is an input: availability before and after creating
    a session, whether creating it fails, and how `generateObject`
    settles. */
module TransformPrompt {
  import opened Common
  import opened JsText

  const AdventurePrefix := "you are a text adventure game"
  const TextBasedPrefix := "you are a text-based adventure game"

  /** The fast-path test on the raw input: its trimmed, lower-cased form
      starts with one of the two prefixes. */
  predicate IsFullPrompt(userInput: string)
    ensures IsFullPrompt(userInput) ==> |Trim(userInput)| >= |AdventurePrefix|
  {
    var lowered := ToLower(Trim(userInput));
    StartsWith(lowered, AdventurePrefix) || StartsWith(lowered, TextBasedPrefix)
  }

  /** The object `generateObject` resolves to. */
  datatype Analysis = Analysis(needsTransformation: bool, transformedPrompt: string)

  /** What the runtime contributes when the fast path is not taken. */
  datatype PromptRun = PromptRun(
    availability: Availability,
    sessionFailure: Option<Thrown>,
    availabilityAfter: Availability,
    analysis: Settled<Analysis>)

  /** How a call ends, and whether it reached the model at all. */
  datatype PromptOutcome = PromptOutcome(callsModel: bool, result: Settled<string>)

  /** The status as the availability API spells it. */
  function StatusName(a: Availability): string {
    match a
    case Unavailable => "unavailable"
    case Downloadable => "downloadable"
    case Downloading => "downloading"
    case Available => "available"
  }

  function NotAvailableError(a: Availability): Thrown {
    ErrorObject("Error", "Model is not available after session creation. Status: " + StatusName(a))
  }

  const EmptyPromptError := ErrorObject("Error", "LLM returned empty prompt")

  /** `transformPrompt(userInput)`. */
  function Transform(userInput: string, run: PromptRun): (r: PromptOutcome)
    ensures r.callsModel <==> !IsFullPrompt(userInput)
    ensures r.result.Resolved? ==> Trim(r.result.value) != ""
  {
    TrimIdempotent(userInput);
    var trimmed := Trim(userInput);
    if IsFullPrompt(userInput) then
      PromptOutcome(false, Resolved(trimmed))
    else if run.availability != Available && run.sessionFailure.Some? then
      PromptOutcome(true, Rejected(run.sessionFailure.value))
    else if run.availability != Available && run.availabilityAfter != Available then
      PromptOutcome(true, Rejected(NotAvailableError(run.availabilityAfter)))
    else
      match run.analysis
      case Rejected(e) => PromptOutcome(true, Rejected(e))
      case Resolved(analysis) =>
        if analysis.transformedPrompt == "" || |Trim(analysis.transformedPrompt)| == 0 then
          PromptOutcome(true, Rejected(EmptyPromptError))
        else
          PromptOutcome(true, Resolved(analysis.transformedPrompt))
  }

  // ---------------------------------------------------------------------
  // Properties

  /** Lower-casing keeps whitespace as it is and never turns a
      non-whitespace character into whitespace. */
  lemma LowerCharKeepsWhitespace(c: char)
    ensures IsTrimmable(LowerChar(c)) <==> IsTrimmable(c)
  {
  }

  lemma {:induction false} TrimStartOfLower(s: string)
    ensures TrimStart(ToLower(s)) == ToLower(TrimStart(s))
    decreases |s|
  {
    if s != [] {
      LowerCharKeepsWhitespace(s[0]);
      assert ToLower(s)[1..] == ToLower(s[1..]);
      if IsTrimmable(s[0]) {
        TrimStartOfLower(s[1..]);
      }
    }
  }

  lemma {:induction false} TrimEndOfLower(s: string)
    ensures TrimEnd(ToLower(s)) == ToLower(TrimEnd(s))
    decreases |s|
  {
    if s != [] {
      LowerCharKeepsWhitespace(s[|s| - 1]);
      assert ToLower(s)[..|s| - 1] == ToLower(s[..|s| - 1]);
      if IsTrimmable(s[|s| - 1]) {
        TrimEndOfLower(s[..|s| - 1]);
      }
    }
  }

  /** Trimming and lower-casing commute. */
  lemma TrimOfLower(s: string)
    ensures Trim(ToLower(s)) == ToLower(Trim(s))
  {
    TrimStartOfLower(s);
    TrimEndOfLower(TrimStart(s));
  }

  /** The fast path ignores case: an input and its lower-cased form are
      treated alike. */
  lemma FastPathIgnoresCase(userInput: string)
    ensures IsFullPrompt(ToLower(userInput)) <==> IsFullPrompt(userInput)
  {
    TrimOfLower(userInput);
    ToLowerIdempotent(Trim(userInput));
  }

  /** On the fast path the trimmed input is returned without calling the
      model, and what is returned is a fixed point: transforming it again
      returns it unchanged, whatever the runtime would have done. */
  lemma FastPathIsFixedPoint(userInput: string, run: PromptRun, again: PromptRun)
    requires IsFullPrompt(userInput)
    ensures Transform(userInput, run) == PromptOutcome(false, Resolved(Trim(userInput)))
    ensures Transform(Trim(userInput), again) == Transform(userInput, run)
  {
    TrimIdempotent(userInput);
  }

  /** A prompt the model returns is never blank and is returned as the
      model gave it, untrimmed; every other outcome of a model call is one
      of the errors. */
  lemma ModelResultIsNotBlank(userInput: string, run: PromptRun)
    requires !IsFullPrompt(userInput)
    ensures var o := Transform(userInput, run);
      && o.callsModel
      && (o.result.Resolved? ==>
            run.analysis.Resolved? && o.result.value == run.analysis.value.transformedPrompt &&
            exists i :: 0 <= i < |o.result.value| && !IsTrimmable(o.result.value[i]))
      && (run.analysis.Resolved? && (run.availability == Available || (run.sessionFailure.None? && run.availabilityAfter == Available)) ==>
            (o.result.Resolved? <==> Trim(run.analysis.value.transformedPrompt) != ""))
  {
    if run.analysis.Resolved? {
      TrimEmptyIffBlank(run.analysis.value.transformedPrompt);
    }
  }

  /** Availability is checked again only after a session was created, and
      a model that is still not available rejects with an error naming its
      status. */
  lemma AvailabilityRechecked(userInput: string, run: PromptRun)
    requires !IsFullPrompt(userInput)
    ensures run.availability == Available ==>
      Transform(userInput, run) == Transform(userInput, run.(availabilityAfter := Unavailable, sessionFailure := None))
    ensures run.availability != Available && run.sessionFailure.None? && run.availabilityAfter != Available ==>
      Transform(userInput, run).result == Rejected(NotAvailableError(run.availabilityAfter))
  {
  }

  /** A blank answer from the model is rejected. */
  lemma BlankAnswerExample()
    ensures Transform("pirates", PromptRun(Available, None, Available, Resolved(Analysis(true, "  ")))) ==
      PromptOutcome(true, Rejected(EmptyPromptError))
  {
    var blank := "  ";
    assert blank[1..][1..] == [];
    assert TrimStart(blank) == TrimStart(blank[1..]) == TrimStart(blank[1..][1..]) == [];
    assert TrimStart("pirates") == "pirates";
    assert TrimEnd("pirates") == "pirates";
  }
}
