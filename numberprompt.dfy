/**
 * `NumberPrompt` from botbuilder-dialogs: choosing which prompt to send, resolving the
 * locale handed to the number recognizer, and shaping the recognizer's output into a
 * prompt result. The recognizer and `parseFloat` are foreign code and enter as
 * parameters.
 */
module NumberPrompts {
  import opened Wrappers
  import opened JsStrings
  import opened Activities

  /** The locale used when neither the activity nor the prompt names one. */
  const FallbackLocale: string := "en-us"

  /** A JavaScript number as `parseFloat` can produce it (infinities are not modelled). */
  datatype JsNumber = Finite(x: real) | NaN

  /** `options.prompt` and `options.retryPrompt`. */
  datatype PromptOptions = PromptOptions(prompt: Option<MessageBody>, retryPrompt: Option<MessageBody>)

  /** The resolution attached to one recognizer candidate. */
  datatype Resolution = Resolution(value: string)

  /** One candidate returned by the number recognizer; its resolution may be missing. */
  datatype ModelResult = ModelResult(resolution: Option<Resolution>)

  /** `PromptRecognizerResult<number>`: `value` is absent unless set. */
  datatype RecognizerResult = RecognizerResult(succeeded: bool, value: Option<JsNumber>)

  /** `Recognizers.recognizeNumber(utterance, locale)` */
  type NumberRecognizer = (Option<string>, string) -> seq<ModelResult>

  /** `parseFloat` */
  type FloatParser = string -> JsNumber

  /** A message option is present when it is truthy: a defined, non-empty string or any activity object. */
  predicate Present(m: Option<MessageBody>) {
    m.Some? && (m.value.Text? ==> m.value.value != "")
  }

  /** The message `onPrompt` sends, if any. */
  function PromptToSend(options: PromptOptions, isRetry: bool): (m: Option<MessageBody>)
    ensures isRetry && Present(options.retryPrompt) ==> m == options.retryPrompt
    ensures !(isRetry && Present(options.retryPrompt)) ==> m == (if Present(options.prompt) then options.prompt else None)
    ensures m.Some? <==> (isRetry && Present(options.retryPrompt)) || Present(options.prompt)
  {
    if isRetry && Present(options.retryPrompt) then options.retryPrompt
    else if Present(options.prompt) then options.prompt
    else None
  }

  /** `activity.locale || this.defaultLocale || 'en-us'` */
  function ResolveLocale(activityLocale: Option<string>, defaultLocale: Option<string>): (locale: string)
    ensures locale != ""
    ensures Truthy(activityLocale) ==> locale == activityLocale.value
    ensures !Truthy(activityLocale) && Truthy(defaultLocale) ==> locale == defaultLocale.value
    ensures !Truthy(activityLocale) && !Truthy(defaultLocale) ==> locale == FallbackLocale
  {
    OrElse(activityLocale, OrElse(defaultLocale, FallbackLocale))
  }

  /** The result `onRecognize` returns for the recognizer's candidates. */
  function ShapeResult(candidates: seq<ModelResult>, parseFloat: FloatParser): (r: RecognizerResult)
    ensures r.succeeded <==> |candidates| > 0 && candidates[0].resolution.Some?
    ensures !r.succeeded ==> r.value == None
    ensures r.succeeded ==> r.value.Some? && r.value.value.Finite?
    ensures r.succeeded && parseFloat(candidates[0].resolution.value.value).Finite? ==>
      r.value == Some(parseFloat(candidates[0].resolution.value.value))
    ensures r.succeeded && parseFloat(candidates[0].resolution.value.value).NaN? ==>
      r.value == Some(Finite(0.0))
  {
    if |candidates| > 0 && candidates[0].resolution.Some? then
      var parsed := parseFloat(candidates[0].resolution.value.value);
      RecognizerResult(true, Some(if parsed.NaN? then Finite(0.0) else parsed))
    else
      RecognizerResult(false, None)
  }

  /** Only the first candidate matters: candidates after it never change the result. */
  lemma LaterCandidatesIgnored(first: ModelResult, rest1: seq<ModelResult>, rest2: seq<ModelResult>, parseFloat: FloatParser)
    ensures ShapeResult([first] + rest1, parseFloat) == ShapeResult([first] + rest2, parseFloat)
  {
  }

  class NumberPrompt {
    const dialogId: string
    const validator: Option<RecognizerResult -> bool>
    var defaultLocale: Option<string>

    constructor (dialogId: string, validator: Option<RecognizerResult -> bool>, defaultLocale: Option<string>)
      ensures this.dialogId == dialogId && this.validator == validator
      ensures this.defaultLocale == defaultLocale
    {
      this.dialogId := dialogId;
      this.validator := validator;
      this.defaultLocale := defaultLocale;
    }

    /** Sends the retry prompt on a retry when there is one, else the prompt when there is one. */
    method OnPrompt(context: TurnContext, options: PromptOptions, isRetry: bool)
      requires context.Valid()
      modifies context
      ensures context.Valid()
      ensures context.sent == old(context.sent) +
        (match PromptToSend(options, isRetry)
         case Some(m) => [Outgoing(m, ExpectingInput)]
         case None => [])
      ensures context.trace == old(context.trace) +
        (match PromptToSend(options, isRetry)
         case Some(m) => [Send(Outgoing(m, ExpectingInput))]
         case None => [])
    {
      if isRetry && Present(options.retryPrompt) {
        context.SendActivity(options.retryPrompt.value, ExpectingInput);
      } else if Present(options.prompt) {
        context.SendActivity(options.prompt.value, ExpectingInput);
      }
    }

    /** Recognizes a number in the turn's text with the resolved locale and shapes the result. */
    method OnRecognize(context: TurnContext, recognizeNumber: NumberRecognizer, parseFloat: FloatParser)
      returns (result: RecognizerResult)
      ensures result == ShapeResult(
        recognizeNumber(context.activity.text, ResolveLocale(context.activity.locale, defaultLocale)),
        parseFloat)
    {
      result := RecognizerResult(false, None);
      var activity := context.activity;
      var utterance := activity.text;
      var locale := OrElse(activity.locale, OrElse(defaultLocale, FallbackLocale));
      var results := recognizeNumber(utterance, locale);
      if |results| > 0 && results[0].resolution.Some? {
        result := result.(succeeded := true);
        result := result.(value := Some(parseFloat(results[0].resolution.value.value)));
        // A recognized literal that does not parse would otherwise yield NaN.
        if result.value.value.NaN? {
          result := result.(value := Some(Finite(0.0)));
        }
      }
    }
  }
}
