# Sample slot-filling bot: turn handler, shoe-size validator and number prompt

A Dafny model of the decidable core of a Bot Framework sample bot (`bot.js`) and of the
`NumberPrompt` it relies on (`botbuilder-dialogs`, `numberPrompt.ts`):

- **Turn handler** (`SampleBot.onTurn`). A message is trimmed and lower-cased. The
  keyword `cancel` either cancels every dialog and answers "Ok... canceled.", or answers
  "Nothing to cancel." when no dialog is active. If the turn has not responded yet, the
  active dialog is continued. If it still has not responded, the `root` dialog is begun.
  A conversation update whose first added member is not `Bot` gets one description
  message. The conversation state is then saved.
- **Shoe-size validator** (`shoeSizeValidator`). It accepts a successfully recognized
  number in [0, 16] that is a whole number or an exact half.
- **Number prompt**. `onPrompt` picks the retry prompt, the prompt, or nothing.
  `onRecognize` resolves the locale (activity locale, then the prompt's default, then
  `en-us`). It succeeds only when the first recognizer candidate has a resolution, and
  it replaces a NaN parse by 0.

Modules:
- `Wrappers` is an `Option` type; `None` is JavaScript's `undefined`.
- `JsStrings` holds `trim`, ASCII `toLowerCase` and the truthiness of an optional string.
- `Activities` holds activities and outgoing messages. Its `TurnContext` class has the
  `sent` outbox, the `responded` flag and a ghost trace of every external call.
- `NumberPrompts` models `numberPrompt.ts`.
- `Bot` models `bot.js`.

The dialog library is not part of this model. A `DialogRuntime` value stands for what a
dialog does when it is resumed or begun: it gives the new stack and the activities sent.
`SampleBot.OnTurn` is proved against the specification function `Bot.Turn`. The
lemmas beside `Turn` state what each branch does.

Three points about the code itself:
- The state is saved on every turn but one. `bot.js:134` reads `membersAdded[0].name`
  before the save at `bot.js:145`. So a conversation update with no added member throws
  a TypeError, and nothing is sent or saved. `Bot.SavedOncePerTurn` states exactly when
  this happens.
- A join event only sends the description. It does not begin a dialog.
- `root` is a three-step waterfall (`promptForL1`, `promptForL2`, `processResults`). The
  two `SlotDetails` built at `bot.js:27-33` are never used.

## Model

| member | source | states |
|---|---|---|
| `JsStrings.Trim` | bot.js:113 | `trim` never lengthens the text and leaves no white space at either end |
| `JsStrings.LowerCharKeepsWhiteSpace` | bot.js:113 | lower-casing a character never turns it into white space, nor white space into anything else |
| `JsStrings.ToLower` | bot.js:113 | `toLowerCase` keeps the length and lower-cases each character on its own, in place |
| `JsStrings.LowerCharMatches` | bot.js:113 | a character lower-cases to a lower-case ASCII letter exactly when it is that letter in either case |
| `JsStrings.Normalize` | bot.js:113 | trimming then lower-casing never lengthens the text and leaves no white space at either end |
| `JsStrings.OrElse` | bot.js:113 | JavaScript's logical or on an optional string and a string gives `a` exactly when it is defined and non-empty, else `b` |
| `JsStrings.TrimStartDropsWhiteSpacePrefix` | bot.js:113 | the start of a trim removes the longest all-white-space prefix and nothing more |
| `JsStrings.TrimEndDropsWhiteSpaceSuffix` | bot.js:113 | the end of a trim removes the longest all-white-space suffix and nothing more |
| `JsStrings.TrimOfPadded` | bot.js:113 | trimming a string padded on both sides with white space gives back the string, when it has no white space at its ends |
| `JsStrings.TrimIsTrimmed` | bot.js:113 | the result of `trim` has no white space at either end, and trimming it again changes nothing |
| `JsStrings.LowerMatchesIgnoringCase` | bot.js:113 | lower-casing gives an all-lower-case ASCII word exactly when the input spells that word in any mix of cases |
| `Bot.Utterance` | bot.js:113 | the tested utterance has no white space at either end, and is empty when the text is absent or empty |
| `Bot.CancelUtterance` | bot.js:113-114 | a message is the cancel keyword exactly when its text is `cancel` in any mix of cases, padded with any white space |
| `Bot.HalfStepTest` | bot.js:93 | `Math.floor(x * 2) === x * 2` holds exactly when x is n/2 for some integer n |
| `Bot.WholeIsHalfStep` | bot.js:93 | a whole number always passes the half-step test, so the integer test is subsumed |
| `Bot.ShoeSizeValidator` | bot.js:86-101 | accepts exactly when recognition succeeded with a number (not absent, not NaN) in [0, 16] that is a whole number or an exact half |
| `Bot.FailedRecognitionRejected` | bot.js:87-100 | a failed recognition is rejected whatever value it carries |
| `Bot.ShoeSizeSamples` | bot.js:91-95 | 0, 16 and 8.5 are accepted; -1, -0.5, 16.1, 16.5 and 8.3 are rejected |
| `Bot.UnparsableNumberAcceptedAsZero` | node_modules/botbuilder-dialogs/src/prompts/numberPrompt.ts:47-55 | a recognized literal that `parseFloat` cannot read becomes 0, which the shoe-size validator accepts |
| `Bot.DialogContext.constructor` | bot.js:111 | the dialog context for the turn starts on the dialog stack held in conversation state |
| `Bot.DialogContext.ActiveDialog` | bot.js:115 | a dialog is active exactly when the stack is non-empty, and it is the innermost frame |
| `Bot.DialogContext.CancelAllDialogs` | bot.js:116 | cancelling empties the stack and sends nothing |
| `Bot.DialogContext.ContinueDialog` | bot.js:125 | resuming acts only when the stack is non-empty: the stack and the sends become the active dialog's; otherwise nothing changes |
| `Bot.DialogContext.BeginDialog` | bot.js:130 | beginning pushes a fresh frame for the dialog, then takes the stack and the sends that starting it produces |
| `Activities.TurnContext.SendActivities` | bot.js:125-130 | the activities that dialog code sends on continue or begin are appended to the outbox in order, and `responded` becomes true exactly when something has been sent |
| `Bot.CancelStep` | bot.js:113-121 | the cancel step responds exactly on `cancel`, leaves no dialog after `cancel`, keeps the stack otherwise, and sends at most one activity |
| `Bot.ContinueStep` | bot.js:123-126 | when the turn has responded, nothing happens; otherwise a continue is recorded after the earlier calls, the stack becomes the continued one, and the continued dialog's sends are added |
| `Bot.BeginStep` | bot.js:128-131 | when the turn has responded, nothing happens; otherwise beginning `root` is recorded after the earlier calls, the stack and the added sends are those of beginning `root` on top of the current stack |
| `Bot.MessageTurn` | bot.js:113-131 | in a message turn the active dialog is continued exactly when the utterance is not `cancel` |
| `Bot.Turn` | bot.js:107-146 | a turn throws exactly on a conversation update with no added member, and only a message turn can change the dialog stack |
| `Activities.TurnContext.SendActivity` | bot.js:117-128 | a send appends exactly one activity to the outbox and sets the `responded` flag tested at lines 123 and 128 |
| `Bot.CancelActiveDialog` | bot.js:114-117 | `cancel` with an active dialog leaves the stack empty, sends exactly "Ok... canceled." and neither continues nor begins a dialog |
| `Bot.CancelNothingActive` | bot.js:118-131 | `cancel` with no active dialog sends exactly "Nothing to cancel.", leaves the stack empty and neither continues nor begins a dialog |
| `Bot.NonCancelMessage` | bot.js:123-131 | any other message continues the active dialog first; `root` is begun exactly when that sent nothing; the final stack and the activities sent are those of the continue, or else of beginning `root` |
| `Bot.EmptyStackBeginsRoot` | bot.js:123-131 | with no active dialog, any other message begins `root` on a stack holding only `root`'s fresh frame |
| `Bot.NonMessageTurn` | bot.js:132-143 | a conversation update whose first added member is not `Bot` sends exactly the description; any other non-message sends nothing; neither touches the dialog stack or calls the dialog library |
| `Bot.MessageTurnNeverSaves` | bot.js:109-131 | no step of a message turn saves the state |
| `Bot.SavedOncePerTurn` | bot.js:132-145 | the state is saved exactly once, as the last call of the turn, unless the turn throws; it throws exactly on a conversation update with no added member, having sent and saved nothing |
| `Bot.SampleBot.constructor` | bot.js:17-48 | the dialog set holds the choice prompts `level1` and `level2` and the waterfall `root` with its three steps; the stack and the store start empty |
| `Bot.SampleBot.SaveState` | bot.js:145 | saving writes the current dialog stack to the store and sends nothing |
| `Bot.SampleBot.OnMessage` | bot.js:109-131 | the message branch leaves the stack and the call trace that `Bot.MessageTurn` gives for the normalised utterance |
| `Bot.SampleBot.OnTurn` | bot.js:107-146 | the turn's stack, calls, sends and throw are those of `Bot.Turn`; the store gains the final stack exactly when the turn does not throw; the dialog set is unchanged |
| `NumberPrompts.PromptToSend` | node_modules/botbuilder-dialogs/src/prompts/numberPrompt.ts:33-39 | on a retry with a truthy retry prompt that prompt is chosen; otherwise the prompt if truthy; otherwise nothing |
| `NumberPrompts.NumberPrompt.OnPrompt` | node_modules/botbuilder-dialogs/src/prompts/numberPrompt.ts:33-39 | sends the chosen prompt with the expecting-input hint, or nothing: at most one activity, and no other call |
| `NumberPrompts.ResolveLocale` | node_modules/botbuilder-dialogs/src/prompts/numberPrompt.ts:45 | the locale is the activity's if truthy, else the default if truthy, else `en-us`; it is never empty |
| `NumberPrompts.ShapeResult` | node_modules/botbuilder-dialogs/src/prompts/numberPrompt.ts:42-59 | succeeds exactly when there is a candidate and the first has a resolution; a failure carries no value; a success carries the parsed number, or 0 when the parse is NaN, so never NaN |
| `NumberPrompts.LaterCandidatesIgnored` | node_modules/botbuilder-dialogs/src/prompts/numberPrompt.ts:47-49 | candidates after the first never change the result |
| `NumberPrompts.NumberPrompt.OnRecognize` | node_modules/botbuilder-dialogs/src/prompts/numberPrompt.ts:41-60 | the result is `ShapeResult` of the recognizer's candidates for the turn's text and the resolved locale |
| `NumberPrompts.NumberPrompt.constructor` | node_modules/botbuilder-dialogs/src/prompts/numberPrompt.ts:28-31 | the default locale is stored unchanged, absent included |

## Left out

- `SlotFillingDialog` and `SlotDetails` are not part of this model. They are only imported (`bot.js:7-8`), and the two `SlotDetails` built in the constructor are never used.
- The dialog library (`DialogSet`, `WaterfallDialog`, `ChoicePrompt`, `step.prompt`, and what a dialog does on continue or begin) is not modelled. A `DialogRuntime` parameter stands for it. The library's own errors, such as an unknown dialog id, are not modelled.
- A frame's private state is an opaque string map.
- `promptForL1`, `promptForL2`, `processResults` and `getSuggestedActions` (`bot.js:54-82`) are left out. They are waterfall steps and presentation run by the library.
- The number recognizer and `parseFloat` are foreign calls, so they are parameters. `parseFloat` yields a real or NaN. Infinities are not modelled.
- `Bot.ShoeSizeValidator` uses exact reals. The IEEE rounding of `shoesize * 2` and `Math.floor` is not modelled.
- `JsStrings.ToLower` maps only the ASCII letters A-Z. Other characters are unchanged. No non-ASCII character lower-cases to a letter of `cancel`, so the cancel test is unaffected. Other normalised text can differ from JavaScript's.
- `JsStrings.Trim` removes the ECMAScript white-space and line-terminator characters. Strings are sequences of Unicode scalar values, not UTF-16 code units. No character that `trim` removes lies outside the Basic Multilingual Plane, so trimming is unaffected. Lone surrogates cannot be represented.
- Sending, the conversation-state store and async/await are left out. Sends are recorded in the turn's outbox and saves in the bot's `saved` log.
- `Activities.TurnContext.SendActivities`: a batch from dialog code sets `responded` only when the batch is non-empty. The model assumes the library sends its activities one by one.
- The `state` and `options` parameters of `onPrompt` and `onRecognize` are dropped, except the prompt texts. The validator given to `NumberPrompt` is only stored, because the base `Prompt` class that runs it is not part of this model.
