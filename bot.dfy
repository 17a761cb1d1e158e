/**
 * The sample bot: its shoe-size validator and its turn handler. The dialog library the
 * turn handler drives (dialog set, waterfall and choice prompts, the slot-filling
 * dialog) is outside the model; what a dialog does when it is resumed or begun enters
 * as a `DialogRuntime`.
 */
module Bot {
  import opened Wrappers
  import opened JsStrings
  import opened Activities
  import opened NumberPrompts

  // ---------------------------------------------------------------------------
  // Shoe-size validation
  // ---------------------------------------------------------------------------

  const MinShoeSize: real := 0.0
  const MaxShoeSize: real := 16.0

  /** The number n/2. */
  function Half(n: int): real {
    n as real / 2.0
  }

  /** A whole number or an exact half: some n/2. */
  ghost predicate IsWholeOrHalf(x: real) {
    exists n: int :: Half(n) == x
  }

  /** `Math.floor(x * 2) === x * 2` holds exactly for the multiples of one half. */
  lemma HalfStepTest(x: real)
    ensures (x * 2.0).Floor as real == x * 2.0 <==> IsWholeOrHalf(x)
  {
    if (x * 2.0).Floor as real == x * 2.0 {
      assert Half((x * 2.0).Floor) == x;
    }
    if IsWholeOrHalf(x) {
      var n: int :| Half(n) == x;
      assert x * 2.0 == n as real;
    }
  }

  /** A whole number passes the half-step test too, so the first test never decides alone. */
  lemma WholeIsHalfStep(x: real)
    requires x.Floor as real == x
    ensures (x * 2.0).Floor as real == x * 2.0
  {
    assert x * 2.0 == (2 * x.Floor) as real;
  }

  /** Accepts a recognized shoe size between 0 and 16, in whole or half steps. */
  function ShoeSizeValidator(recognized: RecognizerResult): (accepted: bool)
    ensures accepted <==>
      recognized.succeeded && recognized.value.Some? && recognized.value.value.Finite?
      && MinShoeSize <= recognized.value.value.x <= MaxShoeSize
      && IsWholeOrHalf(recognized.value.value.x)
  {
    if recognized.succeeded then
      match recognized.value
      case Some(Finite(shoesize)) =>
        HalfStepTest(shoesize);
        if shoesize >= MinShoeSize && shoesize <= MaxShoeSize then
          shoesize.Floor as real == shoesize || (shoesize * 2.0).Floor as real == shoesize * 2.0
        else
          false
      // an absent value or NaN fails every comparison
      case _ => false
    else
      false
  }

  /** A failed recognition is rejected whatever value it carries. */
  lemma FailedRecognitionRejected(value: Option<JsNumber>)
    ensures !ShoeSizeValidator(RecognizerResult(false, value))
  {
  }

  /** Both ends of the range are accepted; just outside them is rejected; 8.5 passes and 8.3 does not. */
  lemma ShoeSizeSamples()
    ensures ShoeSizeValidator(RecognizerResult(true, Some(Finite(0.0))))
    ensures ShoeSizeValidator(RecognizerResult(true, Some(Finite(16.0))))
    ensures ShoeSizeValidator(RecognizerResult(true, Some(Finite(8.5))))
    ensures !ShoeSizeValidator(RecognizerResult(true, Some(Finite(-1.0))))
    ensures !ShoeSizeValidator(RecognizerResult(true, Some(Finite(16.1))))
    ensures !ShoeSizeValidator(RecognizerResult(true, Some(Finite(8.3))))
    ensures !ShoeSizeValidator(RecognizerResult(true, Some(Finite(-0.5))))
    ensures !ShoeSizeValidator(RecognizerResult(true, Some(Finite(16.5))))
  {
  }

  /**
   * Chained behind the number prompt: a recognized literal that `parseFloat` cannot read
   * becomes 0, which the validator accepts as a shoe size.
   */
  lemma UnparsableNumberAcceptedAsZero(candidates: seq<ModelResult>, parseFloat: FloatParser)
    requires |candidates| > 0 && candidates[0].resolution.Some?
    requires parseFloat(candidates[0].resolution.value.value).NaN?
    ensures ShapeResult(candidates, parseFloat).value == Some(Finite(0.0))
    ensures ShoeSizeValidator(ShapeResult(candidates, parseFloat))
  {
  }

  // ---------------------------------------------------------------------------
  // Dialogs
  // ---------------------------------------------------------------------------

  /** One frame of the dialog stack: the dialog's id and its private state. */
  datatype Frame = Frame(dialogId: string, state: map<string, string>)

  /** What running dialog code did: the resulting stack and the activities it sent. */
  datatype Effect = Effect(stack: seq<Frame>, sent: seq<Outgoing>)

  /**
   * The dialog code the bot does not define: resuming the active (last) frame of a
   * non-empty stack, and starting a dialog whose fresh frame has just been pushed.
   */
  datatype DialogRuntime = DialogRuntime(
    continueActive: seq<Frame> -> Effect,
    begin: (string, seq<Frame>) -> Effect)

  datatype WaterfallStep = PromptForL1 | PromptForL2 | ProcessResults

  datatype DialogDecl = ChoicePrompt | Waterfall(steps: seq<WaterfallStep>)

  /** A dialog context over one turn: the dialog stack and the turn it runs in. */
  class DialogContext {
    const context: TurnContext
    var stack: seq<Frame>

    constructor (context: TurnContext, stack: seq<Frame>)
      ensures this.context == context && this.stack == stack
    {
      this.context := context;
      this.stack := stack;
    }

    /** The innermost frame, if a dialog is active. */
    function ActiveDialog(): (active: Option<Frame>)
      reads this
      ensures active.Some? <==> stack != []
      ensures active.Some? ==> active.value == stack[|stack| - 1]
    {
      if stack == [] then None else Some(stack[|stack| - 1])
    }

    method CancelAllDialogs()
      requires context.Valid()
      modifies this, context
      ensures context.Valid() && stack == []
      ensures context.sent == old(context.sent) && context.responded == old(context.responded)
      ensures context.trace == old(context.trace) + [Call.CancelAllDialogs]
    {
      context.Record(Call.CancelAllDialogs);
      stack := [];
    }

    /** Resumes the active dialog; with an empty stack there is nothing to resume. */
    method ContinueDialog(runtime: DialogRuntime)
      requires context.Valid()
      modifies this, context
      ensures context.Valid()
      ensures stack == (if old(stack) == [] then old(stack) else runtime.continueActive(old(stack)).stack)
      ensures context.trace == old(context.trace) + [Call.ContinueDialog] +
        (if old(stack) == [] then [] else Sends(runtime.continueActive(old(stack)).sent))
    {
      context.Record(Call.ContinueDialog);
      if stack != [] {
        var effect := runtime.continueActive(stack);
        stack := effect.stack;
        context.SendActivities(effect.sent);
      }
    }

    /** Pushes a fresh frame for `dialogId` and starts that dialog. */
    method BeginDialog(dialogId: string, runtime: DialogRuntime)
      requires context.Valid()
      modifies this, context
      ensures context.Valid()
      ensures var effect := runtime.begin(dialogId, old(stack) + [Frame(dialogId, map[])]);
        stack == effect.stack &&
        context.trace == old(context.trace) + [Call.BeginDialog(dialogId)] + Sends(effect.sent)
    {
      context.Record(Call.BeginDialog(dialogId));
      stack := stack + [Frame(dialogId, map[])];
      var effect := runtime.begin(dialogId, stack);
      stack := effect.stack;
      context.SendActivities(effect.sent);
    }
  }

  // ---------------------------------------------------------------------------
  // The turn handler
  // ---------------------------------------------------------------------------

  const CancelKeyword: string := "cancel"
  const RootDialogId: string := "root"
  const BotName: string := "Bot"
  const CanceledText: string := "Ok... canceled."
  const NothingToCancelText: string := "Nothing to cancel."
  const DescriptionText: string :=
    "This is a bot that demonstrates an alternate dialog system"
    + " " + "which uses a slot filling technique to collect multiple responses from a user."
    + " " + "Say anything to continue."

  /** A message sent by the bot itself: a plain string with no input hint. */
  function Say(text: string): Outgoing {
    Outgoing(Text(text), Unspecified)
  }

  /** The dialog stack and the calls made so far in a message turn. */
  datatype Progress = Progress(stack: seq<Frame>, trace: seq<Call>)

  /** The outcome of a whole turn; `threw` when the handler stops on a TypeError. */
  datatype TurnResult = TurnResult(stack: seq<Frame>, trace: seq<Call>, threw: bool)

  predicate Responded(p: Progress) {
    SentIn(p.trace) != []
  }

  /** Step 1 of a message turn: the cancel keyword. It responds exactly on `cancel`, which leaves no dialog. */
  function CancelStep(utterance: string, stack: seq<Frame>): (p: Progress)
    ensures Responded(p) <==> utterance == CancelKeyword
    ensures p.stack == (if utterance == CancelKeyword then [] else stack)
    ensures |SentIn(p.trace)| <= 1
  {
    if utterance != CancelKeyword then Progress(stack, [])
    else if stack != [] then
      SentInAppend([Call.CancelAllDialogs], [Send(Say(CanceledText))]);
      assert [Call.CancelAllDialogs, Send(Say(CanceledText))] == [Call.CancelAllDialogs] + [Send(Say(CanceledText))];
      Progress([], [Call.CancelAllDialogs, Send(Say(CanceledText))])
    else Progress(stack, [Send(Say(NothingToCancelText))])
  }

  /** What continuing a stack does: nothing for an empty stack, else what the active dialog does. */
  function Continued(stack: seq<Frame>, runtime: DialogRuntime): Effect {
    if stack == [] then Effect(stack, []) else runtime.continueActive(stack)
  }

  /** What beginning `root` on a stack does: push its fresh frame, then start it. */
  function RootBegun(stack: seq<Frame>, runtime: DialogRuntime): Effect {
    runtime.begin(RootDialogId, stack + [Frame(RootDialogId, map[])])
  }

  /**
   * Step 2: unless the turn has responded, record a continue and take the stack and the
   * sends of continuing; the earlier calls stay as they were.
   */
  function ContinueStep(p: Progress, runtime: DialogRuntime): (r: Progress)
    ensures Responded(p) ==> r == p
    ensures !Responded(p) ==>
      |r.trace| > |p.trace| && r.trace[..|p.trace|] == p.trace && r.trace[|p.trace|] == Call.ContinueDialog
      && r.stack == Continued(p.stack, runtime).stack
      && SentIn(r.trace) == SentIn(p.trace) + Continued(p.stack, runtime).sent
  {
    if Responded(p) then p
    else
      var effect := Continued(p.stack, runtime);
      var trace := p.trace + [Call.ContinueDialog] + Sends(effect.sent);
      SentInAppend(p.trace + [Call.ContinueDialog], Sends(effect.sent));
      SentInAppend(p.trace, [Call.ContinueDialog]);
      SentInSends(effect.sent);
      assert SentIn([Call.ContinueDialog]) == [];
      Progress(effect.stack, trace)
  }

  /**
   * Step 3: unless the turn has responded, record beginning `root` and take the stack and
   * the sends of beginning it; the earlier calls stay as they were.
   */
  function BeginStep(p: Progress, runtime: DialogRuntime): (r: Progress)
    ensures Responded(p) ==> r == p
    ensures !Responded(p) ==>
      |r.trace| > |p.trace| && r.trace[..|p.trace|] == p.trace
      && r.trace[|p.trace|] == Call.BeginDialog(RootDialogId)
      && r.stack == RootBegun(p.stack, runtime).stack
      && SentIn(r.trace) == SentIn(p.trace) + RootBegun(p.stack, runtime).sent
  {
    if Responded(p) then p
    else
      var effect := RootBegun(p.stack, runtime);
      var trace := p.trace + [Call.BeginDialog(RootDialogId)] + Sends(effect.sent);
      SentInAppend(p.trace + [Call.BeginDialog(RootDialogId)], Sends(effect.sent));
      SentInAppend(p.trace, [Call.BeginDialog(RootDialogId)]);
      SentInSends(effect.sent);
      assert SentIn([Call.BeginDialog(RootDialogId)]) == [];
      Progress(effect.stack, trace)
  }

  /** The utterance a message turn tests: the text, trimmed and lower-cased; empty for absent or empty text. */
  function Utterance(text: Option<string>): (u: string)
    ensures Trimmed(u)
    ensures !Truthy(text) ==> u == ""
  {
    Normalize(OrElse(text, ""))
  }

  /**
   * A message turn on a normalised utterance, up to, not including, saving the state.
   * The active dialog is continued exactly when the utterance is not `cancel`.
   */
  function MessageTurn(utterance: string, stack: seq<Frame>, runtime: DialogRuntime): (p: Progress)
    ensures Call.ContinueDialog in p.trace <==> utterance != CancelKeyword
  {
    var p1 := CancelStep(utterance, stack);
    var p2 := ContinueStep(p1, runtime);
    var p3 := BeginStep(p2, runtime);
    if utterance == CancelKeyword then
      assert Call.ContinueDialog !in p3.trace;
      p3
    else
      assert p3.trace[0] == p2.trace[0] == Call.ContinueDialog;
      p3
  }

  /**
   * The specification of `SampleBot.OnTurn`. Only a conversation update with no added
   * member throws, and only a message can change the dialog stack.
   */
  function Turn(activity: Activity, stack: seq<Frame>, runtime: DialogRuntime): (r: TurnResult)
    ensures r.threw <==> activity.kind == ConversationUpdate && activity.membersAdded == []
    ensures activity.kind != Message ==> r.stack == stack
  {
    match activity.kind
    case Message =>
      var p := MessageTurn(Utterance(activity.text), stack, runtime);
      TurnResult(p.stack, p.trace + [SaveChanges], false)
    case ConversationUpdate =>
      if activity.membersAdded == [] then TurnResult(stack, [], true)
      else if activity.membersAdded[0].name != BotName then
        TurnResult(stack, [Send(Say(DescriptionText)), SaveChanges], false)
      else TurnResult(stack, [SaveChanges], false)
    case OtherActivity(_) => TurnResult(stack, [SaveChanges], false)
  }

  /** The normalised utterance is the cancel keyword exactly when the text is "cancel" in any case, padded with white space. */
  lemma CancelUtterance(pre: string, w: string, post: string)
    requires AllWhiteSpace(pre) && AllWhiteSpace(post) && Trimmed(w)
    ensures Normalize(pre + w + post) == CancelKeyword <==>
      |w| == |CancelKeyword| && forall i :: 0 <= i < |w| ==> w[i] == CancelKeyword[i] || w[i] == "CANCEL"[i]
  {
    TrimOfPadded(pre, w, post);
    LowerMatchesIgnoringCase(w, CancelKeyword);
    assert forall i :: 0 <= i < |CancelKeyword| ==> "CANCEL"[i] == (CancelKeyword[i] as int - 32) as char;
  }

  /** `cancel` with an active dialog empties the stack, says "Ok... canceled." and nothing else. */
  lemma CancelActiveDialog(stack: seq<Frame>, runtime: DialogRuntime)
    requires stack != []
    ensures MessageTurn(CancelKeyword, stack, runtime) ==
      Progress([], [Call.CancelAllDialogs, Send(Say(CanceledText))])
    ensures SentIn(MessageTurn(CancelKeyword, stack, runtime).trace) == [Say(CanceledText)]
  {
    var p1 := CancelStep(CancelKeyword, stack);
    assert SentIn(p1.trace) == [Say(CanceledText)] by {
      assert p1.trace == [Call.CancelAllDialogs] + [Send(Say(CanceledText))];
      SentInAppend([Call.CancelAllDialogs], [Send(Say(CanceledText))]);
    }
  }

  /** `cancel` with no active dialog says "Nothing to cancel.", leaves the stack alone and neither continues nor begins a dialog. */
  lemma CancelNothingActive(runtime: DialogRuntime)
    ensures MessageTurn(CancelKeyword, [], runtime) == Progress([], [Send(Say(NothingToCancelText))])
    ensures SentIn(MessageTurn(CancelKeyword, [], runtime).trace) == [Say(NothingToCancelText)]
  {
  }

  /**
   * Any other message resumes the active dialog first, and `root` is begun exactly when
   * nothing has been sent by then.
   */
  lemma NonCancelMessage(utterance: string, stack: seq<Frame>, runtime: DialogRuntime)
    requires utterance != CancelKeyword
    ensures var continued := Continued(stack, runtime);
      var p := MessageTurn(utterance, stack, runtime);
      p.trace[0] == Call.ContinueDialog
      && (Call.BeginDialog(RootDialogId) in p.trace <==> continued.sent == [])
      && (continued.sent != [] ==> p.stack == continued.stack && SentIn(p.trace) == continued.sent)
      && (continued.sent == [] ==>
            p.stack == RootBegun(continued.stack, runtime).stack
            && SentIn(p.trace) == RootBegun(continued.stack, runtime).sent)
  {
    var continued := Continued(stack, runtime);
    var p1 := CancelStep(utterance, stack);
    assert p1 == Progress(stack, []);
    var p2 := ContinueStep(p1, runtime);
    assert p2 == Progress(continued.stack, [Call.ContinueDialog] + Sends(continued.sent));
    var p := MessageTurn(utterance, stack, runtime);
    assert p == BeginStep(p2, runtime);
    if continued.sent != [] {
      assert Call.BeginDialog(RootDialogId) !in p.trace by {
        forall i | 0 <= i < |p.trace|
          ensures p.trace[i] != Call.BeginDialog(RootDialogId)
        {
          if 1 <= i {
            assert p.trace[i] == Sends(continued.sent)[i - 1];
          }
        }
      }
    } else {
      assert p.trace[|p2.trace|] == Call.BeginDialog(RootDialogId);
    }
  }

  /** With no active dialog, any message other than `cancel` begins `root` right after the empty continue. */
  lemma EmptyStackBeginsRoot(utterance: string, runtime: DialogRuntime)
    requires utterance != CancelKeyword
    ensures var begun := runtime.begin(RootDialogId, [Frame(RootDialogId, map[])]);
      MessageTurn(utterance, [], runtime) ==
        Progress(begun.stack, [Call.ContinueDialog, Call.BeginDialog(RootDialogId)] + Sends(begun.sent))
    ensures SentIn(MessageTurn(utterance, [], runtime).trace) ==
      runtime.begin(RootDialogId, [Frame(RootDialogId, map[])]).sent
  {
    var begun := runtime.begin(RootDialogId, [Frame(RootDialogId, map[])]);
    var p2 := ContinueStep(CancelStep(utterance, []), runtime);
    assert p2 == Progress([], [Call.ContinueDialog]);
    assert [] + [Frame(RootDialogId, map[])] == [Frame(RootDialogId, map[])];
    assert MessageTurn(utterance, [], runtime).trace ==
      [Call.ContinueDialog, Call.BeginDialog(RootDialogId)] + Sends(begun.sent);
    SentInSends(begun.sent);
    SentInAppend([Call.ContinueDialog, Call.BeginDialog(RootDialogId)], Sends(begun.sent));
  }

  /**
   * A member joining who is not the bot gets the description, once; no other activity
   * apart from a message sends anything. Neither touches the dialog stack.
   */
  lemma NonMessageTurn(activity: Activity, stack: seq<Frame>, runtime: DialogRuntime)
    requires activity.kind != Message
    requires activity.kind == ConversationUpdate ==> activity.membersAdded != []
    ensures var r := Turn(activity, stack, runtime);
      !r.threw && r.stack == stack
      && SentIn(r.trace) ==
         (if activity.kind == ConversationUpdate && activity.membersAdded[0].name != BotName
          then [Say(DescriptionText)] else [])
      && forall c :: c in r.trace ==> c.Send? || c == SaveChanges
  {
    var r := Turn(activity, stack, runtime);
    if activity.kind == ConversationUpdate && activity.membersAdded[0].name != BotName {
      assert r.trace == [Send(Say(DescriptionText))] + [SaveChanges];
      SentInAppend([Send(Say(DescriptionText))], [SaveChanges]);
    } else {
      assert r.trace == [SaveChanges];
    }
  }

  /** No step of a message turn saves the state. */
  lemma MessageTurnNeverSaves(utterance: string, stack: seq<Frame>, runtime: DialogRuntime)
    ensures SaveChanges !in MessageTurn(utterance, stack, runtime).trace
  {
    var p1 := CancelStep(utterance, stack);
    var p2 := ContinueStep(p1, runtime);
    var p3 := BeginStep(p2, runtime);
    assert SaveChanges !in p1.trace;
    if !Responded(p1) && p1.stack != [] {
      var sent := runtime.continueActive(p1.stack).sent;
      assert p2.trace == p1.trace + [Call.ContinueDialog] + Sends(sent);
      assert SaveChanges !in Sends(sent);
    }
    assert SaveChanges !in p2.trace;
    if !Responded(p2) {
      var sent := runtime.begin(RootDialogId, p2.stack + [Frame(RootDialogId, map[])]).sent;
      assert p3.trace == p2.trace + [Call.BeginDialog(RootDialogId)] + Sends(sent);
      assert SaveChanges !in Sends(sent);
    }
  }

  /**
   * The state is saved exactly once, as the last call of the turn, unless the handler
   * throws; it throws only on a conversation update with no added member, before
   * sending or saving anything.
   */
  lemma SavedOncePerTurn(activity: Activity, stack: seq<Frame>, runtime: DialogRuntime)
    ensures Turn(activity, stack, runtime).threw <==>
      activity.kind == ConversationUpdate && activity.membersAdded == []
    ensures Turn(activity, stack, runtime).threw ==>
      Turn(activity, stack, runtime) == TurnResult(stack, [], true)
    ensures var r := Turn(activity, stack, runtime);
      !r.threw ==> |r.trace| > 0 && r.trace[|r.trace| - 1] == SaveChanges
                   && SaveChanges !in r.trace[..|r.trace| - 1]
  {
    if activity.kind == Message {
      MessageTurnNeverSaves(Utterance(activity.text), stack, runtime);
      var r := Turn(activity, stack, runtime);
      assert r.trace[..|r.trace| - 1] == MessageTurn(Utterance(activity.text), stack, runtime).trace;
    }
  }

  class SampleBot {
    /** The dialog stack kept in conversation state. */
    var dialogState: seq<Frame>
    /** The stacks written to the conversation state store, oldest first. */
    var saved: seq<seq<Frame>>
    /** The dialog set: each registered dialog by id. */
    var dialogs: map<string, DialogDecl>

    constructor ()
      ensures dialogState == [] && saved == []
      ensures dialogs.Keys == {"level1", "level2", RootDialogId}
      ensures dialogs["level1"] == ChoicePrompt && dialogs["level2"] == ChoicePrompt
      ensures dialogs[RootDialogId] == Waterfall([PromptForL1, PromptForL2, ProcessResults])
    {
      dialogState, saved := [], [];
      dialogs := map[];
      new;
      dialogs := dialogs["level1" := ChoicePrompt];
      dialogs := dialogs["level2" := ChoicePrompt];
      dialogs := dialogs[RootDialogId := Waterfall([PromptForL1, PromptForL2, ProcessResults])];
    }

    /** `conversationState.saveChanges(context)` */
    method SaveState(context: TurnContext)
      requires context.Valid()
      modifies this`saved, context
      ensures context.Valid() && context.sent == old(context.sent)
      ensures context.trace == old(context.trace) + [SaveChanges]
      ensures saved == old(saved) + [dialogState]
    {
      context.Record(SaveChanges);
      saved := saved + [dialogState];
    }

    /** The message branch: the cancel keyword, then continue, then begin `root`. */
    method OnMessage(context: TurnContext, runtime: DialogRuntime)
      requires context.Valid() && context.trace == [] && context.activity.kind == Message
      modifies this`dialogState, context
      ensures context.Valid()
      ensures var p := MessageTurn(Utterance(context.activity.text), old(dialogState), runtime);
        dialogState == p.stack && context.trace == p.trace
    {
      var dc := new DialogContext(context, dialogState);
      var utterance := Normalize(OrElse(context.activity.text, ""));
      assert utterance == Utterance(context.activity.text);
      if utterance == CancelKeyword {
        if dc.ActiveDialog().Some? {
          dc.CancelAllDialogs();
          context.SendActivity(Text(CanceledText), Unspecified);
        } else {
          context.SendActivity(Text(NothingToCancelText), Unspecified);
        }
      }
      ghost var p1 := CancelStep(utterance, dialogState);
      assert dc.stack == p1.stack && context.trace == p1.trace;
      if !context.responded {
        dc.ContinueDialog(runtime);
      }
      ghost var p2 := ContinueStep(p1, runtime);
      assert dc.stack == p2.stack && context.trace == p2.trace;
      if !context.responded {
        dc.BeginDialog(RootDialogId, runtime);
      }
      dialogState := dc.stack;
    }

    /** Handles one incoming activity; `threw` when it stops on a TypeError. */
    method OnTurn(context: TurnContext, runtime: DialogRuntime) returns (threw: bool)
      requires context.Valid() && context.trace == []
      modifies this, context
      ensures context.Valid()
      ensures var r := Turn(context.activity, old(dialogState), runtime);
        threw == r.threw && dialogState == r.stack && context.trace == r.trace
      ensures saved == old(saved) + (if threw then [] else [dialogState])
      ensures dialogs == old(dialogs)
    {
      threw := false;
      var activity := context.activity;
      if activity.kind == Message {
        OnMessage(context, runtime);
      } else if activity.kind == ConversationUpdate {
        if activity.membersAdded == [] {
          // `membersAdded[0].name` reads a property of undefined
          return true;
        }
        if activity.membersAdded[0].name != BotName {
          context.SendActivity(Text(DescriptionText), Unspecified);
        }
      }
      SaveState(context);
    }
  }
}
