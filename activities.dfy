/**
 * The part of the Bot Framework activity model and turn context that the bot and the
 * number prompt touch: an incoming activity, the outgoing messages of a turn, the
 * `responded` flag, and a record of the calls the turn makes into the dialog library
 * and the conversation state.
 */
module Activities {
  import opened Wrappers

  datatype ActivityType = Message | ConversationUpdate | OtherActivity(name: string)

  datatype ChannelAccount = ChannelAccount(name: string)

  /**
   * An incoming activity. `text` and `locale` may be absent. An absent `membersAdded` is
   * the empty sequence: reading `membersAdded[0].name` throws a TypeError in both cases
   * (indexing `undefined` throws at once; `[][0]` yields `undefined`, whose `name` throws).
   */
  datatype Activity = Activity(
    kind: ActivityType,
    text: Option<string>,
    locale: Option<string>,
    membersAdded: seq<ChannelAccount>)

  /** What `sendActivity` accepts: a string, or a partial activity object. */
  datatype MessageBody = Text(value: string) | PartialActivity(text: string)

  datatype InputHint = Unspecified | ExpectingInput

  datatype Outgoing = Outgoing(body: MessageBody, inputHint: InputHint)

  /** One call a turn makes to the outside world, in the order it is made. */
  datatype Call =
    | Send(activity: Outgoing)
    | CancelAllDialogs
    | ContinueDialog
    | BeginDialog(dialogId: string)
    | SaveChanges

  /** The activities sent by a sequence of calls, in order. */
  function SentIn(trace: seq<Call>): seq<Outgoing> {
    if trace == [] then []
    else (if trace[0].Send? then [trace[0].activity] else []) + SentIn(trace[1..])
  }

  /** One `Send` call per activity of a batch. */
  function Sends(batch: seq<Outgoing>): (calls: seq<Call>)
    ensures |calls| == |batch|
    ensures forall i :: 0 <= i < |batch| ==> calls[i] == Send(batch[i])
  {
    if batch == [] then [] else [Send(batch[0])] + Sends(batch[1..])
  }

  lemma {:induction false} SentInAppend(a: seq<Call>, b: seq<Call>)
    ensures SentIn(a + b) == SentIn(a) + SentIn(b)
  {
    if a != [] {
      assert (a + b)[1..] == a[1..] + b;
      SentInAppend(a[1..], b);
    } else {
      assert a + b == b;
    }
  }

  /** Sending a batch sends exactly that batch. */
  lemma {:induction false} SentInSends(batch: seq<Outgoing>)
    ensures SentIn(Sends(batch)) == batch
  {
    if batch != [] {
      assert Sends(batch)[1..] == Sends(batch[1..]);
      SentInSends(batch[1..]);
    }
  }

  /**
   * The context of one turn. `sent` is what the turn has sent so far and `responded`
   * whether it has sent anything; the ghost `trace` records every call the turn makes.
   */
  class TurnContext {
    const activity: Activity
    var sent: seq<Outgoing>
    var responded: bool
    ghost var trace: seq<Call>

    ghost predicate Valid()
      reads this
    {
      sent == SentIn(trace) && responded == (sent != [])
    }

    constructor (activity: Activity)
      ensures Valid() && this.activity == activity && trace == []
    {
      this.activity := activity;
      sent, responded := [], false;
      trace := [];
    }

    /** `sendActivity(body, undefined, inputHint)` */
    method SendActivity(body: MessageBody, inputHint: InputHint)
      requires Valid()
      modifies this
      ensures Valid() && responded
      ensures sent == old(sent) + [Outgoing(body, inputHint)]
      ensures trace == old(trace) + [Send(Outgoing(body, inputHint))]
    {
      SentInAppend(trace, [Send(Outgoing(body, inputHint))]);
      sent := sent + [Outgoing(body, inputHint)];
      responded := true;
      trace := trace + [Send(Outgoing(body, inputHint))];
    }

    /** Sends, one by one, the activities that dialog code produced. */
    method SendActivities(batch: seq<Outgoing>)
      requires Valid()
      modifies this
      ensures Valid()
      ensures sent == old(sent) + batch
      ensures trace == old(trace) + Sends(batch)
    {
      SentInAppend(trace, Sends(batch));
      SentInSends(batch);
      sent := sent + batch;
      responded := sent != [];
      trace := trace + Sends(batch);
    }

    /** Records a call into the dialog library or the conversation state. */
    method Record(call: Call)
      requires Valid() && !call.Send?
      modifies this
      ensures Valid() && sent == old(sent) && responded == old(responded)
      ensures trace == old(trace) + [call]
    {
      SentInAppend(trace, [call]);
      trace := trace + [call];
    }
  }
}
