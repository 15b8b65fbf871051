/** The activity router of Controllers/MessagesController.cs: `Post` hands
    message activities to the image dialog and everything else to
    `HandleSystemMessage`, which acts only when the bot itself was added to a
    conversation. Sending and dispatching are recorded as effects. */
module Controllers {
  import opened Outcomes

  /** HTTP 202 Accepted. */
  const Accepted := 202

  const WelcomeText := "### Welcome to Image Description Bot!\nDrop me an image and I'll do my best describe what's on it :)"

  /** The activity types the controller distinguishes, and any other.
      `Unrecognised(name)` stands for a type string that is none of the five
      named ones; a value whose name is one of them denotes no real activity. */
  datatype ActivityType =
    | Message
    | ConversationUpdate
    | ContactRelationUpdate
    | Typing
    | Ping
    | DeleteUserData
    | Unrecognised(name: string)

  /** A channel account; its id may be null. */
  datatype Account = Account(id: Option<string>)

  /** The parts of an incoming activity the controller reads. */
  datatype Activity = Activity(
    kind: ActivityType,
    id: Option<string>,
    conversationId: string,
    serviceUrl: string,
    recipient: Option<Account>,
    membersAdded: Option<seq<Account>>)

  /** A reply made with `CreateReply` and sent through a connector on
      `serviceUrl`. */
  datatype Outbound = Outbound(serviceUrl: string, conversationId: string, replyToId: Option<string>, text: string)

  /** What the controller did: hand the activity to the root dialog, or send a
      reply. */
  datatype Effect = DispatchToDialog(activity: Activity) | Send(reply: Outbound)

  /** How a call ended: it returned (with the replies it sent), or it threw a
      NullReferenceException. */
  datatype Handled = Handled(sent: seq<Outbound>) | Threw

  /** The HTTP response of `Post`, or the exception that escaped it. */
  datatype Response = Status(code: int) | Faulted

  /** `members.Any(acc => acc.Id == id)` once `id` could be read. */
  function AnyMatches(members: seq<Account>, id: Option<string>): (r: bool)
    ensures r <==> exists i :: 0 <= i < |members| && members[i].id == id
    decreases |members|
  {
    if |members| == 0 then false
    else if members[0].id == id then true
    else
      var rest := AnyMatches(members[1..], id);
      assert rest ==> exists i :: 0 <= i < |members| && members[i].id == id by {
        if rest {
          var j :| 0 <= j < |members[1..]| && members[1..][j].id == id;
          assert members[j + 1].id == id;
        }
      }
      rest
  }

  /** `message.MembersAdded?.Any(isBot) ?? false`, where `isBot` reads
      `message.Recipient.Id`: `None` when that read throws, which happens only
      when there is a member to test and no recipient. */
  function BotWasAdded(message: Activity): (r: Option<bool>)
    ensures r.None? <==> message.membersAdded.Some? && |message.membersAdded.value| > 0 && message.recipient.None?
    ensures r == Some(true) <==>
              && message.membersAdded.Some? && message.recipient.Some?
              && exists i :: 0 <= i < |message.membersAdded.value| &&
                             message.membersAdded.value[i].id == message.recipient.value.id
  {
    match message.membersAdded
    case None => Some(false)
    case Some(members) =>
      if |members| == 0 then Some(false)
      else match message.recipient
        case None => None
        case Some(bot) => Some(AnyMatches(members, bot.id))
  }

  /** `message.CreateReply(text)`: a reply in the same conversation, to the
      triggering activity, through that activity's service URL. */
  function CreateReply(message: Activity, text: string): Outbound
  {
    Outbound(message.serviceUrl, message.conversationId, message.id, text)
  }

  /** `HandleSystemMessage` (lines 36-71): an exclusive chain over the type;
      only a conversation update that added the bot sends something. A null
      activity throws at the first type test. */
  function SystemMessage(message: Option<Activity>): Handled
  {
    match message
    case None => Threw
    case Some(m) =>
      if m.kind == DeleteUserData then Handled([])
      else if m.kind == ConversationUpdate then
        match BotWasAdded(m)
        case None => Threw
        case Some(added) => if added then Handled([CreateReply(m, WelcomeText)]) else Handled([])
      else if m.kind == ContactRelationUpdate then Handled([])
      else if m.kind == Typing then Handled([])
      else if m.kind == Ping then Handled([])
      else Handled([])
  }

  /** Each reply sent, as an effect, in order. */
  function Sends(sent: seq<Outbound>): seq<Effect>
  {
    seq(|sent|, i requires 0 <= i < |sent| => Send(sent[i]))
  }

  /** `Post` (lines 22-34): what it did and how it ended. */
  function PostOutcome(activity: Option<Activity>): (Response, seq<Effect>)
  {
    if activity.Some? && activity.value.kind == Message then
      (Status(Accepted), [DispatchToDialog(activity.value)])
    else
      match SystemMessage(activity)
      case Threw => (Faulted, [])
      case Handled(sent) => (Status(Accepted), Sends(sent))
  }

  // ---------------------------------------------------------------------------
  // Properties of the router
  // ---------------------------------------------------------------------------

  /** A message activity goes to the dialog and nowhere else. */
  lemma MessageIsDispatched(a: Activity)
    requires a.kind == Message
    ensures PostOutcome(Some(a)) == (Status(Accepted), [DispatchToDialog(a)])
  {
  }

  /** Every call that returns answers 202 Accepted, whatever the type. Of the
      exceptions the model covers, a call throws only for a null activity, or
      for a conversation update with added members and no recipient. */
  lemma AlwaysAccepted(activity: Option<Activity>)
    ensures PostOutcome(activity).0 == Status(Accepted) || PostOutcome(activity).0 == Faulted
    ensures PostOutcome(activity).0 == Faulted <==>
              || activity.None?
              || (&& activity.value.kind == ConversationUpdate
                  && activity.value.membersAdded.Some? && |activity.value.membersAdded.value| > 0
                  && activity.value.recipient.None?)
  {
  }

  /** Exactly one welcome reply, in the triggering conversation, when some added
      member has the recipient's id — however many do; otherwise no reply. */
  lemma WelcomeIff(a: Activity)
    ensures var effects := PostOutcome(Some(a)).1;
            && (|effects| == 1 && effects[0].Send?) <==>
                 && a.kind == ConversationUpdate
                 && a.membersAdded.Some? && a.recipient.Some?
                 && exists i :: 0 <= i < |a.membersAdded.value| && a.membersAdded.value[i].id == a.recipient.value.id
    ensures var effects := PostOutcome(Some(a)).1;
            forall e :: e in effects && e.Send? ==>
              e.reply == Outbound(a.serviceUrl, a.conversationId, a.id, WelcomeText)
  {
  }

  /** Deleting user data, contact list changes, typing, pings and unknown types
      do nothing. */
  lemma OtherTypesDoNothing(a: Activity)
    requires a.kind != Message && a.kind != ConversationUpdate
    ensures PostOutcome(Some(a)) == (Status(Accepted), [])
  {
  }

  /** At most one branch of the chain acts: one effect at most per activity. */
  lemma AtMostOneEffect(activity: Option<Activity>)
    ensures |PostOutcome(activity).1| <= 1
  {
  }

  // ---------------------------------------------------------------------------
  // The controller
  // ---------------------------------------------------------------------------

  /** The controller with the log of what it has done. */
  class MessagesController {
    var effects: seq<Effect>

    constructor ()
      ensures effects == []
    {
      effects := [];
    }

    /** `ReplyToActivityAsync` on a connector for the reply's service URL. */
    method ReplyToActivity(reply: Outbound)
      modifies this
      ensures effects == old(effects) + [Send(reply)]
    {
      effects := effects + [Send(reply)];
    }

    /** `HandleSystemMessage`; returns whether it returned (with null) rather
        than threw. */
    method HandleSystemMessage(message: Option<Activity>) returns (returned: bool)
      modifies this
      ensures returned <==> SystemMessage(message).Handled?
      ensures effects == old(effects) +
                (if returned then Sends(SystemMessage(message).sent) else [])
    {
      if message.None? {
        return false;
      }
      var m := message.value;
      if m.kind == DeleteUserData {
      } else if m.kind == ConversationUpdate {
        var added := BotWasAdded(m);
        if added.None? {
          return false;
        }
        if added.value {
          ReplyToActivity(CreateReply(m, WelcomeText));
        }
      } else if m.kind == ContactRelationUpdate {
      } else if m.kind == Typing {
      } else if m.kind == Ping {
      }
      returned := true;
    }

    /** `Post`: dispatch a message to the dialog, anything else to
        `HandleSystemMessage`; answer 202 Accepted. */
    method Post(activity: Option<Activity>) returns (response: Response)
      modifies this
      ensures response == PostOutcome(activity).0
      ensures effects == old(effects) + PostOutcome(activity).1
    {
      if activity.Some? && activity.value.kind == Message {
        effects := effects + [DispatchToDialog(activity.value)];
      } else {
        var returned := HandleSystemMessage(activity);
        if !returned {
          return Faulted;
        }
      }
      response := Status(Accepted);
    }
  }
}
