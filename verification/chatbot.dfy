/** The scripted chat assistant: a keyword table, the reply chosen for a
    message, and the append-only conversation history. */
module Chatbot {
  import opened Wrappers
  import opened Strings
  import Seqs

  datatype Sender = UserSender | BotSender

  /** One turn of the conversation. The display timestamp is not modelled. */
  datatype Message = Message(id: string, content: string, sender: Sender)

  /** The subjects the assistant has a canned reply for. */
  datatype Topic = HelloTopic | DonateTopic | VolunteerTopic | MissionTopic
                 | ContactTopic | HelpTopic | ProgramsTopic | ImpactTopic

  /** The canned reply for each topic. */
  function ReplyText(t: Topic): string {
    match t
    case HelloTopic => "Hello! Welcome to ChildHope. I'm here to help you learn about our mission to combat child labor and protect children's rights."
    case DonateTopic => "Thank you for your interest in donating! You can make a secure donation by clicking the 'Donate' button on our website. We accept one-time and recurring donations, and all contributions are tax-deductible."
    case VolunteerTopic => "We'd love to have you as a volunteer! You can apply through our Volunteer page. We have opportunities for fundraising, awareness campaigns, educational support, and direct child assistance programs."
    case MissionTopic => "Our mission is to eliminate child labor and provide education, healthcare, and hope to vulnerable children worldwide. We believe every child deserves a safe childhood and access to education."
    case ContactTopic => "You can reach us at info@childhope.org or call us at +1 (555) 123-4567. Our office is located at 123 Hope Street, Child Protection District."
    case HelpTopic => "I can help you with information about donations, volunteering, our programs, contact details, and general questions about ChildHope. What would you like to know?"
    case ProgramsTopic => "We run several programs including Child Rescue Operations, Education Support, Healthcare Services, Family Rehabilitation, Awareness Campaigns, and Policy Advocacy."
    case ImpactTopic => "We've rescued over 10,000 children from labor situations, provided education to 25,000+ children, and operate in 15+ countries. Check our Impact Dashboard for real-time statistics!"
  }

  /** A keyword and the topic whose reply it selects. */
  datatype Entry = Entry(key: string, topic: Topic)

  /** The keyword table, in the order its entries are tried. */
  const Responses: seq<Entry> := [
    Entry("hello", HelloTopic),
    Entry("donate", DonateTopic),
    Entry("volunteer", VolunteerTopic),
    Entry("mission", MissionTopic),
    Entry("contact", ContactTopic),
    Entry("help", HelpTopic),
    Entry("programs", ProgramsTopic),
    Entry("impact", ImpactTopic)
  ]

  /** The fallback reply is this prefix, the user's message, then this suffix. */
  const FallbackPrefix: string := "I understand you're asking about "
  const FallbackSuffix: string := ". For specific information, please contact us at info@childhope.org or browse our website sections. I can help with questions about donations, volunteering, our programs, and contact information."

  /** The greeting the conversation starts with. */
  const Greeting: string := "Hello! I'm here to help you learn more about ChildHope and how you can make a difference in children's lives. How can I assist you today?"

  /** The index of the first entry of `table` whose key occurs in `lowered`. */
  function FirstMatch(table: seq<Entry>, lowered: string): (r: Option<nat>)
    ensures r.None? <==> forall i :: 0 <= i < |table| ==> !Contains(lowered, table[i].key)
    ensures r.Some? ==> r.value < |table| && Contains(lowered, table[r.value].key)
    ensures r.Some? ==> forall j :: 0 <= j < r.value ==> !Contains(lowered, table[j].key)
    ensures forall i :: 0 <= i < |table| && Contains(lowered, table[i].key)
              && (forall j :: 0 <= j < i ==> !Contains(lowered, table[j].key))
              ==> r == Some(i)
  {
    Seqs.FindIndex(table, (e: Entry) => Contains(lowered, e.key))
  }

  /** `getBotResponse` over an arbitrary keyword table: the reply of the first
      entry whose key occurs in the lower-cased message, otherwise the
      fallback, which echoes the message as typed. */
  function ReplyFrom(table: seq<Entry>, message: string): (r: string)
    ensures forall i :: 0 <= i < |table| && Contains(Lower(message), table[i].key)
              && (forall j :: 0 <= j < i ==> !Contains(Lower(message), table[j].key))
              ==> r == ReplyText(table[i].topic)
    ensures (forall i :: 0 <= i < |table| ==> !Contains(Lower(message), table[i].key))
              ==> r == FallbackPrefix + message + FallbackSuffix
  {
    match FirstMatch(table, Lower(message))
    case Some(i) => ReplyText(table[i].topic)
    case None => FallbackPrefix + message + FallbackSuffix
  }

  /** `getBotResponse`: the reply of the first entry of the site's table whose
      key occurs in the lower-cased message, otherwise the fallback quoting
      the message as typed; defined for every string. */
  function BotResponse(message: string): (r: string)
    ensures forall i :: 0 <= i < |Responses| && Contains(Lower(message), Responses[i].key)
              && (forall j :: 0 <= j < i ==> !Contains(Lower(message), Responses[j].key))
              ==> r == ReplyText(Responses[i].topic)
    ensures (forall i :: 0 <= i < |Responses| ==> !Contains(Lower(message), Responses[i].key))
              ==> r == FallbackPrefix + message + FallbackSuffix
  {
    ReplyFrom(Responses, message)
  }

  /** Every key is lower case, so lower-casing the message makes the match
      case-insensitive. */
  lemma KeysAreLowerCase()
    ensures forall i :: 0 <= i < |Responses| ==> Lower(Responses[i].key) == Responses[i].key
  {
  }


  /** Two messages that differ only in letter case select the same entry of any table. */
  lemma MatchIsCaseInsensitive(table: seq<Entry>, m1: string, m2: string)
    requires Lower(m1) == Lower(m2)
    ensures FirstMatch(table, Lower(m1)) == FirstMatch(table, Lower(m2))
    ensures FirstMatch(table, Lower(m1)).Some? ==> ReplyFrom(table, m1) == ReplyFrom(table, m2)
  {
  }

  /** The empty message matches no key and gets the fallback. */
  lemma EmptyMessageFallsBack()
    ensures BotResponse("") == FallbackPrefix + FallbackSuffix
  {
    assert Lower("") == [];
    NoKeyFallsBack("");
  }

  /** The reply is that of entry `i` once entry `i` matches and no earlier entry does. */
  lemma ReplyOfFirstMatch(message: string, i: nat)
    requires i < |Responses|
    requires Contains(Lower(message), Responses[i].key)
    requires forall j :: 0 <= j < i ==> !Contains(Lower(message), Responses[j].key)
    ensures BotResponse(message) == ReplyText(Responses[i].topic)
  {
  }

  /** A message mentioning "donate" gets the donation reply unless it also
      mentions "hello", whatever else it mentions: "donate and volunteer"
      gets the donation reply, not the volunteering one. */
  lemma DonateWinsOverLaterKeys(message: string)
    requires Contains(Lower(message), "donate") && !Contains(Lower(message), "hello")
    ensures BotResponse(message) == ReplyText(DonateTopic)
  {
    ReplyOfFirstMatch(message, 1);
  }

  /** A question about the mission gets the mission statement when it names
      none of the three earlier keys. */
  lemma MissionReply(message: string)
    requires Contains(Lower(message), "mission")
    requires !Contains(Lower(message), "hello") && !Contains(Lower(message), "donate")
    requires !Contains(Lower(message), "volunteer")
    ensures BotResponse(message) == ReplyText(MissionTopic)
  {
    ReplyOfFirstMatch(message, 3);
  }

  /** A message whose lower-casing holds none of the eight keys gets the fallback. */
  lemma NoKeyFallsBack(message: string)
    requires !Contains(Lower(message), "hello") && !Contains(Lower(message), "donate")
    requires !Contains(Lower(message), "volunteer") && !Contains(Lower(message), "mission")
    requires !Contains(Lower(message), "contact") && !Contains(Lower(message), "help")
    requires !Contains(Lower(message), "programs") && !Contains(Lower(message), "impact")
    ensures BotResponse(message) == FallbackPrefix + message + FallbackSuffix
  {
  }

  /** "asdkjalksd" names none of the first four keys: each has a letter the message lacks. */
  lemma GibberishLacksFirstKeys()
    ensures !Contains("asdkjalksd", "hello") && !Contains("asdkjalksd", "donate")
    ensures !Contains("asdkjalksd", "volunteer") && !Contains("asdkjalksd", "mission")
  {
    NotContainsByChar("asdkjalksd", "hello", 'h');
    NotContainsByChar("asdkjalksd", "donate", 'o');
    NotContainsByChar("asdkjalksd", "volunteer", 'v');
    NotContainsByChar("asdkjalksd", "mission", 'm');
  }

  /** ...nor any of the last four. */
  lemma GibberishLacksLastKeys()
    ensures !Contains("asdkjalksd", "contact") && !Contains("asdkjalksd", "help")
    ensures !Contains("asdkjalksd", "programs") && !Contains("asdkjalksd", "impact")
  {
    NotContainsByChar("asdkjalksd", "contact", 'c');
    NotContainsByChar("asdkjalksd", "help", 'p');
    NotContainsByChar("asdkjalksd", "programs", 'p');
    NotContainsByChar("asdkjalksd", "impact", 'i');
  }

  /** A message naming no key gets the fallback, which echoes it as typed. */
  lemma GibberishExample()
    ensures BotResponse("asdkjalksd") == FallbackPrefix + "asdkjalksd" + FallbackSuffix
  {
    LowerOfLowerCase("asdkjalksd");
    GibberishLacksFirstKeys();
    GibberishLacksLastKeys();
    NoKeyFallsBack("asdkjalksd");
  }

  /** A capitalised greeting still matches the lower-case key "hello". */
  lemma HelloExample()
    ensures BotResponse("Hello there") == ReplyText(HelloTopic)
  {
    var lowered := "hello there";
    assert Lower("Hello there") == lowered;
    assert Contains(lowered, Responses[0].key) by {
      ContainsPrefix(lowered, "hello");
    }
    ReplyOfFirstMatch("Hello there", 0);
  }

  /** The conversation as the widget first shows it: the bot's greeting alone. */
  function InitialHistory(): (h: seq<Message>)
    ensures |h| == 1 && h[0].id == "1" && h[0].content == Greeting
    ensures forall m <- h :: m.sender == BotSender
  {
    [Message("1", Greeting, BotSender)]
  }

  /** Sending `input`: a blank input (one that trims to nothing) is ignored;
      otherwise the user's message and then the bot's reply to that same input
      are appended. The message ids come from the clock and are parameters here. */
  function SendMessage(history: seq<Message>, input: string, userId: string, botId: string): (h: seq<Message>)
    ensures AllWhitespace(input) ==> h == history
    ensures !AllWhitespace(input) ==> |h| == |history| + 2 && h[..|history|] == history
    ensures !AllWhitespace(input) ==> h[|history|] == Message(userId, input, UserSender)
    ensures !AllWhitespace(input) ==> h[|history| + 1] == Message(botId, BotResponse(input), BotSender)
  {
    TrimEmptyIffAllWhitespace(input);
    if Trim(input) == [] then history
    else history + [Message(userId, input, UserSender), Message(botId, BotResponse(input), BotSender)]
  }

  /** One send action of the user, with the ids the clock would supply. */
  datatype Send = Send(input: string, userId: string, botId: string)

  /** The history after a series of send actions. */
  function Replay(history: seq<Message>, sends: seq<Send>): seq<Message>
    decreases |sends|
  {
    if sends == [] then history
    else Replay(SendMessage(history, sends[0].input, sends[0].userId, sends[0].botId), sends[1..])
  }

  /** How many of the send actions carry a non-blank input. */
  function NonBlankSends(sends: seq<Send>): nat {
    if sends == [] then 0
    else (if AllWhitespace(sends[0].input) then 0 else 1) + NonBlankSends(sends[1..])
  }

  /** The history is append-only: earlier messages are never changed or removed,
      and every non-blank send adds exactly two messages. */
  lemma {:induction false} ReplayAppendOnly(history: seq<Message>, sends: seq<Send>)
    ensures history <= Replay(history, sends)
    ensures |Replay(history, sends)| == |history| + 2 * NonBlankSends(sends)
    decreases |sends|
  {
    if sends != [] {
      var next := SendMessage(history, sends[0].input, sends[0].userId, sends[0].botId);
      assert history <= next;
      assert |next| == |history| + (if AllWhitespace(sends[0].input) then 0 else 2);
      ReplayAppendOnly(next, sends[1..]);
      assert Replay(history, sends) == Replay(next, sends[1..]);
    }
  }

  /** Whatever is sent, the conversation still opens with the bot's greeting. */
  lemma ConversationOpensWithGreeting(sends: seq<Send>)
    ensures |Replay(InitialHistory(), sends)| >= 1
    ensures Replay(InitialHistory(), sends)[0] == Message("1", Greeting, BotSender)
  {
    ReplayAppendOnly(InitialHistory(), sends);
  }
}
