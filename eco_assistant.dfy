/**
 * The Eco assistant chat: a conversation that opens with a greeting, a
 * send that trims the text and appends it as the user's message, a canned
 * reply chosen by keywords that arrives after a 700 ms timeout, and a New
 * chat button that keeps only the greeting.
 *
 * The keyword tests are case-insensitive regular expressions without word
 * boundaries, so a keyword also matches inside a longer word.
 */
module EcoAssistant {
  import opened Wrappers
  import opened JsText

  datatype Role = UserRole | AssistantRole

  /** A chat message; its random id and locale time stamp are left out. */
  datatype Message = Message(role: Role, content: string)

  const GreetingText: string :=
    "Hey! I\U{2019}m Eco \U{2014} your sustainability copilot. Ask me to analyze footprint, plan greener commutes, or turn habits into weekly goals."

  const Greeting: Message := Message(AssistantRole, GreetingText)

  const FootprintWords: seq<string> := ["footprint", "carbon", "co2", "co\U{2082}"]
  const TravelWords: seq<string> := ["travel", "trip", "goa", "flight", "train"]
  const WasteWords: seq<string> := ["waste", "plastic", "zero"]

  const FootprintReply: string :=
    "Here\U{2019}s a fast footprint estimate: ~3.8 kg CO\U{2082}e/day from commute + 1.4 kg from electricity. "
    + "Want me to tailor this using your city, commute, and appliances?"
  const TravelReply: string :=
    "Plan idea: prefer train over flight where possible, choose stays with energy labels, and pack a reusable kit. "
    + "I can build a detailed green itinerary if you share dates and budget."
  const WasteReply: string :=
    "Zero\U{2011}waste starter kit: steel bottle, cloth bag, lunchbox, compost bin. I can generate a 7\U{2011}day habit plan with reminders."
  const GeneralReply: string :=
    "Got it! I\U{2019}ll break that into actionable green steps with estimated impact. Share a bit more context if you can."

  /**
   * `/w1|w2|.../i.test(prompt)`: some keyword occurs in the prompt, ignoring
   * the case of ASCII letters.
   */
  predicate Mentions(prompt: string, words: seq<string>) {
    exists k :: 0 <= k < |words| && Contains(ToLower(prompt), words[k])
  }

  /**
   * `draftEcoReply`: the footprint reply for a footprint keyword, else the
   * travel reply for a travel keyword, else the zero-waste reply for a
   * waste keyword, else the general reply.
   */
  function DraftEcoReply(prompt: string): (reply: string)
    ensures reply == FootprintReply <==> Mentions(prompt, FootprintWords)
    ensures reply == TravelReply <==> !Mentions(prompt, FootprintWords) && Mentions(prompt, TravelWords)
    ensures reply == WasteReply <==>
      !Mentions(prompt, FootprintWords) && !Mentions(prompt, TravelWords) && Mentions(prompt, WasteWords)
    ensures reply == GeneralReply <==>
      !Mentions(prompt, FootprintWords) && !Mentions(prompt, TravelWords) && !Mentions(prompt, WasteWords)
  {
    if Mentions(prompt, FootprintWords) then FootprintReply
    else if Mentions(prompt, TravelWords) then TravelReply
    else if Mentions(prompt, WasteWords) then WasteReply
    else GeneralReply
  }

  /** The reply does not depend on the case of the prompt's letters. */
  lemma ReplyIgnoresCase(prompt: string)
    ensures DraftEcoReply(ToLower(prompt)) == DraftEcoReply(prompt)
  {
    ToLowerIdempotent(prompt);
  }

  /**
   * A footprint keyword anywhere in the prompt, written in any case,
   * selects its reply over the later rules, whatever surrounds it.
   */
  lemma KeywordSelectsReply(before: string, word: string, after: string, k: nat)
    requires k < |FootprintWords| && ToLower(word) == FootprintWords[k]
    ensures DraftEcoReply(before + word + after) == FootprintReply
  {
    var p := before + word + after;
    var lower := ToLower(p);
    assert lower[|before|..|before| + |word|] == ToLower(word) by {
      forall i | 0 <= i < |word| ensures lower[|before| + i] == ToLower(word)[i] {
        assert p[|before| + i] == word[i];
      }
    }
    assert OccursAt(lower, FootprintWords[k], |before|);
  }

  /** "goals" contains the travel keyword "goa". */
  lemma GoalsMentionTravel()
    ensures Mentions("Set weekly goals", TravelWords)
  {
    var lower := ToLower("Set weekly goals");
    assert lower == "set weekly goals";
    assert OccursAt(lower, TravelWords[2], 11);
  }

  /** None of the footprint keywords' first letters occurs in "set weekly goals". */
  lemma GoalsMentionNoFootprint()
    ensures !Mentions("Set weekly goals", FootprintWords)
  {
    var lower := ToLower("Set weekly goals");
    assert lower == "set weekly goals";
    AbsentFirstChar(lower, "footprint");
    AbsentFirstChar(lower, "carbon");
    AbsentFirstChar(lower, "co2");
    AbsentFirstChar(lower, "co\U{2082}");
  }

  /**
   * Keywords match inside longer words: "goals" contains "goa", so a prompt
   * about weekly goals gets the travel reply.
   */
  lemma GoalsGetTravelReply()
    ensures DraftEcoReply("Set weekly goals") == TravelReply
  {
    GoalsMentionTravel();
    GoalsMentionNoFootprint();
  }

  /** Neither starts nor ends with white space. */
  predicate Trimmed(s: string) {
    s != "" ==> !IsSpace(s[0]) && !IsSpace(s[|s| - 1])
  }

  class ChatSession {
    var messages: seq<Message>
    var input: string
    var thinking: bool
    /** The prompts whose reply timeout has not fired yet, oldest first. */
    var pendingReplies: seq<string>

    /**
     * The greeting stays first, no message is blank, the user's messages
     * are trimmed, and the thinking indicator is only on while a reply is
     * on its way.
     */
    ghost predicate Valid()
      reads this
    {
      && |messages| >= 1 && messages[0] == Greeting
      && (forall i :: 0 <= i < |messages| ==> messages[i].content != "")
      && (forall i :: 0 <= i < |messages| && messages[i].role == UserRole ==> Trimmed(messages[i].content))
      && (forall i :: 0 <= i < |pendingReplies| ==> pendingReplies[i] != "")
      && (thinking ==> pendingReplies != [])
    }

    constructor ()
      ensures Valid()
      ensures messages == [Greeting] && input == "" && !thinking && pendingReplies == []
    {
      messages, input, thinking, pendingReplies := [Greeting], "", false, [];
    }

    /** The input box changes. */
    method SetInput(value: string)
      modifies this`input
      ensures input == value
    {
      input := value;
    }

    /**
     * `handleSend(text)`: sends `text`, or the typed input when no text is
     * given, trimmed. Blank content is ignored. Otherwise it is appended
     * as the user's message, the input box is cleared (also when a
     * quick-start text was sent) and the reply is scheduled.
     */
    method HandleSend(text: Option<string>)
      requires Valid()
      modifies this
      ensures Valid()
      ensures var content := Trim(text.GetOr(old(input)));
        && (content == "" ==>
              messages == old(messages) && input == old(input) && thinking == old(thinking)
              && pendingReplies == old(pendingReplies))
        && (content != "" ==>
              messages == old(messages) + [Message(UserRole, content)] && input == "" && thinking
              && pendingReplies == old(pendingReplies) + [content])
    {
      var content := Trim(text.GetOr(input));
      if content == "" {
        return;
      }
      TrimEnds(text.GetOr(input));
      messages := messages + [Message(UserRole, content)];
      input := "";
      thinking := true;
      pendingReplies := pendingReplies + [content];
    }

    /** The oldest reply timeout fires: the reply to that prompt is appended and thinking stops. */
    method ReplyTimerFires()
      requires Valid() && pendingReplies != []
      modifies this
      ensures Valid()
      ensures messages == old(messages) + [Message(AssistantRole, DraftEcoReply(old(pendingReplies[0])))]
      ensures pendingReplies == old(pendingReplies[1..]) && !thinking && input == old(input)
    {
      var reply := DraftEcoReply(pendingReplies[0]);
      messages := messages + [Message(AssistantRole, reply)];
      pendingReplies := pendingReplies[1..];
      thinking := false;
    }

    /** New chat: only the greeting is kept; a reply on its way still arrives. */
    method NewChat()
      requires Valid()
      modifies this`messages
      ensures Valid()
      ensures messages == [Greeting]
    {
      messages := messages[..1];
    }
  }

  lemma PaddedPromptTrims()
    ensures Trim("  Carbon ") == "Carbon"
  {
    assert "  Carbon "[1..] == " Carbon ";
    assert " Carbon "[1..] == "Carbon ";
    assert !IsSpace('C');
    assert TrimStart("Carbon ") == "Carbon ";
    assert TrimStart("  Carbon ") == "Carbon ";
    assert "Carbon "[..6] == "Carbon";
    assert !IsSpace('n');
    assert TrimEnd("Carbon") == "Carbon";
    assert TrimEnd("Carbon ") == "Carbon";
  }

  lemma CarbonGetsFootprintReply()
    ensures DraftEcoReply("Carbon") == FootprintReply
  {
    assert ToLower("Carbon")[0..6] == "carbon";
    assert OccursAt(ToLower("Carbon"), FootprintWords[1], 0);
  }

  /** Typing a padded prompt and sending it: the trimmed prompt is shown and awaits its reply. */
  method SendPadded() returns (chat: ChatSession)
    ensures fresh(chat) && chat.Valid()
    ensures chat.messages == [Greeting, Message(UserRole, "Carbon")]
    ensures chat.input == "" && chat.thinking && chat.pendingReplies == ["Carbon"]
  {
    chat := new ChatSession();
    chat.SetInput("  Carbon ");
    PaddedPromptTrims();
    chat.HandleSend(None);
  }

  /** Then the reply timeout fires: the footprint reply follows the prompt. */
  method SendAndReply() returns (chat: ChatSession)
    ensures chat.Valid()
    ensures chat.messages == [Greeting, Message(UserRole, "Carbon"), Message(AssistantRole, FootprintReply)]
    ensures chat.input == "" && !chat.thinking && chat.pendingReplies == []
  {
    chat := SendPadded();
    CarbonGetsFootprintReply();
    chat.ReplyTimerFires();
  }
}
