/**
 * The chat page (src/pages/ChatPage.jsx): the conversation log, the
 * "typing" flag, and the timers that deliver the bot's replies.
 *
 * Every `setTimeout` of the page has the same 2000 ms delay and is registered
 * in program order, so the callbacks run first-in first-out. The page keeps
 * them as a queue, and the event `FireNextTimer` stands for the oldest one
 * running. A send registers two: the one that clears the typing flag
 * (simulateTyping comes first) and the one that appends the bot's reply.
 */
module ChatPage {
  import opened Wrappers
  import opened ResponseEngine
  import opened ChatInput

  /** A log entry. User entries carry no `type`; bot entries carry the reply's. */
  datatype Message =
    | UserMessage(id: int, text: string, files: seq<Attachment>, timestamp: string)
    | BotMessage(id: int, text: string, kind: ReplyType, timestamp: string)

  /** A pending timer callback. */
  datatype Timer =
    | StopTyping                   // `() => setIsTyping(false)`
    | DeliverReply(question: string) // appends the reply to `question`

  /** The texts of the user entries, in log order. */
  function UserTexts(log: seq<Message>): seq<string>
    decreases |log|
  {
    if log == [] then []
    else (if log[0].UserMessage? then [log[0].text] else []) + UserTexts(log[1..])
  }

  /** The replies recorded by the bot entries, in log order. */
  function BotReplies(log: seq<Message>): seq<BotReply>
    decreases |log|
  {
    if log == [] then []
    else (if log[0].BotMessage? then [BotReply(log[0].text, log[0].kind)] else []) + BotReplies(log[1..])
  }

  /** The questions still waiting for their reply, in firing order. */
  function QueuedQuestions(timers: seq<Timer>): seq<string>
    decreases |timers|
  {
    if timers == [] then []
    else (if timers[0].DeliverReply? then [timers[0].question] else []) + QueuedQuestions(timers[1..])
  }

  /** Appending one entry adds its text to the user texts exactly when it is a user entry. */
  lemma {:induction false} UserTextsAppend(log: seq<Message>, m: Message)
    ensures UserTexts(log + [m]) == UserTexts(log) + (if m.UserMessage? then [m.text] else [])
    decreases |log|
  {
    if log == [] {
      assert log + [m] == [m];
    } else {
      assert (log + [m])[0] == log[0] && (log + [m])[1..] == log[1..] + [m];
      UserTextsAppend(log[1..], m);
    }
  }

  /** Appending one entry adds its reply to the bot replies exactly when it is a bot entry. */
  lemma {:induction false} BotRepliesAppend(log: seq<Message>, m: Message)
    ensures BotReplies(log + [m]) == BotReplies(log) + (if m.BotMessage? then [BotReply(m.text, m.kind)] else [])
    decreases |log|
  {
    if log == [] {
      assert log + [m] == [m];
    } else {
      assert (log + [m])[0] == log[0] && (log + [m])[1..] == log[1..] + [m];
      BotRepliesAppend(log[1..], m);
    }
  }

  /** Queue order: the questions of `a + b` are those of `a` followed by those of `b`. */
  lemma {:induction false} QueuedQuestionsConcat(a: seq<Timer>, b: seq<Timer>)
    ensures QueuedQuestions(a + b) == QueuedQuestions(a) + QueuedQuestions(b)
    decreases |a|
  {
    if a == [] {
      assert a + b == b;
    } else {
      assert (a + b)[0] == a[0] && (a + b)[1..] == a[1..] + b;
      QueuedQuestionsConcat(a[1..], b);
    }
  }

  /**
   * The pairing invariant of the log: the k-th bot entry is the reply to the
   * k-th user entry, and the user entries not answered yet are exactly the
   * queued questions, in the same order.
   */
  ghost predicate Paired(log: seq<Message>, timers: seq<Timer>) {
    var asked := UserTexts(log);
    var answered := BotReplies(log);
    && |answered| <= |asked|
    && QueuedQuestions(timers) == asked[|answered|..]
    && Answers(answered, asked)
  }

  /** Each recorded reply is generateBotResponse of the user text at the same position. */
  ghost predicate Answers(answered: seq<BotReply>, asked: seq<string>) {
    |answered| <= |asked| && forall k :: 0 <= k < |answered| ==> answered[k] == GenerateBotResponse(asked[k])
  }

  /** Under the pairing invariant every user entry is answered or queued, so bot entries never outnumber user entries. */
  lemma PairedCounts(log: seq<Message>, timers: seq<Timer>)
    requires Paired(log, timers)
    ensures |BotReplies(log)| + |QueuedQuestions(timers)| == |UserTexts(log)|
    ensures |BotReplies(log)| <= |UserTexts(log)|
    ensures QueuedQuestions(timers) == [] ==> |BotReplies(log)| == |UserTexts(log)|
  {
  }

  /** A send keeps the pairing: the new user entry is unanswered and its question joins the end of the queue. */
  lemma PairedAfterSend(log: seq<Message>, timers: seq<Timer>, entry: Message)
    requires Paired(log, timers) && entry.UserMessage?
    ensures Paired(log + [entry], timers + [StopTyping, DeliverReply(entry.text)])
  {
    UserTextsAppend(log, entry);
    BotRepliesAppend(log, entry);
    QueuedQuestionsConcat(timers, [StopTyping, DeliverReply(entry.text)]);
    var sendTimers := [StopTyping, DeliverReply(entry.text)];
    assert QueuedQuestions(sendTimers[1..][1..]) == [];
    assert QueuedQuestions(sendTimers[1..]) == [entry.text] + QueuedQuestions(sendTimers[1..][1..]);
    assert QueuedQuestions(sendTimers) == [] + QueuedQuestions(sendTimers[1..]);
    var asked := UserTexts(log);
    var answered := BotReplies(log);
    assert (asked + [entry.text])[|answered|..] == asked[|answered|..] + [entry.text];
    assert Answers(answered, asked + [entry.text]) by {
      forall k | 0 <= k < |answered| ensures (asked + [entry.text])[k] == asked[k] { }
    }
  }

  /** Running the typing timer keeps the pairing: the log is untouched and no question leaves the queue. */
  lemma PairedAfterStopTyping(log: seq<Message>, rest: seq<Timer>)
    requires Paired(log, [StopTyping] + rest)
    ensures Paired(log, rest)
  {
    QueuedQuestionsConcat([StopTyping], rest);
  }

  /** Delivering the oldest queued reply keeps the pairing: it answers the oldest unanswered user entry. */
  lemma PairedAfterDeliver(log: seq<Message>, question: string, rest: seq<Timer>, id: int, isoTime: string)
    requires Paired(log, [DeliverReply(question)] + rest)
    ensures var reply := GenerateBotResponse(question);
            Paired(log + [BotMessage(id, reply.text, reply.kind, isoTime)], rest)
  {
    var reply := GenerateBotResponse(question);
    var entry := BotMessage(id, reply.text, reply.kind, isoTime);
    QueuedQuestionsConcat([DeliverReply(question)], rest);
    UserTextsAppend(log, entry);
    BotRepliesAppend(log, entry);
    var asked := UserTexts(log);
    var answered := BotReplies(log);
    assert asked[|answered|..] == [question] + QueuedQuestions(rest);
    assert asked[|answered|] == question;
    assert asked[|answered| + 1..] == QueuedQuestions(rest);
  }

  /** The page's state: the `messages` log, the `isTyping` flag and the pending timers. */
  class Page {
    var messages: seq<Message>
    var isTyping: bool
    var timers: seq<Timer>

    ghost predicate Valid()
      reads this
    {
      && Paired(messages, timers)
      && (isTyping ==> StopTyping in timers)
    }

    /** The page opens with an empty log, not typing, nothing pending. */
    constructor ()
      ensures Valid()
      ensures messages == [] && !isTyping && timers == []
    {
      messages := [];
      isTyping := false;
      timers := [];
    }

    /** simulateTyping: raise the flag and register the timer that lowers it. */
    method SimulateTyping()
      modifies this`isTyping, this`timers
      ensures isTyping && timers == old(timers) + [StopTyping]
      ensures QueuedQuestions(timers) == QueuedQuestions(old(timers))
      ensures old(Valid()) ==> Valid()
    {
      QueuedQuestionsConcat(timers, [StopTyping]);
      isTyping := true;
      timers := timers + [StopTyping];
    }

    /**
     * handleSendMessage: append the user entry now (id `now`), raise the typing
     * flag, and queue the reply to this text. Nothing stops a second send
     * while a reply is pending.
     */
    method HandleSendMessage(data: MessageData, now: int)
      requires Valid()
      modifies this
      ensures Valid()
      ensures messages == old(messages) + [UserMessage(now, data.text, data.files, data.timestamp)]
      ensures timers == old(timers) + [StopTyping, DeliverReply(data.text)]
      ensures isTyping
    {
      var entry := UserMessage(now, data.text, data.files, data.timestamp);
      PairedAfterSend(messages, timers, entry);
      messages := messages + [entry];
      SimulateTyping();
      timers := timers + [DeliverReply(data.text)];
      assert timers == old(timers) + [StopTyping, DeliverReply(data.text)];
    }

    /**
     * The oldest pending timer runs. StopTyping lowers the flag; DeliverReply
     * appends the bot entry (id `now + 1`) holding generateBotResponse of the
     * queued text. With nothing pending nothing happens.
     */
    method FireNextTimer(now: int, isoTime: string) returns (fired: Option<Timer>)
      requires Valid()
      modifies this
      ensures Valid()
      ensures old(timers) == [] ==> fired == None && messages == old(messages) && isTyping == old(isTyping) && timers == []
      ensures old(timers) != [] ==> fired == Some(old(timers)[0]) && timers == old(timers)[1..]
      ensures fired == Some(StopTyping) ==> !isTyping && messages == old(messages)
      ensures fired.Some? && fired.value.DeliverReply? ==>
                var reply := GenerateBotResponse(fired.value.question);
                && isTyping == old(isTyping)
                && messages == old(messages) + [BotMessage(now + 1, reply.text, reply.kind, isoTime)]
    {
      if timers == [] {
        fired := None;
        return;
      }
      var t := timers[0];
      fired := Some(t);
      assert timers == [t] + timers[1..];
      match t
      case StopTyping =>
        PairedAfterStopTyping(messages, timers[1..]);
        timers := timers[1..];
        isTyping := false;
      case DeliverReply(question) =>
        var reply := GenerateBotResponse(question);
        var entry := BotMessage(now + 1, reply.text, reply.kind, isoTime);
        PairedAfterDeliver(messages, question, timers[1..], now + 1, isoTime);
        messages := messages + [entry];
        timers := timers[1..];
        assert StopTyping in old(timers) ==> StopTyping in timers by {
          assert old(timers) == [t] + timers;
        }
    }

    /**
     * The effect on `location.state`: a non-empty `initialMessage` is sent with
     * no files, and the route is replaced by '/chat' so it is not sent again.
     * Returns whether that redirect happens.
     */
    method ReceiveInitialMessage(initialMessage: Option<string>, now: int, timestamp: string)
      returns (redirect: bool)
      requires Valid()
      modifies this
      ensures Valid()
      ensures redirect <==> initialMessage.Some? && initialMessage.value != []
      ensures redirect ==>
                && messages == old(messages) + [UserMessage(now, initialMessage.value, [], timestamp)]
                && timers == old(timers) + [StopTyping, DeliverReply(initialMessage.value)]
                && isTyping
      ensures !redirect ==> messages == old(messages) && timers == old(timers) && isTyping == old(isTyping)
    {
      redirect := initialMessage.Some? && initialMessage.value != [];
      if redirect {
        HandleSendMessage(MessageData(initialMessage.value, [], timestamp), now);
      }
    }
  }
}

/**
 * A conversation run through the composer and the page together, as the
 * page wires them: the composer's sent message data goes to handleSendMessage.
 */
module ChatScenarios {
  import opened Wrappers
  import opened JsString
  import opened ResponseEngine
  import opened ChatInput
  import opened ChatPage

  /** Type a draft into a fresh composer and press send, on a fresh page. */
  method SendDraft(draft: string, now: int, timestamp: string) returns (page: Page)
    requires CanSend(draft, [])
    ensures fresh(page) && page.Valid() && page.isTyping
    ensures page.messages == [UserMessage(now, Trim(draft), [], timestamp)]
    ensures page.timers == [StopTyping, DeliverReply(Trim(draft))]
  {
    var composer := new Composer();
    page := new Page();
    composer.SetMessage(draft);
    var sent := composer.HandleSend(timestamp);
    page.HandleSendMessage(sent.value, now);
  }

  /** Let both timers of one send run, in order: the typing flag drops, then the reply to `question` is logged. */
  method RunReplyTimers(page: Page, question: string, later: int, isoTime: string)
    requires page.Valid() && page.timers == [StopTyping, DeliverReply(question)]
    modifies page
    ensures page.Valid() && !page.isTyping && page.timers == []
    ensures var reply := GenerateBotResponse(question);
            page.messages == old(page.messages) + [BotMessage(later + 1, reply.text, reply.kind, isoTime)]
  {
    var first := page.FireNextTimer(later, isoTime);
    assert page.timers == [DeliverReply(question)];
    var second := page.FireNextTimer(later, isoTime);
  }

  /** A draft mentioning malaria passes the send guard, and its trimmed text gets the warning reply. */
  lemma MalariaDraft(draft: string)
    requires Mentions(draft, "malaria")
    ensures CanSend(draft, [])
    ensures GenerateBotResponse(Trim(draft)) == BotReply(MalariaText, Warning)
  {
    TrimKeepsMention(draft, "malaria");
    MalariaWins(Trim(draft));
  }

  /**
   * Asking about malaria: the trimmed draft is logged at once as the user
   * entry; once both timers have run, the bot entry follows with the warning
   * reply, which opens with the malaria heading.
   */
  method MalariaConversation(draft: string, now: int, later: int, timestamp: string, isoTime: string)
    returns (log: seq<Message>)
    requires Mentions(draft, "malaria")
    ensures log == [UserMessage(now, Trim(draft), [], timestamp), BotMessage(later + 1, MalariaText, Warning, isoTime)]
    ensures StartsWith(log[1].text, MalariaHeading)
  {
    var question := Trim(draft);
    MalariaDraft(draft);
    var page := SendDraft(draft, now, timestamp);
    RunReplyTimers(page, question, later, isoTime);
    log := page.messages;
    assert log[1] == BotMessage(later + 1, MalariaText, Warning, isoTime);
  }
}
