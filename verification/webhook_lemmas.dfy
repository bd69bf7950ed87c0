/** What one webhook step does in each of its branches, and what any
    sequence of steps keeps true. */
module WebhookLemmas {
  import opened Text
  import opened Webhook
  import History
  import Session
  import Filenames
  import Urls
  import Media

  /** The normalized body is one of the greetings. */
  predicate Greets(req: Request) {
    IsGreeting(Normalize(BodyText(req)))
  }

  /** A voice note came in and nothing usable was transcribed. */
  predicate Unheard(req: Request, w: World) {
    HasMedia(req) && !Truthy(w.transcript)
  }

  /** The message contains a farewell word. */
  predicate SaysFarewell(req: Request, w: World) {
    IsFarewell(Normalize(MessageText(req, w)))
  }

  /** The user was asked whether to continue and said no. */
  predicate Declines(bot: Bot, req: Request, w: World) {
    Session.Get(bot.states, Sender(req)) == Session.Continue && IsNo(Normalize(MessageText(req, w)))
  }

  /** The branch taken, from the conditions alone: each branch is taken
      exactly when its own condition holds and no earlier one does. */
  lemma BranchIff(bot: Bot, req: Request, w: World)
    ensures Step(bot, req, w).branch == Greeted <==> Greets(req)
    ensures Step(bot, req, w).branch == TranscriptionFailed <==> !Greets(req) && Unheard(req, w)
    ensures Step(bot, req, w).branch == Farewell <==>
      !Greets(req) && !Unheard(req, w) && SaysFarewell(req, w)
    ensures Step(bot, req, w).branch == Declined <==>
      !Greets(req) && !Unheard(req, w) && !SaysFarewell(req, w) && Declines(bot, req, w)
    ensures Step(bot, req, w).branch == Answered <==>
      !Greets(req) && !Unheard(req, w) && !SaysFarewell(req, w) && !Declines(bot, req, w)
  {
    if !Greets(req) {
      assert Step(bot, req, w) == Listen(bot, req, w);
      ListenBranch(bot, req, w);
    }
  }

  lemma ListenBranch(bot: Bot, req: Request, w: World)
    ensures Listen(bot, req, w).branch == TranscriptionFailed <==> Unheard(req, w)
    ensures Listen(bot, req, w).branch == Farewell <==> !Unheard(req, w) && SaysFarewell(req, w)
    ensures Listen(bot, req, w).branch == Declined <==>
      !Unheard(req, w) && !SaysFarewell(req, w) && Declines(bot, req, w)
    ensures Listen(bot, req, w).branch == Answered <==>
      !Unheard(req, w) && !SaysFarewell(req, w) && !Declines(bot, req, w)
    ensures Listen(bot, req, w).branch != Greeted
  {
    if !Unheard(req, w) && !SaysFarewell(req, w) {
      var user, text := Sender(req), MessageText(req, w);
      assert Listen(bot, req, w) == Respond(bot, user, text, w, Transcribed(req));
      RespondBranch(bot, user, text, w, Transcribed(req));
    }
  }

  lemma RespondBranch(bot: Bot, user: string, text: string, w: World, calls: seq<Call>)
    ensures Respond(bot, user, text, w, calls).branch == Declined <==>
      Session.Get(bot.states, user) == Session.Continue && IsNo(Normalize(text))
    ensures Respond(bot, user, text, w, calls).branch == Answered <==>
      !(Session.Get(bot.states, user) == Session.Continue && IsNo(Normalize(text)))
  {
  }

  /** A greeting wins whatever the state and whether or not media came
      with it: the greeting is the reply and is recorded as an assistant
      turn, the user's state entry is removed, and no outside service is
      called. */
  lemma GreetingResets(bot: Bot, req: Request, w: World)
    requires Greets(req)
    ensures Step(bot, req, w).reply == Some(GreetingText)
    ensures History.Read(Step(bot, req, w).bot.conversations, Sender(req)) ==
      History.Push(History.Read(bot.conversations, Sender(req)), History.Turn(History.Assistant, GreetingText))
    ensures Sender(req) !in Step(bot, req, w).bot.states
    ensures Step(bot, req, w).calls == [] && Step(bot, req, w).delivery == None
  {
  }

  /** A voice note that cannot be transcribed gets the apology and changes
      nothing; the only call made is the transcription attempt. */
  lemma FailedTranscriptionChangesNothing(bot: Bot, req: Request, w: World)
    requires !Greets(req) && Unheard(req, w)
    ensures Step(bot, req, w).reply == Some(TranscriptionApology)
    ensures Step(bot, req, w).bot == bot
    ensures Step(bot, req, w).calls == [Transcribe(req.mediaUrl.value)]
    ensures Step(bot, req, w).delivery == None
  {
  }

  /** No outside service but the transcriber was called. */
  predicate OnlyTranscription(calls: seq<Call>) {
    forall i :: 0 <= i < |calls| ==> calls[i].Transcribe?
  }

  /** The transcription call is the only call made before the answer. */
  lemma TranscribedOnly(req: Request)
    ensures OnlyTranscription(Transcribed(req))
  {
  }

  /** A farewell anywhere in the message ends the chat: the history is
      emptied, the state entry removed, the goodbye sent, and no answer
      generated. */
  lemma FarewellEndsChat(bot: Bot, req: Request, w: World)
    requires !Greets(req) && !Unheard(req, w) && SaysFarewell(req, w)
    ensures Step(bot, req, w).reply == Some(GoodbyeText)
    ensures History.Read(Step(bot, req, w).bot.conversations, Sender(req)) == []
    ensures Sender(req) !in Step(bot, req, w).bot.states
    ensures OnlyTranscription(Step(bot, req, w).calls)
    ensures Step(bot, req, w).delivery == None
  {
    assert Step(bot, req, w) == Listen(bot, req, w);
    TranscribedOnly(req);
  }

  /** Saying no to "continue?" ends the chat like a farewell, with its own
      reply. */
  lemma DeclineEndsChat(bot: Bot, req: Request, w: World)
    requires !Greets(req) && !Unheard(req, w) && !SaysFarewell(req, w) && Declines(bot, req, w)
    ensures Step(bot, req, w).reply == Some(DeclineText)
    ensures History.Read(Step(bot, req, w).bot.conversations, Sender(req)) == []
    ensures Sender(req) !in Step(bot, req, w).bot.states
    ensures OnlyTranscription(Step(bot, req, w).calls)
    ensures Step(bot, req, w).delivery == None
  {
    PastFarewell(bot, req, w);
    TranscribedOnly(req);
  }

  /** The free-text path, when it is taken: the message (stripped, or the
      transcript as returned, never lower-cased) and then the spoken answer
      followed by the continue prompt are recorded; the spoken answer is the
      first non-empty provider answer, or the fallback, with the thank-you
      suffix appended unless already present; the primary provider is
      always asked and the secondary exactly when the primary gave nothing,
      both with the persona followed by the history that ends with the
      message; the state ends as `continue`; and the audio of the spoken
      answer is left to be sent to the user under a fresh reply name. */
  lemma FreeTextAnswers(bot: Bot, req: Request, w: World)
    requires !Greets(req) && !Unheard(req, w) && !SaysFarewell(req, w) && !Declines(bot, req, w)
    ensures Step(bot, req, w).branch == Answered && Step(bot, req, w).reply == None
    ensures History.Read(Step(bot, req, w).bot.conversations, Sender(req)) ==
      History.Push(History.Push(History.Read(bot.conversations, Sender(req)), History.Turn(History.User, MessageText(req, w))),
                   History.Turn(History.Assistant, Speech(w) + ContinuePrompt))
    ensures Session.Get(Step(bot, req, w).bot.states, Sender(req)) == Session.Continue
    ensures Step(bot, req, w).calls ==
      Transcribed(req) + Consult(Prompt(bot.conversations, Sender(req), MessageText(req, w)), w.primary)
    ensures Last(Prompt(bot.conversations, Sender(req), MessageText(req, w))) == History.Turn(History.User, MessageText(req, w))
    ensures Step(bot, req, w).delivery ==
      Some(Delivery(Sender(req), Speech(w), Filenames.UniqueAudioBasename(Sender(req), ResponseKind, w.clockMs, w.random)))
  {
    var user, text := Sender(req), MessageText(req, w);
    FreeTextPath(bot, req, w);
    var inner := Bot(bot.conversations, Resumed(bot.states, user, Normalize(text)));
    ConverseRecords(inner, user, text, w, Transcribed(req));
    ConverseAsks(inner, user, text, w, Transcribed(req));
    ConverseDelivers(inner, user, text, w, Transcribed(req));
  }

  /** Past the earlier branches, a step is the free-text path, on the same
      histories and with the transcription call, if any, made first. */
  lemma FreeTextPath(bot: Bot, req: Request, w: World)
    requires !Greets(req) && !Unheard(req, w) && !SaysFarewell(req, w) && !Declines(bot, req, w)
    ensures Step(bot, req, w) ==
      Converse(Bot(bot.conversations, Resumed(bot.states, Sender(req), Normalize(MessageText(req, w)))),
               Sender(req), MessageText(req, w), w, Transcribed(req))
  {
    PastFarewell(bot, req, w);
  }

  /** Past the greeting, the failed transcription and the farewell, a step
      is the state machine on the message. */
  lemma PastFarewell(bot: Bot, req: Request, w: World)
    requires !Greets(req) && !Unheard(req, w) && !SaysFarewell(req, w)
    ensures Step(bot, req, w) == Respond(bot, Sender(req), MessageText(req, w), w, Transcribed(req))
  {
    assert Step(bot, req, w) == Listen(bot, req, w);
  }

  /** The last element of a non-empty sequence. */
  function Last<T>(s: seq<T>): T
    requires s != []
  {
    s[|s| - 1]
  }

  /** The spoken answer of the free-text path. */
  function Speech(w: World): string {
    WithSuffix(Answer(w.primary, w.secondary))
  }

  /** What the free-text path records and the state it leaves. */
  lemma ConverseRecords(bot: Bot, user: string, text: string, w: World, calls: seq<Call>)
    ensures History.Read(Converse(bot, user, text, w, calls).bot.conversations, user) ==
      History.Push(History.Push(History.Read(bot.conversations, user), History.Turn(History.User, text)),
                   History.Turn(History.Assistant, Speech(w) + ContinuePrompt))
    ensures Session.Get(Converse(bot, user, text, w, calls).bot.states, user) == Session.Continue
  {
  }

  /** The providers are handed the persona followed by the user's whole
      deque after the message is appended, not just its newest turns: the
      prompt holds every stored turn up to the bound of six. */
  lemma PromptHoldsWholeHistory(store: Store, user: string, text: string)
    ensures Prompt(store, user, text)[1..] ==
      History.Push(History.Read(store, user), History.Turn(History.User, text))
    ensures var h := History.Read(store, user);
      |Prompt(store, user, text)| == if |h| < History.MaxHistory then |h| + 2 else History.MaxHistory + 1
  {
    var p := Prompt(store, user, text);
    assert p[1..] == History.Push(History.Read(store, user), History.Turn(History.User, text));
  }

  /** Whom the free-text path asks, and with what. */
  lemma ConverseAsks(bot: Bot, user: string, text: string, w: World, calls: seq<Call>)
    ensures Converse(bot, user, text, w, calls).calls == calls + Consult(Prompt(bot.conversations, user, text), w.primary)
  {
  }

  /** The audio the free-text path leaves to deliver. */
  lemma ConverseDelivers(bot: Bot, user: string, text: string, w: World, calls: seq<Call>)
    ensures Converse(bot, user, text, w, calls).delivery ==
      Some(Delivery(user, Speech(w), Filenames.UniqueAudioBasename(user, ResponseKind, w.clockMs, w.random)))
  {
  }

  /** Saying yes to "continue?" is answered as free text: the yes is
      recorded as a user turn, an answer is generated, and the state is
      `continue` again. */
  lemma YesContinues(bot: Bot, req: Request, w: World)
    requires !Greets(req) && !Unheard(req, w) && !SaysFarewell(req, w)
    requires Session.Get(bot.states, Sender(req)) == Session.Continue
    requires IsYes(Normalize(MessageText(req, w)))
    ensures Step(bot, req, w).branch == Answered
    ensures Session.Get(Step(bot, req, w).bot.states, Sender(req)) == Session.Continue
    ensures BeforeLast(History.Read(Step(bot, req, w).bot.conversations, Sender(req)),
                       History.Turn(History.User, MessageText(req, w)))
  {
    var user, text := Sender(req), MessageText(req, w);
    YesIsNotNo(Normalize(text));
    FreeTextPath(bot, req, w);
    ConverseKeepsMessage(Bot(bot.conversations, Resumed(bot.states, user, Normalize(text))), user, text, w, Transcribed(req));
  }

  /** `t` is the turn before the last of `h`. */
  predicate BeforeLast(h: seq<Turn>, t: Turn) {
    |h| >= 2 && h[|h| - 2] == t
  }

  /** No answer is both a yes and a no. */
  lemma YesIsNotNo(n: string)
    requires IsYes(n)
    ensures !IsNo(n)
  {
  }

  /** The free-text path leaves the message as the turn before the last,
      and the state as `continue`. */
  lemma ConverseKeepsMessage(bot: Bot, user: string, text: string, w: World, calls: seq<Call>)
    ensures Session.Get(Converse(bot, user, text, w, calls).bot.states, user) == Session.Continue
    ensures BeforeLast(History.Read(Converse(bot, user, text, w, calls).bot.conversations, user),
                       History.Turn(History.User, text))
  {
    ConverseRecords(bot, user, text, w, calls);
    History.PushTwice(History.Read(bot.conversations, user), History.Turn(History.User, text),
                      History.Turn(History.Assistant, Speech(w) + ContinuePrompt));
  }

  /** The farewell test is a substring test: a message that merely
      contains "end", such as "weekend", ends the chat. */
  lemma WeekendIsFarewell(bot: Bot, req: Request, w: World)
    requires req.body == Some("weekend") && !HasMedia(req)
    ensures Step(bot, req, w).branch == Farewell
  {
    WeekendRequest(req, w);
    BranchIff(bot, req, w);
  }

  /** The conditions of the farewell branch hold for such a message. */
  lemma WeekendRequest(req: Request, w: World)
    requires req.body == Some("weekend") && !HasMedia(req)
    ensures !Greets(req) && !Unheard(req, w) && SaysFarewell(req, w)
  {
    WeekendBody(req);
    assert MessageText(req, w) == BodyText(req);
    WeekendNoGreeting();
    WeekendEnds();
  }

  /** The body "weekend" is read, and normalized, as itself. */
  lemma WeekendBody(req: Request)
    requires req.body == Some("weekend")
    ensures BodyText(req) == "weekend"
    ensures Normalize(BodyText(req)) == "weekend"
  {
    WeekendNormal();
    assert req.body.GetOr("") == "weekend";
  }

  lemma WeekendNormal()
    ensures Strip("weekend") == "weekend"
    ensures Normalize("weekend") == "weekend"
  {
    var body := "weekend";
    assert Stripped(body);
    assert forall i :: 0 <= i < |body| ==> !IsUpper(body[i]);
  }

  lemma WeekendNoGreeting()
    ensures !IsGreeting("weekend")
  {
  }

  lemma WeekendEnds()
    ensures IsFarewell("weekend")
  {
    var body := "weekend";
    assert OccursAt(body, "end", 4);
    ContainsAt(body, "end", 4);
    assert FarewellWords[8] == "end";
    ContainsAnyIff(body, FarewellWords);
  }

  // ---------------------------------------------------------------------
  // Runs of many steps
  // ---------------------------------------------------------------------

  /** One incoming message with what the world answered to it. */
  datatype Event = Event(req: Request, world: World)

  /** The maps after handling the messages in order. */
  function Run(bot: Bot, events: seq<Event>): Bot
    decreases |events|
  {
    if events == [] then bot
    else Run(Step(bot, events[0].req, events[0].world).bot, events[1..])
  }

  /** No state entry is `await_start`. */
  ghost predicate NeverAwaiting(bot: Bot) {
    forall u :: u in bot.states ==> bot.states[u] != Session.AwaitStart
  }

  /** No step stores `await_start`. */
  lemma StepNeverAwaits(bot: Bot, req: Request, w: World)
    requires NeverAwaiting(bot)
    ensures NeverAwaiting(Step(bot, req, w).bot)
  {
    var out := Step(bot, req, w);
    var user := Sender(req);
    forall u | u in out.bot.states
      ensures out.bot.states[u] != Session.AwaitStart
    {
      if u == user {
        SenderNeverAwaits(bot, req, w);
      }
      assert Session.Get(out.bot.states, u) != Session.AwaitStart;
    }
  }

  /** Whatever branch is taken, the sender is not left waiting for a
      start. */
  lemma SenderNeverAwaits(bot: Bot, req: Request, w: World)
    requires NeverAwaiting(bot)
    ensures Session.Get(Step(bot, req, w).bot.states, Sender(req)) != Session.AwaitStart
  {
    BranchIff(bot, req, w);
    match Step(bot, req, w).branch
    case Greeted => GreetingResets(bot, req, w);
    case TranscriptionFailed => FailedTranscriptionChangesNothing(bot, req, w);
    case Farewell => FarewellEndsChat(bot, req, w);
    case Declined => DeclineEndsChat(bot, req, w);
    case Answered => FreeTextAnswers(bot, req, w);
  }

  /** Whatever messages arrive, every history keeps at most `MAX_HISTORY`
      turns and `await_start` is never stored, starting from the empty
      maps or from any maps that already satisfy both. */
  lemma {:induction false} RunKeepsInvariants(bot: Bot, events: seq<Event>)
    requires Bounded(bot) && NeverAwaiting(bot)
    ensures Bounded(Run(bot, events)) && NeverAwaiting(Run(bot, events))
    decreases |events|
  {
    if events != [] {
      var next := Step(bot, events[0].req, events[0].world).bot;
      StepNeverAwaits(bot, events[0].req, events[0].world);
      RunKeepsInvariants(next, events[1..]);
    }
  }

  /** The app starts with both maps empty. */
  lemma FromStart(events: seq<Event>)
    ensures Bounded(Run(Bot(map[], map[]), events))
    ensures NeverAwaiting(Run(Bot(map[], map[]), events))
  {
    RunKeepsInvariants(Bot(map[], map[]), events);
  }

  // ---------------------------------------------------------------------
  // The reply audio
  // ---------------------------------------------------------------------

  /** The reply audio a free-text step leaves (the delivery
      `FreeTextAnswers` names: to the sender, under a name generated for
      the `response` kind) reaches that user at `<host>/audio/<name>`,
      which the audio route serves back as MPEG audio; Murf, when used,
      speaks at most the first 500 characters of the spoken answer. */
  lemma ReplyAudioReachesUser(d: Delivery, b: Media.TtsBackend, hostUrl: string, w: World)
    requires d.basename == Filenames.UniqueAudioBasename(d.to, ResponseKind, w.clockMs, w.random)
    ensures Deliver(d, b, hostUrl).Some? ==>
      && Deliver(d, b, hostUrl).value.to == d.to
      && Deliver(d, b, hostUrl).value.url == Urls.BuildPublicUrl(hostUrl, "audio/" + d.basename)
      && Media.ServedMime(d.basename) == "audio/mpeg"
      && (!b.simple ==> Media.Synthesize(d.speech, d.basename, false, b).murfText == Some(Media.TtsText(d.speech)))
  {
    ResponseKindIsSafe();
    Media.GeneratedNameServedAsMpeg(d.to, ResponseKind, w.clockMs, w.random);
    if Deliver(d, b, hostUrl).Some? {
      ReplyUrl(d, b, hostUrl, w);
    }
  }

  /** The reply audio is sent under the public URL of its own name. */
  lemma ReplyUrl(d: Delivery, b: Media.TtsBackend, hostUrl: string, w: World)
    requires d.basename == Filenames.UniqueAudioBasename(d.to, ResponseKind, w.clockMs, w.random)
    requires Deliver(d, b, hostUrl).Some?
    ensures Deliver(d, b, hostUrl).value.url == Urls.BuildPublicUrl(hostUrl, "audio/" + d.basename)
  {
    ResponseKindIsSafe();
    Filenames.GeneratedNameIsSanitized(d.to, ResponseKind, w.clockMs, w.random);
    Media.SynthesizedFileIsPublished(d.speech, d.basename, b, hostUrl);
  }

  lemma ResponseKindIsSafe()
    ensures Filenames.Safe(ResponseKind)
  {
    var k := ResponseKind;
    forall i | 0 <= i < |k|
      ensures !Filenames.Unsafe(k[i])
    {
      assert 'a' <= k[i] <= 'z';
    }
  }
}
