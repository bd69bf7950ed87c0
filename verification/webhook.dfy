/** The `/webhook` route of app.py as a pure step over the two in-memory
    maps: one incoming WhatsApp message, with everything the outside world
    answers (the transcription, both chat providers, the clock and the
    random bytes) passed in, gives the text reply, the new maps, the
    provider calls made and the reply audio left to be synthesized. */
module Webhook {
  import opened Text
  import opened Encoding
  import History
  import Session
  import Filenames
  import Urls
  import Media

  type Store = History.Store
  type States = Session.States
  type Turn = History.Turn

  // ---------------------------------------------------------------------
  // The fixed texts and word lists of app.py
  // ---------------------------------------------------------------------

  const GreetingText: string := "Hey there! \U{1F44B} How are you doing today?"
  const TranscriptionApology: string := "Sorry, I couldn\U{2019}t transcribe your voice note. Please try again."
  const GoodbyeText: string := "Thanks for chatting! Goodbye \U{1F44B}"
  const DeclineText: string := "Thanks for chatting! Have a great day \U{1F44B}"
  const FallbackAnswer: string := "Sorry, I'm having trouble answering right now."
  const ThankYouSuffix: string := " \U{2014} Thanks for chatting!"
  const ContinuePrompt: string := "\n\nWould you like to continue? (yes/no)"
  const Persona: string := "You are a friendly WhatsApp assistant. Answer clearly and briefly."
  /** The `kind` of every reply audio file name. */
  const ResponseKind: string := "response"

  /** The tuple the normalized body is compared against. */
  predicate IsGreeting(n: string) {
    n in GreetingWords
  }

  const GreetingWords: set<string> := {"hi", "hello", "hey", "start", "menu", "good morning", "i need help"}

  /** `CONTINUE_YES`. */
  predicate IsYes(n: string) {
    n in YesWords
  }

  const YesWords: set<string> := {"y", "yes", "yeah", "yep"}

  /** `CONTINUE_NO`. */
  predicate IsNo(n: string) {
    n in NoWords
  }

  const NoWords: set<string> := {"n", "no", "nope"}

  /** `FAREWELL_WORDS`. */
  const FarewellWords: seq<string> := [
    "bye", "goodbye", "thanks", "thank you", "thx", "bye bye",
    "see you", "see ya", "end", "stop", "exit", "good night",
    "goodnight", "take care"]

  /** `any(word in nmsg for word in FAREWELL_WORDS)`: a substring test, not
      a word test. */
  predicate IsFarewell(n: string) {
    ContainsAny(n, FarewellWords)
  }

  /** Some word of `words` occurs in `n`. */
  predicate ContainsAny(n: string, words: seq<string>)
    decreases |words|
  {
    words != [] && (Contains(n, words[0]) || ContainsAny(n, words[1..]))
  }

  /** `ContainsAny` is the `any` of the source: some word is contained. */
  lemma {:induction false} ContainsAnyIff(n: string, words: seq<string>)
    ensures ContainsAny(n, words) <==> exists i :: 0 <= i < |words| && Contains(n, words[i])
    decreases |words|
  {
    if words != [] {
      ContainsAnyIff(n, words[1..]);
      if ContainsAny(n, words[1..]) {
        var i :| 0 <= i < |words[1..]| && Contains(n, words[1..][i]);
        assert Contains(n, words[i + 1]);
      }
      if exists i :: 0 <= i < |words| && Contains(n, words[i]) {
        var i :| 0 <= i < |words| && Contains(n, words[i]);
        if i > 0 {
          assert Contains(n, words[1..][i - 1]);
        }
      }
    }
  }

  // ---------------------------------------------------------------------
  // Inputs and outputs of one step
  // ---------------------------------------------------------------------

  /** The form fields of the POST: `Body`, `From` and `MediaUrl0`, each
      possibly absent. */
  datatype Request = Request(body: Option<string>, from: Option<string>, mediaUrl: Option<string>)

  /** What the outside world answers during one step: the transcription of
      the voice note (`None` when it fails), the two chat providers'
      answers, the millisecond clock and the random bytes for the audio
      file name. */
  datatype World = World(
    transcript: Option<string>,
    primary: Option<string>,
    secondary: Option<string>,
    clockMs: nat,
    random: seq<byte>)

  /** The two in-memory maps. */
  datatype Bot = Bot(conversations: Store, states: States)

  datatype Provider = OpenRouter | Gemini

  /** A call into an outside service, in the order made. */
  datatype Call = Transcribe(url: string) | Generate(provider: Provider, messages: seq<Turn>)

  /** Which return statement of the webhook was taken. */
  datatype Branch = Greeted | TranscriptionFailed | Farewell | Declined | Answered

  /** The reply audio the background task synthesizes and sends. */
  datatype Delivery = Delivery(to: string, speech: string, basename: string)

  /** The result of one step: the text reply in the TwiML response (`None`
      for the empty response of the free-text path), the new maps, the
      calls made and the pending reply audio. */
  datatype Outcome = Outcome(
    branch: Branch,
    reply: Option<string>,
    bot: Bot,
    calls: seq<Call>,
    delivery: Option<Delivery>)

  /** `request.values.get("Body", "").strip()`. */
  function BodyText(req: Request): (text: string)
    ensures Stripped(text)
    ensures req.body.None? ==> text == ""
    ensures req.body.Some? ==> |text| <= |req.body.value|
    ensures req.body.Some? && Stripped(req.body.value) ==> text == req.body.value
    ensures req.body.Some? ==> TrimOf(req.body.value, text)
  {
    StripIsTrim(req.body.GetOr(""));
    Strip(req.body.GetOr(""))
  }

  /** `request.values.get("From", "unknown")`. */
  function Sender(req: Request): (user: string)
    ensures req.from.None? ==> user == "unknown"
    ensures req.from.Some? ==> user == req.from.value
  {
    req.from.GetOr("unknown")
  }

  /** `if media_url:` */
  predicate HasMedia(req: Request)
    ensures HasMedia(req) <==> req.mediaUrl.Some? && req.mediaUrl.value != ""
  {
    Truthy(req.mediaUrl)
  }

  /** The message the rest of the webhook works on: the transcript of a
      voice note, as returned, or the stripped body. */
  function MessageText(req: Request, w: World): (text: string)
    ensures HasMedia(req) && Truthy(w.transcript) ==> text == w.transcript.value
    ensures !HasMedia(req) ==> text == BodyText(req) && Stripped(text)
  {
    if HasMedia(req) && w.transcript.Some? then w.transcript.value else BodyText(req)
  }

  // ---------------------------------------------------------------------
  // The free-text reply
  // ---------------------------------------------------------------------

  /** `(primary or secondary) or fallback`: the first non-empty answer. */
  function Answer(primary: Option<string>, secondary: Option<string>): (a: string)
    ensures Truthy(primary) ==> a == primary.value
    ensures !Truthy(primary) && Truthy(secondary) ==> a == secondary.value
    ensures !Truthy(primary) && !Truthy(secondary) ==> a == FallbackAnswer
    ensures a != ""
  {
    if Truthy(primary) then primary.value
    else if Truthy(secondary) then secondary.value
    else FallbackAnswer
  }

  /** The thank-you suffix is appended unless the answer already contains
      it anywhere. */
  function WithSuffix(answer: string): (speech: string)
    ensures Contains(speech, ThankYouSuffix)
    ensures Contains(answer, ThankYouSuffix) ==> speech == answer
    ensures !Contains(answer, ThankYouSuffix) ==> speech == answer + ThankYouSuffix
  {
    if Contains(answer, ThankYouSuffix) then answer
    else
      var s := answer + ThankYouSuffix;
      assert OccursAt(s, ThankYouSuffix, |answer|);
      ContainsAt(s, ThankYouSuffix, |answer|);
      s
  }

  /** The suffix is added at most once. */
  lemma WithSuffixIdempotent(answer: string)
    ensures WithSuffix(WithSuffix(answer)) == WithSuffix(answer)
  {
  }

  /** The two turns the free-text path records: the user's message, then
      the assistant's reply. */
  function RecordExchange(store: Store, user: string, text: string, reply: string): (r: Store)
    ensures History.Read(r, user) ==
      History.Push(History.Push(History.Read(store, user), History.Turn(History.User, text)), History.Turn(History.Assistant, reply))
    ensures forall u :: u != user ==> History.Read(r, u) == History.Read(store, u)
    ensures History.Bounded(store) ==> History.Bounded(r)
  {
    var heard := History.Append(store, user, History.Turn(History.User, text));
    History.Append(heard, user, History.Turn(History.Assistant, reply))
  }

  /** The maps after an answer: the exchange is recorded and the user's
      state becomes `continue`; nobody else is touched. */
  function AfterAnswer(bot: Bot, user: string, text: string, reply: string): (after: Bot)
    ensures History.Read(after.conversations, user) ==
      History.Push(History.Push(History.Read(bot.conversations, user), History.Turn(History.User, text)), History.Turn(History.Assistant, reply))
    ensures Session.Get(after.states, user) == Session.Continue
    ensures OthersUnchanged(bot, after, user)
    ensures Bounded(bot) ==> Bounded(after)
  {
    Bot(RecordExchange(bot.conversations, user, text, reply), Session.Set(bot.states, user, Session.Continue))
  }

  /** The messages handed to both providers: the persona, then the user's
      history including the message just recorded. */
  function Prompt(store: Store, user: string, text: string): (p: seq<Turn>)
    ensures 2 <= |p| <= History.MaxHistory + 1
    ensures p[0] == History.Turn(History.System, Persona)
    ensures p[|p| - 1] == History.Turn(History.User, text)
    ensures var h := History.Read(store, user);
      |h| + 2 - |p| >= 0 && p[1..|p| - 1] == h[|h| + 2 - |p|..]
  {
    var pushed := History.Push(History.Read(store, user), History.Turn(History.User, text));
    var p := [History.Turn(History.System, Persona)] + pushed;
    assert p[1..|p| - 1] == pushed[..|pushed| - 1];
    p
  }

  /** The provider calls of `generate_with_openrouter(messages) or
      generate_with_gemini(messages)`: the second is made only when the
      first gave nothing. */
  function Consult(messages: seq<Turn>, primary: Option<string>): (calls: seq<Call>)
    ensures |calls| == if Truthy(primary) then 1 else 2
    ensures calls[0] == Generate(OpenRouter, messages)
    ensures |calls| == 2 ==> calls[1] == Generate(Gemini, messages)
  {
    [Generate(OpenRouter, messages)] + if Truthy(primary) then [] else [Generate(Gemini, messages)]
  }

  /** The free-text path from the user-turn append on: the user's message
      and then the answer with the continue prompt are recorded, the
      primary provider is asked and the secondary only when the primary
      gave nothing, and the state becomes `continue`. */
  function Converse(bot: Bot, user: string, text: string, w: World, calls: seq<Call>): (out: Outcome)
    ensures out.branch == Answered && out.reply == None
    ensures calls <= out.calls
    ensures OthersUnchanged(bot, out.bot, user)
    ensures Bounded(bot) ==> Bounded(out.bot)
  {
    var speech := WithSuffix(Answer(w.primary, w.secondary));
    var after := AfterAnswer(bot, user, text, speech + ContinuePrompt);
    var asked := Consult(Prompt(bot.conversations, user, text), w.primary);
    var name := Filenames.UniqueAudioBasename(user, ResponseKind, w.clockMs, w.random);
    Outcome(Answered, None, after,
            calls + asked, Some(Delivery(user, speech, name)))
  }

  // ---------------------------------------------------------------------
  // The webhook
  // ---------------------------------------------------------------------

  /** Every user other than `user` keeps their history and state. */
  ghost predicate OthersUnchanged(before: Bot, after: Bot, user: string) {
    forall u :: u != user ==>
      History.Read(after.conversations, u) == History.Read(before.conversations, u) &&
      Session.Get(after.states, u) == Session.Get(before.states, u)
  }

  /** Every history respects the deque's bound. */
  predicate Bounded(bot: Bot) {
    History.Bounded(bot.conversations)
  }

  /** The transcription call a voice note makes, before any other call. */
  function Transcribed(req: Request): seq<Call> {
    if HasMedia(req) then [Transcribe(req.mediaUrl.value)] else []
  }

  /** `webhook()`. The branches are tried in the source's order: greeting
      (on the body, before any media), failed transcription, farewell,
      the answer to "continue?" and otherwise free text. */
  function Step(bot: Bot, req: Request, w: World): (out: Outcome)
    ensures OthersUnchanged(bot, out.bot, Sender(req))
    ensures Bounded(bot) ==> Bounded(out.bot)
  {
    if IsGreeting(Normalize(BodyText(req))) then Greet(bot, Sender(req))
    else Listen(bot, req, w)
  }

  /** The greeting branch: the greeting is sent and recorded as an
      assistant turn, and the user's state entry is removed. */
  function Greet(bot: Bot, user: string): (out: Outcome)
    ensures OthersUnchanged(bot, out.bot, user)
    ensures Bounded(bot) ==> Bounded(out.bot)
  {
    Outcome(Greeted, Some(GreetingText),
            Bot(History.Append(bot.conversations, user, History.Turn(History.Assistant, GreetingText)),
                Session.Clear(bot.states, user)),
            [], None)
  }

  /** The webhook after the greeting test: the voice note is transcribed,
      and a farewell anywhere in the message ends the chat. */
  function Listen(bot: Bot, req: Request, w: World): (out: Outcome)
    ensures out.branch != Greeted
    ensures Transcribed(req) <= out.calls
    ensures out.branch == TranscriptionFailed ==> out.bot == bot && out.calls == Transcribed(req)
    ensures OthersUnchanged(bot, out.bot, Sender(req))
    ensures Bounded(bot) ==> Bounded(out.bot)
  {
    var user := Sender(req);
    var transcribed := Transcribed(req);
    if HasMedia(req) && !Truthy(w.transcript) then
      Outcome(TranscriptionFailed, Some(TranscriptionApology), bot, transcribed, None)
    else Hear(bot, user, MessageText(req, w), w, transcribed)
  }

  /** The message text once it is known: a farewell anywhere in it ends the
      chat, anything else goes on to the "continue?" handling. */
  function Hear(bot: Bot, user: string, text: string, w: World, calls: seq<Call>): (out: Outcome)
    ensures out.branch != Greeted && out.branch != TranscriptionFailed
    ensures calls <= out.calls
    ensures OthersUnchanged(bot, out.bot, user)
    ensures Bounded(bot) ==> Bounded(out.bot)
  {
    if IsFarewell(Normalize(text)) then EndChat(bot, user, Farewell, GoodbyeText, calls)
    else Respond(bot, user, text, w, calls)
  }

  /** Ending the chat, on a farewell or a declined "continue?": the text
      reply is sent, the user's history is emptied and the user's state
      entry is removed; nothing else is called or changed. */
  function EndChat(bot: Bot, user: string, branch: Branch, reply: string, calls: seq<Call>): (out: Outcome)
    ensures out.branch == branch && out.reply == Some(reply)
    ensures out.calls == calls && out.delivery == None
    ensures History.Read(out.bot.conversations, user) == [] && user !in out.bot.states
    ensures OthersUnchanged(bot, out.bot, user)
    ensures Bounded(bot) ==> Bounded(out.bot)
  {
    Outcome(branch, Some(reply), Bot(History.Clear(bot.conversations, user), Session.Clear(bot.states, user)), calls, None)
  }

  /** The state machine of the webhook, then the free-text path. A user
      who was asked whether to continue and declines has the chat ended;
      anything else is free text, from the states `Resumed` leaves. */
  function Respond(bot: Bot, user: string, text: string, w: World, calls: seq<Call>): (out: Outcome)
    ensures out.branch == Declined || out.branch == Answered
    ensures calls <= out.calls
    ensures OthersUnchanged(bot, out.bot, user)
    ensures Bounded(bot) ==> Bounded(out.bot)
  {
    var n := Normalize(text);
    if Session.Get(bot.states, user) == Session.Continue && IsNo(n) then
      EndChat(bot, user, Declined, DeclineText, calls)
    else Converse(Bot(bot.conversations, Resumed(bot.states, user, n)), user, text, w, calls)
  }

  /** The states the free-text path starts from: an `await_start` entry is
      cleared, and a yes to "continue?" clears the entry. Only the user's
      own entry can change, and it reads as `continue` exactly when it was
      `continue` and the answer was not a yes. */
  function Resumed(states: States, user: string, n: string): (r: States)
    ensures forall u :: u != user ==> Session.Get(r, u) == Session.Get(states, u)
    ensures Session.Get(r, user) ==
      if Session.Get(states, user) == Session.Continue && !IsYes(n) then Session.Continue else Session.Idle
  {
    var state := Session.Get(states, user);
    var waited := if state == Session.AwaitStart then Session.Clear(states, user) else states;
    if state == Session.Continue && IsYes(n) then Session.Clear(waited, user) else waited
  }

  // ---------------------------------------------------------------------
  // Delivering the reply audio
  // ---------------------------------------------------------------------

  /** A WhatsApp media message: the recipient and the media URL. */
  datatype MediaMessage = MediaMessage(to: string, url: string)

  /** The webhook's `_task`: the speech is synthesized into the reply's
      file, without `prefer_url`, and whatever path comes back is sent to
      the user under the public URL built from the request's host URL,
      which names the file written for the sanitized reply name. */
  function Deliver(d: Delivery, b: Media.TtsBackend, hostUrl: string): (m: Option<MediaMessage>)
    ensures m.Some? <==> Media.Synthesize(d.speech, d.basename, false, b).result.Some?
    ensures m.Some? ==> m.value.to == d.to
    ensures m.Some? ==> m.value.url == Urls.BuildPublicUrl(hostUrl, "audio/" + Filenames.Sanitize(d.basename))
  {
    var s := Media.Synthesize(d.speech, d.basename, false, b);
    if Truthy(s.result) then
      Media.SynthesizedFileIsPublished(d.speech, d.basename, b, hostUrl);
      Some(MediaMessage(d.to, Urls.MediaUrl(s.result.value, hostUrl)))
    else None
  }
}
