# WhatsApp bot conversation core, in Dafny

A model of the conversation logic of `app.py`, a Flask WhatsApp bot. The bot
answers text and voice messages with the help of outside services:

- AssemblyAI transcribes voice notes;
- OpenRouter, then Gemini, generate the answers;
- Murf or gTTS speak the answer aloud.

Here the whole `/webhook` route is one pure step over the bot's two in-memory
maps: the per-user history deques and the per-user session states. Everything
an outside service would answer is passed in as an input, an oracle value.
That covers the transcript, both providers' answers, the clock reading, the
random bytes for the audio file name and the outcomes of the speech calls.
The step returns:

- the branch taken;
- the text reply;
- the new maps;
- the outside calls made, in order;
- the reply audio left to be synthesized.

The small string helpers the step relies on are modelled with it:

- `normalize`;
- `sanitize_filename`;
- `unique_audio_basename`;
- `build_public_url_from_base` and the local-path rewrite before a media
  message is sent;
- the line parser of `load_keys_from_file`;
- the Content-Type → extension map;
- the 500-character TTS cut;
- the MIME choice of the audio route.

Modules, one per file:

- `Text`: Python's `strip`, `lower`, `in`, `endswith`, `index`, `lstrip(c)`, and `Option`.
- `History`: the `deque(maxlen=6)` store.
- `Session`: `set_state`, `get_state`, `clear_state`.
- `Encoding`: `bytes.hex()` and `str(n)`.
- `Filenames`: the sanitizer, POSIX `basename`/`join`/`splitext`, and the generated names.
- `Urls`: the public URL builder.
- `KeyFile`: the key-file fold.
- `Media`: the extension and MIME maps, the TTS cut, and the synthesis decision.
- `Webhook`: the step.
- `WebhookLemmas`: what each branch does, and what any run of steps keeps.

## Model

| member | source | states |
|---|---|---|
| Text.Strip | app.py:30 | `str.strip()`, as also used at lines 91, 107 and 400: the result has no whitespace at either end and is no longer than the input; a string with no surrounding whitespace comes back unchanged |
| Text.StripIsTrim | app.py:400 | what `strip` leaves is a contiguous stretch of the input with only whitespace before it and only whitespace after it |
| Text.Normalize | app.py:106-107 | the result is the input's characters between its leading and trailing whitespace, each lower-cased; so it has no surrounding whitespace and no upper-case letter, and an input that is already trimmed and lower-case comes back unchanged |
| Text.NormalizeIdempotent | app.py:106-107 | normalizing twice is normalizing once, and stripping first changes nothing |
| Text.ContainsIff | app.py:425 | Python's `word in text` holds exactly when `word` occurs at some index of `text` |
| Text.IndexOf | app.py:33 | the split point of `split("=", 1)` is an occurrence of the separator with none before it |
| History.Push | app.py:78 | an append to the bounded deque ends with the new turn and never exceeds 6 turns; below 6 it is a plain append; at 6 the oldest turn is dropped |
| History.PushFullEvictsOldest | app.py:78 | appending to a full history drops exactly the oldest turn and keeps the others in order |
| History.PushTwice | app.py:448-459 | after the user turn and the assistant turn are appended, the user turn is the one before the last, whatever the bound dropped |
| History.Append | app.py:411 | only the named user's history changes, and the bound is preserved |
| History.Clear | app.py:427 | the user's history becomes empty, everyone else's is untouched, and the bound is preserved |
| Session.Get | app.py:99-100 | a user with no entry reads as idle; otherwise the stored state is returned |
| Session.Set | app.py:96-97 | the user reads as the new state, and every other user reads as before |
| Session.Clear | app.py:102-104 | the user's entry is removed, so the user reads as idle; other entries keep their presence and their state |
| Session.ClearUndoesSet | app.py:96-104 | clearing a state that was just set for a user with no entry restores the map |
| Encoding.UnhexHex | app.py:125 | the hex rendering of the random bytes decodes back to the same bytes |
| Encoding.HexInjective | app.py:125 | different random bytes give different hex texts |
| Encoding.ParseDecimalOfDecimal | app.py:124 | the decimal rendering of the millisecond clock parses back to the same number |
| Encoding.DecimalInjective | app.py:124 | different clock readings give different decimal texts |
| Filenames.Sanitize | app.py:110-119 | same length as the input; every unsafe character becomes `_`; every other character is kept |
| Filenames.SanitizeMatchesSource | app.py:110-119 | the nine replacements in source order, then space and plus, then `os.path.basename`, give exactly the per-character sanitized name |
| Filenames.SanitizedIsSafe | app.py:110-119 | no `\ / : * ? " < > \|`, space or `+` survives sanitizing |
| Filenames.SanitizeSafe | app.py:110-119 | a name without unsafe characters is left unchanged |
| Filenames.SanitizeIdempotent | app.py:110-119 | sanitizing twice is sanitizing once |
| Filenames.SanitizeConcat | app.py:110-119 | sanitizing distributes over concatenation |
| Filenames.SanitizeTraversal | app.py:110-119 | `../../etc/x` becomes `.._.._etc_x`, and `..` is not rejected |
| Filenames.Join | app.py:301 | POSIX `os.path.join(a, b)`, as at lines 301 and 315: a `b` that starts with `/` replaces `a`; otherwise the path starts with `a`, ends with `b`, and has exactly one `/` inserted between them unless `a` is empty or already ends in `/` |
| Filenames.Basename | app.py:119 | POSIX `basename`: a separator-free suffix of the path that starts right after its last `/`, or the whole path when it has no `/` |
| Filenames.BasenameOfJoined | app.py:315 | the final component of `dir/name` is `name` when `name` has no separator |
| Filenames.TargetPath | app.py:314-315 | the synthesizer writes `audio/<sanitized name>`, and `basename` of that path gives back the sanitized name |
| Filenames.UniqueAudioBasename | app.py:121-126 | a generated name starts with the sanitized identifier (`unknown` when empty) and the kind, each followed by `_`, and ends in `.mp3` |
| Filenames.GeneratedNameIsSafe | app.py:121-126 | for a safe kind, a generated name has no unsafe character |
| Filenames.GeneratedNameIsSanitized | app.py:121-126 | a generated name passes through the sanitizer unchanged |
| Filenames.UniqueNamesDiffer | app.py:121-126 | for one user and kind, equal names imply equal clock readings and equal random bytes of a given length |
| Filenames.Extension | app.py:480 | `splitext(...)[1]` is empty, or a dot-led, dot-free, separator-free suffix of the path |
| Filenames.ExtensionOfDotfile | app.py:480 | a name with only dots before its last dot, such as `.wav` or `..ogg`, is a dot-file and has no extension |
| Filenames.ExtensionOfSuffix | app.py:480 | a stem with a non-dot character followed by `.e` has `.e` as its extension |
| Urls.BuildPublicUrl | app.py:90-94 | the URL starts with the trimmed base and ends with the segment minus its leading slashes; its length is the sum of the two, plus one for the slash added after a non-empty base without a trailing slash; so a non-empty base is joined to the segment by exactly one slash |
| Urls.LeadingSlashIgnored | app.py:90-94 | a leading slash on the segment changes nothing |
| Urls.TrailingSlashIgnored | app.py:90-94 | a base written with or without its trailing slash gives the same URL |
| Urls.MediaUrl | app.py:145-151 | an `http(s)` location is sent unchanged; a local path is sent as a URL that starts with the trimmed base and ends in `audio/<basename>`, with nothing else between them but the one slash added after a non-empty base without a trailing slash |
| Urls.MediaUrlOfTargetPath | app.py:149-151 | the file written for a name is published at `<base>/audio/<sanitized name>` |
| KeyFile.ParseLine | app.py:29-35 | blank, `#` and `=`-less lines give nothing; an entry has a non-empty, trimmed key without `=` and a non-empty, trimmed value |
| KeyFile.ParseLineIff | app.py:33-36 | any other line gives an entry exactly when both trimmed halves around its first `=` are non-empty, so `=abc` and `abc=` give nothing |
| KeyFile.ParseLineOfEntry | app.py:33-35 | `key=value` parses back to that key and value, whatever `=` the value holds |
| KeyFile.ParseLineOfPaddedEntry | app.py:30-35 | whitespace around the whole line and on either side of the first `=` is trimmed away: `  key  =  value  ` parses to the same entry as `key=value` |
| KeyFile.Load | app.py:23-39 | no key already in the environment is overwritten, and every added key and value is non-empty |
| KeyFile.LoadStopsAtAbort | app.py:36-39 | when the line at position `i` aborts, the whole load equals the load of the lines before it |
| KeyFile.AbortIgnoresRest | app.py:36-39 | after an aborting line, whatever lines follow are never read: the result is the load of the lines before it |
| KeyFile.NulLineEndsLoad | app.py:36-39 | a line giving a new key whose key or value holds a NUL ends the load: neither it nor any later line changes the environment |
| KeyFile.Apply | app.py:36-37 | one parsed line keeps every existing entry and adds at most its own key; that key, when not yet set, gets the line's value; the load aborts exactly when the key is new and the key or value holds a NUL |
| KeyFile.FirstOccurrenceWins | app.py:29-37 | for NUL-free lines and a key not yet set, the load sets the key exactly when some line gives it, and to the value of the first such line |
| Media.ExtForContentType | app.py:169-177 | the saved voice note is `.ogg` exactly when the header names ogg, and `.wav` exactly when it names wav but none of ogg, mpeg or mp3; otherwise it is `.mp3` |
| Media.TempAudioFile | app.py:178 | the temporary file is `temp_audio` followed by the chosen extension, and nothing more |
| Media.MimeOfExt | app.py:481-485 | WAV exactly for `.wav`, Ogg exactly for `.ogg` and `.oga`, MPEG otherwise |
| Media.ServedMime | app.py:477-486 | the served type is WAV, Ogg or MPEG; WAV only for a sanitized name ending in `.wav` in any case, Ogg only for one ending in `.ogg` or `.oga`; conversely such a name with a stem before the dot is served as WAV or Ogg; and a name without a stem, such as `.wav`, is served as MPEG |
| Media.ContentTypeMimeAgree | app.py:169-177 | a voice note saved by its Content-Type would be served back as Ogg exactly for an ogg header, and as WAV exactly for a wav header that names no ogg, mpeg or mp3 |
| Media.ServedMimeOfSafeName | app.py:478-480 | a safe name with one extension is served by the lower-cased form of that extension |
| Media.ServedMimeIgnoresCase | app.py:480 | a safe name ending in `.WAV` is served as WAV |
| Media.GeneratedNameServedAsMpeg | app.py:477-486 | every generated reply name is served as MPEG audio |
| Media.TtsText | app.py:308-309 | Murf is given a prefix of the text of at most 500 characters: the whole text when it is short enough, and exactly 500 characters otherwise |
| Media.TtsTextIdempotent | app.py:308-309 | cutting twice is cutting once, and text past the first 500 characters never matters |
| Media.Synthesize | app.py:295-389 | the result is the target path, or with `prefer_url` the Murf URL; Murf is asked exactly outside simple mode, with the cut text; in simple mode gTTS gets the whole text and there is a file exactly when it saves; no Murf file means no result and no gTTS; with `prefer_url` a Murf URL is returned as is, without gTTS; a Murf file that is downloaded or copied gives the target path without gTTS; otherwise gTTS gets the whole text and there is a file exactly when it saves |
| Media.SynthesisSucceedsIff | app.py:295-389 | synthesis gives a file exactly when gTTS saves in simple mode, and otherwise exactly when Murf returned a file that is either a preferred URL, fetched to the target, or backed by a working gTTS |
| Media.SynthesizedFileIsPublished | app.py:463-466 | without `prefer_url`, a synthesized reply is the target path, and its media URL is `<base>/audio/<sanitized name>` |
| Webhook.BodyText | app.py:400 | the message body, stripped: the stretch of the body between its leading and trailing whitespace (empty when absent); a body with no surrounding whitespace is kept as is |
| Webhook.Sender | app.py:401 | the sender is the `From` value, or `unknown` when absent |
| Webhook.HasMedia | app.py:417 | the voice-note branch is taken exactly when `MediaUrl0` is present and non-empty |
| Webhook.MessageText | app.py:417-418 | a transcribed voice note is worked on as its transcript; a text message as its stripped body |
| Webhook.ContainsAnyIff | app.py:425 | the farewell test holds exactly when some farewell word is contained in the message |
| Webhook.Answer | app.py:451 | the first non-empty provider answer, else the fallback; never empty |
| Webhook.WithSuffix | app.py:453-454 | the speech always contains the thank-you suffix; an answer that already contains it is kept; otherwise the suffix is appended once |
| Webhook.WithSuffixIdempotent | app.py:453-454 | adding the suffix twice is adding it once |
| Webhook.RecordExchange | app.py:448-459 | the user's history gains the message and then the reply, through the bounded deque; other users are untouched; the bound is preserved |
| Webhook.AfterAnswer | app.py:448-471 | after an answer the user's history holds the exchange, the user's state is `continue`, and nobody else changes |
| Webhook.Prompt | app.py:448-449 | the messages are the persona, then the newest turns of the user's history, then the message just recorded; at most 7 in all |
| WebhookLemmas.PromptHoldsWholeHistory | app.py:448-449 | after the persona, the prompt is the user's whole deque once the message is appended, so it holds every stored turn up to the bound, and its length is fixed by the stored history |
| Webhook.Consult | app.py:449-451 | the OpenRouter wrapper is always handed the prompt first; the Gemini wrapper is handed the same prompt exactly when OpenRouter gave nothing |
| Webhook.Converse | app.py:448-471 | the free-text path gives no text reply and touches only the sender, and the history bound is preserved |
| Webhook.Resumed | app.py:433-446 | only the sender's state can change; it reads as `continue` exactly when it was `continue` and the answer was not a yes, and as idle otherwise |
| Webhook.Respond | app.py:432-446 | the state machine touches only the sender, and the bound is preserved |
| Webhook.Greet | app.py:407-414 | the greeting branch touches only the sender and keeps the history bound |
| Webhook.Listen | app.py:416-430 | past the greeting, the transcription call, if any, is made first; a failed transcription changes neither map and makes no other call; only the sender is touched and the bound is kept |
| Webhook.Hear | app.py:423-471 | past the transcription, the farewell or the state machine runs: never the greeting or apology branch, the earlier calls are kept as a prefix, only the sender is touched |
| Webhook.EndChat | app.py:426-430 | ending the chat, on a farewell or on a no at lines 439-443, sends the text reply, empties the user's history, removes the state entry, makes no further call and leaves others untouched |
| Webhook.Step | app.py:399-474 | one webhook call touches only the sender's history and state, and never breaks the history bound |
| Webhook.Deliver | app.py:463-466 | a media message is sent exactly when synthesis produced a file; it goes to the sender, at the public URL `<host>/audio/<sanitized reply name>` of the file written |
| WebhookLemmas.BranchIff | app.py:399-446 | each branch is taken exactly when its own condition holds and no earlier one does: greeting, failed transcription, farewell, decline, free text |
| WebhookLemmas.GreetingResets | app.py:407-414 | whatever the state or media, a greeting gets the greeting reply; the greeting is appended as an assistant turn; the state entry is removed; no outside call is made; no audio is left |
| WebhookLemmas.FailedTranscriptionChangesNothing | app.py:417-421 | an untranscribable voice note gets the apology; both maps are unchanged; the only call is the transcription attempt |
| WebhookLemmas.FarewellEndsChat | app.py:424-430 | a farewell word anywhere in the message gets the goodbye; the history is emptied; the state entry is removed; nothing is generated |
| WebhookLemmas.DeclineEndsChat | app.py:438-443 | a no to "continue?" gets its own goodbye; the history is emptied; the state entry is removed; nothing is generated |
| WebhookLemmas.YesContinues | app.py:444-448 | a yes to "continue?" is answered as free text; the yes is recorded as a user turn; the state ends as `continue` |
| WebhookLemmas.FreeTextAnswers | app.py:448-471 | the free-text path records the message, then the speech with the continue prompt; both wrappers are handed the persona and then the history ending with the message; the state ends as `continue`; the speech is left to be synthesized under a generated name |
| WebhookLemmas.WeekendIsFarewell | app.py:424-425 | "weekend" ends the chat, because it contains the farewell word "end" |
| WebhookLemmas.SenderNeverAwaits | app.py:407-471 | when no user is awaiting, no branch stores `await_start` for the sender |
| WebhookLemmas.StepNeverAwaits | app.py:433-436 | no step ever stores `await_start` |
| WebhookLemmas.RunKeepsInvariants | app.py:78 | after any sequence of messages every history still has at most 6 turns, and `await_start` is still never stored |
| WebhookLemmas.FromStart | app.py:78-79 | from the empty maps, both invariants hold after any sequence of messages |
| WebhookLemmas.ReplyAudioReachesUser | app.py:461-466 | the audio of a free-text reply is sent to the sender at `<host>/audio/<name>`; that name is served as MPEG; Murf speaks at most the first 500 characters |

## Where the code and the documented behaviour differ

The model follows the code.

- The greeting is appended to the history as an assistant turn (app.py:411).
- `sanitize_filename` does not reject `..`: it only rewrites separators (`Filenames.SanitizeTraversal`).
- A yes to "continue?" is recorded as a user turn and answered, so the state ends as `continue` again (app.py:444-471).
- The farewell test is a substring test, so "weekend" ends the chat (`WebhookLemmas.WeekendIsFarewell`).
- An `await_start` entry is cleared and the message then goes on as free text. Nothing ever stores that state (`WebhookLemmas.StepNeverAwaits`).
- In the key file, a line whose key or value holds a NUL makes `os.environ` raise. The enclosing `except` then ends the whole load at that line (`KeyFile.NulLineEndsLoad`).

## Left out

- Every network and SDK call is out: Twilio, AssemblyAI, OpenRouter, Gemini, Murf and gTTS. Their results are inputs (`World`, `Media.TtsBackend`).
- The AssemblyAI download, upload and poll loop, with its 60-second timeout, is left out. Only its text result, or its failure, is an input. The Content-Type extension choice is modelled.
- The provider wrappers send only the last message's content, and a Gemini exception comes back as truthy text. Both answers are inputs, so what the wrappers do with the prompt is not modelled. `Consult` records the full prompt each provider is handed.
- Flask routing, TwiML responses and `send_from_directory` are framework I/O. Only the reply text and the chosen MIME type are kept.
- The background `Thread` and the race between requests are not modelled. The step returns the audio left to deliver, and `Webhook.Deliver` models the task itself.
- The Murf download retries and their `time.sleep` back-off are out. Whether one of the three attempts succeeds is an input.
- `is_publicly_reachable` always answers true and is never called in the modelled code.
- Logging and the module-level client construction are out.
- The key file is not read from disk: its lines arrive as a sequence, and a missing file is the empty sequence. Splitting the file into lines is left out.
- `Text.Lower`: only ASCII letters are lower-cased, unlike Python's full Unicode `lower()`.
- `Media.Synthesize`: a Murf `audio_file` that is not a string is not modelled.
- `Webhook.Listen`: an exception inside `transcribe_with_assemblyai` is not modelled. That function has `try`/`finally` without `except` (app.py:162, app.py:257-259), so a failing `requests` call (app.py:164, 205, 219, 234, 246) or `.json()` (app.py:232, 239, 246) escapes `webhook()`. Flask then answers 500, no apology is sent, and both maps are unchanged. The model treats every failed transcription as the apology branch.
- `Media.Synthesize`: a gTTS exception in simple mode is modelled as "no file". The source reaches the same `None` through the outer `except`.
- `Filenames.UniqueNamesDiffer`: it needs random suffixes of one length, as `os.urandom(3)` always gives. It does not cover suffixes of different lengths.
- `WebhookLemmas.ReplyAudioReachesUser`: it is stated for the delivery that `WebhookLemmas.FreeTextAnswers` names, not directly on the step.
- `KeyFile.FirstOccurrenceWins`: it assumes NUL-free lines, because a NUL ends the load early (see above).
