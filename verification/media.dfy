/** The audio side of the bot: the file extension chosen for a downloaded
    voice note, the text handed to the speech synthesizers and the file
    they write, and the MIME type the audio route serves a file with. The
    synthesizers themselves are outcomes passed in. */
module Media {
  import opened Text
  import opened Filenames
  import opened Urls
  import opened Encoding

  /** The extension `transcribe_with_assemblyai` saves a downloaded voice
      note under, chosen by substring tests on its Content-Type header in
      the order ogg, mpeg/mp3, wav, with `.mp3` as the default. */
  function ExtForContentType(contentType: string): (ext: string)
    ensures ext == ".ogg" || ext == ".mp3" || ext == ".wav"
    ensures ext == ".ogg" <==> Contains(contentType, "ogg")
    ensures ext == ".wav" <==>
      !Contains(contentType, "ogg") && !Contains(contentType, "mpeg") &&
      !Contains(contentType, "mp3") && Contains(contentType, "wav")
  {
    if Contains(contentType, "ogg") then ".ogg"
    else if Contains(contentType, "mpeg") || Contains(contentType, "mp3") then ".mp3"
    else if Contains(contentType, "wav") then ".wav"
    else ".mp3"
  }

  /** The temporary file the voice note is written to. */
  function TempAudioFile(contentType: string): (path: string)
    ensures "temp_audio" <= path && EndsWith(path, ExtForContentType(contentType))
    ensures |path| == |"temp_audio"| + |ExtForContentType(contentType)|
  {
    "temp_audio" + ExtForContentType(contentType)
  }

  /** The MIME type `serve_audio` chooses for an already lower-cased
      extension. */
  function MimeOfExt(ext: string): (mime: string)
    ensures mime == "audio/wav" <==> ext == ".wav"
    ensures mime == "audio/ogg" <==> ext == ".ogg" || ext == ".oga"
    ensures mime == "audio/wav" || mime == "audio/ogg" || mime == "audio/mpeg"
  {
    if ext == ".wav" then "audio/wav"
    else if ext == ".ogg" || ext == ".oga" then "audio/ogg"
    else "audio/mpeg"
  }

  /** `serve_audio(filename)`: the file is looked up under its sanitized
      name, and its MIME type follows the lower-cased extension of that
      name. WAV and Ogg are only ever chosen for a name ending, in any
      case, in `.wav`, or in `.ogg` or `.oga`; and a name with such an
      ending and a stem is always served with that type. */
  function ServedMime(filename: string): (mime: string)
    ensures mime == "audio/wav" || mime == "audio/ogg" || mime == "audio/mpeg"
    ensures mime == "audio/wav" ==> EndsWith(Lower(Sanitize(filename)), ".wav")
    ensures mime == "audio/ogg" ==>
              EndsWith(Lower(Sanitize(filename)), ".ogg") || EndsWith(Lower(Sanitize(filename)), ".oga")
    ensures HasStem(Sanitize(filename)) && EndsWith(Lower(Sanitize(filename)), ".wav") ==> mime == "audio/wav"
    ensures (HasStem(Sanitize(filename)) &&
             (EndsWith(Lower(Sanitize(filename)), ".ogg") || EndsWith(Lower(Sanitize(filename)), ".oga")))
            ==> mime == "audio/ogg"
    ensures !HasStem(Sanitize(filename)) ==> mime == "audio/mpeg"
  {
    var name := Sanitize(filename);
    SanitizedIsSafe(filename);
    NoSeparator(name);
    TypedNameEnds(name);
    EndingGivesExtension(name, ".wav");
    EndingGivesExtension(name, ".ogg");
    EndingGivesExtension(name, ".oga");
    NoStemShortExtension(name);
    MimeOfExt(Lower(Extension(name)))
  }

  /** Some character before the last four (the length of `.wav`, `.ogg`
      and `.oga`) is not a dot, so `splitext` does not read the name as a
      dot-file without extension. */
  predicate HasStem(name: string) {
    exists k :: 0 <= k < |name| - 4 && name[k] != '.'
  }

  /** Without a stem, whatever extension `splitext` finds starts within
      the last three characters, too short for `.wav`, `.ogg` or `.oga`. */
  lemma NoStemShortExtension(name: string)
    ensures !HasStem(name) ==> |Extension(name)| <= 3
  {
    if !HasStem(name) && Extension(name) != [] {
      var sep := LastIndex(name, '/');
      var dot := LastIndex(name, '.');
      var k :| sep + 1 <= k < dot && name[k] != '.';
      assert !(0 <= k < |name| - 4);
      assert Extension(name) == name[dot..];
    }
  }

  /** Lower-casing keeps a suffix a suffix. */
  lemma LowerEndsWith(s: string, e: string)
    requires EndsWith(s, e)
    ensures EndsWith(Lower(s), Lower(e))
  {
    var n := |s| - |e|;
    forall i | 0 <= i < |e|
      ensures Lower(s)[n..][i] == Lower(e)[i]
    {
      assert s[n + i] == e[i];
    }
  }

  /** A name served as WAV or Ogg ends in the matching extension. */
  lemma TypedNameEnds(name: string)
    ensures MimeOfExt(Lower(Extension(name))) == "audio/wav" ==> EndsWith(Lower(name), ".wav")
    ensures MimeOfExt(Lower(Extension(name))) == "audio/ogg" ==>
              EndsWith(Lower(name), ".ogg") || EndsWith(Lower(name), ".oga")
  {
    var e := Extension(name);
    if MimeOfExt(Lower(e)) != "audio/mpeg" {
      LowerEndsWith(name, e);
    }
  }

  /** A separator-free name with a stem whose lower-cased form ends in a
      four-character extension has exactly that extension, up to case. */
  lemma EndingGivesExtension(name: string, x: string)
    requires '/' !in name
    requires x == ".wav" || x == ".ogg" || x == ".oga"
    ensures HasStem(name) && EndsWith(Lower(name), x) ==> Lower(Extension(name)) == x
  {
    if HasStem(name) && EndsWith(Lower(name), x) {
      ExtShape(x);
      var n := |name| - 4;
      var low := Lower(name);
      assert low[n] == x[0];
      assert name[n] == '.';
      forall j | n < j < |name|
        ensures name[j] != '.'
      {
        assert low[j] == x[j - n];
      }
      ExtensionAtLastDot(name, n);
      forall i | 0 <= i < 4
        ensures Lower(name[n..])[i] == x[i]
      {
        assert low[n + i] == x[i];
      }
    }
  }

  /** A separator-free name with a stem before its last dot has the
      extension that starts at that dot. */
  lemma ExtensionAtLastDot(name: string, n: int)
    requires '/' !in name
    requires 0 <= n < |name| && name[n] == '.'
    requires forall j :: n < j < |name| ==> name[j] != '.'
    requires exists k :: 0 <= k < n && name[k] != '.'
    ensures Extension(name) == name[n..]
  {
    assert LastIndex(name, '.') == n;
    assert LastIndex(name, '/') == -1;
  }

  /** The three typed extensions: four characters, one leading dot. */
  lemma ExtShape(x: string)
    requires x == ".wav" || x == ".ogg" || x == ".oga"
    ensures |x| == 4 && x[0] == '.' && x[1] != '.' && x[2] != '.' && x[3] != '.'
  {
  }

  /** A voice note saved under the extension its Content-Type selects would
      be served back with the MIME type of the same family: Ogg for an
      "ogg" header, WAV only for a WAV header naming neither mpeg nor mp3,
      MPEG otherwise. */
  lemma ContentTypeMimeAgree(contentType: string)
    ensures MimeOfExt(ExtForContentType(contentType)) == "audio/ogg" <==> Contains(contentType, "ogg")
    ensures MimeOfExt(ExtForContentType(contentType)) == "audio/wav" <==>
      !Contains(contentType, "ogg") && !Contains(contentType, "mpeg") &&
      !Contains(contentType, "mp3") && Contains(contentType, "wav")
  {
  }

  /** A safe name made of a stem and an extension (one dot, then no more)
      is served by the lower-cased form of that extension. */
  lemma ServedMimeOfSafeName(stem: string, ext: string)
    requires Safe(stem) && Safe(ext)
    requires |ext| > 0 && ext[0] == '.' && '.' !in ext[1..]
    requires exists k :: 0 <= k < |stem| && stem[k] != '.'
    ensures ServedMime(stem + ext) == MimeOfExt(Lower(ext))
  {
    var e := ext[1..];
    assert "." + e == ext;
    assert stem + "." + e == stem + ext;
    SafeConcat(stem, ext);
    SanitizeSafe(stem + ext);
    NoSeparator(stem);
    assert Safe(e) by {
      forall i | 0 <= i < |e|
        ensures !Unsafe(e[i])
      {
        assert e[i] == ext[i + 1];
      }
    }
    NoSeparator(e);
    ExtensionOfSuffix(stem, e);
  }

  /** A safe name has no path separator. */
  lemma NoSeparator(s: string)
    requires Safe(s)
    ensures '/' !in s
  {
  }

  /** The extension is matched without regard to case: a safe name ending
      in `.WAV` is served as WAV audio. */
  lemma ServedMimeIgnoresCase(stem: string)
    requires Safe(stem)
    requires exists k :: 0 <= k < |stem| && stem[k] != '.'
    ensures ServedMime(stem + ".WAV") == "audio/wav"
  {
    ExtFacts(".WAV");
    ServedMimeOfSafeName(stem, ".WAV");
    LowerWav();
  }

  /** The facts about a literal extension the MIME lemma needs. */
  lemma ExtFacts(ext: string)
    requires ext == ".WAV" || ext == ".mp3"
    ensures Safe(ext) && |ext| > 0 && ext[0] == '.' && '.' !in ext[1..]
  {
    assert ext[1..] == [ext[1], ext[2], ext[3]];
  }

  lemma LowerWav()
    ensures Lower(".WAV") == ".wav"
  {
    var lowered := Lower(".WAV");
    assert lowered[0] == '.' && lowered[1] == 'w' && lowered[2] == 'a' && lowered[3] == 'v';
  }

  lemma LowerMp3()
    ensures Lower(".mp3") == ".mp3"
  {
    var lowered := Lower(".mp3");
    assert lowered[0] == '.' && lowered[1] == 'm' && lowered[2] == 'p' && lowered[3] == '3';
  }

  /** Every name generated for a safe kind, as the webhook's `response`, is
      served as MPEG audio. */
  lemma {:induction false} GeneratedNameServedAsMpeg(identifier: string, kind: string, clockMs: nat, random: seq<byte>)
    requires Safe(kind)
    ensures ServedMime(UniqueAudioBasename(identifier, kind, clockMs, random)) == "audio/mpeg"
  {
    var name := UniqueAudioBasename(identifier, kind, clockMs, random);
    var safeId := Sanitize(if identifier == "" then "unknown" else identifier);
    var stem := name[..|name| - 4];
    GeneratedNameIsSafe(identifier, kind, clockMs, random);
    GeneratedStem(name, stem, safeId, kind);
    ExtFacts(".mp3");
    ServedMimeOfSafeName(stem, ".mp3");
    LowerMp3();
  }

  /** The facts about a generated name the MIME lemma needs: it is its stem
      followed by `.mp3`, and the stem is safe and holds a `_`. */
  lemma GeneratedStem(name: string, stem: string, safeId: string, kind: string)
    requires Safe(name) && EndsWith(name, ".mp3") && safeId + "_" + kind + "_" <= name
    requires stem == name[..|name| - 4]
    ensures name == stem + ".mp3"
    ensures Safe(stem)
    ensures exists k :: 0 <= k < |stem| && stem[k] != '.'
  {
    assert name[|safeId|] == '_';
    assert stem[|safeId|] == '_';
  }

  /** The longest text sent to Murf, roughly twenty seconds of speech. */
  const MaxTtsChars: nat := 500

  /** The text handed to Murf: the reply cut to its first `MaxTtsChars`
      characters. */
  function TtsText(text: string): (r: string)
    ensures r <= text
    ensures |r| <= MaxTtsChars
    ensures |text| <= MaxTtsChars ==> r == text
    ensures |text| > MaxTtsChars ==> |r| == MaxTtsChars
  {
    if |text| <= MaxTtsChars then text else text[..MaxTtsChars]
  }

  /** Truncating twice is truncating once, and a text is only ever cut at
      the same place. */
  lemma TtsTextIdempotent(text: string, more: string)
    ensures TtsText(TtsText(text)) == TtsText(text)
    ensures |text| >= MaxTtsChars ==> TtsText(text + more) == TtsText(text)
  {
    if |text| >= MaxTtsChars {
      assert (text + more)[..MaxTtsChars] == text[..MaxTtsChars];
    }
  }

  /** What the speech services do when called, for one call of
      `text_to_speech_murf`:
      - `simple`: the `USE_SIMPLE_TTS` setting;
      - `gttsSaves`: whether gTTS manages to write its file;
      - `murfFile`: the `audio_file` the Murf SDK returns (`None` also when
        the SDK call raises);
      - `downloadOk`: whether one of the three download attempts of a Murf
        URL succeeds;
      - `copyOk`: whether copying a local Murf file succeeds. */
  datatype TtsBackend = TtsBackend(
    simple: bool,
    gttsSaves: bool,
    murfFile: Option<string>,
    downloadOk: bool,
    copyOk: bool)

  /** One call of `text_to_speech_murf`: what it returns and the text each
      synthesizer was asked to speak (`None` when it was not called). */
  datatype Synthesis = Synthesis(result: Option<string>, murfText: Option<string>, gttsText: Option<string>)

  /** `text_to_speech_murf(text, filename, prefer_url)`. In simple mode gTTS
      writes the file. Otherwise Murf is asked to speak the truncated text;
      no file from Murf ends the call with nothing; with `prefer_url` a Murf
      URL is returned as it is; a Murf URL is downloaded, or a local Murf
      file copied, to the target path; and when that fails gTTS speaks the
      whole, untruncated text into the target path instead. */
  function Synthesize(text: string, filename: string, preferUrl: bool, b: TtsBackend): (s: Synthesis)
    ensures s.result.Some? ==>
      s.result.value == TargetPath(filename) ||
      (preferUrl && !b.simple && s.result == b.murfFile && IsHttpUrl(s.result.value))
    ensures s.murfText.Some? <==> !b.simple
    ensures s.murfText.Some? ==> s.murfText.value == TtsText(text)
    ensures s.gttsText.Some? ==> s.gttsText.value == text
    ensures b.simple ==> s.gttsText == Some(text) && (s.result.Some? <==> b.gttsSaves)
    ensures !b.simple && !Truthy(b.murfFile) ==> s.result.None? && s.gttsText.None?
    ensures !b.simple && Truthy(b.murfFile) && preferUrl && IsHttpUrl(b.murfFile.value) ==>
              s.result == b.murfFile && s.gttsText.None?
    ensures !b.simple && Truthy(b.murfFile) && !(preferUrl && IsHttpUrl(b.murfFile.value)) && Fetched(b) ==>
              s.result == Some(TargetPath(filename)) && s.gttsText.None?
    ensures !b.simple && Truthy(b.murfFile) && !(preferUrl && IsHttpUrl(b.murfFile.value)) && !Fetched(b) ==>
              s.gttsText == Some(text) && (s.result.Some? <==> b.gttsSaves)
    ensures Truthy(b.murfFile) && b.gttsSaves ==> s.result.Some?
  {
    var target := TargetPath(filename);
    var saved := if b.gttsSaves then Some(target) else None;
    if b.simple then Synthesis(saved, None, Some(text))
    else
      var spoken := Some(TtsText(text));
      if !Truthy(b.murfFile) then Synthesis(None, spoken, None)
      else
        var file := b.murfFile.value;
        if preferUrl && IsHttpUrl(file) then Synthesis(Some(file), spoken, None)
        else if Fetched(b) then Synthesis(Some(target), spoken, None)
        else Synthesis(saved, spoken, Some(text))
  }

  /** The file Murf returned reaches the target path: a URL is downloaded,
      anything else is copied as a local file. */
  predicate Fetched(b: TtsBackend) {
    b.murfFile.Some? && if IsHttpUrl(b.murfFile.value) then b.downloadOk else b.copyOk
  }

  /** When a call of `text_to_speech_murf` gives a result: in simple mode
      exactly when gTTS saves; otherwise only with a file from Murf, and
      then when that file is a URL returned as it is, when it reaches the
      target path, or when the gTTS fallback saves. */
  lemma SynthesisSucceedsIff(text: string, filename: string, preferUrl: bool, b: TtsBackend)
    ensures Synthesize(text, filename, preferUrl, b).result.Some? <==>
      if b.simple then b.gttsSaves
      else Truthy(b.murfFile) && ((preferUrl && IsHttpUrl(b.murfFile.value)) || Fetched(b) || b.gttsSaves)
  {
  }

  /** Without `prefer_url`, as the webhook calls it, a synthesized reply is
      always the local file for the sanitized name, and the media URL built
      from it serves exactly that file. */
  lemma SynthesizedFileIsPublished(text: string, filename: string, b: TtsBackend, base: string)
    requires Synthesize(text, filename, false, b).result.Some?
    ensures Synthesize(text, filename, false, b).result.value == TargetPath(filename)
    ensures MediaUrl(Synthesize(text, filename, false, b).result.value, base) ==
      BuildPublicUrl(base, "audio/" + Sanitize(filename))
  {
    MediaUrlOfTargetPath(filename, base);
  }
}
