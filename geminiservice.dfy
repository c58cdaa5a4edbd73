/**
 * The speech service: the checks `generateSpeech` makes before it calls the
 * text-to-speech model, the voice translation, and what it makes of the
 * model's response. The remote call is the parameter `remote`; the API key
 * is the parameter `apiKey` (the value of the build-time environment).
 */
module GeminiService {
  import opened JsStrings
  import opened Wrappers
  import opened Types
  import Constants
  import Base64
  import AudioService

  /** The code units the sanitizer removes: C0 controls, DEL and the C1 controls. */
  predicate IsControl(u: CodeUnit)
  {
    u <= 0x1F || (0x7F <= u <= 0x9F)
  }

  /** `replace(/[\x00-\x1F\x7F-\x9F]/g, "")`. */
  function RemoveControls(s: JsString): (r: JsString)
    ensures |r| <= |s|
    ensures forall i :: 0 <= i < |r| ==> !IsControl(r[i])
  {
    if s == [] then []
    else if IsControl(s[|s| - 1]) then RemoveControls(s[..|s| - 1])
    else RemoveControls(s[..|s| - 1]) + [s[|s| - 1]]
  }

  /** Removing controls works unit by unit: it distributes over concatenation. */
  lemma {:induction false} RemoveControlsAppend(a: JsString, b: JsString)
    ensures RemoveControls(a + b) == RemoveControls(a) + RemoveControls(b)
    decreases |b|
  {
    if b == [] {
      assert a + b == a;
    } else {
      assert (a + b)[..|a + b| - 1] == a + b[..|b| - 1];
      RemoveControlsAppend(a, b[..|b| - 1]);
    }
  }

  /** A single unit is dropped exactly when it is a control. */
  lemma RemoveControlsUnit(u: CodeUnit)
    ensures RemoveControls([u]) == if IsControl(u) then [] else [u]
  {
    assert [u][..0] == [];
  }

  /** A string without controls is left alone. */
  lemma {:induction false} RemoveControlsOfClean(s: JsString)
    requires forall i :: 0 <= i < |s| ==> !IsControl(s[i])
    ensures RemoveControls(s) == s
    decreases |s|
  {
    if s != [] {
      RemoveControlsOfClean(s[..|s| - 1]);
    }
  }

  /** `sanitizeText`: controls removed, the rest kept in order, then trimmed. */
  function SanitizeText(text: JsString): (r: JsString)
    ensures forall i :: 0 <= i < |r| ==> !IsControl(r[i])
    ensures IsTrimmed(r)
  {
    var kept := RemoveControls(text);
    var r := Trim(kept);
    assert forall i :: 0 <= i < |r| ==> !IsControl(r[i]) by {
      TrimMembers(kept);
    }
    r
  }

  /** Sanitizing twice is sanitizing once. */
  lemma SanitizeIdempotent(text: JsString)
    ensures SanitizeText(SanitizeText(text)) == SanitizeText(text)
  {
    var once := SanitizeText(text);
    RemoveControlsOfClean(once);
    TrimOfTrimmed(once);
  }

  /** `checkApiKey` and the first guard: a key is present when it is a non-empty string. */
  predicate HasApiKey(apiKey: Option<JsString>)
  {
    apiKey.Some? && apiKey.value != []
  }

  /** The voice whose enum value is `name`, if any. */
  function VoiceNamed(name: JsString): (r: Option<VoiceOption>)
    ensures r.Some? ==> VoiceKey(r.value) == name
    ensures r.None? ==> forall v: VoiceOption :: VoiceKey(v) != name
  {
    if name == VoiceKey(Pepe) then Some(Pepe)
    else if name == VoiceKey(Fefe) then Some(Fefe)
    else if name == VoiceKey(Carlito) then Some(Carlito)
    else if name == VoiceKey(Margarita) then Some(Margarita)
    else if name == VoiceKey(Anastasia) then Some(Anastasia)
    else if name == VoiceKey(Juana) then Some(Juana)
    else None
  }

  /** Each enum value names its own voice: the six values are distinct. */
  lemma VoiceNamedKey(v: VoiceOption)
    ensures VoiceNamed(VoiceKey(v)) == Some(v)
  {
    match v
    case Pepe =>
    case Fefe => assert VoiceKey(Fefe)[6] != VoiceKey(Pepe)[6];
    case Carlito =>
    case Margarita =>
    case Anastasia => assert VoiceKey(Anastasia)[6] != VoiceKey(Margarita)[6];
    case Juana =>
  }

  /** `GEMINI_VOICE_MAP[voiceName] || voiceName`. */
  function MapVoiceName(name: JsString): (r: JsString)
    ensures forall v: VoiceOption :: VoiceKey(v) == name ==> r == Constants.GeminiVoice(v)
    ensures (forall v: VoiceOption :: VoiceKey(v) != name) ==> r == name
  {
    assert forall v: VoiceOption :: VoiceKey(v) == name ==> VoiceNamed(name) == Some(v) by {
      forall v: VoiceOption | VoiceKey(v) == name ensures VoiceNamed(name) == Some(v) {
        VoiceNamedKey(v);
      }
    }
    match VoiceNamed(name)
    case Some(v) => Constants.GeminiVoice(v)
    case None => name
  }

  /** Two internal voices share one prebuilt voice, so the translation is not injective. */
  lemma MapVoiceNameNotInjective()
    ensures VoiceKey(Margarita) != VoiceKey(Juana)
    ensures MapVoiceName(VoiceKey(Margarita)) == MapVoiceName(VoiceKey(Juana)) == Lit("Kore")
  {
    assert VoiceKey(Margarita)[7] != VoiceKey(Juana)[7];
  }

  /** The parts of the model's response that `generateSpeech` reads; every level may be absent. */
  datatype InlineData = InlineData(data: Option<JsString>)
  datatype Part = Part(inlineData: Option<InlineData>)
  datatype Content = Content(parts: Option<seq<Part>>)
  datatype Candidate = Candidate(content: Option<Content>, finishReason: Option<JsString>)
  datatype Response = Response(candidates: Option<seq<Candidate>>)

  /** `response.candidates?.[0]`. */
  function FirstCandidate(response: Response): Option<Candidate>
  {
    match response.candidates
    case Some(cs) => if |cs| > 0 then Some(cs[0]) else None
    case None => None
  }

  /** `response.candidates?.[0]?.content?.parts?.[0]?.inlineData?.data`. */
  function InlineAudio(response: Response): Option<JsString>
  {
    match FirstCandidate(response)
    case None => None
    case Some(c) =>
      match c.content
      case None => None
      case Some(content) =>
        match content.parts
        case None => None
        case Some(ps) =>
          if |ps| == 0 then None
          else match ps[0].inlineData
            case None => None
            case Some(d) => d.data
  }

  /** The audio payload, where the empty string counts as missing (`!base64Audio`). */
  function AudioPayload(response: Response): (r: Option<JsString>)
    ensures r.Some? ==> r.value != [] && InlineAudio(response) == r
    ensures r.None? ==> InlineAudio(response).None? || InlineAudio(response) == Some([])
  {
    match InlineAudio(response)
    case Some(d) => if d != [] then Some(d) else None
    case None => None
  }

  /** `response.candidates?.[0]?.finishReason`, when truthy. */
  function BlockReason(response: Response): (r: Option<JsString>)
    ensures r.Some? ==> r.value != []
  {
    match FirstCandidate(response)
    case Some(c) =>
      (match c.finishReason
       case Some(reason) => if reason != [] then Some(reason) else None
       case None => None)
    case None => None
  }

  /** The request `generateSpeech` sends: model, the one text part, and the prebuilt voice. */
  datatype SpeechRequest = SpeechRequest(model: JsString, text: JsString, voiceName: JsString)

  /** What the remote call settles to: a response, or a thrown error with its message. */
  datatype RemoteReply = Reply(response: Response) | Thrown(message: JsString)

  /** Why `generateSpeech` rejects. */
  datatype SpeechError =
    | ApiKeyMissing
    | TextTooShort
    | Blocked(reason: JsString)
    | NoAudioData
    | RemoteError(message: JsString)
    | InvalidBase64

  /** The message of the thrown `Error`. */
  function ErrorMessage(e: SpeechError): JsString
  {
    match e
    case ApiKeyMissing => Lit("API Key is missing.")
    case TextTooShort => Lit("Text is too short or empty after sanitization.")
    case Blocked(reason) => Lit("Gemini blocked generation. Reason: ") + reason
    case NoAudioData => Lit("No audio data received from Gemini.")
    case RemoteError(message) => message
    case InvalidBase64 => Lit("The string to be decoded is not correctly encoded.")
  }

  const SAMPLE_RATE: int := 24000
  const NUM_CHANNELS: int := 1

  /** The `try` block after the call: extract the audio, decode it and wrap it as WAV. */
  function ReadReply(reply: RemoteReply): (r: Result<seq<AudioService.Byte>, SpeechError>)
    ensures r.Failure? ==> r.error != ApiKeyMissing && r.error != TextTooShort
    ensures r.Success? ==> |r.value| >= 44 && r.value[0..4] == AudioService.RIFF_TAG
  {
    match reply
    case Thrown(message) => Failure(RemoteError(message))
    case Reply(response) =>
      match AudioPayload(response)
      case None =>
        (match BlockReason(response)
         case Some(reason) => Failure(Blocked(reason))
         case None => Failure(NoAudioData))
      case Some(base64Audio) =>
        match Base64.Atob(base64Audio)
        case None => Failure(InvalidBase64)
        case Some(binary) =>
          var pcm := AudioService.BinaryToBytes(binary);
          assert AudioService.WavFile(pcm, SAMPLE_RATE, NUM_CHANNELS)[0..4]
              == AudioService.WavHeader(|pcm|, SAMPLE_RATE, NUM_CHANNELS)[0..4];
          Success(AudioService.WavFile(pcm, SAMPLE_RATE, NUM_CHANNELS))
  }

  /** `generateSpeech(text, voiceName)`, with the key and the remote model as parameters. */
  function GenerateSpeech(
    apiKey: Option<JsString>, text: JsString, voiceName: JsString,
    remote: SpeechRequest -> RemoteReply): (r: Result<seq<AudioService.Byte>, SpeechError>)
    ensures r == Failure(ApiKeyMissing) <==> !HasApiKey(apiKey)
    ensures r == Failure(TextTooShort) <==> HasApiKey(apiKey) && |SanitizeText(text)| < 2
    ensures r.Success? ==> |r.value| >= 44 && r.value[0..4] == AudioService.RIFF_TAG
  {
    if !HasApiKey(apiKey) then Failure(ApiKeyMissing)
    else
      var cleanText := SanitizeText(text);
      if |cleanText| < 2 then Failure(TextTooShort)
      else ReadReply(remote(SpeechRequest(Constants.GEMINI_MODEL, cleanText, MapVoiceName(voiceName))))
  }

  /** A missing key is reported before anything else, whatever the text and the remote. */
  lemma MissingKeyFailsFirst(apiKey: Option<JsString>, text: JsString, voiceName: JsString,
                             remote: SpeechRequest -> RemoteReply)
    requires !HasApiKey(apiKey)
    ensures GenerateSpeech(apiKey, text, voiceName, remote) == Failure(ApiKeyMissing)
    ensures ErrorMessage(GenerateSpeech(apiKey, text, voiceName, remote).error) == Lit("API Key is missing.")
  {
  }

  /** With a key, text that sanitizes to fewer than 2 units fails without consulting the remote. */
  lemma ShortTextFailsBeforeCall(apiKey: Option<JsString>, text: JsString, voiceName: JsString,
                                 remote1: SpeechRequest -> RemoteReply, remote2: SpeechRequest -> RemoteReply)
    requires HasApiKey(apiKey) && |SanitizeText(text)| < 2
    ensures GenerateSpeech(apiKey, text, voiceName, remote1) == Failure(TextTooShort)
    ensures GenerateSpeech(apiKey, text, voiceName, remote2) == Failure(TextTooShort)
  {
  }

  /**
   * Past the checks, the outcome depends on the remote only through its reply
   * to one request: the configured model, the sanitized text and the
   * translated voice name.
   */
  lemma RequestSent(apiKey: Option<JsString>, text: JsString, voiceName: JsString,
                    remote: SpeechRequest -> RemoteReply)
    requires HasApiKey(apiKey) && |SanitizeText(text)| >= 2
    ensures var req := remote(SpeechRequest(Lit("gemini-2.5-flash-preview-tts"), SanitizeText(text), MapVoiceName(voiceName)));
            GenerateSpeech(apiKey, text, voiceName, remote) == ReadReply(req)
  {
  }

  /** A response without audio fails: with its finish reason when there is one. */
  lemma MissingAudioFails(response: Response)
    requires InlineAudio(response).None? || InlineAudio(response) == Some([])
    ensures BlockReason(response).Some? ==>
      ReadReply(Reply(response)) == Failure(Blocked(BlockReason(response).value))
    ensures BlockReason(response).None? ==> ReadReply(Reply(response)) == Failure(NoAudioData)
  {
  }

  /**
   * With decodable audio the result is a WAV file at 24000 Hz, mono, 16 bits,
   * whose samples are the decoded bytes.
   */
  lemma AudioBecomesWav(response: Response)
    requires AudioPayload(response).Some? && Base64.Atob(AudioPayload(response).value).Some?
    ensures var bytes := AudioService.BinaryToBytes(Base64.Atob(AudioPayload(response).value).value);
            var r := ReadReply(Reply(response));
            && r.Success?
            && AudioService.ParseWav(r.value).Some?
            && AudioService.ParseWav(r.value).value.sampleRate == 24000
            && AudioService.ParseWav(r.value).value.numChannels == 1
            && AudioService.ParseWav(r.value).value.bitsPerSample == 16
            && AudioService.ParseWav(r.value).value.data == bytes
  {
    var bytes := AudioService.BinaryToBytes(Base64.Atob(AudioPayload(response).value).value);
    AudioService.ParseWavFile(bytes, 24000, 1);
  }

  /** A response whose first candidate's first part carries `data` inline. */
  function AudioResponse(data: JsString): (r: Response)
    ensures InlineAudio(r) == Some(data)
  {
    Response(Some([Candidate(Some(Content(Some([Part(Some(InlineData(Some(data))))]))), None)]))
  }

  /**
   * End to end: if the remote answers with the base64 encoding of some PCM
   * bytes, `generateSpeech` yields those bytes behind a 24000 Hz mono header.
   */
  lemma SamplesSurvive(apiKey: Option<JsString>, text: JsString, voiceName: JsString,
                       remote: SpeechRequest -> RemoteReply, pcm: JsString)
    requires HasApiKey(apiKey) && |SanitizeText(text)| >= 2
    requires Base64.IsBinaryString(pcm) && pcm != []
    requires remote(SpeechRequest(Constants.GEMINI_MODEL, SanitizeText(text), MapVoiceName(voiceName)))
      == Reply(AudioResponse(Base64.Encode(pcm)))
    ensures GenerateSpeech(apiKey, text, voiceName, remote)
      == Success(AudioService.WavFile(AudioService.BinaryToBytes(pcm), 24000, 1))
  {
    var e := Base64.Encode(pcm);
    Base64.AtobEncode(pcm);
    Base64.EncodedLengthMod(|pcm|);
    assert |e| >= |pcm|;
    assert AudioPayload(AudioResponse(e)) == Some(e);
  }
}
