/** Configuration constants of the reader. */
module Constants {
  import opened JsStrings
  import opened Types

  /** The text-to-speech model requested from the speech service. */
  const GEMINI_MODEL: JsString := Lit("gemini-2.5-flash-preview-tts")

  /** The chunk size the library passes to the chunker. */
  const MAX_CHUNK_LENGTH: int := 800

  /** The speech service's prebuilt voice behind each of the app's voices. */
  function GeminiVoice(v: VoiceOption): JsString
  {
    match v
    case Pepe => Lit("Fenrir")
    case Fefe => Lit("Charon")
    case Carlito => Lit("Puck")
    case Margarita => Lit("Kore")
    case Anastasia => Lit("Zephyr")
    case Juana => Lit("Kore")
  }
}
