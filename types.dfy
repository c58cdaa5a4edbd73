/** The records of the reader: books, their text chunks, settings and voices. */
module Types {
  import opened JsStrings
  import opened Wrappers

  type BookId = JsString

  /** One unit of text; the audio pipeline synthesizes one chunk per request. */
  datatype TextChunk = TextChunk(id: nat, text: JsString, isHeading: bool)

  /** A stored book. `bookmarks` is optional in the stored record. */
  datatype Book = Book(
    id: BookId,
    title: JsString,
    content: JsString,
    chunks: seq<TextChunk>,
    lastPosition: int,
    bookmarks: Option<seq<int>>,
    createdAt: int)

  datatype AppState = Library | Reading

  /** The six voices the settings offer. */
  datatype VoiceOption = Pepe | Fefe | Carlito | Margarita | Anastasia | Juana

  /** The string value of each enum member, as passed to the speech service. */
  function VoiceKey(v: VoiceOption): JsString
  {
    match v
    case Pepe => Lit("voice_pepe")
    case Fefe => Lit("voice_fefe")
    case Carlito => Lit("voice_carlito")
    case Margarita => Lit("voice_margarita")
    case Anastasia => Lit("voice_anastasia")
    case Juana => Lit("voice_juana")
  }

  datatype FontFamily = Sans | Serif | Mono | Display | Lora

  datatype AmbienceType = NoAmbience | Rain | Cafe | Nature | Fire

  datatype Settings = Settings(
    voice: VoiceOption,
    speed: real,
    fontFamily: FontFamily,
    fontSize: int,
    pitch: int,
    ambience: AmbienceType,
    ambienceVolume: real)

  const DEFAULT_SETTINGS: Settings := Settings(Margarita, 1.0, Sans, 14, 0, NoAmbience, 0.1)
}
