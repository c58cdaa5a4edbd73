# AuraVox Reader — a verified model of its reading core

AuraVox Reader is a browser audiobook reader. The user imports a PDF, the
text is cut into chunks of about 800 characters (a single sentence longer
than that, or a paragraph without `.`, `!` or `?`, becomes one longer chunk,
and the blank lines joining paragraphs are not counted), and each chunk is
read aloud by a speech-synthesis service. The reading view keeps a cache of
synthesized chunk audio, prefetches the next two chunks, and throws away
stale audio when the voice or the book changes.

This project models that core in Dafny and proves what each part promises.
The modules are:

- `JsStrings`: JavaScript strings as sequences of UTF-16 code units, with
  `trim`, ASCII lower-casing and the character classes the regular
  expressions use.
- `Types` and `Constants`: `Book`, `TextChunk`, `Settings`, `VoiceOption`,
  the model name, `MAX_CHUNK_LENGTH = 800` and the voice map.
- `Base64`: the browser's `atob`, the forgiving-base64 decoding of the WHATWG
  HTML standard (alphabet of section 4 of RFC 4648). It comes with an encoder
  as its partner and a round-trip proof.
- `AudioService`:
  - `pcmToWav` is a method that fills a 44-byte header array through
    little-endian setters.
  - `writeString` and `base64ToUint8Array` are byte loops over arrays.
  - A WAV header parser is the partner of the serializer.
- `GeminiService`: `sanitizeText`, the API-key and length checks, the voice
  mapping, and reading the audio out of the response. The remote
  `generateContent` call is a function parameter.
- `PdfService`:
  - The page-item filter and the line-join loop of `extractTextFromPdf`,
    over the text items of each page.
  - `chunkText`, a method with loops over paragraphs and sentences, proved
    equal to a fold over the paragraphs. For every text and limit, the
    chunks keep the visible text of the kept paragraphs in order. The one
    loss is the `.`, `!` or `?` units that open an oversized paragraph.
- `Sidebar`: the chapter list and the rule for which chapter is highlighted.
- `App`, `AppInvariant`, `AppProperties`: the reading view of `App.tsx`.
  - Pure parts: the bookmark toggle and the search.
  - The segment-audio pipeline, as a sequential state machine. Every `await`
    ends an event, and its continuation is a later event.
  - `App` gives one function per event over the whole state.
  - `AppInvariant` proves an invariant that every event preserves. It says:
    pending entries point to unsettled requests for their own index; cached
    URLs were made and not revoked; results and suspended continuations refer
    to existing requests and URLs.
  - `AppProperties` proves what each event does.
- `ReaderView`: the class `Reader`. Its fields are the component's state
  hooks and refs. Each method is proved to perform the matching `App`
  function. The top-level event methods also keep the invariant.

Blob URLs are numbered handles. A counter mints new ones, and a `revoked`
set records `URL.revokeObjectURL`, so "every cached URL is released" can be
stated. The `Date.now()` token is a parameter `now` of each loader run. The
model reproduces the code's own behaviour where it is surprising:

- two loads in the same millisecond share a token;
- the cache write checks the book and not the voice;
- `finally` deletes by index;
- the prefetch reads the `audioUrl` of the render that started it;
- the position is saved even for a superseded load;
- a missing chunk leaves the loading flag set.

Each of these is stated as its own lemma.

## Model

| member | source | states |
|---|---|---|
| JsStrings.Trim | App.tsx:218 | the result has no leading or trailing whitespace, is no longer than the input, and is empty exactly when the input is blank |
| JsStrings.TrimIdempotent | services/geminiService.ts:16 | trimming twice gives the same string as trimming once |
| JsStrings.LetterSurvivesTrim | services/pdfService.ts:77-79 | a string holding an ASCII letter does not trim to the empty string |
| JsStrings.ToLowerAscii | App.tsx:224 | same length; each code unit in 'A'..'Z' is moved to 'a'..'z' and every other unit is kept |
| JsStrings.ConcatAppend | services/pdfService.ts:54 | concatenating a list of strings distributes over appending lists |
| Base64.Sextets | services/audioService.ts:46 | every character maps into the 64-letter alphabet or decoding fails; the values are in 0..63 |
| Base64.Atob | services/audioService.ts:46 | a successful decode yields a binary string: every code unit is below 256 |
| Base64.EncodeSextets | services/audioService.ts:46 | the encoder partner yields valid sextets, 4 for every 3 bytes, plus 2 or 3 for a tail of 1 or 2 bytes |
| Base64.EncodedLengthMod | services/audioService.ts:46 | the encoded length is at least the input length, and its remainder mod 4 is never 1 |
| Base64.DecodeEncodeSextets | services/audioService.ts:46 | decoding the sextets of any binary string gives back that string |
| Base64.AtobEncode | services/audioService.ts:46 | `atob` of the padded encoding of any binary string returns that string |
| AudioService.ReadLE16OfLE16 | services/audioService.ts:22-23 | reading back a little-endian u16 gives the value mod 2^16 |
| AudioService.ReadLE32OfLE32 | services/audioService.ts:16 | reading back a little-endian u32 gives the value mod 2^32 |
| AudioService.AsciiBytes | services/audioService.ts:36-40 | one byte per code unit, equal to the code unit mod 256 |
| AudioService.WavHeader | services/audioService.ts:10-31 | 44 bytes: `RIFF` at 0, `WAVE` at 8, `fmt ` at 12, `data` at 36, LE32(36+len) at 4, LE32(len) at 40 |
| AudioService.WavFile | services/audioService.ts:33 | the file is 44 header bytes followed by the PCM bytes unchanged |
| AudioService.ParseWavFile | services/audioService.ts:15-31 | parsing the file gives back the tags and, each modulo its width, the sizes 36+len and len, Subchunk1Size 16, AudioFormat 1, the channels, the sample rate, ByteRate rate·channels·2, BlockAlign channels·2 and 16 bits per sample, and the PCM data |
| AudioService.WriteString | services/audioService.ts:36-40 | the array after the loop holds the ASCII bytes of the string at the offset, and every other byte is unchanged |
| AudioService.SetUint16 | services/audioService.ts:22-23 | the two bytes at the offset become LE16 of the value, and nothing else changes |
| AudioService.SetUint32 | services/audioService.ts:16 | the four bytes at the offset become LE32 of the value, and nothing else changes |
| AudioService.WriteRiffDescriptor | services/audioService.ts:15-17 | bytes 0..11 become `RIFF`, LE32(36+len), `WAVE`, and the rest is unchanged |
| AudioService.WriteFmtChunk | services/audioService.ts:20-27 | bytes 12..35 become the fmt sub-chunk fields, and the rest is unchanged |
| AudioService.WriteDataHeader | services/audioService.ts:30-31 | bytes 36..43 become `data`, LE32(len), and the rest is unchanged |
| AudioService.PcmToWav | services/audioService.ts:5-34 | the blob is exactly the WAV file of the PCM bytes |
| AudioService.BinaryToBytes | services/audioService.ts:47-51 | one byte per code unit, equal to its char code mod 256 |
| AudioService.Base64ToUint8Array | services/audioService.ts:45-53 | fails exactly when `atob` fails; otherwise the filled array holds byte i = char code i mod 256 of the decoded string |
| GeminiService.RemoveControls | services/geminiService.ts:15 | nothing in 0x00-0x1F or 0x7F-0x9F remains, and the result is no longer than the input |
| GeminiService.RemoveControlsAppend | services/geminiService.ts:15 | the removal works unit by unit: it distributes over concatenation |
| GeminiService.RemoveControlsOfClean | services/geminiService.ts:15 | a string with no control unit is kept as it is, in order |
| GeminiService.SanitizeText | services/geminiService.ts:13-17 | the result has no control unit and is trimmed |
| GeminiService.SanitizeIdempotent | services/geminiService.ts:13-17 | sanitizing twice gives the same text as sanitizing once |
| GeminiService.VoiceNamed | services/geminiService.ts:36 | finds the voice option whose key is the name, and finds none exactly when no option has that key |
| GeminiService.VoiceNamedKey | services/geminiService.ts:36 | the key of every voice option names that option |
| GeminiService.MapVoiceName | services/geminiService.ts:36 | an internal voice's key maps through the voice map; any other name passes through unchanged (inherited object keys aside, see "Left out") |
| GeminiService.MapVoiceNameNotInjective | constants.ts:26-28 | Margarita and Juana have different keys but both map to `Kore` |
| GeminiService.AudioPayload | services/geminiService.ts:55-57 | a payload is the non-empty inline data of the first candidate; none means the data is missing or empty |
| GeminiService.BlockReason | services/geminiService.ts:60-61 | a block reason is a non-empty finish reason |
| GeminiService.MissingKeyFailsFirst | services/geminiService.ts:24-26 | without a key, every text and remote fails with "API Key is missing." |
| GeminiService.ShortTextFailsBeforeCall | services/geminiService.ts:28-33 | sanitized text shorter than 2 fails the same way whatever the remote answers, so the remote is not consulted |
| GeminiService.RequestSent | services/geminiService.ts:36-53 | otherwise the remote is called once with the model name, the sanitized text and the mapped voice, and the result depends only on its reply (a thrown error is passed on) |
| GeminiService.MissingAudioFails | services/geminiService.ts:57-66 | a response without audio fails with the block reason if there is one, otherwise with "no audio data" |
| GeminiService.ReadReply | services/geminiService.ts:55-69 | reading a reply never fails with the key or text-length errors, and a success is a WAV file: at least 44 bytes, starting with `RIFF` |
| GeminiService.AudioBecomesWav | services/geminiService.ts:68-69 | a decodable payload yields the WAV file of its bytes at 24000 Hz, mono |
| GeminiService.AudioResponse | services/geminiService.ts:55 | builds a response whose inline audio is the given data |
| GeminiService.SamplesSurvive | services/geminiService.ts:24-69 | with a key, long enough text and a remote that returns encoded PCM, the result is the WAV file of exactly that PCM |
| GeminiService.GenerateSpeech | services/geminiService.ts:20-80 | it fails with "API Key is missing." exactly when there is no key, with the short-text error exactly when there is a key and the sanitized text is shorter than 2, and a success is a WAV file starting with `RIFF` |
| PdfService.FindPageMarkerCorrect | services/pdfService.ts:30 | the search returns the first position from which `page` in any case, a space and a digit follow, and none when there is no such position |
| PdfService.PageMarkerSearch | services/pdfService.ts:30 | the search succeeds exactly when the item contains a page marker |
| PdfService.KeepItemMeaning | services/pdfService.ts:24-32 | an item is kept exactly when it is not blank, its trimmed form is not 1 to 5 digits, and it contains no page marker |
| PdfService.ShortNumberBoundary | services/pdfService.ts:28 | "12345" is dropped and "123456" is kept |
| PdfService.FilterItems | services/pdfService.ts:24-32 | every kept item passes the filter |
| PdfService.FilterItemsMembers | services/pdfService.ts:24-32 | an item is in the output exactly when it is in the input and passes the filter |
| PdfService.FilterItemsAppend | services/pdfService.ts:24-32 | the filter keeps order: it distributes over concatenation |
| PdfService.JoinLine | services/pdfService.ts:37-46 | one line only appends to the page text, by at most a paragraph break and the line |
| PdfService.JoinLinesVisible | services/pdfService.ts:36-47 | joining loses no visible character: the page's non-whitespace text is that of each line, with only the final hyphen of a hyphen-ended line removed |
| PdfService.JoinPageLines | services/pdfService.ts:35-47 | the line loop returns the joined page text |
| PdfService.PageText | services/pdfService.ts:21-47 | a page's text is the join of its filtered items |
| PdfService.ExtractText | services/pdfService.ts:14-54 | the page loop returns the page texts in page order, joined by one newline |
| PdfService.NormalizeOnlyDropsCR | services/pdfService.ts:63 | normalisation only removes carriage returns |
| PdfService.NormalizeWithoutCR | services/pdfService.ts:63 | text without a carriage return is unchanged |
| PdfService.SplitParagraphsFrom | services/pdfService.ts:65 | the split from any position always yields at least one piece |
| PdfService.SplitWithoutLF | services/pdfService.ts:65 | text without a line feed is one paragraph |
| PdfService.RawParagraphs | services/pdfService.ts:65 | the split yields at least one paragraph, no paragraph holds a line feed, whitespace and a line feed in a row, and the paragraphs together hold every non-whitespace character of the text in order |
| PdfService.BlankLineDetected | services/pdfService.ts:65 | every line feed followed by whitespace and another line feed is found as a match where it starts |
| PdfService.SeparatorBlank | services/pdfService.ts:65 | what a match removes is whitespace only |
| PdfService.CollapseWhitespace | services/pdfService.ts:74 | every whitespace character left is a space |
| PdfService.CollapseSingleSpaces | services/pdfService.ts:74 | no two whitespace characters of the result are adjacent, and a trailing whitespace run ends the result in a space |
| PdfService.VisibleCollapse | services/pdfService.ts:74 | collapsing whitespace keeps every visible character in order |
| PdfService.CleanParagraph | services/pdfService.ts:74 | a cleaned paragraph is trimmed and holds no line feed |
| PdfService.OtherRunEnd | services/pdfService.ts:91 | the run `[^.!?]+` ends at the first sentence end |
| PdfService.SentencesCover | services/pdfService.ts:91 | from a position that is not `.`, `!` or `?`, the sentence pieces concatenate back to the rest of the paragraph |
| PdfService.Sentences | services/pdfService.ts:91 | there is at least one piece, and the pieces concatenate back to the paragraph without the `.`, `!` or `?` units it starts with, which no match covers (a paragraph of such units only is kept whole) |
| PdfService.AddSentence | services/pdfService.ts:93-98 | one sentence keeps the chunks so far and pushes exactly one more exactly when it does not fit beside the buffer (what it puts in the buffer and the chunk: AddSentenceHeld, RunsPush, RunsJoin) |
| PdfService.SentencesOfCleanNotBlank | services/pdfService.ts:91 | no sentence piece of a cleaned paragraph is blank |
| PdfService.AddSentencesLoop | services/pdfService.ts:92-99 | the sentence loop leaves the chunks, id and buffer of the sentence fold |
| PdfService.AddParagraphStep | services/pdfService.ts:74-106 | one pass of the paragraph loop leaves the state of the paragraph fold |
| PdfService.ChunkText | services/pdfService.ts:61-115 | the method returns exactly the chunks of the fold specification |
| PdfService.ChunksOf | services/pdfService.ts:61-115 | chunk ids are 0, 1, 2, ... in output order, every chunk text is trimmed, and no chunk is a heading |
| PdfService.ChunksEmptyIff | services/pdfService.ts:73-112 | no chunk is returned exactly when no paragraph survives cleaning with 2 or more characters and an ASCII letter |
| PdfService.AddParagraph | services/pdfService.ts:82-105 | chunks are only appended, and a new chunk is pushed only when buffer length plus paragraph length exceeds the limit |
| PdfService.ChunksKeepParagraphs | services/pdfService.ts:73-112 | when every kept paragraph fits, splitting the chunk texts on blank lines gives exactly the kept cleaned paragraphs in order |
| PdfService.SplitJoined | services/pdfService.ts:105 | splitting a buffer joined with a paragraph break undoes the join |
| PdfService.SeparatorNotCountedExample | services/pdfService.ts:82-105 | "ab" and "cd" with limit 4 give one chunk of 6 characters: the separator is not counted |
| PdfService.OversizedSentenceExample | services/pdfService.ts:90-98 | a sentence longer than the limit with an empty buffer first pushes an empty chunk |
| PdfService.SentencesStartEmpty | services/pdfService.ts:92-95 | for any state with an empty buffer and any sentences whose first is over the limit, the next chunk pushed has the next id and empty text |
| PdfService.OversizedFirstSentence | services/pdfService.ts:82-98 | an oversized paragraph whose first sentence alone is over the limit adds a chunk with empty text right after the flushed buffer |
| PdfService.AddSentenceHeld | services/pdfService.ts:93-98 | one sentence, pushed after the trimmed buffer or appended to the buffer after a space, adds exactly its visible text to what the chunks and the buffer hold |
| PdfService.AddSentencesHeld | services/pdfService.ts:92-99 | for every state, sentence list and limit, the chunks pushed and the buffer gain the visible text of the concatenated sentences, in order |
| PdfService.RunsPush | services/pdfService.ts:93-95 | a sentence that does not fit pushes the trimmed buffer, itself a run of consecutive sentences, and the sentence alone becomes the buffer |
| PdfService.RunsJoin | services/pdfService.ts:96-97 | a sentence that fits is appended to the buffer after one space, so the buffer stays a run ending at that sentence |
| PdfService.AddSentencesRuns | services/pdfService.ts:92-99 | for every state and non-empty sentences: with no push the buffer is its own text and all sentences joined by `" "`; otherwise the first chunk pushed holds the buffer's text and the first sentences, every later chunk a run of consecutive sentences, and the buffer the sentences after the last push, each joined by `" "` |
| PdfService.AddParagraphHeld | services/pdfService.ts:82-105 | a kept paragraph adds its visible text to what the chunker holds; an oversized one, split into sentences, loses only the sentence ends it starts with |
| PdfService.OversizedRuns | services/pdfService.ts:82-99 | a cleaned paragraph over the limit flushes the buffer and is cut into runs of consecutive sentences joined by `" "`: each chunk it pushes is one run, trimmed, and the buffer it leaves is the last run |
| PdfService.ChunksSayText | services/pdfService.ts:61-114 | for every text and limit, the chunks' visible text is that of the kept, cleaned paragraphs in order, an oversized paragraph without its leading sentence ends |
| PdfService.FinishPushes | services/pdfService.ts:110-112 | a non-blank final buffer is pushed, trimmed, with the next id |
| Sidebar.Chapters | components/Sidebar.tsx:14 | every listed chunk is a heading |
| Sidebar.ChaptersMembers | components/Sidebar.tsx:14 | a chunk is listed exactly when it is a heading chunk of the book |
| Sidebar.ChaptersAppend | components/Sidebar.tsx:14 | the filter keeps order: it distributes over concatenation |
| Sidebar.ChaptersIncreasing | components/Sidebar.tsx:14 | increasing chunk ids give increasing chapter ids |
| Sidebar.FirstIdAboveFound | components/Sidebar.tsx:46 | `find` returns the id of the first chapter above the id, or nothing when none is |
| Sidebar.FirstAboveBound | components/Sidebar.tsx:46 | the bound `find` gives is above the current index exactly when the first chapter with a greater id starts after it |
| Sidebar.IsActive | components/Sidebar.tsx:45-46 | a chapter is active exactly when the current index is at or after it and before the first chapter whose id is greater |
| Sidebar.ActiveRange | components/Sidebar.tsx:45-46 | with increasing ids, chapter k is active exactly when current is in [its id, next chapter's id) |
| Sidebar.ActiveBelowLater | components/Sidebar.tsx:45-46 | an active chapter's range ends before every later chapter starts |
| Sidebar.AtMostOneActive | components/Sidebar.tsx:45-46 | with increasing ids, two active chapters are the same chapter |
| Sidebar.SomeActive | components/Sidebar.tsx:45-46 | with increasing ids, some chapter is active once current reaches the first id |
| Sidebar.NoneActiveBeforeFirst | components/Sidebar.tsx:45 | below the first chapter's id no chapter is active |
| App.RemoveAllMembers | App.tsx:243 | the filter keeps exactly the bookmarks other than the index |
| App.ToggledBookmarks | App.tsx:239-246 | the toggle flips membership of exactly the index (a missing list read as empty) and keeps every other bookmark |
| App.ToggleKeepsOthers | App.tsx:243-245 | apart from the index, the bookmark list is unchanged in order |
| App.ToggleTwice | App.tsx:239-246 | adding an absent index and toggling it again restores the list |
| App.ToggleTwicePresent | App.tsx:239-246 | removing a present index and toggling it again gives the list without it, with the index moved to the end |
| App.IndexOfFrom | App.tsx:225 | `indexOf` returns the first occurrence at or after the start, and none when there is none |
| App.SnippetHoldsMatch | App.tsx:226-228 | the snippet reaches at most 20 characters each side of the match and contains the matched text of the chunk at its offset |
| App.MatchChunk | App.tsx:224-230 | a chunk gives a result for its own index, and none exactly when its lower-cased text does not contain the lower-cased query anywhere |
| App.SearchChunks | App.tsx:223-232 | there are at most as many results as chunks, each pointing at an existing chunk |
| App.Search | App.tsx:216-235 | a blank query or no open book gives no result; otherwise every result points at a chunk of the book |
| App.SearchChunksOrdered | App.tsx:223-232 | results are in ascending chunk order, one per chunk at most |
| App.SearchChunksSound | App.tsx:223-232 | each result is the match of its own chunk |
| App.SearchChunksComplete | App.tsx:223-232 | every chunk containing the query has a result |
| App.SearchChunksExact | App.tsx:223-232 | a chunk has a result exactly when its lower-cased text contains the lower-cased query, and the result carries that chunk's snippet |
| App.SearchFinds | App.tsx:216-235 | the search of an open book is ascending and finds exactly the matching chunks |
| App.Fetch | App.tsx:261-288 | a fetch changes only the request log, to which it appends at most one request, and the pending map |
| App.Settle | App.tsx:268-286 | a settlement changes only the cache, the URL accounting, the results and the pending map; it records exactly its own result, never un-revokes a URL, and makes at most one URL |
| App.Invalidated | App.tsx:152-154 | both maps are emptied and the revoked URLs become the old ones plus exactly the cached ones; nothing else changes |
| App.SelectBook | App.tsx:162-175 | the book opens at its saved position in the reading view and becomes active; only the URLs, the cache, the pending map and the revoked set may change besides, the revoked set only grows and the cache only loses entries |
| App.BeginSettingsUpdate | App.tsx:147-150 | the settings are applied and saved once, one continuation is added under a fresh key, and nothing else changes |
| App.ManualJump | App.tsx:364-368 | the index moves and the jump and loading flags are set; of the loader's dependencies only the index changes |
| App.NextChunk | App.tsx:370-374 | only the index may change, and only to the next index of a chunk of the open book |
| App.PrevChunk | App.tsx:376-380 | only the index and the two flags may change; the index stays or goes back by one to at least 0 as a manual jump |
| App.ToggleBookmark | App.tsx:237-251 | with no book nothing changes; otherwise only the bookmarks of the current book change, the updated book is saved once, and the loader's dependencies stay the same |
| App.LoaderEffect | App.tsx:293-362 | a loader run records its dependencies and the time, leaves its own dependencies as they were, only appends requests, and settles no request, makes no URL and revokes none |
| App.LoadBegin | App.tsx:300-324 | the load takes the current time as the latest token, keeps the loader's dependencies, only appends requests, and settles, makes and revokes nothing |
| App.PrefetchNext | App.tsx:334-341 | the prefetch changes only the request log, which it only appends to, the pending map and the continuations |
| App.PrefetchAfterNext | App.tsx:343-346 | the background prefetch changes only the request log, which it only appends to, and the pending map |
| App.Complete | App.tsx:326-350 | completion, current or stale, saves the position once; it keeps the token, the loader's dependencies, the cache and the active book, only appends requests, and settles, makes and revokes nothing |
| App.Resume | App.tsx:323-350 | a continuation (the load continuation and the prefetch's `.then` here, and the settings continuation at App.tsx:150-157) keeps the token, the loader's record and the active book, only appends requests, settles and makes nothing, and never un-revokes a URL |
| AppInvariant.InitValid | App.tsx:19-57 | the initial state satisfies the invariant |
| AppInvariant.FetchValid | App.tsx:261-288 | a fetch keeps the invariant, and its answer refers to a URL that was made or to an existing request |
| AppInvariant.SettleValid | App.tsx:268-286 | a settlement, on success or failure, keeps the invariant |
| AppInvariant.InvalidatedValid | App.tsx:152-154 | revoking and clearing the cache keeps the invariant |
| AppInvariant.SelectBookValid | App.tsx:162-175 | selecting a book keeps the invariant |
| AppInvariant.BeginSettingsUpdateValid | App.tsx:147-150 | saving settings and waiting keeps the invariant |
| AppInvariant.LoadBeginValid | App.tsx:293-324 | beginning a load keeps the invariant |
| AppInvariant.CompleteValid | App.tsx:326-350 | completing a load, current or stale, keeps the invariant |
| AppInvariant.PrefetchNextValid | App.tsx:334-341 | the prefetch of the next chunk keeps the invariant |
| AppInvariant.PrefetchAfterNextValid | App.tsx:343-346 | the prefetch of the chunk after it keeps the invariant |
| AppInvariant.LoaderEffectValid | App.tsx:293-362 | a loader run keeps the invariant |
| AppInvariant.ResumeValid | App.tsx:150-157 | running any ready continuation keeps the invariant |
| AppProperties.FetchHit | App.tsx:262 | a cached index answers with the stored URL and changes nothing |
| AppProperties.FetchJoined | App.tsx:264-266 | a pending index answers with the request under way and changes nothing |
| AppProperties.FetchStarted | App.tsx:268-288 | a true miss starts exactly one request, for that index, and registers exactly that one pending entry |
| AppProperties.FetchStartsOnlyOnMiss | App.tsx:261-288 | a request starts exactly when the index is neither cached nor pending; otherwise the state is unchanged |
| AppProperties.FetchTwice | App.tsx:264-266 | fetching an index again, whatever the text, voice or book, joins the first request and starts nothing |
| AppProperties.FetchAnswersLive | App.tsx:262-266 | under the invariant a hit is an unrevoked URL and a join waits on an unsettled request |
| AppProperties.SettleReleasesIndex | App.tsx:283-285 | a settlement removes the pending entry of its own index and no other, and records its result |
| AppProperties.SettlePending | App.tsx:283-285 | the new pending map is the old one without the request's index |
| AppProperties.SettleFailed | App.tsx:280-282 | a failure resolves with null and writes neither the cache nor a URL |
| AppProperties.SettleCached | App.tsx:273-276 | a success for the still-active book caches a fresh URL at the request's index and resolves with it |
| AppProperties.SettleRevoked | App.tsx:273-279 | a success for another book revokes the fresh URL at once and resolves with null |
| AppProperties.InvalidatedReleasesAll | App.tsx:152-154 | invalidation revokes every cached URL and empties the cache and the pending map |
| AppProperties.SelectOtherBook | App.tsx:163-170 | selecting another book clears both URLs, releases all audio and makes that book active |
| AppProperties.SelectSameBook | App.tsx:163 | re-selecting the active book keeps its cache and pending map |
| AppProperties.SelectOpens | App.tsx:171-174 | either way the book opens at its saved position in the reading view |
| AppProperties.SettingsUpdateSaves | App.tsx:147-150 | new settings are applied and saved, and the voice check waits for the save |
| AppProperties.SettingsSavedEffect | App.tsx:150-157 | after the save, a changed voice invalidates the audio and, with a book open, jumps to the render's index; an unchanged voice changes nothing |
| AppProperties.LoadBeginMiss | App.tsx:303-324 | a miss shows loading under any navigation, blanks both URLs after a manual jump, and leaves the chunk pending with the load waiting on it |
| AppProperties.LoadBeginHit | App.tsx:303-320 | a hit completes at once: the cached URL is shown and loading is off |
| AppProperties.LoadBeginMissingChunk | App.tsx:310-311 | a missing chunk ends the load before the save, and a manual jump's loading flag stays set |
| AppProperties.LoaderEffectIdle | App.tsx:294 | outside the reading view or without a book, the loader only records its run |
| AppProperties.LoaderEffectLoads | App.tsx:294-301 | otherwise it begins a load whose token is the current time |
| AppProperties.LoadBeginToken | App.tsx:300-301 | every load takes the time it began as its token |
| AppProperties.FetchSameView | App.tsx:261-288 | a fetch changes nothing the reader sees or that is saved |
| AppProperties.PrefetchSameView | App.tsx:334-346 | the prefetches change nothing the reader sees or that is saved |
| AppProperties.FetchKeepsEntries | App.tsx:261-288 | fetching never drops a cached or pending index |
| AppProperties.FetchLeavesEntry | App.tsx:261-288 | after a fetch the index is cached or pending |
| AppProperties.PrefetchNextRequests | App.tsx:334-341 | the next-chunk prefetch only requests chunk index+1 of the book, and only if it exists |
| AppProperties.PrefetchAfterNextRequests | App.tsx:343-346 | the background prefetch only requests chunk index+2, and only if it exists |
| AppProperties.PrefetchEntries | App.tsx:334-346 | both prefetches leave each existing chunk they cover cached or pending |
| AppProperties.CompleteCurrent | App.tsx:326-350 | under the latest token a load shows its URL, clears loading and the jump flag, prefetches the next two existing chunks and saves the position |
| AppProperties.CompleteStale | App.tsx:326-350 | a superseded load changes nothing except saving its position |
| AppProperties.OfferNextTaken | App.tsx:335-338 | the prefetched URL becomes the next URL exactly when the token is still latest, the prefetch gave a URL, and the starting render had no audio URL |
| AppProperties.NextChunkBounded | App.tsx:370-374 | next advances by one below the last chunk, never past it, and is not a manual jump |
| AppProperties.PrevChunkBounded | App.tsx:376-380 | prev goes back by one as a manual jump above 0, and does nothing at 0 |
| AppProperties.ManualJumpMarks | App.tsx:364-368 | a manual jump moves to the index, marks the jump, shows loading and touches no audio |
| AppProperties.ToggleBookmarkSaves | App.tsx:237-251 | the toggle flips exactly that index in the current book and saves the updated book |
| AppProperties.SameMillisecondShares | App.tsx:300-301 | two loads begun in the same millisecond share a token, so the first still shows its URL after the chunk has moved on |
| AppProperties.OldVoiceRefillsCache | App.tsx:273-274 | a request started with the old voice that settles after a voice change refills the cache with old-voice audio |
| AppProperties.StaleFinallyDropsNewer | App.tsx:283-285 | a stale settlement deletes a newer request's pending entry, so the chunk can be requested again while that request runs |
| AppProperties.LoadSeesRenderUrl | App.tsx:303-308 | after a manual jump the load blanks the URL, but its prefetch keeps the render's earlier audio URL |
| ReaderView.Reader.constructor | App.tsx:19-57 | the reader starts in the library with empty caches and default settings, and satisfies the invariant |
| ReaderView.Reader.FetchChunkAudio | App.tsx:261-288 | the method answers and updates the maps as the fetch function does |
| ReaderView.Reader.SettleRequest | App.tsx:268-286 | the method performs a settlement and keeps the invariant |
| ReaderView.Reader.Invalidate | App.tsx:152-154 | the method revokes the cached URLs and clears both maps |
| ReaderView.Reader.HandleBookSelect | App.tsx:162-175 | the method performs book selection and keeps the invariant |
| ReaderView.Reader.UpdateSettings | App.tsx:147-150 | the method saves the settings, suspends the voice check, and keeps the invariant |
| ReaderView.Reader.HandleManualJump | App.tsx:364-368 | the method performs a manual jump and keeps the invariant |
| ReaderView.Reader.Next | App.tsx:370-374 | the method performs `nextChunk` and keeps the invariant |
| ReaderView.Reader.Prev | App.tsx:376-380 | the method performs `prevChunk` and keeps the invariant |
| ReaderView.Reader.ToggleBookmarkAt | App.tsx:237-251 | the method toggles the bookmark, saves the book and keeps the invariant |
| ReaderView.Reader.Suspend | App.tsx:322-323 | the method stores a continuation under a fresh key |
| ReaderView.Reader.RunLoaderEffect | App.tsx:293-362 | the method performs a loader run and keeps the invariant |
| ReaderView.Reader.Load | App.tsx:300-324 | the method performs the start of `load()` |
| ReaderView.Reader.PrefetchNextChunk | App.tsx:334-341 | the method performs the next-chunk prefetch |
| ReaderView.Reader.PrefetchAfterNextChunk | App.tsx:343-346 | the method performs the background prefetch |
| ReaderView.Reader.Finish | App.tsx:326-350 | the method performs the rest of `load()` once the URL is known |
| ReaderView.Reader.Continue | App.tsx:323-350 | the method runs a ready continuation (a load, a prefetch's `.then`, or the settings continuation at App.tsx:150-157) and keeps the invariant |
| ReaderView.Reader.ResumeWaiter | App.tsx:322-350 | the method runs a ready continuation |

## Left out

- Rendering, the loading-bar timer animation (App.tsx:74-93), text selection and `downloadSelection` (App.tsx:95-145), scroll tracking (App.tsx:196-214), `scrollIntoView` and the clipboard: DOM, floating point and timers.
- `getReadingStats` (App.tsx:383-404): floating-point speed and `ceil`.
- The initial load of books and settings (App.tsx:60-72) and deleting a book (App.tsx:177-186): storage I/O outside the reading pipeline. Writes to storage are modelled as appends to `savedBooks` and `savedSettings`. A failing `saveSettings` is not modelled.
- Going back to the library (App.tsx:188-194) is not an event of the model. It revokes `audioUrl` (App.tsx:189), which is normally still in `audioCache`, and it leaves the cache as it is. Selecting the same book again keeps the cache (App.tsx:163), so the loader's hit path (App.tsx:315-316) can then serve a revoked URL. The invariant part `CacheOk` (no cached URL is revoked) and AppProperties.FetchAnswersLive (a hit is an unrevoked URL) hold only because this event is left out.
- The Player, Visualizer, Library and modal components, and the IndexedDB service: device and storage I/O.
- `generateContent` is a function parameter. Logging the error body (services/geminiService.ts:71-80) only rethrows, so it is not modelled.
- `Blob`, `URL.createObjectURL` and `revokeObjectURL` are numbered handles and a `revoked` set. The `forEach` revoke loops are one set union.
- pdf.js and `file.arrayBuffer()`: each page is given as its list of text items. The yield every fifth page (services/pdfService.ts:51) is timing only.
- `\s` and `trim` use the full ECMAScript WhiteSpace and LineTerminator set. `\d`, `[a-zA-Z]` and the lower-casing are ASCII only, as the regular expressions' `\d` and `[a-zA-Z]` are. `toLowerCase` on non-ASCII letters is not modelled.
- React's batching of state updates. Each handler is modelled as seeing the state after every earlier update has been rendered, while in the component a handler reads the closure of its render.
- App.NextChunk: `nextChunk` checks the render's `currentChunkIndex` but increments with `prev => prev + 1` (App.tsx:371-372). Two calls in one render, starting from the second-to-last chunk, reach one past the last chunk. The model re-checks the updated index, so AppProperties.NextChunkBounded holds only under the assumption above.
- App.ToggleBookmark: two toggles in one render both start from the render's `currentBook` (App.tsx:239-249), so the second overwrites the first. The model applies both.
- Real concurrency. Each `await` ends an event, and any order of continuations can be driven through `Continue` and `SettleRequest`.
- ReaderView.Reader.FetchChunkAudio, Invalidate, Suspend, Load, PrefetchNextChunk, PrefetchAfterNextChunk, Finish, ResumeWaiter: these internal steps state their new state and do not restate the invariant. The top-level event methods that call them do.
- Sidebar.IsActive: the `|| Infinity` fallback also replaces a found id of 0. A found id is above another chapter's id, which is at least 0, so it is never 0 and the case is left out.
- GeminiService.MapVoiceName: `GEMINI_VOICE_MAP[voiceName] || voiceName` indexes a plain object literal, so a name that is an inherited `Object.prototype` member, such as `toString`, `constructor`, `valueOf`, `hasOwnProperty` or `__proto__`, yields that member instead of the name. The model passes such names through unchanged. The reading view only passes the six voice keys.
- GeminiService.RequestSent: the remote's answer is any `RemoteReply`. Which responses the real service sends is not modelled.
- Base64.DecodeSextets: a lone final sextet, which `atob` rejects before decoding, decodes to nothing here.
