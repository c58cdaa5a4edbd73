/**
 * The reading view of `App.tsx`: the bookmark toggle, the search over the
 * chunks of the open book, and the segment-audio pipeline (the chunk audio
 * cache, the de-duplication of synthesis requests, the loader effect with
 * its latest-request token, prefetching, and the invalidation on a voice
 * change or a new book).
 *
 * The pipeline is a sequential state machine: every `await` ends an event
 * and its continuation is a later event, so interleavings of requests are
 * sequences of events. `ReaderState` is the whole state and the functions
 * over it say what each event does; the class `Reader` holds the same state
 * in fields, as the component's state hooks and refs do, and each of its
 * methods is proved to perform the matching function.
 */
module App {
  import opened Wrappers
  import opened JsStrings
  import opened Types

  // ---------------------------------------------------------------------
  // toggleBookmark
  // ---------------------------------------------------------------------

  /** `bookmarks.filter(id => id !== x)`. */
  function RemoveAll(bookmarks: seq<int>, x: int): seq<int>
  {
    if bookmarks == [] then []
    else if bookmarks[|bookmarks| - 1] == x then RemoveAll(bookmarks[..|bookmarks| - 1], x)
    else RemoveAll(bookmarks[..|bookmarks| - 1], x) + [bookmarks[|bookmarks| - 1]]
  }

  /** The filter keeps exactly the other values. */
  lemma {:induction false} RemoveAllMembers(bookmarks: seq<int>, x: int, y: int)
    ensures y in RemoveAll(bookmarks, x) <==> y in bookmarks && y != x
    decreases |bookmarks|
  {
    if bookmarks != [] {
      RemoveAllMembers(bookmarks[..|bookmarks| - 1], x, y);
      assert bookmarks == bookmarks[..|bookmarks| - 1] + [bookmarks[|bookmarks| - 1]];
    }
  }

  /** Filtering out a value that is absent changes nothing. */
  lemma {:induction false} RemoveAllAbsent(bookmarks: seq<int>, x: int)
    requires x !in bookmarks
    ensures RemoveAll(bookmarks, x) == bookmarks
    decreases |bookmarks|
  {
    if bookmarks != [] {
      var init := bookmarks[..|bookmarks| - 1];
      assert bookmarks == init + [bookmarks[|bookmarks| - 1]];
      RemoveAllAbsent(init, x);
    }
  }

  lemma RemoveAllExact(bookmarks: seq<int>, x: int)
    ensures forall y :: y in RemoveAll(bookmarks, x) <==> y in bookmarks && y != x
  {
    forall y {
      RemoveAllMembers(bookmarks, x, y);
    }
  }

  /**
   * `currentBook.bookmarks || []` with `chunkIndex` removed if it is there,
   * appended otherwise: the membership of `chunkIndex` flips and that of
   * every other value stays.
   */
  function ToggledBookmarks(bookmarks: Option<seq<int>>, chunkIndex: int): (r: seq<int>)
    ensures forall y :: y in r <==>
      (if y == chunkIndex then chunkIndex !in BookmarksOf(bookmarks) else y in BookmarksOf(bookmarks))
  {
    RemoveAllExact(BookmarksOf(bookmarks), chunkIndex);
    var current := if bookmarks.Some? then bookmarks.value else [];
    if chunkIndex in current then RemoveAll(current, chunkIndex) else current + [chunkIndex]
  }

  function BookmarksOf(bookmarks: Option<seq<int>>): seq<int>
  {
    if bookmarks.Some? then bookmarks.value else []
  }

  /** The other bookmarks keep their order and multiplicity: with `chunkIndex` filtered out, nothing changed. */
  lemma ToggleKeepsOthers(bookmarks: Option<seq<int>>, chunkIndex: int)
    ensures RemoveAll(ToggledBookmarks(bookmarks, chunkIndex), chunkIndex) == RemoveAll(BookmarksOf(bookmarks), chunkIndex)
  {
    var current := BookmarksOf(bookmarks);
    if chunkIndex in current {
      forall y ensures y in RemoveAll(current, chunkIndex) ==> y != chunkIndex {
        RemoveAllMembers(current, chunkIndex, y);
      }
      RemoveAllAbsent(RemoveAll(current, chunkIndex), chunkIndex);
    } else {
      assert (current + [chunkIndex])[..|current|] == current;
    }
  }

  /** Adding a new bookmark and toggling it again gives back the list. */
  lemma ToggleTwice(bookmarks: Option<seq<int>>, chunkIndex: int)
    requires chunkIndex !in BookmarksOf(bookmarks)
    ensures ToggledBookmarks(Some(ToggledBookmarks(bookmarks, chunkIndex)), chunkIndex) == BookmarksOf(bookmarks)
  {
    var current := BookmarksOf(bookmarks);
    assert (current + [chunkIndex])[..|current|] == current;
    RemoveAllAbsent(current, chunkIndex);
  }

  /** Removing a bookmark and toggling it again moves it to the end of the list. */
  lemma ToggleTwicePresent(bookmarks: Option<seq<int>>, chunkIndex: int)
    requires chunkIndex in BookmarksOf(bookmarks)
    ensures ToggledBookmarks(Some(ToggledBookmarks(bookmarks, chunkIndex)), chunkIndex)
         == RemoveAll(BookmarksOf(bookmarks), chunkIndex) + [chunkIndex]
  {
    RemoveAllMembers(BookmarksOf(bookmarks), chunkIndex, chunkIndex);
  }

  // ---------------------------------------------------------------------
  // handleSearch
  // ---------------------------------------------------------------------

  /** `q` occurs in `s` at `j`. */
  predicate OccursAt(s: JsString, q: JsString, j: int)
  {
    0 <= j && j + |q| <= |s| && s[j..j + |q|] == q
  }

  /** `s.indexOf(q, i)`: the first occurrence at or after `i`. */
  function IndexOfFrom(s: JsString, q: JsString, i: nat): (r: Option<nat>)
    ensures r.Some? ==> i <= r.value && OccursAt(s, q, r.value)
    ensures r.Some? ==> forall j :: i <= j < r.value ==> !OccursAt(s, q, j)
    ensures r.None? ==> forall j :: i <= j ==> !OccursAt(s, q, j)
    decreases |s| + 1 - i
  {
    if i + |q| > |s| then None
    else if s[i..i + |q|] == q then Some(i)
    else IndexOfFrom(s, q, i + 1)
  }

  /** `s.indexOf(q)`; `s.includes(q)` is `IndexOf(s, q).Some?`. */
  function IndexOf(s: JsString, q: JsString): Option<nat>
  {
    IndexOfFrom(s, q, 0)
  }

  datatype SearchResult = SearchResult(index: int, snippet: JsString)

  const ELLIPSIS: JsString := [0x2E, 0x2E, 0x2E]

  /** `Math.max(0, matchIndex - 20)`. */
  function SnippetStart(matchIndex: int): int
  {
    if matchIndex - 20 > 0 then matchIndex - 20 else 0
  }

  /** `Math.min(text.length, matchIndex + query.length + 20)`. */
  function SnippetEnd(textLength: int, matchIndex: int, queryLength: int): int
  {
    if textLength < matchIndex + queryLength + 20 then textLength else matchIndex + queryLength + 20
  }

  /** The text around a match, with `...` where it was cut. */
  function Snippet(text: JsString, matchIndex: nat, queryLength: nat): JsString
    requires matchIndex + queryLength <= |text|
  {
    var start := SnippetStart(matchIndex);
    var end := SnippetEnd(|text|, matchIndex, queryLength);
    (if start > 0 then ELLIPSIS else []) + text[start..end] + (if end < |text| then ELLIPSIS else [])
  }

  /** Where the matched text starts inside the snippet: after the `...` marker, if the start was cut. */
  function MatchOffset(matchIndex: nat): int
  {
    (if SnippetStart(matchIndex) > 0 then |ELLIPSIS| else 0) + matchIndex - SnippetStart(matchIndex)
  }

  lemma MiddleSlice(pre: JsString, core: JsString, post: JsString, x: nat, n: nat)
    requires x + n <= |core|
    ensures (pre + core + post)[|pre| + x..|pre| + x + n] == core[x..x + n]
  {
    var whole := pre + core + post;
    var lhs := whole[|pre| + x..|pre| + x + n];
    var rhs := core[x..x + n];
    forall i | 0 <= i < n ensures lhs[i] == rhs[i] {
      assert whole[|pre| + x + i] == core[x + i];
    }
  }

  /** The snippet holds the matched text, with at most 20 units of context on each side of it. */
  lemma SnippetHoldsMatch(text: JsString, matchIndex: nat, queryLength: nat)
    requires matchIndex + queryLength <= |text|
    ensures 0 <= SnippetStart(matchIndex) <= matchIndex && matchIndex - SnippetStart(matchIndex) <= 20
    ensures matchIndex + queryLength <= SnippetEnd(|text|, matchIndex, queryLength) <= |text|
    ensures SnippetEnd(|text|, matchIndex, queryLength) - (matchIndex + queryLength) <= 20
    ensures MatchOffset(matchIndex) + queryLength <= |Snippet(text, matchIndex, queryLength)|
    ensures Snippet(text, matchIndex, queryLength)[MatchOffset(matchIndex)..MatchOffset(matchIndex) + queryLength]
         == text[matchIndex..matchIndex + queryLength]
  {
    var start := SnippetStart(matchIndex);
    var end := SnippetEnd(|text|, matchIndex, queryLength);
    assert 0 <= start <= matchIndex && matchIndex + queryLength <= end <= |text|;
    var pre: JsString := if start > 0 then ELLIPSIS else [];
    var core := text[start..end];
    var x := matchIndex - start;
    MiddleSlice(pre, core, if end < |text| then ELLIPSIS else [], x, queryLength);
    assert core[x..x + queryLength] == text[matchIndex..matchIndex + queryLength];
  }

  /** The entry for chunk `idx`, if its lower-cased text contains the lower-cased query. */
  function MatchChunk(idx: int, text: JsString, query: JsString): (r: Option<SearchResult>)
    ensures r.Some? ==> r.value.index == idx
    ensures r.None? <==> forall j :: 0 <= j ==> !OccursAt(ToLowerAscii(text), ToLowerAscii(query), j)
  {
    match IndexOf(ToLowerAscii(text), ToLowerAscii(query))
    case None => None
    case Some(m) => Some(SearchResult(idx, Snippet(text, m, |query|)))
  }

  /** The `reduce` over the chunks: at most one result per chunk, each pointing at a chunk. */
  function SearchChunks(chunks: seq<TextChunk>, query: JsString): (r: seq<SearchResult>)
    ensures |r| <= |chunks|
    ensures forall i :: 0 <= i < |r| ==> 0 <= r[i].index < |chunks|
  {
    if chunks == [] then []
    else
      var init := SearchChunks(chunks[..|chunks| - 1], query);
      match MatchChunk(|chunks| - 1, chunks[|chunks| - 1].text, query)
      case None => init
      case Some(hit) => init + [hit]
  }

  /** `handleSearch(query)`: nothing for a blank query or with no book open. */
  function Search(query: JsString, book: Option<Book>): (r: seq<SearchResult>)
    ensures Trim(query) == [] || book.None? ==> r == []
    ensures book.Some? ==> forall i :: 0 <= i < |r| ==> 0 <= r[i].index < |book.value.chunks|
  {
    if Trim(query) == [] || book.None? then [] else SearchChunks(book.value.chunks, query)
  }

  /** Chunk `k` matches the query, ignoring ASCII case. */
  predicate ChunkMatches(chunks: seq<TextChunk>, query: JsString, k: int)
    requires 0 <= k < |chunks|
  {
    IndexOf(ToLowerAscii(chunks[k].text), ToLowerAscii(query)).Some?
  }

  /** Each result points at one of `n` chunks, and the chunk indices strictly increase. */
  predicate Ascending(r: seq<SearchResult>, n: int)
  {
    && (forall i :: 0 <= i < |r| ==> 0 <= r[i].index < n)
    && (forall i, j :: 0 <= i < j < |r| ==> r[i].index < r[j].index)
  }

  predicate HasResultFor(r: seq<SearchResult>, k: int)
  {
    exists i :: 0 <= i < |r| && r[i].index == k
  }

  /** The results come in chunk order, at most one per chunk, each pointing at a chunk that exists. */
  lemma {:induction false} SearchChunksOrdered(chunks: seq<TextChunk>, query: JsString)
    ensures Ascending(SearchChunks(chunks, query), |chunks|)
    decreases |chunks|
  {
    if chunks != [] {
      var init := chunks[..|chunks| - 1];
      SearchChunksOrdered(init, query);
      var r0 := SearchChunks(init, query);
      var m := MatchChunk(|chunks| - 1, chunks[|chunks| - 1].text, query);
      if m.Some? {
        var r := r0 + [m.value];
        assert SearchChunks(chunks, query) == r;
        assert m.value.index == |chunks| - 1;
        assert forall i :: 0 <= i < |r0| ==> r[i] == r0[i];
      } else {
        assert SearchChunks(chunks, query) == r0;
      }
    }
  }

  /** Every result is the match of the chunk it points at: the snippet around that chunk's first match. */
  lemma {:induction false} SearchChunksSound(chunks: seq<TextChunk>, query: JsString)
    ensures forall i :: 0 <= i < |SearchChunks(chunks, query)| ==>
              && 0 <= SearchChunks(chunks, query)[i].index < |chunks|
              && Some(SearchChunks(chunks, query)[i])
                 == MatchChunk(SearchChunks(chunks, query)[i].index, chunks[SearchChunks(chunks, query)[i].index].text, query)
    decreases |chunks|
  {
    if chunks != [] {
      var init := chunks[..|chunks| - 1];
      SearchChunksSound(init, query);
      var r0 := SearchChunks(init, query);
      assert forall i :: 0 <= i < |r0| ==> init[r0[i].index] == chunks[r0[i].index];
      var m := MatchChunk(|chunks| - 1, chunks[|chunks| - 1].text, query);
      if m.Some? {
        var r := r0 + [m.value];
        assert SearchChunks(chunks, query) == r;
        assert m.value.index == |chunks| - 1;
        assert forall i :: 0 <= i < |r0| ==> r[i] == r0[i];
      } else {
        assert SearchChunks(chunks, query) == r0;
      }
    }
  }

  /** Every matching chunk has a result. */
  lemma {:induction false} SearchChunksComplete(chunks: seq<TextChunk>, query: JsString, k: int)
    requires 0 <= k < |chunks| && ChunkMatches(chunks, query, k)
    ensures HasResultFor(SearchChunks(chunks, query), k)
    decreases |chunks|
  {
    var init := chunks[..|chunks| - 1];
    var r0 := SearchChunks(init, query);
    var m := MatchChunk(|chunks| - 1, chunks[|chunks| - 1].text, query);
    if k < |chunks| - 1 {
      assert init[k] == chunks[k];
      SearchChunksComplete(init, query, k);
      var i :| 0 <= i < |r0| && r0[i].index == k;
      if m.Some? {
        assert SearchChunks(chunks, query) == r0 + [m.value];
        assert (r0 + [m.value])[i] == r0[i];
      } else {
        assert SearchChunks(chunks, query) == r0;
      }
    } else {
      assert m.Some? && m.value.index == k;
      assert SearchChunks(chunks, query) == r0 + [m.value];
      assert (r0 + [m.value])[|r0|] == m.value;
    }
  }

  /** A chunk has a result exactly when it matches, and that result is the snippet around its first match. */
  lemma SearchChunksExact(chunks: seq<TextChunk>, query: JsString, k: int)
    requires 0 <= k < |chunks|
    ensures HasResultFor(SearchChunks(chunks, query), k) <==> ChunkMatches(chunks, query, k)
    ensures forall i :: 0 <= i < |SearchChunks(chunks, query)| && SearchChunks(chunks, query)[i].index == k ==>
              Some(SearchChunks(chunks, query)[i]) == MatchChunk(k, chunks[k].text, query)
  {
    SearchChunksSound(chunks, query);
    if ChunkMatches(chunks, query, k) {
      SearchChunksComplete(chunks, query, k);
    }
  }

  /** What a search over the open book finds: exactly the matching chunks, in order. */
  lemma SearchFinds(query: JsString, book: Book, k: int)
    requires Trim(query) != [] && 0 <= k < |book.chunks|
    ensures Ascending(Search(query, Some(book)), |book.chunks|)
    ensures HasResultFor(Search(query, Some(book)), k) <==> ChunkMatches(book.chunks, query, k)
  {
    SearchChunksOrdered(book.chunks, query);
    SearchChunksExact(book.chunks, query, k);
  }

  // ---------------------------------------------------------------------
  // The segment-audio pipeline: state and events
  // ---------------------------------------------------------------------

  /** A blob URL made by `URL.createObjectURL`, numbered in order of creation. */
  type Url = nat

  /** A synthesis request started by `fetchChunkAudio`, numbered in order. */
  type OpId = nat

  /** What request `op` asked for: `generateSpeech(text, voice)` for chunk `index` while `bookId` was open. */
  datatype Request = Request(index: int, text: JsString, voice: VoiceOption, bookId: BookId)

  /** The three ways `fetchChunkAudio` answers. */
  datatype FetchOutcome = Hit(url: Url) | Joined(op: OpId) | Started(op: OpId)

  /** What a continuation waits for: a value already known, or the settlement of a request. */
  datatype Source = Ready(value: Option<Url>) | Awaiting(op: OpId)

  /** The promise `fetchChunkAudio` returns: resolved with a cached URL, or the request's own. */
  function SourceOf(outcome: FetchOutcome): Source
  {
    match outcome
    case Hit(url) => Ready(Some(url))
    case Joined(op) => Awaiting(op)
    case Started(op) => Awaiting(op)
  }

  /**
   * A suspended continuation. `seen` is the `audioUrl` of the render whose
   * loader effect is running, which its closures keep reading.
   */
  datatype Waiter =
    | ResumeLoad(token: int, index: int, seen: Option<Url>, book: Book, voice: VoiceOption, source: Source)
    | OfferNext(token: int, seen: Option<Url>, source: Source)
    | SettingsSaved(newVoice: VoiceOption, oldVoice: VoiceOption, hadBook: bool, index: int)

  /** The dependency list of the loader effect: `[currentChunkIndex, appState, currentBook?.id, settings.voice]`. */
  datatype Deps = Deps(index: int, appState: AppState, bookId: Option<BookId>, voice: VoiceOption)

  /**
   * The state of the reading view that the pipeline touches. The first
   * twelve fields are the component's state and refs; `lastDeps` and `clock`
   * are what the runtime knows (the effect's last dependencies, `Date.now()`);
   * `nextUrl` and `revoked` account for blob URLs; `requests` and `results`
   * for synthesis requests and their settlements; `waiters` for suspended
   * continuations; `savedBooks` and `savedSettings` for the writes to storage.
   */
  datatype ReaderState = ReaderState(
    appState: AppState,
    currentBook: Option<Book>,
    settings: Settings,
    currentChunkIndex: int,
    audioUrl: Option<Url>,
    nextAudioUrl: Option<Url>,
    isLoadingAudio: bool,
    audioCache: map<int, Url>,
    requestPromises: map<int, OpId>,
    activeBookId: Option<BookId>,
    latestRequest: int,
    manualJump: bool,
    lastDeps: Option<Deps>,
    clock: int,
    nextUrl: nat,
    revoked: set<Url>,
    requests: seq<Request>,
    results: map<OpId, Option<Url>>,
    waiters: map<nat, Waiter>,
    nextWaiter: nat,
    savedBooks: seq<Book>,
    savedSettings: seq<Settings>)

  const INIT: ReaderState := ReaderState(
    Library, None, DEFAULT_SETTINGS, 0, None, None, false, map[], map[], None, 0, false,
    None, 0, 0, {}, [], map[], map[], 0, [], [])

  datatype Fetched = Fetched(outcome: FetchOutcome, state: ReaderState)

  /** `fetchChunkAudio(index, text, voice)` run by a closure of a render where book `bookId` is open. */
  function Fetch(st: ReaderState, index: int, text: JsString, voice: VoiceOption, bookId: BookId): (r: Fetched)
    ensures r.state == st.(requests := r.state.requests, requestPromises := r.state.requestPromises)
    ensures st.requests <= r.state.requests && |r.state.requests| <= |st.requests| + 1
  {
    if index in st.audioCache then Fetched(Hit(st.audioCache[index]), st)
    else if index in st.requestPromises then Fetched(Joined(st.requestPromises[index]), st)
    else
      var op := |st.requests|;
      Fetched(Started(op), st.(requests := st.requests + [Request(index, text, voice, bookId)],
                               requestPromises := st.requestPromises[index := op]))
  }

  /**
   * Request `op` settles: on success a blob URL is made and cached if the
   * book it was fetched for is still the active one, revoked otherwise; on
   * failure nothing is made. Either way `finally` deletes the pending entry
   * of its index, whichever request that entry belongs to.
   */
  function Settle(st: ReaderState, op: OpId, succeeded: bool): (r: ReaderState)
    requires op < |st.requests|
    ensures r == st.(audioCache := r.audioCache, revoked := r.revoked, nextUrl := r.nextUrl,
                     results := r.results, requestPromises := r.requestPromises)
    ensures r.results.Keys == st.results.Keys + {op}
    ensures st.revoked <= r.revoked && st.nextUrl <= r.nextUrl <= st.nextUrl + 1
  {
    var req := st.requests[op];
    var cached := succeeded && st.activeBookId == Some(req.bookId);
    st.(audioCache := if cached then st.audioCache[req.index := st.nextUrl] else st.audioCache,
        revoked := if succeeded && !cached then st.revoked + {st.nextUrl} else st.revoked,
        nextUrl := if succeeded then st.nextUrl + 1 else st.nextUrl,
        results := st.results[op := if cached then Some(st.nextUrl) else None],
        requestPromises := st.requestPromises - {req.index})
  }

  /** The URLs held by the cache. */
  function CachedUrls(cache: map<int, Url>): set<Url>
  {
    set i | i in cache :: cache[i]
  }

  /** Revoke every cached URL, then clear the cache and the pending requests. */
  function Invalidated(st: ReaderState): (r: ReaderState)
    ensures r == st.(revoked := r.revoked, audioCache := map[], requestPromises := map[])
    ensures forall u :: u in r.revoked <==> u in st.revoked || exists i :: i in st.audioCache && st.audioCache[i] == u
  {
    st.(revoked := st.revoked + CachedUrls(st.audioCache), audioCache := map[], requestPromises := map[])
  }

  /** `handleBookSelect(book)`. */
  function SelectBook(st: ReaderState, book: Book): (r: ReaderState)
    ensures r == st.(currentBook := Some(book), currentChunkIndex := book.lastPosition, appState := Reading,
                     activeBookId := Some(book.id), audioUrl := r.audioUrl, nextAudioUrl := r.nextAudioUrl,
                     audioCache := r.audioCache, requestPromises := r.requestPromises, revoked := r.revoked)
    ensures st.revoked <= r.revoked && r.audioCache.Keys <= st.audioCache.Keys
  {
    var st1 :=
      if st.activeBookId != Some(book.id) then
        Invalidated(st.(audioUrl := None, nextAudioUrl := None)).(activeBookId := Some(book.id))
      else st;
    st1.(currentBook := Some(book), currentChunkIndex := book.lastPosition, appState := Reading)
  }

  function Await(st: ReaderState, w: Waiter): ReaderState
  {
    st.(waiters := st.waiters[st.nextWaiter := w], nextWaiter := st.nextWaiter + 1)
  }

  /** `updateSettings(newSettings)` up to `await saveSettings(...)`. */
  function BeginSettingsUpdate(st: ReaderState, newSettings: Settings): (r: ReaderState)
    ensures r == st.(settings := newSettings, savedSettings := st.savedSettings + [newSettings],
                     waiters := r.waiters, nextWaiter := st.nextWaiter + 1)
    ensures r.waiters.Keys == st.waiters.Keys + {st.nextWaiter}
  {
    Await(st.(settings := newSettings, savedSettings := st.savedSettings + [newSettings]),
          SettingsSaved(newSettings.voice, st.settings.voice, st.currentBook.Some?, st.currentChunkIndex))
  }

  /** `handleManualJump(index)`. */
  function ManualJump(st: ReaderState, index: int): (r: ReaderState)
    ensures r == st.(currentChunkIndex := index, manualJump := r.manualJump, isLoadingAudio := r.isLoadingAudio)
    ensures r.manualJump && r.isLoadingAudio
    ensures DepsOf(r) == DepsOf(st).(index := index)
  {
    st.(manualJump := true, currentChunkIndex := index, isLoadingAudio := true)
  }

  /** `nextChunk()`. */
  function NextChunk(st: ReaderState): (r: ReaderState)
    ensures r == st.(currentChunkIndex := r.currentChunkIndex)
    ensures r.currentChunkIndex == st.currentChunkIndex
         || (r.currentBook.Some? && r.currentChunkIndex == st.currentChunkIndex + 1 < |r.currentBook.value.chunks|)
  {
    if st.currentBook.Some? && st.currentChunkIndex < |st.currentBook.value.chunks| - 1 then
      st.(currentChunkIndex := st.currentChunkIndex + 1)
    else st
  }

  /** `prevChunk()`. */
  function PrevChunk(st: ReaderState): (r: ReaderState)
    ensures r == st.(currentChunkIndex := r.currentChunkIndex, manualJump := r.manualJump, isLoadingAudio := r.isLoadingAudio)
    ensures r.currentChunkIndex == st.currentChunkIndex
         || (0 <= r.currentChunkIndex == st.currentChunkIndex - 1 && r.manualJump && r.isLoadingAudio)
  {
    if st.currentChunkIndex > 0 then ManualJump(st, st.currentChunkIndex - 1) else st
  }

  /** `toggleBookmark(chunkIndex)`: the updated book becomes current and is saved. */
  function ToggleBookmark(st: ReaderState, chunkIndex: int): (r: ReaderState)
    ensures r == st.(currentBook := r.currentBook, savedBooks := r.savedBooks)
    ensures st.currentBook.None? ==> r == st
    ensures st.currentBook.Some? ==>
      && r.currentBook.Some?
      && r.currentBook == Some(st.currentBook.value.(bookmarks := r.currentBook.value.bookmarks))
      && r.savedBooks == st.savedBooks + [r.currentBook.value]
    ensures DepsOf(r) == DepsOf(st)
  {
    if st.currentBook.None? then st
    else
      var book := st.currentBook.value;
      var updated := book.(bookmarks := Some(ToggledBookmarks(book.bookmarks, chunkIndex)));
      st.(currentBook := Some(updated), savedBooks := st.savedBooks + [updated])
  }

  function DepsOf(st: ReaderState): Deps
  {
    Deps(st.currentChunkIndex, st.appState,
         if st.currentBook.Some? then Some(st.currentBook.value.id) else None, st.settings.voice)
  }

  /**
   * The loader effect, run by React at time `now` because its dependencies
   * changed: outside the reading view or with no book it does nothing more.
   */
  function LoaderEffect(st: ReaderState, now: int): (r: ReaderState)
    ensures r.lastDeps == Some(DepsOf(st)) && r.clock == now
    ensures DepsOf(r) == DepsOf(st)
    ensures st.requests <= r.requests && r.results == st.results && r.nextUrl == st.nextUrl && r.revoked == st.revoked
  {
    var st1 := st.(lastDeps := Some(DepsOf(st)), clock := now);
    if st.appState != Reading || st.currentBook.None? then st1 else LoadBegin(st1, now)
  }

  /**
   * `load()` up to its `await`: the token is `now`; a manual jump blanks
   * both URLs and shows loading; a missing chunk stops here; a cached chunk
   * completes at once; otherwise the audio is fetched and the rest waits.
   */
  function LoadBegin(st: ReaderState, now: int): (r: ReaderState)
    requires st.currentBook.Some?
    ensures DepsOf(r) == DepsOf(st) && r.lastDeps == st.lastDeps && r.clock == st.clock
    ensures r.latestRequest == now
    ensures st.requests <= r.requests && r.results == st.results && r.nextUrl == st.nextUrl && r.revoked == st.revoked
  {
    var book := st.currentBook.value;
    var index := st.currentChunkIndex;
    var voice := st.settings.voice;
    var seen := st.audioUrl;
    var st1 := st.(latestRequest := now);
    var st2 := if st.manualJump then st1.(audioUrl := None, nextAudioUrl := None, isLoadingAudio := true) else st1;
    if !(0 <= index < |book.chunks|) then st2
    else if index in st2.audioCache then
      Complete(st2.(isLoadingAudio := false), now, index, Some(st2.audioCache[index]), seen, book, voice)
    else
      var f := Fetch(st2.(isLoadingAudio := true), index, book.chunks[index].text, voice, book.id);
      Await(f.state, ResumeLoad(now, index, seen, book, voice, SourceOf(f.outcome)))
  }

  /** The prefetch of chunk `index + 1`, whose URL is offered as `nextAudioUrl` when it arrives. */
  function PrefetchNext(st: ReaderState, token: int, index: int, seen: Option<Url>, book: Book, voice: VoiceOption): (r: ReaderState)
    ensures r == st.(requests := r.requests, requestPromises := r.requestPromises, waiters := r.waiters, nextWaiter := r.nextWaiter)
    ensures st.requests <= r.requests
  {
    if 0 <= index + 1 < |book.chunks| then
      var f := Fetch(st, index + 1, book.chunks[index + 1].text, voice, book.id);
      Await(f.state, OfferNext(token, seen, SourceOf(f.outcome)))
    else st
  }

  /** The background prefetch of chunk `index + 2`. */
  function PrefetchAfterNext(st: ReaderState, index: int, book: Book, voice: VoiceOption): (r: ReaderState)
    ensures r == st.(requests := r.requests, requestPromises := r.requestPromises)
    ensures st.requests <= r.requests
  {
    if 0 <= index + 2 < |book.chunks| then Fetch(st, index + 2, book.chunks[index + 2].text, voice, book.id).state
    else st
  }

  /**
   * The rest of `load()` once the chunk's URL is known: only under the
   * latest token is it shown, loading cleared, the jump flag reset and the
   * next two chunks prefetched; the position is saved in every case.
   */
  function Complete(st: ReaderState, token: int, index: int, url: Option<Url>, seen: Option<Url>,
                    book: Book, voice: VoiceOption): (r: ReaderState)
    ensures DepsOf(r) == DepsOf(st) && r.latestRequest == st.latestRequest
    ensures r.lastDeps == st.lastDeps && r.clock == st.clock
    ensures r.savedBooks == st.savedBooks + [book.(lastPosition := index)]
    ensures st.requests <= r.requests && r.results == st.results && r.nextUrl == st.nextUrl && r.revoked == st.revoked
    ensures r.audioCache == st.audioCache && r.activeBookId == st.activeBookId
  {
    var st1 :=
      if st.latestRequest == token then
        var a := st.(audioUrl := if url.Some? then url else st.audioUrl, isLoadingAudio := false, manualJump := false);
        PrefetchAfterNext(PrefetchNext(a, token, index, seen, book, voice), index, book, voice)
      else st;
    st1.(savedBooks := st1.savedBooks + [book.(lastPosition := index)])
  }

  predicate SourceReady(st: ReaderState, source: Source)
  {
    source.Ready? || source.op in st.results
  }

  function ValueOf(st: ReaderState, source: Source): Option<Url>
    requires SourceReady(st, source)
  {
    if source.Ready? then source.value else st.results[source.op]
  }

  predicate WaiterReady(st: ReaderState, w: Waiter)
  {
    match w
    case ResumeLoad(_, _, _, _, _, source) => SourceReady(st, source)
    case OfferNext(_, _, source) => SourceReady(st, source)
    case SettingsSaved(_, _, _, _) => true
  }

  /**
   * Continuation `k` runs. A resumed load completes; an offered next URL
   * becomes `nextAudioUrl` only under the same token, when it is a URL and
   * the render's `audioUrl` was empty; after the settings are saved, a
   * changed voice invalidates the audio and, if a book was open, jumps to
   * the index of that render.
   */
  function Resume(st: ReaderState, k: nat): (r: ReaderState)
    requires k in st.waiters && WaiterReady(st, st.waiters[k])
    ensures r.latestRequest == st.latestRequest && r.lastDeps == st.lastDeps && r.clock == st.clock
    ensures st.requests <= r.requests && r.results == st.results && r.nextUrl == st.nextUrl
    ensures st.revoked <= r.revoked && r.activeBookId == st.activeBookId
  {
    var st1 := st.(waiters := st.waiters - {k});
    match st.waiters[k]
    case ResumeLoad(token, index, seen, book, voice, source) =>
      Complete(st1, token, index, ValueOf(st, source), seen, book, voice)
    case OfferNext(token, seen, source) =>
      var v := ValueOf(st, source);
      if st1.latestRequest == token && v.Some? && seen.None? then st1.(nextAudioUrl := v) else st1
    case SettingsSaved(newVoice, oldVoice, hadBook, index) =>
      if newVoice != oldVoice then
        var cleared := Invalidated(st1);
        if hadBook then ManualJump(cleared, index) else cleared
      else st1
  }
}
