/**
 * What the events of the reading view's audio pipeline promise: the three
 * answers of `fetchChunkAudio`, what a settlement writes, what invalidation
 * releases, how loading depends on the kind of navigation, what only the
 * latest load may do, the bounds of the navigation buttons, and the
 * behaviours the code has that a reader might not expect.
 */
module AppProperties {
  import opened Wrappers
  import opened JsStrings
  import opened Types
  import opened App
  import opened AppInvariant

  // ---------------------------------------------------------------------
  // fetchChunkAudio
  // ---------------------------------------------------------------------

  /** A cached index answers with the stored URL and changes nothing. */
  lemma FetchHit(st: ReaderState, index: int, text: JsString, voice: VoiceOption, bookId: BookId)
    requires index in st.audioCache
    ensures Fetch(st, index, text, voice, bookId) == Fetched(Hit(st.audioCache[index]), st)
  {
  }

  /** A pending index answers with the request already under way and changes nothing. */
  lemma FetchJoined(st: ReaderState, index: int, text: JsString, voice: VoiceOption, bookId: BookId)
    requires index !in st.audioCache && index in st.requestPromises
    ensures Fetch(st, index, text, voice, bookId) == Fetched(Joined(st.requestPromises[index]), st)
  {
  }

  /**
   * Only a true miss calls `generateSpeech`: it starts exactly one request,
   * for this index, and registers exactly one pending entry, its own.
   */
  lemma FetchStarted(st: ReaderState, index: int, text: JsString, voice: VoiceOption, bookId: BookId)
    requires index !in st.audioCache && index !in st.requestPromises
    ensures var f := Fetch(st, index, text, voice, bookId);
      && f.outcome == Started(|st.requests|)
      && f.state.requests == st.requests + [Request(index, text, voice, bookId)]
      && f.state.requestPromises.Keys == st.requestPromises.Keys + {index}
      && f.state.requestPromises[index] == |st.requests|
      && (forall i :: i in st.requestPromises ==> f.state.requestPromises[i] == st.requestPromises[i])
      && f.state.audioCache == st.audioCache
  {
  }

  /** A request is started exactly when the index is neither cached nor pending. */
  lemma FetchStartsOnlyOnMiss(st: ReaderState, index: int, text: JsString, voice: VoiceOption, bookId: BookId)
    ensures Fetch(st, index, text, voice, bookId).outcome.Started? <==>
            index !in st.audioCache && index !in st.requestPromises
    ensures !Fetch(st, index, text, voice, bookId).outcome.Started? ==> Fetch(st, index, text, voice, bookId).state == st
  {
  }

  /**
   * Requests are deduplicated: fetching an index again, for any text, voice
   * or book, starts nothing, changes nothing, and joins the first request.
   */
  lemma FetchTwice(st: ReaderState, index: int, text: JsString, voice: VoiceOption, bookId: BookId,
                   text2: JsString, voice2: VoiceOption, bookId2: BookId)
    ensures var f := Fetch(st, index, text, voice, bookId);
      var g := Fetch(f.state, index, text2, voice2, bookId2);
      && g.state == f.state
      && (f.outcome.Started? ==> g.outcome == Joined(f.outcome.op))
      && (!f.outcome.Started? ==> g.outcome == f.outcome)
  {
  }

  /** Under the invariant, a hit is a live URL and a join waits on a request that has not settled. */
  lemma FetchAnswersLive(st: ReaderState, index: int, text: JsString, voice: VoiceOption, bookId: BookId)
    requires Valid(st)
    ensures var f := Fetch(st, index, text, voice, bookId);
      && (f.outcome.Hit? ==> f.outcome.url !in st.revoked && f.outcome.url < st.nextUrl)
      && (!f.outcome.Hit? ==>
            f.outcome.op < |f.state.requests| && f.outcome.op !in f.state.results
            && f.state.requests[f.outcome.op].index == index)
  {
  }

  // ---------------------------------------------------------------------
  // Settlement
  // ---------------------------------------------------------------------

  /**
   * Settling a request, on success or failure, removes the pending entry of
   * its index and no other, and records its result.
   */
  lemma SettleReleasesIndex(st: ReaderState, op: OpId, succeeded: bool)
    requires op < |st.requests|
    ensures var idx := st.requests[op].index;
      var st2 := Settle(st, op, succeeded);
      && idx !in st2.requestPromises
      && (forall i :: i in st.requestPromises && i != idx ==> i in st2.requestPromises && st2.requestPromises[i] == st.requestPromises[i])
      && st2.requestPromises.Keys <= st.requestPromises.Keys
      && op in st2.results
  {
    SettlePending(st, op, succeeded);
  }

  lemma SettlePending(st: ReaderState, op: OpId, succeeded: bool)
    requires op < |st.requests|
    ensures Settle(st, op, succeeded).requestPromises == st.requestPromises - {st.requests[op].index}
    ensures op in Settle(st, op, succeeded).results
  {
  }

  /** A failed synthesis yields null and writes neither the cache nor a URL. */
  lemma SettleFailed(st: ReaderState, op: OpId)
    requires op < |st.requests|
    ensures var st2 := Settle(st, op, false);
      st2.results[op] == None && st2.audioCache == st.audioCache && st2.nextUrl == st.nextUrl
      && st2.revoked == st.revoked
  {
  }

  /**
   * A success for the book that is still active caches a URL no one has
   * seen before, for the request's index, and resolves with it.
   */
  lemma SettleCached(st: ReaderState, op: OpId)
    requires Valid(st) && op < |st.requests|
    requires st.activeBookId == Some(st.requests[op].bookId)
    ensures var idx := st.requests[op].index;
      var st2 := Settle(st, op, true);
      && st2.results[op].Some?
      && st2.audioCache == st.audioCache[idx := st2.results[op].value]
      && st2.results[op].value !in st2.revoked
      && (forall i :: i in st.audioCache ==> st.audioCache[i] != st2.results[op].value)
      && st2.revoked == st.revoked
  {
  }

  /** A success for a book that is no longer active revokes the new URL at once and resolves with null. */
  lemma SettleRevoked(st: ReaderState, op: OpId)
    requires Valid(st) && op < |st.requests|
    requires st.activeBookId != Some(st.requests[op].bookId)
    ensures var st2 := Settle(st, op, true);
      && st2.results[op] == None
      && st2.audioCache == st.audioCache
      && st.nextUrl in st2.revoked && st.nextUrl !in st.revoked
  {
  }

  // ---------------------------------------------------------------------
  // Invalidation: a changed voice or another book
  // ---------------------------------------------------------------------

  /** Invalidation revokes every cached URL and empties both the cache and the pending map. */
  lemma InvalidatedReleasesAll(st: ReaderState)
    ensures var st2 := Invalidated(st);
      && st2.audioCache == map[] && st2.requestPromises == map[]
      && st.revoked <= st2.revoked
      && (forall i :: i in st.audioCache ==> st.audioCache[i] in st2.revoked)
      && st2.audioUrl == st.audioUrl && st2.requests == st.requests && st2.results == st.results
  {
  }

  /** Selecting another book clears both URLs, releases the audio and makes that book active. */
  lemma SelectOtherBook(st: ReaderState, book: Book)
    requires st.activeBookId != Some(book.id)
    ensures var st2 := SelectBook(st, book);
      && st2.audioCache == map[] && st2.requestPromises == map[]
      && (forall i :: i in st.audioCache ==> st.audioCache[i] in st2.revoked)
      && st2.audioUrl == None && st2.nextAudioUrl == None
      && st2.activeBookId == Some(book.id)
  {
  }

  /** Re-selecting the active book keeps its audio. */
  lemma SelectSameBook(st: ReaderState, book: Book)
    requires st.activeBookId == Some(book.id)
    ensures var st2 := SelectBook(st, book);
      && st2.audioCache == st.audioCache && st2.requestPromises == st.requestPromises
      && st2.revoked == st.revoked && st2.audioUrl == st.audioUrl && st2.nextAudioUrl == st.nextAudioUrl
  {
  }

  /** Either way the book opens at its saved position in the reading view. */
  lemma SelectOpens(st: ReaderState, book: Book)
    ensures var st2 := SelectBook(st, book);
      && st2.appState == Reading && st2.currentBook == Some(book)
      && st2.currentChunkIndex == book.lastPosition
      && st2.activeBookId == Some(book.id)
  {
  }

  /** Saving new settings records them before the wait, and the voice check waits for the save. */
  lemma SettingsUpdateSaves(st: ReaderState, s: Settings)
    ensures var st2 := BeginSettingsUpdate(st, s);
      && st2.settings == s && st2.savedSettings == st.savedSettings + [s]
      && st2.audioCache == st.audioCache && st2.requestPromises == st.requestPromises
      && st.nextWaiter in st2.waiters
      && st2.waiters[st.nextWaiter] == SettingsSaved(s.voice, st.settings.voice, st.currentBook.Some?, st.currentChunkIndex)
  {
  }

  /**
   * After the save: a changed voice invalidates the audio and, with a book
   * open, jumps to the index of that render; an unchanged voice does nothing.
   */
  lemma SettingsSavedEffect(st: ReaderState, k: nat)
    requires k in st.waiters && st.waiters[k].SettingsSaved?
    ensures var w := st.waiters[k];
      var st2 := Resume(st, k);
      && k !in st2.waiters
      && (w.newVoice != w.oldVoice ==>
            && st2.audioCache == map[] && st2.requestPromises == map[]
            && (forall i :: i in st.audioCache ==> st.audioCache[i] in st2.revoked)
            && (w.hadBook ==> st2.manualJump && st2.currentChunkIndex == w.index && st2.isLoadingAudio)
            && (!w.hadBook ==> st2.manualJump == st.manualJump && st2.currentChunkIndex == st.currentChunkIndex))
      && (w.newVoice == w.oldVoice ==> st2 == st.(waiters := st.waiters - {k}))
  {
  }

  // ---------------------------------------------------------------------
  // Loading
  // ---------------------------------------------------------------------

  /** Whether any continuation of the state waits to resume the load of `index` under token `token`. */
  predicate AwaitsLoad(st: ReaderState, key: nat, token: int, index: int)
  {
    key in st.waiters && st.waiters[key].ResumeLoad? && st.waiters[key].token == token && st.waiters[key].index == index
  }

  /**
   * A load that misses the cache shows loading, whatever the navigation
   * kind; after a manual jump both URLs are blank first. The chunk's audio
   * is then pending and the rest of the load waits for it.
   */
  lemma LoadBeginMiss(st: ReaderState, now: int)
    requires st.currentBook.Some? && 0 <= st.currentChunkIndex < |st.currentBook.value.chunks|
    requires st.currentChunkIndex !in st.audioCache
    ensures var st2 := LoadBegin(st, now);
      && st2.latestRequest == now && st2.isLoadingAudio
      && st.currentChunkIndex in st2.requestPromises
      && AwaitsLoad(st2, st.nextWaiter, now, st.currentChunkIndex)
      && st2.waiters[st.nextWaiter].seen == st.audioUrl
      && (st.manualJump ==> st2.audioUrl == None && st2.nextAudioUrl == None)
      && (!st.manualJump ==> st2.audioUrl == st.audioUrl && st2.nextAudioUrl == st.nextAudioUrl)
      && st2.savedBooks == st.savedBooks
  {
  }

  /**
   * A load that hits the cache completes at once: the cached URL is shown
   * and loading is off (the load never set it unless the jump was manual).
   */
  lemma LoadBeginHit(st: ReaderState, now: int)
    requires st.currentBook.Some? && 0 <= st.currentChunkIndex < |st.currentBook.value.chunks|
    requires st.currentChunkIndex in st.audioCache
    ensures var st2 := LoadBegin(st, now);
      && st2.latestRequest == now && st2.audioUrl == Some(st.audioCache[st.currentChunkIndex])
      && !st2.isLoadingAudio && !st2.manualJump
      && st2.currentChunkIndex == st.currentChunkIndex
      && st2.savedBooks == st.savedBooks + [st.currentBook.value.(lastPosition := st.currentChunkIndex)]
  {
    var book := st.currentBook.value;
    var index := st.currentChunkIndex;
    var st1 := st.(latestRequest := now);
    var st2 := if st.manualJump then st1.(audioUrl := None, nextAudioUrl := None, isLoadingAudio := true) else st1;
    CompleteCurrent(st2.(isLoadingAudio := false), now, index, Some(st.audioCache[index]), st.audioUrl, book, st.settings.voice);
  }

  /**
   * A chunk that does not exist ends the load before anything is saved, and
   * a manual jump's loading flag stays set.
   */
  lemma LoadBeginMissingChunk(st: ReaderState, now: int)
    requires st.currentBook.Some? && !(0 <= st.currentChunkIndex < |st.currentBook.value.chunks|)
    ensures var st2 := LoadBegin(st, now);
      && st2.latestRequest == now
      && st2.isLoadingAudio == (st.manualJump || st.isLoadingAudio)
      && st2.savedBooks == st.savedBooks && st2.requests == st.requests && st2.waiters == st.waiters
  {
  }

  /** Outside the reading view, or with no book, the loader only records its dependencies. */
  lemma LoaderEffectIdle(st: ReaderState, now: int)
    requires st.appState != Reading || st.currentBook.None?
    ensures LoaderEffect(st, now) == st.(lastDeps := Some(DepsOf(st)), clock := now)
  {
  }

  /** In the reading view with a book open, the loader records its dependencies and begins a load. */
  lemma LoaderEffectLoads(st: ReaderState, now: int)
    requires st.appState == Reading && st.currentBook.Some?
    ensures LoaderEffect(st, now) == LoadBegin(st.(lastDeps := Some(DepsOf(st)), clock := now), now)
    ensures LoaderEffect(st, now).latestRequest == now
  {
    LoadBeginToken(st.(lastDeps := Some(DepsOf(st)), clock := now), now);
  }

  /** The fields a prefetch leaves alone: what the reader sees and what is saved. */
  predicate SameView(a: ReaderState, b: ReaderState)
  {
    && a.audioUrl == b.audioUrl && a.nextAudioUrl == b.nextAudioUrl && a.isLoadingAudio == b.isLoadingAudio
    && a.manualJump == b.manualJump && a.currentChunkIndex == b.currentChunkIndex
    && a.latestRequest == b.latestRequest && a.savedBooks == b.savedBooks
  }

  lemma FetchSameView(st: ReaderState, index: int, text: JsString, voice: VoiceOption, bookId: BookId)
    ensures SameView(st, Fetch(st, index, text, voice, bookId).state)
  {
  }

  lemma PrefetchSameView(st: ReaderState, token: int, index: int, seen: Option<Url>, book: Book, voice: VoiceOption)
    ensures SameView(st, PrefetchNext(st, token, index, seen, book, voice))
    ensures SameView(st, PrefetchAfterNext(PrefetchNext(st, token, index, seen, book, voice), index, book, voice))
  {
    var st1 := PrefetchNext(st, token, index, seen, book, voice);
    if 0 <= index + 1 < |book.chunks| {
      PrefetchNextFetchSameView(st, token, index, seen, book, voice);
    }
    PrefetchAfterNextSameView(st1, index, book, voice);
  }

  lemma PrefetchNextFetchSameView(st: ReaderState, token: int, index: int, seen: Option<Url>, book: Book, voice: VoiceOption)
    requires 0 <= index + 1 < |book.chunks|
    ensures SameView(st, PrefetchNext(st, token, index, seen, book, voice))
  {
    PrefetchNextFetches(st, token, index, seen, book, voice);
    FetchSameView(st, index + 1, book.chunks[index + 1].text, voice, book.id);
  }

  lemma PrefetchAfterNextSameView(st: ReaderState, index: int, book: Book, voice: VoiceOption)
    ensures SameView(st, PrefetchAfterNext(st, index, book, voice))
  {
    if 0 <= index + 2 < |book.chunks| {
      FetchSameView(st, index + 2, book.chunks[index + 2].text, voice, book.id);
    }
  }

  /** Every load takes the time it began as its token. */
  lemma LoadBeginToken(st: ReaderState, now: int)
    requires st.currentBook.Some?
    ensures LoadBegin(st, now).latestRequest == now
  {
    var index := st.currentChunkIndex;
    var book := st.currentBook.value;
    if 0 <= index < |book.chunks| {
      if index in st.audioCache {
        LoadBeginHit(st, now);
      } else {
        LoadBeginMiss(st, now);
      }
    }
  }

  /** Fetching and waiting never drop a cached or pending index. */
  lemma FetchKeepsEntries(st: ReaderState, index: int, text: JsString, voice: VoiceOption, bookId: BookId, j: int)
    requires j in st.audioCache || j in st.requestPromises
    ensures var f := Fetch(st, index, text, voice, bookId).state;
      j in f.audioCache || j in f.requestPromises
  {
  }

  /** After a fetch the index is cached or pending. */
  lemma FetchLeavesEntry(st: ReaderState, index: int, text: JsString, voice: VoiceOption, bookId: BookId)
    ensures var f := Fetch(st, index, text, voice, bookId).state;
      index in f.audioCache || index in f.requestPromises
  {
  }

  /** The requests the two prefetches start are for chunks `index + 1` and `index + 2` of the book, and only those that exist. */
  predicate PrefetchRequests(st: ReaderState, st2: ReaderState, index: int, book: Book)
  {
    && |st.requests| <= |st2.requests|
    && st2.requests[..|st.requests|] == st.requests
    && forall op :: |st.requests| <= op < |st2.requests| ==>
         var j := st2.requests[op].index;
         (j == index + 1 || j == index + 2) && 0 <= j < |book.chunks| && st2.requests[op].bookId == book.id
  }

  lemma PrefetchNextRequests(st: ReaderState, token: int, index: int, seen: Option<Url>, book: Book, voice: VoiceOption)
    ensures PrefetchRequests(st, PrefetchNext(st, token, index, seen, book, voice), index, book)
  {
    if 0 <= index + 1 < |book.chunks| {
      PrefetchNextFetches(st, token, index, seen, book, voice);
    }
  }

  lemma PrefetchAfterNextRequests(st: ReaderState, st1: ReaderState, index: int, book: Book, voice: VoiceOption)
    requires PrefetchRequests(st, st1, index, book)
    ensures PrefetchRequests(st, PrefetchAfterNext(st1, index, book, voice), index, book)
  {
  }

  /** Both prefetches leave the chunks they cover cached or pending. */
  lemma PrefetchEntries(st: ReaderState, token: int, index: int, seen: Option<Url>, book: Book, voice: VoiceOption)
    ensures var st1 := PrefetchNext(st, token, index, seen, book, voice);
      var st2 := PrefetchAfterNext(st1, index, book, voice);
      && (0 <= index + 1 < |book.chunks| ==> index + 1 in st2.audioCache || index + 1 in st2.requestPromises)
      && (0 <= index + 2 < |book.chunks| ==> index + 2 in st2.audioCache || index + 2 in st2.requestPromises)
  {
    var st1 := PrefetchNext(st, token, index, seen, book, voice);
    if 0 <= index + 1 < |book.chunks| {
      PrefetchNextFetches(st, token, index, seen, book, voice);
      FetchLeavesEntry(st, index + 1, book.chunks[index + 1].text, voice, book.id);
      if 0 <= index + 2 < |book.chunks| {
        FetchKeepsEntries(st1, index + 2, book.chunks[index + 2].text, voice, book.id, index + 1);
      }
    }
    if 0 <= index + 2 < |book.chunks| {
      FetchLeavesEntry(st1, index + 2, book.chunks[index + 2].text, voice, book.id);
    }
  }

  /**
   * Only under the latest token does a completed load show its URL, clear
   * loading, reset the jump flag and prefetch the next two chunks that
   * exist; the position is saved.
   */
  lemma CompleteCurrent(st: ReaderState, token: int, index: int, url: Option<Url>, seen: Option<Url>,
                        book: Book, voice: VoiceOption)
    requires st.latestRequest == token
    ensures var st2 := Complete(st, token, index, url, seen, book, voice);
      && st2.audioUrl == (if url.Some? then url else st.audioUrl)
      && !st2.isLoadingAudio && !st2.manualJump
      && st2.currentChunkIndex == st.currentChunkIndex && st2.latestRequest == token
      && st2.savedBooks == st.savedBooks + [book.(lastPosition := index)]
      && (0 <= index + 1 < |book.chunks| ==> index + 1 in st2.audioCache || index + 1 in st2.requestPromises)
      && (0 <= index + 2 < |book.chunks| ==> index + 2 in st2.audioCache || index + 2 in st2.requestPromises)
      && PrefetchRequests(st, st2, index, book)
  {
    var a := st.(audioUrl := if url.Some? then url else st.audioUrl, isLoadingAudio := false, manualJump := false);
    var st1 := PrefetchAfterNext(PrefetchNext(a, token, index, seen, book, voice), index, book, voice);
    CompleteUnfolds(st, token, index, url, seen, book, voice);
    PrefetchSameView(a, token, index, seen, book, voice);
    PrefetchEntries(a, token, index, seen, book, voice);
    PrefetchNextRequests(a, token, index, seen, book, voice);
    PrefetchAfterNextRequests(a, PrefetchNext(a, token, index, seen, book, voice), index, book, voice);
    assert PrefetchRequests(st, st1.(savedBooks := st1.savedBooks + [book.(lastPosition := index)]), index, book);
  }

  /** Under the latest token, completion shows the URL, runs both prefetches and saves the position. */
  lemma CompleteUnfolds(st: ReaderState, token: int, index: int, url: Option<Url>, seen: Option<Url>,
                        book: Book, voice: VoiceOption)
    requires st.latestRequest == token
    ensures var a := st.(audioUrl := if url.Some? then url else st.audioUrl, isLoadingAudio := false, manualJump := false);
      var st1 := PrefetchAfterNext(PrefetchNext(a, token, index, seen, book, voice), index, book, voice);
      Complete(st, token, index, url, seen, book, voice) == st1.(savedBooks := st1.savedBooks + [book.(lastPosition := index)])
  {
  }

  /** A superseded load changes nothing but still saves its position. */
  lemma CompleteStale(st: ReaderState, token: int, index: int, url: Option<Url>, seen: Option<Url>,
                      book: Book, voice: VoiceOption)
    requires st.latestRequest != token
    ensures Complete(st, token, index, url, seen, book, voice) == st.(savedBooks := st.savedBooks + [book.(lastPosition := index)])
  {
  }

  /**
   * The offered next URL is taken exactly when the token is still the
   * latest, the prefetch gave a URL, and the render that started the load
   * had no `audioUrl`; otherwise only the continuation is gone.
   */
  lemma OfferNextTaken(st: ReaderState, k: nat)
    requires k in st.waiters && st.waiters[k].OfferNext? && WaiterReady(st, st.waiters[k])
    ensures var w := st.waiters[k];
      var v := ValueOf(st, w.source);
      var st2 := Resume(st, k);
      && (st2.nextAudioUrl == v && v != st.nextAudioUrl ==> st.latestRequest == w.token && w.seen.None?)
      && (st.latestRequest == w.token && v.Some? && w.seen.None? ==> st2 == st.(waiters := st.waiters - {k}, nextAudioUrl := v))
      && (!(st.latestRequest == w.token && v.Some? && w.seen.None?) ==> st2 == st.(waiters := st.waiters - {k}))
  {
  }

  // ---------------------------------------------------------------------
  // Navigation
  // ---------------------------------------------------------------------

  /** `nextChunk` advances by one below the last chunk and never past it; it is not a manual jump. */
  lemma NextChunkBounded(st: ReaderState)
    requires st.currentBook.Some? && st.currentChunkIndex <= |st.currentBook.value.chunks| - 1
    ensures var st2 := NextChunk(st);
      && st2.currentChunkIndex <= |st.currentBook.value.chunks| - 1
      && (st.currentChunkIndex < |st.currentBook.value.chunks| - 1 ==> st2.currentChunkIndex == st.currentChunkIndex + 1)
      && (st.currentChunkIndex == |st.currentBook.value.chunks| - 1 ==> st2 == st)
      && st2.manualJump == st.manualJump
  {
  }

  /** `prevChunk` goes back by one above 0 as a manual jump, and at 0 does nothing. */
  lemma PrevChunkBounded(st: ReaderState)
    requires st.currentChunkIndex >= 0
    ensures var st2 := PrevChunk(st);
      && st2.currentChunkIndex >= 0
      && (st.currentChunkIndex > 0 ==> st2.currentChunkIndex == st.currentChunkIndex - 1 && st2.manualJump && st2.isLoadingAudio)
      && (st.currentChunkIndex == 0 ==> st2 == st)
  {
  }

  /** A manual jump moves to the index, marks the jump and shows loading, and touches no audio. */
  lemma ManualJumpMarks(st: ReaderState, index: int)
    ensures var st2 := ManualJump(st, index);
      && st2.currentChunkIndex == index && st2.manualJump && st2.isLoadingAudio
      && st2.audioUrl == st.audioUrl && st2.audioCache == st.audioCache && st2.requestPromises == st.requestPromises
  {
  }

  /** A bookmark toggle flips exactly that index in the current book and saves it. */
  lemma ToggleBookmarkSaves(st: ReaderState, chunkIndex: int, y: int)
    requires st.currentBook.Some?
    ensures var st2 := ToggleBookmark(st, chunkIndex);
      && st2.currentBook.Some?
      && |st2.savedBooks| == |st.savedBooks| + 1 && st2.savedBooks[|st.savedBooks|] == st2.currentBook.value
      && (y in BookmarksOf(st2.currentBook.value.bookmarks) <==>
            if y == chunkIndex then y !in BookmarksOf(st.currentBook.value.bookmarks)
            else y in BookmarksOf(st.currentBook.value.bookmarks))
  {
  }

  // ---------------------------------------------------------------------
  // Behaviours of the code as written
  // ---------------------------------------------------------------------

  /**
   * The token is the time in milliseconds: a second load begun in the same
   * millisecond gets the same token, so the first load still counts as the
   * latest and its URL is shown, though the current chunk has moved on.
   */
  lemma SameMillisecondShares(st: ReaderState, now: int, jump: int, url: Url, seen: Option<Url>,
                              index: int, book: Book, voice: VoiceOption)
    requires st.currentBook.Some?
    requires 0 <= st.currentChunkIndex < |st.currentBook.value.chunks| && st.currentChunkIndex !in st.audioCache
    ensures var st1 := LoadBegin(st, now);
      var st2 := LoadBegin(ManualJump(st1, jump), now);
      && AwaitsLoad(st1, st.nextWaiter, now, st.currentChunkIndex)
      && st2.latestRequest == now
      && Complete(st2, now, index, Some(url), seen, book, voice).audioUrl == Some(url)
  {
    LoadBeginMiss(st, now);
    var st1 := LoadBegin(st, now);
    var st2 := LoadBegin(ManualJump(st1, jump), now);
    LoadBeginToken(ManualJump(st1, jump), now);
    CompleteCurrent(st2, now, index, Some(url), seen, book, voice);
  }

  /**
   * The cache write compares the book, not the voice: a request started
   * with the old voice that settles after a voice change refills the cache
   * with audio of that old voice.
   */
  lemma OldVoiceRefillsCache(st: ReaderState, index: int, text: JsString, bookId: BookId, s: Settings)
    requires st.activeBookId == Some(bookId) && index !in st.audioCache && index !in st.requestPromises
    requires s.voice != st.settings.voice
    ensures var op := |st.requests|;
      var st1 := BeginSettingsUpdate(Fetch(st, index, text, st.settings.voice, bookId).state, s);
      var st2 := Resume(st1, st.nextWaiter);
      var st3 := Settle(st2, op, true);
      && st2.audioCache == map[]
      && op < |st3.requests| && st3.requests[op].voice != st3.settings.voice
      && index in st3.audioCache && st3.results[op] == Some(st3.audioCache[index])
  {
    var op := |st.requests|;
    var f := Fetch(st, index, text, st.settings.voice, bookId);
    FetchStarted(st, index, text, st.settings.voice, bookId);
    var st1 := BeginSettingsUpdate(f.state, s);
    SettingsUpdateSaves(f.state, s);
    var st2 := Resume(st1, st.nextWaiter);
    SettingsSavedEffect(st1, st.nextWaiter);
    assert st2.requests == f.state.requests && st2.activeBookId == Some(bookId);
  }

  /**
   * `finally` deletes by index: a request that settles after its entry was
   * cleared and re-registered by a newer request removes that newer entry,
   * so the same chunk can be requested a second time while the newer
   * request is still under way.
   */
  lemma StaleFinallyDropsNewer(st: ReaderState, op: OpId, text: JsString, voice: VoiceOption, bookId: BookId)
    requires Valid(st) && op < |st.requests| && op !in st.results
    requires st.requests[op].index in st.requestPromises && st.requestPromises[st.requests[op].index] != op
    requires st.requests[op].index !in st.audioCache
    ensures var idx := st.requests[op].index;
      var newer := st.requestPromises[idx];
      var st2 := Settle(st, op, false);
      && newer !in st2.results
      && Fetch(st2, idx, text, voice, bookId).outcome == Started(|st.requests|)
  {
    var idx := st.requests[op].index;
    assert st.requests[st.requestPromises[idx]].index == idx;
  }

  /**
   * A load after a manual jump that misses the cache blanks the URL shown,
   * while the waiter it parks keeps the render's URL as the one it saw.
   */
  lemma LoadSeesRenderUrl(st: ReaderState, now: int)
    requires st.currentBook.Some? && 0 <= st.currentChunkIndex < |st.currentBook.value.chunks|
    requires st.currentChunkIndex !in st.audioCache && st.manualJump && st.audioUrl.Some?
    ensures var st2 := LoadBegin(st, now);
      && st2.audioUrl == None
      && st2.waiters[st.nextWaiter].seen == st.audioUrl
  {
    LoadBeginMiss(st, now);
  }
}
