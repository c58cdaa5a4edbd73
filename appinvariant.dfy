/**
 * The invariant of the reading view's audio pipeline, and the proof that
 * every event of `App` keeps it: pending entries name unsettled requests
 * for their own index, cached URLs are live, and every URL and request
 * that state or a continuation refers to exists.
 */
module AppInvariant {
  import opened Wrappers
  import opened JsStrings
  import opened Types
  import opened App

  /** A pending entry names an unsettled request for that very index. */
  predicate PendingOk(pending: map<int, OpId>, requests: seq<Request>, results: map<OpId, Option<Url>>)
  {
    forall i :: i in pending ==> pending[i] < |requests| && requests[pending[i]].index == i && pending[i] !in results
  }

  /** A cached URL was made and has not been revoked. */
  predicate CacheOk(cache: map<int, Url>, nextUrl: nat, revoked: set<Url>)
  {
    forall i :: i in cache ==> cache[i] < nextUrl && cache[i] !in revoked
  }

  predicate Made(u: Option<Url>, nextUrl: nat)
  {
    u.Some? ==> u.value < nextUrl
  }

  predicate ResultsOk(results: map<OpId, Option<Url>>, requestCount: nat, nextUrl: nat)
  {
    forall op :: op in results ==> op < requestCount && Made(results[op], nextUrl)
  }

  predicate RevokedOk(revoked: set<Url>, nextUrl: nat)
  {
    forall u :: u in revoked ==> u < nextUrl
  }

  predicate SourceOk(source: Source, requestCount: nat, nextUrl: nat)
  {
    match source
    case Ready(v) => Made(v, nextUrl)
    case Awaiting(op) => op < requestCount
  }

  predicate WaiterOk(w: Waiter, requestCount: nat, nextUrl: nat)
  {
    match w
    case ResumeLoad(_, _, _, _, _, source) => SourceOk(source, requestCount, nextUrl)
    case OfferNext(_, _, source) => SourceOk(source, requestCount, nextUrl)
    case SettingsSaved(_, _, _, _) => true
  }

  predicate WaitersOk(waiters: map<nat, Waiter>, nextWaiter: nat, requestCount: nat, nextUrl: nat)
  {
    forall k :: k in waiters ==> k < nextWaiter && WaiterOk(waiters[k], requestCount, nextUrl)
  }

  /**
   * The pipeline's invariant: pending entries are unsettled requests for
   * their index, cached URLs are live, every URL shown, offered, settled
   * or revoked was made, and continuations wait on requests that exist.
   */
  predicate Valid(st: ReaderState)
  {
    && PendingOk(st.requestPromises, st.requests, st.results)
    && CacheOk(st.audioCache, st.nextUrl, st.revoked)
    && ResultsOk(st.results, |st.requests|, st.nextUrl)
    && RevokedOk(st.revoked, st.nextUrl)
    && WaitersOk(st.waiters, st.nextWaiter, |st.requests|, st.nextUrl)
    && Made(st.audioUrl, st.nextUrl)
    && Made(st.nextAudioUrl, st.nextUrl)
  }

  /** More URLs and more requests keep every reference valid. */
  lemma Grow(st: ReaderState, nextUrl: nat, requestCount: nat)
    requires Valid(st) && st.nextUrl <= nextUrl && |st.requests| <= requestCount
    ensures ResultsOk(st.results, requestCount, nextUrl)
    ensures WaitersOk(st.waiters, st.nextWaiter, requestCount, nextUrl)
    ensures RevokedOk(st.revoked, nextUrl)
    ensures Made(st.audioUrl, nextUrl) && Made(st.nextAudioUrl, nextUrl)
  {
    forall k | k in st.waiters ensures WaiterOk(st.waiters[k], requestCount, nextUrl) {
      assert WaiterOk(st.waiters[k], |st.requests|, st.nextUrl);
    }
  }

  lemma InitValid()
    ensures Valid(INIT)
  {
  }

  /** A fetch keeps the invariant, and what it answers can be waited on. */
  lemma FetchValid(st: ReaderState, index: int, text: JsString, voice: VoiceOption, bookId: BookId)
    requires Valid(st)
    ensures Valid(Fetch(st, index, text, voice, bookId).state)
    ensures var f := Fetch(st, index, text, voice, bookId);
      SourceOk(SourceOf(f.outcome), |f.state.requests|, f.state.nextUrl)
  {
    if index !in st.audioCache && index !in st.requestPromises {
      var op := |st.requests|;
      var requests := st.requests + [Request(index, text, voice, bookId)];
      var pending := st.requestPromises[index := op];
      Grow(st, st.nextUrl, |requests|);
      assert op !in st.results;
      forall i | i in pending ensures pending[i] < |requests| && requests[pending[i]].index == i && pending[i] !in st.results {
        if i != index {
          assert requests[st.requestPromises[i]] == st.requests[st.requestPromises[i]];
        }
      }
    }
  }

  lemma AwaitValid(st: ReaderState, w: Waiter)
    requires Valid(st) && WaiterOk(w, |st.requests|, st.nextUrl)
    ensures Valid(Await(st, w))
  {
  }

  /** Removing the settled request's index keeps every other pending entry unsettled. */
  lemma SettlePendingOk(pending: map<int, OpId>, requests: seq<Request>, results: map<OpId, Option<Url>>,
                        op: OpId, v: Option<Url>)
    requires PendingOk(pending, requests, results) && op < |requests|
    ensures PendingOk(pending - {requests[op].index}, requests, results[op := v])
  {
    forall i | i in pending - {requests[op].index} ensures pending[i] != op {
      assert requests[pending[i]].index == i;
    }
  }

  lemma SettleResultsOk(results: map<OpId, Option<Url>>, requestCount: nat, nextUrl: nat, op: OpId, v: Option<Url>)
    requires ResultsOk(results, requestCount, nextUrl) && op < requestCount && Made(v, nextUrl + 1)
    ensures ResultsOk(results[op := v], requestCount, nextUrl + 1)
  {
  }

  lemma CacheNewOk(cache: map<int, Url>, nextUrl: nat, revoked: set<Url>, index: int)
    requires CacheOk(cache, nextUrl, revoked) && RevokedOk(revoked, nextUrl)
    ensures CacheOk(cache[index := nextUrl], nextUrl + 1, revoked)
  {
  }

  lemma RevokeNewOk(cache: map<int, Url>, nextUrl: nat, revoked: set<Url>)
    requires CacheOk(cache, nextUrl, revoked)
    ensures CacheOk(cache, nextUrl + 1, revoked + {nextUrl})
  {
  }

  lemma SettleFailedValid(st: ReaderState, op: OpId)
    requires Valid(st) && op < |st.requests| && op !in st.results
    ensures Valid(Settle(st, op, false))
  {
    var st2 := Settle(st, op, false);
    SettlePendingOk(st.requestPromises, st.requests, st.results, op, None);
    assert st2.results == st.results[op := None];
  }

  lemma SettleCachedValid(st: ReaderState, op: OpId)
    requires Valid(st) && op < |st.requests| && op !in st.results
    requires st.activeBookId == Some(st.requests[op].bookId)
    ensures Valid(Settle(st, op, true))
  {
    var req := st.requests[op];
    var st2 := Settle(st, op, true);
    SettlePendingOk(st.requestPromises, st.requests, st.results, op, Some(st.nextUrl));
    Grow(st, st.nextUrl + 1, |st.requests|);
    SettleResultsOk(st.results, |st.requests|, st.nextUrl, op, Some(st.nextUrl));
    CacheNewOk(st.audioCache, st.nextUrl, st.revoked, req.index);
    assert st2.results == st.results[op := Some(st.nextUrl)];
    assert st2.audioCache == st.audioCache[req.index := st.nextUrl];
  }

  lemma SettleRevokedValid(st: ReaderState, op: OpId)
    requires Valid(st) && op < |st.requests| && op !in st.results
    requires st.activeBookId != Some(st.requests[op].bookId)
    ensures Valid(Settle(st, op, true))
  {
    var st2 := Settle(st, op, true);
    SettlePendingOk(st.requestPromises, st.requests, st.results, op, None);
    Grow(st, st.nextUrl + 1, |st.requests|);
    SettleResultsOk(st.results, |st.requests|, st.nextUrl, op, None);
    RevokeNewOk(st.audioCache, st.nextUrl, st.revoked);
    assert st2.results == st.results[op := None];
    assert st2.revoked == st.revoked + {st.nextUrl};
  }

  /** Settling a request once keeps the invariant. */
  lemma SettleValid(st: ReaderState, op: OpId, succeeded: bool)
    requires Valid(st) && op < |st.requests| && op !in st.results
    ensures Valid(Settle(st, op, succeeded))
  {
    if !succeeded {
      SettleFailedValid(st, op);
    } else if st.activeBookId == Some(st.requests[op].bookId) {
      SettleCachedValid(st, op);
    } else {
      SettleRevokedValid(st, op);
    }
  }

  /** The URLs of the cache, revoked on invalidation, were all made. */
  lemma CacheValuesMade(st: ReaderState)
    requires Valid(st)
    ensures RevokedOk(st.revoked + CachedUrls(st.audioCache), st.nextUrl)
  {
  }

  lemma InvalidatedValid(st: ReaderState)
    requires Valid(st)
    ensures Valid(Invalidated(st))
  {
    CacheValuesMade(st);
  }

  lemma SelectBookValid(st: ReaderState, book: Book)
    requires Valid(st)
    ensures Valid(SelectBook(st, book))
  {
    InvalidatedValid(st.(audioUrl := None, nextAudioUrl := None));
  }

  /** A continuation on what a fetch answers can be registered without breaking the invariant. */
  lemma OfferNextValid(st: ReaderState, token: int, seen: Option<Url>, index: int, text: JsString,
                       voice: VoiceOption, bookId: BookId)
    requires Valid(st)
    ensures var f := Fetch(st, index, text, voice, bookId);
      Valid(Await(f.state, OfferNext(token, seen, SourceOf(f.outcome))))
  {
    var f := Fetch(st, index, text, voice, bookId);
    FetchValid(st, index, text, voice, bookId);
    AwaitValid(f.state, OfferNext(token, seen, SourceOf(f.outcome)));
  }

  /** With a next chunk, the prefetch is a fetch followed by a continuation that offers its URL. */
  lemma PrefetchNextFetches(st: ReaderState, token: int, index: int, seen: Option<Url>, book: Book, voice: VoiceOption)
    requires 0 <= index + 1 < |book.chunks|
    ensures var f := Fetch(st, index + 1, book.chunks[index + 1].text, voice, book.id);
      PrefetchNext(st, token, index, seen, book, voice) == Await(f.state, OfferNext(token, seen, SourceOf(f.outcome)))
  {
  }

  lemma PrefetchNextValid(st: ReaderState, token: int, index: int, seen: Option<Url>, book: Book, voice: VoiceOption)
    requires Valid(st)
    ensures Valid(PrefetchNext(st, token, index, seen, book, voice))
  {
    if 0 <= index + 1 < |book.chunks| {
      PrefetchNextFetchValid(st, token, index, seen, book, voice);
    }
  }

  lemma PrefetchNextFetchValid(st: ReaderState, token: int, index: int, seen: Option<Url>, book: Book, voice: VoiceOption)
    requires Valid(st) && 0 <= index + 1 < |book.chunks|
    ensures Valid(PrefetchNext(st, token, index, seen, book, voice))
  {
    PrefetchNextFetches(st, token, index, seen, book, voice);
    OfferNextValid(st, token, seen, index + 1, book.chunks[index + 1].text, voice, book.id);
  }

  lemma PrefetchAfterNextValid(st: ReaderState, index: int, book: Book, voice: VoiceOption)
    requires Valid(st)
    ensures Valid(PrefetchAfterNext(st, index, book, voice))
  {
    if 0 <= index + 2 < |book.chunks| {
      FetchValid(st, index + 2, book.chunks[index + 2].text, voice, book.id);
    }
  }

  /** Completing a load with a URL that was made keeps the invariant. */
  lemma CompleteValid(st: ReaderState, token: int, index: int, url: Option<Url>, seen: Option<Url>,
                      book: Book, voice: VoiceOption)
    requires Valid(st) && Made(url, st.nextUrl)
    ensures Valid(Complete(st, token, index, url, seen, book, voice))
  {
    if st.latestRequest == token {
      var a := st.(audioUrl := if url.Some? then url else st.audioUrl, isLoadingAudio := false, manualJump := false);
      PrefetchNextValid(a, token, index, seen, book, voice);
      PrefetchAfterNextValid(PrefetchNext(a, token, index, seen, book, voice), index, book, voice);
    }
  }

  lemma LoadBeginValid(st: ReaderState, now: int)
    requires Valid(st) && st.currentBook.Some?
    ensures Valid(LoadBegin(st, now))
  {
    var book := st.currentBook.value;
    var index := st.currentChunkIndex;
    var voice := st.settings.voice;
    var st1 := st.(latestRequest := now);
    var st2 := if st.manualJump then st1.(audioUrl := None, nextAudioUrl := None, isLoadingAudio := true) else st1;
    assert Valid(st2);
    if 0 <= index < |book.chunks| {
      if index in st2.audioCache {
        CompleteValid(st2.(isLoadingAudio := false), now, index, Some(st2.audioCache[index]), st.audioUrl, book, voice);
      } else {
        var st3 := st2.(isLoadingAudio := true);
        var f := Fetch(st3, index, book.chunks[index].text, voice, book.id);
        FetchValid(st3, index, book.chunks[index].text, voice, book.id);
        AwaitValid(f.state, ResumeLoad(now, index, st.audioUrl, book, voice, SourceOf(f.outcome)));
      }
    }
  }

  lemma LoaderEffectValid(st: ReaderState, now: int)
    requires Valid(st)
    ensures Valid(LoaderEffect(st, now))
  {
    var st1 := st.(lastDeps := Some(DepsOf(st)), clock := now);
    if st.appState == Reading && st.currentBook.Some? {
      LoadBeginValid(st1, now);
    }
  }

  lemma BeginSettingsUpdateValid(st: ReaderState, newSettings: Settings)
    requires Valid(st)
    ensures Valid(BeginSettingsUpdate(st, newSettings))
  {
  }

  /** A ready source yields a URL that was made. */
  lemma ValueMade(st: ReaderState, source: Source)
    requires Valid(st) && SourceReady(st, source) && SourceOk(source, |st.requests|, st.nextUrl)
    ensures Made(ValueOf(st, source), st.nextUrl)
  {
  }

  lemma ResumeValid(st: ReaderState, k: nat)
    requires Valid(st) && k in st.waiters && WaiterReady(st, st.waiters[k])
    ensures Valid(Resume(st, k))
  {
    var st1 := st.(waiters := st.waiters - {k});
    assert Valid(st1);
    assert WaiterOk(st.waiters[k], |st.requests|, st.nextUrl);
    match st.waiters[k]
    case ResumeLoad(token, index, seen, book, voice, source) =>
      ValueMade(st, source);
      CompleteValid(st1, token, index, ValueOf(st, source), seen, book, voice);
    case OfferNext(token, seen, source) =>
      ValueMade(st, source);
    case SettingsSaved(newVoice, oldVoice, hadBook, index) =>
      InvalidatedValid(st1);
  }
}
