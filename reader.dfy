/**
 * The reading view of `App` as an object. The Maps and refs the component
 * mutates in place (`audioCacheRef`, `requestPromisesRef`,
 * `activeBookIdRef`, `latestRequestRef`, `manualJumpRef`) are fields of
 * their own; the React state is one record the handlers replace, as
 * `setState` does; what lies outside the component (clock, blob URLs,
 * requests in flight, continuations, storage) is another. Every method is
 * proved to perform the event of `App` it stands for, so the invariant and
 * the properties proved about those events hold of the object.
 */
module ReaderView {
  import opened Wrappers
  import opened JsStrings
  import opened Types
  import opened App
  import AppInvariant

  /** The component's `useState` values. */
  datatype View = View(
    appState: AppState,
    currentBook: Option<Book>,
    settings: Settings,
    currentChunkIndex: int,
    audioUrl: Option<Url>,
    nextAudioUrl: Option<Url>,
    isLoadingAudio: bool)

  /** What the runtime and the browser hold for the component. */
  datatype Runtime = Runtime(
    lastDeps: Option<Deps>,
    clock: int,
    nextUrl: nat,
    revoked: set<Url>,
    requests: seq<Request>,
    results: map<OpId, Option<Url>>,
    waiters: map<nat, Waiter>,
    nextWaiter: nat,
    savedBooks: seq<Book>,
    savedSettings: seq<Settings>)

  function ViewOf(st: ReaderState): View
  {
    View(st.appState, st.currentBook, st.settings, st.currentChunkIndex, st.audioUrl, st.nextAudioUrl, st.isLoadingAudio)
  }

  function RuntimeOf(st: ReaderState): Runtime
  {
    Runtime(st.lastDeps, st.clock, st.nextUrl, st.revoked, st.requests, st.results, st.waiters, st.nextWaiter,
            st.savedBooks, st.savedSettings)
  }

  class Reader {
    var view: View
    var audioCache: map<int, Url>
    var requestPromises: map<int, OpId>
    var activeBookId: Option<BookId>
    var latestRequest: int
    var manualJump: bool
    var runtime: Runtime

    /** The fields as one value. */
    function State(): ReaderState
      reads this
    {
      ReaderState(view.appState, view.currentBook, view.settings, view.currentChunkIndex, view.audioUrl,
                  view.nextAudioUrl, view.isLoadingAudio, audioCache, requestPromises, activeBookId, latestRequest,
                  manualJump, runtime.lastDeps, runtime.clock, runtime.nextUrl, runtime.revoked, runtime.requests,
                  runtime.results, runtime.waiters, runtime.nextWaiter, runtime.savedBooks, runtime.savedSettings)
    }

    predicate Valid()
      reads this
    {
      AppInvariant.Valid(State())
    }

    /** The first render: the library view, default settings, no audio. */
    constructor()
      ensures State() == INIT && Valid()
    {
      view := ViewOf(INIT);
      audioCache, requestPromises, activeBookId, latestRequest, manualJump := map[], map[], None, 0, false;
      runtime := RuntimeOf(INIT);
      AppInvariant.InitValid();
    }

    /** `fetchChunkAudio(index, text, voice)` from a render where book `bookId` is open. */
    method FetchChunkAudio(index: int, text: JsString, voice: VoiceOption, bookId: BookId) returns (outcome: FetchOutcome)
      modifies this
      ensures Fetched(outcome, State()) == Fetch(old(State()), index, text, voice, bookId)
    {
      if index in audioCache {
        outcome := Hit(audioCache[index]);
      } else if index in requestPromises {
        outcome := Joined(requestPromises[index]);
      } else {
        var op := |runtime.requests|;
        runtime := runtime.(requests := runtime.requests + [Request(index, text, voice, bookId)]);
        requestPromises := requestPromises[index := op];
        outcome := Started(op);
      }
    }

    /** The `then`/`catch`/`finally` of request `op`. */
    method SettleRequest(op: OpId, succeeded: bool)
      requires Valid() && op < |runtime.requests| && op !in runtime.results
      modifies this
      ensures State() == Settle(old(State()), op, succeeded)
      ensures Valid()
    {
      ghost var st := State();
      AppInvariant.SettleValid(st, op, succeeded);
      var req := runtime.requests[op];
      var url := runtime.nextUrl;
      if !succeeded {
        runtime := runtime.(results := runtime.results[op := None]);
      } else if activeBookId == Some(req.bookId) {
        audioCache := audioCache[req.index := url];
        runtime := runtime.(nextUrl := url + 1, results := runtime.results[op := Some(url)]);
      } else {
        runtime := runtime.(revoked := runtime.revoked + {url}, nextUrl := url + 1, results := runtime.results[op := None]);
      }
      requestPromises := requestPromises - {req.index};
    }

    /** Revoke every cached URL, then clear the cache and the pending map. */
    method Invalidate()
      modifies this
      ensures State() == Invalidated(old(State()))
    {
      runtime := runtime.(revoked := runtime.revoked + CachedUrls(audioCache));
      audioCache := map[];
      requestPromises := map[];
    }

    /** `handleBookSelect(book)`. */
    method HandleBookSelect(book: Book)
      requires Valid()
      modifies this
      ensures State() == SelectBook(old(State()), book)
      ensures Valid()
    {
      ghost var st := State();
      AppInvariant.SelectBookValid(st, book);
      if activeBookId != Some(book.id) {
        view := view.(audioUrl := None, nextAudioUrl := None);
        Invalidate();
        activeBookId := Some(book.id);
      }
      view := view.(currentBook := Some(book), currentChunkIndex := book.lastPosition, appState := Reading);
    }

    /** `updateSettings(newSettings)` up to the `await` of the save. */
    method UpdateSettings(newSettings: Settings)
      requires Valid()
      modifies this
      ensures State() == BeginSettingsUpdate(old(State()), newSettings)
      ensures Valid()
    {
      ghost var st := State();
      AppInvariant.BeginSettingsUpdateValid(st, newSettings);
      var w := SettingsSaved(newSettings.voice, view.settings.voice, view.currentBook.Some?, view.currentChunkIndex);
      view := view.(settings := newSettings);
      runtime := runtime.(savedSettings := runtime.savedSettings + [newSettings]);
      Suspend(w);
    }

    /** `handleManualJump(index)`. */
    method HandleManualJump(index: int)
      requires Valid()
      modifies this
      ensures State() == ManualJump(old(State()), index)
      ensures Valid()
    {
      manualJump := true;
      view := view.(currentChunkIndex := index, isLoadingAudio := true);
    }

    /** `nextChunk()`. */
    method Next()
      requires Valid()
      modifies this
      ensures State() == NextChunk(old(State()))
      ensures Valid()
    {
      if view.currentBook.Some? && view.currentChunkIndex < |view.currentBook.value.chunks| - 1 {
        view := view.(currentChunkIndex := view.currentChunkIndex + 1);
      }
    }

    /** `prevChunk()`. */
    method Prev()
      requires Valid()
      modifies this
      ensures State() == PrevChunk(old(State()))
      ensures Valid()
    {
      if view.currentChunkIndex > 0 {
        HandleManualJump(view.currentChunkIndex - 1);
      }
    }

    /** `toggleBookmark(chunkIndex)`. */
    method ToggleBookmarkAt(chunkIndex: int)
      requires Valid()
      modifies this
      ensures State() == ToggleBookmark(old(State()), chunkIndex)
      ensures Valid()
    {
      if view.currentBook.Some? {
        var book := view.currentBook.value;
        var updated := book.(bookmarks := Some(ToggledBookmarks(book.bookmarks, chunkIndex)));
        view := view.(currentBook := Some(updated));
        runtime := runtime.(savedBooks := runtime.savedBooks + [updated]);
      }
    }

    /** Register a continuation. */
    method Suspend(w: Waiter)
      modifies this
      ensures State() == Await(old(State()), w)
    {
      runtime := runtime.(waiters := runtime.waiters[runtime.nextWaiter := w], nextWaiter := runtime.nextWaiter + 1);
    }

    /**
     * The loader effect, run by React at time `now` because its dependencies
     * changed; the clock never goes back.
     */
    method RunLoaderEffect(now: int)
      requires Valid() && now >= runtime.clock && runtime.lastDeps != Some(DepsOf(State()))
      modifies this
      ensures State() == LoaderEffect(old(State()), now)
      ensures Valid()
    {
      ghost var st := State();
      AppInvariant.LoaderEffectValid(st, now);
      runtime := runtime.(lastDeps := Some(DepsOf(State())), clock := now);
      if view.appState == Reading && view.currentBook.Some? {
        Load(now);
      }
    }

    /** `load()` up to its `await`. */
    method Load(now: int)
      requires view.currentBook.Some?
      modifies this
      ensures State() == LoadBegin(old(State()), now)
    {
      var book := view.currentBook.value;
      var index := view.currentChunkIndex;
      var voice := view.settings.voice;
      var seen := view.audioUrl;
      latestRequest := now;
      if manualJump {
        view := view.(audioUrl := None, nextAudioUrl := None, isLoadingAudio := true);
      }
      if 0 <= index < |book.chunks| {
        if index in audioCache {
          view := view.(isLoadingAudio := false);
          Finish(now, index, Some(audioCache[index]), seen, book, voice);
        } else {
          view := view.(isLoadingAudio := true);
          var outcome := FetchChunkAudio(index, book.chunks[index].text, voice, book.id);
          Suspend(ResumeLoad(now, index, seen, book, voice, SourceOf(outcome)));
        }
      }
    }

    /** The prefetch of chunk `index + 1`, whose URL is offered when it arrives. */
    method PrefetchNextChunk(token: int, index: int, seen: Option<Url>, book: Book, voice: VoiceOption)
      modifies this
      ensures State() == PrefetchNext(old(State()), token, index, seen, book, voice)
    {
      if 0 <= index + 1 < |book.chunks| {
        var outcome := FetchChunkAudio(index + 1, book.chunks[index + 1].text, voice, book.id);
        Suspend(OfferNext(token, seen, SourceOf(outcome)));
      }
    }

    /** The background prefetch of chunk `index + 2`. */
    method PrefetchAfterNextChunk(index: int, book: Book, voice: VoiceOption)
      modifies this
      ensures State() == PrefetchAfterNext(old(State()), index, book, voice)
    {
      if 0 <= index + 2 < |book.chunks| {
        var _ := FetchChunkAudio(index + 2, book.chunks[index + 2].text, voice, book.id);
      }
    }

    /** The rest of `load()` once the URL is known. */
    method Finish(token: int, index: int, url: Option<Url>, seen: Option<Url>, book: Book, voice: VoiceOption)
      modifies this
      ensures State() == Complete(old(State()), token, index, url, seen, book, voice)
    {
      if latestRequest == token {
        view := view.(audioUrl := if url.Some? then url else view.audioUrl, isLoadingAudio := false);
        manualJump := false;
        PrefetchNextChunk(token, index, seen, book, voice);
        PrefetchAfterNextChunk(index, book, voice);
      }
      runtime := runtime.(savedBooks := runtime.savedBooks + [book.(lastPosition := index)]);
    }

    /** Continuation `k` runs, keeping the invariant. */
    method Continue(k: nat)
      requires Valid() && k in runtime.waiters && WaiterReady(State(), runtime.waiters[k])
      modifies this
      ensures State() == Resume(old(State()), k)
      ensures Valid()
    {
      AppInvariant.ResumeValid(State(), k);
      ResumeWaiter(k);
    }

    /** Continuation `k` runs. */
    method ResumeWaiter(k: nat)
      requires k in runtime.waiters && WaiterReady(State(), runtime.waiters[k])
      modifies this
      ensures State() == Resume(old(State()), k)
    {
      var w := runtime.waiters[k];
      var results := runtime.results;
      runtime := runtime.(waiters := runtime.waiters - {k});
      match w
      case ResumeLoad(token, index, seen, book, voice, source) =>
        var v := if source.Ready? then source.value else results[source.op];
        Finish(token, index, v, seen, book, voice);
      case OfferNext(token, seen, source) =>
        var v := if source.Ready? then source.value else results[source.op];
        if latestRequest == token && v.Some? && seen.None? {
          view := view.(nextAudioUrl := v);
        }
      case SettingsSaved(newVoice, oldVoice, hadBook, index) =>
        if newVoice != oldVoice {
          Invalidate();
          if hadBook {
            manualJump := true;
            view := view.(currentChunkIndex := index, isLoadingAudio := true);
          }
        }
    }
  }
}
