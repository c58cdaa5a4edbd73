/**
 * The table of contents of the reading view: the heading chunks of the
 * book, and which of them is highlighted for the current chunk index.
 */
module Sidebar {
  import opened Wrappers
  import opened Types

  /** `chunks.filter(c => c.isHeading)`. */
  function Chapters(chunks: seq<TextChunk>): (r: seq<TextChunk>)
    ensures |r| <= |chunks|
    ensures forall i :: 0 <= i < |r| ==> r[i].isHeading
  {
    if chunks == [] then []
    else if chunks[|chunks| - 1].isHeading then Chapters(chunks[..|chunks| - 1]) + [chunks[|chunks| - 1]]
    else Chapters(chunks[..|chunks| - 1])
  }

  /** The filter works chunk by chunk: it distributes over concatenation. */
  lemma {:induction false} ChaptersAppend(a: seq<TextChunk>, b: seq<TextChunk>)
    ensures Chapters(a + b) == Chapters(a) + Chapters(b)
    decreases |b|
  {
    if b == [] {
      assert a + b == a;
    } else {
      assert (a + b)[..|a + b| - 1] == a + b[..|b| - 1];
      ChaptersAppend(a, b[..|b| - 1]);
    }
  }

  /** A chunk is listed exactly when it is a heading of the book. */
  lemma {:induction false} ChaptersMembers(chunks: seq<TextChunk>, c: TextChunk)
    ensures c in Chapters(chunks) <==> c in chunks && c.isHeading
    decreases |chunks|
  {
    if chunks != [] {
      ChaptersMembers(chunks[..|chunks| - 1], c);
      assert chunks == chunks[..|chunks| - 1] + [chunks[|chunks| - 1]];
    }
  }

  predicate StrictlyIncreasing(cs: seq<TextChunk>)
  {
    forall i, j :: 0 <= i < j < |cs| ==> cs[i].id < cs[j].id
  }

  /** Filtering keeps the order, so increasing chunk ids give increasing chapter ids. */
  lemma {:induction false} ChaptersIncreasing(chunks: seq<TextChunk>)
    requires StrictlyIncreasing(chunks)
    ensures StrictlyIncreasing(Chapters(chunks))
    decreases |chunks|
  {
    if chunks != [] {
      var init := chunks[..|chunks| - 1];
      ChaptersIncreasing(init);
      if chunks[|chunks| - 1].isHeading {
        var r := Chapters(chunks);
        forall i | 0 <= i < |r| - 1 ensures r[i].id < r[|r| - 1].id {
          assert r[i] in Chapters(init);
          ChaptersMembers(init, r[i]);
        }
      }
    }
  }

  /** `chapters.find(c => c.id > id)?.id`: the id of the first chapter in the list above `id`. */
  function FirstIdAbove(chapters: seq<TextChunk>, id: int): Option<nat>
  {
    if chapters == [] then None
    else if chapters[0].id > id then Some(chapters[0].id)
    else FirstIdAbove(chapters[1..], id)
  }

  /** What `find` returns: the id of the first chapter above `id`, or nothing when none is. */
  lemma {:induction false} FirstIdAboveFound(chapters: seq<TextChunk>, id: int)
    ensures var r := FirstIdAbove(chapters, id);
      && (r.Some? ==> exists k :: 0 <= k < |chapters| && chapters[k].id == r.value > id
                        && forall j :: 0 <= j < k ==> chapters[j].id <= id)
      && (r.None? ==> forall j :: 0 <= j < |chapters| ==> chapters[j].id <= id)
    decreases |chapters|
  {
    if chapters != [] && chapters[0].id <= id {
      var tail := chapters[1..];
      FirstIdAboveFound(tail, id);
      var r := FirstIdAbove(tail, id);
      if r.Some? {
        var k :| 0 <= k < |tail| && tail[k].id == r.value > id
                 && forall j :: 0 <= j < k ==> tail[j].id <= id;
        assert chapters[k + 1] == tail[k];
        forall j | 0 <= j < k + 1 ensures chapters[j].id <= id {
          if j > 0 { assert chapters[j] == tail[j - 1]; }
        }
      } else {
        forall j | 0 <= j < |chapters| ensures chapters[j].id <= id {
          if j > 0 { assert chapters[j] == tail[j - 1]; }
        }
      }
    }
  }

  /**
   * `isActive`: the current index is at or after the chapter and below the
   * next greater chapter id; with none, the bound is Infinity. (A found id is
   * above a chunk id and so never 0, and `|| Infinity` never replaces it.)
   */
  predicate IsActive(chapters: seq<TextChunk>, chapter: TextChunk, current: int)
    ensures IsActive(chapters, chapter, current) <==>
      chapter.id <= current && forall j :: FirstAbove(chapters, chapter.id, j) ==> current < chapters[j].id
  {
    FirstAboveBound(chapters, chapter.id, current);
    && current >= chapter.id
    && match FirstIdAbove(chapters, chapter.id)
       case None => true
       case Some(bound) => bound > current
  }

  /** Chapter `j` is the first whose id is above `id`. */
  predicate FirstAbove(chapters: seq<TextChunk>, id: int, j: int)
  {
    0 <= j < |chapters| && chapters[j].id > id && forall i :: 0 <= i < j ==> chapters[i].id <= id
  }

  /** The bound `find` gives is the id of the first chapter above, and there is none when `find` finds none. */
  lemma FirstAboveBound(chapters: seq<TextChunk>, id: int, current: int)
    ensures (match FirstIdAbove(chapters, id) case None => true case Some(bound) => bound > current)
        <==> forall j :: FirstAbove(chapters, id, j) ==> current < chapters[j].id
  {
    FirstIdAboveFound(chapters, id);
    match FirstIdAbove(chapters, id)
    case None =>
    case Some(bound) =>
      var k :| 0 <= k < |chapters| && chapters[k].id == bound > id
               && forall j :: 0 <= j < k ==> chapters[j].id <= id;
      assert FirstAbove(chapters, id, k);
      assert forall j :: FirstAbove(chapters, id, j) ==> j == k;
  }

  /** With increasing ids, chapter k is active iff current lies in [id of k, id of k+1). */
  lemma ActiveRange(chapters: seq<TextChunk>, k: int, current: int)
    requires StrictlyIncreasing(chapters) && 0 <= k < |chapters|
    ensures IsActive(chapters, chapters[k], current) <==>
      chapters[k].id <= current && (k == |chapters| - 1 || current < chapters[k + 1].id)
  {
    FirstIdAboveFound(chapters, chapters[k].id);
    if k < |chapters| - 1 {
      assert chapters[k + 1].id > chapters[k].id;
    }
  }

  /** An active chapter's range ends before every later chapter starts. */
  lemma ActiveBelowLater(chapters: seq<TextChunk>, k: int, current: int)
    requires StrictlyIncreasing(chapters) && 0 <= k < |chapters|
    requires IsActive(chapters, chapters[k], current)
    ensures forall j :: k < j < |chapters| ==> current < chapters[j].id
  {
    ActiveRange(chapters, k, current);
  }

  /** With increasing ids, at most one chapter is active. */
  lemma AtMostOneActive(chapters: seq<TextChunk>, i: int, j: int, current: int)
    requires StrictlyIncreasing(chapters) && 0 <= i < |chapters| && 0 <= j < |chapters|
    requires IsActive(chapters, chapters[i], current) && IsActive(chapters, chapters[j], current)
    ensures i == j
  {
    ActiveBelowLater(chapters, i, current);
    ActiveBelowLater(chapters, j, current);
  }

  /** With increasing ids, some chapter is active once current reaches the first one. */
  lemma SomeActive(chapters: seq<TextChunk>, current: int)
    requires StrictlyIncreasing(chapters) && |chapters| > 0 && current >= chapters[0].id
    ensures exists k :: 0 <= k < |chapters| && IsActive(chapters, chapters[k], current)
  {
    var k := 0;
    while k < |chapters| - 1 && chapters[k + 1].id <= current
      invariant 0 <= k < |chapters| && chapters[k].id <= current
    {
      k := k + 1;
    }
    ActiveRange(chapters, k, current);
  }

  /** With increasing ids, no chapter is active before the first one. */
  lemma NoneActiveBeforeFirst(chapters: seq<TextChunk>, current: int)
    requires StrictlyIncreasing(chapters) && |chapters| > 0 && current < chapters[0].id
    ensures forall k :: 0 <= k < |chapters| ==> !IsActive(chapters, chapters[k], current)
  {
    forall k | 0 <= k < |chapters| ensures !IsActive(chapters, chapters[k], current) {
      if k > 0 {
        assert chapters[0].id < chapters[k].id;
      }
    }
  }
}
