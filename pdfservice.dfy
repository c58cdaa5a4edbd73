/**
 * Text extraction and chunking of the PDF service. `ExtractText` is the body
 * of `extractTextFromPdf` once pdf.js has produced the text items of every
 * page: it drops page-number and footer items, joins the remaining lines
 * into paragraphs, and joins the pages with newlines. `ChunkText` splits a
 * book's text into the numbered chunks the reader plays one at a time.
 */
module PdfService {
  import opened JsStrings
  import opened Wrappers
  import opened Types

  // ---------------------------------------------------------------------
  // The item filter
  // ---------------------------------------------------------------------

  /** `/^\d{1,5}$/.test(t)`. */
  predicate IsShortNumber(t: JsString)
  {
    1 <= |t| <= 5 && forall i :: 0 <= i < |t| ==> IsDigit(t[i])
  }

  /** Position `i` starts `Page ` in any ASCII case, followed by a digit. */
  predicate PageMarkerAt(t: JsString, i: int)
    requires 0 <= i
  {
    && i + 6 <= |t|
    && LowerUnit(t[i]) == 0x70 && LowerUnit(t[i + 1]) == 0x61   // 'p', 'a'
    && LowerUnit(t[i + 2]) == 0x67 && LowerUnit(t[i + 3]) == 0x65  // 'g', 'e'
    && t[i + 4] == SPACE
    && IsDigit(t[i + 5])
  }

  /** `/Page \d+/i.test(t)`: some position starts a page marker. */
  predicate HasPageMarker(t: JsString)
  {
    exists i :: 0 <= i < |t| && PageMarkerAt(t, i)
  }

  /** The regular-expression search: tries each start position from `from` on. */
  function FindPageMarker(t: JsString, from: nat): (r: Option<nat>)
    decreases |t| - from
  {
    if from + 6 > |t| then None
    else if PageMarkerAt(t, from) then Some(from)
    else FindPageMarker(t, from + 1)
  }

  /** The search finds the first marker at or after `from`, and finds one whenever one exists. */
  lemma {:induction false} FindPageMarkerCorrect(t: JsString, from: nat)
    ensures var r := FindPageMarker(t, from);
      && (r.Some? ==> from <= r.value && PageMarkerAt(t, r.value)
                      && forall j :: from <= j < r.value ==> !PageMarkerAt(t, j))
      && (r.None? ==> forall j :: from <= j < |t| ==> !PageMarkerAt(t, j))
    decreases |t| - from
  {
    if from + 6 <= |t| && !PageMarkerAt(t, from) {
      FindPageMarkerCorrect(t, from + 1);
    }
  }

  lemma PageMarkerSearch(t: JsString)
    ensures FindPageMarker(t, 0).Some? <==> HasPageMarker(t)
  {
    FindPageMarkerCorrect(t, 0);
  }

  /** The filter of `extractTextFromPdf`: which text items are kept. */
  predicate KeepItem(str: JsString)
  {
    var trimmed := Trim(str);
    && trimmed != []
    && !IsShortNumber(trimmed)
    && FindPageMarker(trimmed, 0).None?
  }

  /** The three rejections, stated in terms of the item's trimmed text. */
  lemma KeepItemMeaning(str: JsString)
    ensures KeepItem(str) <==>
      !IsBlank(str) && !IsShortNumber(Trim(str)) && !HasPageMarker(Trim(str))
  {
    PageMarkerSearch(Trim(str));
  }

  /** A number of up to five digits is dropped; a sixth digit keeps it. */
  lemma ShortNumberBoundary()
    ensures !KeepItem(Lit("12345"))
    ensures KeepItem(Lit("123456"))
  {
    var six := Lit("123456");
    assert Trim(six) == six by { TrimOfTrimmed(six); }
    assert FindPageMarker(six, 0).None?;
    var five := Lit("12345");
    assert Trim(five) == five by { TrimOfTrimmed(five); }
  }

  function FilterItems(items: seq<JsString>): (r: seq<JsString>)
    ensures |r| <= |items|
    ensures forall i :: 0 <= i < |r| ==> KeepItem(r[i])
  {
    if items == [] then []
    else if KeepItem(items[|items| - 1]) then FilterItems(items[..|items| - 1]) + [items[|items| - 1]]
    else FilterItems(items[..|items| - 1])
  }

  /** The filter keeps exactly the items that pass, in their order. */
  lemma {:induction false} FilterItemsAppend(a: seq<JsString>, b: seq<JsString>)
    ensures FilterItems(a + b) == FilterItems(a) + FilterItems(b)
    decreases |b|
  {
    if b == [] {
      assert a + b == a;
    } else {
      assert (a + b)[..|a + b| - 1] == a + b[..|b| - 1];
      FilterItemsAppend(a, b[..|b| - 1]);
    }
  }

  lemma {:induction false} FilterItemsMembers(items: seq<JsString>, x: JsString)
    ensures x in FilterItems(items) <==> x in items && KeepItem(x)
    decreases |items|
  {
    if items != [] {
      FilterItemsMembers(items[..|items| - 1], x);
      assert items == items[..|items| - 1] + [items[|items| - 1]];
    }
  }

  // ---------------------------------------------------------------------
  // The line join
  // ---------------------------------------------------------------------

  predicate IsSentenceEnd(u: CodeUnit)
  {
    u == 0x2E || u == 0x21 || u == 0x3F  // '.', '!', '?'
  }

  /** `/[.!?]$/.test(t)`. */
  predicate EndsWithSentenceEnd(t: JsString)
  {
    |t| > 0 && IsSentenceEnd(t[|t| - 1])
  }

  const PARAGRAPH_BREAK: JsString := [LF, LF]

  /** What one line adds to the page text built so far: the text so far is kept as it is. */
  function JoinLine(pageText: JsString, line: JsString): (r: JsString)
    ensures pageText <= r
    ensures |r| <= |pageText| + |PARAGRAPH_BREAK| + |line|
  {
    var t := Trim(line);
    if |t| > 0 && t[|t| - 1] == HYPHEN then pageText + t[..|t| - 1]
    else if |pageText| > 0 && !EndsWithSentenceEnd(Trim(pageText)) then pageText + [SPACE] + line
    else pageText + PARAGRAPH_BREAK + line
  }

  /** The page text after joining `lines` in order, starting from "". */
  function JoinLines(lines: seq<JsString>): JsString
  {
    if lines == [] then [] else JoinLine(JoinLines(lines[..|lines| - 1]), lines[|lines| - 1])
  }

  lemma JoinLinesSnoc(lines: seq<JsString>, line: JsString)
    ensures JoinLines(lines + [line]) == JoinLine(JoinLines(lines), line)
  {
    assert (lines + [line])[..|lines|] == lines;
  }

  /** The non-whitespace code units of `s`, in order. */
  function Visible(s: JsString): (r: JsString)
    ensures |r| <= |s|
  {
    if s == [] then []
    else if IsWhitespace(s[|s| - 1]) then Visible(s[..|s| - 1])
    else Visible(s[..|s| - 1]) + [s[|s| - 1]]
  }

  lemma {:induction false} VisibleAppend(a: JsString, b: JsString)
    ensures Visible(a + b) == Visible(a) + Visible(b)
    decreases |b|
  {
    if b == [] {
      assert a + b == a;
    } else {
      assert (a + b)[..|a + b| - 1] == a + b[..|b| - 1];
      VisibleAppend(a, b[..|b| - 1]);
    }
  }

  lemma {:induction false} VisibleOfBlank(s: JsString)
    requires IsBlank(s)
    ensures Visible(s) == []
    decreases |s|
  {
    if s != [] {
      VisibleOfBlank(s[..|s| - 1]);
    }
  }

  lemma {:induction false} VisibleTrimStart(s: JsString)
    ensures Visible(TrimStart(s)) == Visible(s)
    decreases |s|
  {
    if |s| > 0 && IsWhitespace(s[0]) {
      VisibleTrimStart(s[1..]);
      assert s == [s[0]] + s[1..];
      VisibleAppend([s[0]], s[1..]);
      assert [s[0]][..0] == [];
    }
  }

  lemma {:induction false} VisibleTrimEnd(s: JsString)
    ensures Visible(TrimEnd(s)) == Visible(s)
    decreases |s|
  {
    if |s| > 0 && IsWhitespace(s[|s| - 1]) {
      VisibleTrimEnd(s[..|s| - 1]);
    }
  }

  /** `trim` only removes whitespace, so it keeps every visible unit. */
  lemma VisibleTrim(s: JsString)
    ensures Visible(Trim(s)) == Visible(s)
  {
    VisibleTrimStart(s);
    VisibleTrimEnd(TrimStart(s));
  }

  /** The text a line contributes: its trimmed text without the final hyphen, or the line itself. */
  function LinePiece(line: JsString): JsString
  {
    var t := Trim(line);
    if |t| > 0 && t[|t| - 1] == HYPHEN then t[..|t| - 1] else line
  }

  /** The visible text of the pieces of `lines`, in order. */
  function VisiblePieces(lines: seq<JsString>): JsString
  {
    if lines == [] then [] else VisiblePieces(lines[..|lines| - 1]) + Visible(LinePiece(lines[|lines| - 1]))
  }

  /** Separators are whitespace: appending one and then `x` adds only the visible text of `x`. */
  lemma VisibleAfterSeparator(prefix: JsString, sep: JsString, x: JsString)
    requires IsBlank(sep)
    ensures Visible(prefix + sep + x) == Visible(prefix) + Visible(x)
  {
    VisibleAppend(prefix + sep, x);
    VisibleAppend(prefix, sep);
    VisibleOfBlank(sep);
  }

  /** One line adds its piece and, at most, whitespace. */
  lemma JoinLineVisible(pageText: JsString, line: JsString)
    ensures Visible(JoinLine(pageText, line)) == Visible(pageText) + Visible(LinePiece(line))
  {
    var t := Trim(line);
    var joined := JoinLine(pageText, line);
    if |t| > 0 && t[|t| - 1] == HYPHEN {
      assert joined == pageText + t[..|t| - 1];
      VisibleAppend(pageText, t[..|t| - 1]);
    } else {
      assert LinePiece(line) == line;
      if |pageText| > 0 && !EndsWithSentenceEnd(Trim(pageText)) {
        assert joined == pageText + [SPACE] + line;
        VisibleAfterSeparator(pageText, [SPACE], line);
      } else {
        assert joined == pageText + PARAGRAPH_BREAK + line;
        VisibleAfterSeparator(pageText, PARAGRAPH_BREAK, line);
      }
    }
  }

  /**
   * The join loses and reorders nothing but whitespace and line-final
   * hyphens: the visible text of the page is the visible text of the pieces.
   */
  lemma {:induction false} JoinLinesVisible(lines: seq<JsString>)
    ensures Visible(JoinLines(lines)) == VisiblePieces(lines)
    decreases |lines|
  {
    if lines != [] {
      JoinLinesVisible(lines[..|lines| - 1]);
      JoinLineVisible(JoinLines(lines[..|lines| - 1]), lines[|lines| - 1]);
    }
  }

  /** The page text of `extractTextFromPdf`: filter the items, then join the kept lines. */
  function PageTextOf(items: seq<JsString>): JsString
  {
    JoinLines(FilterItems(items))
  }

  /** The loop over the kept lines, appending each to `pageText`. */
  method JoinPageLines(filteredItems: seq<JsString>) returns (pageText: JsString)
    ensures pageText == JoinLines(filteredItems)
  {
    pageText := [];
    for k := 0 to |filteredItems|
      invariant pageText == JoinLines(filteredItems[..k])
    {
      var line := filteredItems[k];
      var trimmed := Trim(line);
      if |trimmed| > 0 && trimmed[|trimmed| - 1] == HYPHEN {
        pageText := pageText + trimmed[..|trimmed| - 1];
      } else if |pageText| > 0 && !EndsWithSentenceEnd(Trim(pageText)) {
        pageText := pageText + [SPACE] + line;
      } else {
        pageText := pageText + PARAGRAPH_BREAK + line;
      }
      assert filteredItems[..k + 1] == filteredItems[..k] + [line];
      JoinLinesSnoc(filteredItems[..k], line);
    }
    assert filteredItems[..|filteredItems|] == filteredItems;
  }

  /** The page text of one page: the items filtered, then the kept lines joined. */
  method PageText(items: seq<JsString>) returns (pageText: JsString)
    ensures pageText == PageTextOf(items)
  {
    var filteredItems := FilterItems(items);
    pageText := JoinPageLines(filteredItems);
  }

  /** The page texts of every page, in page order. */
  function PageTexts(pages: seq<seq<JsString>>): (r: seq<JsString>)
    ensures |r| == |pages|
  {
    if pages == [] then [] else PageTexts(pages[..|pages| - 1]) + [PageTextOf(pages[|pages| - 1])]
  }

  /** `fullTextParts.join('\n')`, one part per page. */
  function FullTextOf(pages: seq<seq<JsString>>): JsString
  {
    JoinWith([LF], PageTexts(pages))
  }

  /** The page loop of `extractTextFromPdf`, given the text items of every page. */
  method ExtractText(pages: seq<seq<JsString>>) returns (fullText: JsString)
    ensures fullText == FullTextOf(pages)
  {
    var fullTextParts: seq<JsString> := [];
    for i := 0 to |pages|
      invariant fullTextParts == PageTexts(pages[..i])
    {
      var pageText := PageText(pages[i]);
      assert pages[..i + 1][..i] == pages[..i];
      fullTextParts := fullTextParts + [pageText];
    }
    assert pages[..|pages|] == pages;
    fullText := JoinWith([LF], fullTextParts);
  }

  // ---------------------------------------------------------------------
  // Paragraphs: newline normalisation, the blank-line split, cleaning
  // ---------------------------------------------------------------------

  /** `replace(/\r\n/g, '\n')`: each CR LF pair, left to right, becomes LF. */
  function NormalizeNewlines(s: JsString): (r: JsString)
    ensures |r| <= |s|
    decreases |s|
  {
    if |s| >= 2 && s[0] == CR && s[1] == LF then [LF] + NormalizeNewlines(s[2..])
    else if s == [] then []
    else [s[0]] + NormalizeNewlines(s[1..])
  }

  /** The units of `s` other than CR, in order. */
  function WithoutCR(s: JsString): JsString
    decreases |s|
  {
    if s == [] then [] else (if s[0] == CR then [] else [s[0]]) + WithoutCR(s[1..])
  }

  /** Normalisation removes CRs and nothing else. */
  lemma {:induction false} NormalizeOnlyDropsCR(s: JsString)
    ensures WithoutCR(NormalizeNewlines(s)) == WithoutCR(s)
    decreases |s|
  {
    if |s| >= 2 && s[0] == CR && s[1] == LF {
      NormalizeOnlyDropsCR(s[2..]);
      assert s[1..][1..] == s[2..];
      assert ([LF] + NormalizeNewlines(s[2..]))[1..] == NormalizeNewlines(s[2..]);
    } else if s != [] {
      NormalizeOnlyDropsCR(s[1..]);
      assert ([s[0]] + NormalizeNewlines(s[1..]))[1..] == NormalizeNewlines(s[1..]);
    }
  }

  /** Text without CR is left as it is. */
  lemma {:induction false} NormalizeWithoutCR(s: JsString)
    requires forall i :: 0 <= i < |s| ==> s[i] != CR
    ensures NormalizeNewlines(s) == s
    decreases |s|
  {
    if s != [] {
      NormalizeWithoutCR(s[1..]);
    }
  }

  /** The end of the whitespace run of `s` that starts at `i`. */
  function WhitespaceRunEnd(s: JsString, i: nat): (j: nat)
    requires i <= |s|
    ensures i <= j <= |s|
    ensures j < |s| ==> !IsWhitespace(s[j])
    ensures forall k :: i <= k < j ==> IsWhitespace(s[k])
    decreases |s| - i
  {
    if i < |s| && IsWhitespace(s[i]) then WhitespaceRunEnd(s, i + 1) else i
  }

  /** The last LF of `s[i..j]`, if it has one. */
  function LastLF(s: JsString, i: nat, j: nat): (r: Option<nat>)
    requires i <= j <= |s|
    ensures r.Some? ==> i <= r.value < j && s[r.value] == LF
    decreases j - i
  {
    if j == i then None else if s[j - 1] == LF then Some(j - 1) else LastLF(s, i, j - 1)
  }

  /**
   * Where the match of `/\n\s*\n/` that starts at `q` ends: at LF, `\s*`
   * takes the whole whitespace run and gives back units until an LF follows,
   * so the match runs to just past the last LF of the run.
   */
  function BlankLineAt(s: JsString, q: nat): (r: Option<nat>)
    requires q < |s|
    ensures r.Some? ==> q + 2 <= r.value <= |s|
  {
    if s[q] != LF then None
    else match LastLF(s, q + 1, WhitespaceRunEnd(s, q + 1))
      case None => None
      case Some(k) => Some(k + 1)
  }

  /** `split` with that regular expression: the piece from `p` is closed at the next match at or after `q`. */
  function SplitParagraphsFrom(s: JsString, p: nat, q: nat): (r: seq<JsString>)
    requires p <= q <= |s|
    ensures |r| > 0
    decreases |s| - q
  {
    if q == |s| then [s[p..]]
    else match BlankLineAt(s, q)
      case Some(e) => [s[p..q]] + SplitParagraphsFrom(s, e, e)
      case None => SplitParagraphsFrom(s, p, q + 1)
  }

  /**
   * `normalized.split(/\n\s*\n/g)`: no piece holds a blank line, and the
   * pieces hold every visible unit of the text, in order.
   */
  function RawParagraphs(normalized: JsString): (r: seq<JsString>)
    ensures |r| > 0
    ensures forall k :: 0 <= k < |r| ==> !HasBlankLine(r[k])
    ensures Visible(Concat(r)) == Visible(normalized)
  {
    SplitPiecesWithoutBlankLine(normalized, 0, 0);
    SplitKeepsVisible(normalized, 0, 0);
    assert normalized[0..] == normalized;
    SplitParagraphsFrom(normalized, 0, 0)
  }

  /** An LF at `i` and at `j` with only whitespace between them: a match of `/\n\s*\n/`. */
  predicate BlankBetween(t: JsString, i: int, j: int)
  {
    0 <= i < j < |t| && t[i] == LF && t[j] == LF && forall k :: i < k < j ==> IsWhitespace(t[k])
  }

  predicate HasBlankLine(t: JsString)
  {
    exists i, j :: 0 <= i < j < |t| && BlankBetween(t, i, j)
  }

  lemma {:induction false} WhitespaceRunPast(s: JsString, i: nat, j: nat)
    requires i <= j <= |s|
    requires forall k :: i <= k < j ==> IsWhitespace(s[k])
    ensures WhitespaceRunEnd(s, i) >= j
    decreases j - i
  {
    if i < j {
      WhitespaceRunPast(s, i + 1, j);
    }
  }

  lemma {:induction false} LastLFFound(s: JsString, i: nat, j: nat, e: nat)
    requires i <= j < e <= |s| && s[j] == LF
    ensures LastLF(s, i, e).Some?
    decreases e - i
  {
    if s[e - 1] != LF {
      LastLFFound(s, i, j, e - 1);
    }
  }

  /** Every blank line is found where it starts. */
  lemma BlankLineDetected(s: JsString, x: nat, y: nat)
    requires x < y < |s| && s[x] == LF && s[y] == LF
    requires forall k :: x < k < y ==> IsWhitespace(s[k])
    ensures BlankLineAt(s, x).Some?
  {
    WhitespaceRunPast(s, x + 1, y + 1);
    LastLFFound(s, x + 1, y, WhitespaceRunEnd(s, x + 1));
  }

  /** What a match removes is whitespace. */
  lemma SeparatorBlank(s: JsString, q: nat)
    requires q < |s| && BlankLineAt(s, q).Some?
    ensures IsBlank(s[q..BlankLineAt(s, q).value])
  {
    var e := BlankLineAt(s, q).value;
    forall m | 0 <= m < e - q ensures IsWhitespace(s[q..e][m]) {
      assert s[q..e][m] == s[q + m];
    }
  }

  /** A piece closed before any match starts in it holds no blank line. */
  lemma PieceWithoutBlankLine(s: JsString, p: nat, q: nat)
    requires p <= q <= |s|
    requires forall x :: p <= x < q ==> BlankLineAt(s, x).None?
    ensures !HasBlankLine(s[p..q])
  {
    if HasBlankLine(s[p..q]) {
      var i, j :| 0 <= i < j < q - p && BlankBetween(s[p..q], i, j);
      forall k | p + i < k < p + j ensures IsWhitespace(s[k]) {
        assert s[k] == s[p..q][k - p];
      }
      assert s[p + i] == s[p..q][i] && s[p + j] == s[p..q][j];
      BlankLineDetected(s, p + i, p + j);
      assert false;
    }
  }

  lemma {:induction false} SplitPiecesWithoutBlankLine(s: JsString, p: nat, q: nat)
    requires p <= q <= |s|
    requires forall x :: p <= x < q ==> BlankLineAt(s, x).None?
    ensures forall k :: 0 <= k < |SplitParagraphsFrom(s, p, q)| ==> !HasBlankLine(SplitParagraphsFrom(s, p, q)[k])
    decreases |s| - q
  {
    if q == |s| {
      PieceWithoutBlankLine(s, p, q);
      assert s[p..] == s[p..q];
    } else {
      match BlankLineAt(s, q)
      case Some(e) =>
        PieceWithoutBlankLine(s, p, q);
        SplitPiecesWithoutBlankLine(s, e, e);
        var rest := SplitParagraphsFrom(s, e, e);
        forall k | 0 < k < |rest| + 1 ensures ([s[p..q]] + rest)[k] == rest[k - 1] { }
      case None =>
        SplitPiecesWithoutBlankLine(s, p, q + 1);
    }
  }

  /** The split drops only the whitespace of the matches. */
  lemma {:induction false} SplitKeepsVisible(s: JsString, p: nat, q: nat)
    requires p <= q <= |s|
    ensures Visible(Concat(SplitParagraphsFrom(s, p, q))) == Visible(s[p..])
    decreases |s| - q
  {
    if q == |s| {
      assert SplitParagraphsFrom(s, p, q) == [s[p..]];
      assert Concat([s[p..]]) == s[p..] by {
        ConcatCons(s[p..], []);
        assert [s[p..]] + [] == [s[p..]];
      }
    } else {
      match BlankLineAt(s, q)
      case Some(e) =>
        SplitKeepsVisible(s, e, e);
        SplitStepVisible(s, p, q, SplitParagraphsFrom(s, e, e));
      case None =>
        SplitKeepsVisible(s, p, q + 1);
    }
  }

  lemma SplitStepVisible(s: JsString, p: nat, q: nat, rest: seq<JsString>)
    requires p <= q < |s| && BlankLineAt(s, q).Some?
    requires Visible(Concat(rest)) == Visible(s[BlankLineAt(s, q).value..])
    ensures Visible(Concat([s[p..q]] + rest)) == Visible(s[p..])
  {
    var e := BlankLineAt(s, q).value;
    ConcatCons(s[p..q], rest);
    VisibleAppend(s[p..q], Concat(rest));
    SeparatorBlank(s, q);
    assert s[p..] == s[p..q] + s[q..e] + s[e..];
    VisibleAfterSeparator(s[p..q], s[q..e], s[e..]);
  }

  /** A text without LF is one paragraph. */
  lemma {:induction false} SplitWithoutLF(s: JsString, p: nat, q: nat)
    requires p <= q <= |s|
    requires forall i :: 0 <= i < |s| ==> s[i] != LF
    ensures SplitParagraphsFrom(s, p, q) == [s[p..]]
    decreases |s| - q
  {
    if q < |s| {
      SplitWithoutLF(s, p, q + 1);
    }
  }

  /** `replace(/\s+/g, ' ')`: each maximal whitespace run becomes one space. */
  function CollapseWhitespace(s: JsString): (r: JsString)
    ensures forall i :: 0 <= i < |r| && IsWhitespace(r[i]) ==> r[i] == SPACE
  {
    if s == [] then []
    else if !IsWhitespace(s[|s| - 1]) then CollapseWhitespace(s[..|s| - 1]) + [s[|s| - 1]]
    else if |s| >= 2 && IsWhitespace(s[|s| - 2]) then CollapseWhitespace(s[..|s| - 1])
    else CollapseWhitespace(s[..|s| - 1]) + [SPACE]
  }

  /** Each whitespace run becomes one unit: no two whitespace units are adjacent, and a final run ends the result in a space. */
  lemma {:induction false} CollapseSingleSpaces(s: JsString)
    ensures var r := CollapseWhitespace(s);
      && (forall i, j :: 0 <= i && j == i + 1 && j < |r| ==> !IsWhitespace(r[i]) || !IsWhitespace(r[j]))
      && (|s| > 0 ==> |r| > 0 && r[|r| - 1] == (if IsWhitespace(s[|s| - 1]) then SPACE else s[|s| - 1]))
    decreases |s|
  {
    if s != [] {
      CollapseSingleSpaces(s[..|s| - 1]);
    }
  }

  /** Collapsing whitespace keeps every visible unit, in order. */
  lemma {:induction false} VisibleCollapse(s: JsString)
    ensures Visible(CollapseWhitespace(s)) == Visible(s)
    decreases |s|
  {
    if s != [] {
      var init := s[..|s| - 1];
      VisibleCollapse(init);
      if !IsWhitespace(s[|s| - 1]) {
        VisibleAppend(CollapseWhitespace(init), [s[|s| - 1]]);
      } else if !(|s| >= 2 && IsWhitespace(s[|s| - 2])) {
        VisibleAppend(CollapseWhitespace(init), [SPACE]);
        assert Visible([SPACE]) == [] by { VisibleOfBlank([SPACE]); }
      }
    }
  }

  /** `para.replace(/\s+/g, ' ').trim()`. */
  function CleanParagraph(para: JsString): (r: JsString)
    ensures IsTrimmed(r)
    ensures forall i :: 0 <= i < |r| ==> r[i] != LF
  {
    var collapsed := CollapseWhitespace(para);
    TrimMembers(collapsed);
    Trim(collapsed)
  }

  /** The paragraph filter: at least 2 units and at least one ASCII letter. */
  predicate Kept(cleanPara: JsString)
  {
    |cleanPara| >= 2 && HasAsciiLetter(cleanPara)
  }

  // ---------------------------------------------------------------------
  // Sentences of an oversized paragraph
  // ---------------------------------------------------------------------

  /** The end of the run of units other than `.`, `!`, `?` that starts at `i`. */
  function OtherRunEnd(s: JsString, i: nat): (j: nat)
    requires i <= |s|
    ensures i <= j <= |s|
    ensures j < |s| ==> IsSentenceEnd(s[j])
    ensures forall k :: i <= k < j ==> !IsSentenceEnd(s[k])
    decreases |s| - i
  {
    if i < |s| && !IsSentenceEnd(s[i]) then OtherRunEnd(s, i + 1) else i
  }

  /** The end of the run of `.`, `!`, `?` that starts at `i`. */
  function EndRunEnd(s: JsString, i: nat): (j: nat)
    requires i <= |s|
    ensures i <= j <= |s|
    ensures j < |s| ==> !IsSentenceEnd(s[j])
    decreases |s| - i
  {
    if i < |s| && IsSentenceEnd(s[i]) then EndRunEnd(s, i + 1) else i
  }

  /**
   * The matches of `/[^.!?]+[.!?]+|[^.!?]+$/g` from position `p`: a match
   * is a run of other units with the run of sentence ends after it, or a
   * final run of other units; a sentence end where no match starts is skipped.
   */
  function SentencesFrom(s: JsString, p: nat): (r: seq<JsString>)
    requires p <= |s|
    decreases |s| - p
  {
    if p == |s| then []
    else if IsSentenceEnd(s[p]) then SentencesFrom(s, p + 1)
    else
      var e1 := OtherRunEnd(s, p);
      if e1 == |s| then [s[p..]]
      else
        var e2 := EndRunEnd(s, e1);
        [s[p..e2]] + SentencesFrom(s, e2)
  }

  /**
   * Where the first match starts: past the sentence ends that open the
   * text, or at 0 when the text is nothing but sentence ends.
   */
  function LeadingEnds(s: JsString): (n: nat)
    ensures n <= |s|
    ensures (s == [] || !IsSentenceEnd(s[0])) ==> n == 0
  {
    if EndRunEnd(s, 0) < |s| then EndRunEnd(s, 0) else 0
  }

  /**
   * `cleanPara.match(...) || [cleanPara]`. The pieces give back the
   * paragraph without the sentence ends it starts with, which no match
   * covers; a paragraph of sentence ends only is kept whole.
   */
  function Sentences(cleanPara: JsString): (r: seq<JsString>)
    ensures |r| > 0
    ensures Concat(r) == cleanPara[LeadingEnds(cleanPara)..]
    ensures (cleanPara == [] || !IsSentenceEnd(cleanPara[0])) ==> Concat(r) == cleanPara
  {
    SentencesCoverFromStart(cleanPara);
    var m := SentencesFrom(cleanPara, 0);
    if m == [] then [cleanPara] else m
  }

  lemma ConcatCons(x: JsString, rest: seq<JsString>)
    ensures Concat([x] + rest) == x + Concat(rest)
  {
    ConcatAppend([x], rest);
    assert [x][..0] == [];
  }

  /** From a unit that is not a sentence end, with a sentence end later on, the next match runs to the end of that run. */
  lemma SentenceStep(s: JsString, p: nat)
    requires p < |s| && !IsSentenceEnd(s[p]) && OtherRunEnd(s, p) < |s|
    ensures SentencesFrom(s, p) == [s[p..EndRunEnd(s, OtherRunEnd(s, p))]] + SentencesFrom(s, EndRunEnd(s, OtherRunEnd(s, p)))
  {
  }

  /** From a unit that is not a sentence end, with no sentence end later on, the rest is the last match. */
  lemma LastSentence(s: JsString, p: nat)
    requires p < |s| && !IsSentenceEnd(s[p]) && OtherRunEnd(s, p) == |s|
    ensures Concat(SentencesFrom(s, p)) == s[p..]
  {
    assert SentencesFrom(s, p) == [s[p..]] + [];
    ConcatCons(s[p..], []);
  }

  /** A match from `p` to `e2` followed by matches covering the rest covers the text from `p`. */
  lemma CoverJoined(s: JsString, p: nat, e2: nat, rest: seq<JsString>)
    requires p < e2 <= |s| && Concat(rest) == s[e2..]
    ensures Concat([s[p..e2]] + rest) == s[p..]
  {
    ConcatCons(s[p..e2], rest);
    assert s[p..] == s[p..e2] + s[e2..];
  }

  /** From a position that is not a sentence end, the matches cover the rest of the text exactly. */
  lemma {:induction false} SentencesCover(s: JsString, p: nat)
    requires p <= |s| && (p == |s| || !IsSentenceEnd(s[p]))
    ensures Concat(SentencesFrom(s, p)) == s[p..]
    decreases |s| - p
  {
    if p < |s| {
      var e1 := OtherRunEnd(s, p);
      if e1 < |s| {
        var e2 := EndRunEnd(s, e1);
        assert e1 < e2 by {
          assert IsSentenceEnd(s[e1]);
          assert e2 == EndRunEnd(s, e1 + 1);
        }
        SentenceStep(s, p);
        SentencesCover(s, e2);
        CoverJoined(s, p, e2, SentencesFrom(s, e2));
      } else {
        LastSentence(s, p);
      }
    }
  }

  /** Sentence ends where no match starts are skipped one by one. */
  lemma {:induction false} SkipLeadingEnds(s: JsString, p: nat)
    requires p <= |s|
    ensures SentencesFrom(s, p) == SentencesFrom(s, EndRunEnd(s, p))
    decreases |s| - p
  {
    if p < |s| && IsSentenceEnd(s[p]) {
      SkipLeadingEnds(s, p + 1);
    }
  }

  lemma SentencesCoverFromStart(s: JsString)
    ensures (s == [] || !IsSentenceEnd(s[0])) ==> Concat(SentencesFrom(s, 0)) == s
    ensures Concat([s]) == s
    ensures var m := SentencesFrom(s, 0); Concat(if m == [] then [s] else m) == s[LeadingEnds(s)..]
  {
    assert s[0..] == s;
    ConcatCons(s, []);
    SkipLeadingEnds(s, 0);
    var e := EndRunEnd(s, 0);
    if e < |s| {
      SentencesCover(s, e);
    }
  }

  /** Every match of a trimmed text holds a unit that is not whitespace. */
  lemma {:induction false} SentencesNotBlank(s: JsString, p: nat)
    requires p <= |s| && IsTrimmed(s)
    ensures forall k :: 0 <= k < |SentencesFrom(s, p)| ==> !IsBlank(SentencesFrom(s, p)[k])
    decreases |s| - p
  {
    if p < |s| {
      if IsSentenceEnd(s[p]) {
        SentencesNotBlank(s, p + 1);
      } else {
        var e1 := OtherRunEnd(s, p);
        if e1 == |s| {
          assert s[p..][|s| - 1 - p] == s[|s| - 1];
        } else {
          var e2 := EndRunEnd(s, e1);
          SentencesNotBlank(s, e2);
          assert s[p..e2][e1 - p] == s[e1];
        }
      }
    }
  }

  /** The pieces of a kept oversized paragraph are none of them blank. */
  lemma SentencesOfCleanNotBlank(cleanPara: JsString)
    requires IsTrimmed(cleanPara) && !IsBlank(cleanPara)
    ensures forall k :: 0 <= k < |Sentences(cleanPara)| ==> !IsBlank(Sentences(cleanPara)[k])
  {
    SentencesNotBlank(cleanPara, 0);
  }

  // ---------------------------------------------------------------------
  // The chunker
  // ---------------------------------------------------------------------

  /** The state of `chunkText` between paragraphs: `chunks`, `currentId`, `currentBuffer`. */
  datatype Chunker = Chunker(chunks: seq<TextChunk>, nextId: nat, buffer: JsString)

  const START: Chunker := Chunker([], 0, [])

  /** `chunks.push({ id: currentId++, text: currentBuffer.trim() })`. */
  function Emit(c: Chunker): Chunker
  {
    Chunker(c.chunks + [TextChunk(c.nextId, Trim(c.buffer), false)], c.nextId + 1, c.buffer)
  }

  /** One sentence of an oversized paragraph: a chunk is pushed exactly when the sentence does not fit beside the buffer. */
  function AddSentence(c: Chunker, sentence: JsString, maxChars: int): (r: Chunker)
    ensures c.chunks <= r.chunks && |r.chunks| <= |c.chunks| + 1
    ensures |r.chunks| > |c.chunks| <==> |c.buffer| + |sentence| > maxChars
  {
    if |c.buffer| + |sentence| > maxChars then Emit(c).(buffer := sentence)
    else c.(buffer := c.buffer + (if c.buffer != [] then [SPACE] else []) + sentence)
  }

  function AddSentences(c: Chunker, sentences: seq<JsString>, maxChars: int): Chunker
  {
    if sentences == [] then c
    else AddSentence(AddSentences(c, sentences[..|sentences| - 1], maxChars), sentences[|sentences| - 1], maxChars)
  }

  /**
   * One kept, cleaned paragraph. Chunks are only appended, and only when
   * the paragraph does not fit beside the buffer.
   */
  function AddParagraph(c: Chunker, cleanPara: JsString, maxChars: int): (r: Chunker)
    ensures c.chunks <= r.chunks
    ensures |r.chunks| > |c.chunks| ==> |c.buffer| + |cleanPara| > maxChars
  {
    if |c.buffer| + |cleanPara| > maxChars then
      var flushed := if |c.buffer| > 0 then Emit(c).(buffer := []) else c;
      if |cleanPara| > maxChars then
        AddSentencesExtends(flushed, Sentences(cleanPara), maxChars);
        AddSentences(flushed, Sentences(cleanPara), maxChars)
      else flushed.(buffer := cleanPara)
    else c.(buffer := c.buffer + (if c.buffer != [] then PARAGRAPH_BREAK else []) + cleanPara)
  }

  /** One raw paragraph: cleaned, skipped unless kept. */
  function AddRawParagraph(c: Chunker, para: JsString, maxChars: int): Chunker
  {
    var cleanPara := CleanParagraph(para);
    if !Kept(cleanPara) then c else AddParagraph(c, cleanPara, maxChars)
  }

  function AddParagraphs(c: Chunker, paras: seq<JsString>, maxChars: int): Chunker
  {
    if paras == [] then c
    else AddRawParagraph(AddParagraphs(c, paras[..|paras| - 1], maxChars), paras[|paras| - 1], maxChars)
  }

  /** The final flush: the buffer becomes a chunk only if it is not blank. */
  function Finish(c: Chunker): seq<TextChunk>
  {
    if |Trim(c.buffer)| > 0 then Emit(c).chunks else c.chunks
  }

  /** The paragraphs `chunkText` works through. */
  function ParagraphsOf(text: JsString): seq<JsString>
  {
    RawParagraphs(NormalizeNewlines(text))
  }

  /**
   * What `chunkText(text, maxChars)` returns: chunk i has id i and a
   * trimmed text, and none is a heading.
   */
  function ChunksOf(text: JsString, maxChars: int): (r: seq<TextChunk>)
    ensures WellNumbered(r)
  {
    AddParagraphsNumbered(START, ParagraphsOf(text), maxChars);
    EmitNumbered(AddParagraphs(START, ParagraphsOf(text), maxChars));
    Finish(AddParagraphs(START, ParagraphsOf(text), maxChars))
  }

  lemma AddSentencesSnoc(c: Chunker, ss: seq<JsString>, s: JsString, maxChars: int)
    ensures AddSentences(c, ss + [s], maxChars) == AddSentence(AddSentences(c, ss, maxChars), s, maxChars)
  {
    assert (ss + [s])[..|ss|] == ss;
  }

  lemma AddParagraphsSnoc(c: Chunker, ps: seq<JsString>, p: JsString, maxChars: int)
    ensures AddParagraphs(c, ps + [p], maxChars) == AddRawParagraph(AddParagraphs(c, ps, maxChars), p, maxChars)
  {
    assert (ps + [p])[..|ps|] == ps;
  }

  /** The sentence loop of `chunkText`. */
  method AddSentencesLoop(chunks0: seq<TextChunk>, id0: nat, buffer0: JsString,
                          sentences: seq<JsString>, maxChars: int)
    returns (chunks: seq<TextChunk>, currentId: nat, currentBuffer: JsString)
    ensures Chunker(chunks, currentId, currentBuffer)
      == AddSentences(Chunker(chunks0, id0, buffer0), sentences, maxChars)
  {
    chunks, currentId, currentBuffer := chunks0, id0, buffer0;
    for j := 0 to |sentences|
      invariant Chunker(chunks, currentId, currentBuffer)
        == AddSentences(Chunker(chunks0, id0, buffer0), sentences[..j], maxChars)
    {
      var sentence := sentences[j];
      if |currentBuffer| + |sentence| > maxChars {
        chunks := chunks + [TextChunk(currentId, Trim(currentBuffer), false)];
        currentId := currentId + 1;
        currentBuffer := sentence;
      } else {
        currentBuffer := currentBuffer + (if currentBuffer != [] then [SPACE] else []) + sentence;
      }
      assert sentences[..j + 1] == sentences[..j] + [sentence];
      AddSentencesSnoc(Chunker(chunks0, id0, buffer0), sentences[..j], sentence, maxChars);
    }
    assert sentences[..|sentences|] == sentences;
  }

  /** The body of the paragraph loop of `chunkText`, for one raw paragraph. */
  method AddParagraphStep(chunks0: seq<TextChunk>, id0: nat, buffer0: JsString, para: JsString, maxChars: int)
    returns (chunks: seq<TextChunk>, currentId: nat, currentBuffer: JsString)
    ensures Chunker(chunks, currentId, currentBuffer)
      == AddRawParagraph(Chunker(chunks0, id0, buffer0), para, maxChars)
  {
    chunks, currentId, currentBuffer := chunks0, id0, buffer0;
    var cleanPara := CleanParagraph(para);
    if |cleanPara| < 2 || !HasAsciiLetter(cleanPara) {
      return;
    }
    if |currentBuffer| + |cleanPara| > maxChars {
      if |currentBuffer| > 0 {
        chunks := chunks + [TextChunk(currentId, Trim(currentBuffer), false)];
        currentId := currentId + 1;
        currentBuffer := [];
      }
      if |cleanPara| > maxChars {
        var sentences := Sentences(cleanPara);
        chunks, currentId, currentBuffer := AddSentencesLoop(chunks, currentId, currentBuffer, sentences, maxChars);
      } else {
        currentBuffer := cleanPara;
      }
    } else {
      currentBuffer := currentBuffer + (if currentBuffer != [] then PARAGRAPH_BREAK else []) + cleanPara;
    }
  }

  /** `chunkText(text, maxChars)`. */
  method ChunkText(text: JsString, maxChars: int) returns (chunks: seq<TextChunk>)
    ensures chunks == ChunksOf(text, maxChars)
  {
    var normalized := NormalizeNewlines(text);
    var rawParagraphs := RawParagraphs(normalized);
    chunks := [];
    var currentId: nat := 0;
    var currentBuffer: JsString := [];
    for k := 0 to |rawParagraphs|
      invariant Chunker(chunks, currentId, currentBuffer) == AddParagraphs(START, rawParagraphs[..k], maxChars)
    {
      var para := rawParagraphs[k];
      chunks, currentId, currentBuffer := AddParagraphStep(chunks, currentId, currentBuffer, para, maxChars);
      assert rawParagraphs[..k + 1] == rawParagraphs[..k] + [para];
      AddParagraphsSnoc(START, rawParagraphs[..k], para, maxChars);
    }
    assert rawParagraphs[..|rawParagraphs|] == rawParagraphs;
    var trimmed := Trim(currentBuffer);
    if |trimmed| > 0 {
      chunks := chunks + [TextChunk(currentId, trimmed, false)];
      currentId := currentId + 1;
    }
  }

  // ---------------------------------------------------------------------
  // What the chunker guarantees
  // ---------------------------------------------------------------------

  /** Chunk i has id i, a trimmed text, and is not a heading. */
  predicate WellNumbered(chunks: seq<TextChunk>)
  {
    forall i :: 0 <= i < |chunks| ==> chunks[i].id == i && IsTrimmed(chunks[i].text) && !chunks[i].isHeading
  }

  /** The invariant of the chunker state: `currentId` counts the chunks pushed so far. */
  predicate Numbered(c: Chunker)
  {
    c.nextId == |c.chunks| && WellNumbered(c.chunks)
  }

  lemma EmitNumbered(c: Chunker)
    requires Numbered(c)
    ensures Numbered(Emit(c))
  {
  }

  lemma {:induction false} AddSentencesNumbered(c: Chunker, ss: seq<JsString>, maxChars: int)
    requires Numbered(c)
    ensures Numbered(AddSentences(c, ss, maxChars))
    decreases |ss|
  {
    if ss != [] {
      AddSentencesNumbered(c, ss[..|ss| - 1], maxChars);
      EmitNumbered(AddSentences(c, ss[..|ss| - 1], maxChars));
    }
  }

  lemma AddRawParagraphNumbered(c: Chunker, para: JsString, maxChars: int)
    requires Numbered(c)
    ensures Numbered(AddRawParagraph(c, para, maxChars))
  {
    var cleanPara := CleanParagraph(para);
    if Kept(cleanPara) && |c.buffer| + |cleanPara| > maxChars {
      var flushed := if |c.buffer| > 0 then Emit(c).(buffer := []) else c;
      EmitNumbered(c);
      AddSentencesNumbered(flushed, Sentences(cleanPara), maxChars);
    }
  }

  lemma {:induction false} AddParagraphsNumbered(c: Chunker, ps: seq<JsString>, maxChars: int)
    requires Numbered(c)
    ensures Numbered(AddParagraphs(c, ps, maxChars))
    decreases |ps|
  {
    if ps != [] {
      AddParagraphsNumbered(c, ps[..|ps| - 1], maxChars);
      AddRawParagraphNumbered(AddParagraphs(c, ps[..|ps| - 1], maxChars), ps[|ps| - 1], maxChars);
    }
  }

  /** Something has been gathered: a chunk was pushed, or the buffer holds a visible unit. */
  predicate Progress(c: Chunker)
  {
    |c.chunks| > 0 || !IsBlank(c.buffer)
  }

  lemma NotBlankAfter(a: JsString, x: JsString)
    requires !IsBlank(x)
    ensures !IsBlank(a + x)
  {
    var i :| 0 <= i < |x| && !IsWhitespace(x[i]);
    assert (a + x)[|a| + i] == x[i];
  }

  lemma {:induction false} AddSentencesProgress(c: Chunker, ss: seq<JsString>, maxChars: int)
    requires |ss| > 0 && !IsBlank(ss[|ss| - 1])
    ensures Progress(AddSentences(c, ss, maxChars))
  {
    var before := AddSentences(c, ss[..|ss| - 1], maxChars);
    var last := ss[|ss| - 1];
    if |before.buffer| + |last| <= maxChars {
      NotBlankAfter(before.buffer + (if before.buffer != [] then [SPACE] else []), last);
    }
  }

  /** A kept paragraph always leaves something gathered. */
  lemma AddParagraphProgress(c: Chunker, cleanPara: JsString, maxChars: int)
    requires Kept(cleanPara) && IsTrimmed(cleanPara)
    ensures Progress(AddParagraph(c, cleanPara, maxChars))
  {
    var i :| 0 <= i < |cleanPara| && IsAsciiLetter(cleanPara[i]);
    assert !IsWhitespace(cleanPara[i]);
    if |c.buffer| + |cleanPara| > maxChars {
      if |cleanPara| > maxChars {
        var flushed := if |c.buffer| > 0 then Emit(c).(buffer := []) else c;
        var ss := Sentences(cleanPara);
        SentencesOfCleanNotBlank(cleanPara);
        AddSentencesProgress(flushed, ss, maxChars);
      }
    } else {
      NotBlankAfter(c.buffer + (if c.buffer != [] then PARAGRAPH_BREAK else []), cleanPara);
    }
  }

  /** Something is gathered exactly when some paragraph was kept. */
  lemma {:induction false} AddParagraphsProgress(ps: seq<JsString>, maxChars: int)
    ensures Progress(AddParagraphs(START, ps, maxChars)) <==> KeptParagraphs(ps) != []
    decreases |ps|
  {
    if ps != [] {
      var init := ps[..|ps| - 1];
      var cleanPara := CleanParagraph(ps[|ps| - 1]);
      AddParagraphsProgress(init, maxChars);
      if Kept(cleanPara) {
        AddParagraphProgress(AddParagraphs(START, init, maxChars), cleanPara, maxChars);
      }
    }
  }

  /** No paragraph is kept exactly when each fails the filter. */
  lemma {:induction false} KeptParagraphsEmpty(ps: seq<JsString>)
    ensures KeptParagraphs(ps) == [] <==> forall k :: 0 <= k < |ps| ==> !Kept(CleanParagraph(ps[k]))
    decreases |ps|
  {
    if ps != [] {
      var init := ps[..|ps| - 1];
      KeptParagraphsEmpty(init);
      forall k | 0 <= k < |init| ensures init[k] == ps[k] { }
    }
  }

  /** `chunkText` returns no chunk exactly when no paragraph passes the filter. */
  lemma ChunksEmptyIff(text: JsString, maxChars: int)
    ensures ChunksOf(text, maxChars) == []
      <==> forall k :: 0 <= k < |ParagraphsOf(text)| ==> !Kept(CleanParagraph(ParagraphsOf(text)[k]))
  {
    var c := AddParagraphs(START, ParagraphsOf(text), maxChars);
    AddParagraphsProgress(ParagraphsOf(text), maxChars);
    KeptParagraphsEmpty(ParagraphsOf(text));
    assert |Trim(c.buffer)| > 0 <==> !IsBlank(c.buffer);
  }

  /** Chunks are only ever appended: the sentences of a paragraph keep the chunks before them. */
  lemma {:induction false} AddSentencesExtends(c: Chunker, ss: seq<JsString>, maxChars: int)
    ensures c.chunks <= AddSentences(c, ss, maxChars).chunks
    decreases |ss|
  {
    if ss != [] {
      AddSentencesExtends(c, ss[..|ss| - 1], maxChars);
    }
  }

  /** The first sentence decides the first step: the chunks it leaves are kept by the rest. */
  lemma {:induction false} AddSentencesFirst(c: Chunker, ss: seq<JsString>, maxChars: int)
    requires |ss| > 0
    ensures AddSentence(c, ss[0], maxChars).chunks <= AddSentences(c, ss, maxChars).chunks
    decreases |ss|
  {
    if |ss| == 1 {
      assert ss[..0] == [];
    } else {
      var init := ss[..|ss| - 1];
      AddSentencesFirst(c, init, maxChars);
      assert init[0] == ss[0];
    }
  }

  /**
   * A first sentence over the limit, reaching an empty buffer, pushes that
   * empty buffer as a chunk with empty text before anything else.
   */
  lemma SentencesStartEmpty(c: Chunker, ss: seq<JsString>, maxChars: int)
    requires c.buffer == [] && |ss| > 0 && |ss[0]| > maxChars
    ensures |AddSentences(c, ss, maxChars).chunks| > |c.chunks|
    ensures AddSentences(c, ss, maxChars).chunks[|c.chunks|] == TextChunk(c.nextId, [], false)
  {
    AddSentencesFirst(c, ss, maxChars);
    assert Trim([]) == [];
    var first := AddSentence(c, ss[0], maxChars).chunks;
    assert first[|c.chunks|] == TextChunk(c.nextId, [], false);
  }

  /**
   * An oversized paragraph whose first sentence alone is over the limit
   * gives a chunk with empty text right after the flushed buffer.
   */
  lemma OversizedFirstSentence(c: Chunker, cleanPara: JsString, maxChars: int)
    requires |cleanPara| > maxChars && |Sentences(cleanPara)[0]| > maxChars
    ensures var flushed := if |c.buffer| > 0 then Emit(c).(buffer := []) else c;
      var r := AddParagraph(c, cleanPara, maxChars);
      |r.chunks| > |flushed.chunks| && r.chunks[|flushed.chunks|] == TextChunk(flushed.nextId, [], false)
  {
    var flushed := if |c.buffer| > 0 then Emit(c).(buffer := []) else c;
    SentencesStartEmpty(flushed, Sentences(cleanPara), maxChars);
  }

  // What the chunks say: no visible unit is lost, added or moved.

  /** The visible text of the pushed chunks, in order. */
  function ChunksVisible(chunks: seq<TextChunk>): JsString
  {
    if chunks == [] then [] else ChunksVisible(chunks[..|chunks| - 1]) + Visible(chunks[|chunks| - 1].text)
  }

  /** The visible text the chunker holds, pushed or still buffered. */
  function Held(c: Chunker): JsString
  {
    ChunksVisible(c.chunks) + Visible(c.buffer)
  }

  /** Pushing the buffer trims only whitespace from it. */
  lemma EmitHeld(c: Chunker)
    ensures ChunksVisible(Emit(c).chunks) == ChunksVisible(c.chunks) + Visible(c.buffer)
  {
    var e := Emit(c);
    assert e.chunks[..|e.chunks| - 1] == c.chunks;
    VisibleTrim(c.buffer);
  }

  /** A sentence, pushed after the buffer or joined to it by a space, adds exactly its visible text. */
  lemma AddSentenceHeld(c: Chunker, sentence: JsString, maxChars: int)
    ensures Held(AddSentence(c, sentence, maxChars)) == Held(c) + Visible(sentence)
  {
    if |c.buffer| + |sentence| > maxChars {
      EmitHeld(c);
    } else {
      var sep := if c.buffer != [] then [SPACE] else [];
      assert IsBlank(sep) by {
        assert forall k :: 0 <= k < |sep| ==> sep[k] == SPACE;
      }
      VisibleAfterSeparator(c.buffer, sep, sentence);
    }
  }

  /**
   * The sentences of an oversized paragraph, whatever the limit, end up in
   * the chunks and the buffer with every visible unit, in order.
   */
  lemma {:induction false} AddSentencesHeld(c: Chunker, ss: seq<JsString>, maxChars: int)
    ensures Held(AddSentences(c, ss, maxChars)) == Held(c) + Visible(Concat(ss))
    decreases |ss|
  {
    if ss != [] {
      var init := ss[..|ss| - 1];
      AddSentencesHeld(c, init, maxChars);
      AddSentenceHeld(AddSentences(c, init, maxChars), ss[|ss| - 1], maxChars);
      VisibleAppend(Concat(init), ss[|ss| - 1]);
    }
  }

  /** A string list joined by `sep` ends with its last part. */
  lemma JoinWithLength(sep: JsString, parts: seq<JsString>)
    requires |parts| > 0
    ensures |JoinWith(sep, parts)| >= |parts[|parts| - 1]|
  {
  }

  lemma JoinWithSnoc(sep: JsString, parts: seq<JsString>, x: JsString)
    requires |parts| > 0
    ensures JoinWith(sep, parts + [x]) == JoinWith(sep, parts) + sep + x
  {
    assert (parts + [x])[..|parts|] == parts;
  }

  /** `t` is the sentences from some `a` on, joined by single spaces. */
  predicate SuffixRun(t: JsString, ss: seq<JsString>)
  {
    exists a :: 0 <= a < |ss| && t == JoinWith([SPACE], ss[a..])
  }

  /** `t` is a run `ss[a..b]` of consecutive sentences, joined by single spaces and trimmed. */
  predicate TrimmedRun(t: JsString, ss: seq<JsString>)
  {
    exists a, b :: 0 <= a < b <= |ss| && t == Trim(JoinWith([SPACE], ss[a..b]))
  }

  /** `t` is the earlier buffer's text and the first `b` sentences, joined by single spaces and trimmed. */
  predicate FirstRun(t: JsString, pre: seq<JsString>, ss: seq<JsString>)
  {
    exists b :: 0 <= b <= |ss| && t == Trim(JoinWith([SPACE], pre + ss[..b]))
  }

  /**
   * What the sentence loop makes of `ss`, starting from `c`: chunks are only
   * appended; with no push, the buffer is its own text and the sentences
   * joined by single spaces; otherwise the first chunk pushed holds the
   * buffer's text and the first sentences, every later chunk a run of
   * consecutive sentences, and the buffer the sentences after the last push,
   * each joined by single spaces.
   */
  predicate SentenceRuns(c: Chunker, r: Chunker, ss: seq<JsString>)
  {
    var pre: seq<JsString> := if c.buffer == [] then [] else [c.buffer];
    && c.chunks <= r.chunks
    && (|r.chunks| == |c.chunks| ==> r.buffer == JoinWith([SPACE], pre + ss))
    && (|r.chunks| > |c.chunks| ==>
          && SuffixRun(r.buffer, ss)
          && FirstRun(r.chunks[|c.chunks|].text, pre, ss)
          && forall i :: |c.chunks| < i < |r.chunks| ==> TrimmedRun(r.chunks[i].text, ss))
  }

  /** Runs of a prefix of the sentences are runs of all of them. */
  lemma RunsOfPrefix(init: seq<JsString>, ss: seq<JsString>, pre: seq<JsString>, t: JsString)
    requires init <= ss
    ensures TrimmedRun(t, init) ==> TrimmedRun(t, ss)
    ensures FirstRun(t, pre, init) ==> FirstRun(t, pre, ss)
  {
    if TrimmedRun(t, init) {
      var a, b :| 0 <= a < b <= |init| && t == Trim(JoinWith([SPACE], init[a..b]));
      assert init[a..b] == ss[a..b];
    }
    if FirstRun(t, pre, init) {
      var b :| 0 <= b <= |init| && t == Trim(JoinWith([SPACE], pre + init[..b]));
      assert init[..b] == ss[..b];
    }
  }

  /** The chunks pushed before the last sentence keep their runs. */
  lemma RunsKept(c: Chunker, s1: Chunker, chunks: seq<TextChunk>, init: seq<JsString>, ss: seq<JsString>)
    requires SentenceRuns(c, s1, init) && init <= ss && |s1.chunks| > |c.chunks| && s1.chunks <= chunks
    ensures FirstRun(chunks[|c.chunks|].text, if c.buffer == [] then [] else [c.buffer], ss)
    ensures forall i :: |c.chunks| < i < |s1.chunks| ==> TrimmedRun(chunks[i].text, ss)
  {
    var pre: seq<JsString> := if c.buffer == [] then [] else [c.buffer];
    RunsOfPrefix(init, ss, pre, s1.chunks[|c.chunks|].text);
    forall i | |c.chunks| < i < |s1.chunks| ensures TrimmedRun(chunks[i].text, ss) {
      RunsOfPrefix(init, ss, pre, s1.chunks[i].text);
    }
  }

  /** A sentence that does not fit pushes the buffer, a run ending before it, and starts a new one. */
  lemma RunsPush(c: Chunker, s1: Chunker, init: seq<JsString>, last: JsString, maxChars: int)
    requires SentenceRuns(c, s1, init) && |s1.buffer| + |last| > maxChars
    ensures SentenceRuns(c, AddSentence(s1, last, maxChars), init + [last])
  {
    var ss := init + [last];
    var pre: seq<JsString> := if c.buffer == [] then [] else [c.buffer];
    var r := AddSentence(s1, last, maxChars);
    assert r.chunks == s1.chunks + [TextChunk(s1.nextId, Trim(s1.buffer), false)];
    assert ss[|init|..] == [last] && ss[..|init|] == init;
    assert SuffixRun(r.buffer, ss);
    if |s1.chunks| == |c.chunks| {
      assert FirstRun(r.chunks[|c.chunks|].text, pre, ss);
    } else {
      RunsKept(c, s1, r.chunks, init, ss);
      var a :| 0 <= a < |init| && s1.buffer == JoinWith([SPACE], init[a..]);
      assert init[a..] == ss[a..|init|];
      assert TrimmedRun(r.chunks[|s1.chunks|].text, ss);
    }
  }

  /** A sentence that fits is joined to the buffer by a space, extending the buffer's run. */
  lemma RunsJoin(c: Chunker, s1: Chunker, init: seq<JsString>, last: JsString, maxChars: int)
    requires SentenceRuns(c, s1, init) && |s1.buffer| + |last| <= maxChars
    requires forall k :: 0 <= k < |init| ==> init[k] != []
    ensures SentenceRuns(c, AddSentence(s1, last, maxChars), init + [last])
  {
    var ss := init + [last];
    var pre: seq<JsString> := if c.buffer == [] then [] else [c.buffer];
    var r := AddSentence(s1, last, maxChars);
    if |s1.chunks| == |c.chunks| {
      var parts := pre + init;
      if parts == [] {
        assert r.buffer == last;
        assert pre + ss == [last];
      } else {
        JoinWithLength([SPACE], parts);
        assert parts[|parts| - 1] != [] by {
          if init == [] {
            assert parts[|parts| - 1] == c.buffer;
          } else {
            assert parts[|parts| - 1] == init[|init| - 1];
          }
        }
        JoinWithSnoc([SPACE], parts, last);
        assert parts + [last] == pre + ss;
      }
    } else {
      RunsKept(c, s1, r.chunks, init, ss);
      var a :| 0 <= a < |init| && s1.buffer == JoinWith([SPACE], init[a..]);
      JoinWithLength([SPACE], init[a..]);
      assert init[a..][|init[a..]| - 1] == init[|init| - 1];
      JoinWithSnoc([SPACE], init[a..], last);
      assert init[a..] + [last] == ss[a..];
      assert SuffixRun(r.buffer, ss);
    }
  }

  /**
   * For every state and list of non-empty sentences, the chunks and the
   * buffer the sentence loop leaves are runs of consecutive sentences
   * joined by single spaces.
   */
  lemma {:induction false} AddSentencesRuns(c: Chunker, ss: seq<JsString>, maxChars: int)
    requires forall k :: 0 <= k < |ss| ==> ss[k] != []
    ensures SentenceRuns(c, AddSentences(c, ss, maxChars), ss)
    decreases |ss|
  {
    var pre: seq<JsString> := if c.buffer == [] then [] else [c.buffer];
    if ss == [] {
      assert pre + ss == pre;
    } else {
      var init := ss[..|ss| - 1];
      var last := ss[|ss| - 1];
      AddSentencesRuns(c, init, maxChars);
      var s1 := AddSentences(c, init, maxChars);
      if |s1.buffer| + |last| > maxChars {
        RunsPush(c, s1, init, last, maxChars);
      } else {
        RunsJoin(c, s1, init, last, maxChars);
      }
      assert init + [last] == ss;
    }
  }

  /** The part of a kept paragraph the chunker takes: all of it, or its sentences when it is over the limit. */
  function SpokenPart(cleanPara: JsString, maxChars: int): JsString
  {
    if |cleanPara| > maxChars then cleanPara[LeadingEnds(cleanPara)..] else cleanPara
  }

  /**
   * One kept paragraph adds its visible text to what the chunker holds;
   * an oversized one does so without the sentence ends it starts with.
   */
  lemma AddParagraphHeld(c: Chunker, cleanPara: JsString, maxChars: int)
    ensures Held(AddParagraph(c, cleanPara, maxChars)) == Held(c) + Visible(SpokenPart(cleanPara, maxChars))
  {
    if |c.buffer| + |cleanPara| > maxChars {
      var flushed := if |c.buffer| > 0 then Emit(c).(buffer := []) else c;
      assert Held(flushed) == Held(c) by {
        if |c.buffer| > 0 {
          EmitHeld(c);
        } else {
          assert c.buffer == [];
        }
      }
      if |cleanPara| > maxChars {
        AddSentencesHeld(flushed, Sentences(cleanPara), maxChars);
      } else {
        assert Held(flushed.(buffer := cleanPara)) == ChunksVisible(flushed.chunks) + Visible(cleanPara);
      }
    } else {
      var sep := if c.buffer != [] then PARAGRAPH_BREAK else [];
      assert IsBlank(sep) by {
        assert forall k :: 0 <= k < |sep| ==> sep[k] == LF;
      }
      VisibleAfterSeparator(c.buffer, sep, cleanPara);
    }
  }

  /**
   * A kept paragraph over the limit flushes the buffer and is then cut into
   * runs of consecutive sentences joined by single spaces: every chunk it
   * pushes is one run, trimmed, and the buffer it leaves is the last run.
   */
  lemma OversizedRuns(c: Chunker, cleanPara: JsString, maxChars: int)
    requires |cleanPara| > maxChars && IsTrimmed(cleanPara) && !IsBlank(cleanPara)
    ensures var flushed := if |c.buffer| > 0 then Emit(c).(buffer := []) else c;
      SentenceRuns(flushed, AddParagraph(c, cleanPara, maxChars), Sentences(cleanPara))
  {
    var flushed := if |c.buffer| > 0 then Emit(c).(buffer := []) else c;
    SentencesOfCleanNotBlank(cleanPara);
    var ss := Sentences(cleanPara);
    assert forall k :: 0 <= k < |ss| ==> ss[k] != [] by {
      forall k | 0 <= k < |ss| ensures ss[k] != [] {
        if ss[k] == [] {
          assert IsBlank(ss[k]);
        }
      }
    }
    AddSentencesRuns(flushed, ss, maxChars);
  }

  /** The visible text of the kept paragraphs of `ps`, each as the chunker takes it. */
  function SpokenText(ps: seq<JsString>, maxChars: int): JsString
  {
    if ps == [] then []
    else
      var cleanPara := CleanParagraph(ps[|ps| - 1]);
      SpokenText(ps[..|ps| - 1], maxChars) + (if Kept(cleanPara) then Visible(SpokenPart(cleanPara, maxChars)) else [])
  }

  lemma {:induction false} AddParagraphsHeld(ps: seq<JsString>, maxChars: int)
    ensures Held(AddParagraphs(START, ps, maxChars)) == SpokenText(ps, maxChars)
    decreases |ps|
  {
    if ps != [] {
      var init := ps[..|ps| - 1];
      AddParagraphsHeld(init, maxChars);
      var cleanPara := CleanParagraph(ps[|ps| - 1]);
      if Kept(cleanPara) {
        AddParagraphHeld(AddParagraphs(START, init, maxChars), cleanPara, maxChars);
      }
    }
  }

  /**
   * For every text and limit, the chunks hold the visible text of the kept
   * paragraphs in order: chunking drops only whitespace and, from an
   * oversized paragraph, the sentence ends it starts with.
   */
  lemma ChunksSayText(text: JsString, maxChars: int)
    ensures ChunksVisible(ChunksOf(text, maxChars)) == SpokenText(ParagraphsOf(text), maxChars)
  {
    var c := AddParagraphs(START, ParagraphsOf(text), maxChars);
    AddParagraphsHeld(ParagraphsOf(text), maxChars);
    if |Trim(c.buffer)| > 0 {
      EmitHeld(c);
    } else {
      VisibleTrim(c.buffer);
      assert Trim(c.buffer) == [];
    }
  }

  // Reading a chunk back: `text.split('\n\n')`.

  /** The first `\n\n` of `s` at or after `i`. */
  function FirstBreak(s: JsString, i: nat): (r: Option<nat>)
    requires i <= |s|
    ensures r.Some? ==> i <= r.value && r.value + 2 <= |s| && s[r.value] == LF && s[r.value + 1] == LF
    decreases |s| - i
  {
    if i + 2 > |s| then None
    else if s[i] == LF && s[i + 1] == LF then Some(i)
    else FirstBreak(s, i + 1)
  }

  /** `s.split('\n\n')`. */
  function SplitOnBreak(s: JsString): (r: seq<JsString>)
    ensures |r| > 0
    decreases |s|
  {
    match FirstBreak(s, 0)
    case None => [s]
    case Some(j) => [s[..j]] + SplitOnBreak(s[j + 2..])
  }

  predicate NoLF(s: JsString)
  {
    forall i :: 0 <= i < |s| ==> s[i] != LF
  }

  lemma {:induction false} NoBreakWithoutLF(s: JsString, i: nat)
    requires i <= |s| && NoLF(s)
    ensures FirstBreak(s, i) == None
    decreases |s| - i
  {
    if i + 2 <= |s| {
      NoBreakWithoutLF(s, i + 1);
    }
  }

  /** Joining `a` and `b` with `\n\n` puts the first break of the result where `a`'s is, or at the join. */
  lemma {:induction false} FirstBreakJoined(a: JsString, b: JsString, i: nat)
    requires i <= |a| && |a| > 0 && a[|a| - 1] != LF
    ensures FirstBreak(a + PARAGRAPH_BREAK + b, i)
      == (if FirstBreak(a, i).Some? then FirstBreak(a, i) else Some(|a|))
    decreases |a| - i
  {
    var x := a + PARAGRAPH_BREAK + b;
    if i + 2 <= |a| {
      assert x[i] == a[i] && x[i + 1] == a[i + 1];
      FirstBreakJoined(a, b, i + 1);
    } else if i + 1 == |a| {
      assert x[i] == a[i];
      assert x[i + 1] == LF && x[i + 2] == LF;
    } else {
      assert x[i] == LF && x[i + 1] == LF;
    }
  }

  /** Splitting `a + "\n\n" + b` splits `a` and adds `b`, when `a` does not end in LF and `b` has none. */
  lemma {:induction false} SplitJoined(a: JsString, b: JsString)
    requires |a| > 0 && a[|a| - 1] != LF && NoLF(b)
    ensures SplitOnBreak(a + PARAGRAPH_BREAK + b) == SplitOnBreak(a) + [b]
    decreases |a|
  {
    FirstBreakJoined(a, b, 0);
    NoBreakWithoutLF(b, 0);
    match FirstBreak(a, 0)
    case None =>
      SplitJoinedAtJoin(a, b);
      assert SplitOnBreak(a) == [a];
    case Some(j) =>
      var rest := a[j + 2..];
      SplitJoinedInA(a, b, j);
      SplitJoined(rest, b);
      assert [a[..j]] + (SplitOnBreak(rest) + [b]) == ([a[..j]] + SplitOnBreak(rest)) + [b];
  }

  /** Without a break in `a`, the first break of `a + "\n\n" + b` is the join. */
  lemma SplitJoinedAtJoin(a: JsString, b: JsString)
    requires FirstBreak(a, 0) == None && FirstBreak(b, 0) == None
    requires FirstBreak(a + PARAGRAPH_BREAK + b, 0) == Some(|a|)
    ensures SplitOnBreak(a + PARAGRAPH_BREAK + b) == [a, b]
  {
    var x := a + PARAGRAPH_BREAK + b;
    assert x[..|a|] == a;
    assert x[|a| + 2..] == b;
  }

  /** With a first break at `j` in `a`, the split of the join starts like the split of `a`. */
  lemma SplitJoinedInA(a: JsString, b: JsString, j: nat)
    requires FirstBreak(a, 0) == Some(j) && |a| > 0 && a[|a| - 1] != LF
    requires FirstBreak(a + PARAGRAPH_BREAK + b, 0) == Some(j)
    ensures |a[j + 2..]| > 0 && a[j + 2..][|a[j + 2..]| - 1] != LF
    ensures SplitOnBreak(a + PARAGRAPH_BREAK + b) == [a[..j]] + SplitOnBreak(a[j + 2..] + PARAGRAPH_BREAK + b)
    ensures SplitOnBreak(a) == [a[..j]] + SplitOnBreak(a[j + 2..])
  {
    var x := a + PARAGRAPH_BREAK + b;
    var rest := a[j + 2..];
    assert |rest| > 0;
    assert x[..j] == a[..j];
    assert x[j + 2..] == rest + PARAGRAPH_BREAK + b;
  }

  /** The paragraphs read back from the chunk texts, in order. */
  function ChunkParagraphs(chunks: seq<TextChunk>): seq<JsString>
  {
    if chunks == [] then []
    else ChunkParagraphs(chunks[..|chunks| - 1]) + SplitOnBreak(chunks[|chunks| - 1].text)
  }

  /** The cleaned paragraphs that pass the filter, in order. */
  function KeptParagraphs(ps: seq<JsString>): seq<JsString>
  {
    if ps == [] then []
    else if Kept(CleanParagraph(ps[|ps| - 1])) then KeptParagraphs(ps[..|ps| - 1]) + [CleanParagraph(ps[|ps| - 1])]
    else KeptParagraphs(ps[..|ps| - 1])
  }

  /** Every kept paragraph fits in a chunk on its own. */
  predicate AllFit(ps: seq<JsString>, maxChars: int)
  {
    forall k :: 0 <= k < |ps| && Kept(CleanParagraph(ps[k])) ==> |CleanParagraph(ps[k])| <= maxChars
  }

  /** The paragraphs of the pushed chunks and of the buffer. */
  function Gathered(c: Chunker): seq<JsString>
  {
    ChunkParagraphs(c.chunks) + (if c.buffer == [] then [] else SplitOnBreak(c.buffer))
  }

  lemma EmitGathered(c: Chunker)
    requires IsTrimmed(c.buffer) && c.buffer != []
    ensures Gathered(Emit(c).(buffer := [])) == Gathered(c)
  {
    TrimOfTrimmed(c.buffer);
    var e := Emit(c);
    assert e.chunks[..|e.chunks| - 1] == c.chunks;
  }

  lemma AddParagraphGathered(c: Chunker, cleanPara: JsString, maxChars: int)
    requires IsTrimmed(c.buffer) && Kept(cleanPara) && IsTrimmed(cleanPara) && NoLF(cleanPara)
    requires |cleanPara| <= maxChars
    ensures IsTrimmed(AddParagraph(c, cleanPara, maxChars).buffer)
    ensures Gathered(AddParagraph(c, cleanPara, maxChars)) == Gathered(c) + [cleanPara]
  {
    NoBreakWithoutLF(cleanPara, 0);
    if |c.buffer| + |cleanPara| > maxChars {
      FlushedGathered(c, cleanPara, maxChars);
    } else if c.buffer != [] {
      JoinedGathered(c, cleanPara, maxChars);
    } else {
      assert AddParagraph(c, cleanPara, maxChars) == c.(buffer := cleanPara) by {
        assert c.buffer + [] + cleanPara == cleanPara;
      }
    }
  }

  /** A paragraph that does not fit beside the buffer flushes it and becomes the new buffer. */
  lemma FlushedGathered(c: Chunker, cleanPara: JsString, maxChars: int)
    requires IsTrimmed(c.buffer) && Kept(cleanPara) && SplitOnBreak(cleanPara) == [cleanPara]
    requires |cleanPara| <= maxChars < |c.buffer| + |cleanPara|
    ensures AddParagraph(c, cleanPara, maxChars) == Emit(c).(buffer := cleanPara)
    ensures Gathered(AddParagraph(c, cleanPara, maxChars)) == Gathered(c) + [cleanPara]
  {
    EmitGathered(c);
  }

  /** A paragraph that fits beside a non-empty buffer is joined to it. */
  lemma JoinedGathered(c: Chunker, cleanPara: JsString, maxChars: int)
    requires IsTrimmed(c.buffer) && c.buffer != [] && Kept(cleanPara) && IsTrimmed(cleanPara) && NoLF(cleanPara)
    requires SplitOnBreak(cleanPara) == [cleanPara] && |c.buffer| + |cleanPara| <= maxChars
    ensures IsTrimmed(AddParagraph(c, cleanPara, maxChars).buffer)
    ensures Gathered(AddParagraph(c, cleanPara, maxChars)) == Gathered(c) + [cleanPara]
  {
    assert AddParagraph(c, cleanPara, maxChars) == c.(buffer := c.buffer + PARAGRAPH_BREAK + cleanPara);
    JoinedBufferGathered(c, cleanPara);
  }

  lemma JoinedBufferGathered(c: Chunker, cleanPara: JsString)
    requires IsTrimmed(c.buffer) && c.buffer != [] && Kept(cleanPara) && IsTrimmed(cleanPara) && NoLF(cleanPara)
    requires SplitOnBreak(cleanPara) == [cleanPara]
    ensures var joined := c.buffer + PARAGRAPH_BREAK + cleanPara;
      IsTrimmed(joined) && Gathered(c.(buffer := joined)) == Gathered(c) + [cleanPara]
  {
    var joined := c.buffer + PARAGRAPH_BREAK + cleanPara;
    SplitJoined(c.buffer, cleanPara);
    assert joined[0] == c.buffer[0] && joined[|joined| - 1] == cleanPara[|cleanPara| - 1];
  }

  lemma {:induction false} AddParagraphsGathered(ps: seq<JsString>, maxChars: int)
    requires AllFit(ps, maxChars)
    ensures IsTrimmed(AddParagraphs(START, ps, maxChars).buffer)
    ensures Gathered(AddParagraphs(START, ps, maxChars)) == KeptParagraphs(ps)
    decreases |ps|
  {
    if ps != [] {
      var init := ps[..|ps| - 1];
      assert AllFit(init, maxChars) by {
        forall k | 0 <= k < |init| ensures init[k] == ps[k] { }
      }
      AddParagraphsGathered(init, maxChars);
      var cleanPara := CleanParagraph(ps[|ps| - 1]);
      if Kept(cleanPara) {
        AddParagraphGathered(AddParagraphs(START, init, maxChars), cleanPara, maxChars);
      }
    }
  }

  /**
   * When every kept paragraph fits in `maxChars`, no paragraph is cut:
   * splitting the chunk texts on `\n\n` gives back the kept, cleaned
   * paragraphs, in order.
   */
  lemma ChunksKeepParagraphs(text: JsString, maxChars: int)
    requires AllFit(ParagraphsOf(text), maxChars)
    ensures ChunkParagraphs(ChunksOf(text, maxChars)) == KeptParagraphs(ParagraphsOf(text))
  {
    var c := AddParagraphs(START, ParagraphsOf(text), maxChars);
    AddParagraphsGathered(ParagraphsOf(text), maxChars);
    if c.buffer != [] {
      TrimOfTrimmed(c.buffer);
      var e := Emit(c);
      assert e.chunks[..|e.chunks| - 1] == c.chunks;
    }
  }

  // Two inputs that show the limit's edges.

  lemma {:induction false} CollapseWithoutWhitespace(s: JsString)
    requires forall i :: 0 <= i < |s| ==> !IsWhitespace(s[i])
    ensures CollapseWhitespace(s) == s
    decreases |s|
  {
    if s != [] {
      CollapseWithoutWhitespace(s[..|s| - 1]);
    }
  }

  /** A text with no whitespace is cleaned to itself. */
  lemma CleanPlain(text: JsString)
    requires forall i :: 0 <= i < |text| ==> !IsWhitespace(text[i])
    ensures CleanParagraph(text) == text
  {
    CollapseWithoutWhitespace(text);
    TrimOfTrimmed(text);
  }

  /** A text with no whitespace, CR or LF is one paragraph, cleaned to itself. */
  lemma PlainParagraph(text: JsString)
    requires forall i :: 0 <= i < |text| ==> !IsWhitespace(text[i])
    ensures ParagraphsOf(text) == [text]
    ensures CleanParagraph(text) == text
  {
    NormalizeWithoutCR(text);
    SplitWithoutLF(text, 0, 0);
    CleanPlain(text);
  }

  /** The first kept paragraph that fits becomes the buffer. */
  lemma FirstParagraphBuffered(p: JsString, maxChars: int)
    requires CleanParagraph(p) == p && Kept(p) && |p| <= maxChars
    ensures AddParagraphs(START, [p], maxChars) == Chunker([], 0, p)
  {
    assert [p][..0] == [];
    assert [] + [] + p == p;
  }

  /** A kept paragraph that fits beside a non-empty buffer is joined to it with `\n\n`. */
  lemma ParagraphJoined(c: Chunker, ps: seq<JsString>, p: JsString, maxChars: int)
    requires AddParagraphs(START, ps, maxChars) == c && c.buffer != []
    requires CleanParagraph(p) == p && Kept(p) && |c.buffer| + |p| <= maxChars
    ensures AddParagraphs(START, ps + [p], maxChars) == c.(buffer := c.buffer + PARAGRAPH_BREAK + p)
  {
    AddParagraphsSnoc(START, ps, p, maxChars);
  }

  /** A trimmed, non-empty buffer is pushed as the last chunk. */
  lemma FinishPushes(c: Chunker)
    requires IsTrimmed(c.buffer) && c.buffer != []
    ensures Finish(c) == c.chunks + [TextChunk(c.nextId, c.buffer, false)]
  {
    TrimOfTrimmed(c.buffer);
  }

  /** "ab." is one sentence. */
  lemma OneSentence(text: JsString)
    requires text == [0x61, 0x62, 0x2E]
    ensures Sentences(text) == [text]
  {
    assert OtherRunEnd(text, 2) == 2;
    assert OtherRunEnd(text, 1) == 2;
    assert OtherRunEnd(text, 0) == 2;
    assert EndRunEnd(text, 3) == 3;
    assert EndRunEnd(text, 2) == 3;
    assert SentencesFrom(text, 3) == [];
    assert text[0..3] == text;
    assert SentencesFrom(text, 0) == [text];
  }

  /**
   * A sentence longer than the limit arriving at an empty buffer pushes
   * the empty buffer first: "ab." with a limit of 1 gives an empty chunk 0
   * and "ab." as chunk 1.
   */
  lemma OversizedSentenceExample(text: JsString)
    requires text == [0x61, 0x62, 0x2E]
    ensures ChunksOf(text, 1) == [TextChunk(0, [], false), TextChunk(1, text, false)]
  {
    PlainParagraph(text);
    var c := Chunker([TextChunk(0, [], false)], 1, text);
    OversizedSentenceStep(text);
    assert AddParagraphs(START, [text], 1) == c by {
      assert [text][..0] == [];
      assert IsAsciiLetter(text[0]);
    }
    FinishPushes(c);
  }

  lemma OversizedSentenceStep(text: JsString)
    requires text == [0x61, 0x62, 0x2E]
    ensures AddParagraph(START, text, 1) == Chunker([TextChunk(0, [], false)], 1, text)
  {
    OneSentence(text);
    assert Trim([]) == [];
    assert AddSentences(START, [text], 1) == AddSentence(START, text, 1) by {
      assert [text][..0] == [];
    }
  }

  /** "ab", a blank line and "cd" are two paragraphs. */
  lemma TwoParagraphs(ab: JsString, cd: JsString)
    requires ab == [0x61, 0x62] && cd == [0x63, 0x64]
    ensures ParagraphsOf(ab + PARAGRAPH_BREAK + cd) == [ab, cd]
  {
    var text := ab + PARAGRAPH_BREAK + cd;
    NormalizeWithoutCR(text);
    assert WhitespaceRunEnd(text, 3) == 4;
    assert LastLF(text, 3, 4) == Some(3);
    assert BlankLineAt(text, 2) == Some(4);
    assert text[4..] == cd;
    assert SplitParagraphsFrom(text, 4, 6) == [cd];
    assert BlankLineAt(text, 5) == None;
    assert SplitParagraphsFrom(text, 4, 5) == [cd];
    assert BlankLineAt(text, 4) == None;
    assert SplitParagraphsFrom(text, 4, 4) == [cd];
    assert text[0..2] == ab;
    assert SplitParagraphsFrom(text, 0, 2) == [ab, cd];
    assert BlankLineAt(text, 1) == None;
    assert SplitParagraphsFrom(text, 0, 1) == [ab, cd];
    assert BlankLineAt(text, 0) == None;
  }

  /**
   * The `\n\n` joining two paragraphs is not counted against the limit:
   * "ab", a blank line and "cd" with a limit of 4 give one chunk of 6 units.
   */
  lemma SeparatorNotCountedExample(ab: JsString, cd: JsString)
    requires ab == [0x61, 0x62] && cd == [0x63, 0x64]
    ensures var text := ab + PARAGRAPH_BREAK + cd;
      ChunksOf(text, 4) == [TextChunk(0, text, false)] && |text| > 4
  {
    var text := ab + PARAGRAPH_BREAK + cd;
    TwoParagraphs(ab, cd);
    CleanPlain(ab);
    CleanPlain(cd);
    assert IsAsciiLetter(ab[0]) && IsAsciiLetter(cd[0]);
    TwoParagraphsBuffered(ab, cd, 4);
    var c := Chunker([], 0, text);
    assert IsTrimmed(text) by {
      assert text[0] == 0x61 && text[|text| - 1] == 0x64;
    }
    FinishPushes(c);
  }

  /**
   * Two clean, kept paragraphs whose lengths add up to at most the limit
   * share the buffer, joined by a blank line that is not counted.
   */
  lemma TwoParagraphsBuffered(p1: JsString, p2: JsString, maxChars: int)
    requires CleanParagraph(p1) == p1 && Kept(p1) && CleanParagraph(p2) == p2 && Kept(p2)
    requires |p1| + |p2| <= maxChars
    ensures AddParagraphs(START, [p1, p2], maxChars) == Chunker([], 0, p1 + PARAGRAPH_BREAK + p2)
  {
    FirstParagraphBuffered(p1, maxChars);
    ParagraphJoined(Chunker([], 0, p1), [p1], p2, maxChars);
    assert [p1] + [p2] == [p1, p2];
  }
}
