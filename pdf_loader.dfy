/** The PDF loader: one document per page that has text, its whitespace
    collapsed, with the page's position in the file as metadata. */
module PdfLoading {
  import opened Wrappers
  import opened PyText
  import opened Schema

  const TotalPagesKey: string := "total_pages"

  /** What `page.extract_text()` does for one page: it returns text, returns
      nothing, or raises. */
  datatype Page = Text(text: string) | NoText | Raises

  /** `text and text.strip()`: the page has some non-whitespace text. */
  predicate HasText(p: Page) {
    p.Text? && !IsBlank(p.text)
  }

  /** The number of pages read before the first page whose extraction
      raises: all of them when none does. */
  function Readable(pages: seq<Page>): (n: nat)
    ensures n <= |pages|
    ensures forall i :: 0 <= i < n ==> !pages[i].Raises?
    ensures n < |pages| ==> pages[n].Raises?
  {
    if pages == [] || pages[0].Raises? then 0
    else
      var n := Readable(pages[1..]);
      assert forall i :: 1 <= i < 1 + n ==> pages[i] == pages[1..][i - 1];
      1 + n
  }

  /** The positions, among the first `n` pages, of the pages with text. */
  function TextPages(pages: seq<Page>, n: nat): (ps: seq<nat>)
    requires n <= |pages|
    ensures forall k :: 0 <= k < |ps| ==> ps[k] < n && HasText(pages[ps[k]])
  {
    if n == 0 then []
    else TextPages(pages, n - 1) + (if HasText(pages[n - 1]) then [n - 1] else [])
  }

  /** The metadata of the document for page `i` (counted from 0) of a file
      of `total` pages. */
  function PageMetadata(path: string, i: nat, total: nat): Metadata {
    map[SourceKey := Str(path), FileNameKey := Str(Basename(path)),
        PageNumberKey := Int(i + 1), TotalPagesKey := Int(total)]
  }

  /** The document made of page `i`. */
  function PageChunk(path: string, pages: seq<Page>, i: nat): Chunk
    requires i < |pages| && HasText(pages[i])
  {
    Chunk(CollapseSpaces(pages[i].text), PageMetadata(path, i, |pages|))
  }

  /** The documents made of the pages at positions `ps`, in that order. */
  function Chunks(path: string, pages: seq<Page>, ps: seq<nat>): (cs: seq<Chunk>)
    requires forall k :: 0 <= k < |ps| ==> ps[k] < |pages| && HasText(pages[ps[k]])
    ensures |cs| == |ps|
    ensures forall k :: 0 <= k < |ps| ==> cs[k] == PageChunk(path, pages, ps[k])
  {
    seq(|ps|, k requires 0 <= k < |ps| => PageChunk(path, pages, ps[k]))
  }

  /** What loading a file with these pages gives: the pages with text that
      were read before extraction raised, if it did. */
  function Loaded(path: string, pages: seq<Page>): seq<Chunk> {
    Chunks(path, pages, TextPages(pages, Readable(pages)))
  }

  /** `PDFLoader.load`. `reader` is the file's pages as the PDF reader sees
      them, or nothing when opening the file raises. An exception stops the
      loop and the documents made so far are returned. */
  method Load(path: string, reader: Option<seq<Page>>) returns (documents: seq<Document>)
    ensures forall d :: d in documents ==> fresh(d)
    ensures Snapshot(documents) == (if reader.Some? then Loaded(path, reader.value) else [])
  {
    documents := [];
    if reader.None? {
      return;
    }
    var pages := reader.value;
    var i := 0;
    while i < |pages|
      invariant i <= Readable(pages)
      invariant forall d :: d in documents ==> fresh(d)
      invariant Snapshot(documents) == Chunks(path, pages, TextPages(pages, i))
    {
      if pages[i].Raises? {
        assert Readable(pages) == i;
        return;
      }
      assert i < Readable(pages);
      documents := ReadPage(documents, path, pages, i);
      i := i + 1;
    }
    assert Readable(pages) == |pages|;
  }

  /** One turn of the page loop, for a page whose extraction does not
      raise: the page's document (its text with the whitespace collapsed and
      the page's metadata) is appended when it has text, so the documents of
      the pages before `i` become those of the pages up to `i`. */
  method ReadPage(documents: seq<Document>, path: string, pages: seq<Page>, i: nat)
    returns (extended: seq<Document>)
    requires i < |pages|
    requires Snapshot(documents) == Chunks(path, pages, TextPages(pages, i))
    ensures forall d :: d in extended ==> d in documents || fresh(d)
    ensures Snapshot(extended) == Chunks(path, pages, TextPages(pages, i + 1))
  {
    ChunksStep(path, pages, i);
    extended := documents;
    if pages[i].Text? && Strip(pages[i].text) != "" {
      var metadata := PageMetadata(path, i, |pages|);
      PageMetadataEntries(path, i, |pages|);
      ghost var made := Snapshot(documents);
      var d := new Document(CollapseSpaces(pages[i].text), metadata);
      assert Snapshot(documents) == made;
      SnapshotAppend(documents, d);
      extended := documents + [d];
    }
  }

  /** Reading one more page adds its document when it has text, and nothing
      otherwise. */
  lemma ChunksStep(path: string, pages: seq<Page>, i: nat)
    requires i < |pages|
    ensures HasText(pages[i]) ==>
      Chunks(path, pages, TextPages(pages, i + 1)) == Chunks(path, pages, TextPages(pages, i)) + [PageChunk(path, pages, i)]
    ensures !HasText(pages[i]) ==>
      Chunks(path, pages, TextPages(pages, i + 1)) == Chunks(path, pages, TextPages(pages, i))
  {
    if HasText(pages[i]) {
      ChunksSnoc(path, pages, TextPages(pages, i), i);
    }
  }

  lemma ChunksSnoc(path: string, pages: seq<Page>, ps: seq<nat>, p: nat)
    requires forall k :: 0 <= k < |ps| ==> ps[k] < |pages| && HasText(pages[ps[k]])
    requires p < |pages| && HasText(pages[p])
    ensures Chunks(path, pages, ps + [p]) == Chunks(path, pages, ps) + [PageChunk(path, pages, p)]
  {
    var a := Chunks(path, pages, ps + [p]);
    var b := Chunks(path, pages, ps) + [PageChunk(path, pages, p)];
    forall k | 0 <= k < |a| ensures a[k] == b[k] {
      if k < |ps| {
        assert (ps + [p])[k] == ps[k];
      }
    }
  }

  /** The pages that become documents are exactly the pages with text, in
      page order, each once. */
  lemma {:induction false} TextPagesExactly(pages: seq<Page>, n: nat)
    requires n <= |pages|
    ensures var ps := TextPages(pages, n);
      && (forall k, j :: 0 <= k < j < |ps| ==> ps[k] < ps[j])
      && (forall i :: 0 <= i < n ==> (i in ps <==> HasText(pages[i])))
  {
    if n > 0 {
      TextPagesExactly(pages, n - 1);
    }
  }

  /** Every document of a page records the file, the page number counted
      from 1 and the number of pages in the file, and nothing else; the
      page numbers increase through the list and stay within the file. */
  lemma LoadedMetadata(path: string, pages: seq<Page>)
    ensures var cs := Loaded(path, pages);
      && (forall k :: 0 <= k < |cs| ==>
            && cs[k].metadata.Keys == {SourceKey, FileNameKey, PageNumberKey, TotalPagesKey}
            && cs[k].metadata[SourceKey] == Str(path)
            && cs[k].metadata[FileNameKey] == Str(Basename(path))
            && cs[k].metadata[TotalPagesKey] == Int(|pages|)
            && cs[k].metadata[PageNumberKey].Int?
            && 1 <= cs[k].metadata[PageNumberKey].i <= |pages|)
      && (forall k, j :: 0 <= k < j < |cs| ==>
            cs[k].metadata[PageNumberKey].i < cs[j].metadata[PageNumberKey].i)
  {
    var ps := TextPages(pages, Readable(pages));
    TextPagesExactly(pages, Readable(pages));
    var cs := Loaded(path, pages);
    forall k | 0 <= k < |cs|
      ensures cs[k].metadata == PageMetadata(path, ps[k], |pages|)
      ensures cs[k].metadata[PageNumberKey] == Int(ps[k] + 1)
      ensures && cs[k].metadata.Keys == {SourceKey, FileNameKey, PageNumberKey, TotalPagesKey}
            && cs[k].metadata[SourceKey] == Str(path)
            && cs[k].metadata[FileNameKey] == Str(Basename(path))
            && cs[k].metadata[TotalPagesKey] == Int(|pages|)
    {
      PageMetadataEntries(path, ps[k], |pages|);
    }
  }

  /** The content of a document is the page's text with its whitespace
      collapsed: not empty, no whitespace at either end, no whitespace but
      single spaces between words, and the page's words in their order. */
  lemma LoadedContent(path: string, pages: seq<Page>)
    ensures var cs := Loaded(path, pages);
      var ps := TextPages(pages, Readable(pages));
      forall k :: 0 <= k < |cs| ==>
        var c := cs[k].content;
        && c != ""
        && Words(c) == Words(pages[ps[k]].text)
        && (forall m :: 0 <= m < |c| && IsSpace(c[m]) ==>
              c[m] == ' ' && 0 < m < |c| - 1 && !IsSpace(c[m - 1]) && !IsSpace(c[m + 1]))
  {
    var cs := Loaded(path, pages);
    var ps := TextPages(pages, Readable(pages));
    forall k | 0 <= k < |cs|
      ensures var c := cs[k].content;
        && c != ""
        && Words(c) == Words(pages[ps[k]].text)
        && (forall m :: 0 <= m < |c| && IsSpace(c[m]) ==>
              c[m] == ' ' && 0 < m < |c| - 1 && !IsSpace(c[m - 1]) && !IsSpace(c[m + 1]))
    {
      var ws := Words(pages[ps[k]].text);
      assert cs[k].content == Join(" ", ws);
      JoinedWordsSpacing(ws);
      WordsOfJoinedWords(ws);
      JoinFirstChar(" ", ws);
    }
  }

  /** A page of whitespace only gives no document. */
  lemma BlankPageSkipped(path: string)
    ensures Loaded(path, [Text("   ")]) == []
  {
    assert !HasText(Text("   "));
    assert TextPages([Text("   ")], 1) == [];
  }

  /** A one-page file whose text is already single-spaced gives one document
      with that text, numbered page 1 of 1, recording the file. */
  lemma SinglePage(path: string, ws: seq<string>)
    requires ws != [] && forall k :: 0 <= k < |ws| ==> ws[k] != "" && NoSpace(ws[k])
    ensures var cs := Loaded(path, [Text(Join(" ", ws))]);
      && |cs| == 1
      && cs[0].content == Join(" ", ws)
      && cs[0].metadata[PageNumberKey] == Int(1)
      && cs[0].metadata[SourceKey] == Str(path)
  {
    var t := Join(" ", ws);
    var pages := [Text(t)];
    WordsOfJoinedWords(ws);
    assert HasText(pages[0]);
    assert Readable(pages) == 1;
    assert TextPages(pages, 1) == [0];
    assert Loaded(path, pages) == [PageChunk(path, pages, 0)];
    assert CollapseSpaces(t) == t;
    PageMetadataEntries(path, 0, 1);
  }

  /** The entries of a page's metadata. */
  lemma PageMetadataEntries(path: string, i: nat, total: nat)
    ensures var m := PageMetadata(path, i, total);
      && m.Keys == {SourceKey, FileNameKey, PageNumberKey, TotalPagesKey}
      && m[SourceKey] == Str(path) && m[FileNameKey] == Str(Basename(path))
      && m[PageNumberKey] == Int(i + 1) && m[TotalPagesKey] == Int(total)
  {
    PageKeysDistinct();
  }

  /** The four keys are different strings. */
  lemma PageKeysDistinct()
    ensures SourceKey != FileNameKey && SourceKey != PageNumberKey && SourceKey != TotalPagesKey
    ensures FileNameKey != PageNumberKey && FileNameKey != TotalPagesKey && PageNumberKey != TotalPagesKey
  {
    assert |SourceKey| == 6 && |FileNameKey| == 9 && |PageNumberKey| == 11 && |TotalPagesKey| == 11;
    assert PageNumberKey[0] != TotalPagesKey[0];
  }

  /** A page that raises ends the file: every document comes from a page
      before it. */
  lemma StopsAtRaise(path: string, pages: seq<Page>, i: nat)
    requires i < |pages| && pages[i].Raises?
    ensures var ps := TextPages(pages, Readable(pages));
      |Loaded(path, pages)| == |ps| && forall k :: 0 <= k < |ps| ==> ps[k] < i
  {
    assert Readable(pages) <= i;
  }
}
