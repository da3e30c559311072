/** The HTML loader: the page's visible text, cleaned to one phrase per
    line, as a single document titled by the page's title. */
module HtmlLoading {
  import opened Wrappers
  import opened PyText
  import opened Schema

  const TitleKey: string := "title"
  /** The title recorded for a page without a title element. */
  const NoTitle: string := "No Title"
  /** The separator `line.split` breaks a line at. */
  const DoubleSpace: string := "  "
  const LineFeed: string := "\n"

  /** `soup.title`: no title element, or one whose `.string` is its text or
      None (when the element does not hold exactly one string). */
  datatype Title = Untitled | TitleTag(text: Option<string>)

  /** A parsed page: the text `get_text(separator="\n")` gives once the
      script, style, nav and footer elements are removed, and its title. */
  datatype Page = Page(text: string, title: Title)

  /** `phrase.strip()` of every piece. */
  function StripAll(parts: seq<string>): (r: seq<string>)
    ensures |r| == |parts|
    ensures forall k :: 0 <= k < |r| ==> r[k] == Strip(parts[k])
  {
    seq(|parts|, k requires 0 <= k < |parts| => Strip(parts[k]))
  }

  /** The stripped pieces of every stripped line, lines in order and pieces
      in order within a line: the generator of cleaned pieces. */
  function Pieces(lines: seq<string>): seq<string> {
    if lines == [] then []
    else StripAll(SplitOn(Strip(lines[0]), DoubleSpace)) + Pieces(lines[1..])
  }

  /** `if chunk`: the non-empty pieces, in order. */
  function NonEmpty(ps: seq<string>): (r: seq<string>)
    ensures forall k :: 0 <= k < |r| ==> r[k] != "" && r[k] in ps
    ensures forall q :: q in ps && q != "" ==> q in r
  {
    if ps == [] then []
    else (if ps[0] != "" then [ps[0]] else []) + NonEmpty(ps[1..])
  }

  /** The phrases of the page's text: the lines of the cleaned text. */
  function Phrases(text: string): seq<string> {
    NonEmpty(Pieces(SplitLines(text)))
  }

  /** The cleaned text: the phrases, one per line. */
  function CleanText(text: string): string {
    Join(LineFeed, Phrases(text))
  }

  /** What the title entry holds. */
  function TitleValue(t: Title): Value {
    match t
    case Untitled => Str(NoTitle)
    case TitleTag(Some(s)) => Str(s)
    case TitleTag(None) => Null
  }

  /** The metadata of the page's document. */
  function PageMetadata(path: string, t: Title): Metadata {
    map[SourceKey := Str(path), FileNameKey := Str(Basename(path)), TitleKey := TitleValue(t)]
  }

  /** `HTMLLoader.load`. `page` is the parsed file, or nothing when reading
      or parsing it raises: then no document is made. The document's content
      holds the page's words, in order, and no others. */
  method Load(path: string, page: Option<Page>) returns (documents: seq<Document>)
    ensures page.None? ==> documents == []
    ensures page.Some? ==>
      && |documents| == 1 && fresh(documents[0])
      && documents[0].content == CleanText(page.value.text)
      && Words(documents[0].content) == Words(page.value.text)
      && documents[0].metadata == PageMetadata(path, page.value.title)
  {
    documents := [];
    if page.None? {
      return;
    }
    var cleaned := CleanText(page.value.text);
    CleanTextWords(page.value.text);
    var metadata := PageMetadata(path, page.value.title);
    var d := new Document(cleaned, metadata);
    documents := documents + [d];
  }

  /** A phrase as the cleaning leaves it: no whitespace at either end, no
      two spaces in a row and no line break. */
  predicate Tidy(p: string) {
    && (p != "" ==> !IsSpace(p[0]) && !IsSpace(p[|p| - 1]))
    && !Contains(p, DoubleSpace)
    && forall j :: 0 <= j < |p| ==> !IsLineBreak(p[j])
  }

  /** Stripping a piece keeps it tidy: a stripped text is a slice of it. */
  lemma StripTidy(piece: string)
    requires !Contains(piece, DoubleSpace)
    requires forall j :: 0 <= j < |piece| ==> !IsLineBreak(piece[j])
    ensures Tidy(Strip(piece))
  {
    var r := Strip(piece);
    var a := LeadingSpaces(piece);
    if Contains(r, DoubleSpace) {
      ContainsSlice(piece, a, a + |r|, DoubleSpace);
    }
    forall j | 0 <= j < |r| ensures !IsLineBreak(r[j]) {
      assert r[j] == piece[a + j];
    }
  }

  /** Every piece of a line without line breaks is tidy. */
  lemma LinePiecesTidy(line: string)
    requires forall j :: 0 <= j < |line| ==> !IsLineBreak(line[j])
    ensures forall q :: q in StripAll(SplitOn(Strip(line), DoubleSpace)) ==> Tidy(q)
  {
    var s := Strip(line);
    var parts := SplitOn(s, DoubleSpace);
    SplitOnPiecesAvoidSep(s, DoubleSpace);
    SplitOnPiecesChars(s, DoubleSpace);
    assert forall c :: c in s ==> !IsLineBreak(c) by {
      forall c | c in s ensures !IsLineBreak(c) {
        var j :| 0 <= j < |s| && s[j] == c;
        assert s[j] == line[LeadingSpaces(line) + j];
      }
    }
    forall k | 0 <= k < |parts| ensures Tidy(Strip(parts[k])) {
      forall j | 0 <= j < |parts[k]| ensures !IsLineBreak(parts[k][j]) {
        assert parts[k][j] in s;
      }
      StripTidy(parts[k]);
    }
  }

  lemma {:induction false} PiecesTidy(lines: seq<string>)
    requires forall k, j :: 0 <= k < |lines| && 0 <= j < |lines[k]| ==> !IsLineBreak(lines[k][j])
    ensures forall q :: q in Pieces(lines) ==> Tidy(q)
  {
    if lines != [] {
      LinePiecesTidy(lines[0]);
      PiecesTidy(lines[1..]);
    }
  }

  /** Every phrase is non-empty and tidy. */
  lemma PhrasesTidy(text: string)
    ensures forall k :: 0 <= k < |Phrases(text)| ==> Phrases(text)[k] != "" && Tidy(Phrases(text)[k])
  {
    PiecesTidy(SplitLines(text));
  }

  /** A non-empty line without line breaks, then a line feed, starts the
      lines of a text with that line. */
  lemma {:induction false} SplitLinesLineThen(p: string, rest: string)
    requires p != [] && forall j :: 0 <= j < |p| ==> !IsLineBreak(p[j])
    ensures SplitLines(p + (LineFeed + rest)) == [p] + SplitLines(rest)
    decreases |p|
  {
    var t := p + (LineFeed + rest);
    assert t[0] == p[0] && !IsLineBreak(t[0]);
    if |p| == 1 {
      var u := LineFeed + rest;
      assert t[1..] == u;
      assert u[0] == '\n' && IsLineBreak(u[0]);
      assert u[1..] == rest;
      assert SplitLines(u) == [""] + SplitLines(rest);
      assert [p[0]] + "" == p;
    } else {
      SplitLinesLineThen(p[1..], rest);
      assert t[1..] == p[1..] + (LineFeed + rest);
      assert [p[0]] + p[1..] == p;
    }
  }

  /** A non-empty text without line breaks is one line. */
  lemma {:induction false} SplitLinesOneLine(p: string)
    requires p != [] && forall j :: 0 <= j < |p| ==> !IsLineBreak(p[j])
    ensures SplitLines(p) == [p]
    decreases |p|
  {
    assert !IsLineBreak(p[0]);
    if |p| == 1 {
      assert p[1..] == [] && SplitLines(p[1..]) == [];
      assert p == [p[0]];
    } else {
      SplitLinesOneLine(p[1..]);
      assert [p[0]] + p[1..] == p;
    }
  }

  /** Joining non-empty lines with line feeds and splitting the result into
      lines gives the lines back. */
  lemma {:induction false} SplitLinesJoin(ps: seq<string>)
    requires forall k :: 0 <= k < |ps| ==> ps[k] != "" && forall j :: 0 <= j < |ps[k]| ==> !IsLineBreak(ps[k][j])
    ensures SplitLines(Join(LineFeed, ps)) == ps
  {
    if |ps| == 1 {
      SplitLinesOneLine(ps[0]);
    } else if |ps| > 1 {
      SplitLinesJoin(ps[1..]);
      var rest := Join(LineFeed, ps[1..]);
      assert Join(LineFeed, ps) == ps[0] + (LineFeed + rest);
      SplitLinesLineThen(ps[0], rest);
      assert ps == [ps[0]] + ps[1..];
    }
  }

  /** The lines of the cleaned text are exactly the phrases: no line is
      empty, none has whitespace at either end, and none holds two spaces in
      a row. */
  lemma CleanTextLines(text: string)
    ensures SplitLines(CleanText(text)) == Phrases(text)
    ensures forall k :: 0 <= k < |Phrases(text)| ==> Phrases(text)[k] != "" && Tidy(Phrases(text)[k])
  {
    PhrasesTidy(text);
    SplitLinesJoin(Phrases(text));
  }

  /** Stripping each piece keeps the words. */
  lemma {:induction false} StripAllWords(ps: seq<string>)
    ensures AllWords(StripAll(ps)) == AllWords(ps)
  {
    if ps != [] {
      StripAllWords(ps[1..]);
      WordsStrip(ps[0]);
      assert StripAll(ps)[1..] == StripAll(ps[1..]);
    }
  }

  /** Dropping the empty pieces drops no word. */
  lemma {:induction false} NonEmptyWords(ps: seq<string>)
    ensures AllWords(NonEmpty(ps)) == AllWords(ps)
  {
    if ps != [] {
      NonEmptyWords(ps[1..]);
      AllWordsConcat(if ps[0] != "" then [ps[0]] else [], NonEmpty(ps[1..]));
    }
  }

  /** The pieces of the lines hold the lines' words, in order. */
  lemma {:induction false} PiecesWords(lines: seq<string>)
    ensures AllWords(Pieces(lines)) == AllWords(lines)
  {
    if lines != [] {
      var s := Strip(lines[0]);
      PiecesWords(lines[1..]);
      AllWordsConcat(StripAll(SplitOn(s, DoubleSpace)), Pieces(lines[1..]));
      StripAllWords(SplitOn(s, DoubleSpace));
      assert IsBlank(DoubleSpace);
      WordsOfSplitOn(s, DoubleSpace);
      WordsStrip(lines[0]);
    }
  }

  /** The cleaning removes only whitespace: the cleaned text holds the
      page's words, in order, and no others. */
  lemma CleanTextWords(text: string)
    ensures Words(CleanText(text)) == Words(text)
  {
    assert IsBlank(LineFeed);
    WordsOfJoin(LineFeed, Phrases(text));
    NonEmptyWords(Pieces(SplitLines(text)));
    PiecesWords(SplitLines(text));
    WordsOfSplitLines(text);
  }

  /** The page's document records the file and its title, and nothing
      else; a page without a title element is titled "No Title". */
  lemma PageMetadataEntries(path: string, t: Title)
    ensures var m := PageMetadata(path, t);
      && m.Keys == {SourceKey, FileNameKey, TitleKey}
      && m[SourceKey] == Str(path) && m[FileNameKey] == Str(Basename(path))
      && m[TitleKey] == (match t
                         case Untitled => Str(NoTitle)
                         case TitleTag(s) => if s.Some? then Str(s.value) else Null)
  {
  }
}
