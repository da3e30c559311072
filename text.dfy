/** The Python `str` operations the pipeline relies on, over `seq<char>`:
    whitespace (`isspace`, `strip`, `split()`), substring search (`in`),
    splitting and joining on a separator, `splitlines`, `os.path.basename`
    and the decimal rendering of integers used by f-strings. */
module PyText {

  /** Python's `str.isspace`, which `split()` and `strip()` use. */
  predicate IsSpace(c: char) {
    || c == ' '
    || ('\t' <= c <= '\r')
    || ('\U{1c}' <= c <= '\U{1f}')
    || c == '\U{85}' || c == '\U{a0}' || c == '\U{1680}'
    || ('\U{2000}' <= c <= '\U{200a}')
    || c == '\U{2028}' || c == '\U{2029}' || c == '\U{202f}' || c == '\U{205f}' || c == '\U{3000}'
  }

  /** The line boundaries of Python's `str.splitlines` ("\r\n" is handled there). */
  predicate IsLineBreak(c: char) {
    || c == '\n' || c == '\r' || c == '\U{0b}' || c == '\U{0c}'
    || c == '\U{1c}' || c == '\U{1d}' || c == '\U{1e}'
    || c == '\U{85}' || c == '\U{2028}' || c == '\U{2029}'
  }

  /** `not s.strip()`: empty or whitespace only. */
  predicate IsBlank(s: string) {
    forall k :: 0 <= k < |s| ==> IsSpace(s[k])
  }

  predicate NoSpace(s: string) {
    forall k :: 0 <= k < |s| ==> !IsSpace(s[k])
  }

  // ---------------------------------------------------------------- strip

  function LeadingSpaces(s: string): (n: nat)
    ensures n <= |s|
    ensures forall k :: 0 <= k < n ==> IsSpace(s[k])
    ensures n < |s| ==> !IsSpace(s[n])
  {
    if s != [] && IsSpace(s[0]) then 1 + LeadingSpaces(s[1..]) else 0
  }

  function TrailingSpaces(s: string): (n: nat)
    ensures n <= |s|
    ensures forall k :: |s| - n <= k < |s| ==> IsSpace(s[k])
    ensures n < |s| ==> !IsSpace(s[|s| - 1 - n])
  {
    if s != [] && IsSpace(s[|s| - 1]) then 1 + TrailingSpaces(s[..|s| - 1]) else 0
  }

  /** Python's `s.strip()`. */
  function Strip(s: string): (r: string)
    ensures r == "" <==> IsBlank(s)
    ensures r != "" ==> !IsSpace(r[0]) && !IsSpace(r[|r| - 1])
    ensures LeadingSpaces(s) + |r| <= |s| && r == s[LeadingSpaces(s)..LeadingSpaces(s) + |r|]
  {
    var lead := LeadingSpaces(s);
    if lead == |s| then ""
    else
      var trail := TrailingSpaces(s);
      assert trail < |s| - lead by { assert !IsSpace(s[lead]); }
      s[lead..|s| - trail]
  }

  lemma StripIdempotent(s: string)
    ensures Strip(Strip(s)) == Strip(s)
  {
    var r := Strip(s);
    if r != "" {
      assert LeadingSpaces(r) == 0;
      assert TrailingSpaces(r) == 0;
    }
  }

  // ---------------------------------------------------------- substrings

  predicate OccursAt(t: string, p: string, i: int) {
    0 <= i && i + |p| <= |t| && t[i..i + |p|] == p
  }

  /** Python's `p in t`. */
  predicate Contains(t: string, p: string) {
    exists i | 0 <= i <= |t| - |p| :: OccursAt(t, p, i)
  }

  lemma ContainsSlice(t: string, a: nat, b: nat, p: string)
    requires a <= b <= |t| && Contains(t[a..b], p)
    ensures Contains(t, p)
  {
    var i :| 0 <= i <= b - a - |p| && OccursAt(t[a..b], p, i);
    forall j | 0 <= j < |p| ensures t[a + i + j] == p[j] {
      assert p[j] == t[a..b][i..i + |p|][j] == t[a..b][i + j];
    }
    assert t[a + i..a + i + |p|] == p;
    assert OccursAt(t, p, a + i);
  }

  // ------------------------------------------------ split and join on a separator

  /** Python's `t.split(sep)` for a non-empty separator: the pieces between the
      non-overlapping occurrences of `sep` found from left to right. */
  function SplitOn(t: string, sep: string): (parts: seq<string>)
    requires sep != ""
    ensures |parts| >= 1
    decreases |t|
  {
    if |t| < |sep| then [t]
    else if t[..|sep|] == sep then [""] + SplitOn(t[|sep|..], sep)
    else
      var rest := SplitOn(t[1..], sep);
      [[t[0]] + rest[0]] + rest[1..]
  }

  /** Python's `sep.join(parts)`. */
  function Join(sep: string, parts: seq<string>): string {
    if |parts| == 0 then ""
    else if |parts| == 1 then parts[0]
    else parts[0] + sep + Join(sep, parts[1..])
  }

  /** Python's `list(t)`: the characters of `t` as one-character strings. */
  function Chars(t: string): (parts: seq<string>)
    ensures |parts| == |t|
    ensures forall k :: 0 <= k < |t| ==> parts[k] == [t[k]]
  {
    seq(|t|, k requires 0 <= k < |t| => [t[k]])
  }

  lemma JoinConsFirst(sep: string, pre: string, parts: seq<string>)
    requires |parts| >= 1
    ensures Join(sep, [pre + parts[0]] + parts[1..]) == pre + Join(sep, parts)
  {
    var q := [pre + parts[0]] + parts[1..];
    if |parts| > 1 {
      assert q[1..] == parts[1..];
    }
  }

  /** Joining the pieces of a split with the same separator gives the text back. */
  lemma {:induction false} JoinSplitOn(t: string, sep: string)
    requires sep != ""
    ensures Join(sep, SplitOn(t, sep)) == t
    decreases |t|
  {
    if |t| < |sep| {
    } else if t[..|sep|] == sep {
      var rest := SplitOn(t[|sep|..], sep);
      JoinSplitOn(t[|sep|..], sep);
      assert ([""] + rest)[1..] == rest;
      assert t == sep + t[|sep|..];
    } else {
      var rest := SplitOn(t[1..], sep);
      JoinSplitOn(t[1..], sep);
      JoinConsFirst(sep, [t[0]], rest);
      assert t == [t[0]] + t[1..];
    }
  }

  /** Joining the characters of `t` with "" gives `t` back. */
  lemma {:induction false} JoinChars(t: string)
    ensures Join("", Chars(t)) == t
    decreases |t|
  {
    if |t| > 1 {
      JoinChars(t[1..]);
      assert Chars(t)[1..] == Chars(t[1..]);
      assert t == [t[0]] + t[1..];
    }
  }

  /** The first piece of a split is a prefix of the text. */
  lemma {:induction false} SplitOnFirstIsPrefix(t: string, sep: string)
    requires sep != ""
    ensures |SplitOn(t, sep)[0]| <= |t| && t[..|SplitOn(t, sep)[0]|] == SplitOn(t, sep)[0]
    decreases |t|
  {
    if |t| >= |sep| && t[..|sep|] != sep {
      SplitOnFirstIsPrefix(t[1..], sep);
    }
  }

  /** No piece of a split contains the separator (so splitting is maximal). */
  lemma {:induction false} SplitOnPiecesAvoidSep(t: string, sep: string)
    requires sep != ""
    ensures forall k :: 0 <= k < |SplitOn(t, sep)| ==> !Contains(SplitOn(t, sep)[k], sep)
    decreases |t|
  {
    var parts := SplitOn(t, sep);
    if |t| < |sep| {
      assert parts == [t];
      assert !Contains(t, sep);
    } else if t[..|sep|] == sep {
      SplitOnPiecesAvoidSep(t[|sep|..], sep);
      assert parts[1..] == SplitOn(t[|sep|..], sep);
      assert parts[0] == "" && !Contains("", sep);
    } else {
      var rest := SplitOn(t[1..], sep);
      SplitOnPiecesAvoidSep(t[1..], sep);
      var p := [t[0]] + rest[0];
      assert parts == [p] + rest[1..];
      assert !Contains(p, sep) by {
        SplitOnFirstIsPrefix(t[1..], sep);
        assert rest[0] == t[1..1 + |rest[0]|];
        FirstPieceAvoidsSep(t, sep, rest[0]);
      }
      forall k | 0 <= k < |parts| ensures !Contains(parts[k], sep) {
        if k > 0 { assert parts[k] == rest[k]; }
      }
    }
  }

  /** The step of `SplitOnPiecesAvoidSep` where `t` does not start with `sep`:
      `first` is the first piece of the split of `t[1..]`. */
  lemma FirstPieceAvoidsSep(t: string, sep: string, first: string)
    requires sep != "" && |t| >= |sep| && t[..|sep|] != sep
    requires |first| < |t| && first == t[1..1 + |first|] && !Contains(first, sep)
    ensures !Contains([t[0]] + first, sep)
  {
    var p := [t[0]] + first;
    assert p == t[..|p|];
    forall i | 0 <= i <= |p| - |sep| ensures !OccursAt(p, sep, i) {
      if i == 0 {
        assert p[..|sep|] == t[..|sep|];
      } else {
        assert p[i..i + |sep|] == first[i - 1..i - 1 + |sep|];
        assert !OccursAt(first, sep, i - 1);
      }
    }
  }

  /** Every character of every piece of a split is a character of the text. */
  lemma {:induction false} SplitOnPiecesChars(t: string, sep: string)
    requires sep != ""
    ensures forall k, j :: 0 <= k < |SplitOn(t, sep)| && 0 <= j < |SplitOn(t, sep)[k]| ==> SplitOn(t, sep)[k][j] in t
    decreases |t|
  {
    var parts := SplitOn(t, sep);
    if |t| < |sep| {
    } else if t[..|sep|] == sep {
      SplitOnPiecesChars(t[|sep|..], sep);
      assert parts[1..] == SplitOn(t[|sep|..], sep);
      forall c | c in t[|sep|..] ensures c in t { }
    } else {
      SplitOnPiecesChars(t[1..], sep);
      forall c | c in t[1..] ensures c in t { }
      assert forall k :: 1 <= k < |parts| ==> parts[k] == SplitOn(t[1..], sep)[k];
    }
  }

  /** Splitting on a one-character separator undoes joining with it, when no
      piece contains that character. */
  lemma {:induction false} SplitOnJoin(c: char, parts: seq<string>)
    requires |parts| >= 1
    requires forall k :: 0 <= k < |parts| ==> c !in parts[k]
    ensures SplitOn(Join([c], parts), [c]) == parts
    decreases |Join([c], parts)|
  {
    var p := parts[0];
    if p == [] {
      if |parts| > 1 {
        SplitOnJoin(c, parts[1..]);
        assert Join([c], parts) == [c] + Join([c], parts[1..]);
        assert parts == [""] + parts[1..];
      }
    } else {
      var tail := [p[1..]] + parts[1..];
      assert tail[1..] == parts[1..];
      forall k | 0 <= k < |tail| ensures c !in tail[k] {
        if k == 0 { assert forall x :: x in p[1..] ==> x in p; }
      }
      SplitOnJoin(c, tail);
      JoinConsFirst([c], [p[0]], tail);
      assert [p[0]] + tail[0] == p;
      assert Join([c], parts) == [p[0]] + Join([c], tail);
      var t := Join([c], parts);
      assert t[1..] == Join([c], tail);
      assert t[..1] != [c];
    }
  }

  /** A blank join has only blank pieces (the separator may be anything). */
  lemma {:induction false} BlankJoinHasBlankParts(sep: string, parts: seq<string>)
    requires IsBlank(Join(sep, parts))
    ensures forall k :: 0 <= k < |parts| ==> IsBlank(parts[k])
  {
    if |parts| > 1 {
      var j := Join(sep, parts);
      assert j == parts[0] + sep + Join(sep, parts[1..]);
      assert IsBlank(parts[0]) by {
        forall m | 0 <= m < |parts[0]| ensures IsSpace(parts[0][m]) { assert parts[0][m] == j[m]; }
      }
      assert IsBlank(Join(sep, parts[1..])) by {
        var r := Join(sep, parts[1..]);
        forall m | 0 <= m < |r| ensures IsSpace(r[m]) { assert r[m] == j[|parts[0]| + |sep| + m]; }
      }
      BlankJoinHasBlankParts(sep, parts[1..]);
      assert forall k :: 1 <= k < |parts| ==> parts[k] == parts[1..][k - 1];
    }
  }

  // ------------------------------------------------------ split() into words

  function LeadingNonSpaces(s: string): (n: nat)
    ensures n <= |s|
    ensures forall k :: 0 <= k < n ==> !IsSpace(s[k])
    ensures n < |s| ==> IsSpace(s[n])
  {
    if s != [] && !IsSpace(s[0]) then 1 + LeadingNonSpaces(s[1..]) else 0
  }

  /** Python's `t.split()`: the maximal runs of non-whitespace characters. */
  function Words(t: string): (ws: seq<string>)
    ensures forall k :: 0 <= k < |ws| ==> ws[k] != "" && NoSpace(ws[k])
    ensures ws == [] <==> IsBlank(t)
    decreases |t|
  {
    if t == [] then []
    else if IsSpace(t[0]) then
      var ws := Words(t[1..]);
      assert IsBlank(t) <==> IsBlank(t[1..]) by {
        if IsBlank(t[1..]) {
          forall k | 0 <= k < |t| ensures IsSpace(t[k]) { if k > 0 { assert t[k] == t[1..][k - 1]; } }
        }
      }
      ws
    else
      var n := LeadingNonSpaces(t);
      [t[..n]] + Words(t[n..])
  }

  /** `" ".join(t.split())`: whitespace runs collapsed to one space, ends trimmed. */
  function CollapseSpaces(t: string): string {
    Join(" ", Words(t))
  }

  /** Joining one more part appends the separator and that part. */
  lemma {:induction false} JoinSnoc(sep: string, parts: seq<string>, last: string)
    requires |parts| >= 1
    ensures Join(sep, parts + [last]) == Join(sep, parts) + sep + last
    decreases |parts|
  {
    var all := parts + [last];
    assert all[1..] == parts[1..] + [last];
    if |parts| > 1 {
      JoinSnoc(sep, parts[1..], last);
    }
  }

  lemma JoinFirstChar(sep: string, parts: seq<string>)
    requires |parts| >= 1 && parts[0] != ""
    ensures |Join(sep, parts)| > 0 && Join(sep, parts)[0] == parts[0][0]
  {
  }

  lemma {:induction false} JoinLastChar(sep: string, parts: seq<string>)
    requires |parts| >= 1 && parts[|parts| - 1] != ""
    ensures |Join(sep, parts)| > 0
    ensures Join(sep, parts)[|Join(sep, parts)| - 1] == parts[|parts| - 1][|parts[|parts| - 1]| - 1]
  {
    if |parts| > 1 {
      JoinLastChar(sep, parts[1..]);
    }
  }

  /** The collapsed text has no whitespace other than single spaces between two
      non-whitespace characters: no leading, trailing or repeated whitespace. */
  lemma {:induction false} JoinedWordsSpacing(ws: seq<string>)
    requires forall k :: 0 <= k < |ws| ==> ws[k] != "" && NoSpace(ws[k])
    ensures var r := Join(" ", ws);
      forall k :: 0 <= k < |r| && IsSpace(r[k]) ==>
        r[k] == ' ' && 0 < k < |r| - 1 && !IsSpace(r[k - 1]) && !IsSpace(r[k + 1])
  {
    if |ws| > 1 {
      var w := ws[0];
      var rest := Join(" ", ws[1..]);
      JoinedWordsSpacing(ws[1..]);
      JoinFirstChar(" ", ws[1..]);
      var r := Join(" ", ws);
      assert r == w + " " + rest;
      forall k | 0 <= k < |r| && IsSpace(r[k])
        ensures r[k] == ' ' && 0 < k < |r| - 1 && !IsSpace(r[k - 1]) && !IsSpace(r[k + 1])
      {
        if k == |w| {
          assert r[k - 1] == w[|w| - 1];
          assert r[k + 1] == rest[0];
        } else if k > |w| {
          assert r[k] == rest[k - |w| - 1];
          if k - |w| - 1 > 0 {
            assert r[k - 1] == rest[k - |w| - 2];
          }
          assert r[k + 1] == rest[k - |w|];
        }
      }
    }
  }

  lemma WordsOfWordThenRest(w: string, s: string)
    requires w != "" && NoSpace(w)
    requires s == [] || IsSpace(s[0])
    ensures Words(w + s) == [w] + Words(s)
  {
    var t := w + s;
    assert LeadingNonSpaces(t) == |w| by {
      LeadingNonSpacesPrefix(w, s);
    }
    assert t[..|w|] == w && t[|w|..] == s;
  }

  lemma {:induction false} LeadingNonSpacesPrefix(w: string, s: string)
    requires NoSpace(w)
    requires s == [] || IsSpace(s[0])
    ensures LeadingNonSpaces(w + s) == |w|
    decreases |w|
  {
    if w != [] {
      LeadingNonSpacesPrefix(w[1..], s);
      assert (w + s)[1..] == w[1..] + s;
    }
  }

  /** Collapsing keeps the words: `CollapseSpaces(t).split() == t.split()`. */
  lemma {:induction false} WordsOfJoinedWords(ws: seq<string>)
    requires forall k :: 0 <= k < |ws| ==> ws[k] != "" && NoSpace(ws[k])
    ensures Words(Join(" ", ws)) == ws
  {
    if |ws| == 1 {
      WordsOfWordThenRest(ws[0], "");
      assert ws[0] + "" == ws[0];
    } else if |ws| > 1 {
      var rest := Join(" ", ws[1..]);
      WordsOfJoinedWords(ws[1..]);
      WordsOfWordThenRest(ws[0], " " + rest);
      assert Join(" ", ws) == ws[0] + (" " + rest);
      assert (" " + rest)[1..] == rest;
      assert ws == [ws[0]] + ws[1..];
    }
  }

  /** `split()` skips leading whitespace. */
  lemma WordsSkipSpace(t: string)
    requires t != [] && IsSpace(t[0])
    ensures Words(t) == Words(t[1..])
  {
  }

  /** Whitespace at the seam keeps the words of the two halves apart:
      `(a + b).split() == a.split() + b.split()`. */
  lemma {:induction false} WordsConcat(a: string, b: string)
    requires a == [] || b == [] || IsSpace(a[|a| - 1]) || IsSpace(b[0])
    ensures Words(a + b) == Words(a) + Words(b)
    decreases |a|
  {
    if a == [] {
      assert a + b == b;
    } else if IsSpace(a[0]) {
      WordsConcat(a[1..], b);
      WordsConcatSpace(a, b);
    } else if LeadingNonSpaces(a) < |a| {
      WordsConcat(a[LeadingNonSpaces(a)..], b);
      WordsConcatWord(a, b);
    } else {
      WordsConcatWhole(a, b);
    }
  }

  lemma WordsConcatSpace(a: string, b: string)
    requires a != [] && IsSpace(a[0])
    requires Words(a[1..] + b) == Words(a[1..]) + Words(b)
    ensures Words(a + b) == Words(a) + Words(b)
  {
    TailOfConcat(a, b);
    WordsSkipSpace(a);
    WordsSkipSpace(a + b);
  }

  lemma WordsConcatWord(a: string, b: string)
    requires a != [] && !IsSpace(a[0]) && LeadingNonSpaces(a) < |a|
    requires Words(a[LeadingNonSpaces(a)..] + b) == Words(a[LeadingNonSpaces(a)..]) + Words(b)
    ensures Words(a + b) == Words(a) + Words(b)
  {
    var n := LeadingNonSpaces(a);
    var w, rest := a[..n], a[n..];
    SplitAt(a, b, n);
    assert NoSpace(w);
    WordsOfWordThenRest(w, rest);
    WordsOfWordThenRest(w, rest + b);
    SeqAssoc([w], Words(rest), Words(b));
  }

  lemma SeqAssoc<T>(x: seq<T>, y: seq<T>, z: seq<T>)
    ensures x + (y + z) == (x + y) + z
  {
  }

  lemma ConcatEmpty<T>(a: seq<T>)
    ensures a + [] == a
  {
  }

  lemma TailOfConcat<T>(a: seq<T>, b: seq<T>)
    requires a != []
    ensures (a + b)[1..] == a[1..] + b
  {
  }

  lemma SplitAt<T>(a: seq<T>, b: seq<T>, n: nat)
    requires n <= |a|
    ensures a == a[..n] + a[n..] && a + b == a[..n] + (a[n..] + b)
  {
  }

  lemma SplitThree<T>(s: seq<T>, i: nat, j: nat)
    requires i <= j <= |s|
    ensures s == s[..i] + (s[i..j] + s[j..])
  {
  }

  lemma WordsConcatWhole(a: string, b: string)
    requires a != [] && LeadingNonSpaces(a) == |a|
    requires b == [] || IsSpace(b[0])
    ensures Words(a + b) == Words(a) + Words(b)
  {
    assert NoSpace(a);
    WordsOfWordThenRest(a, b);
    WordsOfWordThenRest(a, []);
    ConcatEmpty(a);
  }

  /** `s.strip().split() == s.split()`. */
  lemma WordsStrip(s: string)
    ensures Words(Strip(s)) == Words(s)
  {
    var r := Strip(s);
    if r != "" {
      var lead := LeadingSpaces(s);
      var end := |s| - TrailingSpaces(s);
      assert lead + |r| == end;
      assert IsBlank(s[end..]) by {
        forall k | 0 <= k < |s[end..]| ensures IsSpace(s[end..][k]) {
          assert s[end..][k] == s[end + k];
        }
      }
      SplitThree(s, lead, end);
      WordsBetweenBlanks(s, s[..lead], r, s[end..]);
    }
  }

  /** Whitespace around a non-empty text adds no words. */
  lemma WordsBetweenBlanks(s: string, p: string, r: string, q: string)
    requires s == p + (r + q) && r != "" && IsBlank(p) && IsBlank(q)
    ensures Words(s) == Words(r)
  {
    WordsConcat(r, q);
    WordsConcat(p, r + q);
  }

  /** The words of every part, in order. */
  function AllWords(parts: seq<string>): seq<string> {
    if parts == [] then [] else Words(parts[0]) + AllWords(parts[1..])
  }

  lemma {:induction false} AllWordsConcat(xs: seq<string>, ys: seq<string>)
    ensures AllWords(xs + ys) == AllWords(xs) + AllWords(ys)
    decreases |xs|
  {
    if xs == [] {
      assert xs + ys == ys;
    } else {
      assert (xs + ys)[1..] == xs[1..] + ys;
      AllWordsConcat(xs[1..], ys);
    }
  }

  /** Joining with a whitespace separator neither adds nor merges words:
      the words of the join are those of the parts. */
  lemma {:induction false} WordsOfJoin(sep: string, parts: seq<string>)
    requires sep != "" && IsBlank(sep)
    ensures Words(Join(sep, parts)) == AllWords(parts)
  {
    if |parts| == 1 {
      assert parts[1..] == [];
    } else if |parts| > 1 {
      var rest := Join(sep, parts[1..]);
      WordsOfJoin(sep, parts[1..]);
      assert Join(sep, parts) == (parts[0] + sep) + rest;
      WordsConcat(parts[0] + sep, rest);
      WordsConcat(parts[0], sep);
    }
  }

  /** Splitting on a whitespace separator keeps the words. */
  lemma WordsOfSplitOn(t: string, sep: string)
    requires sep != "" && IsBlank(sep)
    ensures AllWords(SplitOn(t, sep)) == Words(t)
  {
    JoinSplitOn(t, sep);
    WordsOfJoin(sep, SplitOn(t, sep));
  }

  // -------------------------------------------------------------- splitlines

  /** Python's `t.splitlines()`: lines without their terminators; "\r\n" is one
      terminator and a final terminator does not start an empty last line. */
  function SplitLines(t: string): (lines: seq<string>)
    ensures forall k, j :: 0 <= k < |lines| && 0 <= j < |lines[k]| ==> !IsLineBreak(lines[k][j])
    decreases |t|
  {
    if t == [] then []
    else if IsLineBreak(t[0]) then
      var skip := if t[0] == '\r' && |t| > 1 && t[1] == '\n' then 2 else 1;
      [""] + SplitLines(t[skip..])
    else
      var rest := SplitLines(t[1..]);
      if rest == [] then [[t[0]]] else [[t[0]] + rest[0]] + rest[1..]
  }

  /** The first line of `splitlines()` starts the text and ends at its end
      or at a line break. */
  lemma {:induction false} SplitLinesFirst(t: string)
    ensures SplitLines(t) == [] <==> t == []
    ensures SplitLines(t) != [] ==>
      var l := SplitLines(t)[0];
      |l| <= |t| && t[..|l|] == l && (|l| == |t| || IsLineBreak(t[|l|]))
    decreases |t|
  {
    if t != [] && !IsLineBreak(t[0]) {
      SplitLinesFirst(t[1..]);
      var rest := SplitLines(t[1..]);
      if rest != [] {
        var l := [t[0]] + rest[0];
        assert t[..|l|] == [t[0]] + t[1..][..|rest[0]|];
        if |l| < |t| {
          assert t[|l|] == t[1..][|rest[0]|];
        }
      }
    }
  }

  /** Every line break is whitespace, so `splitlines()` keeps the words. */
  lemma {:induction false} WordsOfSplitLines(t: string)
    ensures AllWords(SplitLines(t)) == Words(t)
    decreases |t|
  {
    if t == [] {
    } else if IsLineBreak(t[0]) {
      var skip := if t[0] == '\r' && |t| > 1 && t[1] == '\n' then 2 else 1;
      WordsOfSplitLines(t[skip..]);
      WordsOfSplitLinesBreak(t);
    } else {
      WordsOfSplitLines(t[1..]);
      SplitLinesFirst(t[1..]);
      if SplitLines(t[1..]) == [] {
        assert t == [t[0]];
      } else {
        WordsOfSplitLinesText(t);
      }
    }
  }

  /** A line break ends a line and adds no word. */
  lemma WordsOfSplitLinesBreak(t: string)
    requires t != [] && IsLineBreak(t[0])
    requires var skip := if t[0] == '\r' && |t| > 1 && t[1] == '\n' then 2 else 1;
      AllWords(SplitLines(t[skip..])) == Words(t[skip..])
    ensures AllWords(SplitLines(t)) == Words(t)
  {
    var skip := if t[0] == '\r' && |t| > 1 && t[1] == '\n' then 2 else 1;
    WordsSkipSpace(t);
    if skip == 2 {
      assert t[1..][1..] == t[2..];
      WordsSkipSpace(t[1..]);
    }
    assert SplitLines(t) == [""] + SplitLines(t[skip..]);
    assert ([""] + SplitLines(t[skip..]))[1..] == SplitLines(t[skip..]);
  }

  /** A character that is not a line break starts the first line. */
  lemma WordsOfSplitLinesText(t: string)
    requires t != [] && !IsLineBreak(t[0]) && SplitLines(t[1..]) != []
    requires AllWords(SplitLines(t[1..])) == Words(t[1..])
    ensures AllWords(SplitLines(t)) == Words(t)
  {
    var rest := SplitLines(t[1..]);
    SplitLinesFirst(t[1..]);
    var l := rest[0];
    var u := t[1..][|l|..];
    SplitAt(t[1..], [], |l|);
    ConsConcat(t, l, u);
    AllWordsCons(rest);
    WordsLineThen(t[0], l, u, rest[1..]);
    SplitLinesCons(t);
    AllWordsCons(SplitLines(t));
  }

  /** The words of a first line `[c] + l` followed by the rest `u` of the text. */
  lemma WordsLineThen(c: char, l: string, u: string, tail: seq<string>)
    requires u == [] || IsSpace(u[0])
    requires Words(l + u) == Words(l) + AllWords(tail)
    ensures Words([c] + l + u) == Words([c] + l) + AllWords(tail)
  {
    WordsConcat(l, u);
    SeqCancel(Words(l), Words(u), AllWords(tail));
    WordsConcat([c] + l, u);
  }

  lemma ConsConcat<T>(t: seq<T>, l: seq<T>, u: seq<T>)
    requires t != [] && t[1..] == l + u
    ensures t == [t[0]] + l + u
  {
    assert t == [t[0]] + t[1..];
  }

  lemma SplitLinesCons(t: string)
    requires t != [] && !IsLineBreak(t[0]) && SplitLines(t[1..]) != []
    ensures var rest := SplitLines(t[1..]);
      |SplitLines(t)| == |rest| && SplitLines(t)[0] == [t[0]] + rest[0] && SplitLines(t)[1..] == rest[1..]
  {
  }

  lemma AllWordsCons(parts: seq<string>)
    requires parts != []
    ensures AllWords(parts) == Words(parts[0]) + AllWords(parts[1..])
  {
  }

  lemma SeqCancel<T>(x: seq<T>, y: seq<T>, z: seq<T>)
    requires x + y == x + z
    ensures y == z
  {
    assert y == (x + y)[|x|..];
    assert z == (x + z)[|x|..];
  }

  // ---------------------------------------------------------------- basename

  /** How many characters of `p` lie up to and including its last '/'. */
  function DirLength(p: string): (n: nat)
    ensures n <= |p|
    ensures n > 0 ==> p[n - 1] == '/'
    ensures forall k :: n <= k < |p| ==> p[k] != '/'
  {
    if p == [] then 0
    else if p[|p| - 1] == '/' then |p|
    else DirLength(p[..|p| - 1])
  }

  /** `os.path.basename(p)` on POSIX: what follows the last '/'. */
  function Basename(p: string): string {
    p[DirLength(p)..]
  }

  /** The basename holds no '/', ends the path, and is the whole path or
      follows a '/'. */
  lemma BasenameIsLastPart(p: string)
    ensures var r := Basename(p);
      && '/' !in r
      && |r| <= |p| && p[|p| - |r|..] == r
      && (|r| == |p| || p[|p| - |r| - 1] == '/')
  {
    var n := DirLength(p);
    var r := Basename(p);
    assert forall k :: 0 <= k < |r| ==> r[k] == p[n + k];
  }

  // --------------------------------------------------- integers as decimals

  function DigitChar(d: nat): char
    requires d < 10
  {
    "0123456789"[d]
  }

  /** `str(n)` for a non-negative integer. */
  function NatToString(n: nat): (s: string)
    ensures |s| >= 1
    ensures forall k :: 0 <= k < |s| ==> '0' <= s[k] <= '9'
  {
    if n < 10 then [DigitChar(n)] else NatToString(n / 10) + [DigitChar(n % 10)]
  }

  /** `str(i)` for any integer. */
  function IntToString(i: int): string {
    if i < 0 then "-" + NatToString(-i) else NatToString(i)
  }

  /** The value of a string of decimal digits. */
  function DecimalValue(s: string): nat
    requires forall k :: 0 <= k < |s| ==> '0' <= s[k] <= '9'
  {
    if s == [] then 0 else 10 * DecimalValue(s[..|s| - 1]) + (s[|s| - 1] as int - '0' as int)
  }

  /** Reading the rendered digits back gives the number. */
  lemma {:induction false} DecimalValueOfNatToString(n: nat)
    ensures DecimalValue(NatToString(n)) == n
  {
    var s := NatToString(n);
    if n >= 10 {
      DecimalValueOfNatToString(n / 10);
      assert s[..|s| - 1] == NatToString(n / 10);
    }
  }

  /** Distinct numbers render as distinct strings. */
  lemma NatToStringInjective(a: nat, b: nat)
    requires a != b
    ensures NatToString(a) != NatToString(b)
  {
    DecimalValueOfNatToString(a);
    DecimalValueOfNatToString(b);
  }
}
