/** What `_recursive_split` and `split_documents` guarantee. */
module SplitProps {
  import opened PyText
  import opened Schema
  import opened ChunkerSpec
  import opened MergeProps

  /** Joining the fragments with the separator they were split on gives the text back. */
  lemma JoinFragments(text: string, sep: string)
    ensures Join(sep, Fragments(text, sep)) == text
  {
    if sep != "" { JoinSplitOn(text, sep); } else { JoinChars(text); }
  }

  /** No part counts more tokens than the whole join. */
  lemma {:induction false} PartWithinJoinedCount(tokenLen: string -> nat, sep: string, parts: seq<string>)
    ensures forall k :: 0 <= k < |parts| ==> tokenLen(parts[k]) <= JoinedTokenCount(tokenLen, sep, parts)
  {
    if parts != [] {
      var n := |parts|;
      PartWithinJoinedCount(tokenLen, sep, parts[..n - 1]);
      assert forall k :: 0 <= k < n - 1 ==> parts[k] == parts[..n - 1][k];
    }
  }

  /** Fragments within `chunkSize` tokens are kept as they are. */
  lemma {:induction false} RefineKeepsFitting(cfg: Config, frags: seq<string>, finer: seq<string>)
    requires forall k :: 0 <= k < |frags| ==> cfg.tokenLen(frags[k]) <= cfg.chunkSize
    ensures Refine(cfg, frags, finer) == frags
  {
    if frags != [] {
      var n := |frags|;
      assert forall k :: 0 <= k < n - 1 ==> frags[..n - 1][k] == frags[k];
      RefineKeepsFitting(cfg, frags[..n - 1], finer);
      assert frags[..n - 1] + [frags[n - 1]] == frags;
    }
  }

  /** With no finer separator left, every fragment is kept as it is, however long. */
  lemma {:induction false} RefineWithoutFiner(cfg: Config, frags: seq<string>)
    ensures Refine(cfg, frags, []) == frags
  {
    if frags != [] {
      var n := |frags|;
      RefineWithoutFiner(cfg, frags[..n - 1]);
      assert frags[..n - 1] + [frags[n - 1]] == frags;
    }
  }

  /** A text whose fragments, with their separators, add up to at most
      `chunkSize` tokens is not split: it is one chunk, itself, unless it is
      blank (then there are none). */
  lemma SmallTextIsOneChunk(cfg: Config, text: string, seps: seq<string>)
    requires |seps| > 0
    requires var sep := ChooseSeparator(text, seps);
      JoinedTokenCount(cfg.tokenLen, sep, Fragments(text, sep)) <= cfg.chunkSize
    ensures Split(cfg, text, seps) == (if IsBlank(text) then [] else [text])
  {
    var sep := ChooseSeparator(text, seps);
    var frags := Fragments(text, sep);
    var finer := seps[IndexOf(seps, sep) + 1..];
    assert Split(cfg, text, seps) == Merge(cfg, Refine(cfg, frags, finer), sep);
    assert Refine(cfg, frags, finer) == frags by {
      PartWithinJoinedCount(cfg.tokenLen, sep, frags);
      RefineKeepsFitting(cfg, frags, finer);
    }
    assert Join(sep, frags) == text by {
      JoinFragments(text, sep);
    }
    MergeFitsInOne(cfg, frags, sep);
  }

  /** Each chunk of a split is the join, with the chosen separator, of a run of
      consecutive refined pieces; the runs advance; every piece left out of all
      runs is blank; and with `chunkSize >= 0` no chunk is blank. */
  lemma SplitStructure(cfg: Config, text: string, seps: seq<string>)
    requires |seps| > 0
    ensures var sep := ChooseSeparator(text, seps);
      var pieces := Refine(cfg, Fragments(text, sep), seps[IndexOf(seps, sep) + 1..]);
      MergeShape(cfg, pieces, sep, Split(cfg, text, seps), MergeRuns(cfg, pieces, sep))
  {
    var sep := ChooseSeparator(text, seps);
    MergeStructure(cfg, Refine(cfg, Fragments(text, sep), seps[IndexOf(seps, sep) + 1..]), sep);
  }

  /** The separator chosen is the first qualifying one: the scan in
      `_recursive_split` stops exactly where `ChooseSeparator` does. */
  lemma FirstQualifyingChosen(text: string, seps: seq<string>, j: nat)
    requires j < |seps| && Qualifies(text, seps[j])
    requires forall m :: 0 <= m < j ==> !Qualifies(text, seps[m])
    ensures ChooseSeparator(text, seps) == seps[j]
  {
    var c := ChooseSeparator(text, seps);
    assert IndexOf(seps, c) <= j;
  }

  /** When no separator qualifies, the scan falls back on the last one. */
  lemma NoneQualifiesChosen(text: string, seps: seq<string>)
    requires |seps| > 0
    requires forall m :: 0 <= m < |seps| ==> !Qualifies(text, seps[m])
    ensures ChooseSeparator(text, seps) == seps[|seps| - 1]
  {
  }

  /** With the default separators, a text containing a paragraph break is
      split on paragraph breaks first. */
  lemma ParagraphsFirst(text: string)
    requires Contains(text, "\n\n")
    ensures ChooseSeparator(text, DefaultSeparators) == "\n\n"
  {
    assert Qualifies(text, DefaultSeparators[0]);
  }

  /** With the default separators, a text without a paragraph break, a line
      break or a space is split into characters. */
  lemma CharactersLast(text: string)
    requires !Contains(text, "\n\n") && !Contains(text, "\n") && !Contains(text, " ")
    ensures ChooseSeparator(text, DefaultSeparators) == ""
  {
    var seps := DefaultSeparators;
    assert Qualifies(text, seps[3]);
    assert IndexOf(seps, "") == 3;
  }

  // ------------------------------------------------------- chunk metadata

  /** Chunk ids of the same parent differ for different indices. */
  lemma ChunkIdsDistinct(parent: Metadata, i: nat, j: nat)
    requires i != j
    ensures ChunkId(parent, i) != ChunkId(parent, j)
  {
    var pre := Render(Get(parent, FileNameKey, Str(UnknownSource))) + "_" + Render(Get(parent, PageNumberKey, Int(0))) + "_";
    assert ChunkId(parent, i) == pre + NatToString(i);
    assert ChunkId(parent, j) == pre + NatToString(j);
    NatToStringInjective(i, j);
    assert (pre + NatToString(i))[|pre|..] == NatToString(i);
    assert (pre + NatToString(j))[|pre|..] == NatToString(j);
  }

  /** Each chunk of a document carries the chunk's text, all of the parent's
      metadata, its index from 0, its id, and a "source" entry. */
  lemma NumberedMetadata(cs: seq<string>, parent: Metadata)
    ensures var out := Numbered(cs, parent);
      && |out| == |cs|
      && forall i :: 0 <= i < |out| ==>
        && out[i].content == cs[i]
        && out[i].metadata[ChunkIndexKey] == Int(i)
        && out[i].metadata[ChunkIdKey] == Str(ChunkId(parent, i))
        && SourceKey in out[i].metadata
        && (forall k :: k in parent && k != ChunkIndexKey && k != ChunkIdKey ==> k in out[i].metadata && out[i].metadata[k] == parent[k])
  {
    var out := Numbered(cs, parent);
    forall i | 0 <= i < |out|
      ensures out[i].content == cs[i]
      ensures out[i].metadata[ChunkIndexKey] == Int(i)
      ensures out[i].metadata[ChunkIdKey] == Str(ChunkId(parent, i))
      ensures SourceKey in out[i].metadata
      ensures forall k :: k in parent && k != ChunkIndexKey && k != ChunkIdKey ==> k in out[i].metadata && out[i].metadata[k] == parent[k]
    {
      var m := ChunkMetadata(parent, i);
      assert out[i] == Chunk(cs[i], WithDefaultSource(m));
      assert m[ChunkIndexKey] == Int(i) && m[ChunkIdKey] == Str(ChunkId(parent, i));
    }
  }

  /** Chunk `i` of a document, as `split_documents` builds it. */
  lemma NumberedAt(cs: seq<string>, parent: Metadata, i: nat)
    ensures |Numbered(cs, parent)| == |cs|
    ensures i < |cs| ==> Numbered(cs, parent)[i] == Chunk(cs[i], WithDefaultSource(ChunkMetadata(parent, i)))
  {
  }

  /** A non-blank document that fits yields exactly one chunk: its own text,
      with chunk index 0. */
  lemma SmallDocumentOneChunk(cfg: Config, content: string, parent: Metadata)
    requires !IsBlank(content)
    requires var sep := ChooseSeparator(content, DefaultSeparators);
      JoinedTokenCount(cfg.tokenLen, sep, Fragments(content, sep)) <= cfg.chunkSize
    ensures DocChunks(cfg, content, parent) == [Chunk(content, WithDefaultSource(ChunkMetadata(parent, 0)))]
  {
    SmallTextIsOneChunk(cfg, content, DefaultSeparators);
  }

  /** Chunks come out grouped by parent, in the parents' order. */
  lemma ChunkRecordsStep(cfg: Config, parents: seq<Chunk>, d: nat)
    requires d < |parents|
    ensures ChunkRecords(cfg, parents[..d + 1]) == ChunkRecords(cfg, parents[..d]) + DocChunks(cfg, parents[d].content, parents[d].metadata)
  {
    assert parents[..d + 1][..d] == parents[..d];
  }
}
