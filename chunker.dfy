/** The chunker: splits documents into overlapping chunks of at most about
    `chunkSize` tokens, trying paragraph, line, word and character boundaries
    in turn. */
module Chunking {
  import opened PyText
  import opened Schema
  import opened ChunkerSpec
  import opened SplitProps

  /** The defaults of `Chunker()`. */
  const DefaultChunkSize: int := 800
  const DefaultChunkOverlap: int := 100

  class Chunker {
    const config: Config
    const separators: seq<string> := DefaultSeparators

    /** `Chunker(chunk_size, chunk_overlap)` with the tokenizer's counting function. */
    constructor (chunkSize: int, chunkOverlap: int, tokenLen: string -> nat)
      ensures config == Config(chunkSize, chunkOverlap, tokenLen)
    {
      config := Config(chunkSize, chunkOverlap, tokenLen);
    }

    /** `Chunker()`, with the default chunk size and overlap. */
    constructor Default(tokenLen: string -> nat)
      ensures config == Config(DefaultChunkSize, DefaultChunkOverlap, tokenLen)
    {
      config := Config(DefaultChunkSize, DefaultChunkOverlap, tokenLen);
    }

    /** `split_documents`: the chunks of every document, each a new document
        carrying a copy of its parent's metadata plus "chunk_index" and
        "chunk_id". The input documents are not changed. */
    method SplitDocuments(documents: seq<Document>) returns (chunked: seq<Document>)
      ensures Snapshot(chunked) == ChunkRecords(config, Snapshot(documents))
      ensures forall k :: 0 <= k < |chunked| ==> fresh(chunked[k])
    {
      ghost var parents := Snapshot(documents);
      chunked := [];
      var d := 0;
      while d < |documents|
        invariant 0 <= d <= |documents|
        invariant Snapshot(chunked) == ChunkRecords(config, parents[..d])
        invariant forall k :: 0 <= k < |chunked| ==> fresh(chunked[k])
      {
        var doc := documents[d];
        ghost var parent := Chunk(doc.content, doc.metadata);
        assert parents[d] == parent;
        var made := ChunkDocument(doc);
        assert Snapshot(chunked + made) == ChunkRecords(config, parents[..d + 1]) by {
          SnapshotConcat(chunked, made);
          ChunkRecordsStep(config, parents, d);
        }
        forall k | 0 <= k < |chunked + made| ensures fresh((chunked + made)[k]) {
          if k < |chunked| {
            assert (chunked + made)[k] == chunked[k];
          } else {
            assert (chunked + made)[k] == made[k - |chunked|];
          }
        }
        chunked := chunked + made;
        d := d + 1;
      }
      assert parents[..|documents|] == parents;
    }

    /** The body of the loop in `split_documents`, for one document. */
    method ChunkDocument(doc: Document) returns (made: seq<Document>)
      ensures Snapshot(made) == DocChunks(config, doc.content, doc.metadata)
      ensures forall k :: 0 <= k < |made| ==> fresh(made[k])
    {
      var chunks := RecursiveSplit(doc.content, separators);
      made := ChunkDocuments(doc, chunks);
    }

    /** The inner loop of `split_documents`: one new document per chunk of
        `doc`, with a copy of its metadata plus the chunk's index and id. */
    method ChunkDocuments(doc: Document, chunks: seq<string>) returns (made: seq<Document>)
      ensures Snapshot(made) == Numbered(chunks, doc.metadata)
      ensures forall k :: 0 <= k < |made| ==> fresh(made[k])
    {
      ghost var expected := Numbered(chunks, doc.metadata);
      NumberedAt(chunks, doc.metadata, 0);
      made := [];
      var i := 0;
      while i < |chunks|
        invariant 0 <= i <= |chunks|
        invariant Snapshot(made) == expected[..i]
        invariant forall k :: 0 <= k < |made| ==> fresh(made[k])
      {
        var newMeta := doc.metadata;
        newMeta := newMeta[ChunkIndexKey := Int(i)];
        newMeta := newMeta[ChunkIdKey := Str(ChunkId(doc.metadata, i))];
        var c := new Document(chunks[i], newMeta);
        SnapshotAppend(made, c);
        made := made + [c];
        NumberedAt(chunks, doc.metadata, i);
        PrefixSnoc(expected, i);
        i := i + 1;
      }
      assert expected[..|chunks|] == expected;
    }

    /** `_recursive_split(text, separators)`. */
    method RecursiveSplit(text: string, separators: seq<string>) returns (chunks: seq<string>)
      requires |separators| > 0
      ensures chunks == Split(config, text, separators)
      decreases |separators|, 1
    {
      // 1. the separator
      var separator := FindSeparator(text, separators);

      // 2. split
      var splits: seq<string>;
      if separator != "" {
        splits := SplitOn(text, separator);
      } else {
        splits := Chars(text);
      }

      assert splits == Fragments(text, separator);

      // 3. split again the fragments that are too long, with the finer separators
      var idx := IndexOf(separators, separator);
      var newSplits := RefineSplits(splits, separators[idx + 1..]);

      // 4. merge
      chunks := MergeSplits(newSplits, separator);
      SplitSteps(config, text, separators);
    }

    /** The processing loop of `_recursive_split`: a fragment within
        `chunkSize` tokens is kept, a longer one is split again with the
        `finer` separators, or kept as it is when there are none. */
    method RefineSplits(splits: seq<string>, finer: seq<string>) returns (newSplits: seq<string>)
      ensures newSplits == Refine(config, splits, finer)
      decreases |finer| + 1, 0
    {
      newSplits := [];
      var k := 0;
      while k < |splits|
        invariant 0 <= k <= |splits|
        invariant newSplits == Refine(config, splits[..k], finer)
      {
        var s := splits[k];
        assert splits[..k + 1][..k] == splits[..k];
        if config.tokenLen(s) <= config.chunkSize {
          newSplits := newSplits + [s];
        } else if finer != [] {
          var sub := RecursiveSplit(s, finer);
          newSplits := newSplits + sub;
        } else {
          newSplits := newSplits + [s];
        }
        k := k + 1;
      }
      assert splits[..|splits|] == splits;
    }

    /** The first separator that is "" or occurs in the text; the last one
        when none does. */
    method FindSeparator(text: string, separators: seq<string>) returns (separator: string)
      requires |separators| > 0
      ensures separator == ChooseSeparator(text, separators)
    {
      separator := separators[|separators| - 1];
      var j := 0;
      while j < |separators|
        invariant 0 <= j <= |separators|
        invariant forall m :: 0 <= m < j ==> !Qualifies(text, separators[m])
        invariant separator == separators[|separators| - 1]
      {
        var sep := separators[j];
        if sep == "" {
          separator := "";
          FirstQualifyingChosen(text, separators, j);
          return;
        }
        if Contains(text, sep) {
          separator := sep;
          FirstQualifyingChosen(text, separators, j);
          return;
        }
        j := j + 1;
      }
      NoneQualifiesChosen(text, separators);
    }

    /** The overlap loop of `_merge_splits`: drop fragments from the front of
        the window while its running total exceeds `chunkOverlap`. */
    method KeepOverlap(cur: seq<string>, total: int, separatorLen: nat) returns (rest: seq<string>, restTotal: int)
      ensures (rest, restTotal) == Pop(config, separatorLen, cur, total)
    {
      rest, restTotal := cur, total;
      while restTotal > config.chunkOverlap && rest != []
        invariant Pop(config, separatorLen, rest, restTotal) == Pop(config, separatorLen, cur, total)
        decreases |rest|
      {
        var removed := rest[0];
        PopStep(config, separatorLen, rest, restTotal);
        rest := rest[1..];
        restTotal := restTotal - (config.tokenLen(removed) + separatorLen);
      }
    }

    /** `_merge_splits(splits, separator)`. */
    method MergeSplits(splits: seq<string>, separator: string) returns (docs: seq<string>)
      ensures docs == Merge(config, splits, separator)
    {
      docs := [];
      var currentDoc: seq<string> := [];
      var totalLen: int := 0;
      var separatorLen := config.tokenLen(separator);
      ghost var st := StateAt(config, separator, splits, 0);
      var i := 0;
      while i < |splits|
        invariant 0 <= i <= |splits|
        invariant st == StateAt(config, separator, splits, i)
        invariant docs == st.docs && currentDoc == st.cur && totalLen == st.total
      {
        docs, currentDoc, totalLen := MergeOne(splits, i, separator, separatorLen, st, docs, currentDoc, totalLen);
        st := Step(config, separator, splits, i, st);
        i := i + 1;
      }
      if currentDoc != [] {
        var doc := Join(separator, currentDoc);
        if Strip(doc) != "" {
          docs := docs + [doc];
        }
      }
    }

    /** One turn of the loop of `_merge_splits`, on fragment `splits[i]`:
        `docs`, `currentDoc` and `totalLen` move from loop state `st` to the
        next one. */
    method MergeOne(splits: seq<string>, i: nat, separator: string, separatorLen: nat, ghost st: MergeState,
                    docs: seq<string>, currentDoc: seq<string>, totalLen: int)
      returns (docs': seq<string>, currentDoc': seq<string>, totalLen': int)
      requires i < |splits| && separatorLen == config.tokenLen(separator)
      requires docs == st.docs && currentDoc == st.cur && totalLen == st.total
      ensures var nx := Step(config, separator, splits, i, st);
        docs' == nx.docs && currentDoc' == nx.cur && totalLen' == nx.total
    {
      docs', currentDoc', totalLen' := docs, currentDoc, totalLen;
      var d := splits[i];
      var len := config.tokenLen(d);
      ghost var base := st;
      if totalLen' + len + (if currentDoc' != [] then separatorLen else 0) > config.chunkSize {
        assert Overflows(config, separator, st, d);
        if totalLen' > config.chunkSize {
          if currentDoc' == [] {
            // a single fragment too big for a chunk is emitted anyway
            docs' := docs' + [d];
            return;
          }
        }
        if currentDoc' != [] {
          ghost var closed := Close(config, separator, st, i);
          var doc := Join(separator, currentDoc');
          if Strip(doc) != "" {
            docs' := docs' + [doc];
          }
          currentDoc', totalLen' := KeepOverlap(currentDoc', totalLen', separatorLen);
          assert docs' == closed.docs && currentDoc' == closed.cur && totalLen' == closed.total;
          base := closed;
        }
      } else {
        assert !Overflows(config, separator, st, d);
      }
      assert Step(config, separator, splits, i, st) == Append(config, separator, base, d);
      currentDoc' := currentDoc' + [d];
      totalLen' := totalLen' + len + (if |currentDoc'| > 1 then separatorLen else 0);
    }
  }

  /** `Split`, step by step. */
  lemma SplitSteps(cfg: Config, text: string, seps: seq<string>)
    requires |seps| > 0
    ensures var sep := ChooseSeparator(text, seps);
      Split(cfg, text, seps) == Merge(cfg, Refine(cfg, Fragments(text, sep), seps[IndexOf(seps, sep) + 1..]), sep)
  {
  }

  /** One turn of the overlap loop. */
  lemma PopStep(cfg: Config, sepLen: nat, cur: seq<string>, total: int)
    requires total > cfg.chunkOverlap && cur != []
    ensures Pop(cfg, sepLen, cur, total) == Pop(cfg, sepLen, cur[1..], total - (cfg.tokenLen(cur[0]) + sepLen))
  {
  }

  lemma PrefixSnoc<T>(s: seq<T>, i: nat)
    requires i < |s|
    ensures s[..i + 1] == s[..i] + [s[i]]
  {
  }
}
