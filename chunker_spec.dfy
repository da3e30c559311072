/** What `Chunker` computes, as functions: the choice of separator, the
    recursive split, the greedy merge with overlap, and the metadata of each
    chunk. The methods of `Chunking.Chunker` are proved equal to these. */
module ChunkerSpec {
  import opened PyText
  import opened Schema

  /** The chunker's settings. `tokenLen` counts the tokens of a text (the
      tokenizer is a parameter: nothing is assumed about it beyond `nat`). */
  datatype Config = Config(chunkSize: int, chunkOverlap: int, tokenLen: string -> nat)

  /** Paragraph, line, word, character: coarsest first. */
  const DefaultSeparators: seq<string> := ["\n\n", "\n", " ", ""]

  // ----------------------------------------------------- choosing a separator

  /** The scan stops at a separator that is "" or occurs in the text. */
  predicate Qualifies(text: string, sep: string) {
    sep == "" || Contains(text, sep)
  }

  /** `seps.index(sep)`: the first position holding `sep`. */
  function IndexOf(seps: seq<string>, sep: string): (k: nat)
    requires sep in seps
    ensures k < |seps| && seps[k] == sep
    ensures forall j :: 0 <= j < k ==> seps[j] != sep
  {
    if seps[0] == sep then 0 else 1 + IndexOf(seps[1..], sep)
  }

  /** The separator `_recursive_split` settles on: the first one that
      qualifies, or the last one when none does. */
  function ChooseSeparator(text: string, seps: seq<string>): (sep: string)
    requires |seps| > 0
    ensures sep in seps
    ensures (exists j :: 0 <= j < |seps| && Qualifies(text, seps[j])) ==>
      Qualifies(text, sep) && forall j :: 0 <= j < IndexOf(seps, sep) ==> !Qualifies(text, seps[j])
    ensures (forall j :: 0 <= j < |seps| ==> !Qualifies(text, seps[j])) ==> sep == seps[|seps| - 1]
    decreases |seps|
  {
    if Qualifies(text, seps[0]) || |seps| == 1 then seps[0]
    else
      var sep := ChooseSeparator(text, seps[1..]);
      assert sep != seps[0] ==> IndexOf(seps, sep) == 1 + IndexOf(seps[1..], sep);
      assert forall j :: 1 <= j < |seps| ==> seps[j] == seps[1..][j - 1];
      sep
  }

  /** `text.split(sep)` for a non-empty separator, `list(text)` for "". */
  function Fragments(text: string, sep: string): seq<string> {
    if sep != "" then SplitOn(text, sep) else Chars(text)
  }

  // ------------------------------------------------------- the recursive split

  /** `_recursive_split(text, seps)`: split on the chosen separator, refine the
      fragments that are too long with the separators after it, then merge. */
  function Split(cfg: Config, text: string, seps: seq<string>): seq<string>
    requires |seps| > 0
    decreases |seps|, 1, 0
  {
    var sep := ChooseSeparator(text, seps);
    Merge(cfg, Refine(cfg, Fragments(text, sep), seps[IndexOf(seps, sep) + 1..]), sep)
  }

  /** The processing loop: a fragment within `chunkSize` tokens is kept, a
      longer one is split again with the finer separators (kept as it is when
      there are none left). */
  function Refine(cfg: Config, frags: seq<string>, finer: seq<string>): seq<string>
    decreases |finer| + 1, 0, |frags|
  {
    if frags == [] then []
    else
      var f := frags[|frags| - 1];
      Refine(cfg, frags[..|frags| - 1], finer) +
        (if cfg.tokenLen(f) <= cfg.chunkSize || finer == [] then [f] else Split(cfg, f, finer))
  }

  // ------------------------------------------------------------- the merge

  /** A run of consecutive fragments `splits[lo..hi]`, joined into one chunk. */
  datatype Run = Run(lo: nat, hi: nat)

  /** The merge loop's variables (`docs`, `current_doc`, `total_len`) together
      with bookkeeping that the source does not keep: where the current window
      starts (`lo`) and which run of fragments each chunk came from (`runs`). */
  datatype MergeState = MergeState(docs: seq<string>, runs: seq<Run>, cur: seq<string>, lo: nat, total: int)

  /** The overlap loop: drop fragments from the front of the window while the
      running total exceeds `chunkOverlap`, each time subtracting the
      fragment's tokens and one separator's. */
  function Pop(cfg: Config, sepLen: nat, cur: seq<string>, total: int): (r: (seq<string>, int))
    ensures |r.0| <= |cur| && r.0 == cur[|cur| - |r.0|..]
    ensures r.0 == [] || r.1 <= cfg.chunkOverlap
    decreases |cur|
  {
    if total > cfg.chunkOverlap && cur != [] then
      Pop(cfg, sepLen, cur[1..], total - (cfg.tokenLen(cur[0]) + sepLen))
    else (cur, total)
  }

  /** The window is full: emit it (unless it is blank) and keep the overlap. */
  function Close(cfg: Config, sep: string, st: MergeState, i: nat): MergeState {
    var doc := Join(sep, st.cur);
    var w := Pop(cfg, cfg.tokenLen(sep), st.cur, st.total);
    var emit := Strip(doc) != "";
    MergeState(
      if emit then st.docs + [doc] else st.docs,
      if emit then st.runs + [Run(st.lo, i)] else st.runs,
      w.0, st.lo + (|st.cur| - |w.0|), w.1)
  }

  /** Add a fragment to the window, with a separator's tokens unless it is the first. */
  function Append(cfg: Config, sep: string, st: MergeState, d: string): MergeState {
    var cur := st.cur + [d];
    MergeState(st.docs, st.runs, cur, st.lo, st.total + cfg.tokenLen(d) + (if |cur| > 1 then cfg.tokenLen(sep) else 0))
  }

  /** Whether fragment `d` overflows the window. */
  predicate Overflows(cfg: Config, sep: string, st: MergeState, d: string) {
    st.total + cfg.tokenLen(d) + (if st.cur != [] then cfg.tokenLen(sep) else 0) > cfg.chunkSize
  }

  /** One iteration of the merge loop, on fragment `splits[i]`. */
  function Step(cfg: Config, sep: string, splits: seq<string>, i: nat, st: MergeState): MergeState
    requires i < |splits|
  {
    var d := splits[i];
    if Overflows(cfg, sep, st, d) && st.total > cfg.chunkSize && st.cur == [] then
      // "single chunk is too big": emitted alone, the window stays empty
      MergeState(st.docs + [d], st.runs + [Run(i, i + 1)], [], i + 1, st.total)
    else if Overflows(cfg, sep, st, d) && st.cur != [] then
      Append(cfg, sep, Close(cfg, sep, st, i), d)
    else
      Append(cfg, sep, st, d)
  }

  /** The loop state after the first `n` fragments. */
  function StateAt(cfg: Config, sep: string, splits: seq<string>, n: nat): MergeState
    requires n <= |splits|
  {
    if n == 0 then MergeState([], [], [], 0, 0)
    else Step(cfg, sep, splits, n - 1, StateAt(cfg, sep, splits, n - 1))
  }

  /** Whether the final window is emitted after the loop. */
  predicate EmitsLast(st: MergeState, sep: string) {
    st.cur != [] && Strip(Join(sep, st.cur)) != ""
  }

  /** `_merge_splits(splits, sep)`. */
  function Merge(cfg: Config, splits: seq<string>, sep: string): seq<string> {
    var st := StateAt(cfg, sep, splits, |splits|);
    if EmitsLast(st, sep) then st.docs + [Join(sep, st.cur)] else st.docs
  }

  /** The runs the chunks of `Merge` came from, one per chunk. */
  function MergeRuns(cfg: Config, splits: seq<string>, sep: string): seq<Run> {
    var st := StateAt(cfg, sep, splits, |splits|);
    if EmitsLast(st, sep) then st.runs + [Run(st.lo, |splits|)] else st.runs
  }

  /** The token count of `sep.join(parts)` if the tokenizer were additive:
      the parts' tokens plus one separator's between each two. */
  function JoinedTokenCount(tokenLen: string -> nat, sep: string, parts: seq<string>): int {
    if parts == [] then 0
    else
      var last := tokenLen(parts[|parts| - 1]) + (if |parts| > 1 then tokenLen(sep) else 0);
      JoinedTokenCount(tokenLen, sep, parts[..|parts| - 1]) + last
  }

  // --------------------------------------------------- chunk metadata

  const ChunkIdKey: string := "chunk_id"

  /** `f"{file_name}_{page_number}_{i}"`, with "unknown" and 0 as defaults. */
  function ChunkId(parent: Metadata, i: nat): string {
    Render(Get(parent, FileNameKey, Str(UnknownSource))) + "_" + Render(Get(parent, PageNumberKey, Int(0))) + "_" + NatToString(i)
  }

  /** A copy of the parent's metadata with the chunk's index and id added. */
  function ChunkMetadata(parent: Metadata, i: nat): Metadata {
    parent[ChunkIndexKey := Int(i)][ChunkIdKey := Str(ChunkId(parent, i))]
  }

  /** The texts `cs` as chunks of a parent with metadata `parent`, numbered from 0. */
  function Numbered(cs: seq<string>, parent: Metadata): seq<Chunk> {
    seq(|cs|, i requires 0 <= i < |cs| => Chunk(cs[i], WithDefaultSource(ChunkMetadata(parent, i))))
  }

  /** The chunks of one document, in order, numbered from 0. */
  function DocChunks(cfg: Config, content: string, parent: Metadata): seq<Chunk> {
    Numbered(Split(cfg, content, DefaultSeparators), parent)
  }

  /** `split_documents(documents)`: the chunks of each document in turn. */
  function ChunkRecords(cfg: Config, parents: seq<Chunk>): seq<Chunk> {
    if parents == [] then []
    else
      var d := parents[|parents| - 1];
      ChunkRecords(cfg, parents[..|parents| - 1]) + DocChunks(cfg, d.content, d.metadata)
  }
}
