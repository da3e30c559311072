/** The overlap between neighbouring chunks of `_merge_splits`: the chunk
    after the one closed at a fragment begins with the fragments the overlap
    loop kept, unless those are blank. */
module OverlapProps {
  import opened PyText
  import opened ChunkerSpec
  import opened MergeProps

  /** Every fragment in `splits[a..b]` is blank. */
  predicate AllBlank(splits: seq<string>, a: nat, b: nat) {
    b <= |splits| && forall j :: a <= j < b ==> IsBlank(splits[j])
  }

  /** Where the chunk after the one closed at fragment `i` may start, given
      that the overlap kept from it starts at `start`: at `start`, or later
      only past blank fragments and only once the whole overlap and
      `splits[i]` were blank. */
  predicate OverlapStart(splits: seq<string>, start: nat, i: nat, lo: nat) {
    && start <= lo
    && AllBlank(splits, start, lo)
    && (lo != start ==> AllBlank(splits, start, i + 1))
  }

  /** Run `k` has been emitted; while it is the last, the window starts where
      the next run may start, and once run `k + 1` exists, it does. */
  predicate OverlapCarried(splits: seq<string>, k: nat, start: nat, i: nat, st: MergeState) {
    && k < |st.runs|
    && (|st.runs| == k + 1 ==> st.cur != [] && OverlapStart(splits, start, i, st.lo))
    && (|st.runs| > k + 1 ==> OverlapStart(splits, start, i, st.runs[k + 1].lo))
  }

  /** `a` is a prefix of `b`. */
  predicate RunsPrefix(a: seq<Run>, b: seq<Run>) {
    |a| <= |b| && forall j :: 0 <= j < |a| ==> b[j] == a[j]
  }

  lemma RunsPrefixTrans(a: seq<Run>, b: seq<Run>, c: seq<Run>)
    requires RunsPrefix(a, b) && RunsPrefix(b, c)
    ensures RunsPrefix(a, c)
  {
  }

  /** The loop only ever adds runs. */
  lemma StepKeepsRuns(cfg: Config, sep: string, splits: seq<string>, n: nat, st: MergeState)
    requires n < |splits|
    ensures RunsPrefix(st.runs, Step(cfg, sep, splits, n, st).runs)
  {
  }

  lemma {:induction false} StateAtKeepsRuns(cfg: Config, sep: string, splits: seq<string>, m: nat, n: nat)
    requires m <= n <= |splits|
    ensures RunsPrefix(StateAt(cfg, sep, splits, m).runs, StateAt(cfg, sep, splits, n).runs)
    decreases n - m
  {
    if m < n {
      var prev := StateAt(cfg, sep, splits, n - 1);
      StateAtKeepsRuns(cfg, sep, splits, m, n - 1);
      StepKeepsRuns(cfg, sep, splits, n - 1, prev);
      RunsPrefixTrans(StateAt(cfg, sep, splits, m).runs, prev.runs, StateAt(cfg, sep, splits, n).runs);
    }
  }

  /** A blank window dropped by `Close` moves the next run's possible start
      only past blank fragments. */
  lemma OverlapDrop(cfg: Config, sep: string, splits: seq<string>, start: nat, i: nat, n: nat, st: MergeState)
    requires i < n && WindowAt(cfg, sep, splits, n, st) && st.cur != []
    requires OverlapStart(splits, start, i, st.lo) && Strip(Join(sep, st.cur)) == ""
    ensures OverlapStart(splits, start, i, Close(cfg, sep, st, n).lo)
  {
    var c := Close(cfg, sep, st, n);
    WindowClose(cfg, sep, splits, n, st);
    BlankWindow(sep, splits, st.lo, n);
    assert AllBlank(splits, start, c.lo);
    if st.lo == start {
      assert AllBlank(splits, start, i + 1);
    }
  }

  lemma OverlapStep(cfg: Config, sep: string, splits: seq<string>, k: nat, start: nat, i: nat, n: nat, st: MergeState)
    requires i < n < |splits| && WindowAt(cfg, sep, splits, n, st)
    requires OverlapCarried(splits, k, start, i, st)
    ensures OverlapCarried(splits, k, start, i, Step(cfg, sep, splits, n, st))
  {
    var d := splits[n];
    var nx := Step(cfg, sep, splits, n, st);
    StepKeepsRuns(cfg, sep, splits, n, st);
    if |st.runs| > k + 1 {
    } else if Overflows(cfg, sep, st, d) && st.cur != [] {
      var c := Close(cfg, sep, st, n);
      if Strip(Join(sep, st.cur)) != "" {
        assert nx.runs == st.runs + [Run(st.lo, n)];
      } else {
        OverlapDrop(cfg, sep, splits, start, i, n, st);
        assert nx.runs == st.runs && nx.lo == c.lo;
      }
    } else {
      assert nx.runs == st.runs && nx.lo == st.lo;
    }
  }

  /** Closing a non-blank window at fragment `i` emits run `k`, and the window
      left behind is the overlap `Pop` kept, followed by `splits[i]`. */
  lemma OverlapCloseStep(cfg: Config, sep: string, splits: seq<string>, i: nat, st: MergeState)
    requires i < |splits| && WindowAt(cfg, sep, splits, i, st)
    requires Overflows(cfg, sep, st, splits[i]) && st.cur != [] && Strip(Join(sep, st.cur)) != ""
    ensures var kept := Pop(cfg, cfg.tokenLen(sep), st.cur, st.total).0;
      var nx := Step(cfg, sep, splits, i, st);
      && st.lo <= i - |kept| && splits[i - |kept|..i] == kept
      && nx.runs == st.runs + [Run(st.lo, i)]
      && OverlapCarried(splits, |st.runs|, i - |kept|, i, nx)
  {
    StepEmits(cfg, sep, splits, i, st);
    OverlapAfterEmit(splits, i, st, Pop(cfg, cfg.tokenLen(sep), st.cur, st.total).0, Step(cfg, sep, splits, i, st));
  }

  /** A fragment that overflows a non-blank window emits the window and
      starts the next one with `Pop`'s suffix. */
  lemma StepEmits(cfg: Config, sep: string, splits: seq<string>, i: nat, st: MergeState)
    requires i < |splits| && Overflows(cfg, sep, st, splits[i]) && st.cur != [] && Strip(Join(sep, st.cur)) != ""
    ensures var nx, kept := Step(cfg, sep, splits, i, st), Pop(cfg, cfg.tokenLen(sep), st.cur, st.total).0;
      && nx.runs == st.runs + [Run(st.lo, i)]
      && nx.lo == st.lo + (|st.cur| - |kept|) && nx.cur != []
  {
    CloseEmits(cfg, sep, st, i);
    StepCloses(cfg, sep, splits, i, st);
  }

  /** The state `nx` right after the window `splits[lo..i]` of `st` is
      emitted, keeping its suffix `kept`. */
  lemma OverlapAfterEmit(splits: seq<string>, i: nat, st: MergeState, kept: seq<string>, nx: MergeState)
    requires i < |splits| && st.lo <= i && st.cur == splits[st.lo..i]
    requires |kept| <= |st.cur| && kept == st.cur[|st.cur| - |kept|..]
    requires nx.runs == st.runs + [Run(st.lo, i)] && nx.lo == st.lo + (|st.cur| - |kept|) && nx.cur != []
    ensures st.lo <= i - |kept| && splits[i - |kept|..i] == kept
    ensures OverlapCarried(splits, |st.runs|, i - |kept|, i, nx)
  {
    SuffixOfSlice(splits, st.lo, i, st.cur, kept, i - |kept|);
  }

  /** `Close` on a non-blank window records its run and keeps `Pop`'s suffix. */
  lemma CloseEmits(cfg: Config, sep: string, st: MergeState, i: nat)
    requires Strip(Join(sep, st.cur)) != ""
    ensures var c, kept := Close(cfg, sep, st, i), Pop(cfg, cfg.tokenLen(sep), st.cur, st.total).0;
      && c.runs == st.runs + [Run(st.lo, i)]
      && c.cur == kept && c.lo == st.lo + (|st.cur| - |kept|)
  {
  }

  /** A fragment that overflows a non-empty window closes it, then joins the new window. */
  lemma StepCloses(cfg: Config, sep: string, splits: seq<string>, i: nat, st: MergeState)
    requires i < |splits| && Overflows(cfg, sep, st, splits[i]) && st.cur != []
    ensures var nx, c := Step(cfg, sep, splits, i, st), Close(cfg, sep, st, i);
      nx.runs == c.runs && nx.lo == c.lo && nx.cur == c.cur + [splits[i]]
  {
  }

  lemma {:induction false} OverlapCarriedAt(cfg: Config, sep: string, splits: seq<string>, k: nat, start: nat, i: nat, n: nat)
    requires i < n <= |splits|
    requires OverlapCarried(splits, k, start, i, StateAt(cfg, sep, splits, i + 1))
    ensures OverlapCarried(splits, k, start, i, StateAt(cfg, sep, splits, n))
    decreases n
  {
    if n > i + 1 {
      OverlapCarriedAt(cfg, sep, splits, k, start, i, n - 1);
      StateAtWindow(cfg, sep, splits, n - 1);
      OverlapStep(cfg, sep, splits, k, start, i, n - 1, StateAt(cfg, sep, splits, n - 1));
    }
  }

  /** The overlap between neighbouring chunks. When the window
      `splits[lo..i]` is emitted as chunk `k` because fragment `i` overflows
      it, `Pop` keeps a suffix `splits[start..i]` of it (at most
      `chunkOverlap` tokens when not empty). The next chunk's run starts at
      `start`, so the next chunk begins with that suffix, unless the kept
      fragments and `splits[i]` are all blank, in which case it starts later
      with only blank fragments skipped. In particular, when the kept suffix
      holds a non-blank fragment, the next chunk starts at `start` and
      reaches past `i`, and its run overlaps run `k` exactly when the suffix
      is not empty. */
  lemma NextChunkOverlap(cfg: Config, splits: seq<string>, sep: string, i: nat)
    requires i < |splits|
    requires var st := StateAt(cfg, sep, splits, i);
      Overflows(cfg, sep, st, splits[i]) && st.cur != [] && Strip(Join(sep, st.cur)) != ""
    ensures var st := StateAt(cfg, sep, splits, i);
      var kept := Pop(cfg, cfg.tokenLen(sep), st.cur, st.total).0;
      var start := i - |kept|;
      var runs := MergeRuns(cfg, splits, sep);
      var k := |st.runs|;
      && k < |runs| == |Merge(cfg, splits, sep)|
      && runs[k] == Run(st.lo, i) && Merge(cfg, splits, sep)[k] == Join(sep, st.cur)
      && st.lo <= start && splits[start..i] == kept
      && (kept == [] || Pop(cfg, cfg.tokenLen(sep), st.cur, st.total).1 <= cfg.chunkOverlap)
      && (k + 1 < |runs| ==>
            && start <= runs[k + 1].lo < runs[k + 1].hi <= |splits|
            && (forall j :: start <= j < runs[k + 1].lo ==> IsBlank(splits[j]))
            && (runs[k + 1].lo != start ==> forall j :: start <= j <= i ==> IsBlank(splits[j])))
      && (k + 1 < |runs| && (exists j :: start <= j < i && !IsBlank(splits[j])) ==>
            runs[k + 1].lo == start < i < runs[k + 1].hi)
  {
    var st := StateAt(cfg, sep, splits, i);
    var kept := Pop(cfg, cfg.tokenLen(sep), st.cur, st.total).0;
    OverlapAfterClose(cfg, splits, sep, i);
    MergeRunsExtendFinal(cfg, splits, sep);
    MergeRunsShape(cfg, splits, sep);
    StateAtWindow(cfg, sep, splits, i);
    OverlapInMerge(sep, splits, i, st.lo, st.cur, i - |kept|, |st.runs|, StateAt(cfg, sep, splits, |splits|),
      MergeRuns(cfg, splits, sep), Merge(cfg, splits, sep));
  }

  /** `OverlapCloseStep` at the loop's own state. */
  lemma OverlapCloseAt(cfg: Config, splits: seq<string>, sep: string, i: nat)
    requires i < |splits|
    requires var st := StateAt(cfg, sep, splits, i);
      Overflows(cfg, sep, st, splits[i]) && st.cur != [] && Strip(Join(sep, st.cur)) != ""
    ensures var st := StateAt(cfg, sep, splits, i);
      var kept := Pop(cfg, cfg.tokenLen(sep), st.cur, st.total).0;
      var nx := StateAt(cfg, sep, splits, i + 1);
      && st.lo <= i - |kept| && splits[i - |kept|..i] == kept
      && nx.runs == st.runs + [Run(st.lo, i)]
      && OverlapCarried(splits, |st.runs|, i - |kept|, i, nx)
  {
    StateAtWindow(cfg, sep, splits, i);
    OverlapCloseStep(cfg, sep, splits, i, StateAt(cfg, sep, splits, i));
    StateAtSucc(cfg, sep, splits, i);
  }

  lemma StateAtSucc(cfg: Config, sep: string, splits: seq<string>, i: nat)
    requires i < |splits|
    ensures StateAt(cfg, sep, splits, i + 1) == Step(cfg, sep, splits, i, StateAt(cfg, sep, splits, i))
  {
  }

  /** From the close at fragment `i` to the end of the loop. */
  lemma OverlapAfterClose(cfg: Config, splits: seq<string>, sep: string, i: nat)
    requires i < |splits|
    requires var st := StateAt(cfg, sep, splits, i);
      Overflows(cfg, sep, st, splits[i]) && st.cur != [] && Strip(Join(sep, st.cur)) != ""
    ensures var st := StateAt(cfg, sep, splits, i);
      var kept := Pop(cfg, cfg.tokenLen(sep), st.cur, st.total).0;
      var fin := StateAt(cfg, sep, splits, |splits|);
      && st.lo <= i - |kept| && splits[i - |kept|..i] == kept
      && OverlapCarried(splits, |st.runs|, i - |kept|, i, fin)
      && |st.runs| < |fin.runs| && fin.runs[|st.runs|] == Run(st.lo, i)
  {
    var st := StateAt(cfg, sep, splits, i);
    var kept := Pop(cfg, cfg.tokenLen(sep), st.cur, st.total).0;
    var nx := StateAt(cfg, sep, splits, i + 1);
    OverlapCloseAt(cfg, splits, sep, i);
    OverlapCarriedAt(cfg, sep, splits, |st.runs|, i - |kept|, i, |splits|);
    StateAtKeepsRuns(cfg, sep, splits, i + 1, |splits|);
    RunsPrefixAt(nx.runs, StateAt(cfg, sep, splits, |splits|).runs, |st.runs|);
  }

  lemma RunsPrefixAt(a: seq<Run>, b: seq<Run>, k: nat)
    requires RunsPrefix(a, b) && k < |a|
    ensures k < |b| && b[k] == a[k]
  {
  }

  /** The chunks and runs `_merge_splits` returns match and advance. */
  lemma MergeRunsShape(cfg: Config, splits: seq<string>, sep: string)
    ensures RunsMatch(sep, splits, Merge(cfg, splits, sep), MergeRuns(cfg, splits, sep), |splits|)
    ensures RunsAdvance(MergeRuns(cfg, splits, sep))
  {
    MergeStructure(cfg, splits, sep);
  }

  /** The overlap, read off the final runs. */
  lemma OverlapInMerge(sep: string, splits: seq<string>, i: nat, lo: nat, cur: seq<string>, start: nat, k: nat,
                       fin: MergeState, runs: seq<Run>, chunks: seq<string>)
    requires lo <= start <= i < |splits| && cur == splits[lo..i]
    requires OverlapCarried(splits, k, start, i, fin) && fin.runs[k] == Run(lo, i)
    requires RunsPrefix(fin.runs, runs) && |runs| <= |fin.runs| + 1
    requires |runs| == |fin.runs| + 1 ==> runs[|fin.runs|].lo == fin.lo
    requires RunsMatch(sep, splits, chunks, runs, |splits|) && RunsAdvance(runs)
    ensures k < |runs| == |chunks| && runs[k] == Run(lo, i) && chunks[k] == Join(sep, cur)
    ensures k + 1 < |runs| ==>
      && start <= runs[k + 1].lo < runs[k + 1].hi <= |splits|
      && (forall j :: start <= j < runs[k + 1].lo ==> IsBlank(splits[j]))
      && (runs[k + 1].lo != start ==> forall j :: start <= j <= i ==> IsBlank(splits[j]))
    ensures k + 1 < |runs| && (exists j :: start <= j < i && !IsBlank(splits[j])) ==>
      runs[k + 1].lo == start < i < runs[k + 1].hi
  {
    NextRunStart(splits, k, start, i, fin, runs);
    ChunkOfRun(sep, splits, chunks, runs, k);
    if k + 1 < |runs| {
      var next := runs[k + 1];
      assert next.lo < next.hi <= |splits|;
      assert runs[k].hi < next.hi;
      OverlapStartMeans(splits, start, i, next.lo, next.hi);
    }
  }

  /** `MergeRuns` is the final state's runs, plus the final window's run when it is emitted. */
  lemma MergeRunsExtendFinal(cfg: Config, splits: seq<string>, sep: string)
    ensures var fin, runs := StateAt(cfg, sep, splits, |splits|), MergeRuns(cfg, splits, sep);
      && RunsPrefix(fin.runs, runs) && |runs| <= |fin.runs| + 1
      && (|runs| == |fin.runs| + 1 ==> runs[|fin.runs|].lo == fin.lo)
  {
  }

  /** How the run after run `k` relates to the state left after it. */
  lemma NextRunStart(splits: seq<string>, k: nat, start: nat, i: nat, fin: MergeState, runs: seq<Run>)
    requires OverlapCarried(splits, k, start, i, fin)
    requires RunsPrefix(fin.runs, runs) && |runs| <= |fin.runs| + 1
    requires |runs| == |fin.runs| + 1 ==> runs[|fin.runs|].lo == fin.lo
    ensures k < |runs| && runs[k] == fin.runs[k]
    ensures k + 1 < |runs| ==> OverlapStart(splits, start, i, runs[k + 1].lo)
  {
  }

  /** Chunk `k` is the join of run `k`. */
  lemma ChunkOfRun(sep: string, splits: seq<string>, chunks: seq<string>, runs: seq<Run>, k: nat)
    requires RunsMatch(sep, splits, chunks, runs, |splits|) && k < |runs|
    ensures chunks[k] == Join(sep, splits[runs[k].lo..runs[k].hi])
  {
  }

  /** `OverlapStart` spelled out, for a next run ending past `i`. */
  lemma OverlapStartMeans(splits: seq<string>, start: nat, i: nat, lo: nat, hi: nat)
    requires OverlapStart(splits, start, i, lo) && i < hi && start <= i < |splits|
    ensures start <= lo
    ensures forall j :: start <= j < lo ==> IsBlank(splits[j])
    ensures lo != start ==> forall j :: start <= j <= i ==> IsBlank(splits[j])
    ensures (exists j :: start <= j < i && !IsBlank(splits[j])) ==> lo == start < i < hi
  {
  }
}
