/** What `_merge_splits` guarantees: every chunk is the join of a run of
    consecutive fragments, the runs move forward, no non-blank fragment is
    lost, chunks are never blank when `chunkSize >= 0`, and fragments that fit
    together come out as a single chunk. */
module MergeProps {
  import opened PyText
  import opened ChunkerSpec

  // ------------------------------------------------- token count arithmetic

  lemma {:induction false} JoinedTokenCountFront(tokenLen: string -> nat, sep: string, parts: seq<string>)
    requires |parts| >= 2
    ensures JoinedTokenCount(tokenLen, sep, parts)
      == tokenLen(parts[0]) + tokenLen(sep) + JoinedTokenCount(tokenLen, sep, parts[1..])
    decreases |parts|
  {
    var n := |parts|;
    assert parts[1..][..n - 2] == parts[..n - 1][1..];
    if n > 2 {
      JoinedTokenCountFront(tokenLen, sep, parts[..n - 1]);
    }
  }

  lemma JoinedTokenCountSnoc(tokenLen: string -> nat, sep: string, parts: seq<string>, d: string)
    ensures JoinedTokenCount(tokenLen, sep, parts + [d])
      == JoinedTokenCount(tokenLen, sep, parts) + tokenLen(d) + (if parts != [] then tokenLen(sep) else 0)
  {
    assert (parts + [d])[..|parts|] == parts;
  }

  /** Adding fragments never lowers the count. */
  lemma {:induction false} JoinedTokenCountPrefix(tokenLen: string -> nat, sep: string, parts: seq<string>, j: nat)
    requires j <= |parts|
    ensures JoinedTokenCount(tokenLen, sep, parts[..j]) <= JoinedTokenCount(tokenLen, sep, parts)
    decreases |parts| - j
  {
    if j < |parts| {
      var n := |parts|;
      JoinedTokenCountPrefix(tokenLen, sep, parts[..n - 1], j);
      assert parts[..n - 1][..j] == parts[..j];
      assert parts[..n] == parts;
    } else {
      assert parts[..j] == parts;
    }
  }

  // ------------------------------------------------------- the invariant

  /** Fragment `j` lies in one of the runs. */
  predicate Covered(runs: seq<Run>, j: nat)
    decreases |runs|
  {
    && runs != []
    && (|| runs[|runs| - 1].lo <= j < runs[|runs| - 1].hi
        || Covered(runs[..|runs| - 1], j))
  }

  lemma CoveredExtend(runs: seq<Run>, r: Run, j: nat)
    requires Covered(runs, j)
    ensures Covered(runs + [r], j)
  {
    assert (runs + [r])[..|runs|] == runs;
  }

  lemma CoveredByLast(runs: seq<Run>, r: Run, j: nat)
    requires r.lo <= j < r.hi
    ensures Covered(runs + [r], j)
  {
  }

  /** Each chunk is the join of its run, and every run lies in `splits[..bound]`. */
  predicate RunsMatch(sep: string, splits: seq<string>, docs: seq<string>, runs: seq<Run>, bound: nat) {
    && bound <= |splits|
    && |runs| == |docs|
    && (forall k :: 0 <= k < |runs| ==>
          runs[k].lo < runs[k].hi <= bound && docs[k] == Join(sep, splits[runs[k].lo..runs[k].hi]))
  }

  /** Runs start no earlier and end strictly later than the one before. */
  predicate RunsAdvance(runs: seq<Run>) {
    forall k :: 0 <= k < |runs| - 1 ==> runs[k].lo <= runs[k + 1].lo && runs[k].hi < runs[k + 1].hi
  }

  /** The running total never exceeds what the window would count if the
      tokenizer were additive. */
  predicate TotalBound(cfg: Config, sep: string, cur: seq<string>, total: int) {
    && (cur == [] ==> total <= 0)
    && (cur != [] ==> total <= JoinedTokenCount(cfg.tokenLen, sep, cur))
  }

  /** At fragment `i` the window is `splits[lo..i]`, with its total bounded. */
  predicate WindowAt(cfg: Config, sep: string, splits: seq<string>, i: nat, st: MergeState) {
    && st.lo <= i <= |splits|
    && st.cur == splits[st.lo..i]
    && TotalBound(cfg, sep, st.cur, st.total)
  }

  /** The chunks so far match their runs, which advance and end by `bound`;
      the last starts no later than the window. */
  predicate RunsUpTo(sep: string, splits: seq<string>, bound: nat, st: MergeState) {
    && RunsMatch(sep, splits, st.docs, st.runs, bound)
    && RunsAdvance(st.runs)
    && (|st.runs| > 0 ==> st.runs[|st.runs| - 1].lo <= st.lo)
  }

  /** Between iterations, in addition, a non-empty window has grown past the
      end of the last run. */
  predicate RunsAt(sep: string, splits: seq<string>, i: nat, st: MergeState) {
    && RunsUpTo(sep, splits, i, st)
    && (|st.runs| > 0 && st.cur != [] ==> st.runs[|st.runs| - 1].hi < i)
  }

  /** Every fragment before the window is in some run or is blank. */
  predicate CoveredBelow(splits: seq<string>, st: MergeState) {
    && st.lo <= |splits|
    && forall j :: 0 <= j < st.lo ==> Covered(st.runs, j) || IsBlank(splits[j])
  }

  /** With a non-negative `chunkSize`, no chunk is blank. */
  predicate DocsNonBlank(cfg: Config, docs: seq<string>) {
    cfg.chunkSize >= 0 ==> forall k :: 0 <= k < |docs| ==> Strip(docs[k]) != ""
  }

  /** Adding a run keeps chunks and runs matched. */
  lemma RunsMatchExtend(sep: string, splits: seq<string>, docs: seq<string>, runs: seq<Run>, bound: nat, r: Run, doc: string, bound2: nat)
    requires RunsMatch(sep, splits, docs, runs, bound)
    requires bound <= bound2 <= |splits| && r.lo < r.hi <= bound2 && doc == Join(sep, splits[r.lo..r.hi])
    ensures RunsMatch(sep, splits, docs + [doc], runs + [r], bound2)
  {
    var docs2, runs2 := docs + [doc], runs + [r];
    forall k | 0 <= k < |runs2|
      ensures runs2[k].lo < runs2[k].hi <= bound2 && docs2[k] == Join(sep, splits[runs2[k].lo..runs2[k].hi])
    {
      if k < |runs| { assert runs2[k] == runs[k] && docs2[k] == docs[k]; }
    }
  }

  /** A later bound keeps chunks and runs matched. */
  lemma RunsMatchWiden(sep: string, splits: seq<string>, docs: seq<string>, runs: seq<Run>, bound: nat, bound2: nat)
    requires RunsMatch(sep, splits, docs, runs, bound)
    requires bound <= bound2 <= |splits|
    ensures RunsMatch(sep, splits, docs, runs, bound2)
  {
  }

  /** A run that starts no earlier and ends later than the last keeps the runs advancing. */
  lemma RunsAdvanceExtend(runs: seq<Run>, r: Run)
    requires RunsAdvance(runs)
    requires |runs| > 0 ==> runs[|runs| - 1].lo <= r.lo && runs[|runs| - 1].hi < r.hi
    ensures RunsAdvance(runs + [r])
  {
    var runs2 := runs + [r];
    forall k | 0 <= k < |runs2| - 1 ensures runs2[k].lo <= runs2[k + 1].lo && runs2[k].hi < runs2[k + 1].hi {
      assert runs2[k] == runs[k];
      if k + 1 < |runs| { assert runs2[k + 1] == runs[k + 1]; }
    }
  }

  /** A run that starts where coverage ends extends coverage to its end. */
  lemma CoverageExtend(splits: seq<string>, runs: seq<Run>, r: Run, upto: nat)
    requires r.hi <= |splits| && r.lo <= upto <= r.hi
    requires forall j :: 0 <= j < r.lo ==> Covered(runs, j) || IsBlank(splits[j])
    ensures forall j :: 0 <= j < upto ==> Covered(runs + [r], j) || IsBlank(splits[j])
  {
    forall j | 0 <= j < upto ensures Covered(runs + [r], j) || IsBlank(splits[j]) {
      if j < r.lo {
        if Covered(runs, j) { CoveredExtend(runs, r, j); }
      } else {
        CoveredByLast(runs, r, j);
      }
    }
  }

  /** A window whose join is blank holds only blank fragments. */
  lemma BlankWindow(sep: string, splits: seq<string>, lo: nat, hi: nat)
    requires lo <= hi <= |splits| && Strip(Join(sep, splits[lo..hi])) == ""
    ensures forall j :: lo <= j < hi ==> IsBlank(splits[j])
  {
    BlankJoinHasBlankParts(sep, splits[lo..hi]);
    forall j | lo <= j < hi ensures IsBlank(splits[j]) {
      assert splits[j] == splits[lo..hi][j - lo];
    }
  }

  lemma NonBlankExtend(cfg: Config, docs: seq<string>, doc: string)
    requires DocsNonBlank(cfg, docs) && Strip(doc) != ""
    ensures DocsNonBlank(cfg, docs + [doc])
  {
    if cfg.chunkSize >= 0 {
      forall k | 0 <= k < |docs + [doc]| ensures Strip((docs + [doc])[k]) != "" {
        if k < |docs| { assert (docs + [doc])[k] == docs[k]; }
      }
    }
  }

  /** Popping from the front keeps the total bound. */
  lemma {:induction false} PopKeepsBound(cfg: Config, sep: string, cur: seq<string>, total: int)
    requires TotalBound(cfg, sep, cur, total)
    ensures var w := Pop(cfg, cfg.tokenLen(sep), cur, total); TotalBound(cfg, sep, w.0, w.1)
    decreases |cur|
  {
    if total > cfg.chunkOverlap && cur != [] {
      var rest := total - (cfg.tokenLen(cur[0]) + cfg.tokenLen(sep));
      if |cur| >= 2 {
        JoinedTokenCountFront(cfg.tokenLen, sep, cur);
      } else {
        assert cur[..0] == [];
      }
      PopKeepsBound(cfg, sep, cur[1..], rest);
    }
  }

  /** A suffix of a slice is a later slice. */
  lemma SuffixOfSlice(splits: seq<string>, lo: nat, i: nat, cur: seq<string>, w: seq<string>, lo2: nat)
    requires lo <= i <= |splits| && cur == splits[lo..i]
    requires |w| <= |cur| && w == cur[|cur| - |w|..] && lo2 == lo + (|cur| - |w|)
    ensures lo2 <= i && w == splits[lo2..i]
  {
  }

  // ------------------------------------------------- the window, step by step

  /** `Close` keeps the window a slice ending at `i`, with its total bounded. */
  lemma WindowClose(cfg: Config, sep: string, splits: seq<string>, i: nat, st: MergeState)
    requires WindowAt(cfg, sep, splits, i, st) && st.cur != []
    ensures WindowAt(cfg, sep, splits, i, Close(cfg, sep, st, i))
  {
    var w := Pop(cfg, cfg.tokenLen(sep), st.cur, st.total);
    PopKeepsBound(cfg, sep, st.cur, st.total);
    var c := Close(cfg, sep, st, i);
    assert c.cur == w.0 && c.total == w.1;
    SuffixOfSlice(splits, st.lo, i, st.cur, c.cur, c.lo);
  }

  /** `Append` moves the end of the window to `i + 1`. */
  lemma WindowAppend(cfg: Config, sep: string, splits: seq<string>, i: nat, st: MergeState)
    requires i < |splits| && WindowAt(cfg, sep, splits, i, st)
    ensures WindowAt(cfg, sep, splits, i + 1, Append(cfg, sep, st, splits[i]))
  {
    assert st.cur + [splits[i]] == splits[st.lo..i + 1];
    JoinedTokenCountSnoc(cfg.tokenLen, sep, st.cur, splits[i]);
    if st.cur == [] {
      assert JoinedTokenCount(cfg.tokenLen, sep, [] + [splits[i]]) == cfg.tokenLen(splits[i]);
    }
  }

  lemma WindowStep(cfg: Config, sep: string, splits: seq<string>, i: nat, st: MergeState)
    requires i < |splits| && WindowAt(cfg, sep, splits, i, st)
    ensures WindowAt(cfg, sep, splits, i + 1, Step(cfg, sep, splits, i, st))
  {
    var d := splits[i];
    if Overflows(cfg, sep, st, d) && st.total > cfg.chunkSize && st.cur == [] {
      assert splits[i + 1..i + 1] == [];
    } else if Overflows(cfg, sep, st, d) && st.cur != [] {
      WindowClose(cfg, sep, splits, i, st);
      WindowAppend(cfg, sep, splits, i, Close(cfg, sep, st, i));
    } else {
      WindowAppend(cfg, sep, splits, i, st);
    }
  }

  lemma {:induction false} StateAtWindow(cfg: Config, sep: string, splits: seq<string>, n: nat)
    requires n <= |splits|
    ensures WindowAt(cfg, sep, splits, n, StateAt(cfg, sep, splits, n))
  {
    if n == 0 {
      assert splits[0..0] == [];
    } else {
      StateAtWindow(cfg, sep, splits, n - 1);
      WindowStep(cfg, sep, splits, n - 1, StateAt(cfg, sep, splits, n - 1));
    }
  }

  // --------------------------------------------------- the runs, step by step

  /** `Close` on a non-empty window records its run, ending at `i`. */
  lemma RunsClose(cfg: Config, sep: string, splits: seq<string>, i: nat, st: MergeState)
    requires WindowAt(cfg, sep, splits, i, st) && RunsAt(sep, splits, i, st) && st.cur != []
    ensures RunsUpTo(sep, splits, i, Close(cfg, sep, st, i))
  {
    var c := Close(cfg, sep, st, i);
    if Strip(Join(sep, st.cur)) != "" {
      var r := Run(st.lo, i);
      RunsMatchExtend(sep, splits, st.docs, st.runs, i, r, Join(sep, st.cur), i);
      RunsAdvanceExtend(st.runs, r);
      assert c.docs == st.docs + [Join(sep, st.cur)] && c.runs == st.runs + [r];
    } else {
      assert c.docs == st.docs && c.runs == st.runs;
    }
  }

  /** `Append` leaves the runs alone and moves past the last one. */
  lemma RunsAppend(cfg: Config, sep: string, splits: seq<string>, i: nat, st: MergeState)
    requires i < |splits| && RunsUpTo(sep, splits, i, st)
    ensures RunsAt(sep, splits, i + 1, Append(cfg, sep, st, splits[i]))
  {
    RunsMatchWiden(sep, splits, st.docs, st.runs, i, i + 1);
    if |st.runs| > 0 {
      assert st.runs[|st.runs| - 1].hi <= i;
    }
  }

  /** An oversized fragment becomes a run of its own. */
  lemma RunsOversized(sep: string, splits: seq<string>, i: nat, st: MergeState)
    requires i < |splits| && st.lo == i && RunsAt(sep, splits, i, st)
    ensures RunsAt(sep, splits, i + 1, MergeState(st.docs + [splits[i]], st.runs + [Run(i, i + 1)], [], i + 1, st.total))
  {
    var r := Run(i, i + 1);
    assert splits[i..i + 1] == [splits[i]];
    RunsMatchExtend(sep, splits, st.docs, st.runs, i, r, splits[i], i + 1);
    if |st.runs| > 0 {
      assert st.runs[|st.runs| - 1].hi <= i;
    }
    RunsAdvanceExtend(st.runs, r);
  }

  lemma RunsStep(cfg: Config, sep: string, splits: seq<string>, i: nat, st: MergeState)
    requires i < |splits| && WindowAt(cfg, sep, splits, i, st) && RunsAt(sep, splits, i, st)
    ensures RunsAt(sep, splits, i + 1, Step(cfg, sep, splits, i, st))
  {
    var d := splits[i];
    if Overflows(cfg, sep, st, d) && st.total > cfg.chunkSize && st.cur == [] {
      RunsOversized(sep, splits, i, st);
    } else if Overflows(cfg, sep, st, d) && st.cur != [] {
      RunsClose(cfg, sep, splits, i, st);
      RunsAppend(cfg, sep, splits, i, Close(cfg, sep, st, i));
    } else {
      RunsAppend(cfg, sep, splits, i, st);
    }
  }

  lemma {:induction false} StateAtRuns(cfg: Config, sep: string, splits: seq<string>, n: nat)
    requires n <= |splits|
    ensures RunsAt(sep, splits, n, StateAt(cfg, sep, splits, n))
  {
    if n > 0 {
      StateAtWindow(cfg, sep, splits, n - 1);
      StateAtRuns(cfg, sep, splits, n - 1);
      RunsStep(cfg, sep, splits, n - 1, StateAt(cfg, sep, splits, n - 1));
    }
  }

  // ----------------------------------------------- coverage, step by step

  /** `Close` either records the window's run or drops a blank window. */
  lemma CoverageClose(cfg: Config, sep: string, splits: seq<string>, i: nat, st: MergeState)
    requires WindowAt(cfg, sep, splits, i, st) && CoveredBelow(splits, st) && st.cur != []
    ensures CoveredBelow(splits, Close(cfg, sep, st, i))
  {
    var c := Close(cfg, sep, st, i);
    WindowClose(cfg, sep, splits, i, st);
    if Strip(Join(sep, st.cur)) != "" {
      assert c.runs == st.runs + [Run(st.lo, i)];
      CoverageExtend(splits, st.runs, Run(st.lo, i), c.lo);
    } else {
      assert c.runs == st.runs;
      BlankWindow(sep, splits, st.lo, i);
    }
  }

  lemma CoverageStep(cfg: Config, sep: string, splits: seq<string>, i: nat, st: MergeState)
    requires i < |splits| && WindowAt(cfg, sep, splits, i, st) && CoveredBelow(splits, st)
    ensures CoveredBelow(splits, Step(cfg, sep, splits, i, st))
  {
    var d := splits[i];
    if Overflows(cfg, sep, st, d) && st.total > cfg.chunkSize && st.cur == [] {
      CoverageExtend(splits, st.runs, Run(i, i + 1), i + 1);
    } else if Overflows(cfg, sep, st, d) && st.cur != [] {
      CoverageClose(cfg, sep, splits, i, st);
    }
  }

  lemma {:induction false} StateAtCoverage(cfg: Config, sep: string, splits: seq<string>, n: nat)
    requires n <= |splits|
    ensures CoveredBelow(splits, StateAt(cfg, sep, splits, n))
  {
    if n > 0 {
      StateAtWindow(cfg, sep, splits, n - 1);
      StateAtCoverage(cfg, sep, splits, n - 1);
      CoverageStep(cfg, sep, splits, n - 1, StateAt(cfg, sep, splits, n - 1));
    }
  }

  // ---------------------------------------------- non-blank chunks, step by step

  lemma NonBlankStep(cfg: Config, sep: string, splits: seq<string>, i: nat, st: MergeState)
    requires i < |splits| && WindowAt(cfg, sep, splits, i, st) && DocsNonBlank(cfg, st.docs)
    ensures DocsNonBlank(cfg, Step(cfg, sep, splits, i, st).docs)
  {
    var d := splits[i];
    if Overflows(cfg, sep, st, d) && st.total > cfg.chunkSize && st.cur == [] {
      assert cfg.chunkSize < 0;
    } else if Overflows(cfg, sep, st, d) && st.cur != [] {
      var doc := Join(sep, st.cur);
      if Strip(doc) != "" {
        NonBlankExtend(cfg, st.docs, doc);
      }
    }
  }

  lemma {:induction false} StateAtNonBlank(cfg: Config, sep: string, splits: seq<string>, n: nat)
    requires n <= |splits|
    ensures DocsNonBlank(cfg, StateAt(cfg, sep, splits, n).docs)
  {
    if n > 0 {
      StateAtWindow(cfg, sep, splits, n - 1);
      StateAtNonBlank(cfg, sep, splits, n - 1);
      NonBlankStep(cfg, sep, splits, n - 1, StateAt(cfg, sep, splits, n - 1));
    }
  }

  // ------------------------------------------------------ what Merge promises

  /** With a non-negative `chunkSize`, the "single chunk is too big" branch can
      never be taken: an empty window always has a total of at most 0. */
  lemma OversizedBranchUnreachable(cfg: Config, sep: string, splits: seq<string>, i: nat)
    requires cfg.chunkSize >= 0 && i < |splits|
    ensures var st := StateAt(cfg, sep, splits, i); !(st.total > cfg.chunkSize && st.cur == [])
  {
    StateAtWindow(cfg, sep, splits, i);
  }

  /** The chunks are the joins of the runs, which advance through the
      fragments; every fragment not in any run is blank; and, when
      `chunkSize >= 0`, no chunk is blank. */
  predicate MergeShape(cfg: Config, splits: seq<string>, sep: string, chunks: seq<string>, runs: seq<Run>) {
    && RunsMatch(sep, splits, chunks, runs, |splits|)
    && RunsAdvance(runs)
    && (forall j :: 0 <= j < |splits| ==> Covered(runs, j) || IsBlank(splits[j]))
    && DocsNonBlank(cfg, chunks)
  }

  /** `Merge` and `MergeRuns` have the shape above. */
  lemma MergeStructure(cfg: Config, splits: seq<string>, sep: string)
    ensures MergeShape(cfg, splits, sep, Merge(cfg, splits, sep), MergeRuns(cfg, splits, sep))
  {
    var n := |splits|;
    var st := StateAt(cfg, sep, splits, n);
    StateAtWindow(cfg, sep, splits, n);
    StateAtRuns(cfg, sep, splits, n);
    StateAtCoverage(cfg, sep, splits, n);
    StateAtNonBlank(cfg, sep, splits, n);
    if EmitsLast(st, sep) {
      FinalEmitting(cfg, splits, sep, st);
    } else {
      FinalSilent(cfg, splits, sep, st);
    }
  }

  lemma FinalEmitting(cfg: Config, splits: seq<string>, sep: string, st: MergeState)
    requires WindowAt(cfg, sep, splits, |splits|, st) && RunsAt(sep, splits, |splits|, st)
    requires CoveredBelow(splits, st) && DocsNonBlank(cfg, st.docs) && EmitsLast(st, sep)
    ensures MergeShape(cfg, splits, sep, st.docs + [Join(sep, st.cur)], st.runs + [Run(st.lo, |splits|)])
  {
    var n := |splits|;
    var r := Run(st.lo, n);
    var chunks, runs := st.docs + [Join(sep, st.cur)], st.runs + [r];
    assert RunsMatch(sep, splits, chunks, runs, n) by {
      RunsMatchExtend(sep, splits, st.docs, st.runs, n, r, Join(sep, st.cur), n);
    }
    assert RunsAdvance(runs) by {
      RunsAdvanceExtend(st.runs, r);
    }
    assert forall j :: 0 <= j < n ==> Covered(runs, j) || IsBlank(splits[j]) by {
      CoverageExtend(splits, st.runs, r, n);
    }
    assert DocsNonBlank(cfg, chunks) by {
      NonBlankExtend(cfg, st.docs, Join(sep, st.cur));
    }
  }

  lemma FinalSilent(cfg: Config, splits: seq<string>, sep: string, st: MergeState)
    requires WindowAt(cfg, sep, splits, |splits|, st) && RunsAt(sep, splits, |splits|, st)
    requires CoveredBelow(splits, st) && DocsNonBlank(cfg, st.docs) && !EmitsLast(st, sep)
    ensures MergeShape(cfg, splits, sep, st.docs, st.runs)
  {
    var n := |splits|;
    if st.cur != [] {
      BlankWindow(sep, splits, st.lo, n);
    }
    assert forall j :: st.lo <= j < n ==> IsBlank(splits[j]);
  }

  /** Fragments whose tokens, with a separator between each two, add up to at
      most `chunkSize` are never split apart: they come out as one chunk,
      their join, unless that is blank. */
  lemma MergeFitsInOne(cfg: Config, splits: seq<string>, sep: string)
    requires JoinedTokenCount(cfg.tokenLen, sep, splits) <= cfg.chunkSize
    ensures Merge(cfg, splits, sep) == (if IsBlank(Join(sep, splits)) then [] else [Join(sep, splits)])
  {
    FitsStateAt(cfg, splits, sep, |splits|);
    assert splits[..|splits|] == splits;
  }

  lemma {:induction false} FitsStateAt(cfg: Config, splits: seq<string>, sep: string, n: nat)
    requires n <= |splits|
    requires JoinedTokenCount(cfg.tokenLen, sep, splits) <= cfg.chunkSize
    ensures StateAt(cfg, sep, splits, n)
      == MergeState([], [], splits[..n], 0, JoinedTokenCount(cfg.tokenLen, sep, splits[..n]))
  {
    if n > 0 {
      FitsStateAt(cfg, splits, sep, n - 1);
      var st := StateAt(cfg, sep, splits, n - 1);
      JoinedTokenCountSnoc(cfg.tokenLen, sep, splits[..n - 1], splits[n - 1]);
      assert splits[..n - 1] + [splits[n - 1]] == splits[..n];
      JoinedTokenCountPrefix(cfg.tokenLen, sep, splits, n);
      assert !Overflows(cfg, sep, st, splits[n - 1]);
    }
  }
}
