/** Retrieval: recall from the vector store, an optional filter on file
    names, and reranking of the candidates by a cross-encoder. */
module Retrieval {
  import opened Wrappers
  import opened PyText
  import opened Schema
  import opened Ranking
  import opened VectorIndex

  /** The metadata key under which the reranker records a document's score. */
  const RerankScoreKey: string := "rerank_score"

  /** The default `top_n` of `rerank`. */
  const DefaultRerankTopN: int := 3
  /** The defaults of `retrieve`: `top_k`, `top_n`, `use_rerank` and no file filter. */
  const DefaultRetrieveTopK: int := 10
  const DefaultRetrieveTopN: int := 3
  const DefaultUseRerank: bool := true

  /** The content of each document, in order. */
  function Contents(docs: seq<Document>): (cs: seq<string>)
    ensures |cs| == |docs|
  {
    seq(|docs|, k requires 0 <= k < |docs| => docs[k].content)
  }

  /** The cross-encoder's score of each content against the query. */
  function Scores(score: (string, string) -> real, query: string, contents: seq<string>): (s: seq<real>)
    ensures |s| == |contents|
  {
    seq(|contents|, k requires 0 <= k < |contents| => score(query, contents[k]))
  }

  // ------------------------------------------------------------ reranking

  /** The cross-encoder model: a fixed scoring of (query, passage) pairs. */
  class CrossEncoder {
    const score: (string, string) -> real
    /** How many times the model has been asked to score. */
    ghost var calls: nat

    constructor (score: (string, string) -> real)
      ensures this.score == score && calls == 0
    {
      this.score := score;
      calls := 0;
    }

    /** `model.predict(pairs)` for the pairs (query, content). */
    method Predict(query: string, contents: seq<string>) returns (scores: seq<real>)
      modifies this
      ensures calls == old(calls) + 1
      ensures scores == Scores(score, query, contents)
    {
      calls := calls + 1;
      scores := Scores(score, query, contents);
    }
  }

  /** The positions `rerank` keeps: the stable descending sort of the
      scores, cut to its first `top_n` entries. */
  function Selection(scores: seq<real>, topN: int): (sel: seq<nat>)
    ensures forall k :: 0 <= k < |sel| ==> sel[k] < |scores|
  {
    TakeIsPrefix(Rank(scores), topN);
    Take(Rank(scores), topN)
  }

  /** What the selection promises: `min(top_n, n)` distinct positions for a
      non-negative `top_n`, scores never increasing along it, equal scores
      in input order, and no unselected position scoring above a selected one. */
  lemma SelectionProperties(scores: seq<real>, topN: int)
    ensures var sel := Selection(scores, topN);
      && (topN >= 0 ==> |sel| == (if topN <= |scores| then topN else |scores|))
      && (forall k :: 0 <= k < |sel| ==> sel[k] < |scores|)
      && (forall i, j :: 0 <= i < j < |sel| ==> sel[i] != sel[j])
      && (forall i, j :: 0 <= i < j < |sel| ==> scores[sel[i]] >= scores[sel[j]])
      && (forall i, j :: 0 <= i < j < |sel| && scores[sel[i]] == scores[sel[j]] ==> sel[i] < sel[j])
      && (forall k, p :: 0 <= k < |sel| && 0 <= p < |scores| && p !in sel ==>
            scores[sel[k]] > scores[p] || (scores[sel[k]] == scores[p] && sel[k] < p))
  {
    var order := Rank(scores);
    RankIsRanking(scores);
    RankingProperties(scores, order);
    TakeIsPrefix(order, topN);
    var sel := Selection(scores, topN);
    assert forall k :: 0 <= k < |sel| ==> sel[k] == order[k];
    forall k, p | 0 <= k < |sel| && 0 <= p < |scores| && p !in sel
      ensures scores[sel[k]] > scores[p] || (scores[sel[k]] == scores[p] && sel[k] < p)
    {
      assert p in order;
      var j :| 0 <= j < |order| && order[j] == p;
      assert Before(scores, order[k], order[j]);
    }
  }

  /** Three scores where the third is best and the second worst, such as
      0.1, 0.05 and 0.9, with `top_n` 2 keep the third document, then the first. */
  lemma SelectionExample(a: real, b: real, c: real)
    requires b < a < c
    ensures Selection([a, b, c], 2) == [2, 0]
  {
    var order: seq<nat> := [2, 0, 1];
    RankOfThree([a, b, c], order);
    assert Take(order, 2) == [2, 0];
  }

  class Reranker {
    const model: CrossEncoder

    constructor (model: CrossEncoder)
      ensures this.model == model
    {
      this.model := model;
    }

    /** `rerank`: nothing (and no scoring) for no documents; otherwise the
        documents at the selected positions of their scores, each stamped
        with its own score under "rerank_score". Documents not returned keep
        their metadata. */
    method Rerank(query: string, documents: seq<Document>, topN: int) returns (results: seq<Document>)
      modifies model, documents
      ensures documents == [] ==> results == [] && model.calls == old(model.calls)
      ensures documents != [] ==> model.calls == old(model.calls) + 1
      ensures var sel := Selection(Scores(model.score, query, Contents(documents)), topN);
        && |results| == |sel|
        && forall k :: 0 <= k < |sel| ==> sel[k] < |documents| && results[k] == documents[sel[k]]
      ensures forall d :: d in results ==> d in documents
      ensures forall d :: d in documents ==> d.metadata == Stamped(old(d.metadata), d in results, model.score(query, d.content))
    {
      if |documents| == 0 {
        return [];
      }
      var contents := Contents(documents);
      var scores := model.Predict(query, contents);
      var sel := Selection(scores, topN);
      results := [];
      var j := 0;
      while j < |sel|
        invariant 0 <= j <= |sel|
        invariant |results| == j && forall k :: 0 <= k < j ==> results[k] == documents[sel[k]]
        invariant forall d :: d in documents ==> d.metadata == Stamped(old(d.metadata), d in results, model.score(query, d.content))
        invariant model.calls == old(model.calls) + 1
      {
        var doc := documents[sel[j]];
        assert scores[sel[j]] == model.score(query, doc.content);
        doc.metadata := doc.metadata[RerankScoreKey := Real(scores[sel[j]])];
        results := results + [doc];
        j := j + 1;
      }
    }
  }

  /** A document's metadata after reranking: stamped with its score when returned. */
  function Stamped(m: Metadata, returned: bool, score: real): Metadata {
    if returned then m[RerankScoreKey := Real(score)] else m
  }

  // ------------------------------------------------------------ retrieval

  /** The basename of a document's "source" (empty when absent); a source
      that is not a string makes `os.path.basename` raise. */
  function SourceName(m: Metadata): Option<string> {
    match Get(m, SourceKey, Str(""))
    case Str(s) => Some(Basename(s))
    case _ => None
  }

  /** The error `os.path.basename` raises on a source that is not a string. */
  const NotAPath: string := "TypeError: expected str, bytes or os.PathLike object"

  /** The source basename of each document, in order. */
  function SourceNames(docs: seq<Document>): (srcs: seq<Option<string>>)
    reads docs
    ensures |srcs| == |docs|
  {
    seq(|docs|, k requires 0 <= k < |docs| reads docs => SourceName(docs[k].metadata))
  }

  /** The file filter over the first `n` source names: the positions whose
      name is listed, in order; the first position without a name raises. */
  function Filter(srcs: seq<Option<string>>, names: seq<string>, n: nat): (r: Result<seq<nat>>)
    requires n <= |srcs|
    ensures r.Ok? ==> forall k :: 0 <= k < |r.value| ==> r.value[k] < n
  {
    if n == 0 then Ok([])
    else
      match Filter(srcs, names, n - 1)
      case Err(e) => Err(e)
      case Ok(ps) =>
        match srcs[n - 1]
        case None => Err(NotAPath)
        case Some(name) => Ok(if name in names then ps + [n - 1] else ps)
  }

  /** The filter raises exactly when some source is not a string. */
  lemma {:induction false} FilterRaises(srcs: seq<Option<string>>, names: seq<string>, n: nat)
    requires n <= |srcs|
    ensures Filter(srcs, names, n).Err? <==> exists k :: 0 <= k < n && srcs[k].None?
  {
    if n > 0 {
      FilterRaises(srcs, names, n - 1);
    }
  }

  /** The kept positions increase strictly, and a position is kept exactly
      when its name is listed. */
  lemma {:induction false} FilterKeeps(srcs: seq<Option<string>>, names: seq<string>, n: nat)
    requires n <= |srcs| && Filter(srcs, names, n).Ok?
    ensures var ps := Filter(srcs, names, n).value;
      && (forall i, j :: 0 <= i < j < |ps| ==> ps[i] < ps[j])
      && (forall p :: 0 <= p < n ==> srcs[p].Some? && (p in ps <==> srcs[p].value in names))
  {
    if n > 0 {
      FilterKeeps(srcs, names, n - 1);
    }
  }

  /** An empty list of names keeps nothing. */
  lemma {:induction false} FilterNoNames(srcs: seq<Option<string>>, n: nat)
    requires n <= |srcs| && Filter(srcs, [], n).Ok?
    ensures Filter(srcs, [], n).value == []
  {
    if n > 0 {
      FilterNoNames(srcs, n - 1);
    }
  }

  /** Once a prefix raises, every longer prefix raises with the same error. */
  lemma {:induction false} FilterRaisesEarly(srcs: seq<Option<string>>, names: seq<string>, i: nat, n: nat)
    requires i <= n <= |srcs| && Filter(srcs, names, i).Err?
    ensures Filter(srcs, names, n) == Filter(srcs, names, i)
    decreases n - i
  {
    if i < n {
      FilterRaisesEarly(srcs, names, i + 1, n);
    }
  }

  /** The file filter on documents: those at the kept positions. */
  function FileFiltered(docs: seq<Document>, names: seq<string>): Result<seq<Document>>
    reads docs
  {
    match Filter(SourceNames(docs), names, |docs|)
    case Err(e) => Err(e)
    case Ok(ps) => Ok(Pick(docs, ps))
  }

  /** What the filter on documents keeps: raising exactly when some source
      is not a string, and otherwise the input documents whose name is
      listed, each at its own position, in input order. */
  lemma FileFilteredProperties(docs: seq<Document>, names: seq<string>)
    ensures var srcs := SourceNames(docs);
      FileFiltered(docs, names).Err? <==> exists k :: 0 <= k < |docs| && srcs[k].None?
    ensures var srcs := SourceNames(docs);
      FileFiltered(docs, names).Ok? ==>
        var ps := Filter(srcs, names, |docs|).value;
        && FileFiltered(docs, names).value == Pick(docs, ps)
        && (forall i, j :: 0 <= i < j < |ps| ==> ps[i] < ps[j])
        && (forall p :: 0 <= p < |docs| ==> srcs[p].Some? && (p in ps <==> srcs[p].value in names))
  {
    var srcs := SourceNames(docs);
    FilterRaises(srcs, names, |docs|);
    if Filter(srcs, names, |docs|).Ok? {
      FilterKeeps(srcs, names, |docs|);
    }
  }

  /** Every document the filter keeps comes from a listed file. */
  lemma FileFilteredNamed(docs: seq<Document>, names: seq<string>)
    ensures FileFiltered(docs, names).Ok? ==>
      forall d :: d in FileFiltered(docs, names).value ==>
        SourceName(d.metadata).Some? && SourceName(d.metadata).value in names
  {
    var srcs := SourceNames(docs);
    if Filter(srcs, names, |docs|).Ok? {
      var ps := Filter(srcs, names, |docs|).value;
      FilterKeeps(srcs, names, |docs|);
      forall d | d in Pick(docs, ps)
        ensures SourceName(d.metadata).Some? && SourceName(d.metadata).value in names
      {
        var k :| 0 <= k < |ps| && Pick(docs, ps)[k] == d;
        assert d == docs[ps[k]] && srcs[ps[k]] == SourceName(d.metadata);
        assert ps[k] in ps;
      }
    }
  }

  /** Stamping a score leaves the source, and so its basename, as it was. */
  lemma StampedKeepsSource(m: Metadata, returned: bool, score: real)
    ensures SourceName(Stamped(m, returned, score)) == SourceName(m)
  {
    assert |RerankScoreKey| != |SourceKey|;
  }

  /** The depth of the vector search: five times `top_k` when filtering. */
  function SearchDepth(topK: int, fileFilters: Option<seq<string>>): int {
    if fileFilters.Some? then topK * 5 else topK
  }

  /** One call of `retrieve`, as its arguments. */
  datatype Request = Request(query: string, topK: int, topN: int, useRerank: bool, fileFilters: Option<seq<string>>)

  class Retriever {
    /** `embedder.embed_query`. */
    const embed: string -> seq<real>
    const store: VectorStore
    const reranker: Option<Reranker>
    /** The calls made to `retrieve` so far. */
    ghost var requests: seq<Request>

    constructor (embed: string -> seq<real>, store: VectorStore, reranker: Option<Reranker>)
      ensures this.embed == embed && this.store == store && this.reranker == reranker
      ensures requests == []
    {
      this.embed := embed;
      this.store := store;
      this.reranker := reranker;
      requests := [];
    }

    /** The reranker's model, the only other object reranking changes. */
    function Model(): set<CrossEncoder> {
      if reranker.Some? then {reranker.value.model} else {}
    }

    /** The candidates before reranking: the vector search at `SearchDepth`,
        then, with filters, the listed files only, cut to `top_k`. */
    function Candidates(query: string, topK: int, fileFilters: Option<seq<string>>): Result<seq<Document>>
      reads store, store.metadata
    {
      match store.Found(embed(query), SearchDepth(topK, fileFilters))
      case Err(e) => Err(e)
      case Ok(found) =>
        if fileFilters.None? then Ok(found)
        else
          match FileFiltered(found, fileFilters.value)
          case Err(e) => Err(e)
          case Ok(kept) => Ok(Take(kept, topK))
    }

    /** With filters there are at most `top_k` candidates, for a
        non-negative `top_k`, and each comes from a listed file. */
    lemma CandidatesNamed(query: string, topK: int, names: seq<string>)
      ensures var c := Candidates(query, topK, Some(names));
        c.Ok? ==>
          && (topK >= 0 ==> |c.value| <= topK)
          && forall d :: d in c.value ==> SourceName(d.metadata).Some? && SourceName(d.metadata).value in names
    {
      var found := store.Found(embed(query), SearchDepth(topK, Some(names)));
      if found.Ok? {
        FileFilteredNamed(found.value, names);
        if FileFiltered(found.value, names).Ok? {
          var kept := FileFiltered(found.value, names).value;
          TakeIsPrefix(kept, topK);
          assert forall d :: d in Take(kept, topK) ==> d in kept;
        }
      }
    }

    /** The reranker's score of a content against the query. */
    function Score(query: string, content: string): real {
      if reranker.Some? then reranker.value.model.score(query, content) else 0.0
    }

    /** What `retrieve` returns for the candidates `c`: the error of a failed
        recall, the reranker's selection when it reranks, and otherwise the
        first `top_n` candidates. */
    function Outcome(c: Result<seq<Document>>, query: string, topN: int, useRerank: bool): Result<seq<Document>> {
      match c
      case Err(e) => Err(e)
      case Ok(cs) =>
        if Reranks(useRerank, cs) then Ok(Pick(cs, Selection(Scores(reranker.value.model.score, query, Contents(cs)), topN)))
        else Ok(Take(cs, topN))
    }

    /** Whether `retrieve` hands the candidates to the reranker. */
    predicate Reranks(useRerank: bool, candidates: seq<Document>) {
      useRerank && reranker.Some? && candidates != []
    }

    /** What `retrieve` returns is taken from the candidates, and fails
        only when the candidates do. */
    lemma OutcomeWithin(c: Result<seq<Document>>, query: string, topN: int, useRerank: bool)
      ensures Outcome(c, query, topN, useRerank).Ok? <==> c.Ok?
      ensures c.Ok? ==> forall d :: d in Outcome(c, query, topN, useRerank).value ==> d in c.value
    {
      if c.Ok? {
        var cs := c.value;
        if Reranks(useRerank, cs) {
          var sel := Selection(Scores(reranker.value.model.score, query, Contents(cs)), topN);
          forall d | d in Pick(cs, sel) ensures d in cs {
            var k :| 0 <= k < |sel| && Pick(cs, sel)[k] == d;
            assert d == cs[sel[k]];
          }
        } else {
          TakeIsPrefix(cs, topN);
          assert forall d :: d in Take(cs, topN) ==> d in cs;
        }
      }
    }

    /** `retrieve`. A failed search or filter raises and nothing changes.
        Without reranking (switched off, no reranker, or no candidates) the
        result is the first `top_n` candidates and nothing is scored;
        otherwise it is the reranker's selection among the candidates, and
        only the returned documents are stamped with their score. */
    method Retrieve(query: string, topK: int, topN: int, useRerank: bool, fileFilters: Option<seq<string>>)
      returns (r: Result<seq<Document>>, ghost c: Result<seq<Document>>)
      modifies this, store.metadata, Model()
      ensures requests == old(requests) + [Request(query, topK, topN, useRerank, fileFilters)]
      ensures r == Outcome(c, query, topN, useRerank)
      ensures forall d :: d in store.metadata ==>
        d.metadata == Stamped(old(d.metadata), c.Ok? && Reranks(useRerank, c.value) && d in r.value, Score(query, d.content))
      ensures reranker.Some? ==>
        reranker.value.model.calls == old(reranker.value.model.calls) + (if c.Ok? && Reranks(useRerank, c.value) then 1 else 0)
      ensures c == old(Candidates(query, topK, fileFilters))
    {
      var candidates := Recall(query, topK, fileFilters);
      c := candidates;
      if candidates.Err? {
        r := Err(candidates.error);
      } else {
        r := Conclude(query, topN, useRerank, candidates.value, store.metadata);
      }
      requests := requests + [Request(query, topK, topN, useRerank, fileFilters)];
    }

    /** The second half of `retrieve`: the first `top_n` candidates, or the
        reranker's selection among them. */
    method Conclude(query: string, topN: int, useRerank: bool, candidates: seq<Document>, ghost stored: seq<Document>)
      returns (r: Result<seq<Document>>)
      requires forall d :: d in candidates ==> d in stored
      modifies candidates, Model()
      ensures r == Outcome(Ok(candidates), query, topN, useRerank)
      ensures r.Ok? && forall d :: d in r.value ==> d in candidates
      ensures forall d :: d in stored ==>
        d.metadata == Stamped(old(d.metadata), Reranks(useRerank, candidates) && d in r.value, Score(query, d.content))
      ensures reranker.Some? ==>
        reranker.value.model.calls == old(reranker.value.model.calls) + (if Reranks(useRerank, candidates) then 1 else 0)
    {
      if !useRerank || reranker.None? || |candidates| == 0 {
        TakeIsPrefix(candidates, topN);
        assert forall d :: d in Take(candidates, topN) ==> d in candidates;
        return Ok(Take(candidates, topN));
      }
      var reranked := reranker.value.Rerank(query, candidates, topN);
      r := Ok(reranked);
      assert reranked == Pick(candidates, Selection(Scores(reranker.value.model.score, query, Contents(candidates)), topN));
    }

    /** The recall half of `retrieve`: search, then filter and cut. The
        candidates are stored documents. */
    method Recall(query: string, topK: int, fileFilters: Option<seq<string>>) returns (c: Result<seq<Document>>)
      ensures c == old(Candidates(query, topK, fileFilters))
      ensures c.Ok? ==> forall d :: d in c.value ==> d in store.metadata
    {
      var found := store.Search(embed(query), SearchDepth(topK, fileFilters));
      if found.Err? {
        return Err(found.error);
      }
      store.FoundBounds(embed(query), SearchDepth(topK, fileFilters));
      if fileFilters.None? {
        return found;
      }
      var filtered := NamedIn(found.value, fileFilters.value);
      if filtered.Err? {
        return Err(filtered.error);
      }
      TakeIsPrefix(filtered.value, topK);
      assert forall d :: d in Take(filtered.value, topK) ==> d in filtered.value;
      c := Ok(Take(filtered.value, topK));
    }
  }

  /** Picking one more position appends its document. */
  lemma PickSnoc(ds: seq<Document>, ps: seq<nat>, p: nat)
    requires forall k :: 0 <= k < |ps| ==> ps[k] < |ds|
    requires p < |ds|
    ensures Pick(ds, ps + [p]) == Pick(ds, ps) + [ds[p]]
  {
    assert forall k :: 0 <= k < |ps| ==> Pick(ds, ps + [p])[k] == Pick(ds, ps)[k];
  }

  /** The filter loop of `retrieve`. */
  method NamedIn(docs: seq<Document>, names: seq<string>) returns (r: Result<seq<Document>>)
    ensures r == FileFiltered(docs, names)
  {
    r := Keep(docs, SourceNames(docs), names);
  }

  /** The loop over the documents with their source names already taken. */
  method Keep(docs: seq<Document>, srcs: seq<Option<string>>, names: seq<string>) returns (r: Result<seq<Document>>)
    requires |srcs| == |docs|
    ensures r == match Filter(srcs, names, |docs|)
      case Err(e) => Err(e)
      case Ok(ps) => Ok(Pick(docs, ps))
  {
    ghost var ps: seq<nat> := [];
    var kept: seq<Document> := [];
    var i: nat := 0;
    while i < |docs|
      invariant 0 <= i <= |docs|
      invariant Filter(srcs, names, i) == Ok(ps)
      invariant kept == Pick(docs, ps)
    {
      var name := srcs[i];
      if name.None? {
        r := Err(NotAPath);
        FilterRaisesEarly(srcs, names, i + 1, |docs|);
        return;
      }
      if name.value in names {
        PickSnoc(docs, ps, i);
        kept := kept + [docs[i]];
        ps := ps + [i];
      }
      i := i + 1;
    }
    r := Ok(kept);
  }
}
