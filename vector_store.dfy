/** The vector store: a flat inner-product index and, side by side, the list
    of documents whose embeddings are its rows. The index's own nearest-row
    search is a parameter of the store (`ranking`); what is modelled is the
    bookkeeping around it. */
module VectorIndex {
  import opened Wrappers
  import opened Schema
  import opened Ranking

  /** The default `top_k` of `search`. */
  const DefaultSearchTopK: int := 5

  /** A flat index: its dimension and its rows, in the order they were added. */
  datatype FlatIndex = FlatIndex(dim: nat, rows: seq<seq<real>>)

  /** One entry of the index's answer: a row position, or `-1` for a missing neighbour. */
  datatype Label = Hit(pos: nat) | Miss

  /** The labels the index returns for `k` neighbours: its first `k` ranked
      positions, padded with `-1` when it holds fewer rows. */
  function Labels(ranked: seq<nat>, k: nat): (ls: seq<Label>)
    ensures |ls| == k
  {
    seq(k, i requires 0 <= i < k => if i < |ranked| then Hit(ranked[i]) else Miss)
  }

  /** The positions named by `labels` that are real hits below `n`, in label order. */
  function Resolved(labels: seq<Label>, n: nat): (ps: seq<nat>)
    ensures |ps| <= |labels|
    ensures forall k :: 0 <= k < |ps| ==> ps[k] < n && Hit(ps[k]) in labels
  {
    if labels == [] then []
    else
      var ps := Resolved(labels[..|labels| - 1], n);
      match labels[|labels| - 1]
      case Hit(p) => if p < n then ps + [p] else ps
      case Miss => ps
  }

  /** The documents at positions `ps`. */
  function Pick(ds: seq<Document>, ps: seq<nat>): (r: seq<Document>)
    requires forall k :: 0 <= k < |ps| ==> ps[k] < |ds|
    ensures |r| == |ps|
  {
    seq(|ps|, k requires 0 <= k < |ps| => ds[ps[k]])
  }

  /** When every label is a hit below `n`, none is dropped. */
  lemma {:induction false} ResolvedAllHits(labels: seq<Label>, n: nat)
    requires forall k :: 0 <= k < |labels| ==> labels[k].Hit? && labels[k].pos < n
    ensures Resolved(labels, n) == seq(|labels|, k requires 0 <= k < |labels| => labels[k].pos)
  {
    if labels != [] {
      ResolvedAllHits(labels[..|labels| - 1], n);
    }
  }

  /** The index refuses rows of another width. */
  const RowDimension: string := "AssertionError: the embeddings do not have the index's dimension"
  /** The index refuses a query of another width. */
  const QueryDimension: string := "AssertionError: the query does not have the index's dimension"
  /** The index refuses to look for fewer than one neighbour. */
  const NoNeighbours: string := "AssertionError: k must be positive"

  /** Appending rows of the index's width keeps every row at that width. */
  lemma RowsOfWidth(rows: seq<seq<real>>, more: seq<seq<real>>, dim: nat)
    requires forall r :: r in rows ==> |r| == dim
    requires forall r :: r in more ==> |r| == dim
    ensures forall r :: r in rows + more ==> |r| == dim
  {
    assert forall r :: r in rows + more ==> r in rows || r in more;
  }

  class VectorStore {
    /** `None` until the first documents are added. */
    var index: Option<FlatIndex>
    /** `metadata`: the stored documents; position `i` belongs to row `i`. */
    var metadata: seq<Document>
    /** The index's search: the row positions, nearest first, for a query. */
    const ranking: (FlatIndex, seq<real>) -> seq<nat>

    /** Every row has the index's dimension, and there are no documents
        without an index. */
    predicate Valid()
      reads this
    {
      match index
      case None => metadata == []
      case Some(ix) => forall r :: r in ix.rows ==> |r| == ix.dim
    }

    /** Position `i` of the index refers to `metadata[i]`: as many rows as documents. */
    predicate Coupled()
      reads this
    {
      Valid() && (index.Some? ==> |index.value.rows| == |metadata|)
    }

    /** The index's rows; none before the index exists. */
    function Rows(): seq<seq<real>>
      reads this
    {
      if index.None? then [] else index.value.rows
    }

    /** Whether an existing index has a width other than `dimension`. */
    predicate Refuses(dimension: nat)
      reads this
    {
      index.Some? && index.value.dim != dimension
    }

    /** A store created with no saved index on disk. */
    constructor (ranking: (FlatIndex, seq<real>) -> seq<nat>)
      ensures index == None && metadata == [] && this.ranking == ranking
      ensures Coupled()
    {
      index := None;
      metadata := [];
      this.ranking := ranking;
    }

    /** `add_documents`: creates the index on first use with the width of the
        embeddings, appends the rows and the documents. An index of another
        dimension refuses the rows, and then nothing changes. */
    method AddDocuments(documents: seq<Document>, dimension: nat, embeddings: seq<seq<real>>)
      returns (r: Result<()>)
      requires forall e :: e in embeddings ==> |e| == dimension
      modifies this
      ensures old(Refuses(dimension)) ==> r.Err? && index == old(index) && metadata == old(metadata)
      ensures !old(Refuses(dimension)) ==>
        && r.Ok?
        && index == Some(FlatIndex(dimension, old(Rows()) + embeddings))
        && metadata == old(metadata) + documents
      ensures old(Valid()) ==> Valid()
      ensures old(Coupled()) && |documents| == |embeddings| ==> Coupled()
    {
      ghost var wasValid := Valid();
      if index.None? {
        index := Some(FlatIndex(dimension, []));
      }
      var ix := index.value;
      if ix.dim != dimension {
        return Err(RowDimension);
      }
      assert ix.rows == [] ==> ix.rows + embeddings == embeddings;
      if wasValid {
        RowsOfWidth(ix.rows, embeddings, dimension);
      }
      index := Some(FlatIndex(ix.dim, ix.rows + embeddings));
      metadata := metadata + documents;
      r := Ok(());
    }

    /** What `search` returns: nothing from an empty store; otherwise the
        documents at the hit positions of the index's answer, skipping `-1`
        and positions past the document list. The index refuses a query of
        another dimension and a `top_k` below 1. */
    function Found(query: seq<real>, topK: int): Result<seq<Document>>
      reads this
    {
      if index.None? || metadata == [] then Ok([])
      else if |query| != index.value.dim then Err(QueryDimension)
      else if topK <= 0 then Err(NoNeighbours)
      else Ok(Pick(metadata, Resolved(Labels(ranking(index.value, query), topK), |metadata|)))
    }

    /** `search`. */
    method Search(query: seq<real>, topK: int) returns (r: Result<seq<Document>>)
      ensures r == Found(query, topK)
    {
      if index.None? || |metadata| == 0 {
        return Ok([]);
      }
      var ix := index.value;
      if |query| != ix.dim {
        return Err(QueryDimension);
      }
      if topK <= 0 {
        return Err(NoNeighbours);
      }
      var labels := Labels(ranking(ix, query), topK);
      var results: seq<Document> := [];
      ghost var kept: seq<nat> := [];
      var i := 0;
      while i < |labels|
        invariant 0 <= i <= |labels|
        invariant kept == Resolved(labels[..i], |metadata|)
        invariant results == Pick(metadata, kept)
      {
        assert labels[..i + 1][..i] == labels[..i];
        match labels[i] {
          case Hit(idx) =>
            if idx < |metadata| {
              results := results + [metadata[idx]];
              kept := kept + [idx];
            }
          case Miss =>
        }
        i := i + 1;
      }
      assert labels[..|labels|] == labels;
      r := Ok(results);
    }

    /** A search returns at most `top_k` documents, each one of the stored documents. */
    lemma FoundBounds(query: seq<real>, topK: int)
      ensures Found(query, topK).Ok? ==>
        && |Found(query, topK).value| <= (if topK < 0 then 0 else topK)
        && forall d :: d in Found(query, topK).value ==> d in metadata
      ensures (index.None? || metadata == []) ==> Found(query, topK) == Ok([])
    {
      if index.Some? && metadata != [] && |query| == index.value.dim && topK > 0 {
        var ps := Resolved(Labels(ranking(index.value, query), topK), |metadata|);
        forall d | d in Pick(metadata, ps) ensures d in metadata {
          var k :| 0 <= k < |ps| && Pick(metadata, ps)[k] == d;
          assert metadata[ps[k]] == d;
        }
      }
    }

    /** When rows and documents are coupled and the index ranks only its own
        rows, nothing is skipped: the result is the document of each of the
        first `top_k` ranked rows, in rank order. */
    lemma FoundCoupled(query: seq<real>, topK: int)
      requires Coupled() && index.Some? && metadata != []
      requires |query| == index.value.dim && topK > 0
      requires forall k :: 0 <= k < |ranking(index.value, query)| ==> ranking(index.value, query)[k] < |index.value.rows|
      ensures var ranked := ranking(index.value, query);
        var n := if topK < |ranked| then topK else |ranked|;
        && Found(query, topK).Ok?
        && |Found(query, topK).value| == n
        && forall k :: 0 <= k < n ==> Found(query, topK).value[k] == metadata[ranked[k]]
    {
      RankedHits(metadata, ranking(index.value, query), topK);
    }
  }

  /** When every ranked position names a document, the documents picked for
      the first `k` labels are those of the first `k` ranked positions. */
  lemma RankedHits(ds: seq<Document>, ranked: seq<nat>, k: nat)
    requires forall j :: 0 <= j < |ranked| ==> ranked[j] < |ds|
    ensures var n := if k < |ranked| then k else |ranked|;
      var found := Pick(ds, Resolved(Labels(ranked, k), |ds|));
      && |found| == n
      && forall j :: 0 <= j < n ==> found[j] == ds[ranked[j]]
  {
    var n := if k < |ranked| then k else |ranked|;
    var labels := Labels(ranked, k);
    assert labels == labels[..n] + labels[n..];
    ResolvedAllHits(labels[..n], |ds|);
    ResolvedMisses(labels[..n], labels[n..], |ds|);
  }

  /** Trailing `-1` labels add nothing. */
  lemma {:induction false} ResolvedMisses(hits: seq<Label>, misses: seq<Label>, n: nat)
    requires forall k :: 0 <= k < |misses| ==> misses[k] == Miss
    ensures Resolved(hits + misses, n) == Resolved(hits, n)
    decreases |misses|
  {
    if misses != [] {
      var all := hits + misses;
      assert all[..|all| - 1] == hits + misses[..|misses| - 1];
      ResolvedMisses(hits, misses[..|misses| - 1], n);
    } else {
      assert hits + misses == hits;
    }
  }

  // ------------------------------------------------- inner-product example

  function Dot(a: seq<real>, b: seq<real>): real
    requires |a| == |b|
  {
    if a == [] then 0.0 else a[0] * b[0] + Dot(a[1..], b[1..])
  }

  /** An exact inner-product search: rows by decreasing inner product with the
      query, ties in row order. */
  function InnerProductRanking(ix: FlatIndex, query: seq<real>): seq<nat> {
    Rank(Similarities(ix.rows, query))
  }

  /** The inner product of each row with the query (rows of another width score 0). */
  function Similarities(rows: seq<seq<real>>, query: seq<real>): (s: seq<real>)
    ensures |s| == |rows|
    ensures forall i :: 0 <= i < |rows| ==> s[i] == if |rows[i]| == |query| then Dot(rows[i], query) else 0.0
  {
    seq(|rows|, i requires 0 <= i < |rows| => if |rows[i]| == |query| then Dot(rows[i], query) else 0.0)
  }

  /** Rows [1, 0], [0, 1] and [0.9, 0.1] searched with [1, 0] for two
      neighbours give the first document, then the third. */
  lemma TwoNearest(store: VectorStore)
    requires store.index == Some(ExampleIndex())
    requires |store.metadata| == 3 && store.ranking == InnerProductRanking
    ensures store.Found([1.0, 0.0], 2) == Ok([store.metadata[0], store.metadata[2]])
  {
    var q := [1.0, 0.0];
    ExampleRanking();
    assert store.ranking(ExampleIndex(), q) == [0, 2, 1];
    var labels := Labels([0, 2, 1], 2);
    assert labels == [Hit(0), Hit(2)];
    assert labels[..1] == [Hit(0)];
    assert Resolved(labels, 3) == [0, 2];
    assert Pick(store.metadata, [0, 2]) == [store.metadata[0], store.metadata[2]];
  }

  function ExampleIndex(): FlatIndex {
    FlatIndex(2, [[1.0, 0.0], [0.0, 1.0], [0.9, 0.1]])
  }

  /** The exact search ranks the example rows 0, 2, 1 for the query [1, 0]. */
  lemma ExampleRanking()
    ensures InnerProductRanking(ExampleIndex(), [1.0, 0.0]) == [0, 2, 1]
  {
    var rows := ExampleIndex().rows;
    var q := [1.0, 0.0];
    var scores := [1.0, 0.0, 0.9];
    assert Dot(rows[0], q) == 1.0 && Dot(rows[1], q) == 0.0 && Dot(rows[2], q) == 0.9;
    assert Similarities(rows, q) == scores;
    ExampleRank();
  }

  lemma ExampleRank()
    ensures Rank([1.0, 0.0, 0.9]) == [0, 2, 1]
  {
    RankOfThree([1.0, 0.0, 0.9], [0, 2, 1]);
  }
}
