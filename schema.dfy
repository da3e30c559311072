/** The document record shared by every stage of the pipeline. */
module Schema {
  import opened PyText

  /** A metadata value: the pipeline stores strings, integers, floats and None. */
  datatype Value = Str(s: string) | Int(i: int) | Real(r: real) | Null

  /** A metadata dictionary. */
  type Metadata = map<string, Value>

  const SourceKey: string := "source"
  const UnknownSource: string := "unknown"
  const FileNameKey: string := "file_name"
  const PageNumberKey: string := "page_number"
  const ChunkIndexKey: string := "chunk_index"

  /** `metadata.get(key, default)`. */
  function Get(m: Metadata, key: string, default: Value): Value {
    if key in m then m[key] else default
  }

  /** `str(v)` as an f-string renders a value; a float is rendered by a
      placeholder (Python's shortest-repr algorithm is not modelled). */
  function Render(v: Value): string {
    match v
    case Str(s) => s
    case Int(i) => IntToString(i)
    case Null => "None"
    case Real(_) => "<float>"
  }

  /** What `__post_init__` leaves in the dictionary: a "source" entry is
      guaranteed, an existing one is kept, and no other key is touched. */
  function WithDefaultSource(m: Metadata): (r: Metadata)
    ensures SourceKey in r
    ensures r[SourceKey] == (if SourceKey in m then m[SourceKey] else Str(UnknownSource))
    ensures forall k :: k != SourceKey ==> (k in r <==> k in m)
    ensures forall k :: k in m && k != SourceKey ==> r[k] == m[k]
  {
    if SourceKey in m then m else m[SourceKey := Str(UnknownSource)]
  }

  /** A document created without metadata has exactly `{"source": "unknown"}`. */
  lemma DefaultMetadata()
    ensures WithDefaultSource(map[]) == map[SourceKey := Str(UnknownSource)]
  {
  }

  /** A piece of text with its metadata. The dictionary is updated in place
      (by `__post_init__` and later by the reranker), so a document is an object. */
  class Document {
    /** Never reassigned by any operation modelled here. */
    const content: string
    var metadata: Metadata

    constructor (content: string, metadata: Metadata)
      ensures this.content == content
      ensures this.metadata == WithDefaultSource(metadata)
    {
      this.content := content;
      this.metadata := metadata;
      new;
      if SourceKey !in this.metadata {
        this.metadata := this.metadata[SourceKey := Str(UnknownSource)];
      }
    }
  }

  /** A document's content and metadata as a value: what a `Document` holds
      at one moment. */
  datatype Chunk = Chunk(content: string, metadata: Metadata)

  /** The content and metadata of each document, in order. */
  function Snapshot(ds: seq<Document>): (cs: seq<Chunk>)
    reads ds
    ensures |cs| == |ds|
    ensures forall k :: 0 <= k < |ds| ==> cs[k] == Chunk(ds[k].content, ds[k].metadata)
  {
    if ds == [] then [] else Snapshot(ds[..|ds| - 1]) + [Chunk(ds[|ds| - 1].content, ds[|ds| - 1].metadata)]
  }

  /** The snapshot of two lists is the snapshot of each, in turn. */
  lemma SnapshotConcat(ds: seq<Document>, es: seq<Document>)
    ensures Snapshot(ds + es) == Snapshot(ds) + Snapshot(es)
  {
    var all := ds + es;
    var a, b, c := Snapshot(all), Snapshot(ds), Snapshot(es);
    forall k | 0 <= k < |all| ensures a[k] == (b + c)[k] {
      if k < |ds| {
        assert all[k] == ds[k];
      } else {
        assert all[k] == es[k - |ds|];
      }
    }
  }

  /** One more document adds its content and metadata at the end. */
  lemma SnapshotAppend(ds: seq<Document>, d: Document)
    ensures Snapshot(ds + [d]) == Snapshot(ds) + [Chunk(d.content, d.metadata)]
  {
    assert (ds + [d])[..|ds|] == ds;
  }
}
