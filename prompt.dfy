/** The prompt sent to the language model: the fixed system prompt, the
    retrieved documents rendered as numbered context blocks, and the user
    prompt that wraps them around the query. */
module Prompt {
  import opened PyText
  import opened Schema

  /** `SYSTEM_PROMPT`, character for character (the first line ends in a space). */
  const SystemPrompt: string :=
    "You are a precise knowledge base assistant. \n"
    + "Your task is to answer the user's question strictly based on the provided context documents.\n"
    + "\n"
    + "Rules:\n"
    + "1. Use ONLY the information from the context. Do not use outside knowledge.\n"
    + "2. If the answer is not present in the context, state clearly: \"I cannot find the answer in the provided documents.\"\n"
    + "3. Cite your sources DETAILEDLY. Append the reference at the end of the sentence.\n"
    + "   - Format: [Source: filename, Page: X] (if Page is available)\n"
    + "   - Or: [Source: filename] (if Page is N/A)\n"
    + "4. IMPORTANT: Answer in the SAME LANGUAGE as the user's question. If the user asks in Chinese, answer in Chinese.\n"
    + "5. Keep the answer concise and relevant.\n"

  /** The default that `format_context` reads for a missing page or chunk. */
  const NotAvailable: Value := Str("N/A")

  /** The source shown for a document: "source", or "Unknown" when absent. */
  function ShownSource(m: Metadata): Value {
    Get(m, SourceKey, Str("Unknown"))
  }

  /** A page or chunk entry is shown iff it is present and not the string "N/A". */
  predicate Shown(m: Metadata, key: string) {
    Get(m, key, NotAvailable) != NotAvailable
  }

  // ------------------------------------------------------------ location

  /** "<name>: <value>", as the f-strings of `format_context` render an entry. */
  function Labelled(name: string, v: Value): string {
    name + ": " + Render(v)
  }

  /** The location string as `format_context` builds it: the source, then a
      page part and a chunk part, each appended only when shown. */
  function LocationInfo(m: Metadata): string {
    var loc := Labelled("Source", ShownSource(m));
    var loc := if Shown(m, PageNumberKey) then loc + ", " + Labelled("Page", m[PageNumberKey]) else loc;
    if Shown(m, ChunkIndexKey) then loc + ", " + Labelled("Chunk", m[ChunkIndexKey]) else loc
  }

  /** One labelled entry of a location: "<label>: <value>". */
  datatype Field = Field(name: string, value: Value)

  function FieldText(f: Field): string {
    Labelled(f.name, f.value)
  }

  /** The entries a location lists, in order: always the source, then the page
      and the chunk exactly when they are shown. */
  function LocationFields(m: Metadata): (fs: seq<Field>)
    ensures 1 <= |fs| <= 3 && fs[0] == Field("Source", ShownSource(m))
    ensures Shown(m, PageNumberKey) <==> Field("Page", Get(m, PageNumberKey, NotAvailable)) in fs
    ensures Shown(m, ChunkIndexKey) <==> Field("Chunk", Get(m, ChunkIndexKey, NotAvailable)) in fs
    ensures Shown(m, PageNumberKey) ==> fs[1] == Field("Page", m[PageNumberKey])
    ensures Shown(m, ChunkIndexKey) ==> fs[|fs| - 1] == Field("Chunk", m[ChunkIndexKey])
  {
    [Field("Source", ShownSource(m))]
    + (if Shown(m, PageNumberKey) then [Field("Page", m[PageNumberKey])] else [])
    + (if Shown(m, ChunkIndexKey) then [Field("Chunk", m[ChunkIndexKey])] else [])
  }

  /** The location string is the list of shown entries joined with ", ". */
  lemma LocationIsFieldList(m: Metadata)
    ensures LocationInfo(m) == Join(", ", FieldTexts(LocationFields(m)))
  {
    var ts := FieldTexts(LocationFields(m));
    var page, chunk := Shown(m, PageNumberKey), Shown(m, ChunkIndexKey);
    if page && chunk {
      JoinThree(", ", ts);
    } else if page || chunk {
      JoinTwo(", ", ts);
    }
  }

  lemma JoinTwo(sep: string, ts: seq<string>)
    requires |ts| == 2
    ensures Join(sep, ts) == ts[0] + sep + ts[1]
  {
    assert ts[1..] == [ts[1]];
  }

  lemma JoinThree(sep: string, ts: seq<string>)
    requires |ts| == 3
    ensures Join(sep, ts) == ts[0] + sep + ts[1] + sep + ts[2]
  {
    JoinTwo(sep, ts[1..]);
  }

  function FieldTexts(fs: seq<Field>): (ts: seq<string>)
    ensures |ts| == |fs|
  {
    seq(|fs|, k requires 0 <= k < |fs| => FieldText(fs[k]))
  }

  // ------------------------------------------------------------- context

  /** The context block of the `number`-th document (numbering starts at 1). */
  function Block(c: Chunk, number: nat): string {
    "[Document " + NatToString(number) + "] (" + LocationInfo(c.metadata) + ")\n" + Strip(c.content)
  }

  /** What a block shows: its number, which reads back as `number`, its
      location in parentheses, and then the stripped content on its own line. */
  lemma BlockShape(c: Chunk, number: nat)
    ensures var b := Block(c, number);
      var digits := NatToString(number);
      var loc := LocationInfo(c.metadata);
      && |b| == 15 + |digits| + |loc| + |Strip(c.content)|
      && b[..10] == "[Document "
      && b[10..10 + |digits|] == digits && DecimalValue(b[10..10 + |digits|]) == number
      && b[10 + |digits|..13 + |digits|] == "] ("
      && b[13 + |digits|..13 + |digits| + |loc|] == loc
      && b[13 + |digits| + |loc|..15 + |digits| + |loc|] == ")\n"
      && b[15 + |digits| + |loc|..] == Strip(c.content)
  {
    FiveParts("[Document ", NatToString(number), "] (", LocationInfo(c.metadata), ")\n", Strip(c.content));
    DecimalValueOfNatToString(number);
  }

  /** Where each part of a concatenation of six strings lies. */
  lemma FiveParts(a: string, b: string, c: string, d: string, e: string, f: string)
    ensures var s := a + b + c + d + e + f;
      var i1 := |a|;
      var i2 := i1 + |b|;
      var i3 := i2 + |c|;
      var i4 := i3 + |d|;
      var i5 := i4 + |e|;
      && |s| == i5 + |f|
      && s[..i1] == a && s[i1..i2] == b && s[i2..i3] == c
      && s[i3..i4] == d && s[i4..i5] == e && s[i5..] == f
  {
  }

  /** The blocks of `cs`, numbered from 1 in input order. */
  function Blocks(cs: seq<Chunk>): (bs: seq<string>)
    ensures |bs| == |cs|
  {
    seq(|cs|, k requires 0 <= k < |cs| => Block(cs[k], k + 1))
  }

  /** `format_context`: the blocks joined with a blank line between them. */
  function FormatContext(cs: seq<Chunk>): string {
    Join("\n\n", Blocks(cs))
  }

  /** The context is empty exactly when there are no documents. */
  lemma EmptyContext(cs: seq<Chunk>)
    ensures FormatContext(cs) == "" <==> cs == []
  {
    if cs != [] {
      JoinFirstChar("\n\n", Blocks(cs));
    }
  }

  /** One more document adds a blank line and its block, numbered after the rest. */
  lemma FormatContextSnoc(cs: seq<Chunk>, c: Chunk)
    requires cs != []
    ensures FormatContext(cs + [c]) == FormatContext(cs) + "\n\n" + Block(c, |cs| + 1)
  {
    assert Blocks(cs + [c]) == Blocks(cs) + [Block(c, |cs| + 1)];
    JoinSnoc("\n\n", Blocks(cs), Block(c, |cs| + 1));
  }

  /** A single document's context is its block, numbered 1. */
  lemma SingleContext(c: Chunk)
    ensures FormatContext([c]) == Block(c, 1)
  {
    assert Blocks([c]) == [Block(c, 1)];
  }

  // -------------------------------------------------------------- prompt

  const Delimiter: string := "---------------------"

  /** What precedes the context in the user prompt. */
  const PromptHead: string := "Context information is below:\n" + Delimiter + "\n"

  /** The delimiter line that closes the context. */
  const Closing: string := "\n" + Delimiter + "\n"

  /** The last line of the prompt. */
  function QueryLine(query: string): string {
    "Query: " + query + "\n"
  }


  const Instruction: string := "\nGiven the context information and not prior knowledge, answer the query.\n"

  /** The f-string of `build_rag_prompt` around a rendered context. */
  function UserPrompt(query: string, context: string): string {
    PromptHead + context + Closing + Instruction + QueryLine(query)
  }

  /** `build_rag_prompt`. */
  function BuildRagPrompt(query: string, cs: seq<Chunk>): string {
    UserPrompt(query, FormatContext(cs))
  }

  /** The context sits between the two delimiter lines, and the prompt ends
      with the query line. */
  lemma PromptLayout(query: string, context: string)
    ensures var p := UserPrompt(query, context);
      var h := |PromptHead|;
      var q := QueryLine(query);
      && |p| >= h + |context| + |Closing| + |q|
      && p[..h] == PromptHead
      && p[h..h + |context|] == context
      && p[h + |context|..h + |context| + |Closing|] == Closing
      && p[|p| - |q|..] == q
  {
    Framed(PromptHead, context, Closing, Instruction, QueryLine(query));
  }

  /** Where the head, the context, the closing line and the last line lie. */
  lemma Framed(head: string, ctx: string, close: string, instr: string, q: string)
    ensures var p := head + ctx + close + instr + q;
      && |p| >= |head| + |ctx| + |close| + |q|
      && p[..|head|] == head
      && p[|head|..|head| + |ctx|] == ctx
      && p[|head| + |ctx|..|head| + |ctx| + |close|] == close
      && p[|p| - |q|..] == q
  {
  }
}
