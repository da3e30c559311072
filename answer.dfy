/** The answer engine: retrieval with reranking, the RAG prompt, and one
    call of the local language model. */
module Answering {
  import opened Wrappers
  import opened Schema
  import opened Prompt
  import opened Retrieval

  /** The reply when retrieval finds nothing. */
  const NoDocuments: string := "No relevant documents found in the knowledge base."

  const SystemRole: string := "system"
  const UserRole: string := "user"

  /** The defaults of `answer`: `top_k`, `top_n` and no file filter. */
  const DefaultAnswerTopK: int := 10
  const DefaultAnswerTopN: int := 3

  /** One chat message: a role and its content. */
  datatype Message = Message(role: string, content: string)

  /** The chat sent to the model: the system prompt first when it is not
      empty, then the user's prompt. */
  function Messages(prompt: string, systemPrompt: string): (ms: seq<Message>)
    ensures |ms| == (if systemPrompt == "" then 1 else 2)
    ensures ms[|ms| - 1] == Message(UserRole, prompt)
    ensures systemPrompt != "" ==> ms[0] == Message(SystemRole, systemPrompt)
  {
    (if systemPrompt != "" then [Message(SystemRole, systemPrompt)] else []) + [Message(UserRole, prompt)]
  }

  /** The answer engine always sends the system prompt ahead of the user's prompt. */
  lemma AnswerMessages(prompt: string)
    ensures Messages(prompt, SystemPrompt) == [Message(SystemRole, SystemPrompt), Message(UserRole, prompt)]
  {
    assert |SystemPrompt| > 0;
  }

  /** The local chat model. Its reply to a chat, including the error text it
      returns when the chat fails, is a fixed function of the messages. */
  class LanguageModel {
    const reply: seq<Message> -> string
    /** The chats sent so far. */
    ghost var sent: seq<seq<Message>>

    constructor (reply: seq<Message> -> string)
      ensures this.reply == reply && sent == []
    {
      this.reply := reply;
      sent := [];
    }

    /** `generate`: one chat of the messages for the prompt and system prompt. */
    method Generate(prompt: string, systemPrompt: string) returns (text: string)
      modifies this
      ensures sent == old(sent) + [Messages(prompt, systemPrompt)]
      ensures text == reply(Messages(prompt, systemPrompt))
    {
      var messages := Messages(prompt, systemPrompt);
      sent := sent + [messages];
      text := reply(messages);
    }
  }

  class AnswerEngine {
    const retriever: Retriever
    const llm: LanguageModel
    /** `SYSTEM_PROMPT` and `build_rag_prompt` of the prompt module, which
        every answer uses (the constructor says so); held here so that an
        answer is stated in terms of them without unfolding the prompt text. */
    const systemPrompt: string
    const buildPrompt: (string, seq<Chunk>) -> string

    constructor (retriever: Retriever, llm: LanguageModel)
      ensures this.retriever == retriever && this.llm == llm
      ensures systemPrompt == SystemPrompt && buildPrompt == BuildRagPrompt
    {
      this.retriever := retriever;
      this.llm := llm;
      systemPrompt := SystemPrompt;
      buildPrompt := BuildRagPrompt;
    }

    /** `answer`: retrieval always asks for reranking. A failed retrieval
        raises and the model is not asked; no documents give the fixed reply
        and no sources, without asking the model; otherwise the model is asked
        exactly once, with the system prompt and the RAG prompt over the
        retrieved documents as they are after reranking, and its reply comes
        back with those documents as the sources. The sources carry their
        "rerank_score" when the reranker ran, every other stored document
        keeps its metadata, and the cross-encoder is called once exactly when
        reranking happens. */
    method Answer(query: string, topK: int, topN: int, fileFilters: Option<seq<string>>)
      returns (r: Result<(string, seq<Document>)>, ghost found: Result<seq<Document>>, ghost candidates: Result<seq<Document>>)
      modifies retriever, retriever.store.metadata, retriever.Model(), llm
      ensures found.Err? ==> r == Err(found.error) && llm.sent == old(llm.sent)
      ensures found == Ok([]) ==> r == Ok((NoDocuments, [])) && llm.sent == old(llm.sent)
      ensures found.Ok? && found.value != [] ==>
        var prompt := buildPrompt(query, Snapshot(found.value));
        && llm.sent == old(llm.sent) + [Messages(prompt, systemPrompt)]
        && r == Ok((llm.reply(Messages(prompt, systemPrompt)), found.value))
      ensures found == retriever.Outcome(candidates, query, topN, true)
      ensures candidates == old(retriever.Candidates(query, topK, fileFilters))
      ensures retriever.requests == old(retriever.requests) + [Request(query, topK, topN, true, fileFilters)]
      ensures forall d :: d in retriever.store.metadata ==>
        d.metadata == Stamped(old(d.metadata), candidates.Ok? && retriever.Reranks(true, candidates.value) && found.Ok? && d in found.value,
                              retriever.Score(query, d.content))
      ensures retriever.reranker.Some? ==>
        retriever.reranker.value.model.calls
          == old(retriever.reranker.value.model.calls) + (if candidates.Ok? && retriever.Reranks(true, candidates.value) then 1 else 0)
    {
      var docs;
      docs, candidates := retriever.Retrieve(query, topK, topN, true, fileFilters);
      found := docs;
      r := Reply(query, docs);
    }

    /** The part of `answer` after retrieval: the error, the fixed reply for
        no documents, or the model's reply over the documents. */
    method Reply(query: string, docs: Result<seq<Document>>) returns (r: Result<(string, seq<Document>)>)
      modifies llm
      ensures docs.Err? ==> r == Err(docs.error) && llm.sent == old(llm.sent)
      ensures docs == Ok([]) ==> r == Ok((NoDocuments, [])) && llm.sent == old(llm.sent)
      ensures docs.Ok? && docs.value != [] ==>
        var prompt := buildPrompt(query, Snapshot(docs.value));
        && llm.sent == old(llm.sent) + [Messages(prompt, systemPrompt)]
        && r == Ok((llm.reply(Messages(prompt, systemPrompt)), docs.value))
    {
      if docs.Err? {
        return Err(docs.error);
      }
      if docs.value == [] {
        return Ok((NoDocuments, []));
      }
      var shown := Snapshot(docs.value);
      var prompt := buildPrompt(query, shown);
      var text := llm.Generate(prompt, systemPrompt);
      assert Snapshot(docs.value) == shown;
      r := Ok((text, docs.value));
    }
  }
}
