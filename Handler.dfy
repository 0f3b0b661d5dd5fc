/** The example handler the façade forwards to, seen from outside: its chains, its ingestion and
    its optional document search are function values of the model, and what they raise is an
    exception value. */
module Handler {
  import opened Wrappers
  import opened Messages
  import opened Requests

  /** The exception classes the façade tells apart. `MilvusException` stands for any instance of
      pymilvus's `MilvusException`, its subclasses included, since `/generate` catches by
      `isinstance`; `MilvusUnavailableException` is that subclass named in the same clause.
      `RuntimeError`, `ValueError` and `NotImplementedError` are the builtin classes the server
      raises itself; `OtherError` is any other exception class. */
  datatype ExceptionKind =
    | MilvusException
    | MilvusUnavailableException
    | RuntimeError
    | ValueError
    | NotImplementedError
    | OtherError

  /** A raised exception; `message` is its `str(e)`. */
  datatype Exception = Exception(kind: ExceptionKind, message: string)

  /** The arguments both chains are called with: `query`, `chat_history` and the settings as
      keyword arguments. */
  datatype ChainArgs = ChainArgs(query: Option<string>, chatHistory: seq<Message>, settings: map<string, Value>)

  /** What calling a chain does: return a stream of text chunks, or raise before returning one. */
  datatype ChainResult = Returned(chunks: seq<string>) | Raised(error: Exception)

  /** One document returned by a search; its schema belongs to the handler. */
  datatype Document = Document(fields: map<string, string>)

  /** What calling the document search does. */
  datatype SearchResult = Found(documents: seq<Document>) | SearchRaised(error: Exception)

  /** A handler instance: `rag_chain`, `llm_chain`, `ingest_docs` (which returns `None` or the
      exception it raised) and `document_search`, which is `None` when the class has no callable
      attribute of that name. */
  datatype Handler = Handler(
    ragChain: ChainArgs -> ChainResult,
    llmChain: ChainArgs -> ChainResult,
    ingestDocs: (string, string) -> Option<Exception>,
    documentSearch: Option<(string, int) -> SearchResult>)
}
