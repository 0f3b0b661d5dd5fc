/** The three request handlers of the server: `/generate`, `/uploadDocument` and `/documentSearch`.
    `example` is the outcome of instantiating the handler class (`app.example()`), which may raise. */
module Endpoints {
  import opened Wrappers
  import opened Messages
  import opened Requests
  import opened History
  import opened Handler

  // ---------------------------------------------------------------- /generate

  /** The media type of every `/generate` response. */
  const EventStream: string := "text/event-stream"

  /** The chunk streamed when a Milvus exception was raised. */
  const MilvusErrorChunk: string :=
    "Error from milvus server. Please ensure you have ingested some documents. Please check chain-server logs for more details."

  /** The chunk streamed when any other exception was raised. */
  const ServerErrorChunk: string := "Error from chain server. Please check chain-server logs for more details."

  /** A streamed response: the chunks in the order they are sent, and the media type. */
  datatype StreamingResponse = StreamingResponse(chunks: seq<string>, mediaType: string)

  /** The two chains a prompt can be dispatched to. */
  datatype Chain = RagChain | LlmChain

  /** One chain call: which chain, and with which arguments. */
  datatype ChainCall = ChainCall(chain: Chain, args: ChainArgs)

  /** The chain call `generate_answer` makes for a prompt: the knowledge-base flag picks the chain,
      the query is the most recent user message, the history is the rest of the conversation and
      the settings are the remaining prompt fields. */
  function PlannedCall(p: Prompt): (c: ChainCall)
    ensures c.chain == RagChain <==> p.useKnowledgeBase
    ensures c.args.query == LastUserQuery(p.messages)
    ensures c.args.chatHistory == WithoutLastUser(p.messages)
    ensures c.args.settings == LlmSettings(p)
  {
    ChainCall(if p.useKnowledgeBase then RagChain else LlmChain,
              ChainArgs(LastUserQuery(p.messages), WithoutLastUser(p.messages), LlmSettings(p)))
  }

  /** Both chains are called with the same arguments: flipping the flag changes only the chain. */
  lemma FlagChangesOnlyTheChain(p: Prompt)
    ensures PlannedCall(p.(useKnowledgeBase := !p.useKnowledgeBase)).args == PlannedCall(p).args
    ensures PlannedCall(p.(useKnowledgeBase := !p.useKnowledgeBase)).chain != PlannedCall(p).chain
  {
    LlmSettingsIgnoreConversation(p, p.messages, !p.useKnowledgeBase);
  }

  /** The single chunk an exception is translated into. */
  function ErrorChunk(e: Exception): (chunk: string)
    ensures chunk == MilvusErrorChunk <==> e.kind in {MilvusException, MilvusUnavailableException}
    ensures chunk != MilvusErrorChunk ==> chunk == ServerErrorChunk
  {
    match e.kind
    case MilvusException => MilvusErrorChunk
    case MilvusUnavailableException => MilvusErrorChunk
    case _ => ServerErrorChunk
  }

  /** Call the chosen chain of a handler. */
  function Invoke(h: Handler, call: ChainCall): (r: ChainResult)
    ensures call.chain == RagChain ==> r == h.ragChain(call.args)
    ensures call.chain == LlmChain ==> r == h.llmChain(call.args)
  {
    match call.chain
    case RagChain => h.ragChain(call.args)
    case LlmChain => h.llmChain(call.args)
  }

  /** The response to a chain call: the chain's own stream when it returns one, and a single error
      chunk when instantiating the handler or calling the chain raised. */
  function Respond(example: Result<Handler, Exception>, call: ChainCall): (r: StreamingResponse)
    ensures r.mediaType == EventStream
    ensures example.Failure? ==> r.chunks == [ErrorChunk(example.error)]
    ensures example.Success? && Invoke(example.value, call).Raised? ==>
      r.chunks == [ErrorChunk(Invoke(example.value, call).error)]
    ensures example.Success? && Invoke(example.value, call).Returned? ==>
      r.chunks == Invoke(example.value, call).chunks
  {
    match example
    case Failure(e) => StreamingResponse([ErrorChunk(e)], EventStream)
    case Success(h) =>
      match Invoke(h, call)
      case Returned(chunks) => StreamingResponse(chunks, EventStream)
      case Raised(e) => StreamingResponse([ErrorChunk(e)], EventStream)
  }

  /** `generate_answer`: extract the query, delete the most recent user message, build the
      settings and dispatch. */
  method GenerateAnswer(prompt: Prompt, example: Result<Handler, Exception>) returns (resp: StreamingResponse)
    ensures resp == Respond(example, PlannedCall(prompt))
  {
    var chatHistory := prompt.messages;
    var lastUserMessage := LastUserQuery(chatHistory);
    chatHistory := RemoveLastUserMessage(chatHistory);
    var llmSettings := LlmSettings(prompt);
    var chain := if prompt.useKnowledgeBase then RagChain else LlmChain;
    resp := Respond(example, ChainCall(chain, ChainArgs(lastUserMessage, chatHistory, llmSettings)));
  }

  /** A stub handler whose chains stream their own name and never raise. */
  function RecordingHandler(): (h: Handler)
    ensures h.documentSearch.None?
  {
    Handler(
      (args: ChainArgs) => Returned(["rag_chain"]),
      (args: ChainArgs) => Returned(["llm_chain"]),
      (path: string, name: string) => None,
      None)
  }

  /** With the recording handler, the stream names the chain the flag selects. */
  lemma DispatchFollowsFlag(p: Prompt)
    ensures Respond(Success(RecordingHandler()), PlannedCall(p)).chunks ==
      (if p.useKnowledgeBase then ["rag_chain"] else ["llm_chain"])
  {
  }

  /** Errors never change the status: whatever is raised, the response is one in-band chunk, the
      Milvus one exactly for the Milvus exception classes. */
  lemma ErrorsAreOneChunk(example: Result<Handler, Exception>, p: Prompt)
    requires example.Failure? || Invoke(example.value, PlannedCall(p)).Raised?
    ensures var r := Respond(example, PlannedCall(p));
      |r.chunks| == 1 && r.mediaType == EventStream &&
      (r.chunks[0] == MilvusErrorChunk || r.chunks[0] == ServerErrorChunk)
  {
  }

  /** End to end: for a conversation `pre + [u] + post` whose last user message is `u`, the chain
      chosen by the flag receives `u`'s content as the query and `pre + post` as the history. */
  lemma GenerateSplitsConversation(p: Prompt, pre: seq<Message>, u: Message, post: seq<Message>)
    requires p.messages == pre + [u] + post
    requires u.role == UserRole && NoUser(post)
    ensures PlannedCall(p) == ChainCall(
      if p.useKnowledgeBase then RagChain else LlmChain,
      ChainArgs(Some(u.content), pre + post, LlmSettings(p)))
  {
    SplitAroundLastUser(pre, u, post);
  }

  // ---------------------------------------------------------------- /uploadDocument

  /** The folder uploads are stored in, relative to the working directory. */
  const UploadFolder: string := "uploaded_files"

  const NoFilesMessage: string := "No files provided"
  const FilenameErrorMessage: string := "Error parsing uploaded filename."
  const UploadedMessage: string := "File uploaded successfully"

  /** A JSON response `{"message": message}` with its status code. */
  datatype JsonResponse = JsonResponse(status: int, message: string)

  /** One call of `ingest_docs(file_path, filename)`. */
  datatype IngestCall = IngestCall(filePath: string, filename: string)

  /** `os.path.basename` on POSIX: the text after the last '/', which is all of `path` when it has none. */
  function Basename(path: string): (r: string)
    ensures '/' !in r
    ensures |r| <= |path|
    ensures forall i :: 0 <= i < |r| ==> r[i] == path[|path| - |r| + i]
    ensures |r| < |path| ==> path[|path| - |r| - 1] == '/'
  {
    if path == [] then []
    else if path[|path| - 1] == '/' then []
    else Basename(path[..|path| - 1]) + [path[|path| - 1]]
  }

  /** `r` is a slash-free suffix of `path` that is all of `path` or follows a '/'. */
  ghost predicate IsLastComponent(path: string, r: string)
  {
    && '/' !in r
    && |r| <= |path|
    && (forall i :: 0 <= i < |r| ==> r[i] == path[|path| - |r| + i])
    && (|r| < |path| ==> path[|path| - |r| - 1] == '/')
  }

  /** A path has only one last component. */
  lemma LastComponentUnique(path: string, b: string, r: string)
    requires IsLastComponent(path, b) && IsLastComponent(path, r)
    ensures b == r
  {
    forall j | |path| - |r| <= j < |path| ensures path[j] != '/' {
      assert path[j] == r[j - (|path| - |r|)];
    }
    forall j | |path| - |b| <= j < |path| ensures path[j] != '/' {
      assert path[j] == b[j - (|path| - |b|)];
    }
  }

  /** The base name is the only slash-free suffix that is all of `path` or follows a '/'. */
  lemma BasenameUnique(path: string, r: string)
    requires IsLastComponent(path, r)
    ensures Basename(path) == r
  {
    LastComponentUnique(path, Basename(path), r);
  }

  /** `os.path.join(folder, name)` on POSIX for two components. */
  function JoinPath(folder: string, name: string): (r: string)
    ensures |name| > 0 && name[0] == '/' ==> r == name
    ensures (|name| == 0 || name[0] != '/') ==> |r| >= |folder| && r[..|folder|] == folder
    ensures |r| >= |name| && r[|r| - |name|..] == name
    ensures (|name| == 0 || name[0] != '/') ==> r == folder + name || r == folder + "/" + name
  {
    if |name| > 0 && name[0] == '/' then name
    else if folder == [] || folder[|folder| - 1] == '/' then folder + name
    else folder + "/" + name
  }

  /** A path with separators keeps only its last component: "../../etc/passwd" becomes "passwd",
      a path ending in '/' has an empty base name, and a plain name is kept whole. */
  lemma BasenameExamples()
    ensures Basename("../../etc/passwd") == "passwd"
    ensures Basename("docs/") == ""
    ensures Basename("report.pdf") == "report.pdf"
  {
    var p := "../../etc/passwd";
    assert p[|p| - 6..] == "passwd";
    assert IsLastComponent(p, "passwd");
    BasenameUnique(p, "passwd");
    var q := "report.pdf";
    BasenameUnique(q, q);
  }

  /** Where an upload with base name `base` is stored: `os.path.join(UploadFolder, base)`. */
  function UploadPath(base: string): (path: string)
    ensures base != "" && '/' !in base ==> path == UploadFolder + "/" + base
  {
    JoinPath(UploadFolder, base)
  }

  /** A non-empty base name is stored directly under the upload folder. */
  lemma {:induction false} UploadPathOfBasename(filename: string)
    requires Basename(filename) != ""
    ensures UploadPath(Basename(filename)) == UploadFolder + "/" + Basename(filename)
  {
    var base := Basename(filename);
    assert base[0] != '/';
  }

  /** `upload_document`. `stored` is the exception raised while creating the upload folder and
      writing the bytes, if any; the write itself is not modelled. Returns the response and the
      ingestion call made, if any. */
  method UploadDocument(filename: string, stored: Option<Exception>, example: Result<Handler, Exception>)
    returns (resp: JsonResponse, ingested: Option<IngestCall>)
    ensures filename == "" ==> resp == JsonResponse(200, NoFilesMessage) && ingested.None?
    ensures filename != "" && Basename(filename) == "" ==>
      resp == JsonResponse(500, FilenameErrorMessage) && ingested.None?
    ensures filename != "" && Basename(filename) != "" && stored.Some? ==>
      resp == JsonResponse(500, stored.value.message) && ingested.None?
    ensures filename != "" && Basename(filename) != "" && stored.None? && example.Failure? ==>
      resp == JsonResponse(500, example.error.message) && ingested.None?
    ensures filename != "" && Basename(filename) != "" && stored.None? && example.Success? ==>
      && ingested == Some(IngestCall(UploadPath(Basename(filename)), Basename(filename)))
      && UploadPath(Basename(filename)) == UploadFolder + "/" + Basename(filename)
      && resp == match example.value.ingestDocs(UploadPath(Basename(filename)), Basename(filename))
                 case None => JsonResponse(200, UploadedMessage)
                 case Some(e) => JsonResponse(500, e.message)
    ensures resp.status == 200 || resp.status == 500
  {
    if filename == "" {
      return JsonResponse(200, NoFilesMessage), None;
    }
    var uploadFile := Basename(filename);
    if uploadFile == "" {
      var failure := Exception(RuntimeError, FilenameErrorMessage);
      return JsonResponse(500, failure.message), None;
    }
    var filePath := UploadPath(uploadFile);
    UploadPathOfBasename(filename);
    if stored.Some? {
      return JsonResponse(500, stored.value.message), None;
    }
    if example.Failure? {
      return JsonResponse(500, example.error.message), None;
    }
    ingested := Some(IngestCall(filePath, uploadFile));
    var raised := example.value.ingestDocs(filePath, uploadFile);
    if raised.Some? {
      resp := JsonResponse(500, raised.value.message);
    } else {
      resp := JsonResponse(200, UploadedMessage);
    }
  }

  // ---------------------------------------------------------------- /documentSearch

  /** `document_search`: the handler's result unchanged when its class has a callable
      `document_search` and the call returns; `[]` when instantiating the handler fails, the method
      is missing, or the call raises. */
  function DocumentSearch(data: DocumentSearchRequest, example: Result<Handler, Exception>): (r: seq<Document>)
    ensures (example.Success? && example.value.documentSearch.Some? &&
             example.value.documentSearch.value(data.content, data.numDocs).Found?) ==>
      r == example.value.documentSearch.value(data.content, data.numDocs).documents
    ensures r != [] ==>
      example.Success? && example.value.documentSearch.Some? &&
      example.value.documentSearch.value(data.content, data.numDocs) == Found(r)
  {
    match example
    case Failure(_) => []
    case Success(h) =>
      match h.documentSearch
      case None => []
      case Some(search) =>
        match search(data.content, data.numDocs)
        case Found(documents) => documents
        case SearchRaised(_) => []
  }

  /** A handler without `document_search`, the recording one, answers every search with `[]`. */
  lemma SearchWithoutMethodIsEmpty(data: DocumentSearchRequest)
    ensures DocumentSearch(data, Success(RecordingHandler())) == []
  {
  }

  /** A search that raises is answered with `[]`, like one that finds nothing. */
  lemma SearchRaisingIsEmpty(data: DocumentSearchRequest, h: Handler)
    requires h.documentSearch.Some? && h.documentSearch.value(data.content, data.numDocs).SearchRaised?
    ensures DocumentSearch(data, Success(h)) == []
  {
  }
}
