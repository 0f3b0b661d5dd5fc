# Chat façade of the RAG chain server, in Dafny

This project models the request-shaping logic of the chain server in
`RetrievalAugmentedGeneration/common/server.py`. The server is an HTTP façade in front of an
"example" handler class. The handler's chains, ingestion and search are opaque collaborators. The
façade itself does five things:

- it validates the role of each chat message;
- it splits a conversation into a query and the history passed on;
- it builds the generation settings and dispatches to `rag_chain` or `llm_chain`;
- it translates errors into responses for `/generate`, `/uploadDocument` and `/documentSearch`;
- at startup, it picks the first class that offers the three handler methods.

Modules (one file each):

- `Wrappers`: `Option` and `Result`.
- `Messages`: the `Message` record and `validate_role`.
- `Requests`: the `Prompt` and `DocumentSearch` request bodies, their required fields and defaults,
  `vars(prompt)` and the `llm_settings` map.
- `History`: the query taken from the most recent user message, and the deletion loop that takes
  that message out of the history. The loop is a method over a sequence, with invariants. It is
  proved equal to the specification function `WithoutLastUser`, whose properties are lemmas.
- `Handler`: the handler instance as a record of function values, plus the exceptions it can raise
  (an enum of exception kinds and the `str(e)` text).
- `Endpoints`: `generate_answer`, `upload_document` (a method with the source's early returns) and
  `document_search`.
- `Discovery`: `import_example` over an abstract list of candidate classes.

`example` stands for the result of `app.example()`, the per-request instantiation of the handler
class. It is a `Result`, because construction may raise, and the source catches that too.
`stored` in `UploadDocument` is the exception raised while creating the upload folder or writing
the bytes, if any.

Python's `str.lower` is modelled on the characters whose lower-case form is ASCII: `A`–`Z`, and the
Kelvin sign, which lowers to `k`. Every other character is left as it is. Python lowers some of
those to other characters, but always to text that contains a non-ASCII character. The three valid
roles are ASCII and contain no `k`. So the model accepts a role exactly when Python does, and it
stores the same lower-case form.

## Model

| member | source | states |
|---|---|---|
| Messages.Lower | RetrievalAugmentedGeneration/common/server.py:63 | the lower-case form has the input's length, and each character is the lower-case form of the input character |
| Messages.LowerChar | RetrievalAugmentedGeneration/common/server.py:63 | an ASCII capital lowers to the letter 32 code points above, the Kelvin sign lowers to k, and every other character is kept |
| Messages.LowerIdempotent | RetrievalAugmentedGeneration/common/server.py:63-65 | lower-casing twice equals lower-casing once |
| Messages.ValidateRole | RetrievalAugmentedGeneration/common/server.py:60-65 | a role is accepted iff its lower-case form is user, assistant or system; the stored role is that lower-case form; otherwise the error carries the validator's message |
| Messages.ValidateRoleIdempotent | RetrievalAugmentedGeneration/common/server.py:60-65 | a stored role validates to itself |
| Messages.ValidRoleAccepted | RetrievalAugmentedGeneration/common/server.py:62-65 | each of the three valid roles is accepted unchanged |
| Messages.UpperCaseRolesNormalised | RetrievalAugmentedGeneration/common/server.py:60-65 | "USER" is stored as "user" and "Assistant" as "assistant" |
| Messages.UnknownRoleRejected | RetrievalAugmentedGeneration/common/server.py:62-64 | "bot" is rejected with the validator's message |
| Messages.MakeMessage | RetrievalAugmentedGeneration/common/server.py:55-65 | a message is built iff its role validates, and it carries the lower-cased role and the content unchanged |
| Requests.ParseMessage | RetrievalAugmentedGeneration/common/server.py:55-65 | a raw message is accepted iff both fields are present and its role is valid, and it becomes that validated message |
| Requests.ParseMessages | RetrievalAugmentedGeneration/common/server.py:69 | the message list is accepted iff every message is, and then keeps the length and the order, element by element |
| Requests.ParsePrompt | RetrievalAugmentedGeneration/common/server.py:67-77 | a prompt is accepted iff `messages` and `use_knowledge_base` are present and every message is valid; absent fields take their defaults (0.2, 0.7, 1024, 42, None, None, False) |
| Requests.DefaultsApply | RetrievalAugmentedGeneration/common/server.py:71-77 | a body with only the required fields gets temperature 0.2, top_p 0.7, max_tokens 1024, seed 42, bad and stop None, stream False |
| Requests.BadRoleRejectsPrompt | RetrievalAugmentedGeneration/common/server.py:60-69 | one message with role "bot" makes the whole prompt fail |
| Requests.Vars | RetrievalAugmentedGeneration/common/server.py:170 | `vars(prompt)` has exactly the nine prompt fields as keys |
| Requests.LlmSettings | RetrievalAugmentedGeneration/common/server.py:168-172 | the settings keys are the prompt fields less `messages` and `use_knowledge_base`, each with its value unchanged |
| Requests.LlmSettingsContents | RetrievalAugmentedGeneration/common/server.py:168-172 | the settings are exactly temperature, top_p, max_tokens, seed, bad, stop and stream, with the prompt's values |
| Requests.LlmSettingsIgnoreConversation | RetrievalAugmentedGeneration/common/server.py:168-172 | changing the messages or the knowledge-base flag does not change the settings |
| Requests.ParseDocumentSearch | RetrievalAugmentedGeneration/common/server.py:80-84 | a search body is accepted iff `content` is present; `num_docs` defaults to 4 and is kept when given |
| History.LastUserUnique | RetrievalAugmentedGeneration/common/server.py:162-165 | there is at most one position of the most recent user message |
| History.LastUserQuery | RetrievalAugmentedGeneration/common/server.py:159 | the query is None iff no message has role user; otherwise it is the content of the highest-index user message |
| History.LastUserIndex | RetrievalAugmentedGeneration/common/server.py:162-163 | the index found is the highest-index user message, and there is none iff no message has role user |
| History.RemoveAt | RetrievalAugmentedGeneration/common/server.py:164 | deleting position i shortens the list by one, keeps the elements before i, and shifts the ones after i down by one |
| History.RemoveLastUserMessage | RetrievalAugmentedGeneration/common/server.py:162-165 | the reverse loop with delete-and-break leaves exactly `WithoutLastUser` of the history |
| History.WithoutLastUser | RetrievalAugmentedGeneration/common/server.py:162-165 | the history is unchanged iff it has no user message; otherwise it is one shorter, has lost exactly one copy of the last user message (multiset), and holds no user message from that position on |
| History.WithoutLastUserRemovesOne | RetrievalAugmentedGeneration/common/server.py:162-165 | a history without user messages is unchanged; otherwise exactly the highest-index user message is removed and the rest keep their order |
| History.WithoutLastUserReinsert | RetrievalAugmentedGeneration/common/server.py:162-165 | putting the removed message back at its position gives the original history |
| History.SplitAroundLastUser | RetrievalAugmentedGeneration/common/server.py:157-165 | for `pre + [u] + post` with u a user message and no user message in post, the query is u's content and the history passed on is `pre + post` |
| History.QueryMatchesDeletion | RetrievalAugmentedGeneration/common/server.py:159-165 | there is a query iff the history passed on is one shorter; without one the history is unchanged; with one, the removed message's content is the query and no user message remains at or after its position |
| History.ExampleConversation | RetrievalAugmentedGeneration/common/server.py:157-165 | system, user "a", assistant, user "b" gives query "b" and the first three messages |
| Endpoints.PlannedCall | RetrievalAugmentedGeneration/common/server.py:168-181 | the rag chain is chosen iff the knowledge-base flag is set; the call gets the query, the history without the last user message, and exactly `LlmSettings` of the prompt |
| Endpoints.FlagChangesOnlyTheChain | RetrievalAugmentedGeneration/common/server.py:175-181 | flipping the flag changes the chain and keeps the arguments identical |
| Endpoints.GenerateSplitsConversation | RetrievalAugmentedGeneration/common/server.py:157-181 | for `pre + [u] + post`, the chosen chain receives u's content, `pre + post` and the settings |
| Endpoints.ErrorChunk | RetrievalAugmentedGeneration/common/server.py:183-189 | the Milvus chunk is used iff the exception is an instance of `MilvusException` (its subclasses included, `MilvusUnavailableException` among them); every other exception gets the chain-server chunk |
| Endpoints.Invoke | RetrievalAugmentedGeneration/common/server.py:175-180 | a rag call goes to `rag_chain` and an llm call to `llm_chain`, with the call's arguments |
| Endpoints.Respond | RetrievalAugmentedGeneration/common/server.py:173-189 | the media type is always text/event-stream; the chain's stream passes through unchanged when the call returns; the response is one error chunk when instantiating the handler or calling the chain raises |
| Endpoints.GenerateAnswer | RetrievalAugmentedGeneration/common/server.py:154-189 | the handler's steps (query, deletion loop, settings, dispatch) give `Respond` of `PlannedCall` |
| Endpoints.DispatchFollowsFlag | RetrievalAugmentedGeneration/common/server.py:175-181 | with a stub handler that streams its own chain name, the stream names rag_chain iff the flag is set |
| Endpoints.ErrorsAreOneChunk | RetrievalAugmentedGeneration/common/server.py:183-189 | on any raised exception the response is a single in-band chunk, Milvus or generic |
| Endpoints.Basename | RetrievalAugmentedGeneration/common/server.py:129 | the base name has no '/', is a suffix of the path, and is the whole path or follows a '/' |
| Endpoints.BasenameUnique | RetrievalAugmentedGeneration/common/server.py:129 | those three facts determine the base name |
| Endpoints.BasenameExamples | RetrievalAugmentedGeneration/common/server.py:129-131 | "../../etc/passwd" gives "passwd", "docs/" gives "", "report.pdf" gives itself |
| Endpoints.JoinPath | RetrievalAugmentedGeneration/common/server.py:132 | joining an absolute name gives the name; otherwise the result is the folder and the name joined directly or with one '/' between them; the result always ends with the name |
| Endpoints.UploadPath | RetrievalAugmentedGeneration/common/server.py:128-132 | a non-empty, slash-free base name is stored at `uploaded_files/<base>` |
| Endpoints.UploadPathOfBasename | RetrievalAugmentedGeneration/common/server.py:129-132 | a non-empty base name is joined as `uploaded_files/<base>` |
| Endpoints.UploadDocument | RetrievalAugmentedGeneration/common/server.py:122-149 | empty filename gives (200, "No files provided") with no ingestion; an empty base name gives (500, "Error parsing uploaded filename."); a write or instantiation error e gives (500, str(e)) with no ingestion; otherwise ingestion gets ("uploaded_files/"+base, base), then (200, "File uploaded successfully"), or (500, str(e)) if it raises; the status is always 200 or 500 |
| Endpoints.DocumentSearch | RetrievalAugmentedGeneration/common/server.py:194-206 | the handler's result is returned unchanged when `document_search` exists and returns; a non-empty result occurs only then |
| Endpoints.SearchWithoutMethodIsEmpty | RetrievalAugmentedGeneration/common/server.py:199-206 | a handler without `document_search` answers `[]` |
| Endpoints.SearchRaisingIsEmpty | RetrievalAugmentedGeneration/common/server.py:204-206 | a search that raises answers `[]` |
| Discovery.FirstQualifying | RetrievalAugmentedGeneration/common/server.py:105-113 | the index found is the first class that has all three methods and is not `BaseExample`, and there is none iff no class qualifies |
| Discovery.Qualifies | RetrievalAugmentedGeneration/common/server.py:108-110 | a qualifying class has `ingest_docs`, `llm_chain` and `rag_chain` and is not named `BaseExample` |
| Discovery.InstantiationError | RetrievalAugmentedGeneration/common/server.py:114-115 | the error is a ValueError whose text starts with "Class " followed by the class name |
| Discovery.ImportExample | RetrievalAugmentedGeneration/common/server.py:88-117 | the first qualifying class is chosen if it can be instantiated; otherwise a ValueError names it; with no qualifying class, NotImplementedError names the example directory |
| Discovery.OnlyBaseClassFails | RetrievalAugmentedGeneration/common/server.py:108-110 | `BaseExample` alone never qualifies |

## Left out

- The FastAPI application: routing, CORS middleware, async handling, JSON encoding, the 422 responses the framework sends for bodies Pydantic refuses, and the logging calls.
- Requests.ParsePrompt: reports one failing field. Pydantic collects every error in its report, and it also coerces JSON types; the model says only whether a body is accepted.
- Messages.LowerChar: lowers only `A`–`Z` and the Kelvin sign and keeps every other character, so it is not all of `str.lower` (U+0130, for one, is kept rather than expanded to two characters). Acceptance and the stored role still agree with Python, as argued above.
- Messages.Lower: lowers character by character through `Messages.LowerChar`, with the same reduced mapping.
- Streaming: a chain's stream is a finite sequence of chunks. In the source it is a lazy generator, possibly unbounded. An exception raised while the stream is consumed happens after `generate_answer` has returned, outside its `try`, and is not modelled.
- The in-place `del` on `prompt.messages`: the model works on a copy of the list. Nothing in the handler reads `prompt.messages` after the deletion (`vars(prompt)` goes through the settings filter, which drops `messages`), so no observable behaviour is lost.
- Disk I/O in the upload path (`mkdir`, `open`, `copyfileobj`): represented only by the exception it may raise. Paths follow POSIX `os.path` semantics.
- Startup discovery's `os.walk`, `importlib` and `getmembers`: replaced by the sequence of classes they yield, in the order they are met. Exceptions from `getattr` or `dir` inside the probe are not modelled, only failed instantiation.
- `temperature` and `top_p`: carried as reals that are only passed on, never computed with.
- The tracing `instrumentation_wrapper` and the internals of the handler's chains, ingestion and search: these are not part of this model. They appear only as function values and exception values.
- `num_docs` is any integer, as the code declares it. No positivity check exists in the code, so none is modelled.
- The `@validator` decorator is used at line 60 but never imported at line 29. The model gives the intended validation behaviour.
