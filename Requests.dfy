/** The request bodies of `/generate` and `/documentSearch` (`Prompt`, `DocumentSearch`): their
    required fields, their defaults, and the generation settings derived from a prompt. */
module Requests {
  import opened Wrappers
  import opened Messages

  /** Defaults of the optional prompt fields. Floating-point values are carried as reals; the
      façade never computes with them, it only passes them on. */
  const DefaultTemperature: real := 0.2
  const DefaultTopP: real := 0.7
  const DefaultMaxTokens: int := 1024
  const DefaultSeed: int := 42
  const DefaultStream: bool := false

  /** Default of `DocumentSearch.num_docs`. */
  const DefaultNumDocs: int := 4

  /** A message as it arrives in the JSON body: either field may be missing. */
  datatype RawMessage = RawMessage(role: Option<string>, content: Option<string>)

  /** A prompt body as it arrives: `None` is a field that is absent (for `bad` and `stop`, also
      one that is given as null, which Pydantic treats the same way). */
  datatype PromptBody = PromptBody(
    messages: Option<seq<RawMessage>>,
    useKnowledgeBase: Option<bool>,
    temperature: Option<real>,
    topP: Option<real>,
    maxTokens: Option<int>,
    seed: Option<int>,
    bad: Option<seq<string>>,
    stop: Option<seq<string>>,
    stream: Option<bool>)

  /** A validated prompt: every field present, every message role valid. */
  datatype Prompt = Prompt(
    messages: seq<Message>,
    useKnowledgeBase: bool,
    temperature: real,
    topP: real,
    maxTokens: int,
    seed: int,
    bad: Option<seq<string>>,
    stop: Option<seq<string>>,
    stream: bool)

  /** Why a body was refused. */
  datatype ValidationError = MissingField(field: string) | InvalidRole(index: nat, message: string)

  /** A raw message that Pydantic turns into a `Message`: both fields present, role valid. */
  ghost predicate WellFormed(m: RawMessage)
  {
    m.role.Some? && m.content.Some? && Lower(m.role.value) in ValidRoles
  }

  /** The `Message` a well-formed raw message becomes. */
  ghost function Validated(m: RawMessage): (msg: Message)
    requires WellFormed(m)
    ensures msg.role in ValidRoles && msg.content == m.content.value
  {
    Message(Lower(m.role.value), m.content.value)
  }

  /** Validate one raw message at position `index` of the list. */
  function ParseMessage(m: RawMessage, index: nat): (r: Result<Message, ValidationError>)
    ensures r.Success? <==> WellFormed(m)
    ensures r.Success? ==> r.value == Validated(m)
  {
    if m.role.None? then Failure(MissingField("role"))
    else if m.content.None? then Failure(MissingField("content"))
    else match MakeMessage(m.role.value, m.content.value)
      case Success(msg) => Success(msg)
      case Failure(e) => Failure(InvalidRole(index, e))
  }

  /** Validate the list of messages from position `from` on: it is accepted only when every
      message is, and then keeps their order. */
  function ParseMessages(ms: seq<RawMessage>, from: nat): (r: Result<seq<Message>, ValidationError>)
    ensures r.Success? <==> forall i :: 0 <= i < |ms| ==> WellFormed(ms[i])
    ensures r.Success? ==> |r.value| == |ms| && forall i :: 0 <= i < |ms| ==> r.value[i] == Validated(ms[i])
    decreases |ms|
  {
    if ms == [] then Success([])
    else match ParseMessage(ms[0], from)
      case Failure(e) => Failure(e)
      case Success(first) =>
        match ParseMessages(ms[1..], from + 1)
        case Failure(e) => Failure(e)
        case Success(rest) =>
          assert forall i :: 1 <= i < |ms| ==> ms[i] == ms[1..][i - 1];
          Success([first] + rest)
  }

  /** Pydantic's construction of a `Prompt`: `messages` and `use_knowledge_base` are required,
      every other field takes its default when absent. */
  function ParsePrompt(body: PromptBody): (r: Result<Prompt, ValidationError>)
    ensures r.Success? <==>
      body.messages.Some? && body.useKnowledgeBase.Some? &&
      forall i :: 0 <= i < |body.messages.value| ==> WellFormed(body.messages.value[i])
    ensures body.messages.None? ==> r == Failure(MissingField("messages"))
    ensures r.Success? ==>
      && |r.value.messages| == |body.messages.value|
      && (forall i :: 0 <= i < |body.messages.value| ==> r.value.messages[i] == Validated(body.messages.value[i]))
      && r.value.useKnowledgeBase == body.useKnowledgeBase.value
      && r.value.temperature == (if body.temperature.Some? then body.temperature.value else DefaultTemperature)
      && r.value.topP == (if body.topP.Some? then body.topP.value else DefaultTopP)
      && r.value.maxTokens == (if body.maxTokens.Some? then body.maxTokens.value else DefaultMaxTokens)
      && r.value.seed == (if body.seed.Some? then body.seed.value else DefaultSeed)
      && r.value.bad == body.bad
      && r.value.stop == body.stop
      && r.value.stream == (if body.stream.Some? then body.stream.value else DefaultStream)
  {
    if body.messages.None? then Failure(MissingField("messages"))
    else
      match ParseMessages(body.messages.value, 0)
      case Failure(e) => Failure(e)
      case Success(msgs) =>
        if body.useKnowledgeBase.None? then Failure(MissingField("use_knowledge_base"))
        else Success(Prompt(
          msgs,
          body.useKnowledgeBase.value,
          if body.temperature.Some? then body.temperature.value else DefaultTemperature,
          if body.topP.Some? then body.topP.value else DefaultTopP,
          if body.maxTokens.Some? then body.maxTokens.value else DefaultMaxTokens,
          if body.seed.Some? then body.seed.value else DefaultSeed,
          body.bad,
          body.stop,
          if body.stream.Some? then body.stream.value else DefaultStream))
  }

  /** A body that gives only the two required fields gets every default. */
  lemma DefaultsApply(msgs: seq<RawMessage>, flag: bool)
    requires forall i :: 0 <= i < |msgs| ==> WellFormed(msgs[i])
    ensures var r := ParsePrompt(PromptBody(Some(msgs), Some(flag), None, None, None, None, None, None, None));
      && r.Success?
      && r.value.temperature == 0.2 && r.value.topP == 0.7
      && r.value.maxTokens == 1024 && r.value.seed == 42
      && r.value.bad == None && r.value.stop == None && r.value.stream == false
  {
  }

  /** A prompt message that Pydantic refuses makes the whole body fail. */
  lemma {:induction false} BadRoleRejectsPrompt(body: PromptBody, i: nat)
    requires body.messages.Some? && i < |body.messages.value|
    requires body.messages.value[i].role == Some("bot")
    ensures ParsePrompt(body).Failure?
  {
    UnknownRoleRejected();
    assert !WellFormed(body.messages.value[i]);
  }

  /** The value of one prompt field, as `vars(prompt)` holds it. */
  datatype Value =
    | MessagesValue(messages: seq<Message>)
    | BoolValue(b: bool)
    | FloatValue(f: real)
    | IntValue(i: int)
    | WordsValue(words: Option<seq<string>>)

  /** The names of the fields `vars(prompt)` lists. */
  const PromptFields: set<string> :=
    {"messages", "use_knowledge_base", "temperature", "top_p", "max_tokens", "seed", "bad", "stop", "stream"}

  /** The fields that are not generation settings. */
  const NonSettingFields: set<string> := {"messages", "use_knowledge_base"}

  /** `vars(prompt)`: every field of the prompt under its Python name. */
  function Vars(p: Prompt): (v: map<string, Value>)
    ensures v.Keys == PromptFields
  {
    map[
      "messages" := MessagesValue(p.messages),
      "use_knowledge_base" := BoolValue(p.useKnowledgeBase),
      "temperature" := FloatValue(p.temperature),
      "top_p" := FloatValue(p.topP),
      "max_tokens" := IntValue(p.maxTokens),
      "seed" := IntValue(p.seed),
      "bad" := WordsValue(p.bad),
      "stop" := WordsValue(p.stop),
      "stream" := BoolValue(p.stream)]
  }

  /** `llm_settings`: the prompt's fields, less `messages` and `use_knowledge_base`. */
  function LlmSettings(p: Prompt): (s: map<string, Value>)
    ensures s.Keys == PromptFields - NonSettingFields
    ensures forall k :: k in s ==> s[k] == Vars(p)[k]
  {
    var fields := Vars(p);
    map k | k in fields && k !in NonSettingFields :: fields[k]
  }

  /** The settings are exactly the seven generation parameters, each with the prompt's value. */
  lemma LlmSettingsContents(p: Prompt)
    ensures LlmSettings(p) == map[
      "temperature" := FloatValue(p.temperature),
      "top_p" := FloatValue(p.topP),
      "max_tokens" := IntValue(p.maxTokens),
      "seed" := IntValue(p.seed),
      "bad" := WordsValue(p.bad),
      "stop" := WordsValue(p.stop),
      "stream" := BoolValue(p.stream)]
  {
    var expected := map[
      "temperature" := FloatValue(p.temperature),
      "top_p" := FloatValue(p.topP),
      "max_tokens" := IntValue(p.maxTokens),
      "seed" := IntValue(p.seed),
      "bad" := WordsValue(p.bad),
      "stop" := WordsValue(p.stop),
      "stream" := BoolValue(p.stream)];
    assert expected.Keys == PromptFields - NonSettingFields;
  }

  /** The settings do not depend on the conversation or on the knowledge-base flag. */
  lemma LlmSettingsIgnoreConversation(p: Prompt, messages: seq<Message>, flag: bool)
    ensures LlmSettings(p.(messages := messages, useKnowledgeBase := flag)) == LlmSettings(p)
  {
    LlmSettingsContents(p);
    LlmSettingsContents(p.(messages := messages, useKnowledgeBase := flag));
  }

  /** A document-search body as it arrives. */
  datatype DocumentSearchBody = DocumentSearchBody(content: Option<string>, numDocs: Option<int>)

  /** A validated document-search request. */
  datatype DocumentSearchRequest = DocumentSearchRequest(content: string, numDocs: int)

  /** Pydantic's construction of a `DocumentSearch`: `content` is required, `num_docs` defaults to 4. */
  function ParseDocumentSearch(body: DocumentSearchBody): (r: Result<DocumentSearchRequest, ValidationError>)
    ensures r.Success? <==> body.content.Some?
    ensures r.Failure? ==> r.error == MissingField("content")
    ensures r.Success? ==> r.value.content == body.content.value
    ensures r.Success? && body.numDocs.None? ==> r.value.numDocs == 4
    ensures r.Success? && body.numDocs.Some? ==> r.value.numDocs == body.numDocs.value
  {
    if body.content.None? then Failure(MissingField("content"))
    else Success(DocumentSearchRequest(body.content.value, if body.numDocs.Some? then body.numDocs.value else DefaultNumDocs))
  }
}
