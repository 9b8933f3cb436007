/** Backend dispatch and prompt assembly: which language-model backend a
    model configuration selects, how many GPUs a local model is given, and
    what is sent to the model for one chat turn. The model itself, the
    prompt template's formatting and the `ollama pull` download are outside
    the model: the formatter is a parameter and a request is returned in
    place of the model's answer. */
module ModelUtils {
  import opened Wrappers
  import opened Strings
  import opened Json
  import ConfigValidator

  /** The two supported backends: a hosted OpenAI chat model and a local
      Ollama model. */
  datatype Backend = Remote | Local

  const Unsupported := ValueError("Model configuration not yet supported.")

  /** `model_config["model_source"]`: a `KeyError` when the key is absent. */
  function Source(c: Dict): (r: Result<Json>)
    ensures r.Ok? <==> Has(c, "model_source")
    ensures r.Ok? ==> Lookup(c, "model_source") == Some(r.value)
    ensures r.Raised? ==> r.error == KeyError("model_source")
  {
    match Lookup(c, "model_source")
    case Some(v) => Ok(v)
    case None => Raised(KeyError("model_source"))
  }

  /** `model_config.get("use_remote_model", False)`, read as a condition. */
  predicate WantsRemote(c: Dict) {
    Truthy(Get(c, "use_remote_model", JBool(false)))
  }

  /** `load_model`'s choice of constructor, evaluating the two conditions
      the way Python does: the source is read by whichever condition is
      reached first with a true left operand, so an absent source raises
      `KeyError` either way. */
  function LoadModelBranch(c: Dict): (r: Result<Backend>)
    ensures r == Ok(Remote) <==> WantsRemote(c) && Lookup(c, "model_source") == Some(JStr(ConfigValidator.OpenAI))
    ensures r == Ok(Local) <==> !WantsRemote(c) && Lookup(c, "model_source") == Some(JStr(ConfigValidator.Ollama))
    ensures r == Raised(KeyError("model_source")) <==> !Has(c, "model_source")
    ensures r == Raised(Unsupported) <==>
              Has(c, "model_source") && r != Ok(Remote) && r != Ok(Local)
  {
    if WantsRemote(c) then
      var source :- Source(c);
      if source == JStr(ConfigValidator.OpenAI) then Ok(Remote) else Raised(Unsupported)
    else
      var source :- Source(c);
      if source == JStr(ConfigValidator.Ollama) then Ok(Local) else Raised(Unsupported)
  }

  /** The shell command `_pull_ollama_model` runs before a local model is
      loaded. */
  function PullCommand(c: Dict): (r: Result<string>)
    ensures r.Ok? <==> Has(c, "model_name")
    ensures r.Raised? ==> r.error == KeyError("model_name")
    ensures r.Ok? ==> r.value == "ollama pull " + Str(At(c, "model_name"))
  {
    match Lookup(c, "model_name")
    case None => Raised(KeyError("model_name"))
    case Some(name) => Ok("ollama pull " + Str(name))
  }

  /** The `num_gpu` argument `_load_ollama_model` passes to the local
      model: the configured count (1 when absent) if `use_gpu` is truthy,
      and 0 otherwise. */
  function OllamaGpuCount(c: Dict): (r: Json)
    ensures !Has(c, "use_gpu") ==> r == JInt(0)
    ensures Has(c, "use_gpu") && !Truthy(At(c, "use_gpu")) ==> r == JInt(0)
    ensures Has(c, "use_gpu") && Truthy(At(c, "use_gpu")) ==>
              r == (if Has(c, "num_gpu") then At(c, "num_gpu") else JInt(1))
  {
    if Truthy(Get(c, "use_gpu", JBool(false))) then Get(c, "num_gpu", JInt(1)) else JInt(0)
  }

  /** A configuration the validator accepts gives a local model an integer
      GPU count (Python's `bool` included, since it is an `int`). */
  lemma ValidatedGpuCountIsInteger(c: Dict, apiKey: Option<string>)
    requires ConfigValidator.ValidateModel(c, apiKey).isValid
    requires LoadModelBranch(c) == Ok(Local)
    ensures IsInstance(OllamaGpuCount(c), KInt)
  {
    assert !ConfigValidator.ModelIssueApplies(c, apiKey, ConfigValidator.Missing("use_remote_model"));
    assert ConfigValidator.LocalOllama(c);
    assert !ConfigValidator.ModelIssueApplies(c, apiKey, ConfigValidator.WrongType("num_gpu", KInt, true));
    assert ("num_gpu", KInt) in ConfigValidator.OllamaFields;
  }

  /** The validator does not tie `use_remote_model` to the source: a remote
      Ollama configuration with well-typed fields passes validation, with or
      without the credential, yet loading it fails as not supported. */
  lemma ValidatedButUnsupported(c: Dict, apiKey: Option<string>)
    requires Lookup(c, "use_remote_model") == Some(JBool(true))
    requires Lookup(c, "model_source") == Some(JStr(ConfigValidator.Ollama))
    requires Has(c, "model_name") && At(c, "model_name").JStr?
    requires Has(c, "model_parameters") && At(c, "model_parameters").JObj?
    ensures ConfigValidator.ValidateModel(c, apiKey).isValid
    ensures LoadModelBranch(c) == Raised(Unsupported)
  {
    ConfigValidator.RequiredFieldsPass(c, true, ConfigValidator.Ollama);
    ConfigValidator.ModelIssuesAfterRequired(c, apiKey);
    assert !ConfigValidator.RemoteOpenAI(c) && !ConfigValidator.LocalOllama(c);
    ConfigValidator.NoIssuesIsValid(c, apiKey);
  }

  // ---------------------------------------------------------------------
  // One chat turn

  /** One entry of the chat history the UI keeps: a role and its text. */
  datatype Turn = Turn(role: string, content: string)

  /** A message of the remote backend's chat format. */
  datatype ChatMessage = HumanMessage(content: string) | AIMessage(content: string)

  /** What one chat turn sends: a message list to the remote chat model, or
      one input string to the local prompt-template chain. */
  datatype Request = ChatRequest(messages: seq<ChatMessage>) | ChainRequest(input: string)

  /** `model_config.get("send_chat_history", True)`, read as a condition. */
  predicate SendChatHistory(c: Dict): (r: bool)
    ensures !Has(c, "send_chat_history") ==> r
    ensures Has(c, "send_chat_history") ==> (r <==> Truthy(At(c, "send_chat_history")))
  {
    Truthy(Get(c, "send_chat_history", JBool(true)))
  }

  /** Both response builders include the history exactly when sending it is
      enabled and the history is neither `None` nor empty. */
  predicate UsesHistory(send: bool, history: Option<seq<Turn>>) {
    send && history.Some? && |history.value| > 0
  }

  /** A history entry in the remote format: `"user"` becomes a human message
      and every other role an AI message. */
  function ToChatMessage(t: Turn): (r: ChatMessage)
    ensures r.content == t.content
    ensures r.HumanMessage? <==> t.role == "user"
  {
    if t.role == "user" then HumanMessage(t.content) else AIMessage(t.content)
  }

  /** The message list `_get_open_ai_response` sends: the history, when it
      is used, in order, then the formatted prompt as a human message. */
  function OpenAIMessages(prompt: string, history: Option<seq<Turn>>, send: bool): (r: seq<ChatMessage>)
    ensures !UsesHistory(send, history) ==> r == [HumanMessage(prompt)]
    ensures UsesHistory(send, history) ==> |r| == |history.value| + 1
    ensures UsesHistory(send, history) ==>
              forall i :: 0 <= i < |history.value| ==>
                r[i].content == history.value[i].content
                && (r[i].HumanMessage? <==> history.value[i].role == "user")
    ensures r[|r| - 1] == HumanMessage(prompt)
  {
    var past := if UsesHistory(send, history) then history.value else [];
    seq(|past|, i requires 0 <= i < |past| => ToChatMessage(past[i])) + [HumanMessage(prompt)]
  }

  /** Reading a remote message back as a history entry. */
  function ToTurn(m: ChatMessage): Turn {
    match m
    case HumanMessage(text) => Turn("user", text)
    case AIMessage(text) => Turn("assistant", text)
  }

  /** A history in the UI's own format: every role is "user" or
      "assistant". */
  predicate WellFormedHistory(h: seq<Turn>) {
    forall i :: 0 <= i < |h| ==> h[i].role == "user" || h[i].role == "assistant"
  }

  /** Nothing of a well-formed history is lost in the remote format: the
      messages before the prompt read back as the original history. */
  lemma OpenAIMessagesKeepHistory(prompt: string, h: seq<Turn>)
    requires |h| > 0 && WellFormedHistory(h)
    ensures var r := OpenAIMessages(prompt, Some(h), true);
            |r| == |h| + 1 && forall i :: 0 <= i < |h| ==> ToTurn(r[i]) == h[i]
  {
    var r := OpenAIMessages(prompt, Some(h), true);
    forall i | 0 <= i < |h|
      ensures ToTurn(r[i]) == h[i]
    {
      assert r[i] == ToChatMessage(h[i]);
    }
  }

  /** A history entry as a transcript line: `User: …` for the role "user",
      `Assistant: …` for every other role. */
  function TranscriptLine(t: Turn): (r: string)
    ensures t.role == "user" ==> r == "User: " + t.content
    ensures t.role != "user" ==> r == "Assistant: " + t.content
  {
    (if t.role == "user" then "User" else "Assistant") + ": " + t.content
  }

  function TranscriptLines(h: seq<Turn>): (r: seq<string>)
    ensures |r| == |h|
    ensures forall i :: 0 <= i < |h| ==> r[i] == TranscriptLine(h[i])
  {
    seq(|h|, i requires 0 <= i < |h| => TranscriptLine(h[i]))
  }

  const TranscriptHeading := "Previous conversation:\n"

  /** The string `_get_ollama_response` hands to the prompt-template chain:
      the message alone, or a transcript of the history followed by a blank
      line and the message. */
  function OllamaInput(message: string, history: Option<seq<Turn>>, send: bool): (r: string)
    ensures !UsesHistory(send, history) ==> r == message
    ensures UsesHistory(send, history) ==>
              r == TranscriptHeading + Join("\n", TranscriptLines(history.value)) + "\n\n" + message
  {
    var context :=
      if UsesHistory(send, history) then
        TranscriptHeading + Join("\n", TranscriptLines(history.value)) + "\n\n"
      else "";
    context + message
  }

  /** The local input always ends with the user's message, and starts with
      the transcript heading whenever the history is used. (The converse
      fails: a message that itself starts with the heading.) */
  lemma OllamaInputFrame(message: string, history: Option<seq<Turn>>, send: bool)
    ensures var r := OllamaInput(message, history, send);
            |message| <= |r| && r[|r| - |message|..] == message
            && (UsesHistory(send, history) ==> IsPrefix(TranscriptHeading, r))
  {
    var r := OllamaInput(message, history, send);
    if UsesHistory(send, history) {
      var context := TranscriptHeading + Join("\n", TranscriptLines(history.value)) + "\n\n";
      assert r == context + message;
      assert r[..|TranscriptHeading|] == TranscriptHeading;
    }
  }

  /** Every history entry appears, as its transcript line, in the local
      input. */
  lemma OllamaInputHasEveryTurn(message: string, h: seq<Turn>, i: nat)
    requires i < |h|
    ensures Contains(OllamaInput(message, Some(h), true), TranscriptLine(h[i]))
  {
    var lines := TranscriptLines(h);
    JoinContainsPart("\n", lines, i);
    ContainsWiden(TranscriptHeading, Join("\n", lines), "\n\n" + message, lines[i]);
    assert TranscriptHeading + Join("\n", lines) + ("\n\n" + message)
        == TranscriptHeading + Join("\n", lines) + "\n\n" + message;
  }

  /** The two-turn example: a user greeting and an assistant reply become
      two labelled transcript lines ahead of the new message. */
  lemma OllamaInputExample(message: string)
    ensures OllamaInput(message, Some([Turn("user", "hi"), Turn("assistant", "hello")]), true)
         == "Previous conversation:\nUser: hi\nAssistant: hello\n\n" + message
  {
    var h := [Turn("user", "hi"), Turn("assistant", "hello")];
    ExampleTranscript();
    assert UsesHistory(true, Some(h));
  }

  /** The transcript of the two-turn example. */
  lemma ExampleTranscript()
    ensures Join("\n", TranscriptLines([Turn("user", "hi"), Turn("assistant", "hello")]))
         == "User: hi\nAssistant: hello"
  {
    var lines := TranscriptLines([Turn("user", "hi"), Turn("assistant", "hello")]);
    assert lines[0] == "User: " + "hi" == "User: hi";
    assert lines[1] == "Assistant: " + "hello" == "Assistant: hello";
    assert lines == ["User: hi", "Assistant: hello"];
    assert Join("\n", lines[1..]) == "Assistant: hello";
  }

  /** `get_llm_response`: reads the backend switch and the source up front
      (an absent source is a `KeyError`), then builds the request of the
      selected backend. `format` is the system prompt template's
      `format(question=…)`, which the remote backend applies and which
      fails (a `KeyError`, in the program) when the template names any
      other variable; the local backend hands its input to the chain
      unformatted. */
  function GetLlmResponse(message: string, history: Option<seq<Turn>>, c: Dict,
                          format: string -> Result<string>): (r: Result<Request>)
    ensures r.Ok? <==> LoadModelBranch(c).Ok? && (LoadModelBranch(c) == Ok(Remote) ==> format(message).Ok?)
    ensures LoadModelBranch(c).Raised? ==> r == Raised(LoadModelBranch(c).error)
    ensures LoadModelBranch(c) == Ok(Remote) && format(message).Raised? ==> r == Raised(format(message).error)
    ensures LoadModelBranch(c) == Ok(Remote) && format(message).Ok? ==>
              r == Ok(ChatRequest(OpenAIMessages(format(message).value, history, SendChatHistory(c))))
    ensures LoadModelBranch(c) == Ok(Local) ==>
              r == Ok(ChainRequest(OllamaInput(message, history, SendChatHistory(c))))
  {
    var useRemote := WantsRemote(c);
    var source :- Source(c);
    var send := SendChatHistory(c);
    if useRemote && source == JStr(ConfigValidator.OpenAI) then
      var prompt :- format(message);
      Ok(ChatRequest(OpenAIMessages(prompt, history, send)))
    else if !useRemote && source == JStr(ConfigValidator.Ollama) then
      Ok(ChainRequest(OllamaInput(message, history, send)))
    else
      Raised(Unsupported)
  }

  /** The local backend never calls the formatter: its request is the same
      whatever the template does. */
  lemma LocalIgnoresFormat(message: string, history: Option<seq<Turn>>, c: Dict,
                           f: string -> Result<string>, g: string -> Result<string>)
    requires LoadModelBranch(c) == Ok(Local)
    ensures GetLlmResponse(message, history, c, f) == GetLlmResponse(message, history, c, g)
  {
  }
}
