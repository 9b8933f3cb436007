# LLM Voice Chat core, modelled in Dafny

LLM Voice Chat is a small chat application. A web page sends the user's message to a language model, streams the answer back character by character, and optionally reads it aloud. The model is either a hosted OpenAI chat model or a local Ollama model.

Most of the program is glue around its libraries. This project models the decision and string-building rules at its centre:

- **Configuration validation** (`config_validator.dfy`).
  - The four section validators for the model, prompt, response and theme sections.
  - The aggregator that collects every section's errors into one `ConfigValidationError`.
  - Every error text is rendered exactly as the program writes it.
- **Backend dispatch and prompt assembly** (`model_utils.dfy`).
  - Which backend `load_model` and `get_llm_response` select.
  - The GPU count given to a local model.
  - The role-tagged message list sent to the remote model.
  - The "Previous conversation:" transcript sent to the local model.
- **The chat callback and theme loading** (`app.dfy`).
  - The failure paths, pauses, speech gate and prefix-streaming loop of `get_response`.
  - The default theme name and the page-only keys `load_app_theme` strips.
- **Speech set-up and the speech call** (`text_to_speech.dfy`).
  - Platform detection and default voice choice.
  - Voice-id lookup and the engine properties set during initialisation.
  - The guarded end-loop / say / run-and-wait sequence of `speak_message`, over an abstract engine state.

Three supporting modules model the Python built-ins the core relies on:

- `json.dfy`: parsed JSON values as Python holds them, with:
  - `d.get(k, default)` and `k in d`;
  - truthiness;
  - `isinstance`, where `bool` is an `int`;
  - `str()` and `repr()`;
  - iteration and the `in` test.
- `strings.dfy`: substring search, `str.join`, and ASCII `lower()` and `title()`.
- `wrappers.dfy`: `Option`, `Result` and the exceptions the code raises.

A Python function that may raise is modelled as a function returning `Result<T>`. `Ok(v)` is a normal return and `Raised(e)` is an exception. The environment is passed in as parameters:

- the `OPENAI_API_KEY` and `HF_TOKEN` variables;
- the platform string;
- the installed voices;
- the prompt template's `format(question=…)`, which may raise;
- the language model's answer, which may raise.

Each validator first builds the list of `Issue`s it finds, in check order, and then renders them with `Message`. The contracts state when each kind of issue is reported, as an independent declarative rule (`ModelIssueApplies`). They do not retrace the `if` chain.

Where the code and its written description disagree, the model follows the code:

- **A missing `model_source`.** `load_model` and `get_llm_response` index `model_config["model_source"]`. A configuration without it therefore raises `KeyError`, not "Model configuration not yet supported." (`ModelUtils.LoadModelBranch`).
- **`initialize_text_to_speech` returns its configuration unchanged.** This revision performs no `use_mac_os_speech` normalisation.
- **Dicts keep insertion order.** They are modelled as ordered key/value sequences rather than maps, because the order is observable in the core. It sets the order of the "not found in template" errors when `input_variables` is a dict, and the text `str()` gives a dict inside an error message.

## Model

| member | source | states |
|---|---|---|
| ConfigValidator.ValidateModel | config_validator.py:26-89 | `is_valid` holds exactly when the error list is empty, and exactly when no rule of the model section is broken; every broken rule's message is in the list, and every listed error is the message of a broken rule |
| ConfigValidator.MessageNamesSubject | config_validator.py:47-119 | a missing-field text starts with "Missing required field: " and no type or value text does; every text about a field quotes the field's name, and every text about a template variable quotes the variable |
| ConfigValidator.ModelIssuesExact | config_validator.py:45-87 | an issue is reported exactly when its rule applies: a required field absent, a present field of the wrong type, a present unsupported `model_source`, a missing or empty credential for a truthy `use_remote_model` with source "OpenAI", or a bad `use_gpu`/`num_gpu` for a present, falsy `use_remote_model` with source "Ollama" |
| ConfigValidator.RequiredFieldReport | config_validator.py:46-66 | each required field contributes exactly one "Missing required field" issue when absent, exactly one type or enum issue when present with a bad value, and nothing otherwise; never two issues |
| ConfigValidator.OptionalChecks | config_validator.py:84-87 | an optional check reports a field exactly when it is present and fails its `isinstance` test |
| ConfigValidator.OpenAIConfigWithKeyIsValid | tests/test_config_validator.py:22-35 | a remote OpenAI configuration with well-typed required fields is valid once the credential is non-empty |
| ConfigValidator.OllamaConfigIsValid | tests/test_config_validator.py:37-49 | a local Ollama configuration with well-typed fields is valid whatever the credential |
| ConfigValidator.OpenAIConfigWithoutKeyReportsKey | config_validator.py:69-77 | the same OpenAI configuration without a credential reports exactly the API-key message and nothing else |
| ConfigValidator.GpuChecksNeedUseRemoteModel | config_validator.py:80-83 | when `use_remote_model` is absent the `use_gpu`/`num_gpu` checks never report, because the default there is true |
| ConfigValidator.ScanVariables | config_validator.py:114-119 | the per-variable loop raises `TypeError` exactly when there is an item and the template supports no `in` test; otherwise it succeeds |
| ConfigValidator.ScanVariablesExact | config_validator.py:114-119 | the loop reports a name exactly when some variable prints as that name and its `{var}` placeholder is absent from the template |
| ConfigValidator.ScanVariablesAppend | config_validator.py:115-119 | the scan of a concatenation is the concatenation of the scans, so reports follow the order of `input_variables` |
| ConfigValidator.ScanOneStringVariable | tests/test_config_validator.py:111-119 | a single string variable is reported exactly when `"{var}"` is not a substring of the template |
| ConfigValidator.ScanVariablesAllReferenced | config_validator.py:114-119 | when every placeholder occurs in the template the loop reports nothing |
| ConfigValidator.UnreferencedVariables | config_validator.py:115 | iterating `input_variables` raises `TypeError` for a value Python cannot iterate; a list is scanned item by item |
| ConfigValidator.PromptIssuesExact | config_validator.py:103-119 | missing and wrongly typed `input_variables`/`template` are reported exactly when so; the per-variable check runs only when both keys are present, and then reports exactly the names it finds or propagates its exception; nothing else is ever reported |
| ConfigValidator.ValidatePrompt | config_validator.py:92-121 | raises exactly when the per-variable check raises; otherwise `is_valid` holds exactly when the error list is empty and exactly when no prompt rule is broken (both keys present, each of its type, every variable in the template), and the errors are the issues' messages in order |
| ConfigValidator.NoPromptIssuesExactly | config_validator.py:92-121 | when the check does not raise, it reports no issue exactly when both keys are present, each has its required type and no listed variable is missing from the template |
| ConfigValidator.ReferencedVariablesAreValid | tests/test_config_validator.py:87-95 | a list of variables whose placeholders all occur in a string template gives a valid prompt section |
| ConfigValidator.ValidateOptional | config_validator.py:133-163 | a section of optional fields is valid exactly when no listed field is present with the wrong type, and exactly when its error list is empty |
| ConfigValidator.OptionalErrorsSound | config_validator.py:136-161 | every error of an optional-field section names a listed field that is present with the wrong type |
| ConfigValidator.OptionalErrorsComplete | config_validator.py:136-161 | every listed field present with the wrong type is reported |
| ConfigValidator.ValidateResponse | config_validator.py:124-163 | valid exactly when the error list is empty, and exactly when none of the five response fields is present with the wrong type; each error names such a field |
| ConfigValidator.ResponseReportsEveryBadField | config_validator.py:136-161 | every wrongly typed response field is reported |
| ConfigValidator.ValidateTheme | config_validator.py:166-196 | valid exactly when the error list is empty, and exactly when none of the four theme fields is present with the wrong type; each error names such a field |
| ConfigValidator.ThemeReportsEveryBadField | config_validator.py:178-194 | every wrongly typed theme field is reported |
| ConfigValidator.EmptySectionsAreValid | tests/test_config_validator.py:138-143 | the empty response and theme sections are valid |
| ConfigValidator.ValidateAllConfigs | config_validator.py:224-252 | a `TypeError` from the prompt validator propagates; otherwise the call succeeds exactly when all four sections are valid, and a failure is a `ConfigValidationError` whose text starts with "Configuration validation failed:" and a blank line |
| ConfigValidator.ReportHeadersInOrder | config_validator.py:227-245 | the report holds one header per invalid section, in the order Model, Prompt, Response, Theme, and no other header |
| ConfigValidator.FailureTextListsEveryError | config_validator.py:229-251 | the failure text names the header of every invalid section and carries each of its errors prefixed with two spaces and a dash |
| ConfigValidator.FailureListsEveryError | tests/test_config_validator.py:216-232 | errors are collected from every section: the raised message names every invalid section's header and each of its errors |
| ModelUtils.LoadModelBranch | model_utils.py:93-105 | the remote branch exactly when `use_remote_model` is truthy and the source is "OpenAI"; the local branch exactly when it is falsy or absent and the source is "Ollama"; `KeyError` exactly when the source is absent; "not yet supported" otherwise |
| ModelUtils.PullCommand | model_utils.py:150 | the command is exactly `ollama pull ` followed by `str()` of the model name; `KeyError('model_name')` exactly when the name is absent |
| ModelUtils.OllamaGpuCount | model_utils.py:180-182 | 0 when `use_gpu` is absent or present and falsy; when it is truthy, the `num_gpu` value if present and 1 if absent |
| ModelUtils.ValidatedGpuCountIsInteger | model_utils.py:180-182 | a configuration the validator accepts and the loader sends to the local backend gets an integer GPU count |
| ModelUtils.ValidatedButUnsupported | model_utils.py:93-105 | a remote Ollama configuration with well-typed fields passes validation, yet loading it raises "not yet supported" |
| ModelUtils.SendChatHistory | model_utils.py:241 | sending the history defaults to true when the key is absent and otherwise follows the value's truthiness |
| ModelUtils.ToChatMessage | model_utils.py:306-310 | role "user" becomes a human message and any other role an AI message, with the same content |
| ModelUtils.OpenAIMessages | model_utils.py:297-312 | without usable history the list is exactly the formatted prompt as a human message; otherwise it has one message per turn, in order, with the role mapping above, followed by the prompt |
| ModelUtils.OpenAIMessagesKeepHistory | model_utils.py:301-312 | for a history of "user"/"assistant" turns, the messages before the prompt read back as the original history |
| ModelUtils.TranscriptLine | model_utils.py:358-362 | a turn becomes `User: <content>` for role "user" and `Assistant: <content>` for any other role |
| ModelUtils.OllamaInput | model_utils.py:351-369 | without usable history the input is exactly the message; otherwise it is the heading, the newline-joined transcript lines, a blank line, and the message |
| ModelUtils.OllamaInputFrame | model_utils.py:364-369 | the input always ends with the message, and starts with "Previous conversation:" when the history is used |
| ModelUtils.OllamaInputHasEveryTurn | model_utils.py:357-366 | every history turn's transcript line occurs in the input |
| ModelUtils.OllamaInputExample | model_utils.py:357-369 | a user greeting and an assistant reply give "Previous conversation:\nUser: hi\nAssistant: hello\n\n" followed by the message |
| ModelUtils.GetLlmResponse | model_utils.py:239-314 | fails with the same exception exactly when `load_model`'s branch selection (`LoadModelBranch`) fails, or, on the remote branch, when `format(question=…)` fails; otherwise builds the request of the branch selected, the remote one around the formatted prompt |
| ModelUtils.LocalIgnoresFormat | model_utils.py:369-372 | the local branch never calls the formatter: its request is the same for every formatter |
| App.ThemeName | app.py:63 | the theme name is "Soft" when `source_theme` is absent, otherwise the title-cased value; a non-string value raises `AttributeError` |
| App.Delete | app.py:71-80 | deleting a key removes exactly its entry; every other key keeps its value |
| App.DeleteKeysExact | app.py:70-80 | deleting a list of keys removes exactly those keys and keeps every other entry unchanged |
| App.StripUiKeysExact | app.py:70-80 | the theme options are the section minus exactly the five page-only keys, every other key keeping its value |
| App.StripUiKeysIdempotent | app.py:70-80 | stripping an already stripped section changes no lookup |
| App.LoadAppTheme | app.py:63-82 | fails exactly when the name does; a hub theme exactly when `load_theme_from_hf_hub` is truthy, carrying the name and token; otherwise a built-in theme of that name whose options are the stripped section |
| App.SpeakResponses | app.py:133 | speak when `speak_responses` is absent; otherwise exactly when its value is truthy |
| App.Sleep | app.py:127-131 | `time.sleep` raises `TypeError` for a non-number; for an integer it returns exactly when 0 <= n <= 9223372036, and raises the negative-length `ValueError` for -9223372036 <= n < 0; `True`/`False` pass; a float fails only with `ValueError` or `OverflowError`, and with the negative-length `ValueError` exactly when it is negative and finite |
| App.NumberPauseNoTypeError | app.py:127-131 | `time.sleep` never rejects a number for its type |
| App.DefaultPausesSleep | app.py:32-33 | the default delay 0 and stream lag 0.1 are accepted |
| App.ValidatedPausesOnlyFailByValue | config_validator.py:141-153 | a pause the response validator accepts never raises `TypeError` at `sleep` |
| App.OnlyDelayIsValid | config_validator.py:141-146 | a section setting only a numeric `response_delay_time` passes the response validator, whatever its sign |
| App.NegativeDelayPassesValidation | app.py:127-131 | a delay of -1 passes validation and then makes the first pause raise "sleep length must be non-negative" |
| App.StreamFrames | app.py:142-148 | pausing before each frame, the loop yields one frame per character, the k-th being the first k+1 characters; a failing pause ends it before the first frame with that exception, and only a non-empty response pauses |
| App.StreamGrows | app.py:142-148 | each frame extends the previous one by one character, the last frame is the whole response, and an empty response yields nothing |
| App.GetResponse | app.py:121-148 | an exception from the request, the formatter, the model call or the first pause ends the turn with nothing spoken or streamed; otherwise the answer goes to speech exactly when `speak_responses` is truthy or absent, and is streamed as prefixes unless the streaming pause fails; with the default section the answer is spoken and streamed without error |
| TextToSpeech.RunningOnWindows | text_to_speech.py:109-117 | true exactly when some stretch of the platform string spells "windows" in any case |
| TextToSpeech.RunningOnMacOs | text_to_speech.py:98-106 | true exactly when some stretch of the platform string spells "mac" in any case |
| TextToSpeech.PlatformTestsIgnoreCase | text_to_speech.py:98-117 | lower-casing the platform string first changes neither test |
| TextToSpeech.WindowsPlatformExample | text_to_speech.py:109-117 | "Windows-10-10.0.19045-SP0" is Windows and not macOS |
| TextToSpeech.MacOsPlatformExample | text_to_speech.py:98-106 | "macOS-14.2-arm64-arm-64bit" is macOS and not Windows |
| TextToSpeech.LinuxPlatformExample | text_to_speech.py:98-117 | "Linux-6.5.0-x86_64-with-glibc2.35" is neither |
| TextToSpeech.DefaultVoice | text_to_speech.py:71-79 | no default voice exactly when the platform is neither Windows nor macOS; the Windows voice whenever the platform mentions Windows; "Samantha" for macOS otherwise |
| TextToSpeech.ChooseVoice | text_to_speech.py:71-79 | an explicit `voice_name` is used; otherwise the platform default |
| TextToSpeech.VoiceOverrideWins | text_to_speech.py:73-79 | an explicit `voice_name` gives the same voice on every platform |
| TextToSpeech.WindowsCheckedFirst | text_to_speech.py:71-76 | every platform string that both tests recognise gets the Windows voice, not the macOS one |
| TextToSpeech.GetVoiceId | text_to_speech.py:141-145 | none exactly when no installed voice has the requested name; otherwise the id of the first voice with that name |
| TextToSpeech.FirstOfTwinVoicesWins | text_to_speech.py:142-144 | of two voices with the requested name, the first one's id is returned |
| TextToSpeech.InitializeTextToSpeech | text_to_speech.py:71-95 | the configuration comes back unchanged; the voice is set only when a voice name was chosen, and then to the id of the first installed voice of that name, or none; the rate is always set, to `speech_rate_wpm` or 180 |
| TextToSpeech.Step | text_to_speech.py:176-180 | `runAndWait` fails exactly when the loop is running and otherwise speaks and empties the queue; `endLoop` fails exactly when the loop is not running and otherwise leaves it and discards the queue; `say` queues the text |
| TextToSpeech.SpeakCalls | text_to_speech.py:176-180 | `endLoop` comes first exactly when the engine is in its loop, then always `say(message)` and `runAndWait` |
| TextToSpeech.SpeakMessage | text_to_speech.py:148-180 | speaking never fails, and speaks the utterances still pending (none when a loop had to be ended) followed by the message |
| TextToSpeech.UnguardedSpeechFails | text_to_speech.py:172-173 | without the guard, speaking while the loop is marked as running raises "run loop already started" |
| TextToSpeech.RepeatedSpeechNeverFails | text_to_speech.py:176-180 | speaking message after message, one call after another, never fails, whatever the engine leaves behind, and every message is spoken in order |

## Left out

- `app_config.py` is not part of this model: it reads files and parses JSON with the standard library.
- `logger.py` is not part of this model: it only configures logging.
- `Main.py` is not part of this model: it is a UI prototype with a stubbed response.
- `install_models.py` is not part of this model: it is a network download.
- `load_prompt_from_config` is not modelled: it only constructs a LangChain `PromptTemplate`.
- The language-model constructors and calls are not modelled:
  - The constructors (`ChatOpenAI`, `OllamaLLM`) and the `**model_parameters` keyword expansion are external library calls.
  - The calls (`llm.invoke`, `chain.invoke`) are external too. `ModelUtils.GetLlmResponse` returns the request they receive, and `App.GetResponse` takes the call as a function that may raise; an exception from a library is carried by its class name.
  - For the local backend, `chain.invoke` also formats the prompt template. A template failure there is part of that call.
- `PromptTemplate.format` is a function parameter that may raise: its formatting rules belong to LangChain.
- The `subprocess.run` of `ollama pull` is not modelled: only the command text is (`ModelUtils.PullCommand`).
- pyttsx3 is reduced to a run-loop flag, a queue and the spoken texts:
  - the audio, the voice list's origin and `setProperty` effects are external;
  - whether `runAndWait` leaves the loop marked as running (the engine defect the guard works around) is a parameter.
- The time `sleep` waits is not modelled, only whether it returns or raises (`App.Sleep`).
- `App.Sleep`: a finite float whose magnitude is beyond about 9.2e9 seconds raises `OverflowError` in CPython. The model judges a float by its text only (sign, NaN, infinities), so it does not model that case.
- `App.GetResponse`: the callback is a generator. A consumer that stops early, and the frames it has already shown, are not modelled; the model runs the turn to its end.
- `TextToSpeech.RepeatedSpeechNeverFails`: the calls are assumed not to overlap. `get_response` starts each `speak_message` on its own thread and never joins it, so two turns can use the shared engine at once, and the `_inLoop` guard does not cover that case. Thread interleaving is not modelled.
- The Gradio page and `.launch()` are UI construction and are not modelled.
- `App.LoadAppTheme`: the Gradio calls that build the theme are not modelled, so their exceptions are not either. These are `ThemeClass.from_hub` on the hub branch (a download), `getattr(gr.themes, name)` for an unknown theme name, and the theme constructor `source_theme_class(**custom_theme_config)`, which rejects an unexpected key. "Fails exactly when the name does" covers only the name's `title()`.
- `App.ThemeName`, `Strings.Lower`: case mapping is modelled for ASCII letters only. Python's full Unicode `lower()`/`title()` tables are out of scope.
- `Json.Str`: float values carry their Python text as given, and `repr` escapes only ASCII control characters. Non-ASCII printability rules are out of scope.
- The `TypeError`, `AttributeError`, `ValueError` and `OverflowError` texts the model gives Python's own exceptions are pinned by the contracts (for example in `ConfigValidator.ScanVariables`), but they follow one interpreter version approximately. The text may differ from a given CPython release; the exception kind does not.
- History entries are modelled as role/content pairs:
  - an entry missing either key (a `KeyError` in Python) is not modelled;
  - non-string content is not modelled.
- `load_app_theme` not modifying the caller's dict holds by construction: the model's dicts are values, so there is no mutation to rule out.
- A remote Ollama configuration passes validation but is rejected by `load_model` (`ModelUtils.ValidatedButUnsupported`). This is recorded as a property of the design as written, not corrected.
