/** The pure parts of the chat application: the theme chosen from the theme
    section, and one chat callback, which asks the model, waits, optionally
    hands the answer to the speech engine and streams it character by
    character. The prompt formatter and the model call are parameters that
    may fail; `time.sleep` is modelled by the exceptions it raises, not by
    the time it takes; the UI and the speech thread itself are outside the
    model. */
module App {
  import opened Wrappers
  import opened Strings
  import opened Json
  import opened ModelUtils
  import ConfigValidator

  const DefaultAppTheme := "Soft"

  /** The theme-section keys that configure the page rather than the theme;
      they are removed before the rest is passed to the theme. */
  const UiKeys := ["app_name", "chat_placeholder_text", "textbox_placeholder_text",
                   "source_theme", "load_theme_from_hf_hub"]

  /** A theme downloaded from the Hugging Face Hub, or a built-in theme
      constructed with the remaining options. */
  datatype Theme =
    | HubTheme(repo: string, token: Option<string>)
    | BuiltinTheme(name: string, options: Dict)

  /** `theme_config.get("source_theme", "Soft").title()`: Python raises
      `AttributeError` when the value is not a string. */
  function ThemeName(tc: Dict): (r: Result<string>)
    ensures !Has(tc, "source_theme") ==> r == Ok(DefaultAppTheme)
    ensures r.Ok? <==> Get(tc, "source_theme", JStr(DefaultAppTheme)).JStr?
    ensures r.Ok? ==> r.value == Title(Get(tc, "source_theme", JStr(DefaultAppTheme)).s)
    ensures r.Raised? ==> r.error.AttributeError?
  {
    var v := Get(tc, "source_theme", JStr(DefaultAppTheme));
    if v.JStr? then
      DefaultThemeIsTitled();
      Ok(Title(v.s))
    else Raised(AttributeError("'" + TypeName(v) + "' object has no attribute 'title'"))
  }

  /** The default theme name is already title-cased. */
  lemma DefaultThemeIsTitled()
    ensures Title(DefaultAppTheme) == DefaultAppTheme
  {
    var t := Title(DefaultAppTheme);
    assert t[0] == 'S' && t[1] == 'o' && t[2] == 'f' && t[3] == 't';
  }

  /** `del d[k]`: the entry with key `k` is gone and every other entry is
      kept, with its value. */
  function Delete(d: Dict, k: string): (r: Dict)
    ensures forall p :: p in r <==> p in d && p.0 != k
    ensures forall j :: Lookup(r, j) == if j == k then None else Lookup(d, j)
    ensures |r| <= |d|
    decreases |d|
  {
    if |d| == 0 then []
    else
      var rest := Delete(d[1..], k);
      assert forall p :: p in d <==> p == d[0] || p in d[1..];
      if d[0].0 == k then rest
      else
        var r := [d[0]] + rest;
        assert forall j :: Lookup(r, j) == if j == d[0].0 then Some(d[0].1) else Lookup(rest, j) by {
          forall j ensures Lookup(r, j) == if j == d[0].0 then Some(d[0].1) else Lookup(rest, j) {
            assert r[1..] == rest;
          }
        }
        r
  }

  /** Deletes each listed key, in list order, when the dict holds it. */
  function DeleteKeys(d: Dict, keys: seq<string>): Dict
    decreases |keys|
  {
    if |keys| == 0 then d
    else DeleteKeys(if Has(d, keys[0]) then Delete(d, keys[0]) else d, keys[1..])
  }

  /** Deleting a list of keys removes exactly those keys. */
  lemma {:induction false} DeleteKeysExact(d: Dict, keys: seq<string>)
    ensures forall k :: Lookup(DeleteKeys(d, keys), k) == if k in keys then None else Lookup(d, k)
    ensures forall p :: p in DeleteKeys(d, keys) <==> p in d && p.0 !in keys
    decreases |keys|
  {
    if |keys| > 0 {
      var d1 := if Has(d, keys[0]) then Delete(d, keys[0]) else d;
      if !Has(d, keys[0]) {
        LookupSpec(d, keys[0]);
        forall p | p in d ensures p.0 != keys[0] {
          var i :| 0 <= i < |d| && d[i] == p;
          assert Keys(d)[i] == p.0;
        }
      }
      DeleteKeysExact(d1, keys[1..]);
      assert forall k :: k in keys <==> k == keys[0] || k in keys[1..];
    }
  }

  /** The non-hub branch of `load_app_theme`: a copy of the section with
      each page-only key deleted when present. */
  function StripUiKeys(tc: Dict): Dict {
    DeleteKeys(tc, UiKeys)
  }

  /** Stripping removes exactly the page-only keys: every other key keeps
      its value, and no other entry is added or dropped. */
  lemma StripUiKeysExact(tc: Dict)
    ensures forall k :: Lookup(StripUiKeys(tc), k) == if k in UiKeys then None else Lookup(tc, k)
    ensures forall p :: p in StripUiKeys(tc) <==> p in tc && p.0 !in UiKeys
  {
    DeleteKeysExact(tc, UiKeys);
  }

  /** Stripping an already stripped section changes nothing. */
  lemma StripUiKeysIdempotent(tc: Dict)
    ensures forall k :: Lookup(StripUiKeys(StripUiKeys(tc)), k) == Lookup(StripUiKeys(tc), k)
  {
    StripUiKeysExact(tc);
    StripUiKeysExact(StripUiKeys(tc));
  }

  /** `load_app_theme`, with the `HF_TOKEN` environment variable passed in:
      the hub theme named by `source_theme` when `load_theme_from_hf_hub` is
      truthy, otherwise the built-in theme of that name with the page-only
      keys removed. */
  function LoadAppTheme(tc: Dict, hfToken: Option<string>): (r: Result<Theme>)
    ensures r.Raised? <==> ThemeName(tc).Raised?
    ensures r.Ok? ==> (r.value.HubTheme? <==> Truthy(Get(tc, "load_theme_from_hf_hub", JBool(false))))
    ensures r.Ok? && r.value.HubTheme? ==> r.value == HubTheme(ThemeName(tc).value, hfToken)
    ensures r.Ok? && r.value.BuiltinTheme? ==>
              r.value.name == ThemeName(tc).value
              && forall k :: Lookup(r.value.options, k) == if k in UiKeys then None else Lookup(tc, k)
  {
    var name :- ThemeName(tc);
    if Truthy(Get(tc, "load_theme_from_hf_hub", JBool(false))) then
      Ok(HubTheme(name, hfToken))
    else
      StripUiKeysExact(tc);
      Ok(BuiltinTheme(name, StripUiKeys(tc)))
  }

  // ---------------------------------------------------------------------
  // The chat callback

  /** `response_config.get("speak_responses", True)`, read as a condition:
      an absent setting means speak. */
  predicate SpeakResponses(rc: Dict): (r: bool)
    ensures !Has(rc, "speak_responses") ==> r
    ensures Has(rc, "speak_responses") ==> (r <==> Truthy(At(rc, "speak_responses")))
  {
    Truthy(Get(rc, "speak_responses", JBool(true)))
  }

  const DefaultResponseDelayTime := JInt(0)
  const DefaultResponseStreamLagTime := JFloat("0.1")

  /** The pause before the answer is handled. */
  function ResponseDelay(rc: Dict): Json {
    Get(rc, "response_delay_time", DefaultResponseDelayTime)
  }

  /** The pause before each streamed character. */
  function StreamLag(rc: Dict): Json {
    Get(rc, "response_stream_lag_time", DefaultResponseStreamLagTime)
  }

  /** The longest whole number of seconds `time.sleep` accepts: the delay in
      nanoseconds must fit a signed 64-bit integer. */
  const MaxSleepSeconds := 9223372036
  const NegativeSleep := ValueError("sleep length must be non-negative")
  const SleepTooLong := OverflowError("timestamp too large to convert to C _PyTime_t")

  /** Python's `time.sleep(seconds)`, by its outcome: a `TypeError` for a
      value that is not a number, a `ValueError` for a negative or NaN delay,
      an `OverflowError` for one too long to represent, and otherwise a
      return after the pause (`True` and `False` count as 1 and 0). A float
      is judged by its text: its sign, NaN and the infinities. */
  function Sleep(seconds: Json): (r: Result<()>)
    ensures !IsInstance(seconds, KNumber) ==> r.Raised? && r.error.TypeError?
    ensures seconds.JBool? ==> r.Ok?
    ensures seconds.JInt? ==> (r.Ok? <==> 0 <= seconds.i <= MaxSleepSeconds)
    ensures seconds.JInt? && -MaxSleepSeconds <= seconds.i < 0 ==> r == Raised(NegativeSleep)
    ensures seconds.JFloat? ==>
              (r == Raised(NegativeSleep) <==> IsPrefix("-", seconds.repr) && seconds.repr != "-0.0" && seconds.repr != "-inf")
    ensures seconds.JFloat? && seconds.repr == "nan" ==> r.Raised? && r.error.ValueError?
    ensures seconds.JFloat? && r.Raised? ==> r.error.ValueError? || r.error.OverflowError?
  {
    match seconds
    case JBool(_) => Ok(())
    case JInt(i) =>
      if i < -MaxSleepSeconds || MaxSleepSeconds < i then Raised(SleepTooLong)
      else if i < 0 then Raised(NegativeSleep)
      else Ok(())
    case JFloat(t) =>
      if t == "nan" then
        assert t[0] != '-';
        Raised(ValueError("Invalid value NaN (not a number)"))
      else if t == "inf" || t == "-inf" then
        assert t == "inf" ==> t[0] != '-';
        Raised(SleepTooLong)
      else if |t| > 0 && t[0] == '-' && t != "-0.0" then Raised(NegativeSleep)
      else Ok(())
    case _ => Raised(TypeError("'" + TypeName(seconds) + "' object cannot be interpreted as an integer"))
  }

  /** The default pauses are accepted. */
  lemma DefaultPausesSleep()
    ensures Sleep(ResponseDelay([])).Ok? && Sleep(StreamLag([])).Ok?
  {
  }

  /** The response validator checks only that a pause is a number, so a
      pause it accepts never fails with a `TypeError`, yet a negative pause
      passes it and then makes `time.sleep` raise `ValueError`. */
  lemma ValidatedPausesOnlyFailByValue(rc: Dict)
    requires ConfigValidator.ValidateResponse(rc).isValid
    ensures Sleep(ResponseDelay(rc)).Raised? ==> !Sleep(ResponseDelay(rc)).error.TypeError?
    ensures Sleep(StreamLag(rc)).Raised? ==> !Sleep(StreamLag(rc)).error.TypeError?
  {
    assert ("response_delay_time", KNumber) in ConfigValidator.ResponseFields;
    assert ("response_stream_lag_time", KNumber) in ConfigValidator.ResponseFields;
    assert IsInstance(ResponseDelay(rc), KNumber);
    assert IsInstance(StreamLag(rc), KNumber);
    NumberPauseNoTypeError(ResponseDelay(rc));
    NumberPauseNoTypeError(StreamLag(rc));
  }

  /** `time.sleep` rejects a number only for its value, never for its type. */
  lemma NumberPauseNoTypeError(seconds: Json)
    requires IsInstance(seconds, KNumber)
    ensures Sleep(seconds).Raised? ==> !Sleep(seconds).error.TypeError?
  {
  }

  /** A section that sets only a numeric delay passes the response
      validator, whatever the number's sign. */
  lemma OnlyDelayIsValid(rc: Dict, delay: Json)
    requires rc == [("response_delay_time", delay)] && IsInstance(delay, KNumber)
    ensures ConfigValidator.ValidateResponse(rc).isValid
  {
    var fields := ConfigValidator.ResponseFields;
    assert forall f, k :: (f, k) in fields && f == "response_delay_time" ==> k == KNumber;
    SingleEntryPasses("response_delay_time", delay, fields);
  }

  /** A one-entry section is wrongly typed for no listed field when its value
      passes every check listed for its key. */
  lemma SingleEntryPasses(key: string, v: Json, fields: seq<(string, Kind)>)
    requires forall f, k :: (f, k) in fields && f == key ==> IsInstance(v, k)
    ensures forall f, k :: (f, k) in fields ==> !ConfigValidator.WrongTyped([(key, v)], f, k)
  {
    forall f, k | (f, k) in fields
      ensures !ConfigValidator.WrongTyped([(key, v)], f, k)
    {
      SingleEntryLookup(key, v, f);
    }
  }

  /** A one-entry dict holds only its one key. */
  lemma SingleEntryLookup(key: string, v: Json, k: string)
    ensures Lookup([(key, v)], k) == if k == key then Some(v) else None
  {
    if k != key {
      assert [(key, v)][1..] == [];
    }
  }

  /** A negative delay passes validation and then fails at the pause. */
  lemma NegativeDelayPassesValidation(rc: Dict)
    requires rc == [("response_delay_time", JInt(-1))]
    ensures ConfigValidator.ValidateResponse(rc).isValid
    ensures Sleep(ResponseDelay(rc)) == Raised(NegativeSleep)
  {
    OnlyDelayIsValid(rc, JInt(-1));
  }

  /** The streaming loop of `get_response`: before each character it
      pauses for `lag`, then yields the next frame, the `i`-th being the
      first `i + 1` characters. A pause that fails ends the stream with its
      exception; since every pause is the same, that happens before the
      first frame or not at all. */
  method StreamFrames(response: string, lag: Json) returns (frames: seq<string>, error: Option<PyException>)
    ensures error.Some? <==> |response| > 0 && Sleep(lag).Raised?
    ensures error.Some? ==> frames == [] && error.value == Sleep(lag).error
    ensures error.None? ==> |frames| == |response|
    ensures error.None? ==> forall k :: 0 <= k < |frames| ==> frames[k] == response[..k + 1]
  {
    frames := [];
    var i := 0;
    while i < |response|
      invariant 0 <= i <= |response|
      invariant |frames| == i
      invariant i > 0 ==> Sleep(lag).Ok?
      invariant forall k :: 0 <= k < i ==> frames[k] == response[..k + 1]
    {
      var slept := Sleep(lag);
      if slept.Raised? {
        return frames, Some(slept.error);
      }
      frames := frames + [response[..i + 1]];
      i := i + 1;
    }
    error := None;
  }

  /** Frames as the streaming loop yields them. */
  predicate IsStream(frames: seq<string>, response: string) {
    |frames| == |response| && forall k :: 0 <= k < |frames| ==> frames[k] == response[..k + 1]
  }

  /** Each frame extends the one before it by one character, the last frame
      is the whole response, and an empty response yields no frame. */
  lemma StreamGrows(frames: seq<string>, response: string)
    requires IsStream(frames, response)
    ensures forall k :: 0 < k < |frames| ==> |frames[k]| == |frames[k - 1]| + 1 && IsPrefix(frames[k - 1], frames[k])
    ensures |response| > 0 ==> frames[|frames| - 1] == response
    ensures |response| == 0 <==> frames == []
  {
    forall k | 0 < k < |frames|
      ensures |frames[k]| == |frames[k - 1]| + 1 && IsPrefix(frames[k - 1], frames[k])
    {
      assert frames[k][..k] == response[..k];
    }
    if |response| > 0 {
      assert response[..|response|] == response;
    }
  }

  /** What one chat turn produces: the text handed to the speech thread, if
      any, the frames streamed to the page, and the exception that ended the
      turn, if one did. */
  datatype ChatOutput = ChatOutput(spoken: Option<string>, frames: seq<string>, error: Option<PyException>)

  /** The model's answer for one turn: the request `get_llm_response` builds,
      handed to the model call `answer`. Either step may raise. */
  function Answer(message: string, history: Option<seq<Turn>>, mc: Dict,
                  format: string -> Result<string>, answer: Request -> Result<string>): Result<string>
  {
    var request :- GetLlmResponse(message, history, mc, format);
    answer(request)
  }

  /** `get_response`: asks the model, pauses for `response_delay_time`,
      hands the answer to the speech thread when `speak_responses` is truthy
      or absent, and streams it frame by frame, pausing before each frame.
      An exception from the request, the model call or the first pause ends
      the turn before anything is spoken or streamed; one from the streaming
      pause ends it after the answer was handed to the speech thread. */
  method GetResponse(message: string, history: Option<seq<Turn>>, mc: Dict, rc: Dict,
                     format: string -> Result<string>, answer: Request -> Result<string>)
    returns (out: ChatOutput)
    ensures Answer(message, history, mc, format, answer).Raised? ==>
              out == ChatOutput(None, [], Some(Answer(message, history, mc, format, answer).error))
    ensures Answer(message, history, mc, format, answer).Ok? && Sleep(ResponseDelay(rc)).Raised? ==>
              out == ChatOutput(None, [], Some(Sleep(ResponseDelay(rc)).error))
    ensures Answer(message, history, mc, format, answer).Ok? && Sleep(ResponseDelay(rc)).Ok? ==>
              var response := Answer(message, history, mc, format, answer).value;
              (out.spoken.Some? <==> SpeakResponses(rc))
              && (out.spoken.Some? ==> out.spoken.value == response)
              && (out.error.Some? <==> |response| > 0 && Sleep(StreamLag(rc)).Raised?)
              && (out.error.Some? ==> out.frames == [] && out.error.value == Sleep(StreamLag(rc)).error)
              && (out.error.None? ==> IsStream(out.frames, response))
    ensures rc == [] && Answer(message, history, mc, format, answer).Ok? ==>
              out == ChatOutput(Some(Answer(message, history, mc, format, answer).value), out.frames, None)
  {
    var response := Answer(message, history, mc, format, answer);
    if response.Raised? {
      return ChatOutput(None, [], Some(response.error));
    }
    var paused := Sleep(ResponseDelay(rc));
    if paused.Raised? {
      return ChatOutput(None, [], Some(paused.error));
    }
    var spoken := if SpeakResponses(rc) then Some(response.value) else None;
    var frames, error := StreamFrames(response.value, StreamLag(rc));
    return ChatOutput(spoken, frames, error);
  }
}
