/** Speech setup and the speech call: which voice is chosen for a
    platform, how a voice name is turned into an engine voice id, which
    properties the engine is given, and the guarded call sequence that
    speaks one message. The speech engine is an abstract state with a
    run-loop flag; the platform string and the installed voices are
    parameters. */
module TextToSpeech {
  import opened Wrappers
  import opened Strings
  import opened Json

  const DefaultSpeechRateWpm := 180
  const DefaultWindowsVoice := "Microsoft David Desktop - English (United States)"
  const DefaultMacOsVoice := "Samantha"

  /** The stretch of `platform` starting at `i` spells `word` in any mix
      of upper and lower case. */
  predicate SpellsAt(platform: string, word: string, i: int) {
    0 <= i && i + |word| <= |platform| && Lower(platform[i..i + |word|]) == word
  }

  /** `"windows" in platform.platform().lower()`: some stretch of the
      platform string spells "windows" in any case. */
  predicate RunningOnWindows(platform: string): (r: bool)
    ensures r <==> exists i :: SpellsAt(platform, "windows", i)
  {
    ContainsLowered(platform, "windows");
    Contains(Lower(platform), "windows")
  }

  /** `"mac" in platform.platform().lower()`: some stretch of the platform
      string spells "mac" in any case. */
  predicate RunningOnMacOs(platform: string): (r: bool)
    ensures r <==> exists i :: SpellsAt(platform, "mac", i)
  {
    ContainsLowered(platform, "mac");
    Contains(Lower(platform), "mac")
  }

  /** Searching the lower-cased text finds exactly the stretches of the
      original that lower-case to the word. */
  lemma ContainsLowered(platform: string, word: string)
    ensures Contains(Lower(platform), word) <==> exists i :: SpellsAt(platform, word, i)
  {
    ContainsIff(Lower(platform), word);
    forall i ensures OccursAt(Lower(platform), word, i) <==> SpellsAt(platform, word, i) {
      if 0 <= i && i + |word| <= |platform| {
        assert Lower(platform)[i..i + |word|] == Lower(platform[i..i + |word|]);
      }
    }
  }

  /** A platform string none of whose characters lower-cases to the word's
      `j`-th letter does not mention the word. */
  lemma MissingLetter(platform: string, word: string, j: nat)
    requires j < |word|
    requires forall k :: 0 <= k < |platform| ==> LowerChar(platform[k]) != word[j]
    ensures !exists i :: SpellsAt(platform, word, i)
  {
    forall i ensures !SpellsAt(platform, word, i) {
      if 0 <= i && i + |word| <= |platform| {
        assert Lower(platform[i..i + |word|])[j] == LowerChar(platform[i + j]);
      }
    }
  }

  /** Both platform tests ignore case: lower-casing the platform string
      first changes neither answer. */
  lemma PlatformTestsIgnoreCase(platform: string)
    ensures RunningOnWindows(Lower(platform)) == RunningOnWindows(platform)
    ensures RunningOnMacOs(Lower(platform)) == RunningOnMacOs(platform)
  {
    LowerIdempotent(platform);
  }

  /** The string `platform.platform()` returns on Windows is recognised as
      Windows only. */
  lemma WindowsPlatformExample()
    ensures RunningOnWindows("Windows-10-10.0.19045-SP0") && !RunningOnMacOs("Windows-10-10.0.19045-SP0")
  {
    var win := "Windows-10-10.0.19045-SP0";
    assert Lower(win[0..7]) == "windows";
    assert SpellsAt(win, "windows", 0);
    MissingLetter(win, "mac", 0);
  }

  /** The string `platform.platform()` returns on macOS is recognised as
      macOS only. */
  lemma MacOsPlatformExample()
    ensures RunningOnMacOs("macOS-14.2-arm64-arm-64bit") && !RunningOnWindows("macOS-14.2-arm64-arm-64bit")
  {
    var mac := "macOS-14.2-arm64-arm-64bit";
    assert Lower(mac[0..3]) == "mac";
    assert SpellsAt(mac, "mac", 0);
    MissingLetter(mac, "windows", 0);
  }

  /** The string `platform.platform()` returns on Linux is neither. */
  lemma LinuxPlatformExample()
    ensures !RunningOnWindows("Linux-6.5.0-x86_64-with-glibc2.35")
    ensures !RunningOnMacOs("Linux-6.5.0-x86_64-with-glibc2.35")
  {
    var linux := "Linux-6.5.0-x86_64-with-glibc2.35";
    MissingLetter(linux, "windows", 4);
    MissingLetter(linux, "mac", 0);
  }

  /** The voice used when the configuration names none: the Windows voice on
      Windows (checked first), "Samantha" on macOS, and none elsewhere. */
  function DefaultVoice(platform: string): (r: Json)
    ensures r == JNull <==> !RunningOnWindows(platform) && !RunningOnMacOs(platform)
    ensures RunningOnWindows(platform) ==> r == JStr(DefaultWindowsVoice)
    ensures !RunningOnWindows(platform) && RunningOnMacOs(platform) ==> r == JStr(DefaultMacOsVoice)
  {
    if RunningOnWindows(platform) then JStr(DefaultWindowsVoice)
    else if RunningOnMacOs(platform) then JStr(DefaultMacOsVoice)
    else JNull
  }

  /** The voice `initialize_text_to_speech` asks for:
      `speech_config.get("voice_name", <platform default>)`. */
  function ChooseVoice(config: Dict, platform: string): (r: Json)
    ensures Has(config, "voice_name") ==> r == At(config, "voice_name")
    ensures !Has(config, "voice_name") ==> r == DefaultVoice(platform)
  {
    Get(config, "voice_name", DefaultVoice(platform))
  }

  /** An explicit `voice_name` is used on every platform. */
  lemma VoiceOverrideWins(config: Dict, p1: string, p2: string)
    requires Has(config, "voice_name")
    ensures ChooseVoice(config, p1) == ChooseVoice(config, p2) == At(config, "voice_name")
  {
  }

  /** A platform string that mentions both systems gets the Windows voice,
      because Windows is tested first. */
  lemma WindowsCheckedFirst(platform: string)
    requires RunningOnWindows(platform) && RunningOnMacOs(platform)
    ensures DefaultVoice(platform) == JStr(DefaultWindowsVoice)
    ensures DefaultVoice(platform) != JStr(DefaultMacOsVoice)
  {
  }

  /** An installed voice, as the engine lists it. */
  datatype Voice = Voice(id: string, name: string)

  /** `get_voice_id`: the id of the first installed voice whose name equals
      the requested one, and none when no name matches. */
  function GetVoiceId(voices: seq<Voice>, voiceName: Json): (r: Option<string>)
    ensures r.None? <==> forall i :: 0 <= i < |voices| ==> JStr(voices[i].name) != voiceName
    ensures r.Some? ==> exists i :: 0 <= i < |voices| && voices[i].id == r.value
                           && JStr(voices[i].name) == voiceName
                           && forall j :: 0 <= j < i ==> JStr(voices[j].name) != voiceName
    decreases |voices|
  {
    if |voices| == 0 then None
    else if JStr(voices[0].name) == voiceName then Some(voices[0].id)
    else
      var rest := GetVoiceId(voices[1..], voiceName);
      assert forall i :: 0 < i < |voices| ==> voices[i] == voices[1..][i - 1];
      rest
  }

  /** Of two installed voices with the requested name, the first wins. */
  lemma FirstOfTwinVoicesWins(id1: string, id2: string, name: string)
    ensures GetVoiceId([Voice(id1, name), Voice(id2, name)], JStr(name)) == Some(id1)
  {
  }

  /** An engine property call made during set-up. */
  datatype Setting = SetVoice(id: Option<string>) | SetRate(rate: Json)

  /** `initialize_text_to_speech`: the configuration comes back unchanged,
      the voice is set only when a voice name was chosen (to the matching
      id, or to none when no installed voice matches), and the rate is always
      set, to `speech_rate_wpm` or 180. */
  method InitializeTextToSpeech(config: Dict, platform: string, voices: seq<Voice>)
    returns (cfg: Dict, settings: seq<Setting>)
    ensures cfg == config
    ensures |settings| == if ChooseVoice(config, platform) == JNull then 1 else 2
    ensures settings[|settings| - 1] == SetRate(Get(config, "speech_rate_wpm", JInt(DefaultSpeechRateWpm)))
    ensures ChooseVoice(config, platform) != JNull ==>
              settings[0] == SetVoice(GetVoiceId(voices, ChooseVoice(config, platform)))
  {
    var voiceName := ChooseVoice(config, platform);
    settings := [];
    if voiceName != JNull {
      settings := settings + [SetVoice(GetVoiceId(voices, voiceName))];
    }
    settings := settings + [SetRate(Get(config, "speech_rate_wpm", JInt(DefaultSpeechRateWpm)))];
    cfg := config;
  }

  // ---------------------------------------------------------------------
  // Speaking

  /** The engine state the speech call observes: whether its run loop is
      still marked as running, the queued utterances and what has been
      spoken so far. */
  datatype Engine = Engine(inLoop: bool, queue: seq<string>, spoken: seq<string>)

  /** The engine calls `speak_message` can make. */
  datatype Call = EndLoop | Say(text: string) | RunAndWait

  /** One engine call. `endLoop` fails unless the loop is running, and
      otherwise leaves it and discards the queued utterances; `runAndWait`
      fails when the loop is running, and otherwise speaks the queue and
      (through the engine's known defect) may leave the loop marked as
      running, which `leftOpen` decides. */
  function Step(e: Engine, call: Call, leftOpen: bool): (r: Result<Engine>)
    ensures call == RunAndWait ==> (r.Raised? <==> e.inLoop)
    ensures call == EndLoop ==> (r.Raised? <==> !e.inLoop)
    ensures call == EndLoop && r.Ok? ==> !r.value.inLoop && r.value.queue == [] && r.value.spoken == e.spoken
    ensures call == RunAndWait && r.Ok? ==> r.value.queue == [] && r.value.spoken == e.spoken + e.queue
    ensures call.Say? ==> r == Ok(e.(queue := e.queue + [call.text]))
  {
    match call
    case EndLoop =>
      if e.inLoop then Ok(e.(inLoop := false, queue := [])) else Raised(RuntimeError("run loop not started"))
    case Say(text) => Ok(e.(queue := e.queue + [text]))
    case RunAndWait =>
      if e.inLoop then Raised(RuntimeError("run loop already started"))
      else Ok(Engine(leftOpen, [], e.spoken + e.queue))
  }

  /** Runs calls in order, stopping at the first failure. */
  function Run(e: Engine, calls: seq<Call>, leftOpen: bool): Result<Engine>
    decreases |calls|
  {
    if |calls| == 0 then Ok(e)
    else
      var next :- Step(e, calls[0], leftOpen);
      Run(next, calls[1..], leftOpen)
  }

  /** The calls `speak_message` makes: `endLoop` only when the engine is in
      its run loop, then always `say` followed by `runAndWait`. */
  function SpeakCalls(e: Engine, message: string): (r: seq<Call>)
    ensures |r| == if e.inLoop then 3 else 2
    ensures r[|r| - 2..] == [Say(message), RunAndWait]
    ensures (r[0] == EndLoop) <==> e.inLoop
  {
    (if e.inLoop then [EndLoop] else []) + [Say(message), RunAndWait]
  }

  /** What the engine still holds to speak once `speak_message` has made
      sure its loop is not running: the queue survives only when no loop had
      to be ended. */
  function Pending(e: Engine): seq<string> {
    if e.inLoop then [] else e.queue
  }

  /** `speak_message`: never fails, and speaks the pending utterances
      followed by the message. */
  function SpeakMessage(e: Engine, message: string, leftOpen: bool): (r: Result<Engine>)
    ensures r == Ok(Engine(leftOpen, [], e.spoken + Pending(e) + [message]))
  {
    var calls := SpeakCalls(e, message);
    var e1 := e.(inLoop := false, queue := Pending(e));
    assert Run(e, calls, leftOpen) == Run(e1, [Say(message), RunAndWait], leftOpen);
    assert Run(e1.(queue := Pending(e) + [message]), [RunAndWait], leftOpen)
        == Ok(Engine(leftOpen, [], e.spoken + (Pending(e) + [message])));
    assert e.spoken + (Pending(e) + [message]) == e.spoken + Pending(e) + [message];
    Run(e, calls, leftOpen)
  }

  /** Without the guard, speaking while the loop is still marked as running
      fails with "run loop already started". */
  lemma UnguardedSpeechFails(e: Engine, message: string, leftOpen: bool)
    requires e.inLoop
    ensures Run(e, [Say(message), RunAndWait], leftOpen) == Raised(RuntimeError("run loop already started"))
  {
    var e1 := e.(queue := e.queue + [message]);
    assert Run(e, [Say(message), RunAndWait], leftOpen) == Run(e1, [RunAndWait], leftOpen);
  }

  /** Speaking message after message never fails, whatever the engine's
      defect leaves behind after each one, and every message is spoken in
      order. */
  lemma {:induction false} RepeatedSpeechNeverFails(e: Engine, messages: seq<string>, leftOpen: seq<bool>)
    requires |leftOpen| == |messages| > 0
    ensures SpeakAll(e, messages, leftOpen).Ok?
    ensures SpeakAll(e, messages, leftOpen).value.spoken == e.spoken + Pending(e) + messages
    decreases |messages|
  {
    var next := SpeakMessage(e, messages[0], leftOpen[0]).value;
    if |messages| > 1 {
      RepeatedSpeechNeverFails(next, messages[1..], leftOpen[1..]);
      assert next.queue == [];
      assert Pending(next) == [];
      assert e.spoken + Pending(e) + [messages[0]] + messages[1..] == e.spoken + Pending(e) + messages;
    }
  }

  /** One `speak_message` call per message, the engine's defect after the
      `i`-th decided by `leftOpen[i]`. */
  function SpeakAll(e: Engine, messages: seq<string>, leftOpen: seq<bool>): Result<Engine>
    requires |leftOpen| == |messages|
    decreases |messages|
  {
    if |messages| == 0 then Ok(e)
    else
      var next :- SpeakMessage(e, messages[0], leftOpen[0]);
      SpeakAll(next, messages[1..], leftOpen[1..])
  }
}
