/** The configuration validator: four section validators that each return
    `(is_valid, errors)`, and an aggregator that collects every section's
    errors into one `ConfigValidationError`.

    Each validator first computes the list of `Issue`s it finds, in the order
    the checks run, and renders them with `Message` into the exact texts the
    program reports. Contracts are stated per issue: an issue is reported
    exactly when the configuration justifies it. */
module ConfigValidator {
  import opened Wrappers
  import opened Strings
  import opened Json

  const OpenAI := "OpenAI"
  const Ollama := "Ollama"

  /** One problem a validator reports. */
  datatype Issue =
    | Missing(field: string)
    | WrongType(field: string, kind: Kind, optional: bool)
    | InvalidSource(value: Json)
    | NoApiKey
    | UnreferencedVariable(name: string)

  function KindPhrase(k: Kind, optional: bool): string {
    match k
    case KBool => if optional then "a boolean" else "a boolean (true/false)"
    case KInt => "an integer"
    case KNumber => "a number"
    case KStr => "a string"
    case KList => "a list"
    case KDict => "a dictionary"
  }

  /** A name in single quotes, as the error texts print it. */
  function Quoted(name: string): string {
    "'" + name + "'"
  }

  /** What a type message says after the field's name. */
  function TypeRequirement(k: Kind, optional: bool): string {
    " must be " + KindPhrase(k, optional) + (if optional then " if specified" else "")
  }

  /** The error text the program reports for an issue. */
  function Message(issue: Issue): string {
    match issue
    case Missing(f) => "Missing required field: " + Quoted(f)
    case WrongType(f, k, opt) => Quoted(f) + TypeRequirement(k, opt)
    case InvalidSource(v) => "Invalid " + Quoted("model_source") + ": " + Quoted(Str(v)) + ". Must be 'OpenAI' or 'Ollama'"
    case NoApiKey => "OPENAI_API_KEY environment variable is required for OpenAI models"
    case UnreferencedVariable(n) => "Input variable " + Quoted(n) + " not found in template string"
  }

  /** A missing-field message starts with "Missing required field: ", and no
      message about a field's type or value does; a message about a
      configuration field, or about a template variable, quotes its name. */
  lemma MessageNamesSubject(issue: Issue)
    ensures issue.Missing? ==> IsPrefix("Missing required field: ", Message(issue))
    ensures issue.WrongType? || issue.InvalidSource? || issue.UnreferencedVariable? ==>
              !IsPrefix("Missing required field: ", Message(issue))
    ensures issue.Missing? || issue.WrongType? || issue.InvalidSource? ==>
              Contains(Message(issue), Quoted(Subject(issue)))
    ensures issue.UnreferencedVariable? ==> Contains(Message(issue), Quoted(issue.name))
  {
    match issue
    case Missing(f) => MissingMessage(f);
    case WrongType(f, k, opt) =>
      WrongTypeMessage(f, k, opt);
      NotMissingPrefix(Message(issue));
    case InvalidSource(v) =>
      SourceMessage(v);
      NotMissingPrefix(Message(issue));
    case NoApiKey =>
    case UnreferencedVariable(n) =>
      VariableMessage(n);
      NotMissingPrefix(Message(issue));
  }

  /** A text that does not start with 'M' is no missing-field message. */
  lemma NotMissingPrefix(m: string)
    requires |m| > 0 && m[0] != 'M'
    ensures !IsPrefix("Missing required field: ", m)
  {
  }

  lemma MissingMessage(f: string)
    ensures IsPrefix("Missing required field: ", Message(Missing(f)))
    ensures Contains(Message(Missing(f)), Quoted(f))
  {
    ContainsInContext("Missing required field: ", Quoted(f), "");
    assert "Missing required field: " + Quoted(f) + "" == Message(Missing(f));
  }

  lemma WrongTypeMessage(f: string, k: Kind, opt: bool)
    ensures Message(WrongType(f, k, opt))[0] == '\''
    ensures Contains(Message(WrongType(f, k, opt)), Quoted(f))
  {
    var m := Message(WrongType(f, k, opt));
    assert m == Quoted(f) + TypeRequirement(k, opt);
    assert IsPrefix(Quoted(f), m);
  }

  lemma SourceMessage(v: Json)
    ensures Message(InvalidSource(v))[0] == 'I'
    ensures Contains(Message(InvalidSource(v)), Quoted("model_source"))
  {
    var tail := ": " + Quoted(Str(v)) + ". Must be 'OpenAI' or 'Ollama'";
    assert Message(InvalidSource(v)) == "Invalid " + Quoted("model_source") + tail;
    ContainsInContext("Invalid ", Quoted("model_source"), tail);
  }

  lemma VariableMessage(n: string)
    ensures Message(UnreferencedVariable(n))[0] == 'I'
    ensures Contains(Message(UnreferencedVariable(n)), Quoted(n))
  {
    ContainsInContext("Input variable ", Quoted(n), " not found in template string");
  }

  /** The `(is_valid, errors)` pair every section validator returns. */
  datatype Report = Report(isValid: bool, errors: seq<string>)

  function ToReport(issues: seq<Issue>): (r: Report)
    ensures r.isValid <==> r.errors == []
    ensures |r.errors| == |issues|
    ensures forall i :: 0 <= i < |issues| ==> r.errors[i] == Message(issues[i])
  {
    var errors := seq(|issues|, i requires 0 <= i < |issues| => Message(issues[i]));
    Report(|errors| == 0, errors)
  }

  /** The key is present and its value fails the `isinstance` check. */
  predicate WrongTyped(c: Dict, field: string, k: Kind) {
    Has(c, field) && !IsInstance(At(c, field), k)
  }

  /** A required field: reported missing when absent, of the wrong type when
      its value fails the check. */
  function RequiredCheck(c: Dict, field: string, k: Kind): seq<Issue> {
    if !Has(c, field) then [Missing(field)]
    else if !IsInstance(At(c, field), k) then [WrongType(field, k, false)]
    else []
  }

  /** A present, well-typed required field yields no issue. */
  lemma RequiredCheckPasses(c: Dict, field: string, k: Kind)
    requires Has(c, field) && IsInstance(At(c, field), k)
    ensures RequiredCheck(c, field, k) == []
  {
  }

  /** An optional field: reported only when present with the wrong type. */
  function OptionalCheck(c: Dict, field: string, k: Kind): seq<Issue> {
    if WrongTyped(c, field, k) then [WrongType(field, k, true)] else []
  }

  /** The optional checks for a list of fields, in list order. */
  function OptionalChecks(c: Dict, fields: seq<(string, Kind)>): (r: seq<Issue>)
    ensures forall x :: x in r <==>
              x.WrongType? && x.optional && (x.field, x.kind) in fields && WrongTyped(c, x.field, x.kind)
    ensures r == [] <==> forall p :: p in fields ==> !WrongTyped(c, p.0, p.1)
    decreases |fields|
  {
    if |fields| == 0 then []
    else
      var rest := OptionalChecks(c, fields[1..]);
      assert forall p :: p in fields <==> p == fields[0] || p in fields[1..];
      OptionalCheck(c, fields[0].0, fields[0].1) + rest
  }

  // ---------------------------------------------------------------------
  // Model section

  const RequiredModelFields := ["use_remote_model", "model_source", "model_name", "model_parameters"]
  const OllamaFields := [("use_gpu", KBool), ("num_gpu", KInt)]

  /** The kind `validate_model_config` demands of a required field other than
      `model_source`, whose check is an enum check. */
  function RequiredKind(f: string): Kind {
    if f == "use_remote_model" then KBool else if f == "model_name" then KStr else KDict
  }

  /** The environment credential is set to a non-empty value. */
  predicate HasCredential(apiKey: Option<string>) {
    apiKey.Some? && |apiKey.value| > 0
  }

  /** `config.get("use_remote_model")` is truthy and the source is "OpenAI". */
  predicate RemoteOpenAI(c: Dict) {
    Truthy(Get(c, "use_remote_model", JNull)) && Get(c, "model_source", JNull) == JStr(OpenAI)
  }

  /** `use_remote_model` is present and falsy (absent counts as true) and the
      source is "Ollama". */
  predicate LocalOllama(c: Dict) {
    !Truthy(Get(c, "use_remote_model", JBool(true))) && Get(c, "model_source", JNull) == JStr(Ollama)
  }

  predicate SupportedSource(v: Json) {
    v == JStr(OpenAI) || v == JStr(Ollama)
  }

  function SourceCheck(c: Dict): seq<Issue> {
    if !Has(c, "model_source") then [Missing("model_source")]
    else if !SupportedSource(At(c, "model_source")) then [InvalidSource(At(c, "model_source"))]
    else []
  }

  /** When the model validator reports an issue: the declarative reading of
      the model section's rules, one case per kind of issue. */
  predicate ModelIssueApplies(c: Dict, apiKey: Option<string>, x: Issue) {
    match x
    case Missing(f) => f in RequiredModelFields && !Has(c, f)
    case WrongType(f, k, opt) =>
      if opt then LocalOllama(c) && (f, k) in OllamaFields && WrongTyped(c, f, k)
      else f in RequiredModelFields && f != "model_source" && k == RequiredKind(f) && WrongTyped(c, f, k)
    case InvalidSource(v) => Lookup(c, "model_source") == Some(v) && !SupportedSource(v)
    case NoApiKey => RemoteOpenAI(c) && !HasCredential(apiKey)
    case UnreferencedVariable(_) => false
  }

  function CredentialCheck(c: Dict, apiKey: Option<string>): seq<Issue> {
    if RemoteOpenAI(c) && !HasCredential(apiKey) then [NoApiKey] else []
  }

  function OllamaChecks(c: Dict): seq<Issue> {
    if LocalOllama(c) then OptionalChecks(c, OllamaFields) else []
  }

  /** The issues `validate_model_config` finds, in the order it checks. */
  function ModelIssues(c: Dict, apiKey: Option<string>): seq<Issue> {
    RequiredCheck(c, "use_remote_model", KBool)
    + SourceCheck(c)
    + RequiredCheck(c, "model_name", KStr)
    + RequiredCheck(c, "model_parameters", KDict)
    + CredentialCheck(c, apiKey)
    + OllamaChecks(c)
  }

  /** The model validator reports an issue exactly when the section's rules
      call for it: a required field absent, a present field of the wrong
      type, an unsupported source, a missing credential for a remote OpenAI
      model, or a bad `use_gpu`/`num_gpu` for a local Ollama model. */
  lemma ModelIssuesExact(c: Dict, apiKey: Option<string>)
    ensures forall x :: x in ModelIssues(c, apiKey) <==> ModelIssueApplies(c, apiKey, x)
  {
    forall x
      ensures x in ModelIssues(c, apiKey) <==> ModelIssueApplies(c, apiKey, x)
    {
      var a := RequiredCheck(c, "use_remote_model", KBool);
      var b := SourceCheck(c);
      var d := RequiredCheck(c, "model_name", KStr);
      var e := RequiredCheck(c, "model_parameters", KDict);
      var g := CredentialCheck(c, apiKey);
      var h := OllamaChecks(c);
      assert ModelIssues(c, apiKey) == a + b + d + e + g + h;
      assert x in ModelIssues(c, apiKey) <==> x in a || x in b || x in d || x in e || x in g || x in h;
      match x
      case Missing(f) =>
        assert x in ModelIssues(c, apiKey) <==> x in a || x in b || x in d || x in e;
      case WrongType(f, k, opt) =>
        if opt {
          assert x in ModelIssues(c, apiKey) <==> x in h;
        } else {
          assert x in ModelIssues(c, apiKey) <==> x in a || x in d || x in e;
        }
      case InvalidSource(v) =>
        assert x in ModelIssues(c, apiKey) <==> x in b;
      case NoApiKey =>
        assert x in ModelIssues(c, apiKey) <==> x in g;
      case UnreferencedVariable(_) =>
        assert x !in ModelIssues(c, apiKey);
    }
  }

  /** `validate_model_config`, with the `OPENAI_API_KEY` environment variable
      passed in: valid exactly when no rule of the section is broken, and
      then with no error text. */
  function ValidateModel(c: Dict, apiKey: Option<string>): (r: Report)
    ensures r.isValid <==> r.errors == []
    ensures r.isValid <==> forall x :: !ModelIssueApplies(c, apiKey, x)
    ensures forall x :: ModelIssueApplies(c, apiKey, x) ==> Message(x) in r.errors
    ensures forall e :: e in r.errors ==> exists x :: ModelIssueApplies(c, apiKey, x) && e == Message(x)
  {
    var issues := ModelIssues(c, apiKey);
    ModelIssuesExact(c, apiKey);
    assert |issues| > 0 ==> issues[0] in issues;
    var r := ToReport(issues);
    assert forall x :: x in issues ==> Message(x) in r.errors by {
      forall x | x in issues ensures Message(x) in r.errors {
        var i :| 0 <= i < |issues| && issues[i] == x;
        assert r.errors[i] == Message(x);
      }
    }
    assert forall e :: e in r.errors ==> exists x :: x in issues && e == Message(x) by {
      forall e | e in r.errors ensures exists x :: x in issues && e == Message(x) {
        var i :| 0 <= i < |r.errors| && r.errors[i] == e;
        assert issues[i] in issues;
      }
    }
    r
  }

  /** The field an issue is about. */
  function Subject(x: Issue): string {
    match x
    case Missing(f) => f
    case WrongType(f, _, _) => f
    case InvalidSource(_) => "model_source"
    case NoApiKey => "OPENAI_API_KEY"
    case UnreferencedVariable(_) => "input_variables"
  }

  /** The issues about one field, in order. */
  function About(issues: seq<Issue>, f: string): (r: seq<Issue>)
    ensures forall x :: x in r <==> x in issues && Subject(x) == f
    decreases |issues|
  {
    if |issues| == 0 then []
    else (if Subject(issues[0]) == f then [issues[0]] else []) + About(issues[1..], f)
  }

  /** The issue one entry contributes to `About`. */
  function AboutOne(x: Issue, f: string): seq<Issue> {
    if Subject(x) == f then [x] else []
  }

  lemma AboutCons(s: seq<Issue>, f: string)
    requires |s| > 0
    ensures About(s, f) == AboutOne(s[0], f) + About(s[1..], f)
  {
  }

  /** Filtering distributes over concatenation. */
  lemma {:induction false} AboutAppend(a: seq<Issue>, b: seq<Issue>, f: string)
    ensures About(a + b, f) == About(a, f) + About(b, f)
    decreases |a|
  {
    if |a| > 0 {
      assert (a + b)[0] == a[0];
      assert (a + b)[1..] == a[1..] + b;
      AboutAppend(a[1..], b, f);
      AboutCons(a + b, f);
      AboutCons(a, f);
      var head, x, y := AboutOne(a[0], f), About(a[1..], f), About(b, f);
      assert head + (x + y) == (head + x) + y;
    } else {
      assert a + b == b;
    }
  }

  /** A check whose issues all concern one field contributes all of them to
      that field and none to any other. */
  lemma AboutOneField(s: seq<Issue>, g: string, f: string)
    requires |s| <= 1
    requires forall x :: x in s ==> Subject(x) == g
    ensures About(s, f) == if g == f then s else []
  {
    if |s| == 1 {
      assert s[0] in s;
      assert s[1..] == [];
    }
  }

  /** What the model validator reports about one required field: one
      "Missing required field" issue when it is absent, one type or enum
      issue when it is present with a bad value, and nothing otherwise. */
  function ExpectedRequired(c: Dict, f: string): seq<Issue> {
    if !Has(c, f) then [Missing(f)]
    else if f == "model_source" then
      (if !SupportedSource(At(c, f)) then [InvalidSource(At(c, f))] else [])
    else if !IsInstance(At(c, f), RequiredKind(f)) then [WrongType(f, RequiredKind(f), false)]
    else []
  }

  lemma AboutRequiredCheck(c: Dict, g: string, k: Kind, f: string)
    ensures About(RequiredCheck(c, g, k), f) == if g == f then RequiredCheck(c, g, k) else []
  {
    AboutOneField(RequiredCheck(c, g, k), g, f);
  }

  lemma AboutSourceCheck(c: Dict, f: string)
    ensures About(SourceCheck(c), f) == if f == "model_source" then SourceCheck(c) else []
  {
    AboutOneField(SourceCheck(c), "model_source", f);
  }

  /** The credential check says nothing about a required field. */
  lemma AboutCredentialCheck(c: Dict, apiKey: Option<string>, f: string)
    requires f in RequiredModelFields
    ensures About(CredentialCheck(c, apiKey), f) == []
  {
    AboutOneField(CredentialCheck(c, apiKey), "OPENAI_API_KEY", f);
  }

  /** Optional checks on other fields say nothing about `f`. */
  lemma {:induction false} AboutOptionalChecks(c: Dict, fields: seq<(string, Kind)>, f: string)
    requires forall p :: p in fields ==> p.0 != f
    ensures About(OptionalChecks(c, fields), f) == []
    decreases |fields|
  {
    if |fields| > 0 {
      var head := OptionalCheck(c, fields[0].0, fields[0].1);
      assert fields[0] in fields;
      AboutOneField(head, fields[0].0, f);
      AboutOptionalChecks(c, fields[1..], f);
      AboutAppend(head, OptionalChecks(c, fields[1..]), f);
    }
  }

  /** The GPU checks say nothing about a required field. */
  lemma AboutOllamaChecks(c: Dict, f: string)
    requires f in RequiredModelFields
    ensures About(OllamaChecks(c), f) == []
  {
    assert forall p :: p in OllamaFields ==> p.0 != f;
    AboutOptionalChecks(c, OllamaFields, f);
  }

  /** Each required model field yields exactly the issues `ExpectedRequired`
      lists: never both a missing and a type message, never two messages. */
  lemma RequiredFieldReport(c: Dict, apiKey: Option<string>, f: string)
    requires f in RequiredModelFields
    ensures About(ModelIssues(c, apiKey), f) == ExpectedRequired(c, f)
  {
    AboutRequiredParts(c, apiKey, f);
    RequiredChecksSelect(c, f);
  }

  /** The issues the four required-field checks report about `f`, in order. */
  function RequiredAbout(c: Dict, f: string): seq<Issue> {
    About(RequiredCheck(c, "use_remote_model", KBool), f) + About(SourceCheck(c), f)
    + About(RequiredCheck(c, "model_name", KStr), f) + About(RequiredCheck(c, "model_parameters", KDict), f)
  }

  /** Of the four required-field checks, only the field's own check says
      anything about it. */
  lemma RequiredChecksSelect(c: Dict, f: string)
    requires f in RequiredModelFields
    ensures RequiredAbout(c, f) == ExpectedRequired(c, f)
  {
    if f == "use_remote_model" {
      SelectUseRemote(c);
    } else if f == "model_source" {
      SelectSource(c);
    } else if f == "model_name" {
      SelectName(c);
    } else {
      SelectParameters(c);
    }
  }

  lemma SelectUseRemote(c: Dict)
    ensures RequiredAbout(c, "use_remote_model") == ExpectedRequired(c, "use_remote_model")
  {
    var f := "use_remote_model";
    assert RequiredKind(f) == KBool;
    assert ExpectedRequired(c, f) == RequiredCheck(c, f, KBool);
    AboutRequiredCheck(c, "use_remote_model", KBool, f);
    AboutSourceCheck(c, f);
    AboutRequiredCheck(c, "model_name", KStr, f);
    AboutRequiredCheck(c, "model_parameters", KDict, f);
  }

  lemma SelectSource(c: Dict)
    ensures RequiredAbout(c, "model_source") == ExpectedRequired(c, "model_source")
  {
    var f := "model_source";
    assert ExpectedRequired(c, f) == SourceCheck(c);
    AboutRequiredCheck(c, "use_remote_model", KBool, f);
    AboutSourceCheck(c, f);
    AboutRequiredCheck(c, "model_name", KStr, f);
    AboutRequiredCheck(c, "model_parameters", KDict, f);
  }

  lemma SelectName(c: Dict)
    ensures RequiredAbout(c, "model_name") == ExpectedRequired(c, "model_name")
  {
    var f := "model_name";
    assert RequiredKind(f) == KStr;
    assert ExpectedRequired(c, f) == RequiredCheck(c, f, KStr);
    AboutRequiredCheck(c, "use_remote_model", KBool, f);
    AboutSourceCheck(c, f);
    AboutRequiredCheck(c, "model_name", KStr, f);
    AboutRequiredCheck(c, "model_parameters", KDict, f);
  }

  lemma SelectParameters(c: Dict)
    ensures RequiredAbout(c, "model_parameters") == ExpectedRequired(c, "model_parameters")
  {
    var f := "model_parameters";
    assert RequiredKind(f) == KDict;
    assert ExpectedRequired(c, f) == RequiredCheck(c, f, KDict);
    AboutRequiredCheck(c, "use_remote_model", KBool, f);
    AboutSourceCheck(c, f);
    AboutRequiredCheck(c, "model_name", KStr, f);
    AboutRequiredCheck(c, "model_parameters", KDict, f);
  }

  /** Only the four required-field checks can say anything about a required
      field. */
  lemma AboutRequiredParts(c: Dict, apiKey: Option<string>, f: string)
    requires f in RequiredModelFields
    ensures About(ModelIssues(c, apiKey), f) == RequiredAbout(c, f)
  {
    var a := RequiredCheck(c, "use_remote_model", KBool);
    var b := SourceCheck(c);
    var d := RequiredCheck(c, "model_name", KStr);
    var e := RequiredCheck(c, "model_parameters", KDict);
    var g := CredentialCheck(c, apiKey);
    var h := OllamaChecks(c);
    AboutAppend(a, b, f);
    AboutAppend(a + b, d, f);
    AboutAppend(a + b + d, e, f);
    AboutAppend(a + b + d + e, g, f);
    AboutAppend(a + b + d + e + g, h, f);
    AboutCredentialCheck(c, apiKey, f);
    AboutOllamaChecks(c, f);
    assert About(ModelIssues(c, apiKey), f) == About(a, f) + About(b, f) + About(d, f) + About(e, f) + [] + [];
  }

  /** The four required-field checks pass for a configuration whose fields
      are present, well typed and name a supported source. */
  lemma RequiredFieldsPass(c: Dict, remote: bool, source: string)
    requires Lookup(c, "use_remote_model") == Some(JBool(remote))
    requires Lookup(c, "model_source") == Some(JStr(source)) && SupportedSource(JStr(source))
    requires Has(c, "model_name") && At(c, "model_name").JStr?
    requires Has(c, "model_parameters") && At(c, "model_parameters").JObj?
    ensures RequiredCheck(c, "use_remote_model", KBool) + SourceCheck(c)
            + RequiredCheck(c, "model_name", KStr) + RequiredCheck(c, "model_parameters", KDict) == []
  {
    RequiredCheckPasses(c, "use_remote_model", KBool);
    RequiredCheckPasses(c, "model_name", KStr);
    RequiredCheckPasses(c, "model_parameters", KDict);
    var none: seq<Issue> := [];
    assert none + none + none + none == none;
  }

  /** Once the required fields pass, only the credential and GPU checks can
      report anything. */
  lemma ModelIssuesAfterRequired(c: Dict, apiKey: Option<string>)
    requires RequiredCheck(c, "use_remote_model", KBool) + SourceCheck(c)
             + RequiredCheck(c, "model_name", KStr) + RequiredCheck(c, "model_parameters", KDict) == []
    ensures ModelIssues(c, apiKey) == CredentialCheck(c, apiKey) + OllamaChecks(c)
  {
  }

  /** A section with no issue is valid. */
  lemma NoIssuesIsValid(c: Dict, apiKey: Option<string>)
    requires ModelIssues(c, apiKey) == []
    ensures ValidateModel(c, apiKey).isValid
  {
  }

  /** An `OpenAI` configuration whose four fields have the right types is
      valid as soon as the credential is set. */
  lemma OpenAIConfigWithKeyIsValid(c: Dict, apiKey: string)
    requires Lookup(c, "use_remote_model") == Some(JBool(true))
    requires Lookup(c, "model_source") == Some(JStr(OpenAI))
    requires Has(c, "model_name") && At(c, "model_name").JStr?
    requires Has(c, "model_parameters") && At(c, "model_parameters").JObj?
    requires |apiKey| > 0
    ensures ValidateModel(c, Some(apiKey)).isValid
  {
    RequiredFieldsPass(c, true, OpenAI);
    ModelIssuesAfterRequired(c, Some(apiKey));
    assert !LocalOllama(c);
    NoIssuesIsValid(c, Some(apiKey));
  }

  /** A local Ollama configuration whose fields have the right types is valid
      whatever the credential. */
  lemma OllamaConfigIsValid(c: Dict, apiKey: Option<string>)
    requires Lookup(c, "use_remote_model") == Some(JBool(false))
    requires Lookup(c, "model_source") == Some(JStr(Ollama))
    requires Has(c, "model_name") && At(c, "model_name").JStr?
    requires Has(c, "model_parameters") && At(c, "model_parameters").JObj?
    requires !WrongTyped(c, "use_gpu", KBool) && !WrongTyped(c, "num_gpu", KInt)
    ensures ValidateModel(c, apiKey).isValid
  {
    RequiredFieldsPass(c, false, Ollama);
    ModelIssuesAfterRequired(c, apiKey);
    assert !RemoteOpenAI(c);
    assert OptionalChecks(c, OllamaFields) == [];
    NoIssuesIsValid(c, apiKey);
  }

  /** The same OpenAI configuration without the credential is reported for
      exactly that reason. */
  lemma OpenAIConfigWithoutKeyReportsKey(c: Dict, apiKey: Option<string>)
    requires Lookup(c, "use_remote_model") == Some(JBool(true))
    requires Lookup(c, "model_source") == Some(JStr(OpenAI))
    requires Has(c, "model_name") && At(c, "model_name").JStr?
    requires Has(c, "model_parameters") && At(c, "model_parameters").JObj?
    requires !HasCredential(apiKey)
    ensures ValidateModel(c, apiKey).errors == ["OPENAI_API_KEY environment variable is required for OpenAI models"]
  {
    OpenAIWithoutKeyIssues(c, apiKey);
    OneIssueReport(NoApiKey);
    assert ValidateModel(c, apiKey).errors == ToReport([NoApiKey]).errors;
  }

  lemma OpenAIWithoutKeyIssues(c: Dict, apiKey: Option<string>)
    requires Lookup(c, "use_remote_model") == Some(JBool(true))
    requires Lookup(c, "model_source") == Some(JStr(OpenAI))
    requires Has(c, "model_name") && At(c, "model_name").JStr?
    requires Has(c, "model_parameters") && At(c, "model_parameters").JObj?
    requires !HasCredential(apiKey)
    ensures ModelIssues(c, apiKey) == [NoApiKey]
  {
    RequiredFieldsPass(c, true, OpenAI);
    ModelIssuesAfterRequired(c, apiKey);
    assert CredentialCheck(c, apiKey) == [NoApiKey];
    assert !LocalOllama(c);
    assert ModelIssues(c, apiKey) == [NoApiKey] + [];
  }

  /** A single issue is reported as its message alone. */
  lemma OneIssueReport(x: Issue)
    ensures ToReport([x]).errors == [Message(x)]
  {
  }

  /** The `use_gpu`/`num_gpu` checks never run when `use_remote_model` is
      absent: `config.get("use_remote_model", True)` is then true. */
  lemma GpuChecksNeedUseRemoteModel(c: Dict, apiKey: Option<string>)
    requires !Has(c, "use_remote_model")
    ensures forall x :: x in ModelIssues(c, apiKey) ==> !(x.WrongType? && x.optional)
  {
    ModelIssuesExact(c, apiKey);
    assert !LocalOllama(c);
  }

  // ---------------------------------------------------------------------
  // Prompt section

  /** The text `f"{{{var}}}"` builds for an input variable. */
  function Placeholder(v: Json): string {
    "{" + Str(v) + "}"
  }

  /** `"{var}" in template` answered without an exception. */
  predicate Referenced(v: Json, template: Json) {
    ContainsText(template, Placeholder(v)) == Some(true)
  }

  predicate IsContainer(j: Json) {
    j.JList? || j.JStr? || j.JObj?
  }

  /** The loop over `input_variables`: the names (as `str` prints them) whose
      placeholder `template` lacks, in iteration order; Python raises
      `TypeError` on the first item when `in` cannot be applied to
      `template`. */
  function ScanVariables(items: seq<Json>, template: Json): (r: Result<seq<string>>)
    ensures r.Raised? <==> |items| > 0 && !IsContainer(template)
    ensures r.Raised? ==> r.error == TypeError("argument of type '" + TypeName(template) + "' is not iterable")
    ensures r.Ok? ==> |r.value| <= |items|
    decreases |items|
  {
    if |items| == 0 then Ok([])
    else
      match ContainsText(template, Placeholder(items[0]))
      case None => Raised(TypeError("argument of type '" + TypeName(template) + "' is not iterable"))
      case Some(found) =>
        var rest := ScanVariables(items[1..], template);
        if rest.Raised? then rest
        else Ok((if found then [] else [Str(items[0])]) + rest.value)
  }

  /** The scan reports a name exactly when some item prints as that name and
      its placeholder is absent from the template. */
  lemma {:induction false} ScanVariablesExact(items: seq<Json>, template: Json)
    requires IsContainer(template)
    ensures ScanVariables(items, template).Ok?
    ensures forall i :: 0 <= i < |items| && !Referenced(items[i], template) ==>
              Str(items[i]) in ScanVariables(items, template).value
    ensures forall n :: n in ScanVariables(items, template).value ==>
              exists i :: 0 <= i < |items| && Str(items[i]) == n && !Referenced(items[i], template)
    decreases |items|
  {
    if |items| > 0 {
      ScanVariablesExact(items[1..], template);
      var rest := ScanVariables(items[1..], template).value;
      var head := if Referenced(items[0], template) then [] else [Str(items[0])];
      assert ScanVariables(items, template).value == head + rest;
      forall n | n in head + rest
        ensures exists i :: 0 <= i < |items| && Str(items[i]) == n && !Referenced(items[i], template)
      {
        if n in head {
          assert Str(items[0]) == n && !Referenced(items[0], template);
        } else {
          var j :| 0 <= j < |items[1..]| && Str(items[1..][j]) == n && !Referenced(items[1..][j], template);
          assert items[j + 1] == items[1..][j];
        }
      }
      forall i | 0 <= i < |items| && !Referenced(items[i], template)
        ensures Str(items[i]) in head + rest
      {
        if i > 0 {
          assert items[i] == items[1..][i - 1];
        }
      }
    }
  }

  /** The names one item contributes to the scan. */
  function ItemReport(v: Json, template: Json): seq<string> {
    if Referenced(v, template) then [] else [Str(v)]
  }

  /** One step of the scan over a searchable template. */
  lemma ScanVariablesCons(items: seq<Json>, template: Json)
    requires |items| > 0 && IsContainer(template)
    ensures ScanVariables(items, template)
         == Ok(ItemReport(items[0], template) + ScanVariables(items[1..], template).value)
  {
  }

  /** The scan works item by item: scanning a concatenation concatenates the
      results, so the reports follow the order of `input_variables`. */
  lemma {:induction false} ScanVariablesAppend(a: seq<Json>, b: seq<Json>, template: Json)
    requires IsContainer(template)
    ensures ScanVariables(a + b, template) == Ok(ScanVariables(a, template).value + ScanVariables(b, template).value)
    decreases |a|
  {
    if |a| > 0 {
      ScanVariablesAppend(a[1..], b, template);
      ScanAppendStep(a, b, template);
    } else {
      assert a + b == b;
      assert ScanVariables(a, template) == Ok([]);
      assert [] + ScanVariables(b, template).value == ScanVariables(b, template).value;
    }
  }

  /** One step of `ScanVariablesAppend`: the first item of `a` comes first. */
  lemma ScanAppendStep(a: seq<Json>, b: seq<Json>, template: Json)
    requires |a| > 0 && IsContainer(template)
    requires ScanVariables(a[1..] + b, template)
             == Ok(ScanVariables(a[1..], template).value + ScanVariables(b, template).value)
    ensures ScanVariables(a + b, template) == Ok(ScanVariables(a, template).value + ScanVariables(b, template).value)
  {
    var ab := a + b;
    TailOfAppend(a, b);
    ScanVariablesCons(ab, template);
    ScanVariablesCons(a, template);
    var head := ItemReport(a[0], template);
    var x, y := ScanVariables(a[1..], template).value, ScanVariables(b, template).value;
    assert ItemReport(ab[0], template) == head;
    AppendAssociates(head, x, y);
  }

  lemma TailOfAppend<T>(a: seq<T>, b: seq<T>)
    requires |a| > 0
    ensures (a + b)[0] == a[0] && (a + b)[1..] == a[1..] + b
  {
  }

  lemma AppendAssociates<T>(a: seq<T>, b: seq<T>, c: seq<T>)
    ensures a + (b + c) == (a + b) + c
  {
  }

  /** One string variable against a string template: reported exactly when
      `"{var}"` is not a substring of the template. */
  lemma ScanOneStringVariable(v: string, t: string)
    ensures ScanVariables([JStr(v)], JStr(t)) == Ok(if Contains(t, "{" + v + "}") then [] else [v])
  {
    assert [JStr(v)][1..] == [];
    assert Placeholder(JStr(v)) == "{" + v + "}";
    assert ScanVariables([], JStr(t)) == Ok([]);
    var head: seq<string> := if Contains(t, "{" + v + "}") then [] else [v];
    assert head + [] == head;
  }

  /** When every placeholder is found, the scan reports nothing. */
  lemma {:induction false} ScanVariablesAllReferenced(items: seq<Json>, template: Json)
    requires forall i :: 0 <= i < |items| ==> Referenced(items[i], template)
    ensures ScanVariables(items, template) == Ok([])
    decreases |items|
  {
    if |items| > 0 {
      assert Referenced(items[0], template);
      ScanVariablesAllReferenced(items[1..], template);
      var none: seq<string> := [];
      assert none + none == none;
    }
  }

  /** The names the per-variable check reports; `TypeError` when Python cannot
      iterate `input_variables`. */
  function UnreferencedVariables(vars: Json, template: Json): (r: Result<seq<string>>)
    ensures r.Raised? <==> !IsContainer(vars) || (|Iterate(vars).value| > 0 && !IsContainer(template))
    ensures vars.JList? ==> r == ScanVariables(vars.items, template)
  {
    match Iterate(vars)
    case None => Raised(TypeError("'" + TypeName(vars) + "' object is not iterable"))
    case Some(items) => ScanVariables(items, template)
  }

  /** One `UnreferencedVariable` issue per reported name, in order. */
  function UnreferencedIssues(names: seq<string>): (r: seq<Issue>)
    ensures |r| == |names|
    ensures forall i :: 0 <= i < |names| ==> r[i] == UnreferencedVariable(names[i])
  {
    seq(|names|, i requires 0 <= i < |names| => UnreferencedVariable(names[i]))
  }

  /** The issues `validate_prompt_config` finds, in the order it checks, or
      the exception it raises. The per-variable check runs only when both
      keys are present. */
  function PromptIssues(c: Dict): Result<seq<Issue>> {
    var fixed := RequiredCheck(c, "input_variables", KList) + RequiredCheck(c, "template", KStr);
    if Has(c, "input_variables") && Has(c, "template") then
      var names :- UnreferencedVariables(At(c, "input_variables"), At(c, "template"));
      Ok(fixed + UnreferencedIssues(names))
    else
      Ok(fixed)
  }

  /** The prompt validator reports a missing or wrongly typed key exactly
      when it is so, runs the per-variable check only when both keys are
      present, and then reports exactly the names that check finds, or
      raises what it raises. */
  lemma PromptIssuesExact(c: Dict)
    ensures PromptIssues(c).Ok? ==> (Missing("input_variables") in PromptIssues(c).value <==> !Has(c, "input_variables"))
    ensures PromptIssues(c).Ok? ==> (Missing("template") in PromptIssues(c).value <==> !Has(c, "template"))
    ensures PromptIssues(c).Ok? ==>
              (WrongType("input_variables", KList, false) in PromptIssues(c).value <==> WrongTyped(c, "input_variables", KList))
    ensures PromptIssues(c).Ok? ==>
              (WrongType("template", KStr, false) in PromptIssues(c).value <==> WrongTyped(c, "template", KStr))
    ensures PromptIssues(c).Raised? ==> Has(c, "input_variables") && Has(c, "template")
    ensures !Has(c, "input_variables") || !Has(c, "template") ==>
              PromptIssues(c).Ok? && forall x :: x in PromptIssues(c).value ==> !x.UnreferencedVariable?
    ensures Has(c, "input_variables") && Has(c, "template") ==>
              match UnreferencedVariables(At(c, "input_variables"), At(c, "template"))
              case Raised(e) => PromptIssues(c) == Raised(e)
              case Ok(names) =>
                PromptIssues(c).Ok? && forall n :: UnreferencedVariable(n) in PromptIssues(c).value <==> n in names
    ensures PromptIssues(c).Ok? ==>
              forall x :: x in PromptIssues(c).value ==>
                x == Missing("input_variables") || x == Missing("template")
                || x == WrongType("input_variables", KList, false) || x == WrongType("template", KStr, false)
                || x.UnreferencedVariable?
  {
    var fixed := RequiredCheck(c, "input_variables", KList) + RequiredCheck(c, "template", KStr);
    FixedPromptIssues(c);
    if Has(c, "input_variables") && Has(c, "template") {
      var u := UnreferencedVariables(At(c, "input_variables"), At(c, "template"));
      if u.Ok? {
        var found := UnreferencedIssues(u.value);
        FoundIssues(u.value);
        assert PromptIssues(c) == Ok(fixed + found);
      }
    }
  }

  /** The two key checks report each key's own missing or type issue exactly
      when it applies, and nothing about template variables. */
  lemma FixedPromptIssues(c: Dict)
    ensures var fixed := RequiredCheck(c, "input_variables", KList) + RequiredCheck(c, "template", KStr);
      && (Missing("input_variables") in fixed <==> !Has(c, "input_variables"))
      && (Missing("template") in fixed <==> !Has(c, "template"))
      && (WrongType("input_variables", KList, false) in fixed <==> WrongTyped(c, "input_variables", KList))
      && (WrongType("template", KStr, false) in fixed <==> WrongTyped(c, "template", KStr))
      && forall x :: x in fixed ==>
           x == Missing("input_variables") || x == Missing("template")
           || x == WrongType("input_variables", KList, false) || x == WrongType("template", KStr, false)
  {
  }

  /** The variable issues are exactly the reported names, wrapped. */
  lemma FoundIssues(names: seq<string>)
    ensures forall x :: x in UnreferencedIssues(names) ==> x.UnreferencedVariable?
    ensures forall n :: UnreferencedVariable(n) in UnreferencedIssues(names) <==> n in names
  {
    var found := UnreferencedIssues(names);
    forall n ensures UnreferencedVariable(n) in found <==> n in names {
      if n in names {
        var i :| 0 <= i < |names| && names[i] == n;
        assert found[i] == UnreferencedVariable(n);
      }
    }
  }

  /** `validate_prompt_config`: the report, or the `TypeError` Python raises
      for an `input_variables` it cannot iterate or a `template` it cannot
      search. */
  function ValidatePrompt(c: Dict): (r: Result<Report>)
    ensures r.Raised? <==> PromptIssues(c).Raised?
    ensures r.Ok? ==> (r.value.isValid <==> r.value.errors == [])
    ensures r.Ok? ==> |r.value.errors| == |PromptIssues(c).value|
    ensures r.Ok? ==> forall i :: 0 <= i < |r.value.errors| ==> r.value.errors[i] == Message(PromptIssues(c).value[i])
    ensures r.Ok? ==> (r.value.isValid <==> PromptRulesHold(c))
  {
    var issues :- PromptIssues(c);
    NoPromptIssuesExactly(c);
    Ok(ToReport(issues))
  }

  /** No rule of the prompt section is broken: both keys are present and
      well typed, and the per-variable check finds nothing. */
  predicate PromptRulesHold(c: Dict) {
    Has(c, "input_variables") && Has(c, "template")
    && !WrongTyped(c, "input_variables", KList) && !WrongTyped(c, "template", KStr)
    && UnreferencedVariables(At(c, "input_variables"), At(c, "template")) == Ok([])
  }

  /** The prompt validator finds no issue exactly when no prompt rule is
      broken. */
  lemma NoPromptIssuesExactly(c: Dict)
    requires PromptIssues(c).Ok?
    ensures PromptIssues(c).value == [] <==> PromptRulesHold(c)
  {
    var fixed := RequiredCheck(c, "input_variables", KList) + RequiredCheck(c, "template", KStr);
    assert fixed == [] <==> (Has(c, "input_variables") && Has(c, "template")
                             && !WrongTyped(c, "input_variables", KList) && !WrongTyped(c, "template", KStr));
    if Has(c, "input_variables") && Has(c, "template") {
      var u := UnreferencedVariables(At(c, "input_variables"), At(c, "template"));
      var found := UnreferencedIssues(u.value);
      assert PromptIssues(c).value == fixed + found;
      assert found == [] <==> u.value == [];
    }
  }

  /** A prompt whose every listed variable appears as a placeholder in the
      string template is valid. */
  lemma ReferencedVariablesAreValid(c: Dict, vars: seq<Json>, t: string)
    requires Lookup(c, "input_variables") == Some(JList(vars))
    requires Lookup(c, "template") == Some(JStr(t))
    requires forall i :: 0 <= i < |vars| ==> Contains(t, Placeholder(vars[i]))
    ensures ValidatePrompt(c).Ok? && ValidatePrompt(c).value.isValid
  {
    assert forall i :: 0 <= i < |vars| ==> Referenced(vars[i], JStr(t));
    ScanVariablesAllReferenced(vars, JStr(t));
    assert UnreferencedVariables(At(c, "input_variables"), At(c, "template")) == Ok([]);
    RequiredCheckPasses(c, "input_variables", KList);
    RequiredCheckPasses(c, "template", KStr);
    var none: seq<Issue> := [];
    assert UnreferencedIssues([]) == none;
    assert PromptIssues(c) == Ok(none + none + none);
  }

  // ---------------------------------------------------------------------
  // Response and theme sections

  const ResponseFields := [
    ("speak_responses", KBool),
    ("response_delay_time", KNumber),
    ("response_stream_lag_time", KNumber),
    ("speech_rate_wpm", KNumber),
    ("voice_name", KStr)
  ]

  const ThemeFields := [
    ("app_name", KStr),
    ("source_theme", KStr),
    ("load_theme_from_hf_hub", KBool),
    ("font", KList)
  ]

  /** A section whose fields are all optional: a present field of the wrong
      type is the only error, reported in field order. */
  function ValidateOptional(c: Dict, fields: seq<(string, Kind)>): (r: Report)
    ensures r.isValid <==> r.errors == []
    ensures r.isValid <==> forall f, k :: (f, k) in fields ==> !WrongTyped(c, f, k)
  {
    ToReport(OptionalChecks(c, fields))
  }

  /** Every error of an optional-field section names a field of the section
      that is present with the wrong type. */
  lemma OptionalErrorsSound(c: Dict, fields: seq<(string, Kind)>)
    ensures forall i :: 0 <= i < |ValidateOptional(c, fields).errors| ==>
              exists f, k :: (f, k) in fields && WrongTyped(c, f, k) &&
                             ValidateOptional(c, fields).errors[i] == Message(WrongType(f, k, true))
  {
    var issues := OptionalChecks(c, fields);
    var r := ValidateOptional(c, fields);
    forall i | 0 <= i < |r.errors|
      ensures exists f, k :: (f, k) in fields && WrongTyped(c, f, k) &&
                             r.errors[i] == Message(WrongType(f, k, true))
    {
      assert issues[i] in issues;
    }
  }

  /** Every field of an optional-field section that is present with the
      wrong type is reported. */
  lemma OptionalErrorsComplete(c: Dict, fields: seq<(string, Kind)>)
    ensures forall f, k :: (f, k) in fields && WrongTyped(c, f, k) ==>
              Message(WrongType(f, k, true)) in ValidateOptional(c, fields).errors
  {
    var issues := OptionalChecks(c, fields);
    var r := ValidateOptional(c, fields);
    forall f, k | (f, k) in fields && WrongTyped(c, f, k)
      ensures Message(WrongType(f, k, true)) in r.errors
    {
      var x := WrongType(f, k, true);
      assert x in issues;
      var i :| 0 <= i < |issues| && issues[i] == x;
      assert r.errors[i] == Message(x);
    }
  }

  /** `validate_response_config`: every field is optional; a present field of
      the wrong type is the only error. */
  function ValidateResponse(c: Dict): (r: Report)
    ensures r.isValid <==> r.errors == []
    ensures r.isValid <==> forall f, k :: (f, k) in ResponseFields ==> !WrongTyped(c, f, k)
    ensures forall i :: 0 <= i < |r.errors| ==>
              exists f, k :: (f, k) in ResponseFields && WrongTyped(c, f, k) &&
                             r.errors[i] == Message(WrongType(f, k, true))
  {
    OptionalErrorsSound(c, ResponseFields);
    ValidateOptional(c, ResponseFields)
  }

  /** Every wrongly typed response field is reported. */
  lemma ResponseReportsEveryBadField(c: Dict)
    ensures forall f, k :: (f, k) in ResponseFields && WrongTyped(c, f, k) ==> Message(WrongType(f, k, true)) in ValidateResponse(c).errors
  {
    OptionalErrorsComplete(c, ResponseFields);
  }

  /** `validate_theme_config`: the same optional-field pattern. */
  function ValidateTheme(c: Dict): (r: Report)
    ensures r.isValid <==> r.errors == []
    ensures r.isValid <==> forall f, k :: (f, k) in ThemeFields ==> !WrongTyped(c, f, k)
    ensures forall i :: 0 <= i < |r.errors| ==>
              exists f, k :: (f, k) in ThemeFields && WrongTyped(c, f, k) &&
                             r.errors[i] == Message(WrongType(f, k, true))
  {
    OptionalErrorsSound(c, ThemeFields);
    ValidateOptional(c, ThemeFields)
  }

  /** Every wrongly typed theme field is reported. */
  lemma ThemeReportsEveryBadField(c: Dict)
    ensures forall f, k :: (f, k) in ThemeFields && WrongTyped(c, f, k) ==> Message(WrongType(f, k, true)) in ValidateTheme(c).errors
  {
    OptionalErrorsComplete(c, ThemeFields);
  }

  /** The empty response and theme sections are valid. */
  lemma EmptySectionsAreValid()
    ensures ValidateResponse([]).isValid
    ensures ValidateTheme([]).isValid
  {
  }

  // ---------------------------------------------------------------------
  // Aggregation

  const FailurePrefix := "Configuration validation failed:\n\n"
  const ErrorIndent := "  - "

  function Header(section: string): string {
    section + " Configuration Errors:"
  }

  /** A section's lines in the aggregated report: nothing when it is valid,
      otherwise its header followed by its errors, indented. */
  function SectionLines(section: string, r: Report): seq<string> {
    if r.isValid then [] else [Header(section)] + Indented(r.errors)
  }

  /** The f-string `f"  - {err}"` applied to each error. */
  function Indented(errors: seq<string>): (r: seq<string>)
    ensures |r| == |errors|
    ensures forall i :: 0 <= i < |errors| ==> r[i] == ErrorIndent + errors[i]
  {
    seq(|errors|, i requires 0 <= i < |errors| => ErrorIndent + errors[i])
  }

  function ReportLines(m: Report, p: Report, r: Report, t: Report): seq<string> {
    SectionLines("Model", m) + SectionLines("Prompt", p) + SectionLines("Response", r) + SectionLines("Theme", t)
  }

  /** `validate_all_configs`: nothing when every section is valid, otherwise a
      single `ConfigValidationError` carrying every section's errors. A
      `TypeError` from the prompt validator propagates. */
  function ValidateAllConfigs(mc: Dict, pc: Dict, rc: Dict, tc: Dict, apiKey: Option<string>): (r: Result<()>)
    ensures ValidatePrompt(pc).Raised? ==> r == Raised(ValidatePrompt(pc).error)
    ensures ValidatePrompt(pc).Ok? ==>
              (r.Ok? <==> ValidateModel(mc, apiKey).isValid && ValidatePrompt(pc).value.isValid
                          && ValidateResponse(rc).isValid && ValidateTheme(tc).isValid)
    ensures r.Raised? && ValidatePrompt(pc).Ok? ==>
              r.error.ConfigValidationError? && IsPrefix(FailurePrefix, r.error.message)
  {
    var m := ValidateModel(mc, apiKey);
    var p :- ValidatePrompt(pc);
    var r, t := ValidateResponse(rc), ValidateTheme(tc);
    NoLinesWhenAllValid(m, p, r, t);
    if |ReportLines(m, p, r, t)| == 0 then Ok(())
    else Raised(ConfigValidationError(FailureText(m, p, r, t)))
  }

  /** The aggregated report is empty exactly when every section is valid. */
  lemma NoLinesWhenAllValid(m: Report, p: Report, r: Report, t: Report)
    ensures |ReportLines(m, p, r, t)| == 0 <==> m.isValid && p.isValid && r.isValid && t.isValid
  {
  }

  /** The text of the aggregated `ConfigValidationError`. */
  function FailureText(m: Report, p: Report, r: Report, t: Report): (s: string)
    ensures IsPrefix(FailurePrefix, s)
  {
    var s := FailurePrefix + Join("\n", ReportLines(m, p, r, t));
    assert s[..|FailurePrefix|] == FailurePrefix;
    s
  }

  /** The header lines of a report, in order. */
  function Headers(lines: seq<string>): seq<string>
    decreases |lines|
  {
    if |lines| == 0 then []
    else (if IsPrefix(ErrorIndent, lines[0]) then [] else [lines[0]]) + Headers(lines[1..])
  }

  lemma {:induction false} HeadersAppend(a: seq<string>, b: seq<string>)
    ensures Headers(a + b) == Headers(a) + Headers(b)
    decreases |a|
  {
    if |a| > 0 {
      var head := if IsPrefix(ErrorIndent, a[0]) then [] else [a[0]];
      assert (a + b)[0] == a[0];
      assert (a + b)[1..] == a[1..] + b;
      HeadersAppend(a[1..], b);
      assert Headers(a + b) == head + Headers(a[1..] + b);
      assert Headers(a) == head + Headers(a[1..]);
    } else {
      assert a + b == b;
    }
  }

  lemma {:induction false} IndentedLinesHaveNoHeaders(errors: seq<string>)
    ensures Headers(Indented(errors)) == []
    decreases |errors|
  {
    var lines := Indented(errors);
    if |errors| > 0 {
      assert (ErrorIndent + errors[0])[..|ErrorIndent|] == ErrorIndent;
      assert lines[1..] == Indented(errors[1..]);
      IndentedLinesHaveNoHeaders(errors[1..]);
    }
  }

  lemma SectionHeaders(section: string, r: Report)
    requires |section| > 0 && section[0] != ' '
    ensures Headers(SectionLines(section, r)) == if r.isValid then [] else [Header(section)]
  {
    if !r.isValid {
      var body := Indented(r.errors);
      HeadersAppend([Header(section)], body);
      IndentedLinesHaveNoHeaders(r.errors);
      var h := Header(section);
      assert h[..|ErrorIndent|][0] == section[0] != ErrorIndent[0];
      assert !IsPrefix(ErrorIndent, h);
      assert [h][1..] == [];
      assert Headers([h]) == [h] + Headers([]);
      assert SectionLines(section, r) == [h] + body;
      assert Headers([h] + body) == [h] + [];
    }
  }

  /** The aggregated report holds one header per invalid section, in the
      fixed order Model, Prompt, Response, Theme, and no other header. */
  lemma ReportHeadersInOrder(m: Report, p: Report, r: Report, t: Report)
    ensures Headers(ReportLines(m, p, r, t)) ==
              (if m.isValid then [] else [Header("Model")])
              + (if p.isValid then [] else [Header("Prompt")])
              + (if r.isValid then [] else [Header("Response")])
              + (if t.isValid then [] else [Header("Theme")])
  {
    var a, b, c, d := SectionLines("Model", m), SectionLines("Prompt", p), SectionLines("Response", r), SectionLines("Theme", t);
    HeadersAppend(a, b);
    HeadersAppend(a + b, c);
    HeadersAppend(a + b + c, d);
    SectionHeaders("Model", m);
    SectionHeaders("Prompt", p);
    SectionHeaders("Response", r);
    SectionHeaders("Theme", t);
    assert ReportLines(m, p, r, t) == a + b + c + d;
    assert Headers(ReportLines(m, p, r, t)) == Headers(a) + Headers(b) + Headers(c) + Headers(d);
  }

  /** Every line of an invalid section's block (its header and each indented
      error) appears in the text of the aggregated error. */
  lemma SectionInMessage(lines: seq<string>, before: seq<string>, section: string, rep: Report, after: seq<string>)
    requires !rep.isValid
    requires lines == before + SectionLines(section, rep) + after
    ensures ListsSection(FailurePrefix + Join("\n", lines), section, rep)
  {
    var k := |before|;
    assert lines[k] == Header(section);
    JoinContainsPart("\n", lines, k);
    ContainsWiden(FailurePrefix, Join("\n", lines), "", Header(section));
    assert FailurePrefix + Join("\n", lines) + "" == FailurePrefix + Join("\n", lines);
    forall e | e in rep.errors
      ensures Contains(FailurePrefix + Join("\n", lines), ErrorIndent + e)
    {
      var i :| 0 <= i < |rep.errors| && rep.errors[i] == e;
      assert lines[k + 1 + i] == ErrorIndent + e;
      JoinContainsPart("\n", lines, k + 1 + i);
      ContainsWiden(FailurePrefix, Join("\n", lines), "", ErrorIndent + e);
    }
  }

  /** The text names the section's header and carries each of its errors. */
  predicate ListsSection(message: string, section: string, rep: Report) {
    Contains(message, Header(section))
    && forall e :: e in rep.errors ==> Contains(message, ErrorIndent + e)
  }

  /** The aggregated text names the header of every invalid section and
      carries each of that section's errors. */
  lemma FailureTextListsEveryError(m: Report, p: Report, r: Report, t: Report)
    ensures !m.isValid ==> ListsSection(FailureText(m, p, r, t), "Model", m)
    ensures !p.isValid ==> ListsSection(FailureText(m, p, r, t), "Prompt", p)
    ensures !r.isValid ==> ListsSection(FailureText(m, p, r, t), "Response", r)
    ensures !t.isValid ==> ListsSection(FailureText(m, p, r, t), "Theme", t)
  {
    var a, b, c, d := SectionLines("Model", m), SectionLines("Prompt", p), SectionLines("Response", r), SectionLines("Theme", t);
    var lines := ReportLines(m, p, r, t);
    assert lines == a + b + c + d;
    assert FailureText(m, p, r, t) == FailurePrefix + Join("\n", lines);
    Regroup(a, b, c, d);
    if !m.isValid { SectionInMessage(lines, [], "Model", m, b + c + d); }
    if !p.isValid { SectionInMessage(lines, a, "Prompt", p, c + d); }
    if !r.isValid { SectionInMessage(lines, a + b, "Response", r, d); }
    if !t.isValid { SectionInMessage(lines, a + b + c, "Theme", t, []); }
  }

  /** The four section blocks, grouped around each one in turn. */
  lemma Regroup(a: seq<string>, b: seq<string>, c: seq<string>, d: seq<string>)
    ensures a + b + c + d == [] + a + (b + c + d)
    ensures a + b + c + d == a + b + (c + d)
    ensures a + b + c + d == a + b + c + d + []
  {
    assert a + (b + c + d) == a + b + c + d;
    assert [] + a == a;
    assert (a + b) + (c + d) == a + b + c + d;
  }

  /** Errors are collected from every section before failing: when the
      prompt section can be checked at all, the raised message names the
      header of every invalid section and carries each of its errors. */
  lemma FailureListsEveryError(mc: Dict, pc: Dict, rc: Dict, tc: Dict, apiKey: Option<string>)
    requires ValidatePrompt(pc).Ok?
    ensures var out := ValidateAllConfigs(mc, pc, rc, tc, apiKey);
            var m, p, r, t := ValidateModel(mc, apiKey), ValidatePrompt(pc).value, ValidateResponse(rc), ValidateTheme(tc);
            (!m.isValid ==> out.Raised? && ListsSection(out.error.message, "Model", m))
            && (!p.isValid ==> out.Raised? && ListsSection(out.error.message, "Prompt", p))
            && (!r.isValid ==> out.Raised? && ListsSection(out.error.message, "Response", r))
            && (!t.isValid ==> out.Raised? && ListsSection(out.error.message, "Theme", t))
  {
    var m, p, r, t := ValidateModel(mc, apiKey), ValidatePrompt(pc).value, ValidateResponse(rc), ValidateTheme(tc);
    FailureTextListsEveryError(m, p, r, t);
    if |ReportLines(m, p, r, t)| > 0 {
      assert ValidateAllConfigs(mc, pc, rc, tc, apiKey) == Raised(ConfigValidationError(FailureText(m, p, r, t)));
    } else {
      assert m.isValid && p.isValid && r.isValid && t.isValid;
    }
  }
}
