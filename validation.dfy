/**
 * The static checks of `Validator` (utils/validation.js). Each check takes
 * an untyped JavaScript value and answers `{ valid: true }` or
 * `{ valid: false, error }`; `validateAndSanitize` runs the checks for the
 * parameters that are present and collects their errors and cleaned values.
 */
module Validation {
  import opened Common
  import opened Text

  datatype Validation = Valid | Invalid(error: string)

  /**
   * A parameter that `Number(...)` converts: absent (`undefined`), `null`,
   * the empty string, or any other value together with what `Number`
   * makes of it (`None` for NaN).
   */
  datatype NumericInput = Missing | NullValue | EmptyText | Given(number: Option<real>)

  /** `Number(x)`: NaN for undefined, 0 for null and for the empty string. */
  function ToNumber(x: NumericInput): Option<real>
  {
    match x
    case Missing => None
    case NullValue => Some(0.0)
    case EmptyText => Some(0.0)
    case Given(n) => n
  }

  /** A truthy string: `!!v && typeof v === 'string'`. */
  predicate NonEmptyString(v: JsValue) {
    v.Str? && v.s != ""
  }

  /** A string with a character other than white space. */
  predicate HasText(s: string) {
    !AllSpace(s)
  }

  // ---------------------------------------------------------------------
  // Single-value checks
  // ---------------------------------------------------------------------

  /** The characters `/[<>:"/\\|?*]/` rejects in a model name. */
  predicate IsForbiddenModelChar(c: char) {
    c == '<' || c == '>' || c == ':' || c == '"' || c == '/' || c == '\\' || c == '|' || c == '?' || c == '*'
  }

  function FirstForbidden(s: string): (k: nat)
    ensures k <= |s|
    ensures forall i :: 0 <= i < k ==> !IsForbiddenModelChar(s[i])
    ensures k < |s| ==> IsForbiddenModelChar(s[k])
  {
    if s == [] || IsForbiddenModelChar(s[0]) then 0 else 1 + FirstForbidden(s[1..])
  }

  predicate ModelNameClean(s: string) {
    forall i :: 0 <= i < |s| ==> !IsForbiddenModelChar(s[i])
  }

  /**
   * validateModel: a model name must be a non-empty string, not all white
   * space, with none of the characters < > : " / \ | ? *.
   */
  function ValidateModel(model: JsValue): (r: Validation)
    ensures r.Valid? <==> NonEmptyString(model) && HasText(model.s) && ModelNameClean(model.s)
    ensures !NonEmptyString(model) ==> r == Invalid("Model name is required")
    ensures r == Invalid("Model name cannot be empty") <==> NonEmptyString(model) && !HasText(model.s)
  {
    if !Truthy(model) || !model.Str? then Invalid("Model name is required")
    else if |Trim(model.s)| == 0 then Invalid("Model name cannot be empty")
    else if FirstForbidden(model.s) < |model.s| then Invalid("Model name contains invalid characters")
    else Valid
  }

  /**
   * validateTemperature: absent and null pass; otherwise the number must
   * not be NaN and must lie in [0, 2].
   */
  function ValidateTemperature(temperature: NumericInput): (r: Validation)
    ensures r.Valid? <==> (temperature.Missing? || temperature.NullValue? ||
      (ToNumber(temperature).Some? && 0.0 <= ToNumber(temperature).value <= 2.0))
    ensures r.Invalid? && ToNumber(temperature).Some? ==> r.error == "Temperature must be between 0 and 2"
  {
    if temperature.Missing? || temperature.NullValue? then Valid
    else
      match ToNumber(temperature)
      case None => Invalid("Temperature must be a number")
      case Some(num) =>
        if num < 0.0 || num > 2.0 then Invalid("Temperature must be between 0 and 2") else Valid
  }

  /**
   * validateMaxTokens: absent, null and the empty string pass; otherwise
   * the number must not be NaN and must lie in [1, 100000]. Fractions pass.
   */
  function ValidateMaxTokens(maxTokens: NumericInput): (r: Validation)
    ensures r.Valid? <==> (maxTokens.Missing? || maxTokens.NullValue? || maxTokens.EmptyText? ||
      (ToNumber(maxTokens).Some? && 1.0 <= ToNumber(maxTokens).value <= 100000.0))
    ensures r == Invalid("Max tokens must be a number") <==> maxTokens.Given? && maxTokens.number.None?
  {
    if maxTokens.Missing? || maxTokens.NullValue? || maxTokens.EmptyText? then Valid
    else
      match ToNumber(maxTokens)
      case None => Invalid("Max tokens must be a number")
      case Some(num) =>
        if num < 1.0 then Invalid("Max tokens must be a positive number")
        else if num > 100000.0 then Invalid("Max tokens cannot exceed 100,000")
        else Valid
  }

  const BuiltInPersonas: seq<string> := ["logician", "market_cynic", "lateral_thinker", "five_whys"]

  /** validatePersona: one of the four built-in personas, or any id starting "custom_". */
  function ValidatePersona(persona: JsValue): (r: Validation)
    ensures r.Valid? <==> NonEmptyString(persona) && (persona.s in BuiltInPersonas || StartsWith(persona.s, "custom_"))
  {
    if !Truthy(persona) || !persona.Str? then Invalid("Persona is required")
    else if persona.s !in BuiltInPersonas && !StartsWith(persona.s, "custom_") then Invalid("Invalid persona selection")
    else Valid
  }

  const MaxTextLength: nat := 10000

  /**
   * validateUserText: a non-empty string whose trimmed length is between
   * 1 and 10000; white space around the text does not count.
   */
  function ValidateUserText(text: JsValue): (r: Validation)
    ensures r.Valid? <==> NonEmptyString(text) && HasText(text.s) && |Trim(text.s)| <= MaxTextLength
  {
    if !Truthy(text) || !text.Str? then Invalid("Text input is required")
    else
      var trimmed := Trim(text.s);
      if |trimmed| == 0 then Invalid("Please enter some text to analyze")
      else if |trimmed| > MaxTextLength then Invalid("Text input is too long (max 10,000 characters)")
      else Valid
  }

  /** `v && typeof v === 'string' && v.trim().length > 0`: a string with a character other than white space. */
  function FilledString(v: JsValue): (b: bool)
    ensures b <==> NonEmptyString(v) && HasText(v.s)
  {
    if !Truthy(v) || !v.Str? then false
    else
      TrimEmptyIffAllSpace(v.s);
      |Trim(v.s)| != 0
  }

  /**
   * validatePersonaData: the name and the prompt must both be non-blank
   * strings, the name at most 100 and the prompt at most 5000 characters
   * long (counting the white space around them).
   */
  function ValidatePersonaData(persona: JsValue): (r: Validation)
    ensures r.Valid? <==> (IsObjectType(persona) && Truthy(persona) &&
      NonEmptyString(Get(persona, "name")) && HasText(Get(persona, "name").s) && |Get(persona, "name").s| <= 100 &&
      NonEmptyString(Get(persona, "prompt")) && HasText(Get(persona, "prompt").s) && |Get(persona, "prompt").s| <= 5000)
  {
    if !Truthy(persona) || !IsObjectType(persona) then Invalid("Persona data is required")
    else
      var name := Get(persona, "name");
      var prompt := Get(persona, "prompt");
      if !FilledString(name) then Invalid("Persona name is required")
      else if |name.s| > 100 then Invalid("Persona name is too long (max 100 characters)")
      else if !FilledString(prompt) then Invalid("Persona prompt is required")
      else if |prompt.s| > 5000 then Invalid("Persona prompt is too long (max 5,000 characters)")
      else Valid
  }

  // ---------------------------------------------------------------------
  // Scanning a list for its first bad element
  // ---------------------------------------------------------------------

  /** Element `i` is the first at or after `from` whose check reports a problem. */
  predicate FirstProblemAt(items: seq<JsValue>, problem: (JsValue, nat) -> Option<string>, from: nat, i: int) {
    from <= i < |items| && problem(items[i], i).Some? &&
    forall j :: from <= j < i ==> problem(items[j], j).None?
  }

  /**
   * The problem of the first element at or after index `from` that has
   * one: `None` exactly when none of them has a problem.
   */
  function FirstOf(items: seq<JsValue>, problem: (JsValue, nat) -> Option<string>, from: nat): (r: Option<string>)
    ensures r.None? <==> forall i :: from <= i < |items| ==> problem(items[i], i).None?
    ensures r.Some? ==> exists i :: FirstProblemAt(items, problem, from, i) && r == problem(items[i], i)
    decreases |items| - from
  {
    if from >= |items| then None
    else if problem(items[from], from).Some? then
      assert FirstProblemAt(items, problem, from, from);
      problem(items[from], from)
    else
      var r := FirstOf(items, problem, from + 1);
      assert r.Some? ==> exists i :: FirstProblemAt(items, problem, from, i) && r == problem(items[i], i) by {
        if r.Some? {
          var i :| FirstProblemAt(items, problem, from + 1, i) && r == problem(items[i], i);
          assert FirstProblemAt(items, problem, from, i);
        }
      }
      r
  }

  /**
   * `for (const [index, item] of items.entries())` with an early exit on
   * the first item that has a problem.
   */
  method FirstProblem(items: seq<JsValue>, problem: (JsValue, nat) -> Option<string>) returns (r: Option<string>)
    ensures r == FirstOf(items, problem, 0)
  {
    var index := 0;
    while index < |items|
      invariant 0 <= index <= |items|
      invariant FirstOf(items, problem, index) == FirstOf(items, problem, 0)
    {
      var found := problem(items[index], index);
      if found.Some? {
        return found;
      }
      index := index + 1;
    }
    return None;
  }

  // ---------------------------------------------------------------------
  // Sessions
  // ---------------------------------------------------------------------

  const Roles: seq<JsValue> := [Str("user"), Str("assistant"), Str("system")]

  /** The problem validateSession reports for the history entry at `index`, if any. */
  function HistoryEntryProblem(turn: JsValue, index: nat): (r: Option<string>)
    ensures r.None? <==> Truthy(turn) && IsObjectType(turn) && Get(turn, "role") in Roles && Get(turn, "content").Str?
  {
    if !Truthy(turn) || !IsObjectType(turn) then Some("Invalid history entry at index " + NatToString(index))
    else if !Truthy(Get(turn, "role")) || Get(turn, "role") !in Roles then
      Some("Invalid role in history entry at index " + NatToString(index))
    else if !Get(turn, "content").Str? then Some("Invalid content in history entry at index " + NatToString(index))
    else None
  }

  /**
   * validateSession: the session must be an object whose persona and model
   * pass their checks and whose history is an array of entries, each an
   * object with role user, assistant or system and a string content (which
   * may be empty). The first failing check gives the error.
   */
  method ValidateSession(session: JsValue) returns (r: Validation)
    ensures r.Valid? <==>
      Truthy(session) && IsObjectType(session) &&
      ValidatePersona(Get(session, "persona")).Valid? && ValidateModel(Get(session, "model")).Valid? &&
      Get(session, "history").Arr? &&
      forall i :: 0 <= i < |Get(session, "history").items| ==>
        HistoryEntryProblem(Get(session, "history").items[i], i).None?
    ensures !(Truthy(session) && IsObjectType(session)) ==> r == Invalid("Session data is required")
    ensures Truthy(session) && IsObjectType(session) && ValidatePersona(Get(session, "persona")).Invalid? ==>
      r == ValidatePersona(Get(session, "persona"))
    ensures (Truthy(session) && IsObjectType(session) && ValidatePersona(Get(session, "persona")).Valid? &&
      ValidateModel(Get(session, "model")).Invalid?) ==>
      r == ValidateModel(Get(session, "model"))
    ensures (Truthy(session) && IsObjectType(session) && ValidatePersona(Get(session, "persona")).Valid? &&
      ValidateModel(Get(session, "model")).Valid? && !Get(session, "history").Arr?) ==>
      r == Invalid("History must be an array")
    ensures (Truthy(session) && IsObjectType(session) && ValidatePersona(Get(session, "persona")).Valid? &&
      ValidateModel(Get(session, "model")).Valid? && Get(session, "history").Arr?) ==>
      r == match FirstOf(Get(session, "history").items, HistoryEntryProblem, 0)
        case Some(e) => Invalid(e)
        case None => Valid
    ensures (r.Invalid? && Get(session, "history").Arr? && ValidatePersona(Get(session, "persona")).Valid? &&
      ValidateModel(Get(session, "model")).Valid? && Truthy(session) && IsObjectType(session)) ==>
      exists i :: FirstProblemAt(Get(session, "history").items, HistoryEntryProblem, 0, i) &&
        Some(r.error) == HistoryEntryProblem(Get(session, "history").items[i], i)
  {
    if !Truthy(session) || !IsObjectType(session) {
      return Invalid("Session data is required");
    }
    var persona, model, history := Get(session, "persona"), Get(session, "model"), Get(session, "history");
    var personaValidation := ValidatePersona(persona);
    if personaValidation.Invalid? {
      return personaValidation;
    }
    var modelValidation := ValidateModel(model);
    if modelValidation.Invalid? {
      return modelValidation;
    }
    if !history.Arr? {
      return Invalid("History must be an array");
    }
    var problem := FirstProblem(history.items, HistoryEntryProblem);
    if problem.Some? {
      return Invalid(problem.value);
    }
    return Valid;
  }

  // ---------------------------------------------------------------------
  // Sanitising
  // ---------------------------------------------------------------------

  /** The characters `/[\x00-\x08\x0B\x0C\x0E-\x1F\x7F]/` removes. */
  predicate IsControl(c: char) {
    c <= '\U{0008}' || c == '\U{000B}' || c == '\U{000C}' || ('\U{000E}' <= c <= '\U{001F}') || c == '\U{007F}'
  }

  /** `s.replace(/[\x00-\x08\x0B\x0C\x0E-\x1F\x7F]/g, '')`. */
  function RemoveControls(s: string): (r: string)
    ensures |r| <= |s|
    ensures forall i :: 0 <= i < |r| ==> !IsControl(r[i])
    ensures (forall i :: 0 <= i < |s| ==> !IsControl(s[i])) ==> r == s
  {
    if s == [] then []
    else (if IsControl(s[0]) then [] else [s[0]]) + RemoveControls(s[1..])
  }

  /**
   * sanitizeInput: "" for anything but a string; otherwise the string
   * trimmed, stripped of control characters, and cut to 10000 characters:
   * the result is the first (at most 10000) characters of the cleaned text.
   */
  function SanitizeInput(input: JsValue): (r: string)
    ensures !input.Str? ==> r == ""
    ensures |r| <= MaxTextLength
    ensures forall i :: 0 <= i < |r| ==> !IsControl(r[i])
    ensures input.Str? ==> StartsWith(RemoveControls(Trim(input.s)), r)
    ensures input.Str? && |RemoveControls(Trim(input.s))| <= MaxTextLength ==> r == RemoveControls(Trim(input.s))
    ensures input.Str? ==> |r| == if |RemoveControls(Trim(input.s))| <= MaxTextLength then |RemoveControls(Trim(input.s))| else MaxTextLength
  {
    if !input.Str? then ""
    else
      var cleaned := RemoveControls(Trim(input.s));
      if |cleaned| <= MaxTextLength then cleaned else cleaned[..MaxTextLength]
  }

  /**
   * Trimming comes before control characters are removed, so a control
   * character in front of a space leaves that space at the start of the
   * sanitised text.
   */
  lemma SanitizeCanLeaveLeadingSpace()
    ensures SanitizeInput(Str("\U{0001} a")) == " a"
  {
    var s := "\U{0001} a";
    assert !IsSpace(s[0]) && !IsSpace(s[2]);
    assert TrimStart(s) == s;
    assert TrimEnd(s) == s;
    assert Trim(s) == s;
    assert RemoveControls(s[2..]) == "a";
    assert RemoveControls(s[1..]) == " a";
    assert RemoveControls(s) == " a";
  }

  /** Text that passes validateUserText is shortened by sanitising only by its control characters. */
  lemma SanitizeKeepsValidText(text: JsValue)
    requires ValidateUserText(text).Valid?
    ensures SanitizeInput(text) == RemoveControls(Trim(text.s))
  {
  }

  // ---------------------------------------------------------------------
  // validateAndSanitize
  // ---------------------------------------------------------------------

  /** The parameters; `Undefined` (or `Missing`) is a parameter that was not given. */
  datatype Params = Params(
    userText: JsValue,
    model: JsValue,
    persona: JsValue,
    temperature: NumericInput,
    maxTokens: NumericInput)

  /** The `sanitized` object: a field is `Some` when it was set. */
  datatype SanitizedData = SanitizedData(
    userText: Option<string>,
    model: Option<string>,
    persona: Option<string>,
    temperature: Option<real>,
    maxTokens: Option<real>)

  datatype Report = Report(valid: bool, errors: seq<string>, data: SanitizedData)

  /** The error list contribution of one check: its error, or nothing. */
  function ErrorOf(given: bool, v: Validation): (r: seq<string>)
    ensures |r| <= 1
    ensures r == [] <==> !given || v.Valid?
  {
    if given && v.Invalid? then [v.error] else []
  }

  /** The cleaned value a parameter leaves in `sanitized`: kept when it is present and passes its check. */
  function Kept<T>(given: bool, v: Validation, cleaned: T): (r: Option<T>)
    ensures r.Some? <==> given && v.Valid?
    ensures r.Some? ==> r.value == cleaned
  {
    if given && v.Valid? then Some(cleaned) else None
  }

  /**
   * One step of validateAndSanitize: when the parameter is present, its
   * check's error is appended to the list, or its cleaned value is kept.
   */
  method CheckField<T>(errors: seq<string>, given: bool, v: Validation, cleaned: T)
    returns (errors': seq<string>, field: Option<T>)
    ensures errors' == errors + ErrorOf(given, v)
    ensures field == Kept(given, v, cleaned)
  {
    errors', field := errors, None;
    if given {
      if v.Invalid? {
        errors' := errors + [v.error];
      } else {
        field := Some(cleaned);
      }
    }
  }

  /** The model name as stored: trimmed. */
  function TrimmedModel(model: JsValue): string {
    if model.Str? then Trim(model.s) else ""
  }

  /** The persona as stored: unchanged. */
  function PersonaId(persona: JsValue): string {
    if persona.Str? then persona.s else ""
  }

  /**
   * validateAndSanitize: every parameter that is present is checked; the
   * errors of the failing ones are listed in the order user text, model,
   * persona, temperature, max tokens; each passing one is stored cleaned
   * (the text sanitised, the model trimmed, the numbers converted). The
   * report is valid exactly when no present parameter fails.
   */
  method ValidateAndSanitize(params: Params) returns (r: Report)
    ensures r.errors ==
      ErrorOf(!params.userText.Undefined?, ValidateUserText(params.userText)) +
      ErrorOf(!params.model.Undefined?, ValidateModel(params.model)) +
      ErrorOf(!params.persona.Undefined?, ValidatePersona(params.persona)) +
      ErrorOf(!params.temperature.Missing?, ValidateTemperature(params.temperature)) +
      ErrorOf(!params.maxTokens.Missing?, ValidateMaxTokens(params.maxTokens))
    ensures r.valid <==> r.errors == []
    ensures r.valid <==> ((params.userText.Undefined? || ValidateUserText(params.userText).Valid?) &&
      (params.model.Undefined? || ValidateModel(params.model).Valid?) &&
      (params.persona.Undefined? || ValidatePersona(params.persona).Valid?) &&
      (params.temperature.Missing? || ValidateTemperature(params.temperature).Valid?) &&
      (params.maxTokens.Missing? || ValidateMaxTokens(params.maxTokens).Valid?))
    ensures r.data == SanitizedData(
      Kept(!params.userText.Undefined?, ValidateUserText(params.userText), SanitizeInput(params.userText)),
      Kept(!params.model.Undefined?, ValidateModel(params.model), TrimmedModel(params.model)),
      Kept(!params.persona.Undefined?, ValidatePersona(params.persona), PersonaId(params.persona)),
      Kept(!params.temperature.Missing?, ValidateTemperature(params.temperature), ToNumber(params.temperature).GetOr(0.0)),
      Kept(!params.maxTokens.Missing?, ValidateMaxTokens(params.maxTokens), ToNumber(params.maxTokens).GetOr(0.0)))
  {
    var errors: seq<string> := [];
    var userText, model, persona, temperature, maxTokens;
    errors, userText := CheckField(errors, !params.userText.Undefined?, ValidateUserText(params.userText),
      SanitizeInput(params.userText));
    assert errors == ErrorOf(!params.userText.Undefined?, ValidateUserText(params.userText));
    errors, model := CheckField(errors, !params.model.Undefined?, ValidateModel(params.model),
      TrimmedModel(params.model));
    errors, persona := CheckField(errors, !params.persona.Undefined?, ValidatePersona(params.persona),
      PersonaId(params.persona));
    errors, temperature := CheckField(errors, !params.temperature.Missing?, ValidateTemperature(params.temperature),
      ToNumber(params.temperature).GetOr(0.0));
    errors, maxTokens := CheckField(errors, !params.maxTokens.Missing?, ValidateMaxTokens(params.maxTokens),
      ToNumber(params.maxTokens).GetOr(0.0));
    return Report(|errors| == 0, errors, SanitizedData(userText, model, persona, temperature, maxTokens));
  }

  /** A null max-tokens value passes validation and is then stored as the number 0. */
  lemma NullMaxTokensBecomesZero()
    ensures ValidateMaxTokens(NullValue).Valid? && ToNumber(NullValue) == Some(0.0)
    ensures ValidateMaxTokens(Given(Some(0.0))).Invalid?
  {
  }
}
