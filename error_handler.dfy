/**
 * The application-wide `ErrorHandler` (utils/errorHandler.js): a log of
 * the last 100 errors, and the user-facing answers built for database,
 * Ollama and validation failures. The timestamp of an entry is a
 * parameter (`new Date().toISOString()` in the source).
 */
module ErrorHandling {
  import opened Common
  import opened Text

  datatype ErrorEntry = ErrorEntry(
    timestamp: string,
    message: string,
    stack: string,
    context: map<string, JsValue>,
    severity: string)

  /**
   * The objects the `handle*` methods return; `ok` is always false. The
   * `hint` property of a validation failure is `validationHint` here,
   * since it need not be a text.
   */
  datatype ErrorResponse =
    | DatabaseFailure(ok: bool, error: string, hint: string, graceful: bool)
    | OllamaFailure(ok: bool, error: string, hint: string, suggestions: seq<string>)
    | ValidationFailure(ok: bool, error: string, validationHint: Hint, field: string, value: JsValue)

  /** The last `n` elements of `s`, or all of it when it is shorter. */
  function LastN<T>(s: seq<T>, n: nat): (r: seq<T>)
    ensures |r| == if |s| < n then |s| else n
    ensures r == s[|s| - |r|..]
  {
    if |s| <= n then s else s[|s| - n..]
  }

  /** `log.push(entry)` followed by one `log.shift()` when the log got longer than `max`. */
  function Pushed<T>(log: seq<T>, entry: T, max: nat): (r: seq<T>)
  {
    if |log + [entry]| > max then (log + [entry])[1..] else log + [entry]
  }

  /**
   * Pushing onto a log that holds the last `max` entries of a history
   * gives the last `max` entries of the history extended by the new entry:
   * the log always keeps the most recent entries and drops the oldest.
   */
  lemma PushedKeepsMostRecent<T>(history: seq<T>, entry: T, max: nat)
    requires max > 0
    ensures Pushed(LastN(history, max), entry, max) == LastN(history + [entry], max)
  {
    var log := LastN(history, max);
    var h := history + [entry];
    if |history| < max {
      assert log == history;
    } else {
      assert |log| == max;
      assert (log + [entry])[1..] == h[|h| - max..];
    }
  }

  const DefaultHints: map<string, string> := map[
    "temperature" := "Temperature must be between 0 and 2",
    "maxTokens" := "Max tokens must be a positive number",
    "model" := "Model name cannot be empty",
    "persona" := "Please select a valid persona",
    "userText" := "Please enter some text to analyze"]

  const FallbackHint: string := "Please check your input and try again"

  /**
   * The names every object literal inherits from `Object.prototype`; each
   * of them reads as a function or, for `__proto__`, an object.
   */
  const PrototypeMembers: seq<string> := [
    "constructor", "hasOwnProperty", "isPrototypeOf", "propertyIsEnumerable", "toString", "valueOf",
    "toLocaleString", "__proto__", "__defineGetter__", "__defineSetter__", "__lookupGetter__",
    "__lookupSetter__"]

  /** What `hints[field] || fallback` reads: a hint text, or the inherited member of that name. */
  datatype Hint = HintText(text: string) | InheritedMember(name: string)

  /**
   * getValidationHint: the fixed hint of one of the five known fields; for
   * a name that the hints object inherits, that (truthy) inherited member;
   * the generic hint for any other field. The rule is not consulted.
   */
  function GetValidationHint(field: string, rule: string): (r: Hint)
    ensures field in DefaultHints ==> r == HintText(DefaultHints[field])
    ensures field !in DefaultHints && field in PrototypeMembers ==> r == InheritedMember(field)
    ensures field !in DefaultHints && field !in PrototypeMembers ==> r == HintText(FallbackHint)
    ensures r.HintText? ==> r.text != ""
  {
    if field == "temperature" then HintText("Temperature must be between 0 and 2")
    else if field == "maxTokens" then HintText("Max tokens must be a positive number")
    else if field == "model" then HintText("Model name cannot be empty")
    else if field == "persona" then HintText("Please select a valid persona")
    else if field == "userText" then HintText("Please enter some text to analyze")
    else if field in PrototypeMembers then InheritedMember(field)
    else HintText(FallbackHint)
  }

  const OllamaSuggestions: seq<string> := [
    "Check if Ollama is running: `ollama serve` or `brew services start ollama`",
    "Verify the model is installed: `ollama pull llama3:8b`",
    "Try restarting Ollama service",
    "Check if port 11434 is available"]

  class ErrorHandler {
    var errorLog: seq<ErrorEntry>
    const maxLogSize: nat
    /** Every entry logged since the log was last cleared. */
    ghost var logged: seq<ErrorEntry>

    /** The log holds exactly the `maxLogSize` most recent entries. */
    ghost predicate Valid()
      reads this
    {
      maxLogSize == 100 && errorLog == LastN(logged, maxLogSize)
    }

    constructor()
      ensures Valid()
      ensures errorLog == []
    {
      errorLog := [];
      maxLogSize := 100;
      logged := [];
    }

    /**
     * logError: appends the entry and, when the log grew past 100 entries,
     * drops the oldest one.
     */
    method LogError(now: string, message: string, stack: string, context: map<string, JsValue> := map[],
      severity: string := "error")
      requires Valid()
      modifies this
      ensures Valid()
      ensures logged == old(logged) + [ErrorEntry(now, message, stack, context, severity)]
      ensures errorLog == Pushed(old(errorLog), ErrorEntry(now, message, stack, context, severity), maxLogSize)
      ensures |errorLog| <= maxLogSize
      ensures errorLog[|errorLog| - 1] == ErrorEntry(now, message, stack, context, severity)
    {
      var entry := ErrorEntry(now, message, stack, context, severity);
      PushedKeepsMostRecent(logged, entry, maxLogSize);
      errorLog := errorLog + [entry];
      if |errorLog| > maxLogSize {
        errorLog := errorLog[1..];
      }
      logged := logged + [entry];
    }

    /** handleDatabaseError: logs a `warn` entry with the operation and answers with a graceful failure. */
    method HandleDatabaseError(now: string, message: string, stack: string, operation: string) returns (r: ErrorResponse)
      requires Valid()
      modifies this
      ensures Valid()
      ensures logged == old(logged) + [ErrorEntry(now, message, stack, map["operation" := Str(operation)], "warn")]
      ensures r == DatabaseFailure(false, "Database operation failed",
        "The app will work without database features. Try restarting the application.", true)
    {
      LogError(now, message, stack, map["operation" := Str(operation)], "warn");
      r := DatabaseFailure(false, "Database operation failed",
        "The app will work without database features. Try restarting the application.", true);
    }

    /** handleOllamaError: logs an `error` entry and lists the four connection suggestions, one per hint line. */
    method HandleOllamaError(now: string, message: string, stack: string, operation: string) returns (r: ErrorResponse)
      requires Valid()
      modifies this
      ensures Valid()
      ensures logged == old(logged) + [ErrorEntry(now, message, stack, map["operation" := Str(operation)], "error")]
      ensures r.OllamaFailure? && !r.ok
      ensures r.error == "Ollama connection failed: " + message
      ensures r.suggestions == OllamaSuggestions && r.hint == Join(OllamaSuggestions, "\n")
    {
      LogError(now, message, stack, map["operation" := Str(operation)], "error");
      r := OllamaFailure(false, "Ollama connection failed: " + message, Join(OllamaSuggestions, "\n"), OllamaSuggestions);
    }

    /**
     * handleValidationError: logs a `warn` entry naming the field and the
     * rule and answers with the field's hint and the offending value.
     */
    method HandleValidationError(now: string, stack: string, field: string, value: JsValue, rule: string)
      returns (r: ErrorResponse)
      requires Valid()
      modifies this
      ensures Valid()
      ensures logged == old(logged) + [ErrorEntry(now, "Validation failed for " + field + ": " + rule, stack,
        map["field" := Str(field), "value" := value, "rule" := Str(rule)], "warn")]
      ensures r == ValidationFailure(false, "Invalid " + field, GetValidationHint(field, rule), field, value)
    {
      LogError(now, "Validation failed for " + field + ": " + rule, stack,
        map["field" := Str(field), "value" := value, "rule" := Str(rule)], "warn");
      r := ValidationFailure(false, "Invalid " + field, GetValidationHint(field, rule), field, value);
    }

    /**
     * getRecentErrors: `errorLog.slice(-limit)`. A positive limit gives the
     * last `limit` entries in log order; 0 gives the whole log (`-0` is
     * `0`); a negative limit drops that many entries from the front.
     */
    function GetRecentErrors(limit: int := 10): (r: seq<ErrorEntry>)
      reads this
      ensures limit > 0 ==> r == LastN(errorLog, limit)
      ensures limit == 0 ==> r == errorLog
      ensures limit < 0 ==> r == if -limit < |errorLog| then errorLog[-limit..] else []
      ensures |r| <= |errorLog|
    {
      var start := -limit;
      if start < 0 then
        (if -start < |errorLog| then errorLog[|errorLog| + start..] else errorLog)
      else if start < |errorLog| then errorLog[start..]
      else []
    }

    /** clearErrorLog: the log is empty afterwards. */
    method ClearErrorLog()
      requires Valid()
      modifies this
      ensures Valid()
      ensures errorLog == [] && logged == []
    {
      errorLog := [];
      logged := [];
    }
  }
}
