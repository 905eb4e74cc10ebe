/**
 * The guards database.js runs before it writes a session or a persona or
 * looks a row up by id. Each one either returns `true` or throws an
 * `Error` with a fixed message; the first failing condition decides the
 * message.
 */
module DatabaseValidation {
  import opened Common
  import opened Text
  import Validation

  datatype Outcome = Accepted | Thrown(message: string)

  /** `!!v && typeof v === 'string' && v.trim().length > 0`. */
  predicate NonBlankString(v: JsValue) {
    v.Str? && !AllSpace(v.s)
  }

  /** The test written `!v || typeof v !== 'string' || v.trim().length === 0`, negated. */
  function IsNonBlank(v: JsValue): (r: bool)
    ensures r <==> NonBlankString(v)
  {
    Truthy(v) && v.Str? && |Trim(v.s)| != 0
  }

  const DbRoles: seq<string> := ["user", "assistant", "system"]

  /** The error thrown for the history item at `index`, if any. */
  function HistoryItemProblem(item: JsValue, index: nat): (r: Option<string>)
    ensures r.None? <==> (IsObjectType(item) && Truthy(item) &&
      Get(item, "role").Str? && Get(item, "role").s in DbRoles &&
      Get(item, "content").Str? && Get(item, "content").s != "")
  {
    if !Truthy(item) || !IsObjectType(item) then Some("History item " + NatToString(index) + " must be an object")
    else if !Truthy(Get(item, "role")) || !(Get(item, "role").Str? && Get(item, "role").s in DbRoles) then
      Some("History item " + NatToString(index) + " must have valid role (user/assistant/system)")
    else if !Truthy(Get(item, "content")) || !Get(item, "content").Str? then
      Some("History item " + NatToString(index) + " must have content string")
    else None
  }

  /** The error thrown for the tag at `index` of a tag array, if any. */
  function TagProblem(tag: JsValue, index: nat): (r: Option<string>)
    ensures r.None? <==> NonBlankString(tag)
  {
    if !tag.Str? || |Trim(tag.s)| == 0 then Some("Tag " + NatToString(index) + " must be a non-empty string") else None
  }

  /** What validateSession accepts, condition by condition. */
  predicate SessionAcceptable(session: JsValue) {
    Truthy(session) && IsObjectType(session) &&
    NonBlankString(Get(session, "persona")) &&
    NonBlankString(Get(session, "model")) &&
    Get(session, "history").Arr? && |Get(session, "history").items| > 0 &&
    (forall i :: 0 <= i < |Get(session, "history").items| ==>
       HistoryItemProblem(Get(session, "history").items[i], i).None?) &&
    (Get(session, "title").Undefined? || NonBlankString(Get(session, "title"))) &&
    TagsAcceptable(Get(session, "tags"))
  }

  /** Tags are absent, one non-blank string, or an array of non-blank strings. */
  predicate TagsAcceptable(tags: JsValue) {
    tags.Undefined? || NonBlankString(tags) ||
    (tags.Arr? && forall i :: 0 <= i < |tags.items| ==> NonBlankString(tags.items[i]))
  }

  /** The checks validateSession makes before it looks at the history items. */
  function SessionHeaderError(session: JsValue): (r: Option<string>)
    ensures r.None? <==> (Truthy(session) && IsObjectType(session) &&
      NonBlankString(Get(session, "persona")) && NonBlankString(Get(session, "model")) &&
      Get(session, "history").Arr? && |Get(session, "history").items| > 0)
    ensures !(Truthy(session) && IsObjectType(session)) ==> r == Some("Session must be an object")
  {
    if !Truthy(session) || !IsObjectType(session) then Some("Session must be an object")
    else if !IsNonBlank(Get(session, "persona")) then Some("Persona must be a non-empty string")
    else if !IsNonBlank(Get(session, "model")) then Some("Model must be a non-empty string")
    else if !Get(session, "history").Arr? || |Get(session, "history").items| == 0 then
      Some("History must be a non-empty array")
    else None
  }

  /** The check of the optional title. */
  function TitleError(title: JsValue): (r: Option<string>)
    ensures r.None? <==> title.Undefined? || NonBlankString(title)
  {
    if !title.Undefined? && (!title.Str? || |Trim(title.s)| == 0) then
      Some("Title must be undefined or a non-empty string")
    else None
  }

  const TagsShapeMessage := "Tags must be undefined, a non-empty string, or an array of non-empty strings"

  /** The check of the optional tags: a tag array is scanned for its first blank tag. */
  method TagsError(tags: JsValue) returns (r: Option<string>)
    ensures r.None? <==> TagsAcceptable(tags)
    ensures tags.Arr? ==> r == Validation.FirstOf(tags.items, TagProblem, 0)
    ensures (!tags.Undefined? && !tags.Arr? && !NonBlankString(tags)) ==> r == Some(TagsShapeMessage)
  {
    if !tags.Undefined? {
      if tags.Arr? {
        r := Validation.FirstProblem(tags.items, TagProblem);
        return;
      } else if !tags.Str? || |Trim(tags.s)| == 0 {
        return Some(TagsShapeMessage);
      }
    }
    return None;
  }

  /** The checks of the optional title and tags, in that order. */
  method OptionalFieldsError(title: JsValue, tags: JsValue) returns (r: Option<string>)
    ensures r.None? <==> (title.Undefined? || NonBlankString(title)) && TagsAcceptable(tags)
    ensures TitleError(title).Some? ==> r == TitleError(title)
    ensures (TitleError(title).None? && tags.Arr?) ==> r == Validation.FirstOf(tags.items, TagProblem, 0)
    ensures (TitleError(title).None? && !tags.Undefined? && !tags.Arr? && !NonBlankString(tags)) ==>
      r == Some(TagsShapeMessage)
  {
    var titleProblem := TitleError(title);
    if titleProblem.Some? {
      return titleProblem;
    }
    r := TagsError(tags);
  }

  /** The header checks pass and no history item has a problem. */
  predicate HeaderAndItemsPass(session: JsValue) {
    SessionHeaderError(session).None? &&
    Validation.FirstOf(Get(session, "history").items, HistoryItemProblem, 0).None?
  }

  /**
   * validateSession: an object with a non-blank persona and model, a
   * non-empty history whose items are objects with role user, assistant or
   * system and non-empty string content, an optional non-blank title, and
   * optional tags that are either a non-blank string or an array of
   * non-blank strings. The first failing condition's message is thrown.
   */
  method ValidateSession(session: JsValue) returns (r: Outcome)
    ensures r.Accepted? <==> SessionAcceptable(session)
    ensures SessionHeaderError(session).Some? ==> r == Thrown(SessionHeaderError(session).value)
    ensures (SessionHeaderError(session).None? &&
      Validation.FirstOf(Get(session, "history").items, HistoryItemProblem, 0).Some?) ==>
      r == Thrown(Validation.FirstOf(Get(session, "history").items, HistoryItemProblem, 0).value)
    ensures (HeaderAndItemsPass(session) && TitleError(Get(session, "title")).Some?) ==>
      r == Thrown(TitleError(Get(session, "title")).value)
    ensures (HeaderAndItemsPass(session) && TitleError(Get(session, "title")).None? && Get(session, "tags").Arr? &&
      Validation.FirstOf(Get(session, "tags").items, TagProblem, 0).Some?) ==>
      r == Thrown(Validation.FirstOf(Get(session, "tags").items, TagProblem, 0).value)
    ensures (HeaderAndItemsPass(session) && TitleError(Get(session, "title")).None? &&
      !Get(session, "tags").Undefined? && !Get(session, "tags").Arr? && !NonBlankString(Get(session, "tags"))) ==>
      r == Thrown(TagsShapeMessage)
  {
    var header := SessionHeaderError(session);
    if header.Some? {
      return Thrown(header.value);
    }
    var history, title, tags := Get(session, "history"), Get(session, "title"), Get(session, "tags");
    var itemProblem := Validation.FirstProblem(history.items, HistoryItemProblem);
    if itemProblem.Some? {
      return Thrown(itemProblem.value);
    }
    var fieldProblem := OptionalFieldsError(title, tags);
    if fieldProblem.Some? {
      return Thrown(fieldProblem.value);
    }
    return Accepted;
  }

  /**
   * validatePersona: an object whose name and prompt are non-blank
   * strings, the name at most 100 and the prompt at most 10000 characters.
   */
  function ValidatePersona(persona: JsValue): (r: Outcome)
    ensures r.Accepted? <==> (Truthy(persona) && IsObjectType(persona) &&
      NonBlankString(Get(persona, "name")) && NonBlankString(Get(persona, "prompt")) &&
      |Get(persona, "name").s| <= 100 && |Get(persona, "prompt").s| <= 10000)
    ensures !(Truthy(persona) && IsObjectType(persona)) ==> r == Thrown("Persona must be an object")
  {
    if !Truthy(persona) || !IsObjectType(persona) then Thrown("Persona must be an object")
    else
      var name, prompt := Get(persona, "name"), Get(persona, "prompt");
      if !IsNonBlank(name) then Thrown("Persona name must be a non-empty string")
      else if !IsNonBlank(prompt) then Thrown("Persona prompt must be a non-empty string")
      else if |name.s| > 100 then Thrown("Persona name must be 100 characters or less")
      else if |prompt.s| > 10000 then Thrown("Persona prompt must be 10,000 characters or less")
      else Accepted
  }

  /** `Number.isInteger(n)` for a finite number. */
  predicate IsInteger(n: real) {
    n == n.Floor as real
  }

  /** validateId: a number that is a positive integer. */
  function ValidateId(id: JsValue): (r: Outcome)
    ensures r.Accepted? <==> id.Num? && IsInteger(id.n) && id.n >= 1.0
    ensures r.Thrown? ==> r.message == "ID must be a positive integer"
  {
    if !Truthy(id) || !id.Num? || !IsInteger(id.n) || id.n <= 0.0 then Thrown("ID must be a positive integer")
    else Accepted
  }

  /** validateModel: a non-blank string of at most 200 characters. */
  function ValidateModel(model: JsValue): (r: Outcome)
    ensures r.Accepted? <==> NonBlankString(model) && |model.s| <= 200
    ensures !NonBlankString(model) ==> r == Thrown("Model must be a non-empty string")
  {
    if !IsNonBlank(model) then Thrown("Model must be a non-empty string")
    else if |model.s| > 200 then Thrown("Model name must be 200 characters or less")
    else Accepted
  }

  // ---------------------------------------------------------------------
  // How the database guards relate to the form checks of `Validator`
  // ---------------------------------------------------------------------

  /** Persona data that passes `Validator.validatePersonaData` is accepted by the database. */
  lemma FormPersonaIsStorable(persona: JsValue)
    requires Validation.ValidatePersonaData(persona).Valid?
    ensures ValidatePersona(persona).Accepted?
  {
  }

  /**
   * The database takes prompts up to 10000 characters, the form only up to
   * 5000: a persona with a 6000-character prompt is storable but would be
   * rejected by the form.
   */
  lemma DatabaseTakesLongerPrompts()
    ensures var prompt := seq(6000, i => 'a');
      var persona := Obj(map["name" := Str("Critic"), "prompt" := Str(prompt)]);
      ValidatePersona(persona).Accepted? && Validation.ValidatePersonaData(persona).Invalid?
  {
    var prompt := seq(6000, i => 'a');
    var persona := Obj(map["name" := Str("Critic"), "prompt" := Str(prompt)]);
    assert !IsSpace(prompt[0]);
    assert !AllSpace(prompt);
    assert !IsSpace("Critic"[0]);
    assert !AllSpace("Critic");
    assert Get(persona, "prompt") == Str(prompt);
    assert Get(persona, "name") == Str("Critic");
  }

  /** Every history item the database accepts also passes the history-entry check of `Validator.validateSession`. */
  lemma StoredItemsPassFormCheck(item: JsValue, index: nat)
    requires HistoryItemProblem(item, index).None?
    ensures Validation.HistoryEntryProblem(item, index).None?
  {
  }

  /** The database refuses an empty string as content, which `Validator.validateSession` lets through. */
  lemma EmptyContentOnlyFormAccepts()
    ensures var item := Obj(map["role" := Str("user"), "content" := Str("")]);
      HistoryItemProblem(item, 0).Some? && Validation.HistoryEntryProblem(item, 0).None?
  {
    var item := Obj(map["role" := Str("user"), "content" := Str("")]);
    assert Get(item, "role") == Str("user");
    assert Get(item, "content") == Str("");
  }
}
