/**
 * Pure and stateful helpers of the chat window (renderer/renderer.js): the
 * word diff against the previous input, the recovery suggestions shown
 * with an error, the response cache, and the list of conversation
 * branches.
 */
module Renderer {
  import opened Common
  import opened Text
  import opened Sequences
  import opened Turns

  // ---------------------------------------------------------------------
  // Word diff
  // ---------------------------------------------------------------------

  /** Length of the run of non-white-space characters at the start of `s`. */
  function WordLength(s: string): (n: nat)
    ensures n <= |s|
    ensures forall i :: 0 <= i < n ==> !IsSpace(s[i])
    ensures n < |s| ==> IsSpace(s[n])
  {
    if s == [] || IsSpace(s[0]) then 0 else 1 + WordLength(s[1..])
  }

  /** Length of the run of white space at the start of `s`. */
  function SpaceLength(s: string): (n: nat)
    ensures n <= |s|
    ensures forall i :: 0 <= i < n ==> IsSpace(s[i])
    ensures n < |s| ==> !IsSpace(s[n])
  {
    if s == [] || !IsSpace(s[0]) then 0 else 1 + SpaceLength(s[1..])
  }

  /** `parts.join('')`. */
  function Concat(parts: seq<string>): string
  {
    if parts == [] then "" else parts[0] + Concat(parts[1..])
  }

  lemma {:induction false} ConcatAppend(a: seq<string>, b: seq<string>)
    ensures Concat(a + b) == Concat(a) + Concat(b)
  {
    if a == [] {
      assert a + b == b;
    } else {
      var ab := a + b;
      assert ab[0] == a[0] && ab[1..] == a[1..] + b;
      ConcatAppend(a[1..], b);
    }
  }

  /**
   * `s.split(/(\s+)/)`: words and the white-space runs between them,
   * alternately, starting and ending with a (possibly empty) word. The
   * pieces put back together give `s`.
   */
  function SplitWords(s: string): (r: seq<string>)
    ensures |r| > 0
    ensures Concat(r) == s
    decreases |s|
  {
    var w := WordLength(s);
    if w == |s| then [s]
    else
      var k := SpaceLength(s[w..]);
      var rest := SplitWords(s[w + k..]);
      ConcatWordAndSpace(s, w, k, rest);
      [s[..w], s[w..w + k]] + rest
  }

  /** A word, the white space after it, and the pieces of what follows put back together give the text. */
  lemma ConcatWordAndSpace(s: string, w: nat, k: nat, rest: seq<string>)
    requires w + k <= |s| && Concat(rest) == s[w + k..]
    ensures Concat([s[..w], s[w..w + k]] + rest) == s
  {
    var pair := [s[..w], s[w..w + k]];
    ConcatAppend(pair, rest);
    assert Concat(pair) == s[..w] + s[w..w + k] by {
      assert pair[1..] == [s[w..w + k]];
      assert Concat([s[w..w + k]]) == s[w..w + k] + Concat([]);
    }
    assert s == s[..w] + s[w..w + k] + s[w + k..];
  }

  /** `aw[i] || ''`: the token at `i`, or the empty string past the end. */
  function At(tokens: seq<string>, i: nat): string {
    if i < |tokens| then tokens[i] else ""
  }

  /** How a pair of tokens at the same position shows in the diff. */
  datatype Piece = Same(token: string) | Deleted(before: string) | Added(after: string) | Replaced(before: string, after: string)

  function Classify(x: string, y: string): Piece {
    if x == y then Same(x)
    else if x != "" && y == "" then Deleted(x)
    else if x == "" && y != "" then Added(y)
    else Replaced(x, y)
  }

  /** The markup the page shows for a piece. */
  function Render(p: Piece): string {
    match p
    case Same(t) => t
    case Deleted(x) => "<span class=\"diff-del\">" + x + "</span>"
    case Added(y) => "<span class=\"diff-add\">" + y + "</span>"
    case Replaced(x, y) => "<span class=\"diff-del\">" + x + "</span><span class=\"diff-add\">" + y + "</span>"
  }

  /** The text of the old input a piece stands for. */
  function OldText(p: Piece): string {
    match p
    case Same(t) => t
    case Deleted(x) => x
    case Added(_) => ""
    case Replaced(x, _) => x
  }

  /** The text of the new input a piece stands for. */
  function NewText(p: Piece): string {
    match p
    case Same(t) => t
    case Deleted(_) => ""
    case Added(y) => y
    case Replaced(_, y) => y
  }

  /** One piece for each position up to the longer token list, pairing the tokens at that position. */
  function DiffPieces(aw: seq<string>, bw: seq<string>): (r: seq<Piece>)
    ensures |r| == if |aw| < |bw| then |bw| else |aw|
  {
    var n := if |aw| < |bw| then |bw| else |aw|;
    seq(n, i requires 0 <= i < n => Classify(At(aw, i), At(bw, i)))
  }

  function RenderAll(ps: seq<Piece>): (r: seq<string>)
    ensures |r| == |ps|
    ensures forall i :: 0 <= i < |ps| ==> r[i] == Render(ps[i])
  {
    seq(|ps|, i requires 0 <= i < |ps| => Render(ps[i]))
  }

  function OldTexts(ps: seq<Piece>): (r: seq<string>)
    ensures |r| == |ps|
    ensures forall i :: 0 <= i < |ps| ==> r[i] == OldText(ps[i])
  {
    seq(|ps|, i requires 0 <= i < |ps| => OldText(ps[i]))
  }

  function NewTexts(ps: seq<Piece>): (r: seq<string>)
    ensures |r| == |ps|
    ensures forall i :: 0 <= i < |ps| ==> r[i] == NewText(ps[i])
  {
    seq(|ps|, i requires 0 <= i < |ps| => NewText(ps[i]))
  }

  /** The token list padded with empty strings to length `n`. */
  function Padded(tokens: seq<string>, n: nat): (r: seq<string>)
    requires |tokens| <= n
    ensures |r| == n
    ensures forall i :: 0 <= i < n ==> r[i] == At(tokens, i)
  {
    tokens + seq(n - |tokens|, i => "")
  }

  /** Padding a token list with empty strings does not change what it concatenates to. */
  lemma {:induction false} ConcatPadded(tokens: seq<string>, n: nat)
    requires |tokens| <= n
    ensures Concat(Padded(tokens, n)) == Concat(tokens)
  {
    if n == |tokens| {
      assert Padded(tokens, n) == tokens;
    } else {
      ConcatPadded(tokens, n - 1);
      assert Padded(tokens, n) == Padded(tokens, n - 1) + [""];
      ConcatAppend(Padded(tokens, n - 1), [""]);
    }
  }

  /** A piece stands for exactly the two tokens it was made from. */
  lemma ClassifyKeepsTokens(x: string, y: string)
    ensures OldText(Classify(x, y)) == x && NewText(Classify(x, y)) == y
  {
  }

  /**
   * The diff loses nothing: the old-side texts of the pieces put together
   * give the old input, and the new-side texts give the new input.
   */
  lemma DiffKeepsBothSides(a: string, b: string)
    ensures Concat(OldTexts(DiffPieces(SplitWords(a), SplitWords(b)))) == a
    ensures Concat(NewTexts(DiffPieces(SplitWords(a), SplitWords(b)))) == b
  {
    var aw, bw := SplitWords(a), SplitWords(b);
    var ps := DiffPieces(aw, bw);
    var n := |ps|;
    forall i | 0 <= i < n
      ensures OldTexts(ps)[i] == Padded(aw, n)[i] && NewTexts(ps)[i] == Padded(bw, n)[i]
    {
      ClassifyKeepsTokens(At(aw, i), At(bw, i));
    }
    assert OldTexts(ps) == Padded(aw, n);
    assert NewTexts(ps) == Padded(bw, n);
    ConcatPadded(aw, n);
    ConcatPadded(bw, n);
  }

  /** Comparing a text with itself gives only unchanged pieces. */
  lemma DiffOfSameIsUnchanged(a: string)
    ensures RenderAll(DiffPieces(SplitWords(a), SplitWords(a))) == SplitWords(a)
  {
  }

  /** The markup for one position: equal tokens as they are, otherwise a deletion and/or an addition. */
  method DiffPiece(x: string, y: string) returns (piece: string)
    ensures piece == Render(Classify(x, y))
  {
    if x == y {
      piece := x;
    } else if x != "" && y == "" {
      piece := "<span class=\"diff-del\">" + x + "</span>";
    } else if x == "" && y != "" {
      piece := "<span class=\"diff-add\">" + y + "</span>";
    } else {
      piece := "<span class=\"diff-del\">" + x + "</span><span class=\"diff-add\">" + y + "</span>";
    }
  }

  /** The markup of a list of pieces, built position by position. */
  method RenderPieces(aw: seq<string>, bw: seq<string>) returns (out: seq<string>)
    ensures out == RenderAll(DiffPieces(aw, bw))
  {
    ghost var ps := DiffPieces(aw, bw);
    var max := if |aw| < |bw| then |bw| else |aw|;
    out := [];
    var i := 0;
    while i < max
      invariant 0 <= i <= max
      invariant |out| == i
      invariant forall k :: 0 <= k < i ==> out[k] == Render(ps[k])
    {
      var piece := DiffPiece(At(aw, i), At(bw, i));
      out := out + [piece];
      i := i + 1;
    }
  }

  /**
   * computeDiff: splits both texts into words and white-space runs and,
   * position by position, keeps equal tokens, marks a token only the old
   * text has as deleted, one only the new text has as added, and two
   * different tokens as a deletion followed by an addition. Comparing a
   * text with itself gives the text back.
   */
  method ComputeDiff(a: string, b: string) returns (r: string)
    ensures r == Concat(RenderAll(DiffPieces(SplitWords(a), SplitWords(b))))
    ensures a == b ==> r == a
  {
    var aw := SplitWords(a);
    var bw := SplitWords(b);
    var out := RenderPieces(aw, bw);
    if a == b {
      DiffOfSameIsUnchanged(a);
    }
    r := Concat(out);
  }

  // ---------------------------------------------------------------------
  // Recovery suggestions
  // ---------------------------------------------------------------------

  const ConnectionSuggestions: seq<string> := [
    "Check if Ollama is running: `ollama serve` or `brew services start ollama`",
    "Verify the model is installed: `ollama pull llama3:8b`",
    "Try restarting Ollama service",
    "Check if port 11434 is available"]

  function ModelSuggestions(model: string): seq<string> {
    ["Install the model: `ollama pull " + (if model != "" then model else "llama3:8b") + "`",
     "Check available models: `ollama list`",
     "Try a different model from the presets"]
  }

  const TimeoutSuggestions: seq<string> := [
    "Try reducing the max tokens limit",
    "Lower the temperature setting",
    "Check your internet connection",
    "Try a smaller model like llama3:8b"]

  const DatabaseSuggestions: seq<string> := [
    "The app will work without database features",
    "Try restarting the application",
    "Check if the app has write permissions"]

  const EmptyInputSuggestions: seq<string> := [
    "Enter some text in the input field",
    "Try a different question or prompt"]

  const SettingsSuggestions: seq<string> := [
    "Temperature must be between 0 and 2",
    "Max tokens must be a positive number",
    "Try using the default values"]

  const DefaultSuggestions: seq<string> := [
    "Try refreshing the page",
    "Check the console for more details",
    "Restart the application"]

  predicate ConnectionTrouble(error: string) {
    Contains(error, "Ollama") || Contains(error, "connection") || Contains(error, "fetch")
  }

  predicate ModelMissing(error: string) {
    Contains(error, "model") && Contains(error, "not found")
  }

  predicate TimedOut(error: string) {
    Contains(error, "timeout") || Contains(error, "abort")
  }

  predicate DatabaseTrouble(error: string) {
    Contains(error, "database") || Contains(error, "SQLite")
  }

  predicate EmptyInput(error: string) {
    Contains(error, "EMPTY_INPUT")
  }

  predicate SettingsTrouble(error: string) {
    Contains(error, "temperature") || Contains(error, "tokens")
  }

  predicate AnyTrigger(error: string) {
    ConnectionTrouble(error) || ModelMissing(error) || TimedOut(error) ||
    DatabaseTrouble(error) || EmptyInput(error) || SettingsTrouble(error)
  }

  /** A group of suggestions, present when its trigger matched. */
  function Group(matched: bool, suggestions: seq<string>): seq<string> {
    if matched then suggestions else []
  }

  /** The suggestion groups whose trigger words the error mentions, in the order the checks are made. */
  function Triggered(error: string, model: string): (r: seq<string>)
    ensures r == [] <==> !AnyTrigger(error)
  {
    Group(ConnectionTrouble(error), ConnectionSuggestions) +
    Group(ModelMissing(error), ModelSuggestions(model)) +
    Group(TimedOut(error), TimeoutSuggestions) +
    Group(DatabaseTrouble(error), DatabaseSuggestions) +
    Group(EmptyInput(error), EmptyInputSuggestions) +
    Group(SettingsTrouble(error), SettingsSuggestions)
  }

  /**
   * getRecoverySuggestions: the suggestions of every matching group, in
   * order, or the three default suggestions when no group matches. The
   * model of the context (`""` when absent) goes into the install hint.
   */
  method GetRecoverySuggestions(error: string, model: string) returns (suggestions: seq<string>)
    ensures suggestions == if AnyTrigger(error) then Triggered(error, model) else DefaultSuggestions
    ensures |suggestions| >= 2
  {
    suggestions := [];
    suggestions := AddGroup(suggestions, ConnectionTrouble(error), ConnectionSuggestions);
    assert suggestions == Group(ConnectionTrouble(error), ConnectionSuggestions);
    suggestions := AddGroup(suggestions, ModelMissing(error), ModelSuggestions(model));
    suggestions := AddGroup(suggestions, TimedOut(error), TimeoutSuggestions);
    suggestions := AddGroup(suggestions, DatabaseTrouble(error), DatabaseSuggestions);
    suggestions := AddGroup(suggestions, EmptyInput(error), EmptyInputSuggestions);
    suggestions := AddGroup(suggestions, SettingsTrouble(error), SettingsSuggestions);
    assert suggestions == Triggered(error, model);
    if |suggestions| == 0 {
      suggestions := DefaultSuggestions;
    }
  }

  /** `suggestions.push(...group)` when the group's trigger matched. */
  method AddGroup(suggestions: seq<string>, matched: bool, group: seq<string>) returns (r: seq<string>)
    ensures r == suggestions + Group(matched, group)
  {
    r := suggestions;
    if matched {
      r := r + group;
    }
  }

  predicate IsLowerLetter(c: char) {
    'a' <= c <= 'z'
  }

  /** A text without lower-case letters contains no word that has one. */
  lemma NoLowerNoMatch(s: string, sub: string, j: nat)
    requires forall i :: 0 <= i < |s| ==> !IsLowerLetter(s[i])
    requires j < |sub| && IsLowerLetter(sub[j])
    ensures !Contains(s, sub)
  {
    forall i ensures !OccursAt(s, sub, i) {
      if 0 <= i && i + |sub| <= |s| {
        assert s[i..i + |sub|][j] == s[i + j];
      }
    }
  }

  /**
   * Every trigger word but `EMPTY_INPUT` has a lower-case letter, so an
   * error code without lower-case letters gets at most the empty-input
   * group.
   */
  lemma UpperCaseErrorOnlyEmptyInput(e: string, model: string)
    requires forall i :: 0 <= i < |e| ==> !IsLowerLetter(e[i])
    ensures Triggered(e, model) == Group(EmptyInput(e), EmptyInputSuggestions)
  {
    NoLowerNoMatch(e, "Ollama", 1);
    NoLowerNoMatch(e, "connection", 0);
    NoLowerNoMatch(e, "fetch", 0);
    NoLowerNoMatch(e, "model", 0);
    NoLowerNoMatch(e, "timeout", 0);
    NoLowerNoMatch(e, "abort", 0);
    NoLowerNoMatch(e, "database", 0);
    NoLowerNoMatch(e, "SQLite", 3);
    NoLowerNoMatch(e, "temperature", 0);
    NoLowerNoMatch(e, "tokens", 0);
  }

  /** The renderer's own `EMPTY_INPUT` error yields exactly the two empty-input suggestions. */
  lemma EmptyInputGetsTwoSuggestions(model: string)
    ensures AnyTrigger("EMPTY_INPUT")
    ensures Triggered("EMPTY_INPUT", model) == EmptyInputSuggestions
  {
    var e := "EMPTY_INPUT";
    assert OccursAt(e, e, 0);
    UpperCaseErrorOnlyEmptyInput(e, model);
  }

  /** When the model is not found, the first model hint names the context's model, or llama3:8b without one. */
  lemma MissingModelHint(error: string, model: string)
    requires ModelMissing(error)
    ensures var hint := "Install the model: `ollama pull " + (if model != "" then model else "llama3:8b") + "`";
      hint in Triggered(error, model)
  {
    var before := if ConnectionTrouble(error) then ConnectionSuggestions else [];
    var r := Triggered(error, model);
    assert r[|before|] == ModelSuggestions(model)[0];
  }

  // ---------------------------------------------------------------------
  // Response cache
  // ---------------------------------------------------------------------

  const CacheLimit: nat := 100

  /** The cache's keys in insertion order match its entries, with no key twice. */
  predicate CacheShape(keys: seq<string>, entries: map<string, string>) {
    Distinct(keys) && SetOf(keys) == entries.Keys
  }

  /**
   * `cache.set(key, response)` for a non-empty response, then, when the
   * cache holds more than 100 keys, deletion of the earliest-inserted one.
   * An empty response leaves the cache as it was.
   */
  function CacheAfter(keys: seq<string>, entries: map<string, string>, key: string, response: string)
    : (r: (seq<string>, map<string, string>))
    requires CacheShape(keys, entries) && |keys| <= CacheLimit
    ensures CacheShape(r.0, r.1) && |r.0| <= CacheLimit
    ensures response == "" ==> r == (keys, entries)
    ensures response != "" ==> key in r.1 && r.1[key] == response
    ensures response != "" && key in entries ==> r.0 == keys
    ensures response != "" && key !in entries && |keys| < CacheLimit ==> r.0 == keys + [key]
    ensures response != "" && key !in entries && |keys| == CacheLimit ==> r.0 == keys[1..] + [key] && keys[0] !in r.1
    ensures forall k :: k in r.1 && k != key ==> k in entries && r.1[k] == entries[k]
  {
    if response == "" then (keys, entries)
    else
      var keys' := if key in entries then keys else keys + [key];
      var entries' := entries[key := response];
      SetOfAppend(keys, key);
      if |keys'| > CacheLimit then
        var first := keys'[0];
        assert first != key;
        assert SetOf(keys'[1..]) == SetOf(keys') - {first} by {
          assert keys' == [first] + keys'[1..];
          forall k | k in keys'[1..] ensures k != first {
            var i :| 0 <= i < |keys'[1..]| && keys'[1..][i] == k;
            assert keys'[i + 1] == k;
          }
        }
        (keys'[1..], entries' - {first})
      else
        (keys', entries')
  }

  /** The response cache: a JavaScript `Map` from request key to response text. */
  class ResponseCache {
    /** The keys in insertion order, the order `keys()` visits them. */
    var keys: seq<string>
    var entries: map<string, string>

    ghost predicate Valid()
      reads this
    {
      CacheShape(keys, entries) && |keys| <= CacheLimit
    }

    constructor()
      ensures Valid() && keys == [] && entries == map[]
    {
      keys := [];
      entries := map[];
    }

    /** `responseCache.get(key)`. */
    function Get(key: string): (r: Option<string>)
      reads this
      ensures r.Some? <==> key in entries
      ensures r.Some? ==> r.value == entries[key]
    {
      if key in entries then Some(entries[key]) else None
    }

    /** Stores a finished response (only a non-empty one) and evicts the earliest key past 100. */
    method Store(key: string, response: string)
      requires Valid()
      modifies this
      ensures Valid()
      ensures (keys, entries) == CacheAfter(old(keys), old(entries), key, response)
    {
      ghost var expected := CacheAfter(keys, entries, key, response);
      if response != "" {
        if key !in entries {
          keys := keys + [key];
        }
        entries := entries[key := response];
        if |keys| > CacheLimit {
          var firstKey := keys[0];
          keys := keys[1..];
          entries := entries - {firstKey};
        }
      }
    }

    /** `responseCache.clear()`. */
    method Clear()
      modifies this
      ensures Valid() && keys == [] && entries == map[]
    {
      keys := [];
      entries := map[];
    }
  }

  // ---------------------------------------------------------------------
  // Conversation branches
  // ---------------------------------------------------------------------

  datatype Branch = Branch(id: int, name: string, persona: string, model: string, history: seq<Turn>, createdAt: string)

  const DefaultModel := "llama3:8b"

  /** `(input || 'llama3:8b').trim()`, the model a new branch records. */
  function ModelOrDefault(input: string): string {
    Trim(if input != "" then input else DefaultModel)
  }

  /**
   * The default only replaces an empty field: an empty field gives
   * llama3:8b, and a field of white space gives the empty model name.
   */
  lemma ModelFieldDefault(input: string)
    ensures input == "" ==> ModelOrDefault(input) == DefaultModel
    ensures input != "" ==> (ModelOrDefault(input) == "" <==> AllSpace(input))
  {
    var s := DefaultModel;
    assert !IsSpace(s[0]) && !IsSpace(s[|s| - 1]);
    assert TrimStart(s) == s;
    assert TrimEnd(s) == s;
    TrimEmptyIffAllSpace(input);
  }

  /** Where `splice(start, 1)` removes an element: a negative start counts from the end. */
  function SpliceStart(len: nat, start: int): (p: nat)
    ensures start >= 0 ==> p == start
    ensures start < 0 ==> p == if len + start > 0 then len + start else 0
  {
    if start >= 0 then start else if len + start > 0 then len + start else 0
  }

  /** `list.splice(start, 1)`: removes the element at the start position, if there is one. */
  function RemoveAt<T>(list: seq<T>, start: int): (r: seq<T>)
    ensures SpliceStart(|list|, start) < |list| ==> |r| == |list| - 1
    ensures SpliceStart(|list|, start) >= |list| ==> r == list
    ensures forall i :: 0 <= i < SpliceStart(|list|, start) && i < |r| ==> r[i] == list[i]
    ensures forall i :: SpliceStart(|list|, start) <= i < |r| ==> r[i] == list[i + 1]
  {
    var p := SpliceStart(|list|, start);
    if p < |list| then list[..p] + list[p + 1..] else list
  }

  /** The index of the current branch is 0 on an empty list and a valid index otherwise. */
  predicate CurrentInRange(count: nat, current: int) {
    0 <= current && (count == 0 ==> current == 0) && (count > 0 ==> current < count)
  }

  /**
   * deleteBranch: with at most one branch nothing happens; otherwise the
   * branch at the index goes and the current index moves down by one
   * (not below 0) when it was at or past the deleted index.
   */
  function AfterDelete(branches: seq<Branch>, current: int, index: int): (r: (seq<Branch>, int))
    requires CurrentInRange(|branches|, current)
    ensures CurrentInRange(|r.0|, r.1)
    ensures |branches| <= 1 ==> r == (branches, current)
    ensures |branches| > 1 ==> r.0 == RemoveAt(branches, index)
    ensures |branches| > 1 && 0 <= index < |branches| && index != current ==> r.0[r.1] == branches[current]
  {
    if |branches| <= 1 then (branches, current)
    else
      var rest := RemoveAt(branches, index);
      var current' := if current >= index then (if current - 1 > 0 then current - 1 else 0) else current;
      (rest, current')
  }

  /**
   * The branch state of the window: the branch list, the current index,
   * and the conversation, persona and model field that switching loads.
   */
  class BranchList {
    var branches: seq<Branch>
    var currentBranch: int
    var history: seq<Turn>
    var selectedPersona: string
    var modelInput: string

    ghost predicate Valid()
      reads this
    {
      CurrentInRange(|branches|, currentBranch)
    }

    constructor()
      ensures Valid()
      ensures branches == [] && currentBranch == 0 && history == [] && selectedPersona == "logician"
    {
      branches := [];
      currentBranch := 0;
      history := [];
      selectedPersona := "logician";
      modelInput := "";
    }

    /**
     * createConversationBranch: appends a branch named after its position
     * holding a copy of the current conversation, and makes it current.
     */
    method CreateBranch(id: int, createdAt: string)
      requires Valid()
      modifies this
      ensures Valid()
      ensures branches == old(branches) + [Branch(id, "Branch " + NatToString(|old(branches)| + 1),
        selectedPersona, ModelOrDefault(modelInput), history, createdAt)]
      ensures currentBranch == |branches| - 1
      ensures history == old(history) && selectedPersona == old(selectedPersona) && modelInput == old(modelInput)
    {
      var name := "Branch " + NatToString(|branches| + 1);
      var model := ModelOrDefault(modelInput);
      branches := branches + [Branch(id, name, selectedPersona, model, history, createdAt)];
      currentBranch := |branches| - 1;
    }

    /** switchToBranch: loads an existing branch's conversation, persona and model; any other index is ignored. */
    method SwitchTo(branchIndex: int)
      requires Valid()
      modifies this
      ensures Valid()
      ensures branches == old(branches)
      ensures 0 <= branchIndex < |branches| ==>
        currentBranch == branchIndex && history == branches[branchIndex].history &&
        selectedPersona == branches[branchIndex].persona && modelInput == branches[branchIndex].model
      ensures !(0 <= branchIndex < |branches|) ==>
        currentBranch == old(currentBranch) && history == old(history) &&
        selectedPersona == old(selectedPersona) && modelInput == old(modelInput)
    {
      if 0 <= branchIndex < |branches| {
        var branch := branches[branchIndex];
        currentBranch := branchIndex;
        history := branch.history;
        selectedPersona := branch.persona;
        modelInput := branch.model;
      }
    }

    /** deleteBranch, as `AfterDelete` describes it. */
    method Delete(branchIndex: int)
      requires Valid()
      modifies this
      ensures Valid()
      ensures (branches, currentBranch) == AfterDelete(old(branches), old(currentBranch), branchIndex)
      ensures history == old(history) && selectedPersona == old(selectedPersona) && modelInput == old(modelInput)
    {
      if |branches| <= 1 {
        return;
      }
      branches := RemoveAt(branches, branchIndex);
      if currentBranch >= branchIndex {
        currentBranch := if currentBranch - 1 > 0 then currentBranch - 1 else 0;
      }
    }
  }

  /**
   * A negative index counts from the end when the branch is removed but
   * not when the current index is adjusted: deleting with -1 removes the
   * last branch and still moves the current index down.
   */
  lemma NegativeIndexMovesCurrent(a: Branch, b: Branch, c: Branch)
    ensures AfterDelete([a, b, c], 1, -1) == ([a, b], 0)
  {
    assert RemoveAt([a, b, c], -1) == [a, b];
  }
}
