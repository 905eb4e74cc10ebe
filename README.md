# CODE — a Dafny model of its core

CODE is a desktop application in which a local language model (served by
Ollama) argues against what the user writes, in the voice of a chosen
persona. This project models, in Dafny, the parts of the application that
hold its logic rather than its windows and wiring:

- **Conversation memory** (`utils/conversationMemory.js`): a store of the
  most recent 50 conversations keyed by session id, the heuristic features
  derived from a user input (domain, intent, complexity, question type,
  topics, sentiment) and from a model reply (quality), the relevance score
  of a stored conversation for a new input, the summary and suggestions
  built from the relevant ones, and the store's statistics
  (`memory_features.dfy`, `memory_store.dfy`). The store is a class whose
  `Map` is a dictionary field plus its insertion order; the clock is a
  parameter.
- **Validators** (`utils/validation.js`, `database.js`): the form-level
  `Validator` checks and the input sanitiser, and the checks the database
  layer runs before writing, each with its error messages and in its order
  of checks (`validation.dfy`, `database_validation.dfy`). JavaScript
  values are the datatype `Common.JsValue`; `Number(...)` of a parameter is
  given as its already-parsed value.
- **Error handler** (`utils/errorHandler.js`): the error log bounded to 100
  entries, its queries, the validation hints and the responses of the
  three `handle*` methods (`error_handler.dfy`). The log is a class field;
  the timestamp and the error's stack are parameters.
- **Renderer helpers** (`renderer/renderer.js`): the word diff, the
  recovery-suggestion selector, the response cache bounded to 100 entries
  and the list of conversation branches with its current index
  (`renderer.dfy`).
- **Session browser** (`renderer/dashboard.js`): session analytics, the
  search filter, and the index window a virtual scroller renders
  (`dashboard.dfy`).
- **Main process** (`main.js`, with the prompts of `config.js`): the
  Markdown export and the JSON export's statistics (`main_export.dfy`), the
  retry schedule with exponential backoff (`main_retry.dfy`), the
  line-buffered reading of a streamed reply (`main_stream.dfy`) and the
  choice of the system prompt (`main_prompts.dfy`).

Shared definitions are in `common.dfy` (JavaScript values, `Option`),
`text.dfy` (ASCII strings: lower-casing, `trim`, `includes`, `startsWith`,
`join`), `turns.dfy` (conversation turns and role counts) and
`sequences.dfy` (distinctness, a stable insertion sort, the most frequent
element, `slice`).

## Model

| member | source | states |
|---|---|---|
| MemoryFeatures.AnyContained | utils/conversationMemory.js:125 | `keywords.some(k => text.includes(k))`: true exactly when some keyword occurs in the text |
| MemoryFeatures.FirstMatch | utils/conversationMemory.js:124-128 | the category chosen is the first in declaration order whose keyword list matches, or none matches |
| MemoryFeatures.IdentifyDomain | utils/conversationMemory.js:114-131 | the domain is the first category (business, technology, academic, personal, creative) with a keyword in the lower-cased input; `general` exactly when none matches |
| MemoryFeatures.IdentifyIntent | utils/conversationMemory.js:138-154 | the intent is the first of question, request, statement, challenge whose indicator occurs in the lower-cased input, `statement` when none does |
| MemoryFeatures.IdentifyQuestionType | utils/conversationMemory.js:180-201 | `statement` whenever the input has no '?'; otherwise the first matching type in declaration order (yes/no first), `open` when none matches |
| MemoryFeatures.AssessComplexity | utils/conversationMemory.js:161-173 | `simple` exactly when fewer than 20 words or fewer than 8 words per sentence; `complex` exactly when at least 100 words and at least 15 per sentence |
| MemoryFeatures.StripPunctuation | utils/conversationMemory.js:213 | after removing every character that is neither a word character nor white space, only those remain |
| MemoryFeatures.StripPunctuationCounts | utils/conversationMemory.js:213 | every word or space character is kept exactly as often as it occurs, every other character is dropped |
| MemoryFeatures.StripPunctuationAppend | utils/conversationMemory.js:213 | stripping works piece by piece, so the kept characters stay in their order |
| MemoryFeatures.RunLength | utils/conversationMemory.js:214 | the exact leading word of `split(/\s+/)`: no space in it, and it ends at a space or at the end of the text |
| MemoryFeatures.RunLengthStopsAtSpace | utils/conversationMemory.js:214 | a word ends at the first space, whatever follows |
| MemoryFeatures.FilterTopicWords | utils/conversationMemory.js:215 | every kept word is longer than 3 characters, not a stop word, and one of the input's words |
| MemoryFeatures.FilterTopicWordsCounts | utils/conversationMemory.js:215 | every word longer than 3 characters and not a stop word is kept exactly as often as it occurs; every other word is dropped |
| MemoryFeatures.FilterTopicWordsAppend | utils/conversationMemory.js:215 | the filter works word by word, so the kept words stay in their order |
| MemoryFeatures.ByFrequency | utils/conversationMemory.js:218-224 | pairs each distinct word, in order of first occurrence (the order `Object.entries` lists the counted words in), with its number of occurrences, negated as the sort key |
| MemoryFeatures.PermutationKeepsCounted | utils/conversationMemory.js:224-225 | sorting the (word, count) pairs keeps every pair's count correct |
| MemoryFeatures.CountedDistinctWords | utils/conversationMemory.js:218-224 | the words of the counted pairs are distinct |
| MemoryFeatures.RankedTopics | utils/conversationMemory.js:218-225 | one correctly counted pair per distinct word, every word present, in non-increasing order of count, and equally frequent words in the order of their first occurrence (the sort is stable) |
| MemoryFeatures.TakeKeepsDistinct | utils/conversationMemory.js:226 | keeping a prefix of distinct words keeps them distinct |
| MemoryFeatures.ExtractTopics | utils/conversationMemory.js:208-228 | the five most frequent distinct topic words of the input (all of them when fewer): most frequent first, ties in order of first occurrence, and no word left out occurs more often than a kept one, nor as often and earlier |
| MemoryFeatures.MostFrequent | utils/conversationMemory.js:218-227 | the first n distinct words by frequency: exactly min(n, number of distinct words) of them, from the words, most frequent first, ties by first occurrence, none left out ranks higher |
| MemoryFeatures.TakeRanked | utils/conversationMemory.js:224-226 | the first n of the ranked words are the top n by frequency |
| MemoryFeatures.KeptRankOrder | utils/conversationMemory.js:225 | the kept words are in non-increasing order of frequency, ties by first occurrence |
| MemoryFeatures.LeftOutRankLower | utils/conversationMemory.js:225-226 | a word cut off by `slice(0, 5)` is no more frequent than any kept word, and a kept word as frequent occurs first |
| MemoryFeatures.RankedTopicsComplete | utils/conversationMemory.js:219-224 | every counted word appears in the ranking |
| MemoryFeatures.RankedTopicsStable | utils/conversationMemory.js:224-225 | equally frequent words keep the order of their first occurrence |
| MemoryFeatures.ByFrequencyOrder | utils/conversationMemory.js:219-224 | the counted pairs are listed in the order of their words' first occurrence |
| MemoryFeatures.Words | utils/conversationMemory.js:214 | the non-empty pieces of `split(/\s+/)`: each a run of the text's characters without space, a text without space is one piece |
| MemoryFeatures.WordsSplitAtSpace | utils/conversationMemory.js:214 | a space separates the words before it from the words after it, so the pieces are the maximal non-space runs |
| MemoryFeatures.TopicWords | utils/conversationMemory.js:212-215 | every candidate topic passes the topic test and is made only of lower-case letters, digits and '_' |
| MemoryFeatures.ExtractContext | utils/conversationMemory.js:98-107 | the four features of an input; its properties are stated by the four Identify/Assess rows |
| MemoryFeatures.CountContained | utils/conversationMemory.js:240-241 | the number of listed words occurring in the text is at most the list's length and 0 exactly when none occurs |
| MemoryFeatures.AnalyzeSentiment | utils/conversationMemory.js:235-246 | positive exactly when more positive words than negative occur, negative exactly when more negative ones, neutral on a tie (also 0/0) |
| MemoryFeatures.QualityScore | utils/conversationMemory.js:254-263 | the quality score is one point per satisfied check, so at most 4 |
| MemoryFeatures.AssessResponseQuality | utils/conversationMemory.js:253-268 | high exactly when the score is at least 3, medium exactly when it is 2, low otherwise |
| MemoryFeatures.QualityValue | utils/conversationMemory.js:386-387 | the numeric quality (low 1, medium 2, high 3) lies in [1, 3] |
| MemoryFeatures.TopicOverlap | utils/conversationMemory.js:276-284 | the overlap lies in [0, 1], and is 0 when either topic list is empty |
| MemoryFeatures.TopicOverlapSymmetric | utils/conversationMemory.js:279-283 | the overlap of two topic lists does not depend on their order |
| MemoryFeatures.TopicOverlapSelf | utils/conversationMemory.js:279-283 | a non-empty topic list overlaps fully (1) with itself |
| MemoryFeatures.ContextSimilarity | utils/conversationMemory.js:292-303 | the similarity is a multiple of 0.25 in [0, 1], and 1 exactly when all four factors agree |
| MemoryFeatures.RelevanceScore | utils/conversationMemory.js:49-67 | the weighted score lies in [0, 1] and includes 0.2 for the same persona and 0.1 for the same sentiment |
| MemoryFeatures.ComesBefore | utils/conversationMemory.js:78-84 | the comparator of the relevance sort: by score, by recency when scores are less than 0.1 apart; a definition, whose properties the members using it state |
| MemoryFeatures.ComesBeforeAsymmetric | utils/conversationMemory.js:78-84 | of two memories at most one comes before the other |
| MemoryFeatures.Domains | utils/conversationMemory.js:313 | the domains of the memories, one per memory, in order |
| MemoryFeatures.AllTopicsMember | utils/conversationMemory.js:318 | every topic of the flattened list comes from one of the memories |
| MemoryFeatures.SummaryTopics | utils/conversationMemory.js:318-319 | the first three distinct topics of the first three memories in order of first appearance (Dedup), as many as there are up to 3, each from one of those memories |
| MemoryFeatures.ContextSummary | utils/conversationMemory.js:310-322 | empty exactly when there are no memories; otherwise the sentence naming the most common domain, then the summary topics joined by ", ", then a full stop |
| MemoryFeatures.SummaryNamesTopics | utils/conversationMemory.js:318-321 | every summary topic occurs in the summary sentence |
| MemoryFeatures.SummaryDomainIsMostFrequent | utils/conversationMemory.js:313-316 | the summary's domain is one of the memories' domains and none is more frequent |
| MemoryFeatures.GenerateSuggestions | utils/conversationMemory.js:330-351 | at most 3 suggestions: the domain-based ones of the first memory first, then the keyword-based ones, in that order |
| MemoryFeatures.UpperCaseKeywordNeverMatches | utils/conversationMemory.js:117-125 | the keyword 'AI' never occurs in the lower-cased input, so it can never select a domain |
| MemoryFeatures.DislikeAlsoCountsLike | utils/conversationMemory.js:236-241 | an input containing 'dislike' also counts the positive word 'like' |
| MemoryFeatures.SubstringMatchInsideWords | utils/conversationMemory.js:184-198 | "What about this?" is a yes/no question, because 'is' occurs inside "this" |
| MemoryStore.Stamped | utils/conversationMemory.js:358 | the entries of the map as (session id, timestamp) pairs, in map order |
| MemoryStore.Evicted | utils/conversationMemory.js:357-361 | only stored session ids are chosen for deletion |
| MemoryStore.Without | utils/conversationMemory.js:362-364 | deleting a set of keys keeps exactly the other keys |
| MemoryStore.WithoutNothing | utils/conversationMemory.js:362-364 | deleting nothing changes nothing |
| MemoryStore.WithoutDistinct | utils/conversationMemory.js:362-364 | deleting keys keeps the key order free of repetitions |
| MemoryStore.WithoutTwice | utils/conversationMemory.js:362-364 | deleting two sets of keys one after the other deletes their union |
| MemoryStore.WithoutLength | utils/conversationMemory.js:362-364 | deleting keys shortens the order by the number of stored keys deleted |
| MemoryStore.ByAgePairs | utils/conversationMemory.js:358-359 | the entries sorted by timestamp are the map's entries, each with its own timestamp |
| MemoryStore.ByAgeDistinct | utils/conversationMemory.js:358-359 | the sorted entries name distinct sessions |
| MemoryStore.EvictedCount | utils/conversationMemory.js:357-361 | exactly size − 50 distinct stored entries are deleted when over the cap (none otherwise), leaving at most 50 |
| MemoryStore.EvictedAreOldest | utils/conversationMemory.js:359-361 | every deleted entry is no newer than every entry kept |
| MemoryStore.NewestNeverEvicted | utils/conversationMemory.js:359-361 | the strictly newest entry is never deleted |
| MemoryStore.Relevant | utils/conversationMemory.js:48-75 | exactly the stored entries scoring above 0.3 are kept, each with its score |
| MemoryStore.RelevantStep | utils/conversationMemory.js:69-74 | scoring one more entry appends it exactly when its score exceeds 0.3 |
| MemoryStore.QualityTotal | utils/conversationMemory.js:385-388 | the total of the quality values is between 1 and 3 points per entry |
| MemoryStore.DomainsOf | utils/conversationMemory.js:374 | the domains of the stored entries, in order |
| MemoryStore.PersonasOf | utils/conversationMemory.js:375 | the personas of the stored entries, in order |
| MemoryStore.EvictionKeepsConsistent | utils/conversationMemory.js:356-366 | cleanup keeps map and key order in agreement and leaves at most 50 entries |
| MemoryStore.StoreKeepsConsistent | utils/conversationMemory.js:17-33 | after any store the map holds at most 50 entries and agrees with its key order |
| MemoryStore.StoreExistingReplacesInPlace | utils/conversationMemory.js:31 | storing under an existing session id replaces that entry in place and adds no key |
| MemoryStore.StoreNewWithRoomAppends | utils/conversationMemory.js:31-32 | storing a new session id below the cap appends it and deletes nothing |
| MemoryStore.StoreKeepsNewest | utils/conversationMemory.js:17-33 | the entry just stored, being the newest, survives the cleanup |
| MemoryStore.ContextForFacts | utils/conversationMemory.js:41-91 | the first min(5, number relevant) of a permutation of the relevant entries (each stored, scoring above 0.3), with no adjacent pair in the comparator's reverse order; all of them when at most 5; the summary is empty exactly when none is relevant |
| MemoryStore.ContextFor | utils/conversationMemory.js:77-89 | ranked, capped context of the relevant entries; its properties are stated by ContextForFacts |
| MemoryStore.AfterStore | utils/conversationMemory.js:17-33 | the map and key order after a store and its cleanup; its properties are stated by StoreKeepsConsistent, StoreExistingReplacesInPlace, StoreNewWithRoomAppends and StoreKeepsNewest |
| MemoryStore.NewEntry | utils/conversationMemory.js:18-30 | the entry built from a conversation with its derived features; a definition, whose properties the members using it state |
| MemoryStore.ConversationMemory.Entries | utils/conversationMemory.js:373 | the stored entries in map order, each stored under its own id |
| MemoryStore.ConversationMemory.constructor | utils/conversationMemory.js:6-10 | a new memory is empty |
| MemoryStore.ConversationMemory.StoreConversation | utils/conversationMemory.js:17-33 | the new state is the old one with the derived entry set and the oldest entries evicted; the cap invariant is kept |
| MemoryStore.ConversationMemory.SetEntry | utils/conversationMemory.js:31-32 | sets one entry and runs the cleanup, keeping the cap invariant |
| MemoryStore.ConversationMemory.CleanupMemory | utils/conversationMemory.js:356-366 | deletes exactly the entries chosen for eviction from map and order, leaving at most 50 |
| MemoryStore.ConversationMemory.DeleteSessions | utils/conversationMemory.js:362-364 | deletes exactly the given session ids from map and order |
| MemoryStore.ConversationMemory.GetRelevantContext | utils/conversationMemory.js:41-91 | the result is the ranked, capped context of the stored entries, and the store is unchanged |
| MemoryStore.ConversationMemory.ScoreMemories | utils/conversationMemory.js:46-75 | the scoring loop collects, in map order, exactly the entries scoring above 0.3 |
| MemoryStore.ConversationMemory.GetMemoryStats | utils/conversationMemory.js:372-390 | totalMemories is the map size; on a non-empty store the most common domain and persona are the modes and the average quality lies in [1, 3]; the average quality is the quality total divided by the entry count; all are undefined on an empty one |
| MemoryStore.ConversationMemory.SizeMatches | utils/conversationMemory.js:378 | the map size equals the number of keys in order |
| MemoryStore.ConversationMemory.ClearMemory | utils/conversationMemory.js:395-397 | clearing leaves the memory empty |
| MemoryStore.StatsDomainIsMostFrequent | utils/conversationMemory.js:379-381 | the reported domain is a stored one and none is more frequent |
| MemoryStore.StatsPersonaIsMostUsed | utils/conversationMemory.js:382-384 | the reported persona is a stored one and none is used more often |
| Validation.FirstForbidden | utils/validation.js:23 | finds the first of `< > : " / \ | ? *` in a model name, or reports there is none |
| Validation.ValidateModel | utils/validation.js:13-28 | valid exactly for a non-empty string that is not all white space and has no forbidden character; the first two failures' messages |
| Validation.ValidateTemperature | utils/validation.js:35-50 | valid exactly when absent, null, or a number in [0, 2]; the out-of-range message |
| Validation.ValidateMaxTokens | utils/validation.js:57-76 | valid exactly when absent, null, '', or a number in [1, 100000]; "must be a number" exactly for NaN |
| Validation.ValidatePersona | utils/validation.js:83-94 | valid exactly for the four built-in personas and any non-empty string starting with `custom_` |
| Validation.ValidateUserText | utils/validation.js:101-116 | valid exactly for a string whose trimmed length is between 1 and 10000 |
| Validation.FilledString | utils/validation.js:176 | the guard passes exactly for a non-empty string with a character other than white space |
| Validation.ValidatePersonaData | utils/validation.js:169-193 | valid exactly for an object whose name (≤ 100) and prompt (≤ 5000) are non-blank strings |
| Validation.FirstOf | utils/validation.js:147-159 | reports the problem of the first failing history entry, or nothing when every entry passes |
| Validation.FirstProblem | utils/validation.js:147-159 | the loop over the entries stops at the first problem, which is the one FirstOf names |
| Validation.HistoryEntryProblem | utils/validation.js:148-158 | an entry passes exactly when it is an object with role user, assistant or system and string content |
| Validation.ValidateSession | utils/validation.js:123-162 | valid exactly when every check passes; a non-object session, then a bad persona, then a bad model is reported with that validator's message, then "History must be an array" for a non-array, then the first bad entry; an empty history passes |
| Validation.RemoveControls | utils/validation.js:207 | removing the control characters leaves none and changes nothing in a text without them |
| Validation.SanitizeInput | utils/validation.js:200-209 | '' for a non-string; otherwise exactly the first min(10000, length) characters of the trimmed text without control characters |
| Validation.SanitizeCanLeaveLeadingSpace | utils/validation.js:205-207 | trimming before removing control characters can leave leading white space |
| Validation.SanitizeKeepsValidText | utils/validation.js:101-116 | for text that passes validation, sanitising only trims and removes control characters |
| Validation.ErrorOf | utils/validation.js:221-228 | a field contributes one error exactly when it was given and fails its check |
| Validation.Kept | utils/validation.js:221-228 | a field appears in the sanitised data exactly when it was given and passes, with its cleaned value |
| Validation.CheckField | utils/validation.js:221-228 | one field's step appends its error, if any, and yields its cleaned value when valid |
| Validation.ValidateAndSanitize | utils/validation.js:216-271 | errors in the order userText, model, persona, temperature, maxTokens; valid exactly when there are none; data holds exactly the given, passing fields |
| Validation.NullMaxTokensBecomesZero | utils/validation.js:57-62 | a null maxTokens passes and is stored as `Number(null)`, i.e. 0, which would itself fail |
| DatabaseValidation.IsNonBlank | database.js:13 | a non-empty string that is not all white space |
| DatabaseValidation.HistoryItemProblem | database.js:26-36 | an item passes exactly when it is an object with role user, assistant or system and non-empty string content |
| DatabaseValidation.TagProblem | database.js:45-49 | a tag passes exactly when it is a non-blank string |
| DatabaseValidation.SessionHeaderError | database.js:6-24 | passes exactly when persona and model are non-blank strings and history a non-empty array; a non-object is reported first |
| DatabaseValidation.TitleError | database.js:39-41 | a title passes exactly when absent or a non-blank string |
| DatabaseValidation.TagsError | database.js:43-53 | tags pass exactly when absent, a non-blank string, or an array of non-blank strings; an array reports its first bad tag, any other value the shape message |
| DatabaseValidation.OptionalFieldsError | database.js:38-53 | the optional fields pass exactly when title and tags do; a bad title is reported first, then the first bad tag or the tags' shape message |
| DatabaseValidation.ValidateSession | database.js:6-56 | accepts exactly the acceptable sessions, and throws the first failure in order: header, history items, the title message, the first bad tag, the tags' shape message |
| DatabaseValidation.ValidatePersona | database.js:58-83 | accepts exactly an object with a non-blank name of at most 100 characters and a non-blank prompt of at most 10000 |
| DatabaseValidation.ValidateId | database.js:85-90 | accepts exactly the positive integers |
| DatabaseValidation.ValidateModel | database.js:92-102 | accepts exactly a non-blank string of at most 200 characters |
| DatabaseValidation.FormPersonaIsStorable | database.js:58-83 | every persona the form validator accepts the database accepts too |
| DatabaseValidation.DatabaseTakesLongerPrompts | database.js:78-80 | a 6000-character prompt is stored by the database but refused by the form validator |
| DatabaseValidation.StoredItemsPassFormCheck | database.js:26-36 | every history item the database accepts also passes the form validator |
| DatabaseValidation.EmptyContentOnlyFormAccepts | database.js:33-35 | an item with empty content passes the form validator but not the database |
| ErrorHandling.LastN | utils/errorHandler.js:147 | `slice(-n)` for n > 0: the last min(n, length) entries, in log order |
| ErrorHandling.PushedKeepsMostRecent | utils/errorHandler.js:28-33 | push-then-shift keeps exactly the most recent 100 entries ever logged |
| ErrorHandling.GetValidationHint | utils/errorHandler.js:108-118 | the fixed hint for temperature, maxTokens, model, persona and userText; for a name of `Object.prototype` the inherited member; the generic fallback otherwise; a text hint is never empty |
| ErrorHandling.ErrorHandler.constructor | utils/errorHandler.js:8-11 | a new handler has an empty log |
| ErrorHandling.ErrorHandler.LogError | utils/errorHandler.js:19-33 | the new entry is last, the oldest is dropped beyond 100, and the log is the last 100 of all entries logged; context defaults to empty and severity to `error` |
| ErrorHandling.ErrorHandler.HandleDatabaseError | utils/errorHandler.js:47-56 | logs one `warn` entry with the operation and returns `ok:false, graceful:true` with the fixed message and hint |
| ErrorHandling.ErrorHandler.HandleOllamaError | utils/errorHandler.js:64-80 | logs one `error` entry and returns the message with the four suggestions, joined as the hint |
| ErrorHandling.ErrorHandler.HandleValidationError | utils/errorHandler.js:89-100 | logs one `warn` entry describing the rule and returns the field's hint |
| ErrorHandling.ErrorHandler.GetRecentErrors | utils/errorHandler.js:146-148 | the last `limit` entries (10 by default); `slice(-0)` gives the whole log; a negative limit drops from the front |
| ErrorHandling.ErrorHandler.ClearErrorLog | utils/errorHandler.js:153-155 | the log is empty afterwards |
| Renderer.WordLength | renderer/renderer.js:1668 | the length of the leading run of non-space characters |
| Renderer.SpaceLength | renderer/renderer.js:1668 | the length of the leading run of white space |
| Renderer.SplitWords | renderer/renderer.js:1668-1669 | the separator-capturing split is never empty and its parts join back to the text |
| Renderer.ConcatWordAndSpace | renderer/renderer.js:1668 | a word, the white space after it and the pieces of the rest join back to the text |
| Renderer.DiffPieces | renderer/renderer.js:1670-1679 | one diff piece per position up to the longer token list |
| Renderer.RenderAll | renderer/renderer.js:1672-1679 | each piece is rendered in place |
| Renderer.OldTexts | renderer/renderer.js:1673 | the old side of each piece |
| Renderer.NewTexts | renderer/renderer.js:1674 | the new side of each piece |
| Renderer.Padded | renderer/renderer.js:1673-1674 | a missing token reads as '' |
| Renderer.ConcatPadded | renderer/renderer.js:1673-1674 | padding with '' does not change the joined text |
| Renderer.ClassifyKeepsTokens | renderer/renderer.js:1675-1678 | every piece keeps both its old and its new token |
| Renderer.DiffKeepsBothSides | renderer/renderer.js:1667-1681 | the old sides of the diff join to a and the new sides to b |
| Renderer.DiffOfSameIsUnchanged | renderer/renderer.js:1667-1681 | diffing a text with itself renders exactly its tokens |
| Renderer.DiffPiece | renderer/renderer.js:1673-1678 | equal tokens verbatim, an old-only token as a deletion, a new-only one as an addition, differing ones as deletion then addition |
| Renderer.RenderPieces | renderer/renderer.js:1671-1679 | the loop renders every position in order |
| Renderer.ComputeDiff | renderer/renderer.js:1667-1681 | the rendered pieces joined; `computeDiff(a, a) == a` |
| Renderer.Triggered | renderer/renderer.js:201-236 | the triggered groups are empty exactly when no trigger substring occurs |
| Renderer.GetRecoverySuggestions | renderer/renderer.js:198-246 | the triggered groups in order, or exactly the three defaults when none matches; never fewer than 2 |
| Renderer.AddGroup | renderer/renderer.js:201-236 | a matched group's suggestions are appended after the earlier ones |
| Renderer.NoLowerNoMatch | renderer/renderer.js:201-236 | a message without lower-case letters contains no trigger with one |
| Renderer.UpperCaseErrorOnlyEmptyInput | renderer/renderer.js:227-230 | of all the triggers, an upper-case error code can only match EMPTY_INPUT |
| Renderer.EmptyInputGetsTwoSuggestions | renderer/renderer.js:227-230 | 'EMPTY_INPUT' gets exactly the two empty-input suggestions |
| Renderer.MissingModelHint | renderer/renderer.js:208-212 | a model-not-found error suggests pulling the context's model, or llama3:8b without one |
| Renderer.CacheAfter | renderer/renderer.js:328-334 | an empty reply is not cached; otherwise the key maps to the reply, at most 100 keys remain, and the earliest-inserted key is evicted |
| Renderer.ResponseCache.constructor | renderer/renderer.js:8 | a new cache is empty |
| Renderer.ResponseCache.Get | renderer/renderer.js:277-279 | a lookup finds exactly the cached keys with their replies |
| Renderer.ResponseCache.Store | renderer/renderer.js:328-334 | the cache becomes CacheAfter of its old contents, keeping its invariant (the same code runs at lines 432-438) |
| Renderer.ResponseCache.Clear | renderer/renderer.js:1739 | the cache is empty afterwards |
| Renderer.SpliceStart | renderer/renderer.js:1024 | splice's start: the index itself, or counted from the end when negative |
| Renderer.RemoveAt | renderer/renderer.js:1024 | `splice(i, 1)` removes exactly the element at the start index, if any, and shifts the rest |
| Renderer.AfterDelete | renderer/renderer.js:1017-1033 | nothing happens with at most one branch; otherwise the index is spliced out and the current index stays in range on the same branch |
| Renderer.BranchList.constructor | renderer/renderer.js:1-12 | no branches, current index 0, empty conversation, the Logician selected |
| Renderer.ModelOrDefault | renderer/renderer.js:983 | the model a new branch records; its properties are stated by ModelFieldDefault |
| Renderer.ModelFieldDefault | renderer/renderer.js:983 | an empty model field gives llama3:8b; a field of white space gives the empty model name |
| Renderer.BranchList.CreateBranch | renderer/renderer.js:978-993 | appends a copy of the history as branch n+1 and makes it current |
| Renderer.BranchList.SwitchTo | renderer/renderer.js:995-1015 | an in-range index loads that branch; any other index changes nothing |
| Renderer.BranchList.Delete | renderer/renderer.js:1017-1033 | the branches and current index become AfterDelete of the old ones |
| Renderer.NegativeIndexMovesCurrent | renderer/renderer.js:1024-1029 | deleting index -1 removes the last branch and still moves the current index back |
| Dashboard.RoundedMean | renderer/dashboard.js:206 | `Math.round(total / count)`: the nearest integer, halves rounded up |
| Dashboard.AnalyzeSession | renderer/dashboard.js:196-209 | total turns is the history length; user and assistant counts add up to at most that; averages are 0 without messages, else the rounded mean length; totalTokens is the summed length |
| Dashboard.RoundedMeanAtMostTotal | renderer/dashboard.js:206-208 | the rounded mean does not exceed the total |
| Dashboard.AveragesAtMostTotalTokens | renderer/dashboard.js:205-209 | neither average exceeds totalTokens |
| Dashboard.Filter | renderer/dashboard.js:268-272 | keeps exactly the sessions whose lower-cased title or tags contain the query |
| Dashboard.Matches | renderer/dashboard.js:269-271 | the search predicate on title and tag text; its properties are stated by Filter |
| Dashboard.TagsText | renderer/dashboard.js:270 | a tag string lower-cased, a tag array joined with commas and lower-cased, anything else ''; a definition, whose properties the members using it state |
| Dashboard.SearchSessions | renderer/dashboard.js:263-274 | an empty query shows all sessions; otherwise exactly the matching ones |
| Dashboard.SearchKeepsOrder | renderer/dashboard.js:268-272 | the search keeps the sessions' order |
| Dashboard.FilterAppend | renderer/dashboard.js:268-272 | filtering distributes over concatenation |
| Dashboard.EmptyQueryFilterKeepsAll | renderer/dashboard.js:268-271 | the empty query matches every session |
| Dashboard.LowerKeepsOccurrence | renderer/dashboard.js:269-271 | lower-casing keeps an occurrence of one text inside another |
| Dashboard.SearchIgnoresCase | renderer/dashboard.js:263-279 | a session whose title contains what was typed is found whatever its case |
| Dashboard.WindowStart | renderer/dashboard.js:65 | `floor(scrollTop / itemHeight)` |
| Dashboard.VisibleCount | renderer/dashboard.js:66 | `ceil(clientHeight / itemHeight)` |
| Dashboard.WindowEnd | renderer/dashboard.js:66 | the end index never passes the item count nor start + visible + buffer |
| Dashboard.NodesAppend | renderer/dashboard.js:69-93 | the rows and height of the rendered children add up piece by piece |
| Dashboard.Range | renderer/dashboard.js:79 | the indices from start to end |
| Dashboard.WindowRows | renderer/dashboard.js:79-86 | renders exactly the rows start..end, each placed at index × itemHeight |
| Dashboard.WindowFillsList | renderer/dashboard.js:72-93 | spacer above, rows and spacer below span the whole list's height |
| Dashboard.SpacerAbove | renderer/dashboard.js:72-76 | a spacer of start × itemHeight exactly when start > 0 |
| Dashboard.SpacerBelow | renderer/dashboard.js:89-93 | a spacer for the items below the window |
| Dashboard.Layout | renderer/dashboard.js:64-93 | the children render exactly the window's rows, in range, and span the list's height |
| Dashboard.VirtualScroller.constructor | renderer/dashboard.js:36-45 | a scroller starts with no items and scrollTop 0; itemHeight defaults to 60 and buffer to 5 |
| Dashboard.VirtualScroller.Render | renderer/dashboard.js:64-93 | renders exactly the indices [floor(scrollTop/h), min(start + ceil(clientHeight/h) + buffer, n)), never past the item count |
| Dashboard.VirtualScroller.SetItems | renderer/dashboard.js:53-57 | sets the items and the container height, then renders the window |
| Dashboard.VirtualScroller.HandleScroll | renderer/dashboard.js:59-62 | takes the new scroll offset, then renders the window |
| Export.PersonaTitle | main.js:639-647 | the title map, with the raw persona as fallback |
| Export.Header | main.js:647-653 | the seven header lines; its properties are stated by MarkdownStartsWithTitle, MarkdownLineCount |
| Export.Heading | main.js:656-664 | the heading of a turn by role; a definition, whose properties the members using it state |
| Export.TurnBlock | main.js:655-667 | heading, blank, content, blank for a turn with a role; its properties are stated by FourLinesPerTurn |
| Export.TurnLines | main.js:654-668 | the lines of the turns in order; its properties are stated by TurnLinesAppend |
| Export.TurnLinesAppend | main.js:654-668 | the lines of a conversation are the lines of its parts in order |
| Export.FourLinesPerTurn | main.js:654-668 | four lines per turn with a role, none for the others |
| Export.ExportMarkdown | main.js:620-670 | refuses with "Nothing to export" exactly when persona or model is missing or the history is not a non-empty array; otherwise header and turn lines joined by newlines |
| Export.JoinStartsWithFirst | main.js:670 | the joined text starts with its first line |
| Export.MarkdownStartsWithTitle | main.js:647 | the file opens with `# CODE Session — <title>` |
| Export.MarkdownLineCount | main.js:646-668 | seven header lines plus four per turn with a role |
| Export.ExportStatistics | main.js:767-772 | totalTurns is the history length, user and assistant turns the role counts, totalCharacters the summed content length |
| Export.StatisticsAgreeWithAnalytics | main.js:767-772 | the export's statistics equal the session browser's analytics of the same history |
| Prompts.BuiltInPrompt | main.js:136 | the persona's built-in prompt, the Logician's for any other persona; never empty |
| Prompts.CustomId | main.js:125 | the id after the `custom_` prefix |
| Prompts.PersonaSystemPrompt | main.js:116-137 | a non-empty custom prompt verbatim; else a stored custom persona's prompt; else the built-in prompt |
| Prompts.BuildSystemPrompt | main.js:139-145 | the persona's prompt, with the Devil's Advocate block appended in that mode |
| Prompts.StreamSystemPrompt | main.js:239 | Devil's Advocate mode ignores the custom prompt; otherwise the custom prompt wins |
| Prompts.StreamMessages | main.js:238-242 | the system message, then the history, then the user's text |
| Prompts.UnknownPersonaGetsLogician | main.js:136 | an unknown persona falls back to the Logician's prompt |
| Prompts.BuiltInPromptsNotEmpty | config.js:49-73 | without a custom prompt or database the system prompt is never empty |
| Prompts.DevilsAdvocateEndsWithBlock | main.js:139-145 | in Devil's Advocate mode the prompt ends with the block, whatever custom prompt was given |
| Prompts.StoredPersonaPromptUsed | main.js:121-128 | a stored custom persona's prompt is used as it is, even when empty |
| Retry.Delay | main.js:513-516 | the wait is min(base · multiplier^(attempt−1), maxDelay) |
| Retry.Delays | main.js:503-520 | the waits after attempts 1, 2, … in order |
| Retry.AttemptsMade | main.js:503-519 | attempts run up to the first success, or the first null/undefined error before the last attempt, and never beyond maxAttempts |
| Retry.RetryWithBackoff | main.js:500-524 | resolves with the first success; a null/undefined error before the last attempt ends in the TypeError of reading its `.message`; otherwise throws the last error (`undefined` with no attempt); waits between attempts, none after the last; config defaults to RETRY_CONFIG |
| Retry.NullErrorEndsFirstAttempt | main.js:517-519 | a `null` thrown by the first of several attempts ends the retry after that attempt |
| Retry.DefaultScheduleAlwaysFailing | main.js:487-524 | with the defaults, an always-failing operation is tried 3 times with waits of 1000 and 2000 ms |
| Retry.WaitsGrow | main.js:513-516 | with a multiplier of at least 1 the waits never shrink |
| Stream.IndexOfNewline | main.js:260 | `indexOf('\n')`: the first newline, or -1 when there is none |
| Stream.LinesAndRest | main.js:259-262 | the buffer is its complete lines, each with its newline, then the unterminated rest |
| Stream.LinesAppend | main.js:258-262 | appending a chunk keeps the earlier lines and continues from the old rest |
| Stream.LineEvents | main.js:263-279 | one line yields at most a response and a stream-end |
| Stream.TrimmedAppend | main.js:261 | trimming lines one by one distributes over concatenation |
| Stream.EventsAppend | main.js:260-283 | the events and done-lines of consecutive lines add up |
| Stream.LineEnds | main.js:269-279 | a line sends one stream-end exactly when it is done |
| Stream.EndsOfLines | main.js:260-283 | the lines send one stream-end per done line |
| Stream.OneEndPerDoneLine | main.js:255-307 | the corrected stream sends one stream-end per done line, or one bare one when none is done |
| Stream.StreamEvents | main.js:255-307 | the corrected event sequence; its properties are stated by OneEndPerDoneLine |
| Stream.StreamEventsAsWritten | main.js:255-307 | the event sequence of the code as written; its properties are stated by FinalDoneLineEndsTwice |
| Stream.AsWrittenAgreesUnlessFinalLineDone | main.js:284-307 | the code as written behaves as intended unless the unterminated final line is done |
| Stream.FinalDoneLineEndsTwice | main.js:284-307 | as written, a reply whose only done line lacks a newline ends twice |
| Stream.DoneReplyWithoutNewline | main.js:285-307 | a concrete such reply exists |
| Stream.HandleStream | main.js:220-307 | the corrected handler: empty or non-string text yields EMPTY_INPUT then stream-end; otherwise the events of all the chunks' lines in order, the rest flushed at the end, and exactly the as-written events whenever the unterminated final line is not done |
| Stream.ReceiveChunk | main.js:256-262 | a new chunk adds the lines completed by the old rest and the chunk |
| Stream.TakeLines | main.js:259-283 | the inner loop sends every complete line's events and keeps the rest |
| Stream.TakeOneLine | main.js:260-262 | one step takes the first line, trimmed, and continues after its newline |
| Stream.HandleLine | main.js:263-282 | the events sent for one line |
| Text.ToLower | utils/conversationMemory.js:123 | `toLowerCase()` over ASCII: same length, each character lowered, no upper case left |
| Text.Trim | utils/validation.js:106 | `trim()` never lengthens the text |
| Text.TrimIsMiddle | utils/validation.js:106 | `trim()` keeps a middle slice and drops only white space around it |
| Text.TrimHasNoOuterSpace | utils/validation.js:106 | a trimmed text neither starts nor ends with white space |
| Text.TrimEmptyIffAllSpace | utils/validation.js:106-107 | the trimmed text is empty exactly when the text is all white space |
| Text.Contains | utils/conversationMemory.js:125 | `includes(sub)`: true exactly when sub occurs at some index |
| Sequences.SortBy | utils/conversationMemory.js:225 | the stable sort: a permutation of its input |
| Sequences.SortByRankSorted | utils/conversationMemory.js:225 | sorting by rank yields non-decreasing ranks |
| Sequences.SortByStable | utils/conversationMemory.js:225 | sorting by rank keeps equally ranked elements in their input order, as ECMAScript's stable sort does |
| Sequences.SortByNoAdjacentInversion | utils/conversationMemory.js:78-84 | with an asymmetric comparator, no element is followed by one that comes before it |
| Sequences.TakePrefix | utils/conversationMemory.js:87 | `slice(0, n)` keeps a sub-multiset and the order of neighbours |
| Sequences.Dedup | utils/conversationMemory.js:219-224 | the distinct values in order of first occurrence, each value of the input present once |
| Sequences.DedupFirstSeen | utils/conversationMemory.js:219-224 | a value ahead of another in the deduplicated list was seen first |
| Sequences.DedupCardinality | utils/conversationMemory.js:219-224 | one value per distinct element |
| Sequences.Mode | utils/conversationMemory.js:379-381 | the last element of the stable ascending sort by frequency; its properties are stated by ModeIsMostFrequent |
| Sequences.ModeIsMostFrequent | utils/conversationMemory.js:379-381 | the reported value occurs and nothing occurs more often |
| Text.NatToString | renderer/renderer.js:981 | decimal digits that spell the number, with a leading 0 only for 0 itself |
| Text.JoinContainsPart | utils/conversationMemory.js:321 | every part occurs in `parts.join(sep)` |
| Turns.WithRoleCount | renderer/dashboard.js:198-199 | the messages of a role number as many as the role's count, at most the history's length |
| Turns.TwoRolesAtMostTotal | renderer/dashboard.js:202-204 | two different roles together count at most the turns |
| Turns.RoleLengthAtMostTotal | renderer/dashboard.js:206-209 | a role's content length is at most the total content length |

## Left out

- Electron windows, IPC registration, the preload bridge, the DOM (toasts, element creation, `renderItem`, `selectPersona`, output text), the save dialog and file writes: the model stops at the values they would receive.
- Network calls to the Ollama server (fetch, HTTP status errors, `res.text()`), the `AbortController` timeout and the `catch` of `generate-stream`; the model name, temperature and token limit placed in the request body; the request id on each event; the `TextDecoder` (chunks are already-decoded text).
- SQLite persistence; in `getPersonaSystemPrompt` the database is a map from id to prompt and a failing query (logged and ignored in the source) is not modelled.
- Timers and clocks: `Date.now()`, `new Date().toISOString()` and `setTimeout` become parameters or returned waits; the `sessionDuration` of `analyzeSession` needs the clock and is not part of the model.
- `createErrorBoundary` (an async wrapper), console output and the `process.env` check.
- Floating-point numbers are exact reals. In JavaScript, 0.2 + 0.1 is 0.30000000000000004 and passes the `> 0.3` relevance threshold; with reals a score of exactly 0.3 does not. `Number(...)` string coercion is given as its already-parsed value (`None` for NaN). NaN and the infinities are not modelled.
- Dashboard.VirtualScroller.Render: `scrollTop`, `clientHeight` and `itemHeight` are natural numbers with `itemHeight > 0`; a fractional scroll offset and an item height of 0 are not modelled.
- MemoryStore.ContextForFacts: the full order of the ranked memories is not stated. The comparator orders scores less than 0.1 apart by recency, so it is not transitive (0.0, 0.05 and 0.12 with suitable timestamps form a cycle), and the order ECMAScript's `sort` produces for such a comparator is implementation-defined. The model sorts with a stable insertion sort using the same comparator, and states what holds for any order: a permutation of the relevant entries, the first min(5, n) of them kept, no two neighbours in the comparator's reverse order.
- MemoryFeatures.SummaryDomainIsMostFrequent: `sort(...).pop()` over a stable sort reports, among equally frequent domains, the one that occurs last in the list. Sequences.Mode computes exactly that, but the lemma states only that the reported domain occurs and none is more frequent, not which of the tied ones it is. The same holds for MemoryStore.StatsDomainIsMostFrequent and MemoryStore.StatsPersonaIsMostUsed.
- MemoryFeatures.ByFrequency: the words are counted in an ordinary object, so `wordCount['constructor']` starts from the inherited function and becomes the text of that function followed by `1`, whose comparison in the sort gives NaN, and a word `__proto__` is never counted (assigning a string to `__proto__` is ignored). The model counts every word as an own key; a topic word `constructor` or `__proto__` is not modelled.
- MemoryFeatures.ExtractTopics: `Object.entries` lists integer-like keys (a word of digits only, such as `2024`) first, in ascending numeric order, before the other words in insertion order. The model lists every word in order of first occurrence, so the tie order of an all-digit topic word is not modelled.
- Stream.HandleStream: the method is the corrected handler (a done final line counts as a done line). It agrees with the code as written whenever the unterminated final line is not a done line, and the contract states that equality; the one difference is the row under "## Findings".
- Default arguments: `retryWithBackoff(operation, config = RETRY_CONFIG)`, `logError(error, context = {}, severity = 'error')`, `getRecentErrors(limit = 10)` and the `VirtualScroller` options (`itemHeight` 60, `buffer` 5) are Dafny default parameter values. A caller passing `undefined` explicitly is the same as omitting the argument, which the model does not distinguish.
- Unicode: strings are ASCII; `toLowerCase`, `trim` and the `\s`/`\w` regex classes are modelled on ASCII only.
- Prompts.BuiltInPrompt: `PERSONA_SYSTEM_PROMPTS[persona]` with a persona named after an `Object.prototype` member (such as `constructor`) finds the inherited function instead of falling back to the Logician; the model treats every key outside the table as missing. (ErrorHandling.GetValidationHint does model the inherited member.)
- Export.PersonaTitle: likewise, `personaTitleMap[persona]` for a persona such as `constructor` gives the inherited function, not the raw persona; the model gives the raw persona.
- Export.ExportMarkdown: a `null` entry in the history is not modelled; a missing role or content is ''. A non-array history is `None`.
- Prompts.StreamMessages: a history that is not an array, which the source replaces by [], is given as the empty sequence.
- `storeConversation` and `getRelevantContext` are given strings; a missing `userInput` or `aiResponse`, on which the source would throw in `toLowerCase` or `includes`, is not modelled.
- The structure check of `assessResponseQuality` looks for the three characters `â€¢` exactly as they are written in the source (a mis-encoded bullet), not for `•`.
- Renderer.BranchList.Delete: the toast naming the deleted branch, which reads `undefined.name` and throws for an out-of-range index after the splice, is not modelled.

## Findings

| source | as written | input that shows it | evidently intended | confidence | as-written member | corrected member |
|---|---|---|---|---|---|---|
| main.js:284-307 | the flush of the unterminated last line sends a stream-end with stats when that line is done, but does not set `finalStats`, so the bare stream-end of line 307 is sent as well | a reply whose only done line arrives without a trailing newline, e.g. the text `D` with a parser that reads it as done | exactly one stream-end per done line, or one bare stream-end when no line is done | medium, not executed | Stream.FinalDoneLineEndsTwice | Stream.OneEndPerDoneLine |
