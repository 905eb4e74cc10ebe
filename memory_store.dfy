/**
 * The state of `ConversationMemory` (utils/conversationMemory.js): a `Map`
 * from session id to memory entry, bounded to 50 entries by evicting the
 * oldest ones after every store.
 *
 * A JavaScript `Map` is a dictionary that remembers insertion order; it is
 * modelled as the dictionary `memory` together with its key order `order`.
 * Setting an existing key keeps its place; deleting a key removes it from
 * the order. `Date.now()` is the parameter `now`.
 */
module MemoryStore {
  import opened Common
  import opened Text
  import opened Sequences
  import opened MemoryFeatures

  /** The conversation handed to storeConversation. */
  datatype Conversation = Conversation(persona: string, model: string, userInput: string, aiResponse: string)

  /** What getRelevantContext returns. */
  datatype RelevantContext = RelevantContext(
    relevantMemories: seq<ScoredMemory>,
    contextSummary: string,
    suggestions: seq<string>)

  /**
   * What getMemoryStats returns. `None` stands for the `undefined` of
   * popping an empty array and for the NaN of averaging no entries.
   */
  datatype MemoryStats = MemoryStats(
    totalMemories: nat,
    mostCommonDomain: Option<Domain>,
    mostUsedPersona: Option<string>,
    averageQuality: Option<real>)

  /** The entry storeConversation builds, with every feature derived from the conversation. */
  function NewEntry(sessionId: string, c: Conversation, now: int): MemoryEntry
  {
    MemoryEntry(sessionId, now, c.persona, c.model, c.userInput, c.aiResponse,
      ExtractContext(c.userInput), AnalyzeSentiment(c.userInput), ExtractTopics(c.userInput),
      AssessResponseQuality(c.aiResponse))
  }

  // ---------------------------------------------------------------------
  // Eviction, as a function of the map's contents
  // ---------------------------------------------------------------------

  predicate KeysStored(order: seq<string>, memory: map<string, MemoryEntry>) {
    forall k :: k in order ==> k in memory
  }

  /** The (session id, timestamp) pairs in map order (`Array.from(this.memory.entries())`). */
  function Stamped(order: seq<string>, memory: map<string, MemoryEntry>): (r: seq<(string, int)>)
    requires KeysStored(order, memory)
    ensures |r| == |order|
    ensures forall i :: 0 <= i < |r| ==> r[i] == (order[i], memory[order[i]].timestamp)
  {
    if order == [] then [] else [(order[0], memory[order[0]].timestamp)] + Stamped(order[1..], memory)
  }

  /** The entries in map order, stably sorted by ascending timestamp. */
  function ByAge(order: seq<string>, memory: map<string, MemoryEntry>): seq<(string, int)>
    requires KeysStored(order, memory)
  {
    SortBy(Stamped(order, memory), RankBefore)
  }

  /**
   * The session ids cleanupMemory deletes: none while there are at most
   * `limit` entries, otherwise the first `|order| - limit` of the entries
   * sorted by age.
   */
  function Evicted(order: seq<string>, memory: map<string, MemoryEntry>, limit: nat): (r: seq<string>)
    requires KeysStored(order, memory)
    ensures forall k :: k in r ==> k in order
  {
    if |order| <= limit then []
    else
      var sorted := ByAge(order, memory);
      var r := Take(Firsts(sorted), |order| - limit);
      forall k | k in r ensures k in order {
        var i :| 0 <= i < |r| && r[i] == k;
        assert sorted[i] in multiset(Stamped(order, memory));
      }
      r
  }

  /** `s` without the elements of `gone`, order kept. */
  function Without(s: seq<string>, gone: set<string>): (r: seq<string>)
    ensures forall k :: k in r <==> k in s && k !in gone
    ensures |r| <= |s|
  {
    if s == [] then []
    else (if s[0] in gone then [] else [s[0]]) + Without(s[1..], gone)
  }

  lemma {:induction false} WithoutNothing(s: seq<string>)
    ensures Without(s, {}) == s
  {
    if s != [] {
      WithoutNothing(s[1..]);
    }
  }

  lemma {:induction false} WithoutDistinct(s: seq<string>, gone: set<string>)
    requires Distinct(s)
    ensures Distinct(Without(s, gone))
  {
    if s != [] {
      WithoutDistinct(s[1..], gone);
      assert s[0] !in s[1..];
    }
  }

  lemma {:induction false} WithoutTwice(s: seq<string>, a: set<string>, b: set<string>)
    ensures Without(Without(s, a), b) == Without(s, a + b)
  {
    if s != [] {
      WithoutTwice(s[1..], a, b);
      if s[0] in a {
        assert Without(s, a) == Without(s[1..], a);
      } else {
        assert Without(s, a) == [s[0]] + Without(s[1..], a);
        assert Without(s, a)[1..] == Without(s[1..], a);
      }
    }
  }

  /** Removing some of a distinct sequence's elements shortens it by exactly that many. */
  lemma {:induction false} WithoutLength(s: seq<string>, gone: set<string>)
    requires Distinct(s)
    ensures |Without(s, gone)| + |gone * SetOf(s)| == |s|
  {
    if s != [] {
      WithoutLength(s[1..], gone);
      assert s[0] !in s[1..];
      if s[0] in gone {
        assert gone * SetOf(s) == gone * SetOf(s[1..]) + {s[0]};
      } else {
        assert gone * SetOf(s) == gone * SetOf(s[1..]);
      }
    }
  }

  /** The age-sorted pairs are the stored ids, each paired with its own timestamp. */
  lemma ByAgePairs(order: seq<string>, memory: map<string, MemoryEntry>)
    requires KeysStored(order, memory)
    ensures |ByAge(order, memory)| == |order|
    ensures forall i :: 0 <= i < |ByAge(order, memory)| ==>
      ByAge(order, memory)[i].0 in order && ByAge(order, memory)[i].1 == memory[ByAge(order, memory)[i].0].timestamp
    ensures forall k :: k in order ==> (k, memory[k].timestamp) in ByAge(order, memory)
  {
    var stamped := Stamped(order, memory);
    var sorted := ByAge(order, memory);
    forall i | 0 <= i < |sorted|
      ensures sorted[i].0 in order && sorted[i].1 == memory[sorted[i].0].timestamp
    {
      assert sorted[i] in multiset(stamped);
    }
    forall k | k in order ensures (k, memory[k].timestamp) in sorted {
      var m :| 0 <= m < |order| && order[m] == k;
      assert stamped[m] in multiset(sorted);
    }
  }

  /** The age-sorted pairs of a distinct order have distinct session ids. */
  lemma ByAgeDistinct(order: seq<string>, memory: map<string, MemoryEntry>)
    requires KeysStored(order, memory) && Distinct(order)
    ensures Distinct(Firsts(ByAge(order, memory)))
  {
    var stamped := Stamped(order, memory);
    var sorted := ByAge(order, memory);
    assert Distinct(stamped) by {
      forall i, j | 0 <= i < j < |stamped| ensures stamped[i] != stamped[j] {
        assert order[i] != order[j];
      }
    }
    PermutationKeepsDistinct(stamped, sorted);
    ByAgePairs(order, memory);
    forall i, j | 0 <= i < j < |sorted| ensures sorted[i].0 != sorted[j].0 {
      assert sorted[i] != sorted[j];
    }
  }

  /**
   * Eviction deletes distinct stored ids, exactly as many as the entries
   * exceed the limit, so that exactly `limit` entries remain.
   */
  lemma EvictedCount(order: seq<string>, memory: map<string, MemoryEntry>, limit: nat)
    requires KeysStored(order, memory) && Distinct(order)
    ensures Distinct(Evicted(order, memory, limit))
    ensures forall k :: k in Evicted(order, memory, limit) ==> k in order
    ensures |Evicted(order, memory, limit)| == if |order| <= limit then 0 else |order| - limit
    ensures |Without(order, SetOf(Evicted(order, memory, limit)))| == if |order| <= limit then |order| else limit
  {
    var gone := Evicted(order, memory, limit);
    if |order| > limit {
      ByAgeDistinct(order, memory);
      var names := Firsts(ByAge(order, memory));
      forall i, j | 0 <= i < j < |gone| ensures gone[i] != gone[j] {
        assert gone[i] == names[i] && gone[j] == names[j];
      }
      forall k | k in gone ensures k in order {
        var i :| 0 <= i < |gone| && gone[i] == k;
        assert names[i] == ByAge(order, memory)[i].0;
      }
    }
    WithoutLength(order, SetOf(gone));
    assert SetOf(gone) * SetOf(order) == SetOf(gone);
    DistinctCardinality(gone);
  }

  /** cleanupMemory deletes the oldest entries: no deleted entry is newer than a kept one. */
  lemma EvictedAreOldest(order: seq<string>, memory: map<string, MemoryEntry>, limit: nat)
    requires KeysStored(order, memory) && Distinct(order)
    ensures forall d, k :: d in Evicted(order, memory, limit) && k in order && k !in Evicted(order, memory, limit) ==>
      memory[d].timestamp <= memory[k].timestamp
  {
    if |order| > limit {
      var sorted := ByAge(order, memory);
      var n := |order| - limit;
      var gone := Evicted(order, memory, limit);
      ByAgePairs(order, memory);
      ByAgeDistinct(order, memory);
      SortByRankSorted(Stamped(order, memory));
      forall d, k | d in gone && k in order && k !in gone
        ensures memory[d].timestamp <= memory[k].timestamp
      {
        var i :| 0 <= i < |gone| && gone[i] == d;
        assert d == sorted[i].0;
        var j :| 0 <= j < |sorted| && sorted[j] == (k, memory[k].timestamp);
        forall m | 0 <= m < n ensures sorted[m].0 != k {
          assert gone[m] == sorted[m].0;
        }
        assert sorted[i].1 <= sorted[j].1;
      }
    }
  }

  /** An entry strictly newer than every other entry is never evicted while the limit is positive. */
  lemma NewestNeverEvicted(order: seq<string>, memory: map<string, MemoryEntry>, limit: nat, newest: string)
    requires KeysStored(order, memory) && Distinct(order) && limit > 0
    requires newest in order
    requires forall k :: k in order && k != newest ==> memory[k].timestamp < memory[newest].timestamp
    ensures newest !in Evicted(order, memory, limit)
  {
    if |order| > limit {
      var sorted := ByAge(order, memory);
      var names := Firsts(sorted);
      var n := |order| - limit;
      ByAgePairs(order, memory);
      ByAgeDistinct(order, memory);
      SortByRankSorted(Stamped(order, memory));
      var j :| 0 <= j < |sorted| && sorted[j] == (newest, memory[newest].timestamp);
      forall m | 0 <= m < |sorted| && m != j ensures sorted[m].1 < sorted[j].1 {
        assert names[m] != names[j];
      }
      assert j == |sorted| - 1;
      forall i | 0 <= i < n ensures names[i] != newest {
        assert names[i] != names[j];
      }
    }
  }

  // ---------------------------------------------------------------------
  // Relevance, as a function of the stored entries
  // ---------------------------------------------------------------------

  /**
   * The entries scoring above the threshold, in map order, each with its
   * score: an entry is kept exactly when its score exceeds 0.3.
   */
  function Relevant(entries: seq<MemoryEntry>, q: Query): (r: seq<ScoredMemory>)
    ensures |r| <= |entries|
    ensures forall m :: m in r ==>
      m.entry in entries && m.relevanceScore == RelevanceScore(m.entry, q) && m.relevanceScore > RelevanceThreshold
    ensures forall e :: e in entries ==>
      (RelevanceScore(e, q) > RelevanceThreshold <==> ScoredMemory(e, RelevanceScore(e, q)) in r)
  {
    if entries == [] then []
    else
      var last := entries[|entries| - 1];
      var score := RelevanceScore(last, q);
      var rest := Relevant(entries[..|entries| - 1], q);
      assert forall e :: e in entries ==> e in entries[..|entries| - 1] || e == last;
      rest + (if score > RelevanceThreshold then [ScoredMemory(last, score)] else [])
  }

  /** Scoring one more entry appends it when, and only when, it scores above the threshold. */
  lemma RelevantStep(entries: seq<MemoryEntry>, i: nat, q: Query)
    requires i < |entries|
    ensures Relevant(entries[..i + 1], q) == Relevant(entries[..i], q) +
      (if RelevanceScore(entries[i], q) > RelevanceThreshold then [ScoredMemory(entries[i], RelevanceScore(entries[i], q))] else [])
  {
    assert entries[..i + 1][..i] == entries[..i];
  }

  /** The memory statistics' quality total, one to three points per entry. */
  function QualityTotal(entries: seq<MemoryEntry>): (r: nat)
    ensures |entries| <= r <= 3 * |entries|
  {
    if entries == [] then 0 else QualityTotal(entries[..|entries| - 1]) + QualityValue(entries[|entries| - 1].quality)
  }

  function DomainsOf(entries: seq<MemoryEntry>): (r: seq<Domain>)
    ensures |r| == |entries|
    ensures forall i :: 0 <= i < |r| ==> r[i] == entries[i].context.domain
  {
    if entries == [] then [] else [entries[0].context.domain] + DomainsOf(entries[1..])
  }

  function PersonasOf(entries: seq<MemoryEntry>): (r: seq<string>)
    ensures |r| == |entries|
    ensures forall i :: 0 <= i < |r| ==> r[i] == entries[i].persona
  {
    if entries == [] then [] else [entries[0].persona] + PersonasOf(entries[1..])
  }

  /**
   * The order lists each stored id once, and every stored entry is filed
   * under its own id.
   */
  ghost predicate Consistent(order: seq<string>, memory: map<string, MemoryEntry>) {
    Distinct(order) && (forall k :: k in order <==> k in memory) &&
    (forall k :: k in memory ==> memory[k].id == k)
  }

  /** Evicting keeps the order and the map consistent and leaves at most `limit` entries. */
  lemma EvictionKeepsConsistent(order: seq<string>, memory: map<string, MemoryEntry>, limit: nat)
    requires Consistent(order, memory)
    ensures var gone := SetOf(Evicted(order, memory, limit));
      Consistent(Without(order, gone), memory - gone) && |Without(order, gone)| <= limit
  {
    var gone := SetOf(Evicted(order, memory, limit));
    EvictedCount(order, memory, limit);
    WithoutDistinct(order, gone);
  }

  /**
   * The map after storeConversation: the entry is set under its id (a new
   * id goes to the end of the order, an existing one keeps its place),
   * then the oldest entries beyond `limit` are evicted.
   */
  function AfterStore(order: seq<string>, memory: map<string, MemoryEntry>, entry: MemoryEntry, limit: nat)
    : (seq<string>, map<string, MemoryEntry>)
    requires KeysStored(order, memory)
  {
    var stored := if entry.id in memory then order else order + [entry.id];
    var updated := memory[entry.id := entry];
    var gone := SetOf(Evicted(stored, updated, limit));
    (Without(stored, gone), updated - gone)
  }

  /** Storing keeps the map consistent and within the limit. */
  lemma StoreKeepsConsistent(order: seq<string>, memory: map<string, MemoryEntry>, entry: MemoryEntry, limit: nat)
    requires Consistent(order, memory) && |order| <= limit
    ensures Consistent(AfterStore(order, memory, entry, limit).0, AfterStore(order, memory, entry, limit).1)
    ensures |AfterStore(order, memory, entry, limit).0| <= limit
  {
    var stored := if entry.id in memory then order else order + [entry.id];
    var updated := memory[entry.id := entry];
    assert Consistent(stored, updated);
    EvictionKeepsConsistent(stored, updated, limit);
  }

  /** Storing under an id already present replaces its entry in place and evicts nothing. */
  lemma StoreExistingReplacesInPlace(order: seq<string>, memory: map<string, MemoryEntry>, entry: MemoryEntry, limit: nat)
    requires Consistent(order, memory) && |order| <= limit
    requires entry.id in memory
    ensures AfterStore(order, memory, entry, limit) == (order, memory[entry.id := entry])
  {
    var updated := memory[entry.id := entry];
    assert Evicted(order, updated, limit) == [];
    assert SetOf<string>([]) == {};
    WithoutNothing(order);
    assert updated - {} == updated;
  }

  /** Storing a new id while there is room appends it and evicts nothing. */
  lemma StoreNewWithRoomAppends(order: seq<string>, memory: map<string, MemoryEntry>, entry: MemoryEntry, limit: nat)
    requires Consistent(order, memory) && |order| < limit
    requires entry.id !in memory
    ensures AfterStore(order, memory, entry, limit) == (order + [entry.id], memory[entry.id := entry])
  {
    var stored := order + [entry.id];
    var updated := memory[entry.id := entry];
    assert Evicted(stored, updated, limit) == [];
    assert SetOf<string>([]) == {};
    WithoutNothing(stored);
    assert updated - {} == updated;
  }

  /** An entry newer than every stored one survives the eviction that follows it. */
  lemma StoreKeepsNewest(order: seq<string>, memory: map<string, MemoryEntry>, entry: MemoryEntry, limit: nat)
    requires Consistent(order, memory) && limit > 0
    requires forall k :: k in memory ==> memory[k].timestamp < entry.timestamp
    ensures entry.id in AfterStore(order, memory, entry, limit).1
    ensures AfterStore(order, memory, entry, limit).1[entry.id] == entry
  {
    var stored := if entry.id in memory then order else order + [entry.id];
    var updated := memory[entry.id := entry];
    assert Distinct(stored);
    NewestNeverEvicted(stored, updated, limit, entry.id);
  }

  /**
   * What getRelevantContext answers for the stored entries `entries`: the
   * entries scoring above the threshold, ranked by the sort's comparator;
   * the first five of them, and the summary and suggestions of all of them.
   */
  function ContextFor(entries: seq<MemoryEntry>, q: Query, currentInput: string): RelevantContext
  {
    var ranked := SortBy(Relevant(entries, q), ComesBefore);
    RelevantContext(Take(ranked, 5), ContextSummary(ranked), GenerateSuggestions(currentInput, ranked))
  }

  /**
   * The ranking is a rearrangement of the relevant memories in which no
   * memory stands directly behind one it must come before; the first five
   * of them (all of them when there are fewer) are returned, each a
   * stored entry scoring above 0.3 with its score; the summary is empty
   * exactly when no stored entry scores above 0.3.
   */
  lemma ContextForFacts(entries: seq<MemoryEntry>, q: Query, currentInput: string)
    ensures multiset(SortBy(Relevant(entries, q), ComesBefore)) == multiset(Relevant(entries, q))
    ensures var r := ContextFor(entries, q, currentInput);
      |r.relevantMemories| == (if |Relevant(entries, q)| < 5 then |Relevant(entries, q)| else 5) &&
      multiset(r.relevantMemories) <= multiset(Relevant(entries, q)) &&
      (|Relevant(entries, q)| <= 5 ==> multiset(r.relevantMemories) == multiset(Relevant(entries, q))) &&
      (forall i :: 0 <= i < |r.relevantMemories| - 1 ==>
        !ComesBefore(r.relevantMemories[i + 1], r.relevantMemories[i])) &&
      (forall m :: m in r.relevantMemories ==>
        m.entry in entries && m.relevanceScore == RelevanceScore(m.entry, q) && m.relevanceScore > RelevanceThreshold) &&
      (r.contextSummary == "" <==> forall e :: e in entries ==> RelevanceScore(e, q) <= RelevanceThreshold)
  {
    var relevant := Relevant(entries, q);
    var ranked := SortBy(relevant, ComesBefore);
    var top := Take(ranked, 5);
    ComesBeforeAsymmetric();
    SortByNoAdjacentInversion(relevant, ComesBefore);
    TakePrefix(ranked, 5, ComesBefore);
    forall m | m in top ensures m in relevant {
      assert m in multiset(ranked);
    }
    if relevant != [] {
      assert relevant[0] in relevant;
      assert ranked != [];
    } else {
      assert ranked == [];
    }
  }

  class ConversationMemory {
    /** The session ids in insertion order. */
    var order: seq<string>
    /** The stored entries by session id. */
    var memory: map<string, MemoryEntry>
    const maxMemorySize: nat := 50
    /** Declared by the source but never read by any of its methods. */
    const contextWindow: nat := 10

    /**
     * The order lists each stored id once, every stored entry is filed
     * under its own id, and there are at most `maxMemorySize` of them.
     */
    ghost predicate Valid()
      reads this
    {
      Consistent(order, memory) && |order| <= maxMemorySize
    }

    /** The stored entries in map order (`this.memory.values()`). */
    function Entries(): (r: seq<MemoryEntry>)
      reads this
      requires Valid()
      ensures |r| == |order|
      ensures forall i :: 0 <= i < |r| ==> r[i] == memory[order[i]]
      ensures forall e :: e in r ==> e.id in memory && memory[e.id] == e
    {
      seq(|order|, i requires 0 <= i < |order| && order[i] in memory reads this => memory[order[i]])
    }

    constructor()
      ensures Valid()
      ensures order == [] && memory == map[]
    {
      order := [];
      memory := map[];
    }

    /**
     * storeConversation: files a new entry stamped `now` under `sessionId`,
     * replacing an earlier one in place, then runs cleanupMemory.
     */
    method StoreConversation(sessionId: string, conversation: Conversation, now: int)
      modifies this
      requires Valid()
      ensures Valid()
      ensures (order, memory) == AfterStore(old(order), old(memory), NewEntry(sessionId, conversation, now), maxMemorySize)
    {
      var entry := NewEntry(sessionId, conversation, now);
      SetEntry(entry);
    }

    /** `this.memory.set(sessionId, memoryEntry)` followed by `this.cleanupMemory()`. */
    method SetEntry(entry: MemoryEntry)
      modifies this
      requires Valid()
      ensures Valid()
      ensures (order, memory) == AfterStore(old(order), old(memory), entry, maxMemorySize)
    {
      var sessionId := entry.id;
      if sessionId !in memory {
        assert sessionId !in order;
        order := order + [sessionId];
      }
      memory := memory[sessionId := entry];
      CleanupMemory();
    }

    /**
     * cleanupMemory: when there are more than `maxMemorySize` entries,
     * deletes the oldest ones (those evicted by `Evicted`) one by one,
     * leaving exactly `maxMemorySize`.
     */
    method CleanupMemory()
      modifies this
      requires Consistent(order, memory)
      ensures Valid()
      ensures var gone := SetOf(Evicted(old(order), old(memory), maxMemorySize));
        order == Without(old(order), gone) && memory == old(memory) - gone
    {
      EvictionKeepsConsistent(order, memory, maxMemorySize);
      if |order| > maxMemorySize {
        var toDelete := Evicted(order, memory, maxMemorySize);
        DeleteSessions(toDelete);
      } else {
        ghost var gone := Evicted(order, memory, maxMemorySize);
        assert gone == [];
        assert SetOf(gone) == {};
        WithoutNothing(order);
        assert memory - {} == memory;
      }
    }

    /** `toDelete.forEach(([sessionId]) => this.memory.delete(sessionId))`. */
    method DeleteSessions(toDelete: seq<string>)
      modifies this
      ensures order == Without(old(order), SetOf(toDelete)) && memory == old(memory) - SetOf(toDelete)
    {
      ghost var order0, memory0 := order, memory;
      ghost var removed: set<string> := {};
      WithoutNothing(order0);
      assert memory0 - {} == memory0;
      var i := 0;
      while i < |toDelete|
        invariant 0 <= i <= |toDelete|
        invariant removed == SetOf(toDelete[..i])
        invariant order == Without(order0, removed)
        invariant memory == memory0 - removed
      {
        var sessionId := toDelete[i];
        memory := memory - {sessionId};
        WithoutTwice(order0, removed, {sessionId});
        order := Without(order, {sessionId});
        assert toDelete[..i + 1] == toDelete[..i] + [sessionId];
        SetOfAppend(toDelete[..i], sessionId);
        removed := removed + {sessionId};
        i := i + 1;
      }
      assert toDelete[..i] == toDelete;
    }

    /**
     * getRelevantContext: analyses the current input, scores the stored
     * entries against it, ranks the ones above the threshold and answers as
     * `ContextFor` does. Nothing stored changes.
     */
    method GetRelevantContext(currentInput: string, currentPersona: string) returns (r: RelevantContext)
      requires Valid()
      ensures r == ContextFor(Entries(), QueryOf(currentInput, currentPersona), currentInput)
    {
      var q := QueryOf(currentInput, currentPersona);
      var relevantMemories := ScoreMemories(q);
      var ranked := SortBy(relevantMemories, ComesBefore);
      r := RelevantContext(Take(ranked, 5), ContextSummary(ranked), GenerateSuggestions(currentInput, ranked));
    }

    /**
     * The scoring loop of getRelevantContext: visits the stored entries in
     * map order, adds up each one's weighted score, and keeps those above
     * the threshold.
     */
    method ScoreMemories(q: Query) returns (relevantMemories: seq<ScoredMemory>)
      requires Valid()
      ensures relevantMemories == Relevant(Entries(), q)
    {
      ghost var entries := Entries();
      relevantMemories := [];
      var i := 0;
      while i < |order|
        invariant 0 <= i <= |order|
        invariant relevantMemories == Relevant(entries[..i], q)
      {
        var entry := memory[order[i]];
        var relevanceScore := 0.0;
        relevanceScore := relevanceScore + TopicOverlap(q.topics, entry.topics) * 0.4;
        relevanceScore := relevanceScore + ContextSimilarity(q.context, entry.context) * 0.3;
        if entry.persona == q.persona {
          relevanceScore := relevanceScore + 0.2;
        }
        if entry.sentiment == q.sentiment {
          relevanceScore := relevanceScore + 0.1;
        }
        assert relevanceScore == RelevanceScore(entry, q);
        RelevantStep(entries, i, q);
        if relevanceScore > RelevanceThreshold {
          relevantMemories := relevantMemories + [ScoredMemory(entry, relevanceScore)];
        }
        i := i + 1;
      }
      assert entries[..i] == entries;
    }

    /**
     * getMemoryStats: the number of entries, the most frequent domain and
     * persona, and the mean quality on the scale low = 1, medium = 2,
     * high = 3; the last three are missing when nothing is stored.
     */
    function GetMemoryStats(): (r: MemoryStats)
      reads this
      requires Valid()
      ensures r.totalMemories == |memory|
      ensures r.mostCommonDomain.None? <==> memory == map[]
      ensures r.mostUsedPersona.None? <==> memory == map[]
      ensures r.averageQuality.None? <==> memory == map[]
      ensures r.averageQuality.Some? ==> 1.0 <= r.averageQuality.value <= 3.0
      ensures r.averageQuality.Some? ==> r.averageQuality.value == QualityTotal(Entries()) as real / |memory| as real
      ensures r.mostCommonDomain.Some? ==> r.mostCommonDomain.value == Mode(DomainsOf(Entries()))
      ensures r.mostUsedPersona.Some? ==> r.mostUsedPersona.value == Mode(PersonasOf(Entries()))
    {
      var entries := Entries();
      SizeMatches();
      if entries == [] then
        assert memory.Keys == {};
        MemoryStats(0, None, None, None)
      else
        var total := QualityTotal(entries) as real;
        var count := |entries| as real;
        MeanWithin(total, count);
        MemoryStats(|memory|, Some(Mode(DomainsOf(entries))), Some(Mode(PersonasOf(entries))), Some(total / count))
    }

    /** A valid memory holds as many entries as its order lists. */
    lemma SizeMatches()
      requires Valid()
      ensures |memory| == |order|
    {
      assert memory.Keys == SetOf(order);
      DistinctCardinality(order);
    }

    static lemma MeanWithin(total: real, count: real)
      requires count > 0.0 && count <= total <= 3.0 * count
      ensures 1.0 <= total / count <= 3.0
    {
      AverageBelow(total, count, 1.0);
      AverageAtMost(total, count, 3.0);
    }

    /** clearMemory: forgets every entry. */
    method ClearMemory()
      modifies this
      ensures Valid()
      ensures order == [] && memory == map[]
    {
      order := [];
      memory := map[];
    }
  }

  /** The most common domain reported by the statistics is a stored domain and none is more frequent. */
  lemma StatsDomainIsMostFrequent(entries: seq<MemoryEntry>)
    requires entries != []
    ensures Mode(DomainsOf(entries)) in DomainsOf(entries)
    ensures forall i :: 0 <= i < |entries| ==>
      Occurrences(DomainsOf(entries), entries[i].context.domain) <= Occurrences(DomainsOf(entries), Mode(DomainsOf(entries)))
  {
    var ds := DomainsOf(entries);
    ModeIsMostFrequent(ds);
    forall i | 0 <= i < |entries| ensures Occurrences(ds, entries[i].context.domain) <= Occurrences(ds, Mode(ds)) {
      assert ds[i] in ds;
    }
  }

  /** The most used persona reported by the statistics is a stored persona and none is used more often. */
  lemma StatsPersonaIsMostUsed(entries: seq<MemoryEntry>)
    requires entries != []
    ensures Mode(PersonasOf(entries)) in PersonasOf(entries)
    ensures forall i :: 0 <= i < |entries| ==>
      Occurrences(PersonasOf(entries), entries[i].persona) <= Occurrences(PersonasOf(entries), Mode(PersonasOf(entries)))
  {
    var ps := PersonasOf(entries);
    ModeIsMostFrequent(ps);
    forall i | 0 <= i < |entries| ensures Occurrences(ps, entries[i].persona) <= Occurrences(ps, Mode(ps)) {
      assert ps[i] in ps;
    }
  }
}
