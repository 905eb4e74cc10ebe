/**
 * The pure half of `ConversationMemory` (utils/conversationMemory.js):
 * the heuristic features computed from a user input or a model response
 * (domain, intent, complexity, question type, topics, sentiment, response
 * quality), the relevance score of a stored entry for a new input, and the
 * summary and suggestions built from the relevant entries.
 */
module MemoryFeatures {
  import opened Text
  import opened Sequences

  datatype Domain = Business | Technology | Academic | Personal | Creative | General
  datatype Intent = Question | Request | Assertion | Challenge
  datatype Complexity = Simple | Moderate | Complex
  /** `NotAQuestion` is the label 'statement' given to inputs without '?'. */
  datatype QuestionType = YesNo | What | How | Why | When | Where | Who | Open | NotAQuestion
  datatype Sentiment = Positive | Negative | Neutral
  datatype Quality = Low | Medium | High

  datatype Context = Context(domain: Domain, intent: Intent, complexity: Complexity, questionType: QuestionType)

  /** A stored conversation turn pair with the features derived from it. */
  datatype MemoryEntry = MemoryEntry(
    id: string,
    timestamp: int,
    persona: string,
    model: string,
    userInput: string,
    aiResponse: string,
    context: Context,
    sentiment: Sentiment,
    topics: seq<string>,
    quality: Quality)

  /** A stored entry together with its relevance score for the current input. */
  datatype ScoredMemory = ScoredMemory(entry: MemoryEntry, relevanceScore: real)

  function DomainName(d: Domain): string {
    match d
    case Business => "business"
    case Technology => "technology"
    case Academic => "academic"
    case Personal => "personal"
    case Creative => "creative"
    case General => "general"
  }

  // ---------------------------------------------------------------------
  // Keyword tables, searched in declaration order, first match wins
  // ---------------------------------------------------------------------

  const DomainKeywords: seq<(Domain, seq<string>)> := [
    (Business, ["business", "company", "startup", "market", "revenue", "profit", "investment", "funding"]),
    (Technology, ["tech", "software", "app", "code", "programming", "development", "AI", "machine learning"]),
    (Academic, ["research", "study", "thesis", "paper", "hypothesis", "theory", "analysis"]),
    (Personal, ["personal", "life", "career", "relationship", "health", "family"]),
    (Creative, ["creative", "design", "art", "writing", "story", "idea", "concept"])
  ]

  const IntentKeywords: seq<(Intent, seq<string>)> := [
    (Question, ["?", "what", "how", "why", "when", "where", "who"]),
    (Request, ["please", "can you", "could you", "help me", "analyze"]),
    (Assertion, [".", "!", "i think", "i believe", "my opinion"]),
    (Challenge, ["challenge", "critique", "disagree", "wrong", "flawed"])
  ]

  const QuestionKeywords: seq<(QuestionType, seq<string>)> := [
    (YesNo, ["is", "are", "was", "were", "do", "does", "did", "can", "could", "will", "would"]),
    (What, ["what"]),
    (How, ["how"]),
    (Why, ["why"]),
    (When, ["when"]),
    (Where, ["where"]),
    (Who, ["who"])
  ]

  /** `keywords.some(k => text.includes(k))`. */
  predicate MatchesAny(text: string, keywords: seq<string>) {
    exists i :: 0 <= i < |keywords| && Contains(text, keywords[i])
  }

  function AnyContained(text: string, keywords: seq<string>): (r: bool)
    ensures r <==> MatchesAny(text, keywords)
  {
    if keywords == [] then false
    else
      var rest := AnyContained(text, keywords[1..]);
      assert MatchesAny(text, keywords[1..]) <==>
        exists i :: 1 <= i < |keywords| && Contains(text, keywords[i]) by {
        forall i | 0 <= i < |keywords| - 1 ensures keywords[1..][i] == keywords[i + 1] { }
        if MatchesAny(text, keywords[1..]) {
          var i :| 0 <= i < |keywords| - 1 && Contains(text, keywords[1..][i]);
          assert Contains(text, keywords[i + 1]);
        }
      }
      Contains(text, keywords[0]) || rest
  }

  /** Row `k` is the first row of `table` with a keyword occurring in `text`. */
  predicate IsFirstMatch<L>(text: string, table: seq<(L, seq<string>)>, k: int) {
    0 <= k < |table| && MatchesAny(text, table[k].1) &&
    forall j :: 0 <= j < k ==> !MatchesAny(text, table[j].1)
  }

  predicate NoMatch<L>(text: string, table: seq<(L, seq<string>)>) {
    forall j :: 0 <= j < |table| ==> !MatchesAny(text, table[j].1)
  }

  /** Index of the first row that matches, or `|table|` when no row does. */
  function FirstMatch<L>(text: string, table: seq<(L, seq<string>)>): (k: nat)
    ensures k <= |table|
    ensures k < |table| ==> IsFirstMatch(text, table, k)
    ensures k == |table| ==> NoMatch(text, table)
  {
    if table == [] then 0
    else if AnyContained(text, table[0].1) then 0
    else
      var k := 1 + FirstMatch(text, table[1..]);
      assert forall j :: 1 <= j < |table| ==> table[1..][j - 1] == table[j];
      k
  }

  /** The label of the first matching row, or `default`. */
  function Classify<L>(text: string, table: seq<(L, seq<string>)>, default: L): L
  {
    var k := FirstMatch(text, table);
    if k < |table| then table[k].0 else default
  }

  /**
   * identifyDomain: the first domain, in the order business, technology,
   * academic, personal, creative, with a keyword in the lower-cased input;
   * `General` exactly when none has.
   */
  function IdentifyDomain(input: string): (r: Domain)
    ensures (exists k :: IsFirstMatch(ToLower(input), DomainKeywords, k) && DomainKeywords[k].0 == r)
         || (NoMatch(ToLower(input), DomainKeywords) && r == General)
    ensures r == General <==> NoMatch(ToLower(input), DomainKeywords)
  {
    Classify(ToLower(input), DomainKeywords, General)
  }

  /**
   * identifyIntent: the first of question, request, statement, challenge
   * whose indicators occur in the lower-cased input; statement when none does.
   */
  function IdentifyIntent(input: string): (r: Intent)
    ensures (exists k :: IsFirstMatch(ToLower(input), IntentKeywords, k) && IntentKeywords[k].0 == r)
         || (NoMatch(ToLower(input), IntentKeywords) && r == Assertion)
  {
    Classify(ToLower(input), IntentKeywords, Assertion)
  }

  /**
   * identifyQuestionType: 'statement' when the input has no '?'; otherwise
   * the first question kind with a keyword in the lower-cased input, or
   * 'open' when none has.
   */
  function IdentifyQuestionType(input: string): (r: QuestionType)
    ensures !Contains(input, "?") ==> r == NotAQuestion
    ensures Contains(input, "?") ==>
      (exists k :: IsFirstMatch(ToLower(input), QuestionKeywords, k) && QuestionKeywords[k].0 == r)
      || (NoMatch(ToLower(input), QuestionKeywords) && r == Open)
  {
    if !Contains(input, "?") then NotAQuestion
    else Classify(ToLower(input), QuestionKeywords, Open)
  }

  // ---------------------------------------------------------------------
  // Complexity
  // ---------------------------------------------------------------------

  predicate IsTerminator(c: char) {
    c == '.' || c == '!' || c == '?'
  }

  /** Number of maximal runs of '.', '!' and '?' in `s`. */
  function TerminatorRuns(s: string): nat
  {
    if s == [] then 0
    else (if IsTerminator(s[0]) && (|s| == 1 || !IsTerminator(s[1])) then 1 else 0) + TerminatorRuns(s[1..])
  }

  /** `input.split(' ').length`: one more piece than there are spaces. */
  function WordCount(input: string): nat
  {
    CountChar(input, ' ') + 1
  }

  /** `input.split(/[.!?]+/).length`: one more piece than there are runs of terminators. */
  function SentenceCount(input: string): nat
  {
    TerminatorRuns(input) + 1
  }

  /**
   * assessComplexity: simple when there are fewer than 20 words or fewer
   * than 8 words per sentence on average; complex when there are at least
   * 100 words and at least 15 per sentence; moderate otherwise.
   */
  function AssessComplexity(input: string): (r: Complexity)
    ensures r == Simple <==> WordCount(input) < 20 || WordCount(input) < 8 * SentenceCount(input)
    ensures r == Complex <==> WordCount(input) >= 100 && WordCount(input) >= 15 * SentenceCount(input)
  {
    var words := WordCount(input) as real;
    var sentences := SentenceCount(input) as real;
    var average := words / sentences;
    AverageBelow(words, sentences, 8.0);
    AverageBelow(words, sentences, 15.0);
    if WordCount(input) < 20 || average < 8.0 then Simple
    else if WordCount(input) < 100 || average < 15.0 then Moderate
    else Complex
  }

  /** An average is below `k` exactly when the total is below `k` times the count. */
  lemma AverageBelow(total: real, count: real, k: real)
    requires count > 0.0
    ensures total / count < k <==> total < k * count
  {
    var q := total / count;
    assert q * count == total;
    if q < k {
      assert (k - q) * count > 0.0;
    } else {
      assert (q - k) * count >= 0.0;
    }
  }

  /** An average is at most `k` exactly when the total is at most `k` times the count. */
  lemma AverageAtMost(total: real, count: real, k: real)
    requires count > 0.0
    ensures total / count <= k <==> total <= k * count
  {
    var q := total / count;
    assert q * count == total;
    if q <= k {
      assert (k - q) * count >= 0.0;
    } else {
      assert (q - k) * count > 0.0;
    }
  }

  function ExtractContext(input: string): Context
  {
    Context(IdentifyDomain(input), IdentifyIntent(input), AssessComplexity(input), IdentifyQuestionType(input))
  }

  // ---------------------------------------------------------------------
  // Topics
  // ---------------------------------------------------------------------

  const CommonWords: seq<string> := [
    "the", "a", "an", "and", "or", "but", "in", "on", "at", "to", "for", "of", "with", "by",
    "is", "are", "was", "were", "be", "been", "have", "has", "had", "do", "does", "did",
    "will", "would", "could", "should"
  ]

  /** The regex class `\w`. */
  predicate IsWordChar(c: char) {
    ('a' <= c <= 'z') || ('A' <= c <= 'Z') || ('0' <= c <= '9') || c == '_'
  }

  /** A character that `s.replace(/[^\w\s]/g, '')` keeps. */
  predicate KeptByStrip(c: char) {
    IsWordChar(c) || IsSpace(c)
  }

  /**
   * `s.replace(/[^\w\s]/g, '')`: only word and space characters remain;
   * `StripPunctuationCounts` adds that every one of them is kept, as often
   * as it occurs, and `StripPunctuationAppend` that they stay in order.
   */
  function StripPunctuation(s: string): (r: string)
    ensures forall i :: 0 <= i < |r| ==> KeptByStrip(r[i])
  {
    if s == [] then []
    else (if KeptByStrip(s[0]) then [s[0]] else []) + StripPunctuation(s[1..])
  }

  /** Every word or space character is kept as often as it occurs, and nothing else is. */
  lemma {:induction false} StripPunctuationCounts(s: string)
    ensures forall c :: multiset(StripPunctuation(s))[c] == if KeptByStrip(c) then multiset(s)[c] else 0
  {
    if s != [] {
      assert s == [s[0]] + s[1..];
      StripPunctuationCounts(s[1..]);
    }
  }

  /** Stripping works character by character, so it keeps the order of what it keeps. */
  lemma {:induction false} StripPunctuationAppend(a: string, b: string)
    ensures StripPunctuation(a + b) == StripPunctuation(a) + StripPunctuation(b)
  {
    if a != [] {
      var head := if KeptByStrip(a[0]) then [a[0]] else [];
      assert (a + b)[0] == a[0] && (a + b)[1..] == a[1..] + b;
      StripPunctuationAppend(a[1..], b);
      assert StripPunctuation(a + b) == head + (StripPunctuation(a[1..]) + StripPunctuation(b));
      assert StripPunctuation(a) == head + StripPunctuation(a[1..]);
    } else {
      assert a + b == b;
    }
  }

  /** Length of the run of non-space characters that starts `s`: the run has no space and ends at a space or at the end. */
  function RunLength(s: string): (n: nat)
    ensures n <= |s|
    ensures forall i :: 0 <= i < n ==> !IsSpace(s[i])
    ensures n < |s| ==> IsSpace(s[n])
  {
    if s == [] || IsSpace(s[0]) then 0 else 1 + RunLength(s[1..])
  }

  predicate NoSpace(w: string) {
    forall j :: 0 <= j < |w| ==> !IsSpace(w[j])
  }

  /**
   * `s.split(/\s+/)` without its empty pieces: the maximal runs of
   * non-space characters. The empty pieces that a leading or trailing
   * space produces never pass the topic filter, so they are not kept.
   * Each piece is a non-empty run of characters of `s` without space; a
   * text without space is one piece, and `WordsSplitAtSpace` says that a
   * space separates the pieces before it from those after it.
   */
  function Words(s: string): (r: seq<string>)
    ensures forall k :: 0 <= k < |r| ==> r[k] != [] && NoSpace(r[k])
    ensures forall k, j :: 0 <= k < |r| && 0 <= j < |r[k]| ==> r[k][j] in s
    ensures s != [] && NoSpace(s) ==> r == [s]
    decreases |s|
  {
    if s == [] then []
    else if IsSpace(s[0]) then Words(s[1..])
    else
      var n := RunLength(s);
      assert NoSpace(s) ==> n == |s| && s[..n] == s && s[n..] == [];
      [s[..n]] + Words(s[n..])
  }

  /** A run that ends before a space is not lengthened by what follows the space. */
  lemma {:induction false} RunLengthStopsAtSpace(a: string, sp: char, b: string)
    requires IsSpace(sp)
    ensures RunLength(a + [sp] + b) == RunLength(a)
  {
    if a == [] {
      assert (a + [sp] + b)[0] == sp;
    } else if !IsSpace(a[0]) {
      assert (a + [sp] + b)[1..] == a[1..] + [sp] + b;
      RunLengthStopsAtSpace(a[1..], sp, b);
    }
  }

  /** A space splits the text into the words before it and the words after it. */
  lemma {:induction false} WordsSplitAtSpace(a: string, sp: char, b: string)
    requires IsSpace(sp)
    ensures Words(a + [sp] + b) == Words(a) + Words(b)
    decreases |a|
  {
    var s := a + [sp] + b;
    if a == [] {
      assert s[1..] == b;
    } else if IsSpace(a[0]) {
      assert s[1..] == a[1..] + [sp] + b;
      WordsSplitAtSpace(a[1..], sp, b);
    } else {
      RunLengthStopsAtSpace(a, sp, b);
      var n := RunLength(a);
      assert s[..n] == a[..n];
      assert s[n..] == a[n..] + [sp] + b;
      WordsSplitAtSpace(a[n..], sp, b);
    }
  }

  predicate IsTopicWord(w: string) {
    |w| > 3 && w !in CommonWords
  }

  /**
   * `words.filter(...)` with the topic test: only topic words of `words`
   * remain; `FilterTopicWordsCounts` adds that every topic word is kept as
   * often as it occurs, and `FilterTopicWordsAppend` that they stay in order.
   */
  function FilterTopicWords(words: seq<string>): (r: seq<string>)
    ensures forall i :: 0 <= i < |r| ==> IsTopicWord(r[i]) && r[i] in words
    ensures forall w :: w in r ==> IsTopicWord(w)
  {
    if words == [] then []
    else (if IsTopicWord(words[0]) then [words[0]] else []) + FilterTopicWords(words[1..])
  }

  /** Every topic word is kept as often as it occurs, and every other word is dropped. */
  lemma {:induction false} FilterTopicWordsCounts(words: seq<string>)
    ensures forall w :: Occurrences(FilterTopicWords(words), w) == if IsTopicWord(w) then Occurrences(words, w) else 0
  {
    if words != [] {
      assert words == [words[0]] + words[1..];
      FilterTopicWordsCounts(words[1..]);
    }
  }

  lemma {:induction false} FilterTopicWordsAppend(a: seq<string>, b: seq<string>)
    ensures FilterTopicWords(a + b) == FilterTopicWords(a) + FilterTopicWords(b)
  {
    if a != [] {
      var head := if IsTopicWord(a[0]) then [a[0]] else [];
      assert (a + b)[0] == a[0] && (a + b)[1..] == a[1..] + b;
      FilterTopicWordsAppend(a[1..], b);
      assert FilterTopicWords(a + b) == head + (FilterTopicWords(a[1..]) + FilterTopicWords(b));
      assert FilterTopicWords(a) == head + FilterTopicWords(a[1..]);
    } else {
      assert a + b == b;
    }
  }

  /** A character that can remain in a topic word: a lower-case letter, a digit or '_'. */
  predicate IsTopicChar(c: char) {
    ('a' <= c <= 'z') || ('0' <= c <= '9') || c == '_'
  }

  /**
   * The candidate words of `input`, with repeats, in input order: each a
   * topic word made of lower-case letters, digits and '_' only.
   */
  function TopicWords(input: string): (r: seq<string>)
    ensures forall k :: 0 <= k < |r| ==> IsTopicWord(r[k])
    ensures forall k, j :: 0 <= k < |r| && 0 <= j < |r[k]| ==> IsTopicChar(r[k][j])
  {
    var lower := ToLower(input);
    var stripped := StripPunctuation(lower);
    var words := Words(stripped);
    var r := FilterTopicWords(words);
    forall k, j | 0 <= k < |r| && 0 <= j < |r[k]| ensures IsTopicChar(r[k][j]) {
      var w := r[k];
      var i :| 0 <= i < |words| && words[i] == w;
      var c := w[j];
      assert c in stripped && !IsSpace(c);
      StripPunctuationCounts(lower);
      assert multiset(stripped)[c] > 0;
      assert multiset(lower)[c] > 0;
      var m :| 0 <= m < |lower| && lower[m] == c;
    }
    r
  }

  /** Each distinct word paired with minus its frequency, so that ascending rank is descending frequency. */
  function ByFrequency(distinct: seq<string>, words: seq<string>): (r: seq<(string, int)>)
    ensures |r| == |distinct|
    ensures forall i :: 0 <= i < |r| ==> r[i] == (distinct[i], -(Occurrences(words, distinct[i]) as int))
  {
    if distinct == [] then [] else [(distinct[0], -(Occurrences(words, distinct[0]) as int))] + ByFrequency(distinct[1..], words)
  }

  /** Every pair holds a word of `words` and minus its number of occurrences there. */
  predicate CountedPairs(words: seq<string>, pairs: seq<(string, int)>) {
    forall i :: 0 <= i < |pairs| ==>
      pairs[i].0 in words && pairs[i].1 == -(Occurrences(words, pairs[i].0) as int)
  }

  lemma PermutationKeepsCounted(words: seq<string>, pairs: seq<(string, int)>, sorted: seq<(string, int)>)
    requires CountedPairs(words, pairs) && multiset(pairs) == multiset(sorted)
    ensures CountedPairs(words, sorted)
  {
    forall i | 0 <= i < |sorted|
      ensures sorted[i].0 in words && sorted[i].1 == -(Occurrences(words, sorted[i].0) as int)
    {
      assert sorted[i] in multiset(pairs);
      var k :| 0 <= k < |pairs| && pairs[k] == sorted[i];
    }
  }

  /** Counted pairs that are distinct have distinct words, since the count is a function of the word. */
  lemma CountedDistinctWords(words: seq<string>, pairs: seq<(string, int)>)
    requires CountedPairs(words, pairs) && Distinct(pairs)
    ensures Distinct(Firsts(pairs))
  {
    forall i, j | 0 <= i < j < |pairs| ensures pairs[i].0 != pairs[j].0 {
      assert pairs[i] != pairs[j];
    }
  }

  /** A word's pair in `ByFrequency` stands where the word stands among the distinct words. */
  lemma ByFrequencyOrder(distinct: seq<string>, words: seq<string>, a: (string, int), b: (string, int))
    requires OccursBefore(ByFrequency(distinct, words), a, b)
    ensures OccursBefore(distinct, a.0, b.0)
  {
    var pairs := ByFrequency(distinct, words);
    var p, q :| 0 <= p < q < |pairs| && pairs[p] == a && pairs[q] == b;
    assert distinct[p] == a.0 && distinct[q] == b.0;
  }

  /**
   * The word-frequency pairs of the distinct words of `words`, ranked by
   * descending frequency: every word is ranked once, and words of equal
   * frequency keep the order of their first occurrences (the stable sort
   * over `Object.entries`, which lists keys in insertion order).
   */
  function RankedTopics(words: seq<string>): (sorted: seq<(string, int)>)
    ensures CountedPairs(words, sorted)
    ensures Distinct(Firsts(sorted))
    ensures SortedByRank(sorted)
    ensures |sorted| == |SetOf(words)|
    ensures forall w :: w in words ==> w in Firsts(sorted)
    ensures forall i, j :: 0 <= i < j < |sorted| && sorted[i].1 == sorted[j].1 ==>
      FirstSeenBefore(words, sorted[i].0, sorted[j].0)
  {
    var distinct := Dedup(words);
    var pairs := ByFrequency(distinct, words);
    assert CountedPairs(words, pairs);
    assert Distinct(pairs) by {
      forall i, j | 0 <= i < j < |pairs| ensures pairs[i] != pairs[j] {
        assert distinct[i] != distinct[j];
      }
    }
    var sorted := SortBy(pairs, RankBefore);
    PermutationKeepsCounted(words, pairs, sorted);
    PermutationKeepsDistinct(pairs, sorted);
    CountedDistinctWords(words, sorted);
    SortByRankSorted(pairs);
    DedupCardinality(words);
    RankedTopicsComplete(words, distinct, pairs, sorted);
    RankedTopicsStable(words, distinct, pairs, sorted);
    sorted
  }

  lemma {:induction false} RankedTopicsComplete(words: seq<string>, distinct: seq<string>, pairs: seq<(string, int)>, sorted: seq<(string, int)>)
    requires distinct == Dedup(words) && pairs == ByFrequency(distinct, words)
    requires multiset(sorted) == multiset(pairs)
    ensures forall w :: w in words ==> w in Firsts(sorted)
  {
    forall w | w in words ensures w in Firsts(sorted) {
      var i :| 0 <= i < |distinct| && distinct[i] == w;
      assert pairs[i] in multiset(sorted);
      var k :| 0 <= k < |sorted| && sorted[k] == pairs[i];
      assert Firsts(sorted)[k] == w;
    }
  }

  lemma RankedTopicsStable(words: seq<string>, distinct: seq<string>, pairs: seq<(string, int)>, sorted: seq<(string, int)>)
    requires distinct == Dedup(words) && pairs == ByFrequency(distinct, words)
    requires sorted == SortBy(pairs, RankBefore)
    ensures forall i, j :: 0 <= i < j < |sorted| && sorted[i].1 == sorted[j].1 ==>
      FirstSeenBefore(words, sorted[i].0, sorted[j].0)
  {
    SortByStable(pairs);
    forall i, j | 0 <= i < j < |sorted| && sorted[i].1 == sorted[j].1
      ensures FirstSeenBefore(words, sorted[i].0, sorted[j].0)
    {
      ByFrequencyOrder(distinct, words, sorted[i], sorted[j]);
      DedupFirstSeen(words, sorted[i].0, sorted[j].0);
    }
  }

  lemma TakeKeepsDistinct(s: seq<string>, n: nat)
    requires Distinct(s)
    ensures Distinct(Take(s, n))
  {
    var r := Take(s, n);
    forall i, j | 0 <= i < j < |r| ensures r[i] != r[j] {
      assert r[i] == s[i] && r[j] == s[j];
    }
  }

  /**
   * extractTopics: the candidate words (longer than three characters, not a
   * stop word) counted, stably sorted by descending count, first five kept.
   * The result is the five most frequent distinct candidate words (all of
   * them when there are fewer), ties broken by first occurrence.
   */
  function ExtractTopics(input: string): (r: seq<string>)
    ensures TopByFrequency(TopicWords(input), r, 5)
    ensures forall i :: 0 <= i < |r| ==> IsTopicWord(r[i])
  {
    var words := TopicWords(input);
    var r := MostFrequent(words, 5);
    assert forall i :: 0 <= i < |r| ==> IsTopicWord(r[i]) by {
      forall i | 0 <= i < |r| ensures IsTopicWord(r[i]) {
        assert r[i] in words;
      }
    }
    r
  }

  /**
   * `r` is the `n` most frequent distinct words of `words`: as many as
   * there are distinct words, up to `n`; most frequent first, equally
   * frequent ones in the order of their first occurrences; and no word left
   * out occurs more often than a kept one, or as often and earlier.
   */
  predicate TopByFrequency(words: seq<string>, r: seq<string>, n: nat) {
    && |r| == (if |SetOf(words)| < n then |SetOf(words)| else n)
    && Distinct(r)
    && (forall i :: 0 <= i < |r| ==> r[i] in words)
    && (forall i, j :: 0 <= i < j < |r| ==> Occurrences(words, r[i]) >= Occurrences(words, r[j]))
    && (forall i, j :: 0 <= i < j < |r| && Occurrences(words, r[i]) == Occurrences(words, r[j]) ==>
          FirstSeenBefore(words, r[i], r[j]))
    && (forall w :: w in words && w !in r ==>
          forall i :: 0 <= i < |r| ==> Occurrences(words, w) <= Occurrences(words, r[i]))
    && (forall w :: w in words && w !in r ==>
          forall i :: 0 <= i < |r| && Occurrences(words, w) == Occurrences(words, r[i]) ==> FirstSeenBefore(words, r[i], w))
  }

  /** The first `n` words of the frequency ranking. */
  function MostFrequent(words: seq<string>, n: nat): (r: seq<string>)
    ensures TopByFrequency(words, r, n)
  {
    var r := Take(Firsts(RankedTopics(words)), n);
    TakeRanked(words, n, r);
    r
  }

  /** What `MostFrequent` states, for the first `n` ranked words. */
  lemma {:induction false} TakeRanked(words: seq<string>, n: nat, r: seq<string>)
    requires r == Take(Firsts(RankedTopics(words)), n)
    ensures TopByFrequency(words, r, n)
  {
    var sorted := RankedTopics(words);
    TakeRankedShape(words, sorted, n, r);
    KeptRankOrder(words, sorted, r);
    LeftOutRankLower(words, sorted, r);
  }

  /** The first `n` ranked words: as many as there are distinct words, up to `n`, distinct, and each one of the words. */
  lemma {:induction false} TakeRankedShape(words: seq<string>, sorted: seq<(string, int)>, n: nat, r: seq<string>)
    requires CountedPairs(words, sorted) && Distinct(Firsts(sorted)) && |sorted| == |SetOf(words)|
    requires r == Take(Firsts(sorted), n)
    ensures |r| == (if |SetOf(words)| < n then |SetOf(words)| else n)
    ensures Distinct(r)
    ensures forall i :: 0 <= i < |r| ==> r[i] in words
    ensures |r| <= |sorted| && forall i :: 0 <= i < |r| ==> r[i] == sorted[i].0
  {
    TakeKeepsDistinct(Firsts(sorted), n);
    assert forall i :: 0 <= i < |r| ==> r[i] == sorted[i].0;
  }

  /** The first `|r|` ranked words are in order of frequency, ties by first occurrence. */
  lemma {:induction false} KeptRankOrder(words: seq<string>, sorted: seq<(string, int)>, r: seq<string>)
    requires sorted == RankedTopics(words)
    requires |r| <= |sorted| && forall i :: 0 <= i < |r| ==> r[i] == sorted[i].0
    ensures forall i, j :: 0 <= i < j < |r| ==> Occurrences(words, r[i]) >= Occurrences(words, r[j])
    ensures forall i, j :: 0 <= i < j < |r| && Occurrences(words, r[i]) == Occurrences(words, r[j]) ==>
      FirstSeenBefore(words, r[i], r[j])
  {
    forall i, j | 0 <= i < j < |r|
      ensures Occurrences(words, r[i]) >= Occurrences(words, r[j])
      ensures Occurrences(words, r[i]) == Occurrences(words, r[j]) ==> FirstSeenBefore(words, r[i], r[j])
    {
      assert sorted[i].1 <= sorted[j].1;
      assert sorted[i].1 == -(Occurrences(words, r[i]) as int) && sorted[j].1 == -(Occurrences(words, r[j]) as int);
    }
  }

  /** A word not among the first `|r|` ranked words stands behind all of them. */
  lemma {:induction false} LeftOutRankLower(words: seq<string>, sorted: seq<(string, int)>, r: seq<string>)
    requires sorted == RankedTopics(words)
    requires |r| <= |sorted| && forall i :: 0 <= i < |r| ==> r[i] == sorted[i].0
    ensures forall w :: w in words && w !in r ==>
      forall i :: 0 <= i < |r| ==> Occurrences(words, w) <= Occurrences(words, r[i])
    ensures forall w :: w in words && w !in r ==>
      forall i :: 0 <= i < |r| && Occurrences(words, w) == Occurrences(words, r[i]) ==> FirstSeenBefore(words, r[i], w)
  {
    forall w, i | w in words && w !in r && 0 <= i < |r|
      ensures Occurrences(words, w) <= Occurrences(words, r[i])
      ensures Occurrences(words, w) == Occurrences(words, r[i]) ==> FirstSeenBefore(words, r[i], w)
    {
      var m :| 0 <= m < |sorted| && Firsts(sorted)[m] == w;
      assert i < m;
    }
  }

  // ---------------------------------------------------------------------
  // Sentiment and response quality
  // ---------------------------------------------------------------------

  const PositiveWords: seq<string> := [
    "good", "great", "excellent", "amazing", "wonderful", "fantastic", "love", "like", "enjoy",
    "happy", "excited", "optimistic"
  ]

  const NegativeWords: seq<string> := [
    "bad", "terrible", "awful", "hate", "dislike", "angry", "sad", "disappointed", "worried",
    "concerned", "pessimistic"
  ]

  /** `words.filter(w => text.includes(w)).length`: zero exactly when no word occurs. */
  function CountContained(text: string, words: seq<string>): (r: nat)
    ensures r <= |words|
    ensures r == 0 <==> !MatchesAny(text, words)
  {
    if words == [] then 0
    else
      var rest := CountContained(text, words[1..]);
      assert AnyContained(text, words) == (Contains(text, words[0]) || AnyContained(text, words[1..]));
      (if Contains(text, words[0]) then 1 else 0) + rest
  }

  /**
   * analyzeSentiment: positive or negative only when that list has strictly
   * more words in the lower-cased input than the other; neutral on a tie,
   * including when neither list occurs.
   */
  function AnalyzeSentiment(input: string): (r: Sentiment)
    ensures var p := CountContained(ToLower(input), PositiveWords);
            var n := CountContained(ToLower(input), NegativeWords);
            (r == Positive <==> p > n) && (r == Negative <==> n > p) && (r == Neutral <==> p == n)
    ensures !MatchesAny(ToLower(input), PositiveWords) && !MatchesAny(ToLower(input), NegativeWords) ==> r == Neutral
  {
    var lower := ToLower(input);
    var p := CountContained(lower, PositiveWords);
    var n := CountContained(lower, NegativeWords);
    if p > n then Positive else if n > p then Negative else Neutral
  }

  /**
   * The bullet marker as it stands in the source text: the three characters
   * that a UTF-8 '•' becomes when read as Windows-1252.
   */
  const BulletMarker: string := "\U{00E2}\U{20AC}\U{00A2}"

  /** The four checks of assessResponseQuality, case-sensitive, each worth one point. */
  function QualityScore(response: string): (r: nat)
    ensures r <= 4
  {
    (if |response| > 100 then 1 else 0)
    + (if Contains(response, "##") || Contains(response, BulletMarker) || Contains(response, "-") then 1 else 0)
    + (if Contains(response, "?") then 1 else 0)
    + (if Contains(response, "for example") || Contains(response, "such as") then 1 else 0)
  }

  /** assessResponseQuality: high from three points, medium from two, low below. */
  function AssessResponseQuality(response: string): (r: Quality)
    ensures r == High <==> QualityScore(response) >= 3
    ensures r == Medium <==> QualityScore(response) == 2
    ensures r == Low <==> QualityScore(response) <= 1
  {
    var score := QualityScore(response);
    if score >= 3 then High else if score >= 2 then Medium else Low
  }

  /** The numeric value getMemoryStats gives a quality. */
  function QualityValue(q: Quality): (v: int)
    ensures 1 <= v <= 3
  {
    match q
    case Low => 1
    case Medium => 2
    case High => 3
  }

  // ---------------------------------------------------------------------
  // Relevance
  // ---------------------------------------------------------------------

  /**
   * calculateTopicOverlap: shared distinct topics over the larger number of
   * distinct topics, 0 when either list is empty; always within [0, 1].
   */
  function TopicOverlap(topics1: seq<string>, topics2: seq<string>): (r: real)
    ensures 0.0 <= r <= 1.0
    ensures topics1 == [] || topics2 == [] ==> r == 0.0
  {
    if |topics1| == 0 || |topics2| == 0 then 0.0
    else
      var s1, s2 := SetOf(topics1), SetOf(topics2);
      var common := s1 * s2;
      assert topics1[0] in s1 && topics2[0] in s2;
      var larger := if |s1| >= |s2| then |s1| else |s2|;
      assert common <= s1;
      SubsetCardinality(common, s1);
      (|common| as real) / (larger as real)
  }

  lemma SubsetCardinality(a: set<string>, b: set<string>)
    requires a <= b
    ensures |a| <= |b|
  {
    assert b == a + (b - a);
  }

  /** Overlap does not depend on which list comes first. */
  lemma TopicOverlapSymmetric(topics1: seq<string>, topics2: seq<string>)
    ensures TopicOverlap(topics1, topics2) == TopicOverlap(topics2, topics1)
  {
    assert SetOf(topics1) * SetOf(topics2) == SetOf(topics2) * SetOf(topics1);
  }

  /** Identical non-empty topic lists overlap fully. */
  lemma TopicOverlapSelf(topics: seq<string>)
    requires topics != []
    ensures TopicOverlap(topics, topics) == 1.0
  {
    assert SetOf(topics) * SetOf(topics) == SetOf(topics);
    assert topics[0] in SetOf(topics);
  }

  function MatchCount(c1: Context, c2: Context): nat
  {
    (if c1.domain == c2.domain then 1 else 0) + (if c1.intent == c2.intent then 1 else 0)
    + (if c1.complexity == c2.complexity then 1 else 0) + (if c1.questionType == c2.questionType then 1 else 0)
  }

  /**
   * calculateContextSimilarity: 0.25 for each of domain, intent, complexity
   * and question type that agree; a multiple of 0.25 in [0, 1], and 1 only
   * for identical contexts.
   */
  function ContextSimilarity(c1: Context, c2: Context): (r: real)
    ensures 0.0 <= r <= 1.0
    ensures (4.0 * r).Floor as real == 4.0 * r
    ensures r == 1.0 <==> c1 == c2
  {
    var r := MatchCount(c1, c2) as real * 0.25;
    assert 4.0 * r == MatchCount(c1, c2) as real;
    r
  }

  /** What the current input contributes to scoring. */
  datatype Query = Query(context: Context, topics: seq<string>, sentiment: Sentiment, persona: string)

  function QueryOf(currentInput: string, currentPersona: string): Query
  {
    Query(ExtractContext(currentInput), ExtractTopics(currentInput), AnalyzeSentiment(currentInput), currentPersona)
  }

  /**
   * The weighted relevance of a stored entry: topic overlap × 0.4, context
   * similarity × 0.3, 0.2 for the same persona, 0.1 for the same sentiment.
   * It lies in [0, 1].
   */
  function RelevanceScore(entry: MemoryEntry, q: Query): (r: real)
    ensures 0.0 <= r <= 1.0
    ensures r >= (if entry.persona == q.persona then 0.2 else 0.0) + (if entry.sentiment == q.sentiment then 0.1 else 0.0)
  {
    TopicOverlap(q.topics, entry.topics) * 0.4
    + ContextSimilarity(q.context, entry.context) * 0.3
    + (if entry.persona == q.persona then 0.2 else 0.0)
    + (if entry.sentiment == q.sentiment then 0.1 else 0.0)
  }

  const RelevanceThreshold: real := 0.3

  /**
   * The comparator of getRelevantContext's sort, `(a, b) => …` < 0: by
   * descending score, but by descending timestamp when the scores are
   * less than 0.1 apart.
   */
  predicate ComesBefore(a: ScoredMemory, b: ScoredMemory) {
    var scoreDiff := b.relevanceScore - a.relevanceScore;
    if -0.1 < scoreDiff < 0.1 then b.entry.timestamp - a.entry.timestamp < 0 else scoreDiff < 0.0
  }

  /** Of two memories, at most one must come before the other. */
  lemma ComesBeforeAsymmetric()
    ensures forall a, b :: ComesBefore(a, b) ==> !ComesBefore(b, a)
  {
  }

  // ---------------------------------------------------------------------
  // Summary and suggestions
  // ---------------------------------------------------------------------

  function Domains(memories: seq<ScoredMemory>): (r: seq<Domain>)
    ensures |r| == |memories|
    ensures forall i :: 0 <= i < |r| ==> r[i] == memories[i].entry.context.domain
  {
    if memories == [] then [] else [memories[0].entry.context.domain] + Domains(memories[1..])
  }

  /** `memories.flatMap(m => m.topics)`. */
  function AllTopics(memories: seq<ScoredMemory>): seq<string>
  {
    if memories == [] then [] else memories[0].entry.topics + AllTopics(memories[1..])
  }

  lemma {:induction false} AllTopicsMember(memories: seq<ScoredMemory>, t: string)
    requires t in AllTopics(memories)
    ensures exists i :: 0 <= i < |memories| && t in memories[i].entry.topics
  {
    if t in memories[0].entry.topics {
      assert t in memories[0].entry.topics;
    } else {
      AllTopicsMember(memories[1..], t);
      var i :| 0 <= i < |memories[1..]| && t in memories[1..][i].entry.topics;
      assert t in memories[i + 1].entry.topics;
    }
  }

  /**
   * The topics named in the summary: the first three distinct topics of the
   * three top-ranked memories, in order of first appearance (fewer when
   * those memories have fewer distinct topics), each from one of them.
   */
  function SummaryTopics(memories: seq<ScoredMemory>): (r: seq<string>)
    ensures |r| <= 3
    ensures Distinct(r)
    ensures forall k :: 0 <= k < |r| ==> exists i :: 0 <= i < |memories| && i < 3 && r[k] in memories[i].entry.topics
    ensures r == Take(Dedup(AllTopics(Take(memories, 3))), 3)
    ensures |r| == if |SetOf(AllTopics(Take(memories, 3)))| < 3 then |SetOf(AllTopics(Take(memories, 3)))| else 3
  {
    var top := Take(memories, 3);
    var unique := Dedup(AllTopics(top));
    var r := Take(unique, 3);
    DedupCardinality(AllTopics(top));
    forall k | 0 <= k < |r| ensures exists i :: 0 <= i < |memories| && i < 3 && r[k] in memories[i].entry.topics {
      AllTopicsMember(top, r[k]);
    }
    r
  }

  /** The opening of a summary, up to the list of topics. */
  function SummaryHead(d: Domain): string {
    "Previous discussions focused on " + DomainName(d) + " topics including "
  }

  /**
   * generateContextSummary: "" when there are no relevant memories;
   * otherwise a sentence naming the most frequent domain among them and the
   * summary topics, separated by ", ", followed by a full stop.
   */
  function ContextSummary(memories: seq<ScoredMemory>): (r: string)
    ensures r == "" <==> memories == []
    ensures memories != [] ==> StartsWith(r, SummaryHead(Mode(Domains(memories))))
    ensures memories != [] ==> r == SummaryHead(Mode(Domains(memories))) + Join(SummaryTopics(memories), ", ") + "."
  {
    if memories == [] then ""
    else
      var head := SummaryHead(Mode(Domains(memories)));
      var tail := Join(SummaryTopics(memories), ", ") + ".";
      PrefixStartsWith(head, tail);
      head + tail
  }

  /** Every summary topic is named in the summary. */
  lemma SummaryNamesTopics(memories: seq<ScoredMemory>, k: nat)
    requires memories != [] && k < |SummaryTopics(memories)|
    ensures Contains(ContextSummary(memories), SummaryTopics(memories)[k])
  {
    var topics := SummaryTopics(memories);
    var head := SummaryHead(Mode(Domains(memories)));
    JoinContainsPart(topics, ", ", k);
    ContainsSuffix(head, Join(topics, ", "), topics[k]);
    ContainsPrefix(head + Join(topics, ", "), ".", topics[k]);
  }

  /** The domain named in a non-empty summary is the most frequent domain of the relevant memories. */
  lemma SummaryDomainIsMostFrequent(memories: seq<ScoredMemory>)
    requires memories != []
    ensures exists i :: 0 <= i < |memories| && memories[i].entry.context.domain == Mode(Domains(memories))
    ensures forall i :: 0 <= i < |memories| ==>
      Occurrences(Domains(memories), memories[i].entry.context.domain)
        <= Occurrences(Domains(memories), Mode(Domains(memories)))
  {
    var ds := Domains(memories);
    ModeIsMostFrequent(ds);
    forall i | 0 <= i < |memories|
      ensures Occurrences(ds, memories[i].entry.context.domain) <= Occurrences(ds, Mode(ds))
    {
      assert ds[i] in ds;
    }
  }

  const BusinessSuggestions: seq<string> := [
    "Consider market competition and customer acquisition costs",
    "Think about scalability and operational challenges"
  ]

  const TechnologySuggestions: seq<string> := [
    "Consider technical debt and maintenance costs",
    "Think about security and performance implications"
  ]

  const StartupQuestions: seq<string> := [
    "What problem does this solve for customers?",
    "How will you acquire your first 100 customers?"
  ]

  /** The canned suggestions for the top-ranked memory's domain. */
  function DomainSuggestions(memories: seq<ScoredMemory>): seq<string>
  {
    if memories == [] then []
    else match memories[0].entry.context.domain
      case Business => BusinessSuggestions
      case Technology => TechnologySuggestions
      case _ => []
  }

  /** Whether the current input mentions a startup or a business, in any case. */
  predicate MentionsBusiness(currentInput: string) {
    Contains(ToLower(currentInput), "startup") || Contains(ToLower(currentInput), "business")
  }

  function KeywordSuggestions(currentInput: string): seq<string>
  {
    if MentionsBusiness(currentInput) then StartupQuestions else []
  }

  /**
   * generateSuggestions: the domain-based suggestions first, then the
   * keyword-based ones, at most three in all.
   */
  function GenerateSuggestions(currentInput: string, memories: seq<ScoredMemory>): (r: seq<string>)
    ensures var d, k := DomainSuggestions(memories), KeywordSuggestions(currentInput);
      |r| == (if |d| + |k| < 3 then |d| + |k| else 3) &&
      forall i :: 0 <= i < |r| ==> r[i] == if i < |d| then d[i] else k[i - |d|]
  {
    Take(DomainSuggestions(memories) + KeywordSuggestions(currentInput), 3)
  }

  // ---------------------------------------------------------------------
  // Consequences of substring matching on the lower-cased input
  // ---------------------------------------------------------------------

  /** The technology keyword "AI" is upper-case, so it never occurs in a lower-cased input. */
  lemma UpperCaseKeywordNeverMatches(input: string)
    ensures !Contains(ToLower(input), "AI")
  {
    var lower := ToLower(input);
    forall i | 0 <= i && i + 2 <= |lower| ensures !OccursAt(lower, "AI", i) {
      assert lower[i..i + 2][0] == lower[i];
      assert !IsUpper(lower[i]);
    }
  }

  /** Every input containing "dislike" also contains "like", so the two sentiment words cancel out. */
  lemma DislikeAlsoCountsLike(text: string)
    requires Contains(text, "dislike")
    ensures Contains(text, "like")
  {
    var i :| OccursAt(text, "dislike", i);
    assert text[i + 3..i + 7] == text[i..i + 7][3..7];
    assert OccursAt(text, "like", i + 3);
  }

  /**
   * Keywords match inside words: "is" occurs in "this", so a question that
   * only starts with "what" is classified as a yes/no question.
   */
  lemma SubstringMatchInsideWords()
    ensures IdentifyQuestionType("What about this?") == YesNo
  {
    var input := "What about this?";
    var lower := ToLower(input);
    assert OccursAt(input, "?", 15);
    assert lower[13] == 'i' && lower[14] == 's';
    assert lower[13..15] == "is";
    assert OccursAt(lower, "is", 13);
    assert Contains(lower, QuestionKeywords[0].1[0]);
  }
}
