/**
 * The session browser (renderer/dashboard.js): the analytics shown for a
 * selected session, the search box's filter over the loaded sessions, and
 * the virtual scroller that lays out only the rows near the visible part
 * of a long session list.
 */
module Dashboard {
  import opened Text
  import opened Turns

  // ---------------------------------------------------------------------
  // Session analytics
  // ---------------------------------------------------------------------

  /** The analytics of one session; the session's age in minutes needs the clock and is not part of it. */
  datatype Analysis = Analysis(
    totalTurns: nat,
    userTurns: nat,
    assistantTurns: nat,
    avgUserLength: nat,
    avgAssistantLength: nat,
    totalTokens: nat)

  /**
   * `Math.round(total / count)`: the integer nearest to the mean, a mean
   * exactly half-way between two integers going up.
   */
  function RoundedMean(total: nat, count: nat): (r: nat)
    requires count > 0
    ensures 2 * count * r <= 2 * total + count < 2 * count * (r + 1)
  {
    (2 * total + count) / (2 * count)
  }

  /** The rounded mean content length of the messages, 0 when there are none. */
  function AverageLength(messages: seq<Turn>): nat
  {
    if |messages| > 0 then RoundedMean(TotalLength(messages), |messages|) else 0
  }

  /**
   * analyzeSession: the number of turns, of user and of assistant turns,
   * the rounded mean content length of each of those two roles (0 for a
   * role without messages), and the total content length.
   */
  function AnalyzeSession(history: seq<Turn>): (a: Analysis)
    ensures a.totalTurns == |history|
    ensures a.userTurns == CountRole(history, "user") && a.assistantTurns == CountRole(history, "assistant")
    ensures a.userTurns + a.assistantTurns <= a.totalTurns
    ensures a.userTurns == 0 ==> a.avgUserLength == 0
    ensures a.assistantTurns == 0 ==> a.avgAssistantLength == 0
    ensures a.userTurns > 0 ==>
      var total := TotalLength(WithRole(history, "user"));
      2 * a.userTurns * a.avgUserLength <= 2 * total + a.userTurns < 2 * a.userTurns * (a.avgUserLength + 1)
    ensures a.assistantTurns > 0 ==>
      var total := TotalLength(WithRole(history, "assistant"));
      (2 * a.assistantTurns * a.avgAssistantLength <= 2 * total + a.assistantTurns <
        2 * a.assistantTurns * (a.avgAssistantLength + 1))
    ensures a.totalTokens == TotalLength(history)
  {
    var users := WithRole(history, "user");
    var assistants := WithRole(history, "assistant");
    WithRoleCount(history, "user");
    WithRoleCount(history, "assistant");
    TwoRolesAtMostTotal(history, "user", "assistant");
    Analysis(|history|, |users|, |assistants|, AverageLength(users), AverageLength(assistants), TotalLength(history))
  }

  /** A rounded mean never exceeds the total it was taken of. */
  lemma RoundedMeanAtMostTotal(total: nat, count: nat)
    requires count > 0
    ensures RoundedMean(total, count) <= total
  {
    var r := RoundedMean(total, count);
    var d := 2 * count;
    assert 2 * total <= (2 * total) * count;
    assert 2 * total + count < d * (total + 1);
    assert r * d <= 2 * total + count;
  }

  /** Neither average message length exceeds the session's total content length. */
  lemma AveragesAtMostTotalTokens(history: seq<Turn>)
    ensures AnalyzeSession(history).avgUserLength <= AnalyzeSession(history).totalTokens
    ensures AnalyzeSession(history).avgAssistantLength <= AnalyzeSession(history).totalTokens
  {
    var users := WithRole(history, "user");
    var assistants := WithRole(history, "assistant");
    RoleLengthAtMostTotal(history, "user");
    RoleLengthAtMostTotal(history, "assistant");
    if |users| > 0 {
      RoundedMeanAtMostTotal(TotalLength(users), |users|);
    }
    if |assistants| > 0 {
      RoundedMeanAtMostTotal(TotalLength(assistants), |assistants|);
    }
  }

  // ---------------------------------------------------------------------
  // Session search
  // ---------------------------------------------------------------------

  /** The `tags` column of a loaded session: missing, the stored text, an array, or some other value. */
  datatype Tags = NoTags | TagText(text: string) | TagList(list: seq<string>) | OtherTags

  /** A loaded session as the search sees it; a missing title is "". */
  datatype SessionRow = SessionRow(id: int, title: string, tags: Tags)

  /** The lower-cased text the search looks for the query in: the tag text, or the tags joined with commas. */
  function TagsText(tags: Tags): string
  {
    match tags
    case TagText(text) => ToLower(text)
    case TagList(list) => ToLower(Join(list, ","))
    case _ => ""
  }

  /** The search predicate: the lower-cased title or the tag text contains the query. */
  predicate Matches(row: SessionRow, query: string)
  {
    Contains(ToLower(row.title), query) || Contains(TagsText(row.tags), query)
  }

  /** `sessions.filter(s => matches(s))`. */
  function Filter(sessions: seq<SessionRow>, query: string): (r: seq<SessionRow>)
    ensures |r| <= |sessions|
    ensures forall x :: x in r ==> x in sessions && Matches(x, query)
    ensures forall x :: x in sessions && Matches(x, query) ==> x in r
  {
    if sessions == [] then []
    else (if Matches(sessions[0], query) then [sessions[0]] else []) + Filter(sessions[1..], query)
  }

  /**
   * The search over the loaded sessions: all of them for an empty query,
   * otherwise exactly the matching ones. The query is the search box's
   * text already lower-cased.
   */
  function SearchSessions(sessions: seq<SessionRow>, query: string): (r: seq<SessionRow>)
    ensures query == "" ==> r == sessions
    ensures forall x :: x in r ==> x in sessions && Matches(x, query)
    ensures forall x :: x in sessions && Matches(x, query) ==> x in r
  {
    if query == "" then sessions else Filter(sessions, query)
  }

  /** The search keeps the loaded order: searching a list in two parts gives the two results one after the other. */
  lemma {:induction false} SearchKeepsOrder(a: seq<SessionRow>, b: seq<SessionRow>, query: string)
    ensures SearchSessions(a + b, query) == SearchSessions(a, query) + SearchSessions(b, query)
  {
    if query != "" {
      FilterAppend(a, b, query);
    }
  }

  lemma {:induction false} FilterAppend(a: seq<SessionRow>, b: seq<SessionRow>, query: string)
    ensures Filter(a + b, query) == Filter(a, query) + Filter(b, query)
  {
    if a == [] {
      assert a + b == b;
    } else {
      var ab := a + b;
      assert ab[0] == a[0] && ab[1..] == a[1..] + b;
      FilterAppend(a[1..], b, query);
    }
  }

  /** The empty query matches every session, so the shortcut for it agrees with the filter. */
  lemma {:induction false} EmptyQueryFilterKeepsAll(sessions: seq<SessionRow>)
    ensures Filter(sessions, "") == sessions
  {
    if sessions != [] {
      assert OccursAt(ToLower(sessions[0].title), "", 0);
      EmptyQueryFilterKeepsAll(sessions[1..]);
    }
  }

  /** Lower-casing both texts keeps an occurrence where it was. */
  lemma LowerKeepsOccurrence(s: string, sub: string, i: int)
    requires OccursAt(s, sub, i)
    ensures OccursAt(ToLower(s), ToLower(sub), i)
  {
    assert ToLower(s)[i..i + |sub|] == ToLower(sub) by {
      forall k | 0 <= k < |sub|
        ensures ToLower(s)[i..i + |sub|][k] == ToLower(sub)[k]
      {
        assert s[i..i + |sub|][k] == s[i + k];
      }
    }
  }

  /**
   * The search ignores case: a loaded session whose title contains what
   * was typed, in whatever case, is found by the lower-cased query.
   */
  lemma SearchIgnoresCase(sessions: seq<SessionRow>, row: SessionRow, typed: string)
    requires row in sessions
    requires Contains(row.title, typed)
    ensures row in SearchSessions(sessions, ToLower(typed))
  {
    var i :| OccursAt(row.title, typed, i);
    LowerKeepsOccurrence(row.title, typed, i);
    assert Matches(row, ToLower(typed));
  }

  // ---------------------------------------------------------------------
  // Virtual scrolling
  // ---------------------------------------------------------------------

  /** What `render` appends to the container: a spacer of some height, or the row of one item at its offset. */
  datatype Node = Spacer(height: nat) | Row(index: nat, top: nat)

  /** `Math.floor(scrollTop / itemHeight)`: the first item that reaches below the scroll offset. */
  function WindowStart(scrollTop: nat, itemHeight: nat): (s: nat)
    requires itemHeight > 0
    ensures s * itemHeight <= scrollTop < (s + 1) * itemHeight
  {
    scrollTop / itemHeight
  }

  /** `Math.ceil(clientHeight / itemHeight)`: the fewest items that fill the visible height. */
  function VisibleCount(clientHeight: nat, itemHeight: nat): (v: nat)
    requires itemHeight > 0
    ensures v * itemHeight >= clientHeight
    ensures v > 0 ==> (v - 1) * itemHeight < clientHeight
  {
    (clientHeight + itemHeight - 1) / itemHeight
  }

  /** `Math.min(start + visible + buffer, count)`. */
  function WindowEnd(start: nat, visible: nat, buffer: nat, count: nat): (e: nat)
    ensures e <= count && e <= start + visible + buffer
    ensures e == count || e == start + visible + buffer
  {
    if start + visible + buffer < count then start + visible + buffer else count
  }

  /** The indices of the rows among the nodes, in order. */
  function RowIndices(nodes: seq<Node>): seq<nat>
  {
    if nodes == [] then []
    else (if nodes[0].Row? then [nodes[0].index] else []) + RowIndices(nodes[1..])
  }

  /** The height the nodes take up: each spacer its height and each row one item height. */
  function Height(nodes: seq<Node>, itemHeight: nat): nat
  {
    if nodes == [] then 0
    else (if nodes[0].Spacer? then nodes[0].height else itemHeight) + Height(nodes[1..], itemHeight)
  }

  lemma {:induction false} NodesAppend(a: seq<Node>, b: seq<Node>, itemHeight: nat)
    ensures RowIndices(a + b) == RowIndices(a) + RowIndices(b)
    ensures Height(a + b, itemHeight) == Height(a, itemHeight) + Height(b, itemHeight)
  {
    if a == [] {
      assert a + b == b;
    } else {
      var ab := a + b;
      assert ab[0] == a[0] && ab[1..] == a[1..] + b;
      NodesAppend(a[1..], b, itemHeight);
    }
  }

  /** The consecutive indices `from`, …, `to - 1`. */
  function Range(from: nat, to: nat): (r: seq<nat>)
    ensures |r| == if from < to then to - from else 0
    ensures forall k :: 0 <= k < |r| ==> r[k] == from + k
  {
    if from < to then seq(to - from, k requires 0 <= k < to - from => from + k) else []
  }

  /** The rows `render` lays out for the window from `start` up to `end`, each at its own offset. */
  method WindowRows(start: nat, end: nat, itemHeight: nat) returns (rows: seq<Node>)
    ensures RowIndices(rows) == Range(start, end)
    ensures Height(rows, itemHeight) == if start < end then (end - start) * itemHeight else 0
    ensures forall node :: node in rows ==> node.Row? && start <= node.index < end && node.top == node.index * itemHeight
  {
    rows := [];
    var i := start;
    while i < end
      invariant start <= i && (i == start || i <= end)
      invariant RowIndices(rows) == Range(start, i)
      invariant Height(rows, itemHeight) == (i - start) * itemHeight
      invariant forall node :: node in rows ==> node.Row? && start <= node.index < i && node.top == node.index * itemHeight
    {
      NodesAppend(rows, [Row(i, i * itemHeight)], itemHeight);
      assert Range(start, i + 1) == Range(start, i) + [i];
      assert (i + 1 - start) * itemHeight == (i - start) * itemHeight + itemHeight;
      rows := rows + [Row(i, i * itemHeight)];
      i := i + 1;
    }
    if end < start {
      assert Range(start, i) == [] == Range(start, end);
    }
  }

  /** The spacer above, the rows of the window and the spacer below add up to the height of the whole list. */
  lemma WindowFillsList(start: nat, end: nat, count: nat, itemHeight: nat)
    requires start <= end <= count
    ensures start * itemHeight + (end - start) * itemHeight + (count - end) * itemHeight == count * itemHeight
  {
    assert start * itemHeight + (end - start) * itemHeight == end * itemHeight;
    assert end * itemHeight + (count - end) * itemHeight == count * itemHeight;
  }

  /** The spacer standing for the items above the window, when there are any. */
  function SpacerAbove(start: nat, itemHeight: nat): (r: seq<Node>)
    ensures RowIndices(r) == [] && Height(r, itemHeight) == start * itemHeight
    ensures forall node :: node in r ==> node.Spacer?
    ensures start > 0 ==> r == [Spacer(start * itemHeight)]
  {
    if start > 0 then
      var r := [Spacer(start * itemHeight)];
      assert r[1..] == [];
      r
    else []
  }

  /** The spacer standing for the items below the window, when there are any. */
  function SpacerBelow(end: nat, count: nat, itemHeight: nat): (r: seq<Node>)
    requires end <= count
    ensures RowIndices(r) == [] && Height(r, itemHeight) == (count - end) * itemHeight
    ensures forall node :: node in r ==> node.Spacer?
  {
    if end < count then
      var r := [Spacer((count - end) * itemHeight)];
      assert r[1..] == [];
      r
    else []
  }

  /**
   * The nodes `render` puts in the container for the window from `start`
   * up to `end` of a list of `count` items: a spacer for the items above,
   * the rows, and a spacer for the items below.
   */
  method Layout(start: nat, end: nat, count: nat, itemHeight: nat) returns (nodes: seq<Node>)
    requires end <= count && (start <= count ==> start <= end)
    ensures RowIndices(nodes) == Range(start, end)
    ensures start <= count ==> Height(nodes, itemHeight) == count * itemHeight
    ensures forall node :: node in nodes && node.Row? ==> node.index < count && node.top == node.index * itemHeight
    ensures start > 0 ==> nodes != [] && nodes[0] == Spacer(start * itemHeight)
  {
    var above := SpacerAbove(start, itemHeight);
    var rows := WindowRows(start, end, itemHeight);
    var below := SpacerBelow(end, count, itemHeight);
    NodesAppend(above, rows, itemHeight);
    NodesAppend(above + rows, below, itemHeight);
    if start <= count {
      WindowFillsList(start, end, count, itemHeight);
    }
    nodes := above + rows + below;
  }

  /**
   * The scroller of the session list. `itemHeight` and `buffer` are fixed
   * when it is made; the items, the scroll offset and the visible height
   * come from the page, and `children` is what the container holds after
   * the last render.
   */
  class VirtualScroller {
    const itemHeight: nat
    const buffer: nat
    var items: seq<SessionRow>
    /** `container.scrollTop`, in whole pixels. */
    var scrollTop: nat
    var clientHeight: nat
    /** `container.style.height`, in pixels. */
    var containerHeight: nat
    var children: seq<Node>

    ghost predicate Valid()
      reads this
    {
      itemHeight > 0
    }

    /**
     * `new VirtualScroller(container, itemHeight = 60, buffer = 5)`: no
     * items, scrolled to the top; the container is given by its height.
     */
    constructor(clientHeight: nat, itemHeight: nat := 60, buffer: nat := 5)
      requires itemHeight > 0
      ensures Valid()
      ensures this.itemHeight == itemHeight && this.buffer == buffer && this.clientHeight == clientHeight
      ensures items == [] && scrollTop == 0 && children == []
    {
      this.itemHeight := itemHeight;
      this.buffer := buffer;
      this.clientHeight := clientHeight;
      items := [];
      scrollTop := 0;
      containerHeight := 0;
      children := [];
    }

    /**
     * render: a spacer for the items above the window, one row per item of
     * the window at its own offset, and a spacer for the items below. The
     * window starts at the first item reaching below the scroll offset and
     * holds enough items to fill the visible height plus `buffer` more, but
     * never goes past the last item. Unless the list is scrolled past its
     * end, the nodes take up exactly the height of the whole list.
     */
    method Render()
      requires Valid()
      modifies this
      ensures Valid()
      ensures items == old(items) && scrollTop == old(scrollTop) && clientHeight == old(clientHeight)
      ensures containerHeight == old(containerHeight)
      ensures var start := WindowStart(scrollTop, itemHeight);
        var end := WindowEnd(start, VisibleCount(clientHeight, itemHeight), buffer, |items|);
        RowIndices(children) == Range(start, end) &&
        (start <= |items| ==> Height(children, itemHeight) == |items| * itemHeight)
      ensures forall node :: node in children && node.Row? ==>
        node.index < |items| && node.top == node.index * itemHeight
      ensures WindowStart(scrollTop, itemHeight) > 0 ==>
        children != [] && children[0] == Spacer(WindowStart(scrollTop, itemHeight) * itemHeight)
    {
      var start := WindowStart(scrollTop, itemHeight);
      var end := WindowEnd(start, VisibleCount(clientHeight, itemHeight), buffer, |items|);
      children := Layout(start, end, |items|, itemHeight);
    }

    /** setItems: takes the new list, sizes the container for all of it and renders. */
    method SetItems(newItems: seq<SessionRow>)
      requires Valid()
      modifies this
      ensures Valid()
      ensures items == newItems && containerHeight == |newItems| * itemHeight
      ensures scrollTop == old(scrollTop) && clientHeight == old(clientHeight)
      ensures var start := WindowStart(scrollTop, itemHeight);
        RowIndices(children) == Range(start, WindowEnd(start, VisibleCount(clientHeight, itemHeight), buffer, |items|))
    {
      items := newItems;
      containerHeight := |items| * itemHeight;
      Render();
    }

    /** handleScroll: takes the container's new scroll offset and renders. */
    method HandleScroll(offset: nat)
      requires Valid()
      modifies this
      ensures Valid()
      ensures scrollTop == offset && items == old(items) && containerHeight == old(containerHeight)
      ensures var start := WindowStart(offset, itemHeight);
        RowIndices(children) == Range(start, WindowEnd(start, VisibleCount(clientHeight, itemHeight), buffer, |items|))
    {
      scrollTop := offset;
      Render();
    }
  }
}
