/**
 * The session exports of the main process (main.js): the Markdown text
 * written by `fs:export-md` and the statistics block of `fs:export-json`.
 * The save dialog and the file write are not part of the model; the
 * export either refuses or produces the text that would be written.
 */
module Export {
  import opened Common
  import opened Text
  import opened Turns
  import Dashboard

  // ---------------------------------------------------------------------
  // Markdown export
  // ---------------------------------------------------------------------

  datatype ExportOutcome = Refused(error: string) | Written(text: string)

  /** `personaTitleMap[persona] || persona`. */
  function PersonaTitle(persona: string): (r: string)
    ensures persona !in {"logician", "market_cynic", "lateral_thinker", "five_whys"} ==> r == persona
  {
    if persona == "logician" then "The Logician"
    else if persona == "market_cynic" then "The Market Cynic"
    else if persona == "lateral_thinker" then "The Lateral Thinker"
    else if persona == "five_whys" then "The \"Five Whys\" Toddler"
    else persona
  }

  /** The seven lines before the conversation: title, model, persona and a rule. */
  function Header(persona: string, model: string): seq<string>
  {
    ["# CODE Session \U{2014} " + PersonaTitle(persona), "", "- Model: " + model,
     "- Persona: " + PersonaTitle(persona), "", "---", ""]
  }

  /** The heading of a turn: the user, the adversary, the system, or the role itself. */
  function Heading(role: string): string
  {
    if role == "user" then "## User"
    else if role == "assistant" then "## Adversary"
    else if role == "system" then "## System"
    else "## " + role
  }

  /** The lines of one turn: nothing for a turn without a role, otherwise heading, blank, content, blank. */
  function TurnBlock(turn: Turn): seq<string>
  {
    if turn.role == "" then [] else [Heading(turn.role), "", turn.content, ""]
  }

  /** The lines of the turns, in order. */
  function TurnLines(history: seq<Turn>): seq<string>
  {
    if history == [] then [] else TurnBlock(history[0]) + TurnLines(history[1..])
  }

  /** The number of turns that carry a role. */
  function RoleTurns(history: seq<Turn>): nat
  {
    if history == [] then 0 else (if history[0].role != "" then 1 else 0) + RoleTurns(history[1..])
  }

  /** The lines of a conversation are the lines of its parts, one after the other. */
  lemma {:induction false} TurnLinesAppend(a: seq<Turn>, b: seq<Turn>)
    ensures TurnLines(a + b) == TurnLines(a) + TurnLines(b)
    ensures RoleTurns(a + b) == RoleTurns(a) + RoleTurns(b)
  {
    if a == [] {
      assert a + b == b;
    } else {
      var ab := a + b;
      assert ab[0] == a[0] && ab[1..] == a[1..] + b;
      TurnLinesAppend(a[1..], b);
    }
  }

  /** Every turn with a role gives exactly four lines, and the turns without one give none. */
  lemma {:induction false} FourLinesPerTurn(history: seq<Turn>)
    ensures |TurnLines(history)| == 4 * RoleTurns(history)
  {
    if history != [] {
      FourLinesPerTurn(history[1..]);
    }
  }

  /** What the export refuses: a missing persona or model, or a history that is not a non-empty array. */
  predicate NothingToExport(persona: string, model: string, history: Option<seq<Turn>>)
  {
    persona == "" || model == "" || history.None? || |history.value| == 0
  }

  /**
   * `fs:export-md`: refuses with "Nothing to export", or joins with
   * newlines the header lines followed by the lines of every turn that
   * has a role. `history` is `None` when the value handed over is not an
   * array; a missing persona, model, role or content is "".
   */
  method ExportMarkdown(persona: string, model: string, history: Option<seq<Turn>>) returns (r: ExportOutcome)
    ensures r.Refused? <==> NothingToExport(persona, model, history)
    ensures r.Refused? ==> r.error == "Nothing to export"
    ensures r.Written? ==> r.text == Join(Header(persona, model) + TurnLines(history.value), "\n")
  {
    if persona == "" || model == "" || history.None? || |history.value| == 0 {
      return Refused("Nothing to export");
    }
    var turns := history.value;
    var title := PersonaTitle(persona);
    var lines := ["# CODE Session \U{2014} " + title, "", "- Model: " + model, "- Persona: " + title, "", "---", ""];
    var i := 0;
    while i < |turns|
      invariant 0 <= i <= |turns|
      invariant lines == Header(persona, model) + TurnLines(turns[..i])
    {
      var turn := turns[i];
      TurnLinesAppend(turns[..i], [turn]);
      assert turns[..i + 1] == turns[..i] + [turn];
      assert TurnLines([turn]) == TurnBlock(turn) by {
        assert [turn][1..] == [];
      }
      if turn.role != "" {
        var heading := if turn.role == "user" then "## User"
          else if turn.role == "assistant" then "## Adversary"
          else if turn.role == "system" then "## System"
          else "## " + turn.role;
        lines := lines + [heading, "", turn.content, ""];
      }
      i := i + 1;
    }
    assert turns[..i] == turns;
    return Written(Join(lines, "\n"));
  }

  /** The joined text starts with its first line. */
  lemma JoinStartsWithFirst(parts: seq<string>, sep: string)
    requires parts != []
    ensures StartsWith(Join(parts, sep), parts[0])
  {
    if |parts| > 1 {
      PrefixStartsWith(parts[0], sep + Join(parts[1..], sep));
      assert parts[0] + sep + Join(parts[1..], sep) == parts[0] + (sep + Join(parts[1..], sep));
    } else {
      PrefixStartsWith(parts[0], "");
      assert parts[0] + "" == parts[0];
    }
  }

  /** An exported file starts with the session title line naming the persona's title. */
  lemma MarkdownStartsWithTitle(persona: string, model: string, history: seq<Turn>)
    ensures StartsWith(Join(Header(persona, model) + TurnLines(history), "\n"),
      "# CODE Session \U{2014} " + PersonaTitle(persona))
  {
    JoinStartsWithFirst(Header(persona, model) + TurnLines(history), "\n");
  }

  /** An exported conversation has the seven header lines and four lines for every turn with a role. */
  lemma MarkdownLineCount(persona: string, model: string, history: seq<Turn>)
    ensures |Header(persona, model) + TurnLines(history)| == 7 + 4 * RoleTurns(history)
  {
    FourLinesPerTurn(history);
  }

  // ---------------------------------------------------------------------
  // JSON export statistics
  // ---------------------------------------------------------------------

  datatype Statistics = Statistics(totalTurns: nat, userTurns: nat, assistantTurns: nat, totalCharacters: nat)

  /**
   * The `statistics` block of `fs:export-json`: the number of turns, of
   * user and of assistant turns, and the total content length.
   */
  function ExportStatistics(history: seq<Turn>): (s: Statistics)
    ensures s.totalTurns == |history|
    ensures s.userTurns + s.assistantTurns <= s.totalTurns
    ensures s.userTurns == |WithRole(history, "user")| && s.assistantTurns == |WithRole(history, "assistant")|
    ensures s.totalCharacters == TotalLength(history)
  {
    WithRoleCount(history, "user");
    WithRoleCount(history, "assistant");
    TwoRolesAtMostTotal(history, "user", "assistant");
    Statistics(|history|, CountRole(history, "user"), CountRole(history, "assistant"), TotalLength(history))
  }

  /** The exported statistics agree with the analytics the session browser shows for the same conversation. */
  lemma StatisticsAgreeWithAnalytics(history: seq<Turn>)
    ensures ExportStatistics(history).totalTurns == Dashboard.AnalyzeSession(history).totalTurns
    ensures ExportStatistics(history).userTurns == Dashboard.AnalyzeSession(history).userTurns
    ensures ExportStatistics(history).assistantTurns == Dashboard.AnalyzeSession(history).assistantTurns
    ensures ExportStatistics(history).totalCharacters == Dashboard.AnalyzeSession(history).totalTokens
  {
  }
}
