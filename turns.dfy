/**
 * A conversation history as the renderer, the dashboard and the export
 * handlers see it: a list of `{ role, content }` objects.
 */
module Turns {

  /**
   * One history entry. A role or content that is missing is "": every use
   * in the application treats a missing field and an empty string alike
   * (`turn.content || ''`, `m.content?.length || 0`, `!turn.role`).
   */
  datatype Turn = Turn(role: string, content: string)

  /** `history.filter(h => h.role === role).length`. */
  function CountRole(history: seq<Turn>, role: string): nat
  {
    if history == [] then 0
    else (if history[0].role == role then 1 else 0) + CountRole(history[1..], role)
  }

  /** `history.filter(h => h.role === role)`. */
  function WithRole(history: seq<Turn>, role: string): seq<Turn>
  {
    if history == [] then []
    else (if history[0].role == role then [history[0]] else []) + WithRole(history[1..], role)
  }

  /** `history.reduce((sum, h) => sum + (h.content?.length || 0), 0)`. */
  function TotalLength(history: seq<Turn>): nat
  {
    if history == [] then 0 else |history[0].content| + TotalLength(history[1..])
  }

  /** The messages of one role are counted by `CountRole`, and a role never has more turns than the history. */
  lemma {:induction false} WithRoleCount(history: seq<Turn>, role: string)
    ensures |WithRole(history, role)| == CountRole(history, role) <= |history|
    ensures forall i :: 0 <= i < |WithRole(history, role)| ==> WithRole(history, role)[i].role == role
  {
    if history != [] {
      WithRoleCount(history[1..], role);
    }
  }

  /** Two different roles together never have more turns than the history. */
  lemma {:induction false} TwoRolesAtMostTotal(history: seq<Turn>, a: string, b: string)
    requires a != b
    ensures CountRole(history, a) + CountRole(history, b) <= |history|
  {
    if history != [] {
      TwoRolesAtMostTotal(history[1..], a, b);
    }
  }

  /** The content lengths of one role's messages add up to no more than the whole history's. */
  lemma {:induction false} RoleLengthAtMostTotal(history: seq<Turn>, role: string)
    ensures TotalLength(WithRole(history, role)) <= TotalLength(history)
  {
    if history != [] {
      RoleLengthAtMostTotal(history[1..], role);
      var rest := WithRole(history[1..], role);
      if history[0].role == role {
        assert WithRole(history, role) == [history[0]] + rest;
        assert ([history[0]] + rest)[1..] == rest;
      } else {
        assert WithRole(history, role) == rest;
      }
    }
  }
}
