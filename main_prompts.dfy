/**
 * The system prompt the main process sends ahead of a conversation
 * (main.js): a custom prompt when one is given, else the prompt of a
 * custom persona stored in the database, else the built-in prompt of the
 * persona (config.js), with the Devil's Advocate instructions appended in
 * that mode.
 *
 * The persona table of the database is a map from persona id to prompt;
 * `None` stands for a process without a database.
 */
module Prompts {
  import opened Common
  import opened Text
  import opened Turns

  /** `PERSONA_SYSTEM_PROMPTS.logician`. */
  const LogicianPrompt := "You are The Logician. Identify logical fallacies, unstated assumptions, and reasoning gaps. Be precise and grounded. Challenge, do not agree."

  /** `PERSONA_SYSTEM_PROMPTS.market_cynic`. */
  const MarketCynicPrompt := "You are The Market Cynic. Provide ruthless market-based criticism: viability, competition, distribution, margins, and willingness-to-pay. Be terse and unsentimental."

  /** `PERSONA_SYSTEM_PROMPTS.lateral_thinker`. */
  const LateralThinkerPrompt := "You are The Lateral Thinker. Derail assumptions with unexpected \"What if...?\" scenarios, contrarian angles, and adjacent possibilities. Prioritize novelty that forces reconsideration."

  /** `PERSONA_SYSTEM_PROMPTS.five_whys`. */
  const FiveWhysPrompt := "You are The \"Five Whys\" Toddler. Ask iterative whys to push towards first principles. Be relentless yet concise. Prefer numbered sequences of why-questions with brief rationales."

  /** `DEVILS_ADVOCATE_PROMPT`, starting with a newline. */
  const DevilsAdvocatePrompt :=
    "\nMode: Devil's Advocate. Produce the strongest possible counterargument to the user's text. Be incisive, evidence-seeking, and assume the user is wrong unless justified. Use concise section headers and bulleted lists. Structure strictly as:\n"
    + "\n## Steelman\n- One to two lines summarizing the user's best-case argument.\n"
    + "\n## Vulnerabilities\n- Bullet key flaws, contradictions, and missing premises.\n- Prioritize the highest-impact risks first.\n"
    + "\n## Counterevidence\n- Bullet concrete counterexamples, data points, or citations to seek.\n"
    + "\n## Next Probes\n- Two sharp questions that would most change the conclusion if answered.\n"
    + "\nDo not offer solutions. Do not hedge."

  /** The built-in prompts, by persona. */
  const PersonaPrompts: map<string, string> := map[
    "logician" := LogicianPrompt,
    "market_cynic" := MarketCynicPrompt,
    "lateral_thinker" := LateralThinkerPrompt,
    "five_whys" := FiveWhysPrompt]

  /** `PERSONA_SYSTEM_PROMPTS[persona] || PERSONA_SYSTEM_PROMPTS.logician`. */
  function BuiltInPrompt(persona: string): (r: string)
    ensures persona in PersonaPrompts ==> r == PersonaPrompts[persona]
    ensures persona !in PersonaPrompts ==> r == LogicianPrompt
    ensures r != ""
  {
    if persona in PersonaPrompts then PersonaPrompts[persona] else LogicianPrompt
  }

  /** The id of a custom persona: what follows the `custom_` it starts with. */
  function CustomId(persona: string): (id: string)
    requires StartsWith(persona, "custom_")
    ensures persona == "custom_" + id
  {
    persona[7..]
  }

  /**
   * getPersonaSystemPrompt: a non-empty custom prompt wins; then, for a
   * persona `custom_<id>` whose row the database holds, that row's prompt
   * (even an empty one); otherwise the built-in prompt of the persona, or
   * the Logician's for a persona without one.
   */
  function PersonaSystemPrompt(persona: string, customPrompt: string, db: Option<map<string, string>>): (r: string)
    ensures customPrompt != "" ==> r == customPrompt
    ensures customPrompt == "" && StartsWith(persona, "custom_") && db.Some? && CustomId(persona) in db.value
      ==> r == db.value[CustomId(persona)]
    ensures customPrompt == "" && !(StartsWith(persona, "custom_") && db.Some? && CustomId(persona) in db.value)
      ==> r == BuiltInPrompt(persona)
  {
    if customPrompt != "" then customPrompt
    else if StartsWith(persona, "custom_") && db.Some? && CustomId(persona) in db.value then db.value[CustomId(persona)]
    else BuiltInPrompt(persona)
  }

  /** buildSystemPrompt: the persona's prompt, followed by the Devil's Advocate instructions in that mode. */
  function BuildSystemPrompt(persona: string, mode: string, db: Option<map<string, string>>): (r: string)
    ensures mode == "devils_advocate" ==> r == PersonaSystemPrompt(persona, "", db) + DevilsAdvocatePrompt
    ensures mode != "devils_advocate" ==> r == PersonaSystemPrompt(persona, "", db)
  {
    var base := PersonaSystemPrompt(persona, "", db);
    if mode == "devils_advocate" then base + DevilsAdvocatePrompt else base
  }

  /**
   * The system message of a streamed request: in Devil's Advocate mode
   * the persona's prompt with the mode's instructions, the custom prompt
   * being ignored; otherwise the custom prompt when there is one, else the
   * persona's prompt.
   */
  function StreamSystemPrompt(persona: string, mode: string, customPrompt: string, db: Option<map<string, string>>): (r: string)
    ensures mode == "devils_advocate" ==> r == BuildSystemPrompt(persona, mode, db)
    ensures mode != "devils_advocate" ==> r == PersonaSystemPrompt(persona, customPrompt, db)
  {
    if mode == "devils_advocate" then BuildSystemPrompt(persona, mode, db)
    else if customPrompt != "" then customPrompt
    else BuildSystemPrompt(persona, "", db)
  }

  /** The messages of a streamed request: the system message, the earlier turns, then the user's text. */
  function StreamMessages(persona: string, mode: string, customPrompt: string, db: Option<map<string, string>>,
                          history: seq<Turn>, userText: string): (r: seq<Turn>)
    ensures |r| == |history| + 2
    ensures r[0] == Turn("system", StreamSystemPrompt(persona, mode, customPrompt, db))
    ensures r[1..|r| - 1] == history && r[|r| - 1] == Turn("user", userText)
  {
    [Turn("system", StreamSystemPrompt(persona, mode, customPrompt, db))] + history + [Turn("user", userText)]
  }

  /** A persona that is neither built in nor a stored custom persona gets the Logician's prompt. */
  lemma UnknownPersonaGetsLogician(persona: string, db: Option<map<string, string>>)
    requires persona !in PersonaPrompts
    requires !(StartsWith(persona, "custom_") && db.Some? && CustomId(persona) in db.value)
    ensures PersonaSystemPrompt(persona, "", db) == LogicianPrompt
    ensures BuildSystemPrompt(persona, "chat", db) == LogicianPrompt
  {
  }

  /** Without a custom prompt or a database, the system prompt is never empty. */
  lemma BuiltInPromptsNotEmpty(persona: string, mode: string)
    ensures StreamSystemPrompt(persona, mode, "", None) != ""
  {
    if mode == "devils_advocate" {
      assert |BuildSystemPrompt(persona, mode, None)| >= |DevilsAdvocatePrompt|;
    }
  }

  /** In Devil's Advocate mode the system prompt ends with the mode's instructions, whatever custom prompt was given. */
  lemma DevilsAdvocateEndsWithBlock(persona: string, customPrompt: string, db: Option<map<string, string>>)
    ensures var r := StreamSystemPrompt(persona, "devils_advocate", customPrompt, db);
      |r| >= |DevilsAdvocatePrompt| && r[|r| - |DevilsAdvocatePrompt|..] == DevilsAdvocatePrompt
    ensures StreamSystemPrompt(persona, "devils_advocate", customPrompt, db)
      == StreamSystemPrompt(persona, "devils_advocate", "", db)
  {
    var base := PersonaSystemPrompt(persona, "", db);
    var r := base + DevilsAdvocatePrompt;
    assert r[|base|..] == DevilsAdvocatePrompt;
  }

  /** A stored custom persona's prompt is used as it is, even when empty. */
  lemma StoredPersonaPromptUsed(id: string, prompt: string, rows: map<string, string>)
    requires id in rows && rows[id] == prompt
    ensures PersonaSystemPrompt("custom_" + id, "", Some(rows)) == prompt
  {
    var persona := "custom_" + id;
    PrefixStartsWith("custom_", id);
    assert CustomId(persona) == id;
  }
}
