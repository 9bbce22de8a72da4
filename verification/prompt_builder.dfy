/** `PromptBuilder`: the deterministic string logic that assembles the
    character system prompt and the greeting prompts. The template is an
    input (it is fetched from the configuration service); characters and
    scenarios are the configuration JSON objects reduced to the keys read here. */
module PromptBuilder {
  import opened Wrappers
  import opened PyStr

  // ---------------------------------------------------------------------
  // calculate_orientation

  /** `calculate_orientation`: "all" makes the character bisexual whatever the
      user's gender; otherwise a preference equal to the user's gender makes it
      homosexual, and any other makes it heterosexual. */
  function CalculateOrientation(userGender: string, userPreference: string): (r: string)
    ensures r == "bisexual" <==> userPreference == "all"
    ensures r == "homosexual" <==> userPreference != "all" && userGender == userPreference
    ensures r == "heterosexual" <==> userPreference != "all" && userGender != userPreference
  {
    if userPreference == "all" then "bisexual"
    else if userGender == userPreference then "homosexual"
    else "heterosexual"
  }

  // ---------------------------------------------------------------------
  // replace_placeholders

  /** The values placed in the template's variables. */
  datatype Value = Text(s: string) | Number(n: int) | Null

  /** Python truthiness of a value. */
  predicate Truthy(v: Value) {
    match v
    case Text(s) => s != ""
    case Number(n) => n != 0
    case Null => false
  }

  /** `str(value)`. */
  function Render(v: Value): string {
    match v
    case Text(s) => s
    case Number(n) => IntToString(n)
    case Null => "None"
  }

  /** What one `{{name}}` turns into: `str(value)` when the variable is present
      and truthy, the empty string otherwise. */
  function Substitute(variables: map<string, Value>, name: string): string {
    var v := if name in variables then variables[name] else Text("");
    if Truthy(v) then Render(v) else ""
  }

  /** The regex class `\w`, restricted to ASCII. */
  predicate IsWordChar(c: char) {
    ('a' <= c <= 'z') || ('A' <= c <= 'Z') || ('0' <= c <= '9') || c == '_'
  }

  /** The length of the run of word characters that starts `s`. */
  function WordRun(s: string): (n: nat)
    ensures n <= |s|
    ensures forall i :: 0 <= i < n ==> IsWordChar(s[i])
    ensures n < |s| ==> !IsWordChar(s[n])
  {
    if s != [] && IsWordChar(s[0]) then 1 + WordRun(s[1..]) else 0
  }

  /** A match of `\{\{(\w+)\}\}` at the start of `t`: the name and the text
      after the match. */
  function PlaceholderAt(t: string): (r: Option<(string, string)>)
    ensures r.Some? ==> |r.value.1| < |t|
  {
    if |t| >= 2 && t[0] == '{' && t[1] == '{' then
      var n := WordRun(t[2..]);
      if n > 0 && |t| >= n + 4 && t[n + 2] == '}' && t[n + 3] == '}'
      then Some((t[2..n + 2], t[n + 4..]))
      else None
    else None
  }

  /** `re.sub(r'\{\{(\w+)\}\}', replacer, template)`: scan left to right,
      replace each match, copy every other character. */
  function ReplacePlaceholders(template: string, variables: map<string, Value>): string
    decreases |template|
  {
    if template == [] then ""
    else match PlaceholderAt(template)
      case Some((name, rest)) => Substitute(variables, name) + ReplacePlaceholders(rest, variables)
      case None => [template[0]] + ReplacePlaceholders(template[1..], variables)
  }

  /** The pattern matches somewhere in `t`. */
  predicate HasPlaceholder(t: string)
    decreases |t|
  {
    t != [] && (PlaceholderAt(t).Some? || HasPlaceholder(t[1..]))
  }

  /** A name made only of word characters. */
  predicate IsName(name: string) {
    name != [] && forall i :: 0 <= i < |name| ==> IsWordChar(name[i])
  }

  /** A template in which the pattern never matches comes back unchanged. */
  lemma {:induction false} ReplaceWithoutPlaceholders(t: string, variables: map<string, Value>)
    requires !HasPlaceholder(t)
    ensures ReplacePlaceholders(t, variables) == t
    decreases |t|
  {
    if t != [] {
      ReplaceWithoutPlaceholders(t[1..], variables);
      assert [t[0]] + t[1..] == t;
    }
  }

  /** A character other than `{` cannot start a match and is copied. */
  lemma ReplacePlainChar(t: string, variables: map<string, Value>)
    requires t != [] && t[0] != '{'
    ensures ReplacePlaceholders(t, variables) == [t[0]] + ReplacePlaceholders(t[1..], variables)
  {
    assert PlaceholderAt(t).None?;
  }

  /** Text before the first `{` is copied as it is. */
  lemma {:induction false} ReplaceKeepsPlainPrefix(p: string, t: string, variables: map<string, Value>)
    requires '{' !in p
    ensures ReplacePlaceholders(p + t, variables) == p + ReplacePlaceholders(t, variables)
    decreases |p|
  {
    if p == [] {
      assert p + t == t;
    } else {
      var s := p + t;
      assert s[0] == p[0] && s[1..] == p[1..] + t;
      ReplacePlainChar(s, variables);
      ReplaceKeepsPlainPrefix(p[1..], t, variables);
      assert [p[0]] + (p[1..] + ReplacePlaceholders(t, variables)) == p + ReplacePlaceholders(t, variables);
    }
  }

  /** A placeholder is replaced by its substitution and the scan goes on right
      after it. */
  lemma ReplaceOnePlaceholder(name: string, t: string, variables: map<string, Value>)
    requires IsName(name)
    ensures ReplacePlaceholders("{{" + name + "}}" + t, variables)
            == Substitute(variables, name) + ReplacePlaceholders(t, variables)
  {
    var s := "{{" + name + "}}" + t;
    assert s[2..] == name + ("}}" + t);
    var n := WordRun(s[2..]);
    assert forall i :: 0 <= i < |name| ==> s[2..][i] == name[i];
    assert s[2..][|name|] == '}';
    assert n == |name|;
    assert s[2..n + 2] == name;
    assert s[n + 4..] == t;
  }

  /** A falsy value (empty text, zero, null) is replaced exactly as a missing
      variable is. */
  lemma {:induction false} FalsyLikeMissing(t: string, variables: map<string, Value>, name: string, v: Value)
    requires !Truthy(v)
    ensures ReplacePlaceholders(t, variables[name := v]) == ReplacePlaceholders(t, variables - {name})
    decreases |t|
  {
    if t != [] {
      match PlaceholderAt(t)
      case Some((n, rest)) =>
        assert Substitute(variables[name := v], n) == Substitute(variables - {name}, n);
        FalsyLikeMissing(rest, variables, name, v);
      case None =>
        FalsyLikeMissing(t[1..], variables, name, v);
    }
  }

  // ---------------------------------------------------------------------
  // build_character_prompt (the part that does not fetch the template)

  /** One entry of a scenario's `difficulty_levels`. */
  datatype DifficultyEntry = DifficultyEntry(level: int, modifierPrompt: Option<string>)

  /** A scenario configuration object: `scenario_prompt`, `difficulty_levels`
      (a missing list is the empty list) and `greeting_instruction`. */
  datatype Scenario = Scenario(
    scenarioPrompt: Option<string>,
    difficultyLevels: seq<DifficultyEntry>,
    greetingInstruction: Option<string>)

  /** A character configuration object: `base_prompt` and `greeting_style`. */
  datatype Character = Character(basePrompt: Option<string>, greetingStyle: Option<string>)

  /** The modifier of the first entry whose level is `level`, or "". */
  function FirstModifier(entries: seq<DifficultyEntry>, level: int): string
  {
    if entries == [] then ""
    else if entries[0].level == level then entries[0].modifierPrompt.GetOr("")
    else FirstModifier(entries[1..], level)
  }

  /** The difficulty modifier used for `difficultyLevel`: none for a missing
      or zero level or an empty list. */
  function DifficultyModifier(entries: seq<DifficultyEntry>, difficultyLevel: Option<int>): string {
    if difficultyLevel.Some? && difficultyLevel.value != 0 && entries != []
    then FirstModifier(entries, difficultyLevel.value)
    else ""
  }

  /** The first matching entry decides the modifier; with no matching entry
      there is none. */
  lemma {:induction false} FirstModifierIsFirstMatch(entries: seq<DifficultyEntry>, level: int, i: nat)
    requires i <= |entries|
    requires forall j :: 0 <= j < i ==> entries[j].level != level
    ensures i < |entries| && entries[i].level == level ==>
              FirstModifier(entries, level) == entries[i].modifierPrompt.GetOr("")
    ensures i == |entries| ==> FirstModifier(entries, level) == ""
  {
    if i > 0 {
      FirstModifierIsFirstMatch(entries[1..], level, i - 1);
    }
  }

  /** The search loop of `build_character_prompt`: the first entry whose level
      equals the requested one gives the modifier (its `modifier_prompt`, or ""
      when that key is missing); later entries are never looked at. */
  method FindDifficultyModifier(entries: seq<DifficultyEntry>, difficultyLevel: Option<int>)
    returns (modifier: string)
    ensures modifier == DifficultyModifier(entries, difficultyLevel)
    ensures (difficultyLevel.None? || difficultyLevel == Some(0)) ==> modifier == ""
    ensures forall i :: (0 <= i < |entries| && difficultyLevel.Some? && difficultyLevel.value != 0
                         && entries[i].level == difficultyLevel.value
                         && (forall j :: 0 <= j < i ==> entries[j].level != difficultyLevel.value)) ==>
              modifier == entries[i].modifierPrompt.GetOr("")
  {
    modifier := "";
    if difficultyLevel.Some? && difficultyLevel.value != 0 && entries != [] {
      var wanted := difficultyLevel.value;
      var i := 0;
      while i < |entries|
        invariant 0 <= i <= |entries|
        invariant forall j :: 0 <= j < i ==> entries[j].level != wanted
        invariant modifier == ""
      {
        if entries[i].level == wanted {
          modifier := entries[i].modifierPrompt.GetOr("");
          FirstModifierIsFirstMatch(entries, wanted, i);
          break;
        }
        i := i + 1;
      }
      if i == |entries| {
        FirstModifierIsFirstMatch(entries, wanted, i);
      }
      forall k | 0 <= k < |entries| && entries[k].level == wanted
                 && (forall j :: 0 <= j < k ==> entries[j].level != wanted)
        ensures modifier == entries[k].modifierPrompt.GetOr("")
      {
        FirstModifierIsFirstMatch(entries, wanted, k);
      }
    }
  }

  /** The training scenario text: the scenario prompt, followed by a blank line
      and the modifier when there is a non-empty modifier. */
  function TrainingScenario(scenarioPrompt: string, modifier: string): string {
    if modifier != "" then scenarioPrompt + "\n\n" + modifier else scenarioPrompt
  }

  /** The template variables of `build_character_prompt`. */
  function CharacterVariables(
    character: Character, userGender: string, userPreference: string, modelAge: int,
    language: string, trainingScenario: string): map<string, Value>
  {
    map[
      "user_gender" := Text(userGender),
      "user_preference_gender" := Text(userPreference),
      "character_prompt" := Text(character.basePrompt.GetOr("")),
      "model_age" := Number(modelAge),
      "model_orientation" := Text(CalculateOrientation(userGender, userPreference)),
      "language" := Text(language),
      "training_scenario" := Text(trainingScenario)
    ]
  }

  /** `build_character_prompt` once the template has been fetched: find the
      difficulty modifier, build the training scenario and fill the template. */
  method BuildCharacterPrompt(
    template: string, character: Character, scenario: Scenario, userGender: string,
    userPreference: string, modelAge: int, language: string, difficultyLevel: Option<int>)
    returns (prompt: string)
    ensures prompt == ReplacePlaceholders(template,
              CharacterVariables(character, userGender, userPreference, modelAge, language,
                TrainingScenario(scenario.scenarioPrompt.GetOr(""),
                                 DifficultyModifier(scenario.difficultyLevels, difficultyLevel))))
  {
    var difficultyPrompt := FindDifficultyModifier(scenario.difficultyLevels, difficultyLevel);
    var trainingScenario := scenario.scenarioPrompt.GetOr("");
    if difficultyPrompt != "" {
      trainingScenario := trainingScenario + "\n\n" + difficultyPrompt;
    }
    var variables := CharacterVariables(character, userGender, userPreference, modelAge, language, trainingScenario);
    prompt := ReplacePlaceholders(template, variables);
  }

  /** Without a difficulty level (missing or zero) the training scenario is the
      bare scenario prompt; with one, it is the scenario prompt extended by the
      first matching modifier when that is non-empty. */
  lemma TrainingScenarioOfDifficulty(scenarioPrompt: string, entries: seq<DifficultyEntry>,
                                     difficultyLevel: Option<int>, i: nat)
    requires i < |entries|
    requires forall j :: 0 <= j < i ==> entries[j].level != entries[i].level
    ensures (difficultyLevel.None? || difficultyLevel == Some(0)) ==>
              TrainingScenario(scenarioPrompt, DifficultyModifier(entries, difficultyLevel)) == scenarioPrompt
    ensures difficultyLevel == Some(entries[i].level) && entries[i].level != 0
            && entries[i].modifierPrompt.GetOr("") != "" ==>
              TrainingScenario(scenarioPrompt, DifficultyModifier(entries, difficultyLevel))
              == scenarioPrompt + "\n\n" + entries[i].modifierPrompt.value
  {
    FirstModifierIsFirstMatch(entries, entries[i].level, i);
  }

  /** The cases that leave the training scenario the bare scenario prompt: no
      difficulty level (missing or zero), an empty list, no entry with the
      level, or a first matching entry whose modifier is missing or empty. */
  lemma TrainingScenarioBare(scenarioPrompt: string, entries: seq<DifficultyEntry>, difficultyLevel: Option<int>)
    ensures (difficultyLevel.None? || difficultyLevel == Some(0) || entries == []) ==>
              TrainingScenario(scenarioPrompt, DifficultyModifier(entries, difficultyLevel)) == scenarioPrompt
    ensures difficultyLevel.Some? && (forall j :: 0 <= j < |entries| ==> entries[j].level != difficultyLevel.value) ==>
              TrainingScenario(scenarioPrompt, DifficultyModifier(entries, difficultyLevel)) == scenarioPrompt
    ensures forall i :: (0 <= i < |entries| && difficultyLevel == Some(entries[i].level)
                         && (forall j :: 0 <= j < i ==> entries[j].level != entries[i].level)
                         && entries[i].modifierPrompt.GetOr("") == "") ==>
              TrainingScenario(scenarioPrompt, DifficultyModifier(entries, difficultyLevel)) == scenarioPrompt
  {
    if difficultyLevel.Some? {
      var level := difficultyLevel.value;
      if forall j :: 0 <= j < |entries| ==> entries[j].level != level {
        FirstModifierIsFirstMatch(entries, level, |entries|);
      }
      forall i | 0 <= i < |entries| && level == entries[i].level
                 && (forall j :: 0 <= j < i ==> entries[j].level != entries[i].level)
        ensures FirstModifier(entries, level) == entries[i].modifierPrompt.GetOr("")
      {
        FirstModifierIsFirstMatch(entries, level, i);
      }
    }
  }

  // ---------------------------------------------------------------------
  // build_greeting_prompt

  const LanguageInstruction :=
    "LANGUAGE: Respond in English by default. If the user writes in another language, switch immediately."

  const DefaultGreetingInstruction := "Open the conversation naturally. One or two sentences max."

  /** The "Context: ..." pieces: the gender when given and non-empty, the age
      range when both bounds are given. */
  function ContextParts(userGender: Option<string>, userAgeMin: Option<int>, userAgeMax: Option<int>): seq<string> {
    (if userGender.Some? && userGender.value != "" then ["user gender: " + userGender.value] else [])
    + (if userAgeMin.Some? && userAgeMax.Some?
       then ["user age range: " + IntToString(userAgeMin.value) + "–" + IntToString(userAgeMax.value)]
       else [])
  }

  /** The greeting system prompt: the non-empty ones of the base prompt, the
      greeting-style block and the language instruction, joined by blank lines. */
  function GreetingSystemPrompt(character: Character): string {
    var basePrompt := character.basePrompt.GetOr("");
    var greetingStyle := character.greetingStyle.GetOr("");
    var greetingStyleBlock := if greetingStyle != "" then "GREETING STYLE:\n" + greetingStyle else "";
    Join(NonEmpty([basePrompt, greetingStyleBlock, LanguageInstruction]), "\n\n")
  }

  /** The "Context: ..." line, or "" when there is nothing to say. */
  function UserContext(userGender: Option<string>, userAgeMin: Option<int>, userAgeMax: Option<int>): string {
    var contextParts := ContextParts(userGender, userAgeMin, userAgeMax);
    if contextParts != [] then "Context: " + Join(contextParts, ", ") + "." else ""
  }

  /** The greeting user message: the non-empty ones of the context line and
      the greeting instruction, one per line. */
  function GreetingUserMessage(
    scenario: Scenario, userGender: Option<string>, userAgeMin: Option<int>, userAgeMax: Option<int>): string
  {
    var greetingInstruction := scenario.greetingInstruction.GetOr(DefaultGreetingInstruction);
    Join(NonEmpty([UserContext(userGender, userAgeMin, userAgeMax), greetingInstruction]), "\n")
  }

  /** `build_greeting_prompt`: the system prompt and the user message. The
      language argument is only logged and is left out. */
  function BuildGreetingPrompt(
    character: Character, scenario: Scenario,
    userGender: Option<string>, userAgeMin: Option<int>, userAgeMax: Option<int>): (string, string)
  {
    (GreetingSystemPrompt(character), GreetingUserMessage(scenario, userGender, userAgeMin, userAgeMax))
  }

  /** The greeting system prompt is the base prompt, then the greeting-style
      block, then the language instruction, each present part separated by a
      blank line; it always ends with the language instruction. */
  lemma GreetingSystemPromptLayout(character: Character)
    ensures var base := character.basePrompt.GetOr("");
            var style := character.greetingStyle.GetOr("");
            var system := GreetingSystemPrompt(character);
            && system == (if base != "" then base + "\n\n" else "")
                         + ((if style != "" then "GREETING STYLE:\n" + style + "\n\n" else "")
                            + LanguageInstruction)
            && EndsWith(system, LanguageInstruction)
  {
    var base := character.basePrompt.GetOr("");
    var style := character.greetingStyle.GetOr("");
    var block := if style != "" then "GREETING STYLE:\n" + style else "";
    JoinNonEmptyThree(base, block, LanguageInstruction, "\n\n");
    EndsWithAppended(if base != "" then base + "\n\n" else "",
                     if block != "" then block + "\n\n" else "", LanguageInstruction);
  }

  /** Joining the non-empty ones of three parts, the last of them non-empty. */
  lemma JoinNonEmptyThree(a: string, b: string, c: string, sep: string)
    requires c != ""
    ensures Join(NonEmpty([a, b, c]), sep)
            == (if a != "" then a + sep else "") + ((if b != "" then b + sep else "") + c)
  {
    var rest := NonEmpty([b, c]);
    assert [a, b, c] == [a] + [b, c];
    NonEmptyCons(a, [b, c]);
    JoinNonEmptyTwo(b, c, sep);
    var tail := (if b != "" then b + sep else "") + c;
    assert Join(rest, sep) == tail;
    if a != "" {
      assert rest != [] by {
        assert c in [b, c];
      }
      JoinCons(a, rest, sep);
    } else {
      assert NonEmpty([a, b, c]) == rest;
      assert "" + tail == tail;
    }
  }

  /** Joining a head in front of a non-empty list. */
  lemma JoinCons(x: string, rest: seq<string>, sep: string)
    requires rest != []
    ensures Join([x] + rest, sep) == x + sep + Join(rest, sep)
  {
    assert ([x] + rest)[1..] == rest;
  }

  /** Joining the non-empty ones of two parts. */
  lemma JoinNonEmptyTwo(a: string, b: string, sep: string)
    ensures Join(NonEmpty([a, b]), sep)
            == if a != "" && b != "" then a + sep + b else a + b
  {
    NonEmptyCons(a, [b]);
    NonEmptyCons(b, []);
    assert [a, b] == [a] + [b] && [b] == [b] + [];
    if a != "" && b != "" {
      assert [a, b][1..] == [b];
    } else if a == "" {
      assert a + b == b;
    } else {
      assert a + b == a;
    }
  }

  /** One step of `NonEmpty`. */
  lemma NonEmptyCons(p: string, rest: seq<string>)
    ensures NonEmpty([p] + rest) == (if p != "" then [p] else []) + NonEmpty(rest)
  {
    assert ([p] + rest)[1..] == rest;
  }

  /** A string ends with whatever was appended to it last. */
  lemma EndsWithAppended(p: string, q: string, s: string)
    ensures EndsWith(p + (q + s), s)
  {
    assert (p + (q + s))[|p| + |q|..] == s;
  }

  /** The context line is present exactly when a non-empty gender or both age
      bounds are given, and then it is "Context: ", the parts joined by ", ",
      and a final period. */
  lemma UserContextShape(userGender: Option<string>, userAgeMin: Option<int>, userAgeMax: Option<int>)
    ensures var parts := ContextParts(userGender, userAgeMin, userAgeMax);
            var context := UserContext(userGender, userAgeMin, userAgeMax);
            && (parts != [] <==> (userGender.Some? && userGender.value != "") || (userAgeMin.Some? && userAgeMax.Some?))
            && (context != "" <==> parts != [])
            && (parts != [] ==> context == "Context: " + Join(parts, ", ") + ".")
  {
    var context := UserContext(userGender, userAgeMin, userAgeMax);
    if ContextParts(userGender, userAgeMin, userAgeMax) != [] {
      assert context[0] == 'C';
    }
  }

  /** The greeting user message is the context line, when there is one, then
      on the next line the scenario's greeting instruction, or the default one
      when the scenario has none; an empty instruction is dropped. */
  lemma GreetingUserMessageLayout(
    scenario: Scenario, userGender: Option<string>, userAgeMin: Option<int>, userAgeMax: Option<int>)
    ensures var instruction := scenario.greetingInstruction.GetOr(DefaultGreetingInstruction);
            var context := UserContext(userGender, userAgeMin, userAgeMax);
            var message := GreetingUserMessage(scenario, userGender, userAgeMin, userAgeMax);
            message == (if context != "" && instruction != "" then context + "\n" + instruction else context + instruction)
  {
    var instruction := scenario.greetingInstruction.GetOr(DefaultGreetingInstruction);
    JoinNonEmptyTwo(UserContext(userGender, userAgeMin, userAgeMax), instruction, "\n");
  }

  /** Without a context line and without a greeting instruction in the
      scenario, the message is the default instruction alone. */
  lemma DefaultGreetingMessage(scenario: Scenario, userGender: Option<string>, userAgeMin: Option<int>, userAgeMax: Option<int>)
    requires scenario.greetingInstruction.None?
    requires (userGender.None? || userGender.value == "") && (userAgeMin.None? || userAgeMax.None?)
    ensures GreetingUserMessage(scenario, userGender, userAgeMin, userAgeMax) == DefaultGreetingInstruction
  {
    UserContextShape(userGender, userAgeMin, userAgeMax);
    GreetingUserMessageLayout(scenario, userGender, userAgeMin, userAgeMax);
  }

  /** The age range is mentioned only when both bounds are given. */
  lemma AgeRangeNeedsBothBounds(userGender: Option<string>, userAgeMin: Option<int>, userAgeMax: Option<int>)
    ensures (userAgeMin.None? || userAgeMax.None?) ==>
              ContextParts(userGender, userAgeMin, userAgeMax)
              == (if userGender.Some? && userGender.value != "" then ["user gender: " + userGender.value] else [])
    ensures userAgeMin.Some? && userAgeMax.Some? ==>
              |ContextParts(userGender, userAgeMin, userAgeMax)| >= 1
  {
  }
}
