# Training campaign progression, modelled in Dafny

This project models the core of the dating-coach back end: its training
campaign. A user practises seven conversation submodes, each at three
difficulty levels, in a fixed order. Onboarding unlocks a bootstrap set of
levels. A language model scores each finished training conversation, and a
pass marks the level passed and unlocks the next levels by a fixed rule. The
model also covers the pure string helpers that build the character and
greeting prompts.

Modules:

- `Wrappers`: `Option` and `Result`.
- `PyStr`: the Python string operations the code relies on: `strip` with
  Python's whitespace set, `startswith`, `endswith`, `split` on one
  character, `join`, the `[p for p in parts if p]` filter, and `str` of an
  integer.
- `Campaign`: `TRAINING_ORDER`, `DIFFICULTY_LEVELS`, `_next_submode` and the
  unlock rule. `progress_service.py` and `evaluator.py` each carry an
  identical copy of the order and of `_next_submode`; this module models both.
- `ProgressStore`: the progress rows, keyed by (user, submode, level), and the
  attempt rows. The class `TrainingStore` holds both tables and stands for
  the database session. The functions `Unlocked`, `UnlockAll`,
  `ChangedTargets`, `Passed` and `Initialized` say what each kind of update
  does to the whole table. The lemmas prove what the updates preserve.
- `ProgressService`: `initialize_progress`, `get_progress`, `unlock_next` and
  `_unlock`. Each is a method on a `TrainingStore`, proved against the
  specification functions.
- `Evaluator`: the difficulty label, the transcript, the scorer's message,
  the fence-stripping parser with its fail-safe default, `_set_passed`,
  `_unlock`, `_handle_pass` and `evaluate`.
- `PromptBuilder`: `calculate_orientation`, `replace_placeholders`, the
  difficulty-modifier search and the variable map of `build_character_prompt`
  (the template is an input), and `build_greeting_prompt`.

Calls that leave the process are inputs to the model:

- the evaluator prompt file is `Option<PromptFile>`, where `None` means the
  fetch raised;
- the language-model call is a function `(system, user) -> Option<string>`;
- JSON decoding is a function `string -> Option<Decoded>`;
- `datetime.utcnow()` is a `now` parameter;
- the conversation's messages, as loaded from the database, are a sequence
  parameter;
- the character template is a string parameter.

Each service operation is taken as one atomic transaction.

### Where the model follows the code

The model follows the code, except in the places listed under "## Left out".
Three behaviours of the code are spelled out below. The code's own comments
(`app/services/progress_service.py:30-34`, `app/services/evaluator.py:17-20`)
either describe them differently or say nothing about them. The model follows
the code:

- A pass at a level other than 1 or 2 unlocks nothing and raises no error.
  `unlock_next` and `_handle_pass` both fall through their `if`/`elif`
  (`app/services/progress_service.py:129-146`,
  `app/services/evaluator.py:152-167`). `Campaign.UnlockTargets` returns `[]`
  for every such level, and `ProgressService.UnlockNextOtherLevels` states it.
  The comments cover levels 1, 2 and 3 only.
- `evaluate` calls the evaluator's own `_handle_pass`, not
  `ProgressService.unlock_next`, although the docstring at
  `app/services/progress_service.py:34` says the evaluator calls
  `unlock_next`. `_handle_pass` lists every rule target,
  including those that were already unlocked. `unlock_next` reports only the
  targets whose state changed. `Evaluator.HandlePassListsAllTargets` states
  exactly when the two lists agree.
- `_set_passed` on an existing row sets `passed` and `passed_at` but leaves
  `is_unlocked` alone. "passed implies unlocked" is therefore not preserved
  by itself (`ProgressStore.PassedCanLeaveLockedRow`). What every code path
  does preserve is `ProgressStore.WellFormed`: every row is unlocked, and
  every passed row has its pass time. No code path ever creates a locked
  row.

## Model

| member | source | states |
|---|---|---|
| Campaign.TrainingOrderDistinct | app/services/progress_service.py:13-21 | No submode occurs twice in the campaign order, so "the position of a submode" is well defined. |
| Campaign.IndexOf | app/services/progress_service.py:179-184 | `list.index`: `None` exactly when the id is not in the list; otherwise the position of its first occurrence. |
| Campaign.NextSubmode | app/services/progress_service.py:179-184 | The successor of a submode at position `i` before the last is the entry at `i + 1`. The copy at `app/services/evaluator.py:205-210` is identical. |
| Campaign.NextSubmodeExists | app/services/progress_service.py:179-184 | A successor exists exactly when the id occurs in the order before the last position. The last submode and unknown ids have none. |
| Campaign.LastSubmodeHasNoNext | app/services/progress_service.py:182 | The last submode of the order, `after_date`, has no successor. |
| Campaign.UnlockTargets | app/services/progress_service.py:129-146 | The unlock rule. Level 1 gives medium of the same submode. Level 2 gives hard of the same submode, then easy of the next submode when one exists. Every other level gives nothing. It yields at most two targets. |
| Campaign.UnlockTargetsDistinct | app/services/progress_service.py:129-142 | The targets of one pass are pairwise distinct. |
| Campaign.TargetsMoveForward | app/services/evaluator.py:17-20 | Passing a level of a campaign submode unlocks only levels strictly later in the campaign, all inside the 7 x 3 grid. |
| Campaign.EveryLevelReachable | app/services/progress_service.py:30-33 | Every level of every submode is either in the onboarding set or a target of passing an earlier level, so the whole campaign can be completed. |
| ProgressStore.Unlocked | app/services/progress_service.py:148-177 | `_unlock` on one key. A missing row is inserted unlocked and not passed. A locked row only gets `is_unlocked` set. `passed` and `passed_at` never change. No other key changes. The table is unchanged exactly when the row was already unlocked. |
| ProgressStore.Passed | app/services/evaluator.py:169-186 | `_set_passed` on one key. The row becomes passed with the given time. An existing row keeps its `is_unlocked`. A missing row is inserted unlocked. No other row changes. |
| ProgressStore.Initialized | app/services/progress_service.py:45-63 | After onboarding, the user's keys are exactly the three bootstrap keys, each unlocked and not passed. Other users' rows are unchanged. |
| ProgressStore.UnlockAll | app/services/progress_service.py:127-146 | The table after `_unlock` is applied to each target of a list in turn. What it does is stated by the `UnlockAll...` lemmas below. |
| ProgressStore.ChangedTargets | app/services/progress_service.py:127-146 | The targets whose `_unlock` reports a change when the list is applied in turn, in list order. `ChangedTargetsExact` and the lemmas after it state what this list holds. |
| ProgressStore.HasRows | app/services/progress_service.py:97 | `onboarding_complete`: the user has at least one progress row. `SnapshotContents` and `InitializedWellFormed` use it. |
| ProgressStore.UnlockAllUnlocks | app/services/progress_service.py:148-177 | After unlocking a list of targets in turn, every target is unlocked. |
| ProgressStore.UnlockAllMonotone | app/services/progress_service.py:148-177 | Unlocking removes no row and re-locks no row. It never changes `passed` or `passed_at`. |
| ProgressStore.UnlockAllLocal | app/services/progress_service.py:148-177 | A key that is not one of the targets, including every key of another user, is neither added nor changed. |
| ProgressStore.ChangedTargetsExact | app/services/progress_service.py:127-146 | For distinct targets, a target is reported exactly when it was locked or missing before. |
| ProgressStore.ChangedTargetsAllLocked | app/services/progress_service.py:127-146 | When no target was unlocked before, every target is reported, in order. |
| ProgressStore.ChangedTargetsShorter | app/services/progress_service.py:127-146 | The report is a subsequence of the target list: some targets left out, the rest in list order. It is never longer than the list, and has the same length only when it is the whole list. |
| ProgressStore.UnlockAllWhenUnlocked | app/services/progress_service.py:171-177 | When every target is already unlocked, nothing changes and nothing is reported. |
| ProgressStore.UnlockAllIdempotent | app/services/progress_service.py:171-177 | Unlocking the same targets a second time changes nothing and reports nothing. |
| ProgressStore.UnlockAllWellFormed | app/services/progress_service.py:163-175 | Unlocking keeps every row unlocked and every passed row timestamped. |
| ProgressStore.PassedWellFormed | app/services/evaluator.py:178-186 | Marking a pass keeps every row unlocked and every passed row timestamped. |
| ProgressStore.PassedCanLeaveLockedRow | app/services/evaluator.py:178-180 | An existing locked row becomes passed but stays locked, so "passed implies unlocked" alone is not an invariant of `_set_passed`. |
| ProgressStore.InitializedIdempotent | app/services/progress_service.py:45-63 | Running onboarding twice leaves the same table as running it once. |
| ProgressStore.InitializedWellFormed | app/services/progress_service.py:56-63 | The onboarding table is well formed, and the user has at least one row in it. |
| ProgressService.BootstrapRowsAreInitial | app/services/progress_service.py:50-63 | The rows kept for other users plus the three rows the bootstrap loop inserts make exactly the onboarding table. |
| ProgressService.InitializeProgress | app/services/progress_service.py:37-65 | The new table is the onboarding table of the old one. The attempts are unchanged. |
| ProgressService.LevelView | app/services/progress_service.py:103-109 | One level entry: the stored row's flags and pass time, or locked, not passed and no time when the row is missing. `SnapshotContents` states it. |
| ProgressService.Snapshot | app/services/progress_service.py:93-112 | The progress view of one table: onboarding status, then one entry per submode with one entry per level. `SnapshotContents` states its contents. |
| ProgressService.SnapshotContents | app/services/progress_service.py:93-110 | The snapshot lists the seven submodes in campaign order, each with levels 1, 2, 3 in order. Each entry holds the stored row's values, or locked, not passed and no time when the row is missing. Onboarding is complete exactly when the user has a row. |
| ProgressService.GetProgress | app/services/progress_service.py:68-112 | The index-and-nested-loop construction returns exactly the snapshot of the current table. |
| ProgressService.InitialKeyPositions | app/services/progress_service.py:50-54 | The bootstrap set holds exactly easy and medium of the first submode and easy of the second. |
| ProgressService.InitializedSnapshot | app/services/progress_service.py:97-110 | Right after onboarding, onboarding is complete. The unlocked entries are exactly easy and medium of the first submode and easy of the second. Nothing is passed. |
| ProgressService.Unlock | app/services/progress_service.py:148-177 | The table becomes `Unlocked` of the key. The result is true exactly when the row was locked or missing before. |
| ProgressService.UnlockNext | app/services/progress_service.py:114-146 | The table becomes the rule's targets unlocked in rule order. The returned list is exactly the targets whose `_unlock` reported a change, in that order. The attempts are unchanged. |
| ProgressService.UnlockNextOtherLevels | app/services/progress_service.py:129-146 | A level other than 1 or 2 leaves the table unchanged and returns `[]`. |
| ProgressService.UnlockNextIdempotent | app/services/progress_service.py:127-146 | A second call with the same arguments returns `[]` and changes nothing. |
| ProgressService.UnlockNextReportsChanges | app/services/progress_service.py:127-146 | A target is reported exactly when it was locked or missing before. Every target is unlocked afterwards. |
| ProgressService.UnlockNextMonotoneLocal | app/services/progress_service.py:148-177 | No flag goes from true to false, and pass data never changes. A row of another user, a row at a level the rule cannot target, and every row when the level is not 1 or 2 stays as it was. |
| ProgressService.ServiceKeepsWellFormed | app/services/progress_service.py:56-63 | Onboarding and `unlock_next` both keep every row unlocked and every passed row timestamped. |
| Evaluator.DifficultyName | app/services/evaluator.py:67 | 1 is "Easy" and 3 is "Hard". Every other integer, 2 included, is "Medium". The label has no newline. |
| Evaluator.TranscriptLine | app/services/evaluator.py:126-127 | One transcript line: the role label "User" or "Character", ": ", and the content. `TranscriptLineShape` states its form. |
| Evaluator.Transcript | app/services/evaluator.py:123-128 | The newline join of the transcript lines, in message order. `TranscriptLinesRecoverable` states what it keeps. |
| Evaluator.BuildTranscript | app/services/evaluator.py:123-128 | The loop returns the newline join of one "User: " or "Character: " line per message, in input order. |
| Evaluator.TranscriptLineShape | app/services/evaluator.py:126-127 | A transcript line starts with "User: " exactly when the message is the user's. It ends with the message's content. It has no newline when the content has none. |
| Evaluator.TranscriptLinesRecoverable | app/services/evaluator.py:123-128 | No messages give "". Otherwise, with newline-free contents, splitting the transcript at newlines gives one line per message, in order. A line starts with "User: " exactly when its message is the user's, and ends with the message's content. |
| Evaluator.UserMessage | app/services/evaluator.py:73-78 | The scorer's message: a "Training: " line, a "Difficulty: " line, the transcript heading, the transcript, and the closing instruction. `UserMessageDeterminesInputs` shows that the layout loses nothing. |
| Evaluator.UserMessageDeterminesInputs | app/services/evaluator.py:73-78 | For a newline-free training id and label, the scorer's message determines the training id, the label and the transcript. The fixed layout loses nothing. |
| Evaluator.BeforeFence | app/services/evaluator.py:135 | `split("```")[1]` once the leading fence is cut: the text up to the next fence, or all of it when there is none. The `...Cleans` lemmas use it. |
| Evaluator.CleanResponse | app/services/evaluator.py:133-138 | The text handed to the decoder: the stripped answer, or the stripped text between the first two fences with a leading "json" tag removed. The `...Cleans` lemmas below state it per form. |
| Evaluator.ParseResponse | app/services/evaluator.py:130-141 | Parsing never fails. When the cleaned text does not decode, the result is status "fail" with empty feedback lists. Any status other than "fail" comes from the decoded answer. |
| Evaluator.BareBodyCleans | app/services/evaluator.py:133-138 | An answer whose strip does not start with a fence is cleaned to its strip, whatever fences it holds further in. |
| Evaluator.FencedBodyCleans | app/services/evaluator.py:133-138 | An untagged fenced body that does not start with "json" is cleaned to the body's strip. |
| Evaluator.TaggedBodyCleans | app/services/evaluator.py:133-138 | A "json"-tagged fenced body is cleaned to the body's strip. |
| Evaluator.FencedBodyCleansLikeBare | app/services/evaluator.py:133-138 | A bare body, the body in a fence, and the body in a "json"-tagged fence all clean to the body's strip. The body must contain no fence and must not start with "json". |
| Evaluator.FencedAnswerParsesLikeBare | app/services/evaluator.py:130-141 | The fenced and tagged forms of such a body parse to the same result as the bare body. |
| Evaluator.UndecodableAnswerFails | app/services/evaluator.py:139-141 | An answer that does not decode gives status "fail" and empty feedback lists. |
| Evaluator.SystemPrompt | app/services/evaluator.py:65-66 | The prompt file's `system_prompt`, with a missing `content` or key giving "". `Evaluate` uses it. |
| Evaluator.StatusOf | app/services/evaluator.py:91 | The parsed status, "fail" when the key is missing. `Evaluate` stores a pass exactly when it is "pass". |
| Evaluator.FeedbackOf | app/services/evaluator.py:92 | The parsed feedback, empty lists when the key is missing. `Evaluate` stores and returns it. |
| Evaluator.SetPassed | app/services/evaluator.py:169-186 | The table becomes `Passed` of the key at the given time. The attempts are unchanged. |
| Evaluator.Unlock | app/services/evaluator.py:188-203 | The same row update as the progress service's `_unlock`, with nothing reported. |
| Evaluator.HandlePass | app/services/evaluator.py:143-167 | The level is marked passed, then the rule's targets are unlocked. The returned list is every rule target, whether or not it was already unlocked. |
| Evaluator.HandlePassListsAllTargets | app/services/evaluator.py:150-167 | What `unlock_next` would report after the same pass is never longer than `_handle_pass`'s list. It equals that list exactly when no target was unlocked before. |
| Evaluator.PassKeepsWellFormed | app/services/evaluator.py:143-167 | A pass keeps every row unlocked and every passed row timestamped. |
| Evaluator.Evaluate | app/services/evaluator.py:40-113 | No messages, an unavailable prompt file or a failed scoring call return the matching error and change nothing. Otherwise the scorer gets the system prompt and the laid-out message, and one attempt is appended, stored as pass exactly when the parsed status is "pass". On a pass, the progress becomes `_handle_pass`'s table and `unlocked` is the rule's targets. Otherwise progress is unchanged and `unlocked` is `[]`. |
| Evaluator.FirstContactEasyPass | app/services/evaluator.py:150-154 | After onboarding, passing easy `first_contact` lists medium `first_contact`. It leaves easy passed and unlocked, and medium unlocked and not passed. |
| Evaluator.LastSubmodeMediumPass | app/services/evaluator.py:156-163 | Passing medium of the last submode unlocks only its hard level. |
| PromptBuilder.CalculateOrientation | app/services/prompt_builder.py:20-37 | The result is "bisexual" exactly when the preference is "all". It is "homosexual" exactly when the preference is not "all" and equals the gender. It is "heterosexual" exactly when the preference is not "all" and differs from the gender. |
| PromptBuilder.Substitute | app/services/prompt_builder.py:47-50 | The `replacer`: the variable's `str` when it is present and truthy, and "" when it is missing or falsy. `ReplaceOnePlaceholder` and `FalsyLikeMissing` state it. |
| PromptBuilder.ReplacePlaceholders | app/services/prompt_builder.py:45-52 | `re.sub` with `\{\{(\w+)\}\}` scanned from left to right: each match becomes the variable's `str` when present and truthy, and "" otherwise. The lemmas below state its behaviour. |
| PromptBuilder.ReplaceWithoutPlaceholders | app/services/prompt_builder.py:45-52 | A template in which `{{\w+}}` never matches comes back unchanged. |
| PromptBuilder.ReplaceKeepsPlainPrefix | app/services/prompt_builder.py:52 | Text before the first `{` is copied unchanged, and the rest is processed on its own. |
| PromptBuilder.ReplaceOnePlaceholder | app/services/prompt_builder.py:47-52 | A placeholder `{{name}}` becomes `str(value)` when the variable is present and truthy, and "" otherwise. Processing continues right after the placeholder. |
| PromptBuilder.FalsyLikeMissing | app/services/prompt_builder.py:49-50 | Setting a variable to a falsy value ("", 0 or null) gives the same output as leaving it out. |
| PromptBuilder.FirstModifier | app/services/prompt_builder.py:83-86 | The `modifier_prompt` of the first entry with the level, "" when that key is missing, and "" when no entry has the level. `FirstModifierIsFirstMatch` states it. |
| PromptBuilder.DifficultyModifier | app/services/prompt_builder.py:81-86 | The modifier the search finds: none for a missing or zero level or an empty list, otherwise that of the first entry with the level. `FindDifficultyModifier` states it. |
| PromptBuilder.FirstModifierIsFirstMatch | app/services/prompt_builder.py:83-86 | The modifier is that of the first entry with the requested level, or "" when no entry has it. |
| PromptBuilder.FindDifficultyModifier | app/services/prompt_builder.py:81-86 | The search loop with `break` returns the specified modifier. A missing or zero level gives "". Otherwise the first entry with that level gives its `modifier_prompt`, or "" when that key is missing. |
| PromptBuilder.TrainingScenario | app/services/prompt_builder.py:88-91 | The scenario prompt, followed by a blank line and the modifier when the modifier is non-empty. |
| PromptBuilder.CharacterVariables | app/services/prompt_builder.py:93-102 | The seven template variables, with the orientation computed from the two genders and the base prompt defaulting to "". |
| PromptBuilder.BuildCharacterPrompt | app/services/prompt_builder.py:77-105 | The prompt is the template with the seven variables filled in. The training scenario is the scenario prompt extended by the difficulty modifier. |
| PromptBuilder.TrainingScenarioOfDifficulty | app/services/prompt_builder.py:81-91 | A missing or zero difficulty leaves the scenario prompt bare. A level whose first matching entry has a non-empty modifier appends a blank line and that modifier. |
| PromptBuilder.TrainingScenarioBare | app/services/prompt_builder.py:81-91 | The scenario prompt stays bare for a missing or zero level, an empty list, a level no entry has, or a first matching entry whose modifier is missing or empty. |
| PromptBuilder.BuildGreetingPrompt | app/services/prompt_builder.py:111-169 | The pair of the greeting system prompt and the greeting user message. The two `...Layout` lemmas state each part. |
| PromptBuilder.GreetingSystemPrompt | app/services/prompt_builder.py:132-145 | The non-empty ones of the base prompt, the "GREETING STYLE:" block and the language instruction, joined by blank lines. |
| PromptBuilder.ContextParts | app/services/prompt_builder.py:153-157 | The gender part when the gender is non-empty, then the age-range part when both bounds are given. `UserContextShape` and `AgeRangeNeedsBothBounds` state it. |
| PromptBuilder.UserContext | app/services/prompt_builder.py:153-159 | "Context: ", the context parts joined by ", ", and a full stop, or "" when there are no parts. |
| PromptBuilder.GreetingUserMessage | app/services/prompt_builder.py:148-162 | The non-empty ones of the context line and the greeting instruction, one per line. |
| PromptBuilder.GreetingSystemPromptLayout | app/services/prompt_builder.py:132-145 | The greeting system prompt consists of the base prompt, then the "GREETING STYLE:" block, then the language instruction. Each part is present only when non-empty, and the parts are separated by blank lines. The prompt always ends with the language instruction. |
| PromptBuilder.UserContextShape | app/services/prompt_builder.py:153-159 | The context has parts exactly when a non-empty gender or both age bounds are given. The context line is non-empty exactly when it has parts, and then it is "Context: ", the parts joined by ", ", and a full stop. |
| PromptBuilder.GreetingUserMessageLayout | app/services/prompt_builder.py:148-162 | The greeting user message is the context line and the greeting instruction, joined by a newline when both are non-empty. The instruction is the scenario's, or the default sentence when the scenario has none. |
| PromptBuilder.DefaultGreetingMessage | app/services/prompt_builder.py:148-162 | Without a scenario instruction, a non-empty gender or both age bounds, the message is the default sentence alone. |
| PromptBuilder.AgeRangeNeedsBothBounds | app/services/prompt_builder.py:153-157 | Without both age bounds, the context mentions only the gender. With both, it has at least one part. |

## Left out

- The database itself is left out: queries, `commit`, rollback, and the race between two concurrent evaluations of the same user. Each operation is one atomic update of `TrainingStore`.
- Row identifiers and the `created_at`/`updated_at` columns are left out. They are generated by the database, and no modelled code reads them.
- Only the keys the code reads are modelled. Users, conversations and timestamps are opaque naturals. Feedback is a record of two string lists, not free JSON.
- `service_client.get_file`, `service_client.call_ai`, `service_client.get_template` and `json.loads` are inputs, not models. Their code is not part of this model.
- Evaluator.Evaluate: does not model a decoded answer that is not a JSON object. `result.get` would then raise outside the `try`. `decode` only yields objects.
- Evaluator.Evaluate: does not model a `status` or `feedback` key that is present but null, or a `status` that is not a string. `Decoded` holds a status only as an optional string and feedback only as an optional record. With `"status": null` the code returns a null status and stores a failed attempt. The model can only return a string, with "fail" for a missing key. With `"feedback": null` the code stores the text `null`. The model stores empty lists.
- Evaluator.Evaluate: does not model a prompt file whose `content` is present but null. There `prompt_config.get` raises, and nothing is stored. The model reads the null as a missing key, scores with "" and appends an attempt.
- Evaluator.Evaluate: does not model a `system_prompt` that is present but null. The code passes `None` to the scoring call. The model passes "".
- Evaluator.SystemPrompt: a null `content` or a null `system_prompt` is read as a missing key, as the `Evaluator.Evaluate` lines above say.
- Evaluator.Evaluate: does not model the `max_tokens` and `temperature` arguments of the scoring call, or the logging.
- `PromptBuilder.generate_model_age` is left out because it is random. The model age is an input of `BuildCharacterPrompt`.
- The text after the `return` of `build_greeting_prompt` (`app/services/prompt_builder.py:170-195`) is not modelled. It is a coach-prompt method with its `def` header missing. As written it is not valid Python: line 171 is a parameter declaration used as a statement, and line 174 closes a parenthesis that was never opened. The module as shown would therefore fail to import. The model takes the module's other functions as they read.
- PromptBuilder.IsWordChar: `\w` is ASCII letters, digits and `_`. Python's `\w` also matches other Unicode letters and digits.
- PromptBuilder.ReplacePlaceholders: inherits the ASCII-only `\w` of `PromptBuilder.IsWordChar`. A placeholder with a non-ASCII name is copied instead of substituted.
- PromptBuilder.ReplaceWithoutPlaceholders: "no placeholder" uses the ASCII-only `\w`. A template with only non-ASCII-named placeholders comes back unchanged in the model, but not in the code.
- PromptBuilder.ReplaceOnePlaceholder: stated for names of ASCII word characters only, as in `PromptBuilder.IsWordChar`.
- PromptBuilder.BuildGreetingPrompt: the `language` argument is only logged, and the `is_coach` flag is never used, so both are left out. A `greeting_instruction` key that is present but null is treated as missing, which gives the default sentence. The code would drop that line instead.
- PromptBuilder.GreetingUserMessage: a `greeting_instruction` that is present but null gives the default sentence. The code drops that line.
- PromptBuilder.GreetingUserMessageLayout: states the message for the instruction after the null-as-missing reading of `PromptBuilder.GreetingUserMessage`.
- PromptBuilder.DefaultGreetingMessage: covers a missing `greeting_instruction`. The model also treats a null one this way, where the code would return "".
- PromptBuilder.BuildCharacterPrompt: does not model a `difficulty_levels` entry without a `level` key. The code raises `KeyError` at `level["level"]`. In the model every entry has an integer level.
- PromptBuilder.BuildCharacterPrompt: a null `scenario_prompt` followed by a non-empty modifier raises in the code. The model treats the null as "".
- PyStr.IntToString: renders an integer as its decimal digits, as `str` and f-strings do. Only integers are rendered, so float and other value types of the template variables are not modelled.
- The HTTP routers, authentication, subscriptions, the free-tier message counter, configuration and database setup are not part of this model.
