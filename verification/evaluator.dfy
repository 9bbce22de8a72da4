/** `Evaluator`: scores one finished training conversation with a language
    model, stores the attempt and, on a pass, marks the level passed and
    unlocks the next levels.

    The calls that leave the process are inputs: the evaluator prompt file
    fetched from the configuration service, the language-model call, JSON
    decoding, the clock, and the conversation's messages as loaded from the
    database. */
module Evaluator {
  import opened Wrappers
  import opened PyStr
  import opened Campaign
  import opened ProgressStore

  // ---------------------------------------------------------------------
  // Difficulty labels

  /** `DIFFICULTY_NAMES`. */
  const DifficultyNames: map<int, string> := map[1 := "Easy", 2 := "Medium", 3 := "Hard"]

  /** `DIFFICULTY_NAMES.get(level, "Medium")`: the label shown to the scorer;
      every level outside 1..3 is labelled "Medium" rather than rejected. */
  function DifficultyName(level: int): (r: string)
    ensures level == 1 ==> r == "Easy"
    ensures level == 3 ==> r == "Hard"
    ensures level != 1 && level != 3 ==> r == "Medium"
    ensures '\n' !in r
  {
    if level in DifficultyNames then DifficultyNames[level] else "Medium"
  }

  // ---------------------------------------------------------------------
  // Transcript

  /** `MessageRole`. */
  datatype MessageRole = UserRole | AssistantRole {
    /** The enum's string value. */
    function Value(): string {
      match this
      case UserRole => "user"
      case AssistantRole => "assistant"
    }
  }

  /** A stored chat message, in creation order. */
  datatype Message = Message(role: MessageRole, content: string)

  /** One transcript line: the user's turns are "User", every other turn is
      "Character". */
  function TranscriptLine(m: Message): string {
    (if m.role.Value() == "user" then "User" else "Character") + ": " + m.content
  }

  function TranscriptLines(messages: seq<Message>): seq<string> {
    seq(|messages|, i requires 0 <= i < |messages| => TranscriptLine(messages[i]))
  }

  /** The transcript: the lines joined by newlines. */
  function Transcript(messages: seq<Message>): string {
    Join(TranscriptLines(messages), "\n")
  }

  /** `_build_transcript`: one line per message, then a newline join. */
  method BuildTranscript(messages: seq<Message>) returns (transcript: string)
    ensures transcript == Transcript(messages)
  {
    var lines: seq<string> := [];
    var i := 0;
    while i < |messages|
      invariant 0 <= i <= |messages|
      invariant lines == TranscriptLines(messages[..i])
    {
      var m := messages[i];
      var role := if m.role.Value() == "user" then "User" else "Character";
      lines := lines + [role + ": " + m.content];
      i := i + 1;
    }
    assert messages[..i] == messages;
    transcript := Join(lines, "\n");
  }

  /** One line: "User: " exactly for the user's messages, then the content;
      newline-free when the content is. */
  lemma TranscriptLineShape(m: Message)
    ensures StartsWith(TranscriptLine(m), "User: ") <==> m.role == UserRole
    ensures m.role != UserRole ==> StartsWith(TranscriptLine(m), "Character: ")
    ensures EndsWith(TranscriptLine(m), m.content)
    ensures '\n' !in m.content ==> '\n' !in TranscriptLine(m)
  {
    var prefix := if m.role == UserRole then "User: " else "Character: ";
    assert TranscriptLine(m) == prefix + m.content;
    assert (prefix + m.content)[|prefix|..] == m.content;
    if m.role != UserRole {
      assert TranscriptLine(m)[0] == 'C';
    }
  }

  /** An empty conversation gives an empty transcript; otherwise, as long as no
      message holds a newline, splitting the transcript at newlines gives back
      one line per message, in order, each prefixed "User: " exactly when the
      message is the user's. */
  lemma TranscriptLinesRecoverable(messages: seq<Message>)
    requires forall i :: 0 <= i < |messages| ==> '\n' !in messages[i].content
    ensures messages == [] ==> Transcript(messages) == ""
    ensures messages != [] ==>
      var lines := Split(Transcript(messages), '\n');
      |lines| == |messages|
      && forall i :: 0 <= i < |messages| ==>
           (StartsWith(lines[i], "User: ") <==> messages[i].role == UserRole)
           && EndsWith(lines[i], messages[i].content)
  {
    var lines := TranscriptLines(messages);
    forall i | 0 <= i < |messages|
      ensures '\n' !in lines[i]
      ensures StartsWith(lines[i], "User: ") <==> messages[i].role == UserRole
      ensures EndsWith(lines[i], messages[i].content)
    {
      TranscriptLineShape(messages[i]);
    }
    if messages != [] {
      SplitJoin(lines, '\n');
    }
  }

  // ---------------------------------------------------------------------
  // The scorer's user message

  /** The fixed pieces of the scorer's message. */
  const TrainingField := "Training: "
  const DifficultyField := "Difficulty: "
  const TranscriptHead := "\nConversation transcript:\n"
  const Instruction := "\n\nEvaluate and return JSON only."

  /** The user turn sent to the scorer: the training line, the difficulty
      line, a blank line, the transcript under its heading, a blank line and
      the instruction. */
  function UserMessage(submode: string, levelName: string, transcript: string): string {
    Line(TrainingField, submode) + (Line(DifficultyField, levelName) + (TranscriptHead + transcript + Instruction))
  }

  /** One line of the message: the field name, the value and a newline. */
  function Line(field: string, value: string): string {
    field + value + "\n"
  }

  /** Splitting at the first newline. */
  lemma {:induction false} FirstLineUnique(a: string, b: string, c: string, d: string)
    requires '\n' !in a && '\n' !in c
    requires a + "\n" + b == c + "\n" + d
    ensures a == c && b == d
  {
    var s := a + ['\n'] + b;
    assert s == c + ['\n'] + d;
    SplitAfterPiece(a, '\n', b);
    SplitAfterPiece(c, '\n', d);
    assert Split(s, '\n')[0] == a;
    assert Split(s, '\n')[0] == c;
    assert b == s[|a| + 1..];
    assert d == s[|c| + 1..];
  }

  /** A fixed prefix, then a newline-free field ending its line: the field
      and the rest are determined. */
  lemma FieldThenRest(p: string, a: string, r: string, a': string, r': string)
    requires '\n' !in a && '\n' !in a'
    requires p + a + "\n" + r == p + a' + "\n" + r'
    ensures a == a' && r == r'
  {
    assert (p + a + "\n" + r)[|p|..] == a + "\n" + r;
    assert (p + a' + "\n" + r')[|p|..] == a' + "\n" + r';
    FirstLineUnique(a, r, a', r');
  }

  /** The layout of the scorer's message, over abstract pieces: two
      newline-free fields, each ending its line, then a free-form tail between
      a fixed head and a fixed foot. */
  lemma LayoutDeterminesFields(
    p: string, q: string, head: string, foot: string,
    a: string, b: string, c: string, a': string, b': string, c': string)
    requires '\n' !in a && '\n' !in a' && '\n' !in b && '\n' !in b'
    requires Line(p, a) + (Line(q, b) + (head + c + foot))
          == Line(p, a') + (Line(q, b') + (head + c' + foot))
    ensures a == a' && b == b' && c == c'
  {
    var tail, tail' := head + c + foot, head + c' + foot;
    FieldThenRest(p, a, Line(q, b) + tail, a', Line(q, b') + tail');
    FieldThenRest(q, b, tail, b', tail');
    assert c == tail[|head|..|tail| - |foot|];
    assert c' == tail'[|head|..|tail'| - |foot|];
  }

  /** The scorer's message determines the training, the difficulty label and
      the transcript it was built from, provided the training id holds no
      newline. */
  lemma UserMessageDeterminesInputs(
    submode: string, levelName: string, transcript: string,
    submode': string, levelName': string, transcript': string)
    requires '\n' !in submode && '\n' !in submode' && '\n' !in levelName && '\n' !in levelName'
    requires UserMessage(submode, levelName, transcript) == UserMessage(submode', levelName', transcript')
    ensures submode == submode' && levelName == levelName' && transcript == transcript'
  {
    LayoutDeterminesFields(TrainingField, DifficultyField, TranscriptHead, Instruction,
                           submode, levelName, transcript, submode', levelName', transcript');
  }

  // ---------------------------------------------------------------------
  // Parsing the scorer's answer

  /** A markdown code fence. */
  const Fence := "```"

  /** `Fence in s`. */
  predicate ContainsFence(s: string)
    decreases |s|
  {
    |s| >= 3 && (s[..3] == Fence || ContainsFence(s[1..]))
  }

  /** The text before the first fence, or all of `s` if there is none: what
      `s.split("```")[0]` returns. */
  function BeforeFence(s: string): (r: string)
    decreases |s|
  {
    if |s| < 3 then s
    else if s[..3] == Fence then ""
    else [s[0]] + BeforeFence(s[1..])
  }

  /** The text `_parse_response` hands to the JSON decoder: the stripped answer,
      or, when that starts with a fence, the stripped text between the first
      and the second fence with a leading "json" tag removed. */
  function CleanResponse(raw: string): string {
    var clean := Strip(raw);
    if StartsWith(clean, Fence) then
      var segment := BeforeFence(clean[3..]);
      var body := if StartsWith(segment, "json") then segment[4..] else segment;
      Strip(body)
    else
      Strip(clean)
  }

  /** The decoded JSON object, reduced to what `evaluate` reads from it. */
  datatype Decoded = Decoded(status: Option<string>, feedback: Option<Feedback>)

  const EmptyFeedback := Feedback([], [])

  /** What `_parse_response` returns when decoding fails. */
  const FailSafe := Decoded(Some("fail"), Some(EmptyFeedback))

  /** `_parse_response`: decode the cleaned answer; any decoding failure gives
      a failed result with empty feedback lists instead of an exception. */
  function ParseResponse(raw: string, decode: string -> Option<Decoded>): (r: Decoded)
    ensures decode(CleanResponse(raw)).None? ==>
              r.status == Some("fail") && r.feedback == Some(Feedback([], []))
    ensures r.status != Some("fail") ==> decode(CleanResponse(raw)) == Some(r)
    ensures decode(CleanResponse(raw)).Some? ==> r == decode(CleanResponse(raw)).value
  {
    match decode(CleanResponse(raw))
    case Some(obj) => obj
    case None => FailSafe
  }

  lemma {:induction false} ContainsFenceOfSuffix(s: string, k: nat)
    requires k <= |s| && ContainsFence(s[k..])
    ensures ContainsFence(s)
  {
    if k == 0 {
      assert s[k..] == s;
    } else {
      assert s[1..][k - 1..] == s[k..];
      ContainsFenceOfSuffix(s[1..], k - 1);
    }
  }

  lemma {:induction false} ContainsFenceAppend(s: string, t: string)
    requires ContainsFence(s)
    ensures ContainsFence(s + t)
    decreases |s|
  {
    assert (s + t)[..3] == s[..3];
    if s[..3] != Fence {
      assert (s + t)[1..] == s[1..] + t;
      ContainsFenceAppend(s[1..], t);
    }
  }

  /** A stripped text that starts with a fence contains one. */
  lemma StripStartingWithFence(s: string)
    requires StartsWith(Strip(s), Fence)
    ensures ContainsFence(s)
  {
    StripIsSlice(s);
    var k := |s| - |TrimLeft(s)|;
    assert Strip(s)[..3] == s[k..k + 3] == s[k..][..3];
    assert ContainsFence(s[k..]);
    ContainsFenceOfSuffix(s, k);
  }

  /** Everything up to a closing fence that is the first fence. */
  lemma {:induction false} BeforeClosingFence(b: string)
    requires !ContainsFence(b + "``")
    ensures BeforeFence(b + Fence) == b
    decreases |b|
  {
    if b == [] {
      assert b + Fence == Fence;
    } else {
      assert (b + Fence)[..3] == (b + "``")[..3];
      assert (b + "``")[1..] == b[1..] + "``";
      assert (b + Fence)[1..] == b[1..] + Fence;
      BeforeClosingFence(b[1..]);
    }
  }

  /** A leading character other than a backtick cannot start a fence. */
  lemma ContainsFenceAfterLetter(c: char, s: string)
    requires c != '`' && ContainsFence([c] + s)
    ensures ContainsFence(s)
  {
    assert ([c] + s)[0] == c;
    assert ([c] + s)[1..] == s;
  }

  /** A bare body without a fence cleans to its strip. */
  lemma BareBodyCleans(b: string)
    requires !StartsWith(Strip(b), Fence)
    ensures CleanResponse(b) == Strip(b)
  {
    StripIdempotent(b);
  }

  /** A fenced text is its own strip. */
  lemma FencedIsStripped(body: string)
    ensures Strip(Fence + body + Fence) == Fence + body + Fence
  {
    var w := Fence + body + Fence;
    assert w[0] == '`';
    assert w[|w| - 1] == '`';
    assert !IsSpace('`');
    StripOfTrimmed(w);
  }

  /** What follows the opening fence of `fence + body + fence`. */
  lemma OpenedFence(body: string)
    ensures Strip(Fence + body + Fence) == Fence + body + Fence
    ensures StartsWith(Fence + body + Fence, Fence)
    ensures (Fence + body + Fence)[3..] == body + Fence
  {
    FencedIsStripped(body);
    var w := Fence + body + Fence;
    assert w[..3] == Fence;
  }

  /** The untagged fence around a body not starting with "json". */
  lemma FencedBodyCleans(b: string)
    requires !ContainsFence(b + "``")
    requires !StartsWith(b, "json")
    ensures CleanResponse(Fence + b + Fence) == Strip(b)
  {
    OpenedFence(b);
    BeforeClosingFence(b);
  }

  /** The "json"-tagged fence around any fence-free body. */
  lemma TaggedBodyCleans(b: string)
    requires !ContainsFence(b + "``")
    ensures CleanResponse(Fence + "json" + b + Fence) == Strip(b)
  {
    var tb := "json" + b;
    assert Fence + "json" + b + Fence == Fence + tb + Fence;
    OpenedFence(tb);
    var x := b + "``";
    assert tb + "``" == ['j'] + (['s'] + (['o'] + (['n'] + x)));
    if ContainsFence(tb + "``") {
      ContainsFenceAfterLetter('j', ['s'] + (['o'] + (['n'] + x)));
      ContainsFenceAfterLetter('s', ['o'] + (['n'] + x));
      ContainsFenceAfterLetter('o', ['n'] + x);
      ContainsFenceAfterLetter('n', x);
    }
    BeforeClosingFence(tb);
    assert StartsWith(tb, "json");
    assert tb[4..] == b;
  }

  /** Wrapping a body in a code fence, with or without a "json" tag, does not
      change what is decoded: the three forms all clean to the stripped body.
      The body must not contain a fence (not even one that would run into the
      closing fence) and, for the untagged form, must not itself begin with
      "json". */
  lemma FencedBodyCleansLikeBare(b: string)
    requires !ContainsFence(b + "``")
    requires !StartsWith(b, "json")
    ensures CleanResponse(b) == Strip(b)
    ensures CleanResponse(Fence + b + Fence) == Strip(b)
    ensures CleanResponse(Fence + "json" + b + Fence) == Strip(b)
  {
    if StartsWith(Strip(b), Fence) {
      StripStartingWithFence(b);
      ContainsFenceAppend(b, "``");
      assert false;
    }
    BareBodyCleans(b);
    FencedBodyCleans(b);
    TaggedBodyCleans(b);
  }

  /** So the parsed result of a fenced answer is that of the bare answer. */
  lemma FencedAnswerParsesLikeBare(b: string, decode: string -> Option<Decoded>)
    requires !ContainsFence(b + "``")
    requires !StartsWith(b, "json")
    ensures ParseResponse(Fence + b + Fence, decode) == ParseResponse(b, decode)
    ensures ParseResponse(Fence + "json" + b + Fence, decode) == ParseResponse(b, decode)
  {
    FencedBodyCleansLikeBare(b);
  }

  // ---------------------------------------------------------------------
  // Progress updates on a pass

  /** `_set_passed`: mark an existing row passed with the pass time, leaving its
      `is_unlocked` as it was, or insert the row unlocked and passed. */
  method SetPassed(db: TrainingStore, user: UserId, submode: string, level: int, now: Timestamp)
    modifies db
    ensures db.progress == Passed(old(db.progress), Key(user, submode, level), now)
    ensures db.attempts == old(db.attempts)
  {
    var k := Key(user, submode, level);
    if k in db.progress {
      var row := db.progress[k];
      db.progress := db.progress[k := row.(passed := true, passedAt := Some(now))];
    } else {
      db.progress := db.progress[k := Row(true, true, Some(now))];
    }
  }

  /** The evaluator's own `_unlock`: the same row update as the progress
      service's, without reporting whether it changed anything. */
  method Unlock(db: TrainingStore, user: UserId, submode: string, level: int)
    modifies db
    ensures db.progress == Unlocked(old(db.progress), Key(user, submode, level))
    ensures db.attempts == old(db.attempts)
  {
    var k := Key(user, submode, level);
    if k !in db.progress {
      db.progress := db.progress[k := Row(true, false, None)];
    } else if !db.progress[k].isUnlocked {
      db.progress := db.progress[k := db.progress[k].(isUnlocked := true)];
    }
  }

  /** `_handle_pass`: mark the level passed, apply the unlock rule and list
      every rule target, whether or not it was already unlocked. */
  method HandlePass(db: TrainingStore, user: UserId, submode: string, level: int, now: Timestamp)
    returns (unlocked: seq<Target>)
    modifies db
    ensures db.progress == UnlockAll(Passed(old(db.progress), Key(user, submode, level), now),
                                     user, UnlockTargets(submode, level))
    ensures unlocked == UnlockTargets(submode, level)
    ensures db.attempts == old(db.attempts)
  {
    unlocked := [];
    SetPassed(db, user, submode, level, now);
    ghost var passed := db.progress;
    if level == 1 {
      Unlock(db, user, submode, 2);
      unlocked := unlocked + [Target(submode, 2)];
      assert UnlockTargets(submode, level) == [Target(submode, 2)] + [];
      UnlockAllCons(passed, user, Target(submode, 2), []);
    } else if level == 2 {
      Unlock(db, user, submode, 3);
      ghost var afterHard := db.progress;
      unlocked := unlocked + [Target(submode, 3)];
      // A next submode is never the empty string, so `if next_submode:` is `Some?`.
      var next := NextSubmode(submode);
      if next.Some? {
        Unlock(db, user, next.value, 1);
        unlocked := unlocked + [Target(next.value, 1)];
        assert UnlockTargets(submode, level) == [Target(submode, 3)] + ([Target(next.value, 1)] + []);
        UnlockAllCons(passed, user, Target(submode, 3), [Target(next.value, 1)]);
        UnlockAllCons(afterHard, user, Target(next.value, 1), []);
      } else {
        assert UnlockTargets(submode, level) == [Target(submode, 3)] + [];
        UnlockAllCons(passed, user, Target(submode, 3), []);
      }
    } else {
      assert UnlockTargets(submode, level) == [];
    }
  }

  /** Where `_handle_pass` and `unlock_next` part ways: after the same pass,
      `unlock_next` would report only the targets that were still locked,
      while `_handle_pass` lists them all; the two lists agree exactly when
      none of the targets was unlocked before. */
  lemma HandlePassListsAllTargets(m: Progress, user: UserId, submode: string, level: int, now: Timestamp)
    ensures var ts := UnlockTargets(submode, level);
            var reported := ChangedTargets(Passed(m, Key(user, submode, level), now), user, ts);
            && |reported| <= |ts|
            && (reported == ts <==> forall t :: t in ts ==> !IsUnlocked(m, KeyOf(user, t)))
  {
    var ts := UnlockTargets(submode, level);
    var k := Key(user, submode, level);
    var m' := Passed(m, k, now);
    UnlockTargetsDistinct(submode, level);
    forall t | t in ts
      ensures IsUnlocked(m', KeyOf(user, t)) == IsUnlocked(m, KeyOf(user, t))
    {
      assert KeyOf(user, t) != k;
    }
    ChangedTargetsShorter(m', user, ts);
    ChangedTargetsExact(m', user, ts);
    if forall t :: t in ts ==> !IsUnlocked(m, KeyOf(user, t)) {
      ChangedTargetsAllLocked(m', user, ts);
    }
  }

  /** Passing a level keeps every row unlocked and every passed row
      timestamped. */
  lemma PassKeepsWellFormed(m: Progress, user: UserId, submode: string, level: int, now: Timestamp)
    requires WellFormed(m)
    ensures WellFormed(UnlockAll(Passed(m, Key(user, submode, level), now), user, UnlockTargets(submode, level)))
  {
    PassedWellFormed(m, Key(user, submode, level), now);
    UnlockAllWellFormed(Passed(m, Key(user, submode, level), now), user, UnlockTargets(submode, level));
  }

  // ---------------------------------------------------------------------
  // evaluate

  /** The `content` object of the evaluator prompt file. */
  datatype PromptConfig = PromptConfig(systemPrompt: Option<string>)

  /** The evaluator prompt file as returned by the configuration service. */
  datatype PromptFile = PromptFile(content: Option<PromptConfig>)

  /** `prompt_data.get("content", {}).get("system_prompt", "")`. */
  function SystemPrompt(file: PromptFile): string {
    file.content.GetOr(PromptConfig(None)).systemPrompt.GetOr("")
  }

  /** The exceptions `evaluate` lets through. */
  datatype EvalError =
    | NoMessages          // `ValueError`: the conversation has no messages
    | ConfigUnavailable   // the prompt file fetch raised
    | ScoringUnavailable  // the language-model call raised

  /** What `evaluate` returns. */
  datatype Evaluation = Evaluation(status: string, feedback: Feedback, unlocked: seq<Target>)

  /** The status `evaluate` reads from the parsed answer. */
  function StatusOf(d: Decoded): string {
    d.status.GetOr("fail")
  }

  /** The feedback `evaluate` reads from the parsed answer. */
  function FeedbackOf(d: Decoded): Feedback {
    d.feedback.GetOr(EmptyFeedback)
  }

  /** `evaluate`. `messages` are the conversation's messages in creation order;
      `promptFile` is the fetched prompt file (`None` when the fetch raised);
      `callAi(system, user)` is the language-model call (`None` when it
      raised); `decode` is `json.loads` restricted to objects; `now` is the
      clock. The attempt insert and the progress updates land together. */
  method Evaluate(
    db: TrainingStore, user: UserId, conversation: ConversationId, submode: string, level: int,
    messages: seq<Message>, promptFile: Option<PromptFile>,
    callAi: (string, string) -> Option<string>, decode: string -> Option<Decoded>, now: Timestamp)
    returns (r: Result<Evaluation, EvalError>)
    modifies db
    ensures messages == [] ==> r == Failure(NoMessages)
    ensures messages != [] && promptFile.None? ==> r == Failure(ConfigUnavailable)
    ensures r.Failure? ==> db.progress == old(db.progress) && db.attempts == old(db.attempts)
    ensures messages != [] && promptFile.Some? ==>
      var question := UserMessage(submode, DifficultyName(level), Transcript(messages));
      var answer := callAi(SystemPrompt(promptFile.value), question);
      && (answer.None? ==> r == Failure(ScoringUnavailable))
      && (answer.Some? ==>
            var parsed := ParseResponse(answer.value, decode);
            var status := StatusOf(parsed);
            var passed := status == "pass";
            && r.Success?
            && r.value.status == status
            && r.value.feedback == FeedbackOf(parsed)
            && db.attempts == old(db.attempts)
                 + [Attempt(user, conversation, submode, level, if passed then Pass else Fail, FeedbackOf(parsed))]
            && (passed ==>
                  && r.value.unlocked == UnlockTargets(submode, level)
                  && db.progress == UnlockAll(Passed(old(db.progress), Key(user, submode, level), now),
                                              user, UnlockTargets(submode, level)))
            && (!passed ==> r.value.unlocked == [] && db.progress == old(db.progress)))
  {
    if messages == [] {
      return Failure(NoMessages);
    }
    if promptFile.None? {
      return Failure(ConfigUnavailable);
    }
    var systemPrompt := SystemPrompt(promptFile.value);
    var difficultyName := DifficultyName(level);
    var transcript := BuildTranscript(messages);
    var userMessage := UserMessage(submode, difficultyName, transcript);
    var rawResponse := callAi(systemPrompt, userMessage);
    if rawResponse.None? {
      return Failure(ScoringUnavailable);
    }
    var result := ParseResponse(rawResponse.value, decode);
    var status := StatusOf(result);
    var feedback := FeedbackOf(result);
    var attempt := Attempt(user, conversation, submode, level, if status == "pass" then Pass else Fail, feedback);
    db.attempts := db.attempts + [attempt];
    var unlocked: seq<Target> := [];
    if status == "pass" {
      unlocked := HandlePass(db, user, submode, level, now);
    }
    return Success(Evaluation(status, feedback, unlocked));
  }

  /** A scorer answer that does not decode is stored as a failed attempt with
      empty feedback and unlocks nothing. */
  lemma UndecodableAnswerFails(raw: string, decode: string -> Option<Decoded>)
    requires decode(CleanResponse(raw)).None?
    ensures StatusOf(ParseResponse(raw, decode)) == "fail"
    ensures FeedbackOf(ParseResponse(raw, decode)) == Feedback([], [])
  {
  }

  /** The first pass of easy `first_contact` after onboarding reports medium
      `first_contact` as unlocked, and the snapshot then shows easy passed and
      medium unlocked but not passed. */
  lemma FirstContactEasyPass(m: Progress, user: UserId, now: Timestamp)
    ensures UnlockTargets("first_contact", 1) == [Target("first_contact", 2)]
    ensures var m1 := UnlockAll(Passed(Initialized(m, user), Key(user, "first_contact", 1), now),
                                user, UnlockTargets("first_contact", 1));
            var easy, medium := Key(user, "first_contact", 1), Key(user, "first_contact", 2);
            && easy in m1 && m1[easy].passed && m1[easy].isUnlocked
            && medium in m1 && m1[medium].isUnlocked && !m1[medium].passed
  {
    var m0 := Initialized(m, user);
    assert KeyOf(user, InitialUnlocks[1]) in InitialKeys(user);
    var ts := UnlockTargets("first_contact", 1);
    assert ts[1..] == [];
  }

  /** Passing medium of the last submode unlocks only its hard level. */
  lemma LastSubmodeMediumPass()
    ensures UnlockTargets("after_date", 2) == [Target("after_date", 3)]
  {
    LastSubmodeHasNoNext();
    assert TrainingOrder[|TrainingOrder| - 1] == "after_date";
  }
}
