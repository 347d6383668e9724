/** Prompt building: an exam record becomes a chat-formatted example. The
    choices are rendered as a numbered block, one of two templates is filled
    depending on whether the record has a `question_plus` passage, and the
    result is wrapped as a system turn, a user turn and, for training, an
    assistant turn holding the answer. */
module Prompts {
  import opened Outcomes
  import opened PyStrings
  import opened StrFormat
  import opened Records

  /** The fixed system instruction ("read the passage and answer the question"). */
  const SystemInstruction := "지문을 읽고 질문의 답을 구하세요."

  datatype Role = System | User | Assistant

  datatype Message = Message(role: Role, content: string)

  /** An element of the training dataset. */
  datatype TrainExample = TrainExample(id: string, messages: seq<Message>, answerLabel: Option<int>)

  /** An element of the test dataset. */
  datatype TestExample = TestExample(id: string, messages: seq<Message>, answerLabel: Option<int>, lenChoices: nat)

  /** f"{idx + 1} - {choice}" */
  function ChoiceLine(idx: nat, choice: string): string {
    IntToString(idx + 1) + " - " + choice
  }

  function ChoiceLines(choices: seq<string>): (lines: seq<string>)
    ensures |lines| == |choices|
    ensures forall k :: 0 <= k < |choices| ==> lines[k] == ChoiceLine(k, choices[k])
  {
    seq(|choices|, k requires 0 <= k < |choices| => ChoiceLine(k, choices[k]))
  }

  /** "\n".join(f"{idx + 1} - {choice}" for idx, choice in enumerate(choices)) */
  function ChoicesBlock(choices: seq<string>): string {
    Join(ChoiceLines(choices), '\n')
  }

  /** The block holds one line per choice, in the choices' order, numbered
      from 1 and separated by single newlines. */
  lemma ChoicesBlockLines(choices: seq<string>)
    requires |choices| > 0
    requires forall k :: 0 <= k < |choices| ==> '\n' !in choices[k]
    ensures Split(ChoicesBlock(choices), '\n') == ChoiceLines(choices)
    ensures |Split(ChoicesBlock(choices), '\n')| == |choices|
    ensures forall k :: 0 <= k < |choices| ==>
              Split(ChoicesBlock(choices), '\n')[k] == IntToString(k + 1) + " - " + choices[k]
  {
    var lines := ChoiceLines(choices);
    forall k | 0 <= k < |lines| ensures '\n' !in lines[k] {
      ChoiceLineHasNoNewline(k, choices[k]);
    }
    SplitJoin(lines, '\n');
  }

  /** The block does not end with a newline. */
  lemma ChoicesBlockHasNoTrailingNewline(choices: seq<string>)
    requires |choices| > 0
    requires '\n' !in choices[|choices| - 1]
    ensures var block := ChoicesBlock(choices); block != [] && block[|block| - 1] != '\n'
  {
    var lines := ChoiceLines(choices);
    var last := lines[|lines| - 1];
    ChoiceLineHasNoNewline(|choices| - 1, choices[|choices| - 1]);
    assert |last| >= 1;
    LastLineEndsBlock(lines, '\n');
    assert last[|last| - 1] in last;
  }

  lemma ChoiceLineHasNoNewline(idx: nat, choice: string)
    requires '\n' !in choice
    ensures '\n' !in ChoiceLine(idx, choice)
  {
    var digits := IntToString(idx + 1);
    var line := ChoiceLine(idx, choice);
    assert line == digits + " - " + choice;
    forall i | 0 <= i < |line| ensures line[i] != '\n' {
      if i < |digits| {
        assert line[i] == digits[i] && IsDigit(digits[i]);
      } else if i >= |digits| + 3 {
        assert line[i] == choice[i - |digits| - 3];
      }
    }
  }

  /** A join ends with the end of its last part. */
  lemma {:induction false} LastLineEndsBlock(parts: seq<string>, sep: char)
    requires |parts| > 0 && parts[|parts| - 1] != []
    ensures var s := Join(parts, sep); s != [] && s[|s| - 1] == parts[|parts| - 1][|parts[|parts| - 1]| - 1]
    decreases |parts|
  {
    if |parts| > 1 {
      LastLineEndsBlock(parts[1..], sep);
    }
  }

  /** Python truthiness of the question_plus value: neither None nor "". */
  predicate HasQuestionPlus(questionPlus: Option<string>) {
    questionPlus.Some? && questionPlus.value != ""
  }

  /** The keyword arguments given to the <보기> template. */
  function PlusArgs(rec: ExamRecord, choices: string): map<string, string>
    requires rec.questionPlus.Some?
  {
    map["paragraph" := rec.paragraph, "question" := rec.question,
        "question_plus" := rec.questionPlus.value, "choices" := choices]
  }

  /** The keyword arguments given to the template without <보기>. */
  function NoPlusArgs(rec: ExamRecord, choices: string): map<string, string> {
    map["paragraph" := rec.paragraph, "question" := rec.question, "choices" := choices]
  }

  const PlusNames: set<string> := {"paragraph", "question", "question_plus", "choices"}
  const NoPlusNames: set<string> := {"paragraph", "question", "choices"}

  /** The user turn's content, shared by the training and test builders. */
  function UserMessage(rec: ExamRecord, qPlus: string, noQPlus: string): Result<string> {
    var choices := ChoicesBlock(rec.choices);
    if HasQuestionPlus(rec.questionPlus) then Format(qPlus, PlusArgs(rec, choices))
    else Format(noQPlus, NoPlusArgs(rec, choices))
  }

  /** The <보기> template is used exactly when question_plus is truthy: the
      result never depends on the other template. */
  lemma TemplateSelection(rec: ExamRecord, qPlus: string, noQPlus: string, other: string)
    ensures HasQuestionPlus(rec.questionPlus) ==> UserMessage(rec, qPlus, noQPlus) == UserMessage(rec, qPlus, other)
    ensures !HasQuestionPlus(rec.questionPlus) ==> UserMessage(rec, qPlus, noQPlus) == UserMessage(rec, other, noQPlus)
  {
  }

  /** The user turn is built exactly when the selected template is well formed
      and names only the placeholders supplied for it. */
  lemma UserMessageOkIff(rec: ExamRecord, qPlus: string, noQPlus: string)
    ensures HasQuestionPlus(rec.questionPlus) ==>
              (UserMessage(rec, qPlus, noQPlus).Ok? <==> Parse(qPlus).Ok? && FieldNames(Parse(qPlus).value) <= PlusNames)
    ensures !HasQuestionPlus(rec.questionPlus) ==>
              (UserMessage(rec, qPlus, noQPlus).Ok? <==> Parse(noQPlus).Ok? && FieldNames(Parse(noQPlus).value) <= NoPlusNames)
  {
    var choices := ChoicesBlock(rec.choices);
    if HasQuestionPlus(rec.questionPlus) {
      FormatOkIff(qPlus, PlusArgs(rec, choices));
      assert PlusArgs(rec, choices).Keys == PlusNames;
    } else {
      FormatOkIff(noQPlus, NoPlusArgs(rec, choices));
      assert NoPlusArgs(rec, choices).Keys == NoPlusNames;
    }
  }

  /** Without a truthy question_plus, a template that refers to it fails. */
  lemma NoPlusTemplateCannotUseQuestionPlus(rec: ExamRecord, qPlus: string, noQPlus: string)
    requires !HasQuestionPlus(rec.questionPlus)
    requires Parse(noQPlus).Ok? && "question_plus" in FieldNames(Parse(noQPlus).value)
    ensures UserMessage(rec, qPlus, noQPlus).Err?
  {
    UserMessageOkIff(rec, qPlus, noQPlus);
  }

  /** f"{answer}": the decimal digits of the answer, or "None" when it is absent. */
  function AnswerText(answer: Option<int>): string {
    if answer.Some? then IntToString(answer.value) else "None"
  }

  /** The assistant turn parses back to the answer it was rendered from. */
  lemma AnswerTextRoundTrip(answer: int)
    ensures ParseInt(AnswerText(Some(answer))) == Ok(answer)
  {
    ParseIntOfIntToString(answer);
  }

  /** One iteration of train_df_to_process_df. */
  function BuildTrainExample(rec: ExamRecord, qPlus: string, noQPlus: string): (r: Result<TrainExample>)
    ensures r.Ok? <==> UserMessage(rec, qPlus, noQPlus).Ok?
    ensures r.Err? ==> r.error == UserMessage(rec, qPlus, noQPlus).error
    ensures r.Ok? ==> r.value.id == rec.id && r.value.answerLabel == rec.answer
    ensures r.Ok? ==> |r.value.messages| == 3
    ensures r.Ok? ==> r.value.messages[0] == Message(System, SystemInstruction)
    ensures r.Ok? ==> r.value.messages[1] == Message(User, UserMessage(rec, qPlus, noQPlus).value)
    ensures r.Ok? ==> r.value.messages[2] == Message(Assistant, AnswerText(rec.answer))
  {
    var user :- UserMessage(rec, qPlus, noQPlus);
    Ok(TrainExample(rec.id,
                    [Message(System, SystemInstruction), Message(User, user), Message(Assistant, AnswerText(rec.answer))],
                    rec.answer))
  }

  /** One iteration of test_df_to_process_df. */
  function BuildTestExample(rec: ExamRecord, qPlus: string, noQPlus: string): (r: Result<TestExample>)
    ensures r.Ok? <==> UserMessage(rec, qPlus, noQPlus).Ok?
    ensures r.Err? ==> r.error == UserMessage(rec, qPlus, noQPlus).error
    ensures r.Ok? ==> r.value.id == rec.id && r.value.answerLabel == rec.answer
    ensures r.Ok? ==> r.value.lenChoices == |rec.choices|
    ensures r.Ok? ==> r.value.messages == [Message(System, SystemInstruction), Message(User, UserMessage(rec, qPlus, noQPlus).value)]
  {
    var user :- UserMessage(rec, qPlus, noQPlus);
    Ok(TestExample(rec.id, [Message(System, SystemInstruction), Message(User, user)], rec.answer, |rec.choices|))
  }

  /** The training and test builders agree on everything but the assistant
      turn: both succeed or both fail, with the same error, and the test
      example's messages are the first two of the training example's. */
  lemma TrainAndTestShareThePrompt(rec: ExamRecord, qPlus: string, noQPlus: string)
    ensures BuildTrainExample(rec, qPlus, noQPlus).Ok? <==> BuildTestExample(rec, qPlus, noQPlus).Ok?
    ensures BuildTrainExample(rec, qPlus, noQPlus).Err? ==>
              BuildTrainExample(rec, qPlus, noQPlus).error == BuildTestExample(rec, qPlus, noQPlus).error
    ensures BuildTrainExample(rec, qPlus, noQPlus).Ok? ==>
              var train := BuildTrainExample(rec, qPlus, noQPlus).value;
              var test := BuildTestExample(rec, qPlus, noQPlus).value;
              train.messages[..2] == test.messages && train.id == test.id && train.answerLabel == test.answerLabel
  {
  }

  /** train_df_to_process_df: one example per record, in record order; the
      first record whose template fails aborts the whole conversion. */
  method TrainDfToProcessDf(records: seq<ExamRecord>, qPlus: string, noQPlus: string)
    returns (r: Result<seq<TrainExample>>)
    ensures r.Ok? ==> |r.value| == |records|
    ensures r.Ok? ==> forall i :: 0 <= i < |records| ==> BuildTrainExample(records[i], qPlus, noQPlus) == Ok(r.value[i])
    ensures r.Ok? ==> forall i :: 0 <= i < |records| ==> |r.value[i].messages| == 3 && r.value[i].id == records[i].id
    ensures r.Err? ==> exists i :: 0 <= i < |records| && BuildTrainExample(records[i], qPlus, noQPlus) == Err(r.error)
                               && forall j :: 0 <= j < i ==> BuildTrainExample(records[j], qPlus, noQPlus).Ok?
  {
    var processed: seq<TrainExample> := [];
    var i := 0;
    while i < |records|
      invariant 0 <= i <= |records| && |processed| == i
      invariant forall j :: 0 <= j < i ==> BuildTrainExample(records[j], qPlus, noQPlus) == Ok(processed[j])
    {
      var rec := records[i];
      var choices := ChoicesBlock(rec.choices);
      var user: Result<string>;
      if HasQuestionPlus(rec.questionPlus) {
        user := Format(qPlus, PlusArgs(rec, choices));
      } else {
        user := Format(noQPlus, NoPlusArgs(rec, choices));
      }
      if user.Err? {
        return Err(user.error);
      }
      var messages := [Message(System, SystemInstruction), Message(User, user.value), Message(Assistant, AnswerText(rec.answer))];
      processed := processed + [TrainExample(rec.id, messages, rec.answer)];
      i := i + 1;
    }
    return Ok(processed);
  }

  /** test_df_to_process_df: one example per record, in record order, each
      carrying its number of choices; the first failing template aborts. */
  method TestDfToProcessDf(records: seq<ExamRecord>, qPlus: string, noQPlus: string)
    returns (r: Result<seq<TestExample>>)
    ensures r.Ok? ==> |r.value| == |records|
    ensures r.Ok? ==> forall i :: 0 <= i < |records| ==> BuildTestExample(records[i], qPlus, noQPlus) == Ok(r.value[i])
    ensures r.Ok? ==> forall i :: 0 <= i < |records| ==>
                        |r.value[i].messages| == 2 && r.value[i].lenChoices == |records[i].choices|
    ensures r.Err? ==> exists i :: 0 <= i < |records| && BuildTestExample(records[i], qPlus, noQPlus) == Err(r.error)
                               && forall j :: 0 <= j < i ==> BuildTestExample(records[j], qPlus, noQPlus).Ok?
  {
    var tests: seq<TestExample> := [];
    var i := 0;
    while i < |records|
      invariant 0 <= i <= |records| && |tests| == i
      invariant forall j :: 0 <= j < i ==> BuildTestExample(records[j], qPlus, noQPlus) == Ok(tests[j])
    {
      var rec := records[i];
      var choices := ChoicesBlock(rec.choices);
      var lenChoices := |rec.choices|;
      var user: Result<string>;
      if HasQuestionPlus(rec.questionPlus) {
        user := Format(qPlus, PlusArgs(rec, choices));
      } else {
        user := Format(noQPlus, NoPlusArgs(rec, choices));
      }
      if user.Err? {
        return Err(user.error);
      }
      var messages := [Message(System, SystemInstruction), Message(User, user.value)];
      tests := tests + [TestExample(rec.id, messages, rec.answer, lenChoices)];
      i := i + 1;
    }
    return Ok(tests);
  }
}
