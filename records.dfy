/** Record normalisation: each raw row, whose `problems` column has already
    been parsed into a dict, becomes one flat exam record. */
module Records {
  import opened Outcomes

  /** The dict parsed from a row's `problems` column. A field is None when its
      key is absent; a `question` or `choices` key holding None is outside the
      typed input. For `answer` and `question_plus`, which are read with
      `.get`, an absent key and a None value are alike. */
  datatype Problems = Problems(
    question: Option<string>,
    choices: Option<seq<string>>,
    answer: Option<int>,
    questionPlus: Option<string>)

  /** A row of the input table. */
  datatype Row = Row(id: string, paragraph: string, problems: Problems)

  /** A flat record: one row of the normalised table. */
  datatype ExamRecord = ExamRecord(
    id: string,
    paragraph: string,
    question: string,
    choices: seq<string>,
    answer: Option<int>,
    questionPlus: Option<string>)

  /** The record one row becomes. `question` and `choices` are read with
      problems[key] and raise KeyError when absent (`question` is read first);
      `answer` and `question_plus` are read with problems.get(key, None). */
  function NormalizeRow(row: Row): (r: Result<ExamRecord>)
    ensures r.Ok? <==> row.problems.question.Some? && row.problems.choices.Some?
    ensures row.problems.question.None? ==> r == Err(KeyError("question"))
    ensures row.problems.question.Some? && row.problems.choices.None? ==> r == Err(KeyError("choices"))
    ensures r.Ok? ==> r.value.id == row.id && r.value.paragraph == row.paragraph
    ensures r.Ok? ==> r.value.question == row.problems.question.value
    ensures r.Ok? ==> r.value.choices == row.problems.choices.value
    ensures r.Ok? ==> r.value.answer == row.problems.answer
    ensures r.Ok? ==> r.value.questionPlus == row.problems.questionPlus
  {
    var p := row.problems;
    if p.question.None? then Err(KeyError("question"))
    else if p.choices.None? then Err(KeyError("choices"))
    else Ok(ExamRecord(row.id, row.paragraph, p.question.value, p.choices.value, p.answer, p.questionPlus))
  }

  /** record_to_df: one record per row, in row order; the first row whose
      dict lacks a required key aborts the whole conversion. */
  method RecordToDf(rows: seq<Row>) returns (r: Result<seq<ExamRecord>>)
    ensures r.Ok? ==> |r.value| == |rows|
    ensures r.Ok? ==> forall i :: 0 <= i < |rows| ==> NormalizeRow(rows[i]) == Ok(r.value[i])
    ensures r.Ok? ==> forall i :: 0 <= i < |rows| ==> r.value[i].id == rows[i].id
    ensures r.Ok? ==> forall i :: 0 <= i < |rows| ==> r.value[i].paragraph == rows[i].paragraph
    ensures r.Err? ==> exists i :: 0 <= i < |rows| && NormalizeRow(rows[i]) == Err(r.error)
                               && forall j :: 0 <= j < i ==> NormalizeRow(rows[j]).Ok?
  {
    var records: seq<ExamRecord> := [];
    var i := 0;
    while i < |rows|
      invariant 0 <= i <= |rows| && |records| == i
      invariant forall j :: 0 <= j < i ==> NormalizeRow(rows[j]) == Ok(records[j])
    {
      var problems := rows[i].problems;
      if problems.question.None? {
        return Err(KeyError("question"));
      }
      if problems.choices.None? {
        return Err(KeyError("choices"));
      }
      var record := ExamRecord(rows[i].id, rows[i].paragraph, problems.question.value,
                               problems.choices.value, problems.answer, problems.questionPlus);
      records := records + [record];
      i := i + 1;
    }
    return Ok(records);
  }
}
