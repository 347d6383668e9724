# Generation-For-NLP: the data and scoring core of `src/main.py`, in Dafny

The repository fine-tunes a causal language model to answer Korean
multiple-choice exam questions (a passage, a question, an optional `<보기>`
passage called `question_plus`, and a list of choices). This project models
the deterministic part of `src/main.py` around the model:

- **Records** — `record_to_df`: each raw row, whose `problems` column has been
  parsed into a dict, becomes a flat record; `question` and `choices` are
  required (KeyError), `answer` and `question_plus` default to None.
- **Prompts** — `train_df_to_process_df` / `test_df_to_process_df`: the
  choices are rendered as the block `"1 - …\n2 - …"`, one of two templates is
  filled with `str.format` depending on whether `question_plus` is truthy, and
  the result is wrapped as system/user(/assistant) chat turns; the assistant
  turn is `f"{answer}"`, and test items also carry `len_choices`.
- **StrFormat** and **PyStrings** — the pieces of Python the builders and the
  label decoder rely on: `str.format` with keyword arguments, `str(int)`,
  `int(str)`, `strip`, `"\n".join`, and `split(sep)[0]`. The builders never
  split; a one-character `split` is defined only as the inverse of
  `"\n".join`, to state which lines the choices block consists of.
- **LengthFilter** — the filter that keeps the tokenized examples with at
  most `max_seq_length` token ids.
- **Scoring** — inference: the logits of the last position are gathered at the
  vocabulary ids of `"1"`…`str(len_choices)`, the first largest one is taken
  and mapped through `pred_choices_map`, and one `{"id", "answer"}` record is
  produced per test item; training evaluation: `preprocess_logits_for_metrics`
  gathers position -2 at the ids of `"1"`…`"5"`, predictions are the
  per-row argmax, and labels are decoded as `int(text before "<end_of_turn>") - 1`.

Every Python exception the modelled code can raise on these paths is an
`Err` of an `Outcomes.Result` (`KeyError`, `IndexError`, `ValueError`, and
`UnsupportedField` for `str.format` features outside the model). The loops of
the source (`record_to_df`, the two builders, the prediction loop) are
methods with `while` loops proved against a per-item function: on success
the output has one entry per input, in order, each equal to the per-item
result; on failure the error is the one of the first failing item.

Two behaviours of the code are worth knowing:

- At evaluation time the logits are always gathered at the five ids of
  `"1"`…`"5"`, whatever an item's number of choices; only inference restricts
  to the first `len_choices` digits.
- `len_choices` is never bounded. With more than five choices the
  gather covers all of them, and `pred_choices_map` raises KeyError only when
  the first largest logit is at index 5 or later (`Scoring.ScoreItemBeyondFive`).

## Model

| member | source | states |
|---|---|---|
| Records.NormalizeRow | src/main.py:47-58 | a row succeeds exactly when `question` and `choices` are present; a missing `question` raises KeyError("question") before `choices` is looked at; on success every field is copied, `answer` and `question_plus` staying None when absent |
| Records.RecordToDf | src/main.py:44-61 | one record per row in row order, each the row's normalisation with its id and paragraph; an error is the error of the first row that fails, all earlier rows succeeding |
| PyStrings.NatToString | src/main.py:67 | `str(n)` for n ≥ 0 is a non-empty run of ASCII digits with no leading zero unless n is 0 |
| PyStrings.IntToString | src/main.py:92 | `str(n)` starts with '-' exactly when n < 0 and is digits otherwise |
| PyStrings.ParseIntOfIntToString | src/main.py:275 | `int(str(n)) == n` for every integer |
| PyStrings.StripStart | src/main.py:273 | the result is a suffix of the input, what was removed is all whitespace, and it does not start with whitespace |
| PyStrings.StripEnd | src/main.py:273 | the result is a prefix of the input, what was removed is all whitespace, and it does not end with whitespace |
| PyStrings.Strip | src/main.py:273 | `strip()` is no longer than its input, neither starts nor ends with whitespace, is empty exactly when the input is all whitespace, and leaves a string without whitespace unchanged |
| PyStrings.ParseInt | src/main.py:275 | `int()` fails only with ValueError; with `ParseIntOfIntToString` it undoes `str(n)` for every integer |
| PyStrings.Split | src/main.py:67 | split yields at least one part and no part contains the separator |
| PyStrings.Join | src/main.py:67 | joining one part gives that part; `SplitJoin` and `JoinSplit` make join and split inverse to each other |
| PyStrings.SplitJoin | src/main.py:67 | splitting a join of separator-free parts gives the parts back |
| PyStrings.JoinSplit | src/main.py:67 | joining the parts of a split gives the string back |
| PyStrings.TextBefore | src/main.py:273 | `s.split(sep)[0]` is a prefix of s, is followed by sep unless it is all of s, and contains no earlier occurrence of sep |
| PyStrings.TextBeforeSeparated | src/main.py:273 | the text before a separator is recovered when the separator's first character does not occur in it |
| StrFormat.CloseAt | src/main.py:71-76 | the index of the first '}' of a string, or its length when it has none |
| StrFormat.ClassifyField | src/main.py:71-76 | a field body holding any of `{ ! : . [` is unsupported, a body of ASCII digits only (the empty body included) is positional, and any other body is a keyword name equal to the non-empty text between the braces |
| StrFormat.Format | src/main.py:71-83 | a KeyError names a field the arguments lack; its behaviour is stated by `FormatIsParseThenRender`, `FormatOkIff`, `FormatIgnoresUnusedNames`, `FormatOfEscape`, `FormatEscapedPrefix` and `FormatOneField` |
| StrFormat.RenderOkIff | src/main.py:71-76 | substitution succeeds exactly when every referenced name is supplied |
| StrFormat.RenderReadsOnlyFieldNames | src/main.py:71-76 | substitution depends only on the arguments the template refers to |
| StrFormat.FormatIsParseThenRender | src/main.py:71-76 | the left-to-right `str.format` equals parsing the template then substituting; a malformed template fails whatever the arguments |
| StrFormat.FormatOkIff | src/main.py:79-83 | `template.format(**args)` succeeds exactly when the template is well formed and names only supplied arguments |
| StrFormat.FormatIgnoresUnusedNames | src/main.py:79-83 | arguments the template does not refer to make no difference |
| StrFormat.Escape | src/main.py:71-76 | escaping never shortens a string |
| StrFormat.FormatOfEscape | src/main.py:71-76 | formatting an escaped string yields that string, whatever the arguments |
| StrFormat.FormatEscapedPrefix | src/main.py:71-76 | escaped literal text is copied to the output ahead of whatever the rest of the template yields |
| StrFormat.FormatOneField | src/main.py:71-76 | a named field between literal text is replaced by its argument, and raises KeyError of that name when the argument is missing |
| Prompts.ChoiceLines | src/main.py:67 | one line per choice, the k-th being `f"{k + 1} - {choice}"` |
| Prompts.ChoicesBlock | src/main.py:67 | the `"\n".join` of the numbered lines; `ChoicesBlockLines` and `ChoicesBlockHasNoTrailingNewline` state which lines it holds |
| Prompts.ChoicesBlockLines | src/main.py:67 | the choices block splits on '\n' into exactly one numbered line per choice, in order |
| Prompts.ChoicesBlockHasNoTrailingNewline | src/main.py:67 | the choices block does not end with a newline |
| Prompts.ChoiceLineHasNoNewline | src/main.py:67 | a choice line has no newline of its own when its choice has none |
| Prompts.HasQuestionPlus | src/main.py:70 | the truthiness of `question_plus`: present and non-empty; `TemplateSelection` states that it decides the template |
| Prompts.UserMessage | src/main.py:70-83 | the filled template of the user turn; `TemplateSelection`, `UserMessageOkIff` and `NoPlusTemplateCannotUseQuestionPlus` state which template is filled and when it fails |
| Prompts.TemplateSelection | src/main.py:70-83 | the `<보기>` template is used exactly when `question_plus` is truthy; the other template then plays no part |
| Prompts.UserMessageOkIff | src/main.py:70-83 | the user turn is built exactly when the selected template is well formed and names only its supplied placeholders |
| Prompts.NoPlusTemplateCannotUseQuestionPlus | src/main.py:78-83 | without a truthy `question_plus`, a template referring to `{question_plus}` raises |
| Prompts.AnswerText | src/main.py:92 | `f"{answer}"`: `str(answer)`, or "None" without an answer; `AnswerTextRoundTrip` states that it parses back to the answer |
| Prompts.AnswerTextRoundTrip | src/main.py:92 | the assistant turn `f"{answer}"` parses back to the answer |
| Prompts.BuildTrainExample | src/main.py:66-96 | a training example has exactly the system, user and assistant turns, in that order, with the instruction, the filled template and the answer text, and carries the record's id and answer; it fails exactly when the template fails, with that error |
| Prompts.BuildTestExample | src/main.py:103-133 | a test example has exactly the system and user turns, carries the id, the answer and the number of choices; it fails exactly when the template fails |
| Prompts.TrainAndTestShareThePrompt | src/main.py:123-133 | training and test examples of a record succeed together, fail with the same error, and share the first two turns |
| Prompts.TrainDfToProcessDf | src/main.py:64-98 | one training example per record in order, each the per-record result with three turns and the record's id; otherwise the error of the first failing record |
| Prompts.TestDfToProcessDf | src/main.py:101-135 | one test example per record in order, each with two turns and its record's number of choices; otherwise the error of the first failing record |
| LengthFilter.FilterByLength | src/main.py:244 | the filter never grows the dataset and keeps only examples with at most `max_seq_length` ids |
| LengthFilter.Fits | src/main.py:244 | an example fits when it has at most `max_seq_length` ids; `KeptPositionsAreTheFittingOnes` states that the filter keeps exactly the fitting ones |
| LengthFilter.KeptPositionsAreTheFittingOnes | src/main.py:244 | the kept positions increase strictly and are exactly the positions of the fitting examples |
| LengthFilter.FilterSelectsKeptPositions | src/main.py:244 | the filter is the order-preserving selection of the examples at the kept positions |
| LengthFilter.AllFitKeepsAll | src/main.py:244 | when every example fits, nothing is removed |
| LengthFilter.FilterIsIdempotent | src/main.py:244 | filtering twice keeps what filtering once keeps |
| Scoring.TensorAt | src/main.py:358 | indexing succeeds exactly for -len ≤ i < len, negative indices counting from the end |
| Scoring.FirstArgmax | src/main.py:367 | `np.argmax` is the position of the first largest element |
| Scoring.FirstMaxIsUnique | src/main.py:279 | a sequence has only one first largest position |
| Scoring.ArgmaxInvariantUnderOrderPreservingMaps | src/main.py:362-367 | any map that keeps the order of the values (softmax among them) keeps the argmax |
| Scoring.DigitTokens | src/main.py:360 | there are `len_choices` tokens (none when it is not positive), the k-th being `str(k + 1)` |
| Scoring.GatherLogits | src/main.py:360 | the gather holds one value per token |
| Scoring.GatherLogitsSelectsTokens | src/main.py:360 | the gather succeeds exactly when every token is in the vocabulary with an id that indexes the logits, and then holds each token's logit in token order |
| Scoring.GatherLogitsFirstFailure | src/main.py:360 | a failing gather fails with the error of its first failing token, every earlier token looking up successfully: KeyError when the token is missing, IndexError when its id is out of range |
| Scoring.PredChoicesMapIsDigitOfIndex | src/main.py:330 | `pred_choices_map` knows exactly the indices 0..4 and sends k to `str(k + 1)` |
| Scoring.PickChoice | src/main.py:367 | an empty gather raises ValueError; otherwise the lookup succeeds exactly when the argmax is below 5, gives `str(argmax + 1)`, and raises KeyError of the index otherwise |
| Scoring.ScoreItem | src/main.py:358-367 | a predicted answer is the digit of one of the first five choices and of one of the item's own choices; when the gather of the digit logits fails, scoring fails with the gather's KeyError or IndexError |
| Scoring.ScoreItemIsFirstMaximum | src/main.py:360-367 | the predicted answer is `str(k + 1)` for the first position k of the largest gathered logit |
| Scoring.ScoreItemSucceedsUpToFive | src/main.py:360-367 | with one to five choices whose digits have in-range vocabulary ids, scoring always succeeds |
| Scoring.ScoreItemBeyondFive | src/main.py:330-367 | with more than five choices, scoring succeeds exactly when one of the first five reaches the largest logit, and otherwise raises KeyError |
| Scoring.ScoreItemExample | src/main.py:358-367 | with four choices whose logits are 0.1, 0.2, 0.9, 0.3 the answer is "3" |
| Scoring.LastPositionLogits | src/main.py:358 | `outputs.logits[:, -1]` is the last position's logits and fails only on an empty output |
| Scoring.PredictItem | src/main.py:335-368 | an item's prediction succeeds exactly when the model output has a last position that scores successfully; it then carries the item's id and that scored answer, a digit within its choices; otherwise the error is IndexError for an empty output or the scoring error |
| Scoring.Predict | src/main.py:329-368 | one prediction per test item in order, each the item's own prediction with its id and an answer within its choices; otherwise the error of the first failing item |
| Scoring.AnswerIds | src/main.py:258-259 | the five ids of "1".."5" in order, or KeyError when one is not in the vocabulary |
| Scoring.LookupAll | src/main.py:258-259 | the lookup succeeds exactly when every token is in the vocabulary, and gives their ids in order |
| Scoring.GatherIds | src/main.py:260 | fancy indexing succeeds exactly when every id indexes the row, and gives the values in id order |
| Scoring.Batch | src/main.py:257 | the logits tensor, or the first element when the model returns a tuple; `PreprocessLogitsForMetrics` states the gather over it |
| Scoring.GatherAtSecondToLast | src/main.py:260 | succeeds exactly when every example of the batch has at least two positions and every id indexes the second-to-last one; the result then has one row per example, the gather of its second-to-last position |
| Scoring.PreprocessLogitsForMetrics | src/main.py:256-261 | succeeds exactly when the ids of "1".."5" are all in the vocabulary and every example can be gathered at position -2; the result then has one row per example, each the five logits at position -2 for those ids, whether the output is a tensor or a tuple |
| Scoring.EvalPredictions | src/main.py:278-279 | one prediction per row, each the first largest position of that row |
| Scoring.EvalPredictionsAreAnswerIndices | src/main.py:256-279 | every evaluation prediction is a choice index between 0 and 4 |
| Scoring.MaskLabels | src/main.py:271 | labels keep their shape, every label other than -100 is kept, every -100 becomes the pad id, and so no -100 remains when the pad id differs from it |
| Scoring.LabelIndex | src/main.py:272-275 | `int(x.split("<end_of_turn>")[0].strip()) - 1`; `LabelIndexOfAnswerTurn` states its value on an answer turn |
| Scoring.LabelIndexOfAnswerTurn | src/main.py:272-275 | the label decoded from an answer turn `f"{answer}<end_of_turn>…"` is `answer - 1`, the 0-based index of the rendered answer |

## Left out

- Loading the CSV, `literal_eval` of the `problems` column and pandas' dtype coercion: rows arrive already parsed, with typed fields. A column where some answers are missing becomes float in pandas, so `f"{answer}"` would print "3.0" or "nan"; the model renders an integer or "None".
- Loading the model, tokenizer and PEFT adapters, the chat template, `apply_chat_template`, tokenization and `batch_decode`: the model's outputs, the vocabulary and the decoded label texts are parameters.
- `train_test_split`, `set_seed`, the `debug` sampling, the trainer configuration and training itself, the accuracy metric, wandb, logging, writing `predictions.csv`.
- The retrieval (`do_RAG`) branch of the prediction loop: it calls code outside the file and refers to an `args` name that main.py never defines.
- Scoring.PickChoice: softmax is not computed. The argmax is taken over the raw logits, which `Scoring.ArgmaxInvariantUnderOrderPreservingMaps` justifies for exact arithmetic; float32 rounding in softmax can make two close logits equal and change which one is first.
- Scoring.FirstArgmax: logits are exact reals, so NaN (which `np.argmax` treats as the largest value) is not modelled.
- Scoring.PreprocessLogitsForMetrics: the tensor is modelled as nested sequences, so an empty batch carries no sequence length and succeeds, where torch would still check position -2 against the sequence length.
- PyStrings.ParseSigned: `int()` also accepts underscores between digits and non-ASCII decimal digits; the model accepts only an optional sign and ASCII digits. It also strips every character `str.isspace` accepts, where `int()` strips only whitespace proper (not the separators `\x1c`–`\x1f`); the label decoder strips with `str.strip` first, so its results are unaffected.
- Records.NormalizeRow: None in a `Problems` field encodes an absent key. A `question` or `choices` key that is present but holds None is outside the model: the code would build the record and later render "None" into the prompt, where the model raises KeyError.
- StrFormat.Format: conversions (`!r`), format specs (`:>3`), attribute and index access and nested braces in a field are reported as `UnsupportedField` rather than interpreted; positional fields raise IndexError since only keyword arguments are passed.
- Prompts.ChoicesBlockLines: a choice that itself contains a newline adds lines to the block, so the one-line-per-choice property is stated for choices without newlines.
