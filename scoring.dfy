/** Restricted-choice scoring. At inference the logits of the last position
    are gathered at the vocabulary ids of "1".."N" (N the item's number of
    choices) and the first largest one names the predicted choice; during
    training evaluation the logits at position -2 are gathered at the ids of
    "1".."5" and the labels are read back from the decoded answer turn.

    The source applies a softmax to the gathered logits before taking the
    argmax. Softmax is strictly increasing in each logit for fixed others,
    so it keeps the order of the values and with it the first argmax; the
    model takes the argmax of the raw logits and
    ArgmaxInvariantUnderOrderPreservingMaps states what this relies on. */
module Scoring {
  import opened Outcomes
  import opened PyStrings
  import Prompts

  /** xs[i] with Python's negative indices (xs[-1] is the last element). */
  function TensorAt<T>(xs: seq<T>, i: int): (r: Result<T>)
    ensures r.Ok? <==> -|xs| <= i < |xs|
    ensures r.Ok? ==> r.value == xs[if i < 0 then i + |xs| else i]
  {
    if 0 <= i < |xs| then Ok(xs[i])
    else if -|xs| <= i < 0 then Ok(xs[i + |xs|])
    else Err(IndexError)
  }

  /** k is the position of the first largest element of xs. */
  predicate IsFirstMax(xs: seq<real>, k: int) {
    0 <= k < |xs|
    && (forall j :: 0 <= j < |xs| ==> xs[j] <= xs[k])
    && (forall j :: 0 <= j < k ==> xs[j] < xs[k])
  }

  /** A sequence has at most one first largest element. */
  lemma FirstMaxIsUnique(xs: seq<real>, k: int, m: int)
    requires IsFirstMax(xs, k) && IsFirstMax(xs, m)
    ensures k == m
  {
    assert xs[k] <= xs[m] && xs[m] <= xs[k];
    assert !(xs[k] < xs[m]) && !(xs[m] < xs[k]);
  }

  /** np.argmax: the index of the first largest element. */
  function FirstArgmax(xs: seq<real>): (k: nat)
    requires |xs| > 0
    ensures IsFirstMax(xs, k)
    decreases |xs|
  {
    if |xs| == 1 then 0
    else
      var k := FirstArgmax(xs[..|xs| - 1]);
      assert forall j :: 0 <= j < |xs| - 1 ==> xs[..|xs| - 1][j] == xs[j];
      if xs[|xs| - 1] > xs[k] then |xs| - 1 else k
  }

  /** ys orders its positions exactly as xs does. */
  predicate SameOrder(xs: seq<real>, ys: seq<real>) {
    |xs| == |ys| && forall i, j :: 0 <= i < |xs| && 0 <= j < |xs| ==> (xs[i] < xs[j] <==> ys[i] < ys[j])
  }

  /** Any transformation that keeps the order of the values, softmax among
      them, keeps the first argmax. */
  lemma ArgmaxInvariantUnderOrderPreservingMaps(xs: seq<real>, ys: seq<real>)
    requires |xs| > 0 && SameOrder(xs, ys)
    ensures FirstArgmax(ys) == FirstArgmax(xs)
  {
    var k := FirstArgmax(xs);
    forall j | 0 <= j < |ys| ensures ys[j] <= ys[k] {
      assert !(xs[k] < xs[j]);
    }
    forall j | 0 <= j < k ensures ys[j] < ys[k] {
      assert xs[j] < xs[k];
    }
    FirstMaxIsUnique(ys, k, FirstArgmax(ys));
  }

  /** The token strings "1".."n" (none when n <= 0): range(len_choices) mapped
      to str(i + 1), which for a positive number is its digits alone. */
  function DigitTokens(n: int): (tokens: seq<string>)
    ensures |tokens| == if n > 0 then n else 0
    ensures forall i :: 0 <= i < |tokens| ==> tokens[i] == NatToString(i + 1)
  {
    seq(if n > 0 then n else 0, i requires 0 <= i => NatToString(i + 1))
  }

  /** [logits[vocab[t]] for t in tokens]: the first missing token raises
      KeyError, the first id outside the logits raises IndexError. */
  function GatherLogits(logits: seq<real>, vocab: map<string, int>, tokens: seq<string>): (r: Result<seq<real>>)
    ensures r.Ok? ==> |r.value| == |tokens|
    decreases |tokens|
  {
    if tokens == [] then Ok([])
    else if tokens[0] !in vocab then Err(KeyError(tokens[0]))
    else match TensorAt(logits, vocab[tokens[0]])
      case Err(e) => Err(e)
      case Ok(x) =>
        match GatherLogits(logits, vocab, tokens[1..])
        case Err(e) => Err(e)
        case Ok(rest) => Ok([x] + rest)
  }

  /** The gather succeeds exactly when every token has an id that indexes the
      logits, and then holds the logit of each token in token order. */
  lemma {:induction false} GatherLogitsSelectsTokens(logits: seq<real>, vocab: map<string, int>, tokens: seq<string>)
    ensures GatherLogits(logits, vocab, tokens).Ok? <==>
              forall i :: 0 <= i < |tokens| ==> tokens[i] in vocab && TensorAt(logits, vocab[tokens[i]]).Ok?
    ensures GatherLogits(logits, vocab, tokens).Ok? ==>
              forall i :: 0 <= i < |tokens| ==> TensorAt(logits, vocab[tokens[i]]) == Ok(GatherLogits(logits, vocab, tokens).value[i])
    decreases |tokens|
  {
    if tokens != [] {
      GatherLogitsSelectsTokens(logits, vocab, tokens[1..]);
      assert forall i :: 1 <= i < |tokens| ==> tokens[i] == tokens[1..][i - 1];
    }
  }

  /** vocab[t] then logits[...] for one token. */
  function TokenLogit(logits: seq<real>, vocab: map<string, int>, t: string): Result<real> {
    if t !in vocab then Err(KeyError(t)) else TensorAt(logits, vocab[t])
  }

  /** A failing gather fails with the error of its first token whose lookup
      fails: KeyError when the token is missing, IndexError when its id is
      outside the logits. */
  lemma {:induction false} GatherLogitsFirstFailure(logits: seq<real>, vocab: map<string, int>, tokens: seq<string>)
    ensures GatherLogits(logits, vocab, tokens).Err? ==>
              exists i :: 0 <= i < |tokens| && TokenLogit(logits, vocab, tokens[i]) == Err(GatherLogits(logits, vocab, tokens).error) &&
                forall j :: 0 <= j < i ==> TokenLogit(logits, vocab, tokens[j]).Ok?
    decreases |tokens|
  {
    var r := GatherLogits(logits, vocab, tokens);
    if r.Err? && TokenLogit(logits, vocab, tokens[0]).Ok? {
      GatherLogitsFirstFailure(logits, vocab, tokens[1..]);
      var i :| 0 <= i < |tokens[1..]| && TokenLogit(logits, vocab, tokens[1..][i]) == Err(r.error) &&
                forall j :: 0 <= j < i ==> TokenLogit(logits, vocab, tokens[1..][j]).Ok?;
      assert forall j :: 1 <= j < i + 1 ==> tokens[j] == tokens[1..][j - 1];
      assert TokenLogit(logits, vocab, tokens[i + 1]) == Err(r.error);
    }
  }

  /** pred_choices_map */
  const PredChoicesMap: map<int, string> := map[0 := "1", 1 := "2", 2 := "3", 3 := "4", 4 := "5"]

  /** pred_choices_map sends the index k of each of the first five choices to
      its digit str(k + 1), and knows no other index. */
  lemma PredChoicesMapIsDigitOfIndex(k: int)
    ensures k in PredChoicesMap <==> 0 <= k < 5
    ensures k in PredChoicesMap ==> PredChoicesMap[k] == NatToString(k + 1)
  {
    if k == 0 { assert NatToString(1) == "1"; }
    else if k == 1 { assert NatToString(2) == "2"; }
    else if k == 2 { assert NatToString(3) == "3"; }
    else if k == 3 { assert NatToString(4) == "4"; }
    else if k == 4 { assert NatToString(5) == "5"; }
  }

  const EmptyArgmax := "attempt to get argmax of an empty sequence"

  /** The digit that names the choice at 0-based index k. */
  function ChoiceDigit(k: nat): string {
    NatToString(k + 1)
  }

  /** answer is the digit of one of the first five choices out of lenChoices. */
  predicate AnswerWithin(answer: string, lenChoices: int) {
    exists k: nat :: k < 5 && k < lenChoices && answer == ChoiceDigit(k)
  }

  /** np.argmax over the gathered logits, mapped through pred_choices_map. */
  function PickChoice(target: seq<real>): (r: Result<string>)
    ensures target == [] ==> r == Err(ValueError(EmptyArgmax))
    ensures target != [] ==> (r.Ok? <==> FirstArgmax(target) < 5)
    ensures r.Ok? ==> target != [] && r.value == NatToString(FirstArgmax(target) + 1)
    ensures r.Err? && target != [] ==> r.error == KeyError(NatToString(FirstArgmax(target)))
  {
    if target == [] then Err(ValueError(EmptyArgmax))
    else
      var k := FirstArgmax(target);
      PredChoicesMapIsDigitOfIndex(k);
      if k in PredChoicesMap then Ok(PredChoicesMap[k]) else Err(KeyError(NatToString(k)))
  }

  /** The answer predicted for one test item from the logits at its last
      position: the choice among "1".."lenChoices" whose logit is the first
      largest, as long as it is one of the first five. */
  function ScoreItem(logits: seq<real>, vocab: map<string, int>, lenChoices: int): (r: Result<string>)
    ensures r.Ok? ==> AnswerWithin(r.value, lenChoices)
    ensures GatherLogits(logits, vocab, DigitTokens(lenChoices)).Err? ==>
              r == Err(GatherLogits(logits, vocab, DigitTokens(lenChoices)).error)
  {
    match GatherLogits(logits, vocab, DigitTokens(lenChoices))
    case Err(e) => Err(e)
    case Ok(target) =>
      var r := PickChoice(target);
      if r.Ok? then assert r.value == ChoiceDigit(FirstArgmax(target)); r else r
  }

  /** The predicted answer is str(k + 1) for the first position k whose
      gathered logit is largest. */
  lemma ScoreItemIsFirstMaximum(logits: seq<real>, vocab: map<string, int>, lenChoices: int, target: seq<real>)
    requires GatherLogits(logits, vocab, DigitTokens(lenChoices)) == Ok(target)
    requires ScoreItem(logits, vocab, lenChoices).Ok?
    ensures exists k :: IsFirstMax(target, k) && k < 5
                     && ScoreItem(logits, vocab, lenChoices).value == NatToString(k + 1)
  {
    var k := FirstArgmax(target);
    assert IsFirstMax(target, k);
  }

  /** With one to five choices, scoring succeeds whenever every digit token
      is in the vocabulary with an id inside the logits. */
  lemma ScoreItemSucceedsUpToFive(logits: seq<real>, vocab: map<string, int>, lenChoices: int)
    requires 1 <= lenChoices <= 5
    requires forall i :: 1 <= i <= lenChoices ==>
               NatToString(i) in vocab && -|logits| <= vocab[NatToString(i)] < |logits|
    ensures ScoreItem(logits, vocab, lenChoices).Ok?
  {
    var tokens := DigitTokens(lenChoices);
    GatherLogitsSelectsTokens(logits, vocab, tokens);
    forall i | 0 <= i < |tokens| ensures tokens[i] in vocab && TensorAt(logits, vocab[tokens[i]]).Ok? {
      assert tokens[i] == NatToString(i + 1);
    }
    var target := GatherLogits(logits, vocab, tokens).value;
    assert |target| == lenChoices;
  }

  /** With more than five choices the lookup in pred_choices_map succeeds
      exactly when one of the first five choices reaches the largest logit;
      otherwise scoring raises KeyError. */
  lemma ScoreItemBeyondFive(logits: seq<real>, vocab: map<string, int>, lenChoices: int, target: seq<real>)
    requires GatherLogits(logits, vocab, DigitTokens(lenChoices)) == Ok(target)
    requires lenChoices > 5
    ensures ScoreItem(logits, vocab, lenChoices).Ok? <==>
              exists i :: 0 <= i < 5 && forall j :: 0 <= j < |target| ==> target[j] <= target[i]
    ensures ScoreItem(logits, vocab, lenChoices).Err? ==> ScoreItem(logits, vocab, lenChoices).error.KeyError?
  {
    assert |target| == lenChoices;
    var k := FirstArgmax(target);
    if exists i :: 0 <= i < 5 && forall j :: 0 <= j < |target| ==> target[j] <= target[i] {
      var i :| 0 <= i < 5 && forall j :: 0 <= j < |target| ==> target[j] <= target[i];
      assert target[k] <= target[i];
      assert k <= i;
    }
  }

  lemma ExampleGather()
    ensures GatherLogits([0.5, 0.1, 0.2, 0.9, 0.3], map["1" := 1, "2" := 2, "3" := 3, "4" := 4], DigitTokens(4))
         == Ok([0.1, 0.2, 0.9, 0.3])
  {
    var tokens := DigitTokens(4);
    assert NatToString(1) == "1" && NatToString(2) == "2" && NatToString(3) == "3" && NatToString(4) == "4";
    assert tokens == ["1", "2", "3", "4"];
    var logits := [0.5, 0.1, 0.2, 0.9, 0.3];
    var vocab := map["1" := 1, "2" := 2, "3" := 3, "4" := 4];
    var g := GatherLogits(logits, vocab, tokens);
    GatherLogitsSelectsTokens(logits, vocab, tokens);
    assert g.Ok?;
    assert |g.value| == 4 && g.value[0] == 0.1 && g.value[1] == 0.2 && g.value[2] == 0.9 && g.value[3] == 0.3;
    assert g.value == [0.1, 0.2, 0.9, 0.3];
  }

  /** The scenario of four choices where "3" has the largest logit. */
  lemma ScoreItemExample()
    ensures ScoreItem([0.5, 0.1, 0.2, 0.9, 0.3], map["1" := 1, "2" := 2, "3" := 3, "4" := 4], 4) == Ok("3")
  {
    ExampleGather();
    var target := [0.1, 0.2, 0.9, 0.3];
    assert IsFirstMax(target, 2);
    FirstMaxIsUnique(target, 2, FirstArgmax(target));
    PredChoicesMapIsDigitOfIndex(2);
  }

  /** One row of the inference output: {"id": ..., "answer": ...}. */
  datatype Prediction = Prediction(id: string, answer: string)

  /** outputs.logits[:, -1]: the logits of the last position, for batch size 1. */
  function LastPositionLogits(output: seq<seq<real>>): (r: Result<seq<real>>)
    ensures r.Ok? <==> output != []
    ensures r.Ok? ==> r.value == output[|output| - 1]
  {
    TensorAt(output, -1)
  }

  /** The answer the inference loop records for one test item, given the
      model's output for it (positions by vocabulary). */
  function PredictItem(item: Prompts.TestExample, output: seq<seq<real>>, vocab: map<string, int>): (r: Result<Prediction>)
    ensures r.Ok? <==> output != [] && ScoreItem(output[|output| - 1], vocab, item.lenChoices).Ok?
    ensures r.Ok? ==> r.value.id == item.id && AnswerWithin(r.value.answer, item.lenChoices)
    ensures r.Ok? ==> ScoreItem(output[|output| - 1], vocab, item.lenChoices) == Ok(r.value.answer)
    ensures r.Err? && output == [] ==> r.error == IndexError
    ensures r.Err? && output != [] ==> r.error == ScoreItem(output[|output| - 1], vocab, item.lenChoices).error
  {
    var logits :- LastPositionLogits(output);
    var answer :- ScoreItem(logits, vocab, item.lenChoices);
    Ok(Prediction(item.id, answer))
  }

  /** The inference loop: one prediction per test item, in test order, each
      answer a digit between 1 and the item's number of choices; the first
      item that fails aborts the run. outputs[i] is the model's output for
      the chat-formatted prompt of tests[i]. */
  method Predict(tests: seq<Prompts.TestExample>, outputs: seq<seq<seq<real>>>, vocab: map<string, int>)
    returns (r: Result<seq<Prediction>>)
    requires |outputs| == |tests|
    ensures r.Ok? ==> |r.value| == |tests|
    ensures r.Ok? ==> forall i :: 0 <= i < |tests| ==> PredictItem(tests[i], outputs[i], vocab) == Ok(r.value[i])
    ensures r.Ok? ==> forall i :: 0 <= i < |tests| ==>
                        r.value[i].id == tests[i].id && AnswerWithin(r.value[i].answer, tests[i].lenChoices)
    ensures r.Err? ==> exists i :: 0 <= i < |tests| && PredictItem(tests[i], outputs[i], vocab) == Err(r.error)
                               && forall j :: 0 <= j < i ==> PredictItem(tests[j], outputs[j], vocab).Ok?
  {
    var inferResults: seq<Prediction> := [];
    var i := 0;
    while i < |tests|
      invariant 0 <= i <= |tests| && |inferResults| == i
      invariant forall j :: 0 <= j < i ==> PredictItem(tests[j], outputs[j], vocab) == Ok(inferResults[j])
    {
      var prediction := PredictItem(tests[i], outputs[i], vocab);
      if prediction.Err? {
        return Err(prediction.error);
      }
      inferResults := inferResults + [prediction.value];
      i := i + 1;
    }
    return Ok(inferResults);
  }

  // ---- Training-time evaluation ----

  /** The model's evaluation output: the logits tensor (batch, position,
      vocabulary), or a tuple whose first element is that tensor. */
  datatype EvalOutput = Logits(tensor: seq<seq<seq<real>>>) | Tupled(first: seq<seq<seq<real>>>)

  /** logits[0] when the output is a tuple, the output itself otherwise. */
  function Batch(output: EvalOutput): seq<seq<seq<real>>> {
    if output.Logits? then output.tensor else output.first
  }

  /** row holds the five logits that one example has at position -2 for the
      ids of "1".."5", in that order. */
  predicate SecondToLastAt(example: seq<seq<real>>, vocab: map<string, int>, row: seq<real>) {
    |example| >= 2 && |row| == 5
    && forall k :: 0 <= k < 5 ==>
         DigitTokens(5)[k] in vocab && TensorAt(example[|example| - 2], vocab[DigitTokens(5)[k]]) == Ok(row[k])
  }

  /** [tokenizer.vocab["1"], ..., tokenizer.vocab["5"]] */
  function AnswerIds(vocab: map<string, int>): (r: Result<seq<int>>)
    ensures r.Ok? <==> forall i :: 0 <= i < 5 ==> DigitTokens(5)[i] in vocab
    ensures r.Ok? ==> |r.value| == 5 && forall i :: 0 <= i < 5 ==> r.value[i] == vocab[DigitTokens(5)[i]]
  {
    LookupAll(vocab, DigitTokens(5))
  }

  function LookupAll(vocab: map<string, int>, tokens: seq<string>): (r: Result<seq<int>>)
    ensures r.Ok? <==> forall i :: 0 <= i < |tokens| ==> tokens[i] in vocab
    ensures r.Ok? ==> |r.value| == |tokens| && forall i :: 0 <= i < |tokens| ==> r.value[i] == vocab[tokens[i]]
    decreases |tokens|
  {
    if tokens == [] then Ok([])
    else if tokens[0] !in vocab then Err(KeyError(tokens[0]))
    else
      match LookupAll(vocab, tokens[1..])
      case Err(e) => Err(e)
      case Ok(rest) => Ok([vocab[tokens[0]]] + rest)
  }

  /** row[ids]: the logits at the given ids, IndexError for one outside the row. */
  function GatherIds(row: seq<real>, ids: seq<int>): (r: Result<seq<real>>)
    ensures r.Ok? <==> forall i :: 0 <= i < |ids| ==> TensorAt(row, ids[i]).Ok?
    ensures r.Ok? ==> |r.value| == |ids| && forall i :: 0 <= i < |ids| ==> TensorAt(row, ids[i]) == Ok(r.value[i])
    decreases |ids|
  {
    if ids == [] then Ok([])
    else
      match TensorAt(row, ids[0])
      case Err(e) => Err(e)
      case Ok(x) =>
        match GatherIds(row, ids[1..])
        case Err(e) => Err(e)
        case Ok(rest) => Ok([x] + rest)
  }

  /** One example has a second-to-last position and every id indexes it. */
  predicate GathersAtSecondToLast(example: seq<seq<real>>, ids: seq<int>) {
    |example| >= 2 && GatherIds(example[|example| - 2], ids).Ok?
  }

  /** row is what one example has at its second-to-last position for the ids. */
  predicate GatheredAtSecondToLast(example: seq<seq<real>>, ids: seq<int>, row: seq<real>) {
    |example| >= 2 && GatherIds(example[|example| - 2], ids) == Ok(row)
  }

  /** logits[:, -2, ids] over a batch. */
  function GatherAtSecondToLast(batch: seq<seq<seq<real>>>, ids: seq<int>): (r: Result<seq<seq<real>>>)
    ensures r.Ok? <==> forall b :: 0 <= b < |batch| ==> GathersAtSecondToLast(batch[b], ids)
    ensures r.Ok? ==> |r.value| == |batch|
    ensures r.Ok? ==> forall b :: 0 <= b < |batch| ==> GatheredAtSecondToLast(batch[b], ids, r.value[b])
    decreases |batch|
  {
    if batch == [] then Ok([])
    else
      assert forall b :: 1 <= b < |batch| ==> batch[b] == batch[1..][b - 1];
      var position :- TensorAt(batch[0], -2);
      var row :- GatherIds(position, ids);
      var rest :- GatherAtSecondToLast(batch[1..], ids);
      Ok([row] + rest)
  }

  /** preprocess_logits_for_metrics: for every example of the batch, the
      logits at position -2 for the ids of "1".."5", whatever the number of
      choices of that example. */
  function PreprocessLogitsForMetrics(output: EvalOutput, vocab: map<string, int>): (r: Result<seq<seq<real>>>)
    ensures r.Ok? <==> AnswerIds(vocab).Ok? &&
                         forall b :: 0 <= b < |Batch(output)| ==> GathersAtSecondToLast(Batch(output)[b], AnswerIds(vocab).value)
    ensures r.Ok? ==> |r.value| == |Batch(output)|
    ensures r.Ok? ==> forall b :: 0 <= b < |r.value| ==> SecondToLastAt(Batch(output)[b], vocab, r.value[b])
  {
    var ids :- AnswerIds(vocab);
    GatherAtSecondToLast(Batch(output), ids)
  }

  /** np.argmax(probs, axis=-1) over the preprocessed logits, with the
      softmax left out as explained above. */
  function EvalPredictions(rows: seq<seq<real>>): (preds: seq<nat>)
    requires forall b :: 0 <= b < |rows| ==> |rows[b]| > 0
    ensures |preds| == |rows|
    ensures forall b :: 0 <= b < |rows| ==> IsFirstMax(rows[b], preds[b])
  {
    seq(|rows|, b requires 0 <= b < |rows| => FirstArgmax(rows[b]))
  }

  /** Evaluation predicts a choice index in 0..4 for every example. */
  lemma EvalPredictionsAreAnswerIndices(output: EvalOutput, vocab: map<string, int>, rows: seq<seq<real>>)
    requires PreprocessLogitsForMetrics(output, vocab) == Ok(rows)
    ensures forall b :: 0 <= b < |rows| ==> |rows[b]| == 5
    ensures forall b :: 0 <= b < |rows| ==> EvalPredictions(rows)[b] < 5
  {
    assert forall b :: 0 <= b < |rows| ==> SecondToLastAt(Batch(output)[b], vocab, rows[b]);
  }

  /** The value the label tensor uses for positions outside the answer. */
  const IgnoreIndex := -100

  /** np.where(labels != -100, labels, pad_token_id) */
  function MaskLabels(labels: seq<seq<int>>, padTokenId: int): (r: seq<seq<int>>)
    ensures |r| == |labels|
    ensures forall b :: 0 <= b < |r| ==> |r[b]| == |labels[b]|
    ensures forall b, t :: 0 <= b < |labels| && 0 <= t < |labels[b]| && labels[b][t] != IgnoreIndex ==>
              r[b][t] == labels[b][t]
    ensures forall b, t :: 0 <= b < |labels| && 0 <= t < |labels[b]| && labels[b][t] == IgnoreIndex ==>
              r[b][t] == padTokenId
    ensures padTokenId != IgnoreIndex ==>
              forall b, t :: 0 <= b < |r| && 0 <= t < |r[b]| ==> r[b][t] != IgnoreIndex
  {
    seq(|labels|, b requires 0 <= b < |labels| =>
      seq(|labels[b]|, t requires 0 <= t < |labels[b]| => if labels[b][t] != IgnoreIndex then labels[b][t] else padTokenId))
  }

  const EndOfTurn := "<end_of_turn>"

  /** int(x.split("<end_of_turn>")[0].strip()) - 1 for one decoded label. */
  function LabelIndex(decoded: string): Result<int> {
    var n :- ParseInt(Strip(TextBefore(decoded, EndOfTurn)));
    Ok(n - 1)
  }

  /** The label read back from a decoded answer turn "str(answer)<end_of_turn>..."
      is the 0-based index of the answer that training rendered. */
  lemma LabelIndexOfAnswerTurn(answer: int, rest: string)
    ensures LabelIndex(Prompts.AnswerText(Some(answer)) + EndOfTurn + rest) == Ok(answer - 1)
  {
    var text := IntToString(answer);
    assert '<' !in text by {
      forall i | 0 <= i < |text| ensures text[i] != '<' {
        if i > 0 || answer >= 0 {
          var digits := if answer < 0 then text[1..] else text;
          assert text[i] == digits[if answer < 0 then i - 1 else i];
        }
      }
    }
    TextBeforeSeparated(text, EndOfTurn, rest);
    NoSpaceInIntToString(answer);
    ParseIntOfIntToString(answer);
  }
}
