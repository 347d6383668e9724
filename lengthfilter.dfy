/** The length filter applied to the tokenized training set: an example is
    kept when it has at most max_seq_length token ids. */
module LengthFilter {

  /** One tokenized example, as the tokenizer returns it. */
  datatype TokenizedExample = TokenizedExample(inputIds: seq<int>, attentionMask: seq<int>)

  /** lambda x: len(x["input_ids"]) <= max_seq_length */
  predicate Fits(e: TokenizedExample, maxSeqLength: int) {
    |e.inputIds| <= maxSeqLength
  }

  /** dataset.filter(Fits): the fitting examples in their original order. */
  function FilterByLength(ds: seq<TokenizedExample>, maxSeqLength: int): (kept: seq<TokenizedExample>)
    ensures |kept| <= |ds|
    ensures forall j :: 0 <= j < |kept| ==> Fits(kept[j], maxSeqLength)
    decreases |ds|
  {
    if ds == [] then []
    else
      var last := ds[|ds| - 1];
      FilterByLength(ds[..|ds| - 1], maxSeqLength) + (if Fits(last, maxSeqLength) then [last] else [])
  }

  /** The positions of the fitting examples, in increasing order. */
  function KeptPositions(ds: seq<TokenizedExample>, maxSeqLength: int): (idx: seq<nat>)
    ensures forall j :: 0 <= j < |idx| ==> idx[j] < |ds|
    decreases |ds|
  {
    if ds == [] then []
    else
      var n := |ds| - 1;
      KeptPositions(ds[..n], maxSeqLength) + (if Fits(ds[n], maxSeqLength) then [n] else [])
  }

  predicate StrictlyIncreasing(idx: seq<nat>) {
    forall j, k :: 0 <= j < k < |idx| ==> idx[j] < idx[k]
  }

  /** The kept positions are strictly increasing and are exactly the positions
      of the examples that fit. */
  lemma {:induction false} KeptPositionsAreTheFittingOnes(ds: seq<TokenizedExample>, maxSeqLength: int)
    ensures StrictlyIncreasing(KeptPositions(ds, maxSeqLength))
    ensures forall i :: 0 <= i < |ds| ==> (i in KeptPositions(ds, maxSeqLength) <==> Fits(ds[i], maxSeqLength))
    decreases |ds|
  {
    if ds != [] {
      var n := |ds| - 1;
      KeptPositionsAreTheFittingOnes(ds[..n], maxSeqLength);
      assert forall i :: 0 <= i < n ==> ds[..n][i] == ds[i];
      var prefix := KeptPositions(ds[..n], maxSeqLength);
      var idx := KeptPositions(ds, maxSeqLength);
      assert forall j :: 0 <= j < |prefix| ==> idx[j] == prefix[j] < n;
      assert |idx| > |prefix| ==> idx[|prefix|] == n;
      forall j, k | 0 <= j < k < |idx| ensures idx[j] < idx[k] {
        if k < |prefix| {
          assert prefix[j] < prefix[k];
        } else {
          assert idx[k] == n && idx[j] == prefix[j];
        }
      }
    }
  }

  /** The filter keeps the example at each kept position, in that order and
      nothing else: it is the order-preserving selection of the examples with
      at most maxSeqLength token ids. */
  lemma {:induction false} FilterSelectsKeptPositions(ds: seq<TokenizedExample>, maxSeqLength: int)
    ensures |FilterByLength(ds, maxSeqLength)| == |KeptPositions(ds, maxSeqLength)|
    ensures forall j :: 0 <= j < |FilterByLength(ds, maxSeqLength)| ==>
              FilterByLength(ds, maxSeqLength)[j] == ds[KeptPositions(ds, maxSeqLength)[j]]
    decreases |ds|
  {
    if ds != [] {
      var n := |ds| - 1;
      FilterSelectsKeptPositions(ds[..n], maxSeqLength);
      var kept := FilterByLength(ds[..n], maxSeqLength);
      var idx := KeptPositions(ds[..n], maxSeqLength);
      forall j | 0 <= j < |kept| ensures kept[j] == ds[idx[j]] {
        assert ds[..n][idx[j]] == ds[idx[j]];
      }
    }
  }

  /** Filtering twice with the same bound keeps what filtering once keeps. */
  lemma {:induction false} FilterIsIdempotent(ds: seq<TokenizedExample>, maxSeqLength: int)
    ensures FilterByLength(FilterByLength(ds, maxSeqLength), maxSeqLength) == FilterByLength(ds, maxSeqLength)
  {
    AllFitKeepsAll(FilterByLength(ds, maxSeqLength), maxSeqLength);
  }

  /** When every example fits, the filter removes nothing. */
  lemma {:induction false} AllFitKeepsAll(ds: seq<TokenizedExample>, maxSeqLength: int)
    requires forall j :: 0 <= j < |ds| ==> Fits(ds[j], maxSeqLength)
    ensures FilterByLength(ds, maxSeqLength) == ds
    decreases |ds|
  {
    if ds != [] {
      var n := |ds| - 1;
      AllFitKeepsAll(ds[..n], maxSeqLength);
      assert ds[..n] + [ds[n]] == ds;
    }
  }
}
