/**
  The loading indicator. The page's state is the number of
  `.loading-indicator` elements in the document: showing adds one only when
  none is present, and hiding removes the first one found, if any. Starting
  from a document with at most one indicator, no sequence of shows and
  hides ever produces a second.
 */
module Loading {

  /** `showLoadingIndicator`. */
  function Show(indicators: nat): (r: nat)
    ensures r >= 1
    ensures indicators == 0 ==> r == 1
    ensures indicators >= 1 ==> r == indicators
  {
    if indicators > 0 then indicators else indicators + 1
  }

  /** `hideLoadingIndicator`. */
  function Hide(indicators: nat): (r: nat)
    ensures indicators <= 1 ==> r == 0
    ensures indicators >= 1 ==> r + 1 == indicators
  {
    if indicators > 0 then indicators - 1 else indicators
  }

  datatype Op = ShowOp | HideOp

  function Apply(indicators: nat, op: Op): nat {
    match op
    case ShowOp => Show(indicators)
    case HideOp => Hide(indicators)
  }

  /** Applies the operations in order. */
  function Run(indicators: nat, ops: seq<Op>): nat
    decreases |ops|
  {
    if |ops| == 0 then indicators else Run(Apply(indicators, ops[0]), ops[1..])
  }

  /** Showing twice is showing once; hiding twice is hiding once when at
      most one indicator is present. */
  lemma ShowHideIdempotent(indicators: nat)
    ensures Show(Show(indicators)) == Show(indicators)
    ensures indicators <= 1 ==> Hide(Hide(indicators)) == Hide(indicators)
  {
  }

  /** From at most one indicator, any sequence of shows and hides keeps at
      most one, and the last operation decides whether it is present. */
  lemma {:induction false} RunKeepsSingleIndicator(indicators: nat, ops: seq<Op>)
    requires indicators <= 1
    ensures Run(indicators, ops) <= 1
    ensures |ops| > 0 ==> (Run(indicators, ops) == 1 <==> ops[|ops| - 1] == ShowOp)
    decreases |ops|
  {
    if |ops| > 0 {
      RunKeepsSingleIndicator(Apply(indicators, ops[0]), ops[1..]);
      if |ops| > 1 {
        assert ops[1..][|ops[1..]| - 1] == ops[|ops| - 1];
      }
    }
  }
}
