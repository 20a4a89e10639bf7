/** The judgment at the end of `predict`: compare the predicted label with the
    ground truth, both arrays produced by `argMax` over a batch of one, and
    choose the status and the reported prediction. */
module Judgement {
  import opened Results
  import opened Logs

  /** A number as JavaScript's arithmetic sees it. */
  datatype JsNumber = Num(v: int) | NaN

  /** ToNumber of an array of labels: of its comma-joined text, so `[]` is 0,
      `[n]` is n, and two or more elements are NaN. */
  function ArrayToNumber(a: seq<nat>): JsNumber
  {
    if |a| == 0 then Num(0)
    else if |a| == 1 then Num(a[0])
    else NaN
  }

  /** `p - q === 0` on two label arrays; NaN compares unequal to 0. */
  function DifferenceIsZero(p: seq<nat>, q: seq<nat>): (z: bool)
    ensures z ==> |p| <= 1 && |q| <= 1
    ensures |p| == 1 && |q| == 1 ==> (z <==> p[0] == q[0])
    ensures p == [] && q == [] ==> z
  {
    match (ArrayToNumber(p), ArrayToNumber(q))
    case (Num(x), Num(y)) => x - y == 0
    case _ => false
  }

  /** On one-element arrays the subtraction test is equality of the labels. */
  lemma DifferenceOfSingletons(p: nat, q: nat)
    ensures DifferenceIsZero([p], [q]) <==> p == q
  {
  }

  /** With more than one sample the test never succeeds. */
  lemma DifferenceOfWideArrays(p: seq<nat>, q: seq<nat>)
    requires |p| >= 2 || |q| >= 2
    ensures !DifferenceIsZero(p, q)
  {
  }

  /** A value a JavaScript expression over labels can take here. */
  datatype JsValue = Number(n: JsNumber) | Null

  /** ToBoolean: 0, NaN and `null` are falsy, every other number is truthy. */
  predicate Truthy(v: JsValue)
  {
    match v
    case Number(Num(x)) => x != 0
    case Number(NaN) => false
    case Null => false
  }

  /** `a || b`: `a` when it is truthy, `b` otherwise. */
  function Or(a: JsValue, b: JsValue): JsValue
  {
    if Truthy(a) then a else b
  }

  /** A stored prediction, `number | null`, read back as an optional label. */
  function AsLabel(v: JsValue): Option<nat>
  {
    match v
    case Number(Num(x)) => if 0 <= x then Some(x) else None
    case _ => None
  }

  /** `n || null` on a label: 0 is falsy, so it becomes `null`; any other
      label is kept. */
  function OrNull(n: nat): (r: Option<nat>)
    ensures r == None <==> n == 0
    ensures r.Some? ==> r.value == n
  {
    AsLabel(Or(Number(Num(n)), Null))
  }

  /** The status and the prediction a judgment publishes. */
  datatype Verdict = Verdict(status: Status, prediction: Option<nat>)

  /** Success exactly when the labels agree, reporting the label; otherwise
      failure, reporting the predicted label unless it is 0, which is reported
      as `null`. */
  function Judge(truth: nat, predicted: nat): (v: Verdict)
    ensures v.status == RecognitionSuccess <==> predicted == truth
    ensures v.status == RecognitionFailed <==> predicted != truth
    ensures v.prediction == None <==> predicted != truth && predicted == 0
    ensures v.prediction.Some? ==> v.prediction.value == predicted
  {
    DifferenceOfSingletons(predicted, truth);
    if DifferenceIsZero([predicted], [truth]) then Verdict(RecognitionSuccess, Some(predicted))
    else Verdict(RecognitionFailed, OrNull(predicted))
  }

  /** The quirk of `|| null`: a wrong prediction of 0 is not reported, while a
      right prediction of 0 is. */
  lemma ZeroReportedOnlyWhenRight(truth: nat)
    ensures Judge(0, 0).prediction == Some(0)
    ensures truth != 0 ==> Judge(truth, 0) == Verdict(RecognitionFailed, None)
  {
  }
}
