/** The demonstrator's session: the start button runs training once, and the
    predict button works only after training has published its dataset
    handle. A refused prediction leaves the session as it was; an aborted
    training run changes only the status, to "training started...". */
module Session {
  import opened Results
  import opened Logs
  import opened Shapes
  import Uint8Clamp
  import Raster
  import Training
  import Judgement

  /** Whether training has published its dataset handle (`trainedData`). */
  datatype Phase = Untrained | Trained

  datatype Session = Session(
    logs: Status,
    phase: Phase,
    prediction: Option<nat>,
    canvas: Option<seq<Uint8Clamp.byte>>)

  const Initial: Session := Session(TrainingRequired, Untrained, None, None)

  /** Network input layout for a prediction: `[-1, 28, 28, 1]`. */
  function PredictInputSpec(): seq<Dim>
  {
    [Inferred] + AllFixed([Raster.Height, Raster.Width, 1])
  }

  /** The images of a batch form a rank-2 tensor, one row per sample. */
  predicate WellFormedBatch(b: Training.Batch)
  {
    |b.xs.shape| == 2 && Valid(b.xs)
  }

  /** A test batch as the dataset delivers it. */
  type TestBatch = b: Training.Batch | WellFormedBatch(b)
    witness Training.Batch(Tensor([0, 784], []), Tensor([0, 10], []))

  /** The start button: enabled only while the status reads "training
      required!"; the data handle is published only when all iterations
      finished. An aborted run leaves the status at "training started...". */
  function StartTraining(s: Session, next: nat -> Training.Batch): (t: Session)
    ensures s.logs != TrainingRequired ==> t == s
    ensures s.logs == TrainingRequired ==> t.logs != TrainingRequired
    ensures t.phase == Trained <==>
      s.phase == Trained || (s.logs == TrainingRequired && Training.Train(next).Completed?)
    ensures t.prediction == s.prediction && t.canvas == s.canvas
  {
    if s.logs != TrainingRequired then s
    else
      match Training.Train(next)
      case Completed(_) => s.(logs := TrainingComplete, phase := Trained)
      case Aborted(_, _) => s.(logs := TrainingStarted)
  }

  /** The predict button on a test batch whose label and prediction (the
      `argMax` indices) are `truth` and `predicted`. Refused before training;
      refused when the images cannot be reshaped to `[-1, 28, 28, 1]` or have
      no first row; otherwise draws row 0 and publishes the judgment. */
  function Predict(s: Session, batch: TestBatch, truth: nat, predicted: nat): (r: Result<Session>)
    ensures s.phase == Untrained ==> r == Err(InvalidState)
    ensures s.phase == Trained ==>
      (r.Ok? <==> |batch.xs.values| % Raster.Pixels == 0 && 1 <= batch.xs.shape[0])
    ensures r.Ok? ==> batch.xs.shape[1] <= |batch.xs.values|
    ensures r.Ok? ==> var t := r.value;
      && t.phase == Trained
      && t.canvas == Some(Raster.Draw(batch.xs.values[..batch.xs.shape[1]]))
      && t.logs == Judgement.Judge(truth, predicted).status
      && t.prediction == Judgement.Judge(truth, predicted).prediction
  {
    if s.phase == Untrained then Err(InvalidState)
    else
      ReshapeInferLeading(batch.xs, [Raster.Height, Raster.Width, 1]);
      ProductCons(28, [28, 1]);
      ProductCons(28, [1]);
      ProductCons(1, []);
      match Reshape(batch.xs, PredictInputSpec())
      case Err(e) => Err(e)
      case Ok(_) =>
        match SliceRows(batch.xs, 0, 1)
        case Err(e) => Err(e)
        case Ok(row) =>
          FirstRowFlattened(batch.xs);
          var image := Flatten(row);
          var v := Judgement.Judge(truth, predicted);
          Ok(s.(logs := v.status, prediction := v.prediction, canvas := Some(Raster.Draw(image.values))))
  }

  /** A user action: a click on the start button, with the batches the
      dataset will hand out, or a click on the predict button, with the test
      batch and the two labels. */
  datatype Event =
    | ClickTrain(next: nat -> Training.Batch)
    | ClickPredict(batch: TestBatch, truth: nat, predicted: nat)

  /** The session after one click. */
  function Step(s: Session, e: Event): (t: Session)
    ensures e.ClickTrain? && s.logs != TrainingRequired ==> t == s
    ensures e.ClickTrain? ==> t.prediction == s.prediction && t.canvas == s.canvas
    ensures e.ClickPredict? ==> t.phase == s.phase
    ensures e.ClickPredict? && s.phase == Untrained ==> t == s
    ensures e.ClickPredict? && t != s ==> t.logs == RecognitionSuccess || t.logs == RecognitionFailed
  {
    match e
    case ClickTrain(next) => StartTraining(s, next)
    case ClickPredict(batch, truth, predicted) =>
      match Predict(s, batch, truth, predicted)
      case Ok(t) => t
      case Err(_) => s
  }

  /** The session after the clicks `es`, in order. */
  function Run(s: Session, es: seq<Event>): Session
    decreases |es|
  {
    if es == [] then s else Run(Step(s, es[0]), es[1..])
  }

  /** What every reachable session satisfies: before training nothing has
      been predicted or drawn and the status is one training can leave; after
      training the start button stays disabled. */
  predicate Consistent(s: Session)
  {
    && (s.phase == Untrained ==>
          && s.prediction == None && s.canvas == None
          && (s.logs == TrainingRequired || s.logs == TrainingStarted))
    && (s.phase == Trained ==> s.logs != TrainingRequired && s.logs != TrainingStarted)
  }

  lemma StepKeepsConsistent(s: Session, e: Event)
    requires Consistent(s)
    ensures Consistent(Step(s, e))
  {
    if e.ClickPredict? {
      var r := Predict(s, e.batch, e.truth, e.predicted);
      if r.Ok? {
        assert r.value.logs == RecognitionSuccess || r.value.logs == RecognitionFailed;
      }
    }
  }

  /** Every session reachable from the initial one is consistent. */
  lemma {:induction false} RunKeepsConsistent(s: Session, es: seq<Event>)
    requires Consistent(s)
    ensures Consistent(Run(s, es))
    decreases |es|
  {
    if es != [] {
      StepKeepsConsistent(s, es[0]);
      RunKeepsConsistent(Step(s, es[0]), es[1..]);
    }
  }

  /** Once the start button has been used the status never again reads
      "training required!", so training runs at most once. */
  lemma {:induction false} TrainingRunsAtMostOnce(s: Session, es: seq<Event>)
    requires s.logs != TrainingRequired
    ensures Run(s, es).logs != TrainingRequired
    ensures forall next: nat -> Training.Batch :: StartTraining(Run(s, es), next) == Run(s, es)
    decreases |es|
  {
    if es != [] {
      TrainingRunsAtMostOnce(Step(s, es[0]), es[1..]);
    }
  }

  /** The trained state is never lost. */
  lemma {:induction false} TrainedIsPermanent(s: Session, es: seq<Event>)
    requires s.phase == Trained
    ensures Run(s, es).phase == Trained
    decreases |es|
  {
    if es != [] {
      TrainedIsPermanent(Step(s, es[0]), es[1..]);
    }
  }

  /** A session is trained only if some click on the start button ran all
      iterations to completion. */
  lemma {:induction false} TrainedOnlyAfterCompletedRun(s: Session, es: seq<Event>)
    requires s.phase == Untrained
    requires Run(s, es).phase == Trained
    ensures exists i :: 0 <= i < |es| && es[i].ClickTrain? && Training.Train(es[i].next).Completed?
    decreases |es|
  {
    assert es != [];
    var t := Step(s, es[0]);
    if t.phase == Trained {
      assert es[0].ClickTrain?;
    } else {
      TrainedOnlyAfterCompletedRun(t, es[1..]);
      var i :| 0 <= i < |es[1..]| && es[1..][i].ClickTrain? && Training.Train(es[1..][i].next).Completed?;
      assert es[i + 1] == es[1..][i];
    }
  }

  /** Predicting before training is refused, whatever the batch. */
  lemma PredictBeforeTrainingRefused(batch: TestBatch, truth: nat, predicted: nat)
    ensures Predict(Initial, batch, truth, predicted) == Err(InvalidState)
  {
  }
}
