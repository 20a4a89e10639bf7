/** The training loop of `train`: a fixed number of iterations, each taking a
    batch of fixed size from the dataset, reshaping its images to the
    network's input layout and fitting the model on it once. The fit itself
    is recorded, not computed. The size requested from the dataset is not
    recorded: a batch counts as one of 64 samples only through the reshape to
    `[64, 28, 28, 1]` and the fit's batch size. */
module Training {
  import opened Shapes
  import Raster

  const BatchSize: nat := 64
  const TrainBatches: nat := 150

  /** Input layout of the network for a training batch: `[64, 28, 28, 1]`. */
  function TrainInputDims(): seq<nat>
  {
    [BatchSize, Raster.Height, Raster.Width, 1]
  }

  /** What the dataset hands out: images, one flat row of 784 values per
      sample, and one-hot labels. */
  datatype Batch = Batch(xs: Tensor, labels: Tensor)

  /** One call of `model.fit(xs, labels, {batchSize, epochs})`. */
  datatype FitCall = FitCall(xs: Tensor, labels: Tensor, batchSize: nat, epochs: nat)

  /** How a run of the loop ended: every iteration done, or stopped by the
      exception a failed reshape throws at iteration `failedAt`. The fits that
      happened before are kept either way. */
  datatype TrainOutcome =
    | Completed(fits: seq<FitCall>)
    | Aborted(failedAt: nat, fits: seq<FitCall>)

  /** The batch can be reshaped to `[64, 28, 28, 1]`. */
  predicate Reshapeable(b: Batch)
  {
    Reshape(b.xs, AllFixed(TrainInputDims())).Ok?
  }

  /** `fit` is the one-epoch fit on batch `b`: the batch's values in the input
      layout, its labels as given, batch size 64. */
  predicate FitsBatch(fit: FitCall, b: Batch)
  {
    && fit.xs.shape == TrainInputDims()
    && fit.xs.values == b.xs.values
    && fit.labels == b.labels
    && fit.batchSize == BatchSize
    && fit.epochs == 1
  }

  /** The reshape succeeds exactly when the batch holds `64 * 784` values,
      which is the element count of `[64, 28, 28, 1]`. */
  lemma ReshapeableIffFull(b: Batch)
    ensures Product(TrainInputDims()) == BatchSize * Raster.Pixels
    ensures Reshapeable(b) <==> |b.xs.values| == BatchSize * Raster.Pixels
  {
    ProductCons(BatchSize, [28, 28, 1]);
    ProductCons(28, [28, 1]);
    ProductCons(28, [1]);
    ProductCons(1, []);
    ReshapeToFixed(b.xs, TrainInputDims());
  }

  /** The first `n` iterations, batch `i` being `next(i)`: stops at the first
      batch that cannot be reshaped. */
  function Iterations(next: nat -> Batch, n: nat): (o: TrainOutcome)
    ensures o.Completed? <==> forall i :: 0 <= i < n ==> Reshapeable(next(i))
    ensures o.Completed? ==> |o.fits| == n
    ensures o.Aborted? ==> o.failedAt < n && |o.fits| == o.failedAt && !Reshapeable(next(o.failedAt))
    ensures forall i :: 0 <= i < |o.fits| ==> Reshapeable(next(i)) && FitsBatch(o.fits[i], next(i))
  {
    if n == 0 then Completed([])
    else
      match Iterations(next, n - 1)
      case Aborted(at, fits) => Aborted(at, fits)
      case Completed(fits) =>
        var batch := next(n - 1);
        match Reshape(batch.xs, AllFixed(TrainInputDims()))
        case Err(_) => Aborted(n - 1, fits)
        case Ok(xs) =>
          ReshapeToFixed(batch.xs, TrainInputDims());
          Completed(fits + [FitCall(xs, batch.labels, BatchSize, 1)])
  }

  /** `train`: all 150 iterations. */
  function Train(next: nat -> Batch): (o: TrainOutcome)
    ensures o.Completed? <==> forall i :: 0 <= i < TrainBatches ==> Reshapeable(next(i))
    ensures o.Completed? ==> |o.fits| == TrainBatches
    ensures o.Completed? ==> forall i :: 0 <= i < TrainBatches ==> FitsBatch(o.fits[i], next(i))
  {
    Iterations(next, TrainBatches)
  }

  /** A dataset that always hands out full batches lets training run all 150
      iterations, each fitting on its own batch in order. */
  lemma TrainCompletesOnFullBatches(next: nat -> Batch)
    requires forall i :: 0 <= i < TrainBatches ==> |next(i).xs.values| == BatchSize * Raster.Pixels
    ensures Train(next).Completed?
    ensures |Train(next).fits| == TrainBatches
  {
    forall i | 0 <= i < TrainBatches
      ensures Reshapeable(next(i))
    {
      ReshapeableIffFull(next(i));
    }
  }
}
