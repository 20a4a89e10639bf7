# Handwritten-digit demonstrator: the checkable core

The demonstrator trains a small convolutional network on handwritten digits.
Then, on request, it predicts the digit of one test sample, judges the
prediction against the sample's label, and draws the sample on a canvas.
The network itself is built, trained and evaluated by TensorFlow.js, which is
not part of this model. What is modelled is the logic of `src/App.tsx` around
those library calls:

- **Pixel expansion (`draw`)** — module `Raster`. The 784 gray intensities of
  an image become the 3136-byte RGBA buffer of a 28x28 `ImageData`. The loop
  is modelled as the log of its stores (`DrawWrites`), applied in order to a
  zero-filled buffer (`Apply`, `Blank`). The result is proved equal to a
  reference layout (`ExpectedByte`): byte `k` is channel `k % 4` of pixel
  `k / 4`.
- **The byte conversion** — module `Uint8Clamp`. Storing `data[i] * 255`
  into a `Uint8ClampedArray` applies ToUint8Clamp, section 7.1.12 of
  ECMA-262: clamp to [0, 255] and round half to even. Intensities are exact
  `real`s. A float32 intensity times 255 is exact in a double, so the only
  floating-point behaviour not covered is NaN and infinity.
- **Shape bookkeeping** — module `Shapes`. It covers `reshape` (including an
  inferred `-1` extent), the row slice `slice([0, 0], [1, w])` and `flatten`
  on row-major tensors. These follow TensorFlow.js's documented contract.
- **Training loop (`train`)** — module `Training`. There are 150 iterations
  of batches of 64. Each batch is reshaped to `[64, 28, 28, 1]` and fitted
  once. The first batch that cannot be reshaped stops the loop.
- **Judgment (`predict`)** — module `Judgement`. The test
  `prediction_value - input_value === 0` works on one-element arrays and is
  modelled with JavaScript's ToNumber of arrays. The failure branch's
  `prediction_value[0] || null` reports a predicted 0 as `null`.
- **Session** — modules `Session` and `Logs`. The status line, the published
  dataset handle (`trainedData`), the reported prediction and the canvas
  form a state machine driven by the two buttons. A refused prediction
  leaves the session as it was. An aborted training run changes only the
  status, to "training started...".

In three places the code behaves differently from what a reader might expect, and the model follows the code:

- `draw` given fewer than 784 values reads `undefined`. The store then gets
  NaN and writes 0, so the missing pixels are black; this is not a refused
  input (`Raster.Gray`).
- A prediction before training does not raise a dedicated error. It fails
  when `trainedData`, still undefined, is dereferenced. The model reports
  `InvalidState`.
- A failed training run leaves the status at "training started...". The
  start button stays disabled, so training can never be retried.

## Model

| member | source | states |
|---|---|---|
| Uint8Clamp.ToUint8Clamp | src/App.tsx:140-142 | non-positive values store 0, values of 255 or more store 255, anything in between stores the integer nearest to it, ties going to the even one |
| Uint8Clamp.ToByte | src/App.tsx:140-142 | intensity 0 or less stores 0, intensity 1 or more stores 255, and in between the store is `v * 255` rounded half to even |
| Uint8Clamp.ToUint8ClampIsRounding | src/App.tsx:140-142 | inside [0, 255] the clamped store agrees with every integer that rounds the value half to even |
| Uint8Clamp.ToUint8ClampMonotone | src/App.tsx:140-142 | a brighter intensity never stores a smaller byte |
| Raster.Gray | src/App.tsx:140-142 | a pixel present in the input stores the converted intensity; reading past the end gives `undefined`, the product is NaN, and the store is 0 |
| Raster.DrawWrites | src/App.tsx:138-144 | the first n iterations perform 4n stores; store k goes to byte k and carries that byte's reference value (gray for channels 0-2 of pixel k/4, 255 for channel 3) |
| Raster.DrawWritesPrefix | src/App.tsx:138 | iterations run in order: the stores of the first m iterations are a prefix of those of the first n |
| Raster.PixelWritesInPlace | src/App.tsx:139-143 | pixel i's four stores are exactly the ones at positions 4i..4i+3 of the full run |
| Raster.DrawWritesCoverBufferOnce | src/App.tsx:136-144 | the 784 iterations store to every one of the 3136 bytes exactly once and to no index outside the buffer |
| Raster.ApplyInOrder | src/App.tsx:140-143 | stores to indices 0, 1, 2, ... leave store p's value at byte p and the rest of the buffer untouched |
| Raster.Draw | src/App.tsx:131-146 | the buffer has 3136 bytes and byte k is channel k % 4 of pixel k / 4: gray for red, green and blue, 255 for alpha |
| Raster.DrawPixel | src/App.tsx:139-143 | pixel i occupies bytes 4i..4i+3 as gray, gray, gray, 255 |
| Raster.DrawAlphaOpaque | src/App.tsx:143 | every alpha byte is 255 whatever the input |
| Raster.DrawGrayscale | src/App.tsx:140-142 | red, green and blue of pixel i all equal the converted value of `data[i]` |
| Raster.DrawAllZero | src/App.tsx:140-142 | an all-zero image draws every colour byte as 0 |
| Raster.DrawAllOne | src/App.tsx:140-142 | an all-one image of at least 784 values draws every colour byte as 255 |
| Raster.DrawReadsOnlyPrefix | src/App.tsx:137-138 | inputs that agree on their first 784 values give byte-identical buffers |
| Raster.DrawIgnoresTail | src/App.tsx:137-138 | values past index 783 do not change the buffer |
| Shapes.InferShape | src/App.tsx:114 | a resolved shape is an instance of the request and has as many elements as the tensor; two `-1` entries are refused |
| Shapes.InferShapeComplete | src/App.tsx:114 | whenever exactly one instance of the request fits the tensor's size, it is the one resolved |
| Shapes.Reshape | src/App.tsx:92 | a reshape keeps the values in order and succeeds exactly when a fitting shape is resolved |
| Shapes.ReshapeToFixed | src/App.tsx:92 | a reshape to fixed extents succeeds exactly when their product equals the tensor's size, and yields those extents |
| Shapes.ReshapeInferLeading | src/App.tsx:114 | a reshape to `[-1] + dims` succeeds exactly when the size is a multiple of the (non-zero) product of dims, and the leading extent is the quotient |
| Shapes.ReshapeRoundTrip | src/App.tsx:92 | reshaping `[b, 784]` to `[b, 28, 28, 1]` loses nothing: flattening gives back the values and reshaping back gives back the tensor |
| Shapes.SliceRows | src/App.tsx:116 | a row slice succeeds exactly when the rows exist, has shape `[count, w]`, and holds those rows' values in order |
| Shapes.Flatten | src/App.tsx:118 | flattening keeps the values and gives a valid rank-1 tensor |
| Shapes.FirstRowFlattened | src/App.tsx:116-118 | the image handed to `draw` is the first `shape[1]` values of the batch, in order |
| Training.ReshapeableIffFull | src/App.tsx:83-92 | `[64, 28, 28, 1]` has 64 * 784 elements, and a batch can be reshaped to it exactly when it holds that many values |
| Training.Iterations | src/App.tsx:88-104 | the loop completes n iterations exactly when every batch can be reshaped; otherwise it stops at the first that cannot; every fit done uses its own batch in the `[64, 28, 28, 1]` layout, with batch size 64 and one epoch |
| Training.Train | src/App.tsx:83-104 | training completes exactly when all 150 batches can be reshaped, and then performed exactly 150 fits, fit i on batch i |
| Training.TrainCompletesOnFullBatches | src/App.tsx:88-104 | when every batch holds 64 * 784 values, training performs all 150 fits |
| Judgement.DifferenceIsZero | src/App.tsx:120 | the subtraction test on label arrays succeeds only when neither array has more than one element; on one-element arrays it is label equality; two empty arrays pass |
| Judgement.DifferenceOfSingletons | src/App.tsx:120 | on one-element label arrays the subtraction test is equality of the labels |
| Judgement.DifferenceOfWideArrays | src/App.tsx:120 | on arrays of two or more labels the subtraction test never succeeds |
| Judgement.OrNull | src/App.tsx:125 | computed with JavaScript truthiness (0, NaN and null are falsy): the fallback to null yields null exactly for the label 0 and keeps every other label |
| Judgement.Judge | src/App.tsx:120-127 | status is success exactly when the labels agree, failure otherwise; the prediction is reported as the predicted label except that a wrong prediction of 0 is reported as null |
| Judgement.ZeroReportedOnlyWhenRight | src/App.tsx:121-125 | a right prediction of 0 is reported, a wrong prediction of 0 is not |
| Logs.TextInjective | src/App.tsx:20-126 | the status texts set at lines 20, 87, 108, 123 and 126 are pairwise distinct, so comparing texts is comparing statuses |
| Session.StartTraining | src/App.tsx:106-108 | the start button acts only while the status reads "training required!" and never leaves it there; the session becomes trained exactly when all iterations completed; predictions and canvas are untouched |
| Session.Predict | src/App.tsx:111-128 | refused before training; after training it succeeds exactly when the images reshape to `[-1, 28, 28, 1]` and have a first row, and then draws that row and publishes the judgment |
| Session.Step | src/App.tsx:148-157 | a start click does nothing unless the status reads "training required!" and never touches prediction or canvas; a predict click never changes the phase, does nothing before training, and otherwise either changes nothing (refused) or leaves a recognition status |
| Session.StepKeepsConsistent | src/App.tsx:148-157 | a click keeps the session consistent: nothing predicted or drawn before training, start button disabled after it |
| Session.RunKeepsConsistent | src/App.tsx:148-157 | every session reachable by clicks from a consistent one is consistent |
| Session.TrainingRunsAtMostOnce | src/App.tsx:320 | once the start button has been used the status never again reads "training required!" and further clicks on it do nothing |
| Session.TrainedIsPermanent | src/App.tsx:106 | the trained state, once reached, is never lost |
| Session.TrainedOnlyAfterCompletedRun | src/App.tsx:106 | an untrained session becomes trained only through a click whose training ran all iterations |
| Session.PredictBeforeTrainingRefused | src/App.tsx:155 | predicting from the initial session is refused with `InvalidState` |

## Left out

- Model construction (`createModel`) consists only of TensorFlow.js layer and optimizer calls with constant arguments. It has no logic of its own to state.
- Dataset loading (`load`, `MnistData`) is I/O, and the dataset class is not part of this model. The batches it hands out are parameters: a function from iteration number to batch for training, and one test batch per prediction.
- The numerics of `fit`, `predict` and `argMax` are left out. Fits are recorded as calls, not computed. The ground-truth and predicted labels are inputs.
- `tf.tidy`, `tf.dispose` and `tf.nextFrame`, and the async/await scheduling, are resource management and cooperative yielding inside the library. Each handler is modelled as one atomic step. So a prediction clicked while training is in flight is a prediction on an untrained session, and it is refused as the code refuses it.
- Canvas and DOM calls and all JSX (layout, status colour, whether the prediction box is shown) are presentation. The one exception is the start button's `disabled` guard, which is part of the session machine.
- The intermediate status messages a handler overwrites before it returns (such as "creating model...") are not modelled.
- NaN and infinite intensities are not modelled, since intensities are exact reals. A missing value (`undefined`) is modelled through `Raster.Gray`.
- A `fit` that throws (for example, on labels that do not match the batch) is not modelled. Only the reshape can abort the training loop here.
- Session.Predict: the images of a test batch are assumed to be a rank-2 tensor whose values match its shape (`TestBatch`), as the dataset delivers them; other ranks are not modelled.
- Session.Predict: takes one ground-truth label and one predicted label, as for a batch of one sample. If a test batch's images reshaped to several samples, the code would subtract wider arrays; that test never succeeds (`Judgement.DifferenceOfWideArrays`), but `Predict` does not model it.
