# digit_recognition in Dafny

This project models the core of `digit_recognition`, a small Rust program. The
program classifies 28x28 pictures of handwritten digits with a two-layer
neural network, and it can train that network on an MNIST-style pair of files.
The model covers these parts:

- **Values** (`data.rs`): the image value types and the builder, which panics
  when the pixel count does not match the area.
- **Generic record reader** (`io_ext.rs`): `read_data`, plus the `DataIter`
  iterator. The iterator makes one decode per pull. When its predicate rejects
  a result it reports the end (`None`), and it keeps no finished flag.
- **Live dataset loader** (`training_data.rs`):
  - it checks the header of each stream;
  - its records are an image (big-endian width and height, then width*height
    pixel bytes) and a one-byte label;
  - its iterator pairs the two streams under a `read` counter.
- **Legacy loader** (`training.rs`): a builder that reads both headers and an
  iterator that counts every read attempt. It surfaces failed reads as errors.
- **Network** (`network.rs`), in shape only:
  - layer construction;
  - the forward pass `compute_ex`, with the activations and derivatives it
    records (the layer at index 1 is not squashed);
  - `train`, whose parameter update is commented out, so it leaves the
    network unchanged.
- **Driver** (`lib.rs`):
  - the fold that turns the network output into a digit and a chance;
  - the one-hot target;
  - the training loop. It takes at most 10000 samples and keeps a histogram
    of the digits it trained on.

A few modelling choices apply throughout:

- A `Stream` stands in for `std::io::Read`: a byte sequence with a cursor. A
  short read fails with `UnexpectedEof` and leaves the cursor at the end.
- A panic is `Outcome.Panicked(message)`.
- Numbers in the network are `real`s. The floating-point primitives (`exp`,
  `log2`) and the random draws are parameters.

The file format, as the code reads it, is close to MNIST's IDX format but not
the same:

- Both streams start with the magic `0x00000801`. The IDX image magic
  `0x00000803` is not used.
- Every image record carries its own big-endian width and height before its
  pixels. The header holds only the magic and the item count.
- The live loader reads the image magic and image count, then the label magic
  and label count. The legacy loader reads the image magic, the label magic,
  the image count and then the label count.
- `MagicNotFound` carries the value found and the stream kind.

Modules:

| module | what it holds |
|---|---|
| `Results` | `Option`, `Result` and `Outcome` |
| `Bytes` | bytes, `u32`, big-endian codec, streams and reads |
| `Iteration` | generic facts about repeated `next` calls |
| `Data`, `IoExt`, `TrainingData`, `Training`, `Network`, `Launch` | one source file each |

## Model

| member | source | states |
|---|---|---|
| Bytes.ReadExact | src/training_data.rs:234-235 | `read_exact` succeeds iff at least `n` bytes remain, returns exactly those bytes and moves past them; a short read fails with `UnexpectedEof` and leaves nothing to read |
| Bytes.ReadBeU32 | src/training_data.rs:230-231 | a `u32` read succeeds iff four bytes remain; the value's big-endian encoding is those bytes; the stream moves on by four |
| Bytes.ReadU8 | src/training_data.rs:260 | a `u8` read succeeds iff a byte remains and yields that byte |
| Bytes.BeU32OfEncode | src/training_data.rs:189 | decoding the big-endian bytes of any `u32` gives it back |
| Bytes.EncodeOfBeU32 | src/training_data.rs:189 | encoding the value of any four bytes gives those bytes back |
| Bytes.BeU32Injective | src/training_data.rs:189 | two four-byte sequences have the same big-endian value iff they are equal |
| Bytes.ReadBeU32Encoded | src/training_data.rs:299 | reading a `u32` from a stream that starts with the encoding of `n` yields `n` and leaves the rest |
| Data.ImageSize.Area | src/data.rs:17-19 | the area is zero iff a side is zero, and no smaller than either non-zero side |
| Data.Square | src/data.rs:10-15 | a square size has both sides equal to the dimension and area d*d |
| Data.Builder | src/data.rs:29-34 | a new builder has a zero-area size and no pixels |
| Data.WithSize | src/data.rs:47-50 | `with_size` replaces the size and keeps the pixels |
| Data.WithPixelsRowMajor | src/data.rs:52-55 | `with_pixels_row_major` replaces the pixels and keeps the size |
| Data.Build | src/data.rs:57-66 | `build` returns iff the pixel count equals the area, with exactly the builder's size and pixels; otherwise it panics with "incorrect image data size" |
| Data.Pixels | src/data.rs:36-38 | the pixels of a valid image number exactly its area |
| Data.EmptyBuild | src/data.rs:29-66 | building an untouched builder gives the empty 0x0 image |
| Data.BuildRoundTrip | src/data.rs:46-66 | every valid image is rebuilt from its own size and pixels, whichever setter comes first |
| Data.LastSetterWins | src/data.rs:46-55 | a second call to a setter overrides the first, and the two setters commute |
| IoExt.ReadData | src/io_ext.rs:17-21 | `read_data` is one decode on the same source, which only moves forward |
| IoExt.Next | src/io_ext.rs:36-44 | one pull makes exactly one decode and the stream moves on whatever the outcome; the item is `None` iff the predicate rejects the decode result, otherwise it is that result |
| IoExt.DataIntoIter | src/io_ext.rs:59-75 | `data_iter` builds an iterator over the given source and decoder whose predicate (`stop_on_io_error`) accepts exactly the successful results |
| IoExt.SimpleSwallowsErrors | src/io_ext.rs:36-50 | a simple iterator yields `None` iff the decode failed, never yields an error, and stays simple |
| IoExt.NextIsOneReadData | src/io_ext.rs:36-37 | the stream after a pull is the stream after one `read_data` |
| IoExt.NextOnRecord | src/io_ext.rs:36-43 | a pull on a stream starting with an encoded record yields that record and leaves the stream just past it |
| IoExt.YieldStep | src/io_ext.rs:36-43 | a pull over the encodings of a list yields the first record and leaves the encodings of the rest |
| IoExt.YieldsAllThenNone | src/training_data.rs:119-149 | a simple iterator over exactly the encodings of a list yields those records in order, then `None` |
| IoExt.NextAtEnd | src/io_ext.rs:36-50 | at end of input a simple iterator yields `None` |
| IoExt.NoneIsNotFinal | src/io_ext.rs:36-43 | there is no finished flag: a record still in the stream after a `None` is delivered by the next pull |
| TrainingData.MagicValue | src/training_data.rs:187-189 | the magic is 0x00000801 and its big-endian bytes are 00 00 08 01 |
| TrainingData.ReadImage | src/training_data.rs:226-242 | an image read succeeds iff a whole record (8-byte header, width*height pixels) remains; it yields a valid image whose size and pixels are those bytes and consumes exactly the record; otherwise `UnexpectedEof` with nothing left |
| TrainingData.ReadLabel | src/training_data.rs:256-263 | a label read succeeds iff a byte remains, and the digit is that byte |
| TrainingData.ReadImageEncoded | src/training_data.rs:229-241 | reading an encoded valid image yields it back and consumes exactly its encoding |
| TrainingData.ImageRecords | src/training_data.rs:226-242 | the image decoder reads forward, is framed by the image encoding, and fails at end of input |
| TrainingData.LabelRecords | src/training_data.rs:256-263 | the label decoder reads forward, is framed by the one-byte encoding, and fails at end of input |
| TrainingData.VerifyMagic | src/training_data.rs:279-289 | the magic check succeeds iff the next four bytes are the magic; a short stream is `UnexpectedEof`; other bytes give `MagicNotFound` with their value and the stream kind |
| TrainingData.ReadHeader | src/training_data.rs:297-299 | a header is read iff eight bytes remain and start with the magic; the count is the next four bytes; the errors are those of the magic check, else `UnexpectedEof` |
| TrainingData.ImageSetFrom | src/training_data.rs:296-305 | the image set exists iff its header reads; it carries the count and a simple iterator over the rest of the stream |
| TrainingData.LabelSetFrom | src/training_data.rs:313-322 | the label set exists iff its header reads; it carries the count and a simple iterator over the rest of the stream |
| TrainingData.New | src/training_data.rs:331-337 | a new dataset has read nothing and its length is the image count |
| TrainingData.FromReaders | src/training_data.rs:339-351 | image header errors come first, then label header errors; unequal counts give `InvalidLabelCount(images, labels)`; otherwise a valid dataset with `read` 0 over the streams just past both headers |
| TrainingData.Next | src/training_data.rs:361-380 | at or past the length `next` is `None` and changes nothing; only a yielded pair advances `read` by one; the counts never change |
| TrainingData.NextKeepsValid | src/training_data.rs:361-376 | `next` keeps a dataset valid and never yields an error, so both `Some(Err)` arms are dead |
| TrainingData.LabelsUnreadOnImageFailure | src/training_data.rs:339-341 | when the image header fails, the result does not depend on the label stream |
| TrainingData.FromReadersByBytes | src/training_data.rs:339-351 | `from_readers` decided on the raw bytes, case by case, in the order the loader reads them |
| TrainingData.ShortImageStreamEndsSilently | src/training_data.rs:362-367 | a truncated image ends the iteration with `None` even though `read` is still below the length, and the label stream is untouched |
| TrainingData.ImageLostOnShortLabelStream | src/training_data.rs:363-373 | an image read just before a failed label read is consumed and lost, and `read` stays put |
| TrainingData.PullsKeepValid | src/training_data.rs:361-380 | any number of pulls keeps a dataset valid |
| TrainingData.NextOnPair | src/training_data.rs:361-376 | a pull on streams starting with an encoded image and label yields that pair, advances `read` and moves both streams past them |
| TrainingData.NextOnEncodedPairs | src/training_data.rs:361-376 | the head of the outstanding records is delivered and the tail stays outstanding |
| TrainingData.PullsDeliverPairs | src/training_data.rs:361-380 | from streams holding the outstanding records, the dataset yields exactly those pairs in order, then `None`, and `read` reaches the length |
| TrainingData.OpenEncodedFiles | src/training_data.rs:339-351 | encoded files with equal counts load into a fresh dataset of that length over exactly the encoded records |
| TrainingData.RoundTrip | src/training_data.rs:151-167 | encoding n images and n labels and loading them yields those n pairs in order and then `None` |
| Training.MagicValue | src/training.rs:161-163 | the legacy magic is also 0x00000801 |
| Training.ReadImage | src/training.rs:209-222 | an image read succeeds iff a whole record remains; its width, height and pixels are those bytes and it consumes exactly the record; otherwise `UnexpectedEof` with nothing left |
| Training.ReadLabel | src/training.rs:232-234 | a label read succeeds iff a byte remains, and the digit is that byte |
| Training.ReadSample | src/training.rs:251-257 | a sample read reads the image first; the label stream is touched only if the image read succeeds; the sample is that image with that label |
| Training.Next | src/training.rs:279-289 | `next` is `None` iff `samples_read` equals `sample_count`; otherwise it makes one sample read and counts it, whether or not it succeeded |
| Training.NextCountsDown | src/training.rs:279-289 | each pull uses up one of the samples left until `None` |
| Training.ExactlyCountItems | src/training.rs:279-289 | exactly `sample_count - samples_read` items come before the first `None`, whatever the streams hold |
| Training.ErrorsAreCounted | src/training.rs:283-287 | a failed image read surfaces as `Some(Err(IO(UnexpectedEof)))`, still advances the counter and leaves the label stream untouched |
| Training.WithImages | src/training.rs:298-301 | `with_images` sets the image source and keeps the label source |
| Training.WithLabels | src/training.rs:303-306 | `with_labels` sets the label source and keeps the image source |
| Training.Build | src/training.rs:308-311 | `build` panics if the images are unset, then if the labels are unset; otherwise it reads the headers |
| Training.BuildFrom | src/training.rs:312-342 | header reading in source order: image magic, label magic, image count, label count; each short read is `UnexpectedEof`, each wrong magic is `MagicNotFound`, unequal counts are `InvalidLabelCount`, equal counts give a fresh dataset just past both headers |
| Training.MagicCheck | src/training.rs:312-324 | a four-byte value equals the magic iff the bytes are 00 00 08 01 |
| Training.ReadImageEncoded | src/training.rs:209-222 | reading an encoded well-formed image yields it back and consumes exactly its encoding |
| Training.NextOnSample | src/training.rs:279-289 | a pull on streams starting with an encoded sample yields it and moves both streams past it |
| Training.DeliverStep | src/training.rs:279-289 | from streams holding the outstanding samples, the next pull delivers the first and leaves the rest outstanding |
| Training.NextDeliversHead | src/training.rs:279-289 | that step holds in every state |
| Training.RoundTrip | src/training.rs:119-139 | building from encoded files yields a fresh dataset that delivers exactly the encoded samples in order and then `None` |
| Network.Softmax | src/network.rs:82-90 | softmax keeps the length; a non-empty result sums to 1 and every entry lies in (0, 1] |
| Network.SoftmaxPrime | src/network.rs:92-98 | the softmax derivative keeps the length |
| Network.Normalised | src/network.rs:86-89 | positive entries divided by their sum lie in (0, 1] and sum to 1 |
| Network.CrossEntropyOneHot | src/network.rs:69-80 | against a one-hot target the loss is minus the log of the chosen output |
| Network.NewLayer | src/network.rs:106-131 | a new layer has a dim x prev_dim weight matrix of draws and dim biases, each a bias draw negated when its coin says so |
| Network.NewUntrained | src/network.rs:173-187 | a new network has layers 784 to 20 and 20 to 10 |
| Network.Forward | src/network.rs:206-220 | the layer loop returns iff every remaining layer fits its input, else it hits a dimension assertion; it keeps the recorded activations as a prefix and records an activation and a derivative for every layer but index 1 |
| Network.ComputeEx | src/network.rs:193-228 | an input that is not 784 long panics; otherwise it returns iff the layers are chained, with one activation after the input and one derivative per squashed layer, of that layer's size, a last derivative for the softmax, and a result that is a distribution |
| Network.ComputeOnUntrained | src/network.rs:189-191 | `compute` on a fresh network returns iff the input has 784 entries, and then gives 10 outputs in (0, 1] that sum to 1; any other input panics with the input-length message |
| Network.UntrainedShapes | src/network.rs:193-228 | on a fresh network: activations of lengths 784 and 20, derivatives of lengths 20 and 10, result of length 10 |
| Network.ThirdLayerSquashed | src/network.rs:212-216 | the skip is tied to index 1: a third layer is squashed and recorded |
| Network.AddPrefix | src/network.rs:255-257 | the bias loop adds a bias to each of the first `biases` entries and leaves the rest unchanged |
| Network.Train | src/network.rs:230-279 | `train` panics when `compute_ex` does; if it returns, the network is unchanged and the output gradient is (result - target) * derivatives[1] with the target's length |
| Network.UntrainedTrain | src/network.rs:238-264 | on a fresh network with a 10-entry target: gradients of lengths 20 and 10; the hidden gradient gets an output-layer bias only at its first 10 entries |
| Network.UntrainedTrainTargetMismatch | src/network.rs:242 | on a fresh network a target not 10 long trips the subtraction's length assertion |
| Launch.ArgmaxFold | src/lib.rs:71-82 | the fold keeps negative infinity iff the output is empty, and then reports index 0 |
| Launch.ArgmaxFirstMax | src/lib.rs:71-82 | for up to 256 entries the fold reports the first index of a maximal entry and that entry |
| Launch.Normalize | src/lib.rs:100-105 | the input is the first 784 pixels scaled into [-0.5, 0.5], order-preserving (order-reversing when inverted) |
| Launch.Recognize | src/lib.rs:66-84 | recognition panics below 784 pixels, and otherwise returns iff the network is chained |
| Launch.RecognizeFresh | src/lib.rs:66-84 | on a fresh network the answer is a digit below 10, the first output entry no other exceeds, with a chance in (0, 1] |
| Launch.OneHot | src/lib.rs:109-110 | the target exists iff the digit is below 10; it is 1 at the digit and 0 elsewhere; other digits panic |
| Network.OneHotVector | src/lib.rs:109-110 | a length-n vector with 1 at the digit and 0 elsewhere |
| Launch.TrainOn | src/lib.rs:99-112 | one iteration panics below 784 pixels, then for a digit of 10 or more; a sample that trains has a digit below 10 and leaves the network unchanged |
| Launch.TrainOnFresh | src/lib.rs:99-112 | on a fresh network a sample trains iff it has at least 784 pixels and a digit below 10 |
| Launch.CountingLoop | src/lib.rs:95-121 | the capped loop processes only accepted items; on a normal stop each class count is that class's multiplicity among them, the counts total the processed number, and the stop is the cap, the end or an error; a panic comes from the next item |
| Launch.TrainingLoop | src/lib.rs:95-121 | on a valid dataset: at most 10000 samples, each trained on; `count[d]` is how many had digit d and the counts total the samples; a normal stop is the cap or the end of data (never an error); a panic is the next sample's |

## Left out

- Floating point. Numbers are `real`s, so rounding, NaN and infinities are not modelled. `exp` and `log2` are parameters, and only the positivity of `exp` is used.
- Random initialisation. The weight, bias and sign draws are parameters of `Network.NewLayer`. The normal and Bernoulli distributions, and the order in which draws are taken, are not modelled.
- Persistence. `NeuralNetwork::load` and `save` (JSON files) are not modelled. A loaded network's shapes are therefore unknown; `Network.ComputeEx` decides its panics for any shape.
- I/O effects. Printing (`println!`, `eprintln!`), argument parsing, opening files, and the `?` conversions of `launch`'s own `ErrorKind` are not modelled. The GUI and the canvas widget are not part of this model.
- Short reads. The position after a failed read is unspecified for `std::io::Read`. The model drains the stream, which is what `Cursor` and `File` do at end of input. Errors other than end of input do not exist in the model.
- Allocation. `vec![0; area]` for a huge announced area would abort the process. The model instead reads as many bytes as the area demands.
- Panic messages. The panic messages of the matrix library (dimension mismatch, index out of bounds, iterator too short) stand for its assertions. Their exact wording is not modelled.
- Mismatched call sites. These are called in the sources but do not exist there with these signatures:
  - `with_size(width, height)`;
  - `dataset.size()`;
  - `example.image()` and `example.label()`.

  The model uses `with_size(ImageSize(width, height))`, the loader's length and the sample's fields.
- Data.ImageSize.Area: the area is the exact product of the two `u32` sides. The source widens both to `usize` before multiplying, which cannot overflow where `usize` has 64 bits; a 32-bit `usize`, where the product could wrap, is not modelled.
- Training.Next: is defined on datasets whose `samples_read` does not exceed `sample_count`. Every dataset `build` makes is one, and `next` keeps that invariant. The `u32` increment therefore cannot overflow.
- Network.SoftmaxPrime: states only the length of its result. Its values are p*(1-p) of the softmax, which follows from the definition.
- Launch.ArgmaxFirstMax: assumes at most 256 entries. Beyond that, the `u8` cast wraps the reported index (`Launch.ArgmaxFold` takes it modulo 256). The network's output has 10 entries.
- Network.Train: states the output gradient. The hidden gradient is stated for the fresh network only (`Network.UntrainedTrain`). The disabled update of weights and biases, and the printed loss, are not modelled.
- Launch.TrainingLoop: the `count` vector printed at the end, the progress lines, and the saving of the network are not modelled.
