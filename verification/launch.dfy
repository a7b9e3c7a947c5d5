/** The two actions of `launch`: recognising a drawn digit (the network's
    output folded to the index of its largest entry) and the training loop
    over the live dataset, which feeds at most 10000 samples to `train` and
    counts how many of each digit it saw. */
module Launch {
  import opened Results
  import opened Bytes
  import opened Data
  import opened Iteration
  import TrainingData
  import opened Network

  /** `f64` as the fold sees it: a number or negative infinity. */
  datatype Extended = NegInf | Finite(r: real)

  /** `x > acc` for the fold's accumulator. */
  predicate Above(x: real, acc: Extended)
  {
    acc.NegInf? || x > acc.r
  }

  /** The fold over the enumerated output: start at `(0, -inf)` and take
      `(i as u8, x)` whenever `x` is strictly greater than the value kept. */
  function ArgmaxFold(v: Vector): (r: (byte, Extended))
    ensures r.1.NegInf? <==> v == []
    ensures v == [] ==> r.0 == 0
    decreases |v|
  {
    if v == [] then (0, NegInf)
    else
      var acc := ArgmaxFold(v[..|v| - 1]);
      var i := |v| - 1;
      if Above(v[i], acc.1) then (i % 0x100, Finite(v[i])) else acc
  }

  /** For up to 256 entries (so the `u8` cast does not wrap) the fold picks
      the first index of a maximal entry and reports that entry. */
  lemma {:induction false} ArgmaxFirstMax(v: Vector)
    requires 0 < |v| <= 0x100
    ensures var (d, c) := ArgmaxFold(v);
            && d < |v| && c == Finite(v[d])
            && (forall j :: 0 <= j < |v| ==> v[j] <= v[d])
            && (forall j :: 0 <= j < d ==> v[j] < v[d])
    decreases |v|
  {
    var n := |v|;
    var p := v[..n - 1];
    assert forall j :: 0 <= j < n - 1 ==> p[j] == v[j];
    if n > 1 {
      ArgmaxFirstMax(p);
    }
  }

  /** The first 784 pixels scaled to [-0.5, 0.5] (training), or inverted and
      scaled (recognition): `DVector::from_iterator(28*28, ..)` takes that many
      entries and panics when the iterator has fewer. */
  function Normalize(pixels: seq<byte>, inverted: bool): (input: Vector)
    requires |pixels| >= INPUT_LAYER_SIZE
    ensures |input| == INPUT_LAYER_SIZE
    ensures forall i :: 0 <= i < INPUT_LAYER_SIZE ==> -0.5 <= input[i] <= 0.5
    ensures forall i, j :: 0 <= i < INPUT_LAYER_SIZE && 0 <= j < INPUT_LAYER_SIZE && pixels[i] < pixels[j] ==>
              if inverted then input[i] > input[j] else input[i] < input[j]
  {
    seq(INPUT_LAYER_SIZE, i requires 0 <= i < INPUT_LAYER_SIZE =>
      if inverted then 1.0 - (pixels[i] as real) / 255.0 - 0.5 else (pixels[i] as real) / 255.0 - 0.5)
  }

  const FROM_ITERATOR_PANIC := "Matrix init. from iterator: iterator not long enough."

  /** The recognition closure: normalise the 28x28 image, run the network,
      fold its output to a digit and its chance. */
  function Recognize(f: Float, net: NeuralNetwork, pixels: seq<byte>): (r: Outcome<(byte, Extended)>)
    ensures |pixels| < INPUT_LAYER_SIZE ==> r == Panicked(FROM_ITERATOR_PANIC)
    ensures |pixels| >= INPUT_LAYER_SIZE ==>
              && (r.Returned? <==> Chained(net.layers, INPUT_LAYER_SIZE))
              && (r.Panicked? ==> r.message == DIMENSION_PANIC)
  {
    if |pixels| < INPUT_LAYER_SIZE then Panicked(FROM_ITERATOR_PANIC)
    else
      match Compute(f, net, Normalize(pixels, true))
      case Panicked(m) => Panicked(m)
      case Returned(out) => Returned(ArgmaxFold(out))
  }

  /** On a fresh network the answer is a digit below 10, the first output
      entry that no other exceeds, and its chance lies in (0, 1]. */
  lemma {:induction false} RecognizeFresh(f: Float, hidden: Draws, output: Draws, pixels: seq<byte>)
    requires |pixels| >= INPUT_LAYER_SIZE
    ensures var net := NewUntrained(hidden, output);
            var r := Recognize(f, net, pixels);
            && r.Returned?
            && var out := Compute(f, net, Normalize(pixels, true)).value;
               var (d, c) := r.value;
               && |out| == OUTPUT_LAYER_SIZE && d < OUTPUT_LAYER_SIZE && c == Finite(out[d])
               && 0.0 < out[d] <= 1.0
               && (forall j :: 0 <= j < |out| ==> out[j] <= out[d])
               && (forall j :: 0 <= j < d ==> out[j] < out[d])
  {
    var net := NewUntrained(hidden, output);
    UntrainedShapes(f, hidden, output, Normalize(pixels, true));
    ArgmaxFirstMax(Compute(f, net, Normalize(pixels, true)).value);
  }

  /** `expected_output[digit] = 1.0` on a zero vector of length 10; any
      other digit is out of bounds. */
  function OneHot(digit: byte): (r: Outcome<Vector>)
    ensures r.Returned? <==> digit < OUTPUT_LAYER_SIZE
    ensures r.Panicked? ==> r.message == INDEX_PANIC
    ensures r.Returned? ==> && |r.value| == OUTPUT_LAYER_SIZE && r.value[digit] == 1.0
                            && forall i :: 0 <= i < OUTPUT_LAYER_SIZE && i != digit ==> r.value[i] == 0.0
  {
    if digit < OUTPUT_LAYER_SIZE then Returned(OneHotVector(OUTPUT_LAYER_SIZE, digit)) else Panicked(INDEX_PANIC)
  }

  /** The body of the training loop for one sample: build the input (which
      panics below 784 pixels), set the one-hot target (which panics for a
      digit of 10 or more), then `train`. */
  function TrainOn(f: Float, net: NeuralNetwork, sample: TrainingData.LabeledTrainingData): (r: Outcome<Trained>)
    ensures |sample.image.pixels| < INPUT_LAYER_SIZE ==> r == Panicked(FROM_ITERATOR_PANIC)
    ensures |sample.image.pixels| >= INPUT_LAYER_SIZE && sample.imageLabel.digit >= OUTPUT_LAYER_SIZE ==>
              r == Panicked(INDEX_PANIC)
    ensures r.Returned? ==> sample.imageLabel.digit < OUTPUT_LAYER_SIZE && r.value.net == net
  {
    var pixels := sample.image.pixels;
    if |pixels| < INPUT_LAYER_SIZE then Panicked(FROM_ITERATOR_PANIC)
    else
      match OneHot(sample.imageLabel.digit)
      case Panicked(m) => Panicked(m)
      case Returned(target) => Train(f, net, Normalize(pixels, false), target)
  }

  /** On a fresh network a sample trains without a panic exactly when it
      has at least 784 pixels and a digit below 10. */
  lemma {:induction false} TrainOnFresh(f: Float, hidden: Draws, output: Draws, sample: TrainingData.LabeledTrainingData)
    ensures TrainOn(f, NewUntrained(hidden, output), sample).Returned? <==>
              |sample.image.pixels| >= INPUT_LAYER_SIZE && sample.imageLabel.digit < OUTPUT_LAYER_SIZE
  {
    var pixels := sample.image.pixels;
    var d := sample.imageLabel.digit;
    if |pixels| >= INPUT_LAYER_SIZE && d < OUTPUT_LAYER_SIZE {
      UntrainedTrain(f, hidden, output, Normalize(pixels, false), OneHotVector(OUTPUT_LAYER_SIZE, d));
    }
  }

  /** `dataset.take(10_000)`. */
  const TRAINING_CAP: nat := 10_000

  /** The class a pull delivered, or -1 when it delivered no item. */
  function LabelOf<Y, E>(classOf: Y -> int, p: Option<Result<Y, E>>): int
  {
    if p.Some? && p.value.Ok? then classOf(p.value.value) else -1
  }

  ghost function Labels<Y, E>(classOf: Y -> int, ps: seq<Option<Result<Y, E>>>): (ls: seq<int>)
    ensures |ls| == |ps|
  {
    seq(|ps|, k requires 0 <= k < |ps| => LabelOf(classOf, ps[k]))
  }

  /** Every pull delivered an item that `step` accepted. */
  ghost predicate AllAccepted<Y, E, T>(step: Y -> Outcome<T>, ps: seq<Option<Result<Y, E>>>)
  {
    forall k :: 0 <= k < |ps| ==> ps[k].Some? && ps[k].value.Ok? && step(ps[k].value.value).Returned?
  }

  function Total(counts: seq<nat>): nat
  {
    if counts == [] then 0 else counts[0] + Total(counts[1..])
  }

  lemma {:induction false} TotalIncrement(counts: seq<nat>, d: nat)
    requires d < |counts|
    ensures Total(counts[d := counts[d] + 1]) == Total(counts) + 1
    decreases |counts|
  {
    if d > 0 {
      TotalIncrement(counts[1..], d - 1);
      assert counts[d := counts[d] + 1][1..] == counts[1..][d - 1 := counts[d] + 1];
    }
  }

  /** A loop over at most `cap` pulls of `next` from `s` that stops at `None`
      or an error, hands each item to `step`, gives up at the first panic,
      and otherwise counts the items per class. `processed` is the number of
      items `step` accepted; on a normal stop `counts[d]` is how many of them
      were of class `d`, which together make `processed`. */
  method CountingLoop<S, Y(!new), E, T>(next: S -> (Option<Result<Y, E>>, S), step: Y -> Outcome<T>, classOf: Y -> int,
                                        s: S, cap: nat, classes: nat)
    returns (r: Outcome<seq<nat>>, processed: nat)
    requires forall y :: step(y).Returned? ==> 0 <= classOf(y) < classes
    ensures processed <= cap
    ensures AllAccepted(step, Iterate(next, s, processed).0)
    ensures r.Returned? ==>
              && |r.value| == classes && Total(r.value) == processed
              && (forall d :: 0 <= d < classes ==> r.value[d] == multiset(Labels(classOf, Iterate(next, s, processed).0))[d])
              && (processed == cap || next(Iterate(next, s, processed).1).0.None?
                                   || next(Iterate(next, s, processed).1).0.value.Err?)
    ensures r.Panicked? ==>
              && processed < cap
              && var p := next(Iterate(next, s, processed).1).0;
                 && p.Some? && p.value.Ok?
                 && step(p.value.value).Panicked? && r == Panicked(step(p.value.value).message)
  {
    var counts: seq<nat> := seq(classes, _ => 0);
    assert Total(counts) == 0 by { AllZeroTotal(counts); }
    var cur := s;
    processed := 0;
    while processed < cap
      invariant processed <= cap
      invariant cur == Iterate(next, s, processed).1
      invariant AllAccepted(step, Iterate(next, s, processed).0)
      invariant |counts| == classes && Total(counts) == processed
      invariant forall d :: 0 <= d < classes ==> counts[d] == multiset(Labels(classOf, Iterate(next, s, processed).0))[d]
      decreases cap - processed
    {
      var (pull, rest) := next(cur);
      if pull.None? || pull.value.Err? {
        r := Returned(counts);
        return;
      }
      var item := pull.value.value;
      var outcome := step(item);
      if outcome.Panicked? {
        r := Panicked(outcome.message);
        return;
      }
      var d := classOf(item);
      IterateSnoc(next, s, processed);
      ghost var before := Iterate(next, s, processed).0;
      assert Labels(classOf, before + [pull]) == Labels(classOf, before) + [d];
      TotalIncrement(counts, d);
      counts := counts[d := counts[d] + 1];
      processed := processed + 1;
      cur := rest;
    }
    r := Returned(counts);
  }

  lemma {:induction false} AllZeroTotal(counts: seq<nat>)
    requires forall i :: 0 <= i < |counts| ==> counts[i] == 0
    ensures Total(counts) == 0
    decreases |counts|
  {
    if counts != [] {
      AllZeroTotal(counts[1..]);
    }
  }

  function SampleDigit(sample: TrainingData.LabeledTrainingData): int
  {
    sample.imageLabel.digit
  }

  /** The training loop of `launch`, from a dataset as `from_readers` makes
      it: at most 10000 samples, each trained on, and the digits counted.
      The `Err(_) => break` arm never runs, because a valid dataset never
      yields an error, so a normal stop means the cap or the end of the data. */
  method TrainingLoop(f: Float, net: NeuralNetwork, ds: TrainingData.TrainingDataset)
    returns (r: Outcome<seq<nat>>, processed: nat)
    requires TrainingData.Valid(ds)
    ensures processed <= TRAINING_CAP
    ensures var ps := Iterate(TrainingData.Next, ds, processed).0;
            forall k :: 0 <= k < processed ==> ps[k].Some? && ps[k].value.Ok? && TrainOn(f, net, ps[k].value.value).Returned?
    ensures r.Returned? ==>
              && |r.value| == OUTPUT_LAYER_SIZE && Total(r.value) == processed
              && (forall d :: 0 <= d < OUTPUT_LAYER_SIZE ==>
                    r.value[d] == multiset(Labels(SampleDigit, Iterate(TrainingData.Next, ds, processed).0))[d])
              && (processed == TRAINING_CAP || TrainingData.Next(Iterate(TrainingData.Next, ds, processed).1).0.None?)
    ensures r.Panicked? ==>
              && processed < TRAINING_CAP
              && var p := TrainingData.Next(Iterate(TrainingData.Next, ds, processed).1).0;
                 && p.Some? && p.value.Ok?
                 && TrainOn(f, net, p.value.value).Panicked? && r == Panicked(TrainOn(f, net, p.value.value).message)
  {
    var step := (sample: TrainingData.LabeledTrainingData) => TrainOn(f, net, sample);
    r, processed := CountingLoop(TrainingData.Next, step, SampleDigit, ds, TRAINING_CAP, OUTPUT_LAYER_SIZE);
    TrainingData.PullsKeepValid(ds, processed);
    TrainingData.NextKeepsValid(Iterate(TrainingData.Next, ds, processed).1);
  }
}
