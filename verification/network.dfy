/** The neural network's shape and frame logic: layer construction, the
    forward pass `compute_ex` with its bookkeeping of activations and
    derivatives, and `train`, whose parameter update is switched off.

    Numbers are `real`s. The floating-point primitives (`E.powf` and
    `f64::log2`) and the random draws are parameters, so nothing here depends
    on their values except that `exp` is positive.
 */
module Network {
  import opened Results

  const INPUT_LAYER_SIZE: nat := 28 * 28
  const OUTPUT_LAYER_SIZE: nat := 10
  const HIDDEN_LAYER_SIZE: nat := 20

  type Vector = seq<real>

  type Positive = r: real | r > 0.0 witness 1.0

  /** The floating-point primitives the network calls. */
  datatype Float = Float(exp: real -> Positive, log2: real -> real)

  datatype Mat = Mat(rows: nat, cols: nat, entries: seq<Vector>)

  /** A dense matrix: `rows` rows of `cols` entries each. */
  type Matrix = m: Mat | |m.entries| == m.rows && forall r :: 0 <= r < |m.entries| ==> |m.entries[r]| == m.cols
    witness Mat(0, 0, [])

  function Sum(v: Vector): real
  {
    if v == [] then 0.0 else v[0] + Sum(v[1..])
  }

  function Dot(a: Vector, b: Vector): real
    requires |a| == |b|
  {
    if a == [] then 0.0 else a[0] * b[0] + Dot(a[1..], b[1..])
  }

  function Column(m: Matrix, c: nat): (v: Vector)
    requires c < m.cols
    ensures |v| == m.rows
  {
    seq(m.rows, r requires 0 <= r < m.rows => m.entries[r][c])
  }

  /** `mul_to`: the matrix times a vector of length `cols`. */
  function MulVec(m: Matrix, v: Vector): (w: Vector)
    requires m.cols == |v|
    ensures |w| == m.rows
    ensures forall r :: 0 <= r < m.rows ==> w[r] == Dot(m.entries[r], v)
  {
    seq(m.rows, r requires 0 <= r < m.rows => Dot(m.entries[r], v))
  }

  /** `tr_mul_to`: the transposed matrix times a vector of length `rows`. */
  function TrMulVec(m: Matrix, v: Vector): (w: Vector)
    requires m.rows == |v|
    ensures |w| == m.cols
    ensures forall c :: 0 <= c < m.cols ==> w[c] == Dot(Column(m, c), v)
  {
    seq(m.cols, c requires 0 <= c < m.cols => Dot(Column(m, c), v))
  }

  function Add(a: Vector, b: Vector): (w: Vector)
    requires |a| == |b|
    ensures |w| == |a| && forall i :: 0 <= i < |a| ==> w[i] == a[i] + b[i]
  {
    seq(|a|, i requires 0 <= i < |a| => a[i] + b[i])
  }

  function Sub(a: Vector, b: Vector): (w: Vector)
    requires |a| == |b|
    ensures |w| == |a| && forall i :: 0 <= i < |a| ==> w[i] == a[i] - b[i]
  {
    seq(|a|, i requires 0 <= i < |a| => a[i] - b[i])
  }

  /** `component_mul_assign`. */
  function Hadamard(a: Vector, b: Vector): (w: Vector)
    requires |a| == |b|
    ensures |w| == |a| && forall i :: 0 <= i < |a| ==> w[i] == a[i] * b[i]
  {
    seq(|a|, i requires 0 <= i < |a| => a[i] * b[i])
  }

  function Map(v: Vector, g: real -> real): (w: Vector)
    ensures |w| == |v| && forall i :: 0 <= i < |v| ==> w[i] == g(v[i])
  {
    seq(|v|, i requires 0 <= i < |v| => g(v[i]))
  }

  /** `relu`: despite its name, the logistic function 1 / (1 + e^-x). */
  function Relu(f: Float, x: real): real
  {
    1.0 / (1.0 + f.exp(-x))
  }

  /** `relu_prime`: the logistic function's derivative, s(x) * (1 - s(x)). */
  function ReluPrime(f: Float, x: real): real
  {
    Relu(f, x) * (1.0 - Relu(f, x))
  }

  /** `DVector::max` of a non-empty vector. */
  function MaxOf(v: Vector): (m: real)
    requires |v| > 0
    ensures forall i :: 0 <= i < |v| ==> v[i] <= m
    ensures exists i :: 0 <= i < |v| && v[i] == m
  {
    if |v| == 1 then v[0]
    else
      var m := MaxOf(v[1..]);
      assert forall i :: 1 <= i < |v| ==> v[i] == v[1..][i - 1];
      if v[0] >= m then v[0] else m
  }

  /** `softmax`: shift by the maximum, exponentiate, divide by the sum. */
  function Softmax(f: Float, v: Vector): (p: Vector)
    ensures |p| == |v|
    ensures |v| > 0 ==> Sum(p) == 1.0
    ensures forall i :: 0 <= i < |p| ==> 0.0 < p[i] <= 1.0
  {
    if v == [] then []
    else
      var e := ShiftedExp(f, v, MaxOf(v));
      SumPositive(e);
      var p := seq(|e|, i requires 0 <= i < |e| => e[i] / Sum(e));
      Normalised(e, p);
      p
  }

  /** e^(x - shift) for every entry x. */
  function ShiftedExp(f: Float, v: Vector, shift: real): (e: Vector)
    ensures |e| == |v| && Positives(e)
  {
    seq(|v|, i requires 0 <= i < |v| => f.exp(v[i] - shift) as real)
  }

  /** Positive entries divided by their sum lie in (0, 1] and sum to 1. */
  lemma {:induction false} Normalised(e: Vector, p: Vector)
    requires Positives(e) && |e| > 0 && Sum(e) > 0.0 && |p| == |e|
    requires forall i :: 0 <= i < |e| ==> p[i] == e[i] / Sum(e)
    ensures Sum(p) == 1.0
    ensures forall i :: 0 <= i < |p| ==> 0.0 < p[i] <= 1.0
  {
    var s := Sum(e);
    forall i | 0 <= i < |e| ensures 0.0 < p[i] <= 1.0 {
      TermAtMostSum(e, i);
      FractionBounds(e[i], s);
    }
    SumScaled(e, s, p);
    assert s / s == 1.0;
  }

  lemma {:induction false} FractionBounds(x: real, s: real)
    requires 0.0 < x <= s
    ensures 0.0 < x / s <= 1.0
  {
    assert x / s * s == x;
  }

  /** `softmax_prime`: p * (1 - p) for the softmax p of the vector. */
  function SoftmaxPrime(f: Float, v: Vector): (d: Vector)
    ensures |d| == |v|
  {
    Map(Softmax(f, v), p => p * (1.0 - p))
  }

  ghost predicate Positives(v: Vector)
  {
    forall i :: 0 <= i < |v| ==> v[i] > 0.0
  }

  lemma {:induction false} SumPositive(e: Vector)
    requires Positives(e) && |e| > 0
    ensures Sum(e) > 0.0
    decreases |e|
  {
    if |e| > 1 {
      assert Positives(e[1..]) by {
        forall i | 0 <= i < |e[1..]| ensures e[1..][i] > 0.0 { assert e[1..][i] == e[i + 1]; }
      }
      SumPositive(e[1..]);
    }
  }

  lemma {:induction false} TermAtMostSum(e: Vector, i: nat)
    requires Positives(e) && i < |e|
    ensures e[i] <= Sum(e)
    decreases |e|
  {
    assert Positives(e[1..]) by {
      forall k | 0 <= k < |e[1..]| ensures e[1..][k] > 0.0 { assert e[1..][k] == e[k + 1]; }
    }
    if i == 0 {
      if |e| > 1 { SumPositive(e[1..]); }
    } else {
      TermAtMostSum(e[1..], i - 1);
    }
  }

  lemma {:induction false} SumScaled(e: Vector, s: real, p: Vector)
    requires s != 0.0 && |p| == |e|
    requires forall i :: 0 <= i < |e| ==> p[i] == e[i] / s
    ensures Sum(p) == Sum(e) / s
    decreases |e|
  {
    if |e| > 0 {
      SumScaled(e[1..], s, p[1..]);
    }
  }

  /** `cross_entropy_loss`: minus the sum of expected_i * log2(out_i), over the
      pairs `zip` forms (it stops at the shorter vector). */
  function CrossEntropy(f: Float, out: Vector, expected: Vector): real
  {
    if out == [] || expected == [] then 0.0
    else -(expected[0] * f.log2(out[0])) + CrossEntropy(f, out[1..], expected[1..])
  }

  /** The one-hot target for class `d` among `n`. */
  function OneHotVector(n: nat, d: nat): (t: Vector)
    requires d < n
    ensures |t| == n && t[d] == 1.0
    ensures forall i :: 0 <= i < n && i != d ==> t[i] == 0.0
  {
    seq(n, i requires 0 <= i < n => if i == d then 1.0 else 0.0)
  }

  /** Against a one-hot target, the loss is minus the log of the chosen output. */
  lemma {:induction false} CrossEntropyOneHot(f: Float, out: Vector, d: nat)
    requires d < |out|
    ensures CrossEntropy(f, out, OneHotVector(|out|, d)) == -f.log2(out[d])
  {
    CrossEntropyOfHot(f, out, OneHotVector(|out|, d), d);
  }

  lemma {:induction false} CrossEntropyOfHot(f: Float, out: Vector, t: Vector, d: nat)
    requires |t| == |out| && d < |out|
    requires t[d] == 1.0 && forall i :: 0 <= i < |t| && i != d ==> t[i] == 0.0
    ensures CrossEntropy(f, out, t) == -f.log2(out[d])
    decreases |out|
  {
    if d == 0 {
      CrossEntropyOfZeros(f, out[1..], t[1..]);
    } else {
      CrossEntropyOfHot(f, out[1..], t[1..], d - 1);
    }
  }

  lemma {:induction false} CrossEntropyOfZeros(f: Float, out: Vector, t: Vector)
    requires |t| == |out|
    requires forall i :: 0 <= i < |t| ==> t[i] == 0.0
    ensures CrossEntropy(f, out, t) == 0.0
    decreases |out|
  {
    if out != [] {
      CrossEntropyOfZeros(f, out[1..], t[1..]);
    }
  }

  datatype Layer = Layer(weights: Matrix, biases: Vector)

  /** `Layer::dim`: the number of neurons, which is the number of biases. */
  function Dim(l: Layer): nat
  {
    |l.biases|
  }

  /** The random draws one layer consumes: a weight per matrix entry, a bias
      magnitude and a coin flip per neuron. */
  datatype Draws = Draws(weight: (nat, nat) -> real, bias: nat -> real, negate: nat -> bool)

  /** `Layer::new_untrained`: a `dim` by `prevDim` weight matrix and `dim`
      biases, each bias negated when its coin says so. */
  function NewLayer(d: Draws, prevDim: nat, dim: nat): (l: Layer)
    ensures l.weights.rows == dim && l.weights.cols == prevDim && Dim(l) == dim
    ensures forall r, c :: 0 <= r < dim && 0 <= c < prevDim ==> l.weights.entries[r][c] == d.weight(r, c)
    ensures forall j :: 0 <= j < dim ==> l.biases[j] == (if d.negate(j) then -d.bias(j) else d.bias(j))
  {
    var entries := seq(dim, r requires 0 <= r < dim => seq(prevDim, c requires 0 <= c < prevDim => d.weight(r, c)));
    var biases := seq(dim, j requires 0 <= j < dim => if d.negate(j) then -d.bias(j) else d.bias(j));
    Layer(Mat(dim, prevDim, entries), biases)
  }

  datatype NeuralNetwork = NeuralNetwork(layers: seq<Layer>)

  /** `NeuralNetwork::new_untrained`: 784 inputs, one hidden layer of 20, 10 outputs. */
  function NewUntrained(hidden: Draws, output: Draws): (net: NeuralNetwork)
    ensures |net.layers| == 2
    ensures net.layers[0].weights.rows == HIDDEN_LAYER_SIZE && net.layers[0].weights.cols == INPUT_LAYER_SIZE
    ensures Dim(net.layers[0]) == HIDDEN_LAYER_SIZE
    ensures net.layers[1].weights.rows == OUTPUT_LAYER_SIZE && net.layers[1].weights.cols == HIDDEN_LAYER_SIZE
    ensures Dim(net.layers[1]) == OUTPUT_LAYER_SIZE
  {
    NeuralNetwork([NewLayer(hidden, INPUT_LAYER_SIZE, HIDDEN_LAYER_SIZE), NewLayer(output, HIDDEN_LAYER_SIZE, OUTPUT_LAYER_SIZE)])
  }

  datatype NetworkResult = NetworkResult(result: Vector, activations: seq<Vector>, derivatives: seq<Vector>)

  const INPUT_PANIC := "this network requires input to be a 784-dimensional column vector"

  /** A dimension assertion of the matrix library. */
  const DIMENSION_PANIC := "dimension mismatch"

  /** An out-of-bounds index. */
  const INDEX_PANIC := "index out of bounds"

  /** The length of the vector layer `i` receives from an input of length `n`. */
  function InDim(layers: seq<Layer>, n: nat, i: nat): nat
    requires i <= |layers|
  {
    if i == 0 then n else Dim(layers[i - 1])
  }

  /** Layer `j` accepts what it receives and its matrix has a row per neuron. */
  ghost predicate Fits(layers: seq<Layer>, n: nat, j: nat)
    requires j < |layers|
  {
    layers[j].weights.cols == InDim(layers, n, j) && layers[j].weights.rows == Dim(layers[j])
  }

  /** Every layer fits, so the forward pass hits no dimension assertion. */
  ghost predicate Chained(layers: seq<Layer>, n: nat)
  {
    forall j :: 0 <= j < |layers| ==> Fits(layers, n, j)
  }

  /** The number of layers among the first `i` whose output is squashed and
      recorded: all but the one at index 1. */
  function Squashed(i: nat): nat
  {
    if i <= 1 then i else i - 1
  }

  /** The index of the `k`-th squashed layer. */
  function LayerOf(k: nat): nat
  {
    if k == 0 then 0 else k + 1
  }

  /** After the first `i` layers from an input of length `n`: the current vector
      has the length layer `i` expects, and one activation (after the input)
      and one derivative were recorded per squashed layer, each as long as that
      layer. */
  ghost predicate Accumulated(layers: seq<Layer>, n: nat, i: nat, acc: NetworkResult)
    requires i <= |layers|
  {
    && |acc.result| == InDim(layers, n, i)
    && |acc.activations| == 1 + Squashed(i) && |acc.activations[0]| == n
    && |acc.derivatives| == Squashed(i)
    && forall k :: 0 <= k < Squashed(i) ==>
         && LayerOf(k) < i
         && |acc.activations[k + 1]| == Dim(layers[LayerOf(k)])
         && |acc.derivatives[k]| == Dim(layers[LayerOf(k)])
  }

  /** The loop of `compute_ex` from layer `i` on: weights times the current
      vector plus biases; for every layer but the one at index 1, record the
      derivative, squash, and record the activation. */
  function Forward(f: Float, layers: seq<Layer>, n: nat, i: nat, acc: NetworkResult): (r: Outcome<NetworkResult>)
    requires i <= |layers| && |acc.result| == InDim(layers, n, i)
    ensures r.Returned? <==> forall j :: i <= j < |layers| ==> Fits(layers, n, j)
    ensures r.Panicked? ==> r.message == DIMENSION_PANIC
    ensures r.Returned? ==> && |acc.activations| <= |r.value.activations|
                            && r.value.activations[..|acc.activations|] == acc.activations
    ensures r.Returned? && Accumulated(layers, n, i, acc) ==> Accumulated(layers, n, |layers|, r.value)
    decreases |layers| - i
  {
    if i == |layers| then Returned(acc)
    else
      var layer := layers[i];
      if layer.weights.cols != |acc.result| || layer.weights.rows != Dim(layer) then
        assert !Fits(layers, n, i);
        Panicked(DIMENSION_PANIC)
      else
        var tmp := Add(MulVec(layer.weights, acc.result), layer.biases);
        var acc' :=
          if i != 1 then
            var out := Map(tmp, x => Relu(f, x));
            NetworkResult(out, acc.activations + [out], acc.derivatives + [Map(tmp, x => ReluPrime(f, x))])
          else acc.(result := tmp);
        assert Accumulated(layers, n, i, acc) ==> Accumulated(layers, n, i + 1, acc') by {
          if Accumulated(layers, n, i, acc) {
            forall k | 0 <= k < Squashed(i + 1)
              ensures && LayerOf(k) < i + 1
                      && |acc'.activations[k + 1]| == Dim(layers[LayerOf(k)])
                      && |acc'.derivatives[k]| == Dim(layers[LayerOf(k)])
            {
              if k < Squashed(i) {
                assert acc'.activations[k + 1] == acc.activations[k + 1];
                assert acc'.derivatives[k] == acc.derivatives[k];
              }
            }
          }
        }
        var r := Forward(f, layers, n, i + 1, acc');
        assert r.Returned? ==> r.value.activations[..|acc.activations|] == acc.activations by {
          if r.Returned? {
            assert acc'.activations[..|acc.activations|] == acc.activations;
            assert r.value.activations[..|acc.activations|] == r.value.activations[..|acc'.activations|][..|acc.activations|];
          }
        }
        r
  }

  /** `compute_ex`: the input must have exactly 784 entries; the layers are
      applied in turn, and the final vector gets its softmax derivative
      recorded and is replaced by its softmax. */
  function ComputeEx(f: Float, net: NeuralNetwork, input: Vector): (r: Outcome<NetworkResult>)
    ensures |input| != INPUT_LAYER_SIZE ==> r == Panicked(INPUT_PANIC)
    ensures |input| == INPUT_LAYER_SIZE ==> (r.Returned? <==> Chained(net.layers, INPUT_LAYER_SIZE))
    ensures |input| == INPUT_LAYER_SIZE && r.Panicked? ==> r.message == DIMENSION_PANIC
    ensures r.Returned? ==>
              var L, res := |net.layers|, r.value;
              && |res.result| == InDim(net.layers, INPUT_LAYER_SIZE, L)
              && |res.activations| == 1 + Squashed(L) && res.activations[0] == input
              && |res.derivatives| == 1 + Squashed(L)
              && (forall k :: 0 <= k < Squashed(L) ==>
                    && LayerOf(k) < L
                    && |res.activations[k + 1]| == Dim(net.layers[LayerOf(k)])
                    && |res.derivatives[k]| == Dim(net.layers[LayerOf(k)]))
              && |res.derivatives[Squashed(L)]| == |res.result|
              && (|res.result| > 0 ==> Sum(res.result) == 1.0)
              && (forall i :: 0 <= i < |res.result| ==> 0.0 < res.result[i] <= 1.0)
  {
    if |input| != INPUT_LAYER_SIZE then Panicked(INPUT_PANIC)
    else
      var acc := NetworkResult(input, [input], []);
      assert Accumulated(net.layers, INPUT_LAYER_SIZE, 0, acc);
      var fw := Forward(f, net.layers, INPUT_LAYER_SIZE, 0, acc);
      if fw.Panicked? then Panicked(fw.message)
      else
        var res := fw.value;
        assert res.activations[..1] == [input];
        Returned(NetworkResult(Softmax(f, res.result), res.activations, res.derivatives + [SoftmaxPrime(f, res.result)]))
  }

  /** `compute`: the result vector of `compute_ex`. */
  function Compute(f: Float, net: NeuralNetwork, input: Vector): (r: Outcome<Vector>)
    ensures r.Returned? <==> ComputeEx(f, net, input).Returned?
    ensures r.Returned? ==> r.value == ComputeEx(f, net, input).value.result
    ensures r.Panicked? ==> r.message == ComputeEx(f, net, input).message
  {
    match ComputeEx(f, net, input)
    case Returned(res) => Returned(res.result)
    case Panicked(m) => Panicked(m)
  }

  /** A freshly built network is chained, so `compute_ex` on a 784-entry input
      returns activations of lengths 784 and 20 (the output layer, at index 1,
      is not squashed), derivatives of lengths 20 and 10, and 10 results. */
  lemma {:induction false} UntrainedShapes(f: Float, hidden: Draws, output: Draws, input: Vector)
    requires |input| == INPUT_LAYER_SIZE
    ensures var r := ComputeEx(f, NewUntrained(hidden, output), input);
            && r.Returned?
            && |r.value.activations| == 2
            && |r.value.activations[0]| == INPUT_LAYER_SIZE && |r.value.activations[1]| == HIDDEN_LAYER_SIZE
            && |r.value.derivatives| == 2
            && |r.value.derivatives[0]| == HIDDEN_LAYER_SIZE && |r.value.derivatives[1]| == OUTPUT_LAYER_SIZE
            && |r.value.result| == OUTPUT_LAYER_SIZE
  {
    var net := NewUntrained(hidden, output);
    assert Fits(net.layers, INPUT_LAYER_SIZE, 0) && Fits(net.layers, INPUT_LAYER_SIZE, 1);
    var r := ComputeEx(f, net, input);
    assert Squashed(2) == 1 && LayerOf(0) == 0;
  }

  /** `compute` on a freshly built network: a 784-entry input gives ten
      outputs forming a distribution; any other input length panics. */
  lemma {:induction false} ComputeOnUntrained(f: Float, hidden: Draws, output: Draws, input: Vector)
    ensures var r := Compute(f, NewUntrained(hidden, output), input);
            && (r.Returned? <==> |input| == INPUT_LAYER_SIZE)
            && (r.Panicked? ==> r.message == INPUT_PANIC)
            && (r.Returned? ==> && |r.value| == OUTPUT_LAYER_SIZE
                                && Sum(r.value) == 1.0
                                && forall i :: 0 <= i < |r.value| ==> 0.0 < r.value[i] <= 1.0)
  {
    if |input| == INPUT_LAYER_SIZE {
      UntrainedShapes(f, hidden, output, input);
    }
  }

  /** The skip is tied to index 1, not to the last layer: in a chained
      three-layer network the third layer is squashed and recorded like the first. */
  lemma {:induction false} ThirdLayerSquashed(f: Float, net: NeuralNetwork, input: Vector)
    requires |net.layers| == 3 && |input| == INPUT_LAYER_SIZE && Chained(net.layers, INPUT_LAYER_SIZE)
    ensures var r := ComputeEx(f, net, input);
            && r.Returned?
            && |r.value.activations| == 3 && |r.value.derivatives| == 3
            && |r.value.activations[2]| == Dim(net.layers[2])
            && |r.value.derivatives[1]| == Dim(net.layers[2])
  {
    assert Squashed(3) == 2 && LayerOf(1) == 2;
  }

  /** What `train` computes before its (disabled) update: the network itself,
      unchanged, and the local gradients in layer order. */
  datatype Trained = Trained(net: NeuralNetwork, gradients: seq<Vector>)

  /** `bias` added to the first `|bias|` entries of `v`, the rest left alone
      (the loop over the biases of the layer at index 1). */
  function AddPrefix(v: Vector, bias: Vector): (w: Vector)
    requires |bias| <= |v|
    ensures |w| == |v|
    ensures forall j :: 0 <= j < |bias| ==> w[j] == v[j] + bias[j]
    ensures forall j :: |bias| <= j < |v| ==> w[j] == v[j]
  {
    seq(|v|, j requires 0 <= j < |v| => if j < |bias| then v[j] + bias[j] else v[j])
  }

  /** `train`: the output gradient (result - target) * derivatives[1], then one
      backward step through the layer at index 1: its transposed weights times
      that gradient, plus its biases, times derivatives[0]. Every vector
      operation asserts matching lengths; the update of the layers is
      commented out in the source, so the network is returned unchanged. */
  function Train(f: Float, net: NeuralNetwork, input: Vector, target: Vector): (r: Outcome<Trained>)
    ensures ComputeEx(f, net, input).Panicked? ==> r == Panicked(ComputeEx(f, net, input).message)
    ensures r.Returned? ==> r.value.net == net
    ensures r.Returned? ==>
              var res, g := ComputeEx(f, net, input).value, r.value.gradients;
              && |net.layers| >= 2 && |res.derivatives| >= 2
              && |g| == 2 && |g[1]| == |target| == |res.result| == |res.derivatives[1]|
              && |g[0]| == net.layers[1].weights.cols
              && g[1] == Hadamard(Sub(res.result, target), res.derivatives[1])
  {
    match ComputeEx(f, net, input)
    case Panicked(m) => Panicked(m)
    case Returned(res) =>
      if |target| != |res.result| then Panicked(DIMENSION_PANIC)
      else if |res.derivatives| < 2 then Panicked(INDEX_PANIC)
      else if |res.derivatives[1]| != |res.result| then Panicked(DIMENSION_PANIC)
      else
        var out := Hadamard(Sub(res.result, target), res.derivatives[1]);
        if |net.layers| < 2 then Panicked(INDEX_PANIC)
        else
          var next := net.layers[1];
          if next.weights.rows != |out| then Panicked(DIMENSION_PANIC)
          else
            var back := TrMulVec(next.weights, out);
            if |next.biases| > |back| then Panicked(INDEX_PANIC)
            else
              var biased := AddPrefix(back, next.biases);
              if |res.derivatives[0]| != |biased| then Panicked(DIMENSION_PANIC)
              else Returned(Trained(net, [Hadamard(biased, res.derivatives[0]), out]))
  }

  /** On a fresh network, `train` with a 784-entry input and a 10-entry target
      returns gradients of lengths 20 and 10; the hidden gradient gets a bias
      term only at its first 10 entries, because the bias loop runs over the
      10 biases of the output layer. */
  lemma {:induction false} UntrainedTrain(f: Float, hidden: Draws, output: Draws, input: Vector, target: Vector)
    requires |input| == INPUT_LAYER_SIZE && |target| == OUTPUT_LAYER_SIZE
    ensures var net := NewUntrained(hidden, output);
            var r := Train(f, net, input, target);
            && r.Returned? && r.value.net == net
            && |r.value.gradients| == 2
            && |r.value.gradients[0]| == HIDDEN_LAYER_SIZE && |r.value.gradients[1]| == OUTPUT_LAYER_SIZE
            && var res := ComputeEx(f, net, input).value;
               var back := TrMulVec(net.layers[1].weights, r.value.gradients[1]);
               && (forall j :: 0 <= j < OUTPUT_LAYER_SIZE ==>
                     r.value.gradients[0][j] == (back[j] + net.layers[1].biases[j]) * res.derivatives[0][j])
               && (forall j :: OUTPUT_LAYER_SIZE <= j < HIDDEN_LAYER_SIZE ==>
                     r.value.gradients[0][j] == back[j] * res.derivatives[0][j])
  {
    UntrainedShapes(f, hidden, output, input);
  }

  /** On a fresh network, a target whose length is not 10 trips the length
      assertion of the subtraction. */
  lemma {:induction false} UntrainedTrainTargetMismatch(f: Float, hidden: Draws, output: Draws, input: Vector, target: Vector)
    requires |input| == INPUT_LAYER_SIZE && |target| != OUTPUT_LAYER_SIZE
    ensures Train(f, NewUntrained(hidden, output), input, target) == Panicked(DIMENSION_PANIC)
  {
    UntrainedShapes(f, hidden, output, input);
  }
}
