/** The generic record reader: `ReadFromBytes`, `ReadData::read_data` and the
    pull-one-record iterator `DataIter`.

    A `ReadFromBytes` implementation is modelled as a `Decoder`: a function from
    a stream to the decode result and the stream after the attempt. The
    iterator keeps its decoder and its keep-predicate as function values;
    `data_iter` installs `stop_on_io_error`.
 */
module IoExt {
  import opened Results
  import opened Bytes
  import opened Iteration

  type Decoder<T, E> = Stream -> (Result<T, E>, Stream)

  /** A decoder reads its source forward: it never rewinds nor swaps the source. */
  ghost predicate ForwardOnly<T, E>(decode: Decoder<T, E>)
  {
    forall s: Stream {:trigger decode(s)} :: Advanced(s, decode(s).1)
  }

  /** `encode` frames the records `decode` reads: on a stream that starts with
      `encode(x)` for a well-formed `x`, the decoder returns `x` and consumes
      exactly those bytes. */
  ghost predicate Frames<T(!new), E>(decode: Decoder<T, E>, encode: T -> seq<byte>, wf: T -> bool)
  {
    forall s: Stream, x: T {:trigger decode(s), encode(x)} ::
      wf(x) && encode(x) <= Remaining(s) ==>
        && decode(s).0 == Ok(x)
        && decode(s).1.bytes == s.bytes
        && Remaining(decode(s).1) == Remaining(s)[|encode(x)|..]
  }

  /** At end of input the decoder fails. */
  ghost predicate FailsAtEnd<T, E>(decode: Decoder<T, E>)
  {
    forall s: Stream {:trigger decode(s)} :: Remaining(s) == [] ==> decode(s).0.Err?
  }

  /** `ReadData::read_data`: one decode of the record type, on the same stream. */
  function ReadData<T, E>(s: Stream, decode: Decoder<T, E>): (r: (Result<T, E>, Stream))
    requires ForwardOnly(decode)
    ensures Advanced(s, r.1)
  {
    decode(s)
  }

  datatype DataIter<!T, !E> = DataIter(input: Stream, decode: Decoder<T, E>, keep: Result<T, E> -> bool)

  type Pull<!T, !E> = (Option<Result<T, E>>, DataIter<T, E>)

  /** `DataIter::next`: exactly one decode attempt; the stream moves on whatever
      the outcome; the result is yielded unchanged when the predicate accepts it
      and dropped (ending the pull with `None`) when it does not. There is no
      finished flag: the next pull decodes again from wherever the stream is. */
  function Next<T, E>(it: DataIter<T, E>): (r: Pull<T, E>)
    ensures r.1.decode == it.decode && r.1.keep == it.keep
    ensures r.1.input == it.decode(it.input).1
    ensures r.0.None? <==> !it.keep(it.decode(it.input).0)
    ensures r.0.Some? ==> r.0.value == it.decode(it.input).0
  {
    var (item, rest) := it.decode(it.input);
    var it' := it.(input := rest);
    if !it.keep(item) then (None, it') else (Some(item), it')
  }

  /** `stop_on_io_error`: keep exactly the successful decodes. */
  function StopOnIoError<T>(item: Result<T, IoError>): bool
  {
    item.Ok?
  }

  /** The iterator's predicate is `stop_on_io_error` (a `SimpleDataIter`). */
  ghost predicate IsSimple<T(!new)>(it: DataIter<T, IoError>)
  {
    forall item {:trigger it.keep(item)} :: it.keep(item) <==> item.Ok?
  }

  /** `IntoDataIter::data_iter`: a `SimpleDataIter` over the stream. */
  function DataIntoIter<T(!new)>(s: Stream, decode: Decoder<T, IoError>): (it: DataIter<T, IoError>)
    ensures IsSimple(it) && it.input == s && it.decode == decode
  {
    DataIter(s, decode, StopOnIoError)
  }

  /** A simple iterator never yields an error: a failed decode is swallowed
      and reported as the end of the sequence, and the iterator stays simple. */
  lemma {:induction false} SimpleSwallowsErrors<T(!new)>(it: DataIter<T, IoError>)
    requires IsSimple(it)
    ensures Next(it).0.None? <==> it.decode(it.input).0.Err?
    ensures Next(it).0.Some? ==> Next(it).0.value.Ok? && Next(it).0.value == it.decode(it.input).0
    ensures IsSimple(Next(it).1)
  {
  }

  /** `read_data` is the decoder itself, and `next` makes exactly that one read. */
  lemma {:induction false} NextIsOneReadData<T, E>(it: DataIter<T, E>)
    requires ForwardOnly(it.decode)
    ensures Next(it).1.input == ReadData(it.input, it.decode).1
    ensures Advanced(it.input, Next(it).1.input)
  {
  }

  /** `n` successive pulls, and the iterator after them. */
  function Collect<T, E>(it: DataIter<T, E>, n: nat): (r: (seq<Option<Result<T, E>>>, DataIter<T, E>))
    ensures |r.0| == n
  {
    Iterate(Next, it, n)
  }

  /** The pulls that deliver every record of `xs`, in order. */
  function Yields<T, E>(xs: seq<T>): (ys: seq<Option<Result<T, E>>>)
    ensures |ys| == |xs|
    ensures forall i :: 0 <= i < |xs| ==> ys[i] == Some(Ok(xs[i]))
  {
    seq(|xs|, i requires 0 <= i < |xs| => Some(Ok(xs[i])))
  }

  /** One pull on a stream that starts with an encoded record yields it and
      leaves the stream just after it. */
  lemma {:induction false} NextOnRecord<T(!new)>(it: DataIter<T, IoError>, encode: T -> seq<byte>, wf: T -> bool, x: T, rest: seq<byte>)
    requires IsSimple(it) && Frames(it.decode, encode, wf) && wf(x)
    requires Remaining(it.input) == encode(x) + rest
    ensures Next(it).0 == Some(Ok(x))
    ensures Remaining(Next(it).1.input) == rest
  {
    assert encode(x) <= Remaining(it.input);
    var d := it.decode(it.input);
    assert d.0 == Ok(x);
    assert Remaining(d.1) == Remaining(it.input)[|encode(x)|..];
  }

  /** One pull on a simple iterator over the encodings of `xs` delivers the
      first record and leaves the encodings of the rest. */
  lemma {:induction false} YieldStep<T(!new)>(it: DataIter<T, IoError>, encode: T -> seq<byte>, wf: T -> bool, xs: seq<T>)
    requires IsSimple(it) && Frames(it.decode, encode, wf)
    requires |xs| > 0 && wf(xs[0])
    requires Remaining(it.input) == ConcatMap(encode, xs)
    ensures var it' := Next(it).1;
            && IsSimple(it') && it'.decode == it.decode
            && Remaining(it'.input) == ConcatMap(encode, xs[1..])
            && Collect(it, |xs| + 1).0 == [Some(Ok(xs[0]))] + Collect(it', |xs|).0
  {
    assert ConcatMap(encode, xs) == encode(xs[0]) + ConcatMap(encode, xs[1..]);
    NextOnRecord(it, encode, wf, xs[0], ConcatMap(encode, xs[1..]));
    CollectStep(it, |xs|);
  }

  lemma {:induction false} YieldsCons<T>(xs: seq<T>, wf: T -> bool)
    requires |xs| > 0
    requires forall i :: 0 <= i < |xs| ==> wf(xs[i])
    ensures forall i :: 0 <= i < |xs[1..]| ==> wf(xs[1..][i])
    ensures Yields<T, IoError>(xs) == [Some(Ok(xs[0]))] + Yields<T, IoError>(xs[1..])
  {
    forall i | 0 <= i < |xs[1..]| ensures wf(xs[1..][i]) { assert xs[1..][i] == xs[i + 1]; }
  }

  /** A simple iterator over exactly the encodings of `xs` yields those records
      in order and then `None`. */
  lemma {:induction false} YieldsAllThenNone<T(!new)>(it: DataIter<T, IoError>, encode: T -> seq<byte>, wf: T -> bool, xs: seq<T>)
    requires IsSimple(it) && Frames(it.decode, encode, wf) && FailsAtEnd(it.decode)
    requires forall i :: 0 <= i < |xs| ==> wf(xs[i])
    requires Remaining(it.input) == ConcatMap(encode, xs)
    ensures Collect(it, |xs| + 1).0 == Yields(xs) + [None]
    decreases |xs|
  {
    if xs == [] {
      NextAtEnd(it);
      CollectStep(it, 0);
    } else {
      YieldStep(it, encode, wf, xs);
      YieldsCons(xs, wf);
      YieldsAllThenNone(Next(it).1, encode, wf, xs[1..]);
      AppendCons(Some(Ok(xs[0])), Yields<T, IoError>(xs[1..]), None);
    }
  }

  lemma {:induction false} AppendCons<T>(x: T, xs: seq<T>, y: T)
    ensures [x] + (xs + [y]) == ([x] + xs) + [y]
  {
  }

  /** At end of input a simple iterator yields `None`. */
  lemma {:induction false} NextAtEnd<T(!new)>(it: DataIter<T, IoError>)
    requires IsSimple(it) && FailsAtEnd(it.decode)
    requires Remaining(it.input) == []
    ensures Next(it).0 == None
  {
    var d := it.decode(it.input);
    assert d.0.Err?;
    assert !it.keep(d.0);
  }

  lemma {:induction false} CollectStep<T, E>(it: DataIter<T, E>, n: nat)
    ensures Collect(it, n + 1).0 == [Next(it).0] + Collect(Next(it).1, n).0
  {
    IterateStep(Next, it, n);
  }

  /** No finished flag: a pull after a `None` decodes afresh, so a record that is
      still in the stream after a failed decode is delivered. */
  lemma {:induction false} NoneIsNotFinal<T(!new)>(it: DataIter<T, IoError>, encode: T -> seq<byte>, wf: T -> bool, x: T, rest: seq<byte>)
    requires IsSimple(it) && Frames(it.decode, encode, wf) && wf(x)
    requires Next(it).0.None?
    requires Remaining(Next(it).1.input) == encode(x) + rest
    ensures Next(Next(it).1).0 == Some(Ok(x))
  {
    NextOnRecord(Next(it).1, encode, wf, x, rest);
  }
}
