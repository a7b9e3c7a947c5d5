/** The earlier, self-contained dataset loader: a builder that checks both
    headers, and an iterator that reads `sampleCount` samples, surfacing and
    counting every failed read instead of stopping on it.

    The stream layout is the one the live loader reads: a big-endian `u32`
    magic and a big-endian `u32` item count, then the records; an image record
    is a big-endian width, a big-endian height and width*height pixel bytes,
    and a label record is one byte. Only the header order differs: both magics
    are checked before either count is read.
 */
module Training {
  import opened Results
  import opened Bytes
  import opened Iteration
  import opened IoExt

  const MAGIC_BYTES: seq<byte> := [0x00, 0x00, 0x08, 0x01]

  /** The one magic value required at the head of both streams. */
  const MAGIC: u32 := BeU32(MAGIC_BYTES)

  lemma {:induction false} MagicValue()
    ensures MAGIC == 0x0000_0801
    ensures EncodeBeU32(MAGIC) == MAGIC_BYTES
  {
    EncodeOfBeU32(MAGIC_BYTES);
  }

  datatype DataKind = ImageKind | LabelKind

  datatype ErrorKind =
    | MagicNotFound(magic: u32, datasetKind: DataKind)
    | IO(io: IoError)
    | InvalidLabelCount(sampleCount: u32, labelCount: u32)

  /** Unlike `Data.Image`, the legacy image carries its own width and height
      and no builder check; the reader alone makes the pixel count agree. */
  datatype Image = Image(width: u32, height: u32, pixels: seq<byte>)

  datatype Label = Label(digit: byte)

  datatype TrainingSample = TrainingSample(image: Image, sampleLabel: Label)

  /** Size of an image record header: width and height. */
  const IMAGE_HEADER_SIZE: nat := 8

  /** The pixel count announced by the first eight bytes of `b`; the product
      is taken in `usize`, so two `u32` factors cannot overflow it. */
  function AreaAt(b: seq<byte>): nat
    requires IMAGE_HEADER_SIZE <= |b|
  {
    BeU32(b[..4]) * BeU32(b[4..8])
  }

  /** `b` starts with a complete image record. */
  ghost predicate HoldsImage(b: seq<byte>)
  {
    IMAGE_HEADER_SIZE <= |b| && IMAGE_HEADER_SIZE + AreaAt(b) <= |b|
  }

  /** An image whose pixel count matches its dimensions. */
  ghost predicate WellFormed(img: Image)
  {
    |img.pixels| == img.width * img.height
  }

  /** `Image::read_from`: width, height, then exactly width*height pixels. */
  function ReadImage(s: Stream): (r: (Result<Image, ErrorKind>, Stream))
    ensures Advanced(s, r.1)
    ensures r.0.Ok? <==> HoldsImage(Remaining(s))
    ensures r.0.Ok? ==> && WellFormed(r.0.value)
                        && EncodeBeU32(r.0.value.width) == Remaining(s)[..4]
                        && EncodeBeU32(r.0.value.height) == Remaining(s)[4..8]
                        && r.0.value.pixels == Remaining(s)[IMAGE_HEADER_SIZE..IMAGE_HEADER_SIZE + AreaAt(Remaining(s))]
                        && Remaining(r.1) == Remaining(s)[IMAGE_HEADER_SIZE + AreaAt(Remaining(s))..]
    ensures r.0.Err? ==> r.0.error == IO(UnexpectedEof) && Remaining(r.1) == []
  {
    var (w, s1) := ReadBeU32(s);
    if w.Err? then (Err(IO(w.error)), s1)
    else
      var (h, s2) := ReadBeU32(s1);
      if h.Err? then (Err(IO(h.error)), s2)
      else
        var b := Remaining(s);
        assert b[..4] == EncodeBeU32(w.value) && b[4..8] == EncodeBeU32(h.value);
        BeU32OfEncode(w.value);
        BeU32OfEncode(h.value);
        var area := w.value * h.value;
        assert AreaAt(b) == area && Remaining(s2) == b[IMAGE_HEADER_SIZE..];
        var (px, s3) := ReadExact(s2, area);
        if px.Err? then (Err(IO(px.error)), s3)
        else (Ok(Image(w.value, h.value, px.value)), s3)
  }

  /** `Label::read_from`: one byte, taken as the digit without a range check. */
  function ReadLabel(s: Stream): (r: (Result<Label, ErrorKind>, Stream))
    ensures Advanced(s, r.1)
    ensures r.0.Ok? <==> 1 <= |Remaining(s)|
    ensures r.0.Ok? ==> r.0.value.digit == Remaining(s)[0] && Remaining(r.1) == Remaining(s)[1..]
    ensures r.0.Err? ==> r.0.error == IO(UnexpectedEof) && Remaining(r.1) == []
  {
    var (d, t) := ReadU8(s);
    if d.Ok? then (Ok(Label(d.value)), t) else (Err(IO(d.error)), t)
  }

  type SampleRead = (Result<TrainingSample, ErrorKind>, Stream, Stream)

  /** `TrainingSample::read_from`: the image first; a failed image read returns
      its error at once and leaves the label stream untouched. */
  function ReadSample(images: Stream, labels: Stream): (r: SampleRead)
    ensures r.1 == ReadImage(images).1
    ensures r.0.Ok? <==> HoldsImage(Remaining(images)) && 1 <= |Remaining(labels)|
    ensures !HoldsImage(Remaining(images)) ==> r.2 == labels
    ensures HoldsImage(Remaining(images)) ==> r.2 == ReadLabel(labels).1
    ensures r.0.Ok? ==> r.0.value == TrainingSample(ReadImage(images).0.value, Label(Remaining(labels)[0]))
    ensures r.0.Err? ==> r.0.error == IO(UnexpectedEof)
  {
    var (i, images') := ReadImage(images);
    match i
    case Err(e) => (Err(e), images', labels)
    case Ok(image) =>
      var (l, labels') := ReadLabel(labels);
      match l
      case Err(e) => (Err(e), images', labels')
      case Ok(lab) => (Ok(TrainingSample(image, lab)), images', labels')
  }

  datatype Dataset = Dataset(sampleCount: u32, images: Stream, labels: Stream, samplesRead: u32)

  /** `TrainingDataset`: the fields are private and only `build` and `next`
      set them, so the counter never passes the count. */
  type TrainingDataset = ds: Dataset | ds.samplesRead <= ds.sampleCount
    witness Dataset(0, Cursor([], 0), Cursor([], 0), 0)

  /** The number of samples still to be read. */
  function Left(ds: TrainingDataset): nat
  {
    ds.sampleCount - ds.samplesRead
  }

  type Item = Option<Result<TrainingSample, ErrorKind>>

  type Step = (Item, TrainingDataset)

  /** `TrainingDataset::next`: `None` exactly when the counter has reached the
      count; otherwise one sample read, whatever its outcome, and one count. */
  function Next(ds: TrainingDataset): (r: Step)
    ensures r.1.sampleCount == ds.sampleCount
    ensures r.0.None? <==> ds.samplesRead == ds.sampleCount
    ensures r.0.None? ==> r.1 == ds
    ensures r.0.Some? ==> && r.1.samplesRead == ds.samplesRead + 1
                          && (r.0.value, r.1.images, r.1.labels) == ReadSample(ds.images, ds.labels)
  {
    if ds.samplesRead == ds.sampleCount then (None, ds)
    else
      var (sample, images, labels) := ReadSample(ds.images, ds.labels);
      (Some(sample), Dataset(ds.sampleCount, images, labels, ds.samplesRead + 1))
  }

  datatype TrainingDatasetBuilder = TrainingDatasetBuilder(images: Option<Stream>, labels: Option<Stream>)

  /** `TrainingDataset::builder`: neither source set. */
  const EMPTY_BUILDER := TrainingDatasetBuilder(None, None)

  function WithImages(b: TrainingDatasetBuilder, images: Stream): (b': TrainingDatasetBuilder)
    ensures b'.images == Some(images) && b'.labels == b.labels
  {
    b.(images := Some(images))
  }

  function WithLabels(b: TrainingDatasetBuilder, labels: Stream): (b': TrainingDatasetBuilder)
    ensures b'.labels == Some(labels) && b'.images == b.images
  {
    b.(labels := Some(labels))
  }

  const IMAGES_NOT_SET := "images source not set"
  const LABELS_NOT_SET := "labels source not set"

  /** `TrainingDatasetBuilder::build`: panics on a missing source (images
      checked first); then image magic, label magic, image count, label count,
      in that order, with the first failure reported. */
  function Build(b: TrainingDatasetBuilder): (r: Outcome<Result<TrainingDataset, ErrorKind>>)
    ensures b.images.None? ==> r == Panicked(IMAGES_NOT_SET)
    ensures b.images.Some? && b.labels.None? ==> r == Panicked(LABELS_NOT_SET)
    ensures b.images.Some? && b.labels.Some? ==> r.Returned? && BuildResult(Remaining(b.images.value), Remaining(b.labels.value), r.value)
  {
    if b.images.None? then Panicked(IMAGES_NOT_SET)
    else if b.labels.None? then Panicked(LABELS_NOT_SET)
    else Returned(BuildFrom(b.images.value, b.labels.value))
  }

  /** What `build` promises about streams whose remaining bytes are `i` and `l`. */
  ghost predicate BuildResult(i: seq<byte>, l: seq<byte>, r: Result<TrainingDataset, ErrorKind>)
  {
    && (|i| < 4 ==> r == Err(IO(UnexpectedEof)))
    && (4 <= |i| && i[..4] != MAGIC_BYTES ==> r == Err(MagicNotFound(BeU32(i[..4]), ImageKind)))
    && (4 <= |i| && i[..4] == MAGIC_BYTES ==>
          && (|l| < 4 ==> r == Err(IO(UnexpectedEof)))
          && (4 <= |l| && l[..4] != MAGIC_BYTES ==> r == Err(MagicNotFound(BeU32(l[..4]), LabelKind)))
          && (4 <= |l| && l[..4] == MAGIC_BYTES ==>
                && (|i| < 8 || |l| < 8 ==> r == Err(IO(UnexpectedEof)))
                && (8 <= |i| && 8 <= |l| ==>
                      && (BeU32(i[4..8]) != BeU32(l[4..8]) ==> r == Err(InvalidLabelCount(BeU32(i[4..8]), BeU32(l[4..8]))))
                      && (BeU32(i[4..8]) == BeU32(l[4..8]) ==>
                            && r.Ok?
                            && r.value.sampleCount == BeU32(i[4..8]) && r.value.samplesRead == 0
                            && Remaining(r.value.images) == i[8..]
                            && Remaining(r.value.labels) == l[8..]))))
  }

  /** The header checks of `build` once both sources are set. */
  function BuildFrom(images: Stream, labels: Stream): (r: Result<TrainingDataset, ErrorKind>)
    ensures BuildResult(Remaining(images), Remaining(labels), r)
  {
    var (im, i1) := ReadBeU32(images);
    if im.Err? then Err(IO(im.error))
    else
      MagicCheck(Remaining(images)[..4], im.value);
      if im.value != MAGIC then Err(MagicNotFound(im.value, ImageKind))
      else
        var (lm, l1) := ReadBeU32(labels);
        if lm.Err? then Err(IO(lm.error))
        else
          MagicCheck(Remaining(labels)[..4], lm.value);
          if lm.value != MAGIC then Err(MagicNotFound(lm.value, LabelKind))
          else
            var (ic, i2) := ReadBeU32(i1);
            if ic.Err? then Err(IO(ic.error))
            else
              var (lc, l2) := ReadBeU32(l1);
              if lc.Err? then Err(IO(lc.error))
              else
                assert Remaining(images)[4..8] == Remaining(i1)[..4];
                assert Remaining(labels)[4..8] == Remaining(l1)[..4];
                BeU32OfEncode(ic.value);
                BeU32OfEncode(lc.value);
                if ic.value == lc.value then Ok(Dataset(ic.value, i2, l2, 0))
                else Err(InvalidLabelCount(ic.value, lc.value))
  }

  /** A value read from bytes `b` is `MAGIC` exactly when `b` are the magic bytes. */
  lemma {:induction false} MagicCheck(b: seq<byte>, v: u32)
    requires |b| == 4 && EncodeBeU32(v) == b
    ensures v == BeU32(b)
    ensures v == MAGIC <==> b == MAGIC_BYTES
  {
    BeU32OfEncode(v);
    BeU32Injective(b, MAGIC_BYTES);
  }

  /** The items of `n` calls of `next`, and the dataset after them. */
  function Pulls(ds: TrainingDataset, n: nat): (seq<Item>, TrainingDataset)
  {
    Iterate(Next, ds, n)
  }

  /** `next` is counted by the samples left to read, whatever the streams hold. */
  lemma {:induction false} NextCountsDown()
    ensures CountsDown(Next, Left)
  {
    forall ds: TrainingDataset
      ensures Next(ds).0.None? <==> Left(ds) == 0
      ensures Left(ds) > 0 ==> Left(Next(ds).1) == Left(ds) - 1
    {
    }
  }

  /** So exactly `sampleCount - samplesRead` items, errors included, come
      before the first `None`, whatever the streams hold. */
  lemma {:induction false} ExactlyCountItems(ds: TrainingDataset)
    ensures forall i :: 0 <= i < Left(ds) ==> Pulls(ds, Left(ds)).0[i].Some?
    ensures Next(Pulls(ds, Left(ds)).1).0 == None
  {
    NextCountsDown();
    ExactlyLeftItems(Next, Left, ds);
  }

  /** A short image stream does not end the iteration: each remaining pull
      reports the error and counts, and the label stream is not read. */
  lemma {:induction false} ErrorsAreCounted(ds: TrainingDataset)
    requires ds.samplesRead < ds.sampleCount
    requires !HoldsImage(Remaining(ds.images))
    ensures Next(ds).0 == Some(Err(IO(UnexpectedEof)))
    ensures Next(ds).1.samplesRead == ds.samplesRead + 1
    ensures Next(ds).1.labels == ds.labels
    ensures Remaining(Next(ds).1.images) == []
  {
  }

  /** The bytes of one image record. */
  function EncodeImage(img: Image): (b: seq<byte>)
    ensures |b| == IMAGE_HEADER_SIZE + |img.pixels|
  {
    EncodeBeU32(img.width) + EncodeBeU32(img.height) + img.pixels
  }

  /** The bytes of one label record. */
  function EncodeLabel(l: Label): (b: seq<byte>)
    ensures |b| == 1
  {
    [l.digit]
  }

  /** Reading a well-formed encoded image gives it back and moves just past it. */
  lemma {:induction false} ReadImageEncoded(s: Stream, img: Image, rest: seq<byte>)
    requires WellFormed(img) && Remaining(s) == EncodeImage(img) + rest
    ensures ReadImage(s).0 == Ok(img)
    ensures Remaining(ReadImage(s).1) == rest
  {
    var b := Remaining(s);
    assert b[..4] == EncodeBeU32(img.width);
    assert b[4..8] == EncodeBeU32(img.height);
    BeU32OfEncode(img.width);
    BeU32OfEncode(img.height);
    assert AreaAt(b) == |img.pixels|;
    assert b[IMAGE_HEADER_SIZE..IMAGE_HEADER_SIZE + |img.pixels|] == img.pixels;
    assert b[IMAGE_HEADER_SIZE + |img.pixels|..] == rest;
  }

  /** One pull on streams that start with an encoded sample yields it. */
  lemma {:induction false} NextOnSample(ds: TrainingDataset, sample: TrainingSample, restI: seq<byte>, restL: seq<byte>)
    requires ds.samplesRead < ds.sampleCount
    requires WellFormed(sample.image)
    requires Remaining(ds.images) == EncodeImage(sample.image) + restI
    requires Remaining(ds.labels) == EncodeLabel(sample.sampleLabel) + restL
    ensures Next(ds).0 == Some(Ok(sample))
    ensures Remaining(Next(ds).1.images) == restI
    ensures Remaining(Next(ds).1.labels) == restL
  {
    ReadImageEncoded(ds.images, sample.image, restI);
    assert Remaining(ds.labels)[0] == sample.sampleLabel.digit;
    assert Remaining(ds.labels)[1..] == restL;
  }

  function Images(samples: seq<TrainingSample>): seq<Image>
  {
    seq(|samples|, i requires 0 <= i < |samples| => samples[i].image)
  }

  function Labels(samples: seq<TrainingSample>): seq<Label>
  {
    seq(|samples|, i requires 0 <= i < |samples| => samples[i].sampleLabel)
  }

  ghost predicate AllWellFormed(samples: seq<TrainingSample>)
  {
    forall i :: 0 <= i < |samples| ==> WellFormed(samples[i].image)
  }

  /** The encoded streams of `samples` start with the encoding of its head. */
  lemma {:induction false} EncodedHead(samples: seq<TrainingSample>)
    requires |samples| > 0
    ensures ConcatMap(EncodeImage, Images(samples))
            == EncodeImage(samples[0].image) + ConcatMap(EncodeImage, Images(samples[1..]))
    ensures ConcatMap(EncodeLabel, Labels(samples))
            == EncodeLabel(samples[0].sampleLabel) + ConcatMap(EncodeLabel, Labels(samples[1..]))
  {
    assert Images(samples)[1..] == Images(samples[1..]);
    assert Labels(samples)[1..] == Labels(samples[1..]);
  }

  /** The dataset has exactly `samples` outstanding: as many as are left to
      read, each well formed, and the streams hold their encodings and nothing else. */
  ghost predicate Holds(ds: TrainingDataset, samples: seq<TrainingSample>)
  {
    && |samples| == Left(ds)
    && AllWellFormed(samples)
    && Remaining(ds.images) == ConcatMap(EncodeImage, Images(samples))
    && Remaining(ds.labels) == ConcatMap(EncodeLabel, Labels(samples))
  }

  function AsOk(sample: TrainingSample): Result<TrainingSample, ErrorKind>
  {
    Ok(sample)
  }

  /** One pull on a dataset with `samples` outstanding delivers the first and
      leaves the rest outstanding. */
  lemma {:induction false} DeliverStep(ds: TrainingDataset, samples: seq<TrainingSample>)
    requires Holds(ds, samples) && |samples| > 0
    ensures Next(ds).0 == Some(AsOk(samples[0]))
    ensures Holds(Next(ds).1, samples[1..])
  {
    var tail := samples[1..];
    EncodedHead(samples);
    NextOnSample(ds, samples[0], ConcatMap(EncodeImage, Images(tail)), ConcatMap(EncodeLabel, Labels(tail)));
    forall i | 0 <= i < |tail| ensures WellFormed(tail[i].image) { assert tail[i] == samples[i + 1]; }
  }

  lemma {:induction false} NextDeliversHead()
    ensures DeliversHead(Next, Holds, AsOk)
  {
    forall ds: TrainingDataset, samples: seq<TrainingSample> | Holds(ds, samples) && |samples| > 0
      ensures Next(ds).0 == Some(AsOk(samples[0])) && Holds(Next(ds).1, samples[1..])
    {
      DeliverStep(ds, samples);
    }
  }

  /** The image stream holding the images of `samples` under a matching header. */
  function EncodeImageFile(samples: seq<TrainingSample>): seq<byte>
    requires |samples| < U32_LIMIT
  {
    MAGIC_BYTES + EncodeBeU32(|samples|) + ConcatMap(EncodeImage, Images(samples))
  }

  /** The label stream holding the labels of `samples` under a matching header. */
  function EncodeLabelFile(samples: seq<TrainingSample>): seq<byte>
    requires |samples| < U32_LIMIT
  {
    MAGIC_BYTES + EncodeBeU32(|samples|) + ConcatMap(EncodeLabel, Labels(samples))
  }

  /** Round trip: building from the encoded files succeeds with a fresh dataset
      of `|samples|` items that yields exactly those samples in order, then `None`. */
  lemma {:induction false} RoundTrip(samples: seq<TrainingSample>)
    requires |samples| < U32_LIMIT && AllWellFormed(samples)
    ensures var b := WithLabels(WithImages(EMPTY_BUILDER, Open(EncodeImageFile(samples))), Open(EncodeLabelFile(samples)));
            && Build(b).Returned? && Build(b).value.Ok?
            && var ds := Build(b).value.value;
               && ds.sampleCount == |samples| && ds.samplesRead == 0
               && Pulls(ds, |samples|).0 == Somes(AsOk, samples)
               && Next(Pulls(ds, |samples|).1).0 == None
  {
    var si, sl := Open(EncodeImageFile(samples)), Open(EncodeLabelFile(samples));
    var i, l := Remaining(si), Remaining(sl);
    assert i[..4] == MAGIC_BYTES && l[..4] == MAGIC_BYTES;
    assert i[4..8] == EncodeBeU32(|samples|) && l[4..8] == EncodeBeU32(|samples|);
    assert i[8..] == ConcatMap(EncodeImage, Images(samples)) + [];
    assert l[8..] == ConcatMap(EncodeLabel, Labels(samples)) + [];
    BeU32OfEncode(|samples|);
    var b := WithLabels(WithImages(EMPTY_BUILDER, si), sl);
    var ds := Build(b).value.value;
    NextDeliversHead();
    DeliversAll(Next, Holds, AsOk, ds, samples);
    ExactlyCountItems(ds);
  }
}
