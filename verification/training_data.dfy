/** The live dataset loader: header checks, the image and label record
    decoders, and the iterator that pairs images with labels under a `read`
    counter.

    Stream layout (both streams): a big-endian `u32` magic, a big-endian `u32`
    item count, then the records. An image record is a big-endian width, a
    big-endian height and width*height pixel bytes, row-major; a label record
    is a single byte.
 */
module TrainingData {
  import opened Results
  import opened Bytes
  import opened Data
  import opened IoExt
  import opened Iteration

  const MAGIC_BYTES: seq<byte> := [0x00, 0x00, 0x08, 0x01]

  /** The one magic value required at the head of both streams. */
  const MAGIC: u32 := BeU32(MAGIC_BYTES)

  lemma {:induction false} MagicValue()
    ensures MAGIC == 0x0000_0801
    ensures EncodeBeU32(MAGIC) == MAGIC_BYTES
  {
    EncodeOfBeU32(MAGIC_BYTES);
  }

  datatype DataKind = ImageKind | LabelKind

  datatype ErrorKind =
    | MagicNotFound(magic: u32, datasetKind: DataKind)
    | IO(io: IoError)
    | InvalidLabelCount(sampleCount: u32, labelCount: u32)

  datatype Label = Label(digit: byte)

  datatype LabeledTrainingData = LabeledTrainingData(image: Image, imageLabel: Label)

  /** Size of an image record header: width and height. */
  const IMAGE_HEADER_SIZE: nat := 8

  /** The size announced by the first eight bytes of `b`. */
  function SizeAt(b: seq<byte>): ImageSize
    requires IMAGE_HEADER_SIZE <= |b|
  {
    ImageSize(BeU32(b[..4]), BeU32(b[4..8]))
  }

  /** `b` starts with a complete image record. */
  ghost predicate HoldsImage(b: seq<byte>)
  {
    IMAGE_HEADER_SIZE <= |b| && IMAGE_HEADER_SIZE + SizeAt(b).Area() <= |b|
  }

  /** `Image::read_from_bytes`: width, height, then exactly width*height pixel
      bytes; the builder check cannot fail because exactly the area was read.
      Any short read is an `UnexpectedEof`. */
  function ReadImage(s: Stream): (r: Read<Image>)
    ensures Advanced(s, r.1)
    ensures r.0.Ok? <==> HoldsImage(Remaining(s))
    ensures r.0.Ok? ==> && ValidImage(r.0.value)
                        && r.0.value.size == SizeAt(Remaining(s))
                        && r.0.value.pixels == Remaining(s)[IMAGE_HEADER_SIZE..IMAGE_HEADER_SIZE + r.0.value.size.Area()]
                        && Remaining(r.1) == Remaining(s)[IMAGE_HEADER_SIZE + r.0.value.size.Area()..]
    ensures r.0.Err? ==> r.0.error == UnexpectedEof && Remaining(r.1) == []
  {
    var (w, s1) := ReadBeU32(s);
    if w.Err? then (Err(w.error), s1)
    else
      var (h, s2) := ReadBeU32(s1);
      if h.Err? then (Err(h.error), s2)
      else
        assert Remaining(s)[..4] == EncodeBeU32(w.value) && Remaining(s)[4..8] == EncodeBeU32(h.value);
        BeU32OfEncode(w.value);
        BeU32OfEncode(h.value);
        var size := ImageSize(w.value, h.value);
        assert SizeAt(Remaining(s)) == size && Remaining(s2) == Remaining(s)[IMAGE_HEADER_SIZE..];
        var (px, s3) := ReadExact(s2, size.Area());
        if px.Err? then (Err(px.error), s3)
        else
          var built := Build(WithPixelsRowMajor(WithSize(Builder(), size), px.value));
          if built.Returned? then (Ok(built.value), s3)
          else assert false; (Err(UnexpectedEof), s3)
  }

  /** `Label::read_from_bytes`: one byte, taken as the digit without a range check. */
  function ReadLabel(s: Stream): (r: Read<Label>)
    ensures Advanced(s, r.1)
    ensures r.0.Ok? <==> 1 <= |Remaining(s)|
    ensures r.0.Ok? ==> r.0.value.digit == Remaining(s)[0] && Remaining(r.1) == Remaining(s)[1..]
    ensures r.0.Err? ==> r.0.error == UnexpectedEof
  {
    var (d, t) := ReadU8(s);
    if d.Ok? then (Ok(Label(d.value)), t) else (Err(d.error), t)
  }

  /** The bytes of one image record. */
  function EncodeImage(img: Image): (b: seq<byte>)
    ensures |b| == IMAGE_HEADER_SIZE + |img.pixels|
  {
    EncodeBeU32(img.size.width) + EncodeBeU32(img.size.height) + img.pixels
  }

  /** The bytes of one label record. */
  function EncodeLabel(l: Label): (b: seq<byte>)
    ensures |b| == 1
  {
    [l.digit]
  }

  function AnyLabel(l: Label): bool { true }

  lemma {:induction false} ReadImageEncoded(s: Stream, img: Image)
    requires ValidImage(img) && EncodeImage(img) <= Remaining(s)
    ensures ReadImage(s).0 == Ok(img)
    ensures Remaining(ReadImage(s).1) == Remaining(s)[|EncodeImage(img)|..]
  {
    var b := Remaining(s);
    var e := EncodeImage(img);
    assert b[..4] == e[..4] == EncodeBeU32(img.size.width);
    assert b[4..8] == e[4..8] == EncodeBeU32(img.size.height);
    BeU32OfEncode(img.size.width);
    BeU32OfEncode(img.size.height);
    assert SizeAt(b) == img.size;
    assert b[IMAGE_HEADER_SIZE..IMAGE_HEADER_SIZE + |img.pixels|] == e[IMAGE_HEADER_SIZE..] == img.pixels;
    assert HoldsImage(b);
    var r := ReadImage(s);
    assert r.0.value.size == img.size && r.0.value.pixels == img.pixels;
  }

  /** The image decoder reads forward, frames `EncodeImage` and fails at end of input. */
  lemma {:induction false} ImageRecords()
    ensures ForwardOnly(ReadImage)
    ensures Frames(ReadImage, EncodeImage, ValidImage)
    ensures FailsAtEnd(ReadImage)
  {
    forall s: Stream, x: Image | ValidImage(x) && EncodeImage(x) <= Remaining(s)
      ensures ReadImage(s).0 == Ok(x) && ReadImage(s).1.bytes == s.bytes
      ensures Remaining(ReadImage(s).1) == Remaining(s)[|EncodeImage(x)|..]
    {
      ReadImageEncoded(s, x);
    }
  }

  /** The label decoder reads forward, frames `EncodeLabel` and fails at end of input. */
  lemma {:induction false} LabelRecords()
    ensures ForwardOnly(ReadLabel)
    ensures Frames(ReadLabel, EncodeLabel, AnyLabel)
    ensures FailsAtEnd(ReadLabel)
  {
    forall s: Stream, x: Label | AnyLabel(x) && EncodeLabel(x) <= Remaining(s)
      ensures ReadLabel(s).0 == Ok(x) && ReadLabel(s).1.bytes == s.bytes
      ensures Remaining(ReadLabel(s).1) == Remaining(s)[|EncodeLabel(x)|..]
    {
      assert Remaining(s)[0] == EncodeLabel(x)[0];
    }
  }

  /** `verify_magic`: reads one big-endian `u32` and accepts it only if it is
      `MAGIC`; otherwise the error names the value found and the stream. */
  function VerifyMagic(s: Stream, kind: DataKind): (r: (Result<(), ErrorKind>, Stream))
    ensures Advanced(s, r.1)
    ensures r.0.Ok? <==> 4 <= |Remaining(s)| && Remaining(s)[..4] == MAGIC_BYTES
    ensures |Remaining(s)| < 4 ==> r.0 == Err(IO(UnexpectedEof))
    ensures 4 <= |Remaining(s)| && Remaining(s)[..4] != MAGIC_BYTES ==>
              r.0 == Err(MagicNotFound(BeU32(Remaining(s)[..4]), kind))
    ensures 4 <= |Remaining(s)| ==> Remaining(r.1) == Remaining(s)[4..]
  {
    var (m, t) := ReadBeU32(s);
    if m.Err? then (Err(IO(m.error)), t)
    else
      EncodeOfBeU32(Remaining(s)[..4]);
      BeU32Injective(Remaining(s)[..4], MAGIC_BYTES);
      if m.value == MAGIC then (Ok(()), t)
      else (Err(MagicNotFound(m.value, kind)), t)
  }

  datatype TrainingImageSet = TrainingImageSet(images: DataIter<Image, IoError>, imageCount: u32)

  datatype TrainingLabelSet = TrainingLabelSet(labels: DataIter<Label, IoError>, labelCount: u32)

  /** The header of a stream: magic check, then the item count. */
  function ReadHeader(s: Stream, kind: DataKind): (r: (Result<u32, ErrorKind>, Stream))
    ensures Advanced(s, r.1)
    ensures r.0.Ok? <==> 8 <= |Remaining(s)| && Remaining(s)[..4] == MAGIC_BYTES
    ensures r.0.Ok? ==> EncodeBeU32(r.0.value) == Remaining(s)[4..8] && Remaining(r.1) == Remaining(s)[8..]
    ensures r.0.Err? && 4 <= |Remaining(s)| && Remaining(s)[..4] != MAGIC_BYTES ==>
              r.0.error == MagicNotFound(BeU32(Remaining(s)[..4]), kind)
    ensures r.0.Err? && !(4 <= |Remaining(s)| && Remaining(s)[..4] != MAGIC_BYTES) ==>
              r.0.error == IO(UnexpectedEof)
  {
    var (m, s1) := VerifyMagic(s, kind);
    if m.Err? then (Err(m.error), s1)
    else
      var (c, s2) := ReadBeU32(s1);
      if c.Err? then (Err(IO(c.error)), s2) else (Ok(c.value), s2)
  }

  /** `TrainingImageSet::try_from`: header, then a simple image iterator over the rest. */
  function ImageSetFrom(s: Stream): (r: Result<TrainingImageSet, ErrorKind>)
    ensures r.Ok? <==> ReadHeader(s, ImageKind).0.Ok?
    ensures r.Err? ==> r.error == ReadHeader(s, ImageKind).0.error
    ensures r.Ok? ==> && r.value.imageCount == ReadHeader(s, ImageKind).0.value
                      && IsSimple(r.value.images) && r.value.images.decode == ReadImage
                      && Remaining(r.value.images.input) == Remaining(s)[8..]
  {
    var (c, t) := ReadHeader(s, ImageKind);
    if c.Err? then Err(c.error) else Ok(TrainingImageSet(DataIntoIter(t, ReadImage), c.value))
  }

  /** `TrainingLabelSet::try_from`: header, then a simple label iterator over the rest. */
  function LabelSetFrom(s: Stream): (r: Result<TrainingLabelSet, ErrorKind>)
    ensures r.Ok? <==> ReadHeader(s, LabelKind).0.Ok?
    ensures r.Err? ==> r.error == ReadHeader(s, LabelKind).0.error
    ensures r.Ok? ==> && r.value.labelCount == ReadHeader(s, LabelKind).0.value
                      && IsSimple(r.value.labels) && r.value.labels.decode == ReadLabel
                      && Remaining(r.value.labels.input) == Remaining(s)[8..]
  {
    var (c, t) := ReadHeader(s, LabelKind);
    if c.Err? then Err(c.error) else Ok(TrainingLabelSet(DataIntoIter(t, ReadLabel), c.value))
  }

  datatype TrainingDataset = TrainingDataset(images: TrainingImageSet, labels: TrainingLabelSet, read: u32)

  /** `TrainingDataset::len`: the declared number of samples. */
  function Len(ds: TrainingDataset): u32
  {
    ds.images.imageCount
  }

  /** What every dataset made by `FromReaders` satisfies, and `Next` preserves:
      both sub-iterators are simple iterators over the record decoders, the
      counts agree and the counter never passes the count. */
  ghost predicate Valid(ds: TrainingDataset)
  {
    && IsSimple(ds.images.images) && ds.images.images.decode == ReadImage
    && IsSimple(ds.labels.labels) && ds.labels.labels.decode == ReadLabel
    && ds.images.imageCount == ds.labels.labelCount
    && ds.read <= Len(ds)
  }

  /** `TrainingDataset::new`: nothing read yet. */
  function New(images: TrainingImageSet, labels: TrainingLabelSet): (ds: TrainingDataset)
    ensures ds.read == 0 && Len(ds) == images.imageCount
    ensures ds.images == images && ds.labels == labels
  {
    TrainingDataset(images, labels, 0)
  }

  /** `TrainingDataset::from_readers`: the image header is checked first (magic,
      then count), then the label header; unequal counts are rejected. */
  function FromReaders(images: Stream, labels: Stream): (r: Result<TrainingDataset, ErrorKind>)
    ensures ImageSetFrom(images).Err? ==> r == Err(ImageSetFrom(images).error)
    ensures ImageSetFrom(images).Ok? && LabelSetFrom(labels).Err? ==> r == Err(LabelSetFrom(labels).error)
    ensures ImageSetFrom(images).Ok? && LabelSetFrom(labels).Ok? ==>
              var ic := ImageSetFrom(images).value.imageCount;
              var lc := LabelSetFrom(labels).value.labelCount;
              (ic != lc ==> r == Err(InvalidLabelCount(ic, lc))) &&
              (ic == lc ==> r.Ok?)
    ensures r.Ok? ==> && Valid(r.value) && r.value.read == 0
                      && Remaining(r.value.images.images.input) == Remaining(images)[8..]
                      && Remaining(r.value.labels.labels.input) == Remaining(labels)[8..]
  {
    match ImageSetFrom(images)
    case Err(e) => Err(e)
    case Ok(imageSet) =>
      match LabelSetFrom(labels)
      case Err(e) => Err(e)
      case Ok(labelSet) =>
        if imageSet.imageCount != labelSet.labelCount then
          Err(InvalidLabelCount(imageSet.imageCount, labelSet.labelCount))
        else Ok(New(imageSet, labelSet))
  }

  type Step = (Option<Result<LabeledTrainingData, ErrorKind>>, TrainingDataset)

  /** `TrainingDataset::next`: once `read` reaches the count, `None` without
      touching either stream; otherwise one image pull, then one label pull,
      and only a complete pair advances the counter. */
  function Next(ds: TrainingDataset): (r: Step)
    ensures ds.read >= Len(ds) ==> r == (None, ds)
    ensures r.1.images.imageCount == ds.images.imageCount && r.1.labels.labelCount == ds.labels.labelCount
    ensures r.0.None? ==> r.1.read == ds.read
    ensures r.0.Some? && r.0.value.Ok? ==> r.1.read == ds.read + 1
  {
    if ds.read < Len(ds) then
      var (i, imagesIter) := IoExt.Next(ds.images.images);
      match i
      case None => (None, ds.(images := ds.images.(images := imagesIter)))
      case Some(Err(err)) => (Some(Err(IO(err))), ds.(images := ds.images.(images := imagesIter)))
      case Some(Ok(image)) =>
        var ds1 := ds.(images := ds.images.(images := imagesIter));
        var (l, labelsIter) := IoExt.Next(ds.labels.labels);
        var ds2 := ds1.(labels := ds.labels.(labels := labelsIter));
        match l
        case None => (None, ds2)
        case Some(Err(err)) => (Some(Err(IO(err))), ds2)
        case Some(Ok(lab)) => (Some(Ok(LabeledTrainingData(image, lab))), ds2.(read := ds.read + 1))
    else (None, ds)
  }

  /** `next` keeps a dataset valid, and both `Some(Err)` arms are dead code:
      the sub-iterators are simple and so never yield an error. */
  lemma {:induction false} NextKeepsValid(ds: TrainingDataset)
    requires Valid(ds)
    ensures Valid(Next(ds).1)
    ensures Next(ds).0.Some? ==> Next(ds).0.value.Ok?
  {
    SimpleSwallowsErrors(ds.images.images);
    SimpleSwallowsErrors(ds.labels.labels);
  }

  /** The image stream of a dataset. */
  function ImageInput(ds: TrainingDataset): Stream { ds.images.images.input }

  /** The label stream of a dataset. */
  function LabelInput(ds: TrainingDataset): Stream { ds.labels.labels.input }

  /** An image header failure ends `from_readers` before the label stream is
      read: the result does not depend on the label stream at all. */
  lemma {:induction false} LabelsUnreadOnImageFailure(images: Stream, labels1: Stream, labels2: Stream)
    requires ImageSetFrom(images).Err?
    ensures FromReaders(images, labels1) == FromReaders(images, labels2)
    ensures FromReaders(images, labels1) == Err(ReadHeader(images, ImageKind).0.error)
  {
  }

  /** `from_readers` on the raw bytes of both streams, case by case, in the
      order the loader reads them. */
  lemma {:induction false} FromReadersByBytes(images: Stream, labels: Stream)
    ensures var ri, rl := Remaining(images), Remaining(labels);
      && (|ri| < 4 ==> FromReaders(images, labels) == Err(IO(UnexpectedEof)))
      && (4 <= |ri| && ri[..4] != MAGIC_BYTES ==>
            FromReaders(images, labels) == Err(MagicNotFound(BeU32(ri[..4]), ImageKind)))
      && (4 <= |ri| < 8 && ri[..4] == MAGIC_BYTES ==> FromReaders(images, labels) == Err(IO(UnexpectedEof)))
      && (8 <= |ri| && ri[..4] == MAGIC_BYTES ==>
            && (|rl| < 4 ==> FromReaders(images, labels) == Err(IO(UnexpectedEof)))
            && (4 <= |rl| && rl[..4] != MAGIC_BYTES ==>
                  FromReaders(images, labels) == Err(MagicNotFound(BeU32(rl[..4]), LabelKind)))
            && (4 <= |rl| < 8 && rl[..4] == MAGIC_BYTES ==> FromReaders(images, labels) == Err(IO(UnexpectedEof)))
            && (8 <= |rl| && rl[..4] == MAGIC_BYTES ==>
                  var ic, lc := BeU32(ri[4..8]), BeU32(rl[4..8]);
                  && (ic != lc ==> FromReaders(images, labels) == Err(InvalidLabelCount(ic, lc)))
                  && (ic == lc ==> FromReaders(images, labels).Ok? && Len(FromReaders(images, labels).value) == ic)))
  {
    var ri, rl := Remaining(images), Remaining(labels);
    if 8 <= |ri| && ri[..4] == MAGIC_BYTES {
      var ic := ReadHeader(images, ImageKind).0.value;
      BeU32OfEncode(ic);
      if 8 <= |rl| && rl[..4] == MAGIC_BYTES {
        var lc := ReadHeader(labels, LabelKind).0.value;
        BeU32OfEncode(lc);
      }
    }
  }

  /** A short image stream ends the iteration silently: `None`, the counter
      still below the declared count, and the label stream untouched. */
  lemma {:induction false} ShortImageStreamEndsSilently(ds: TrainingDataset)
    requires Valid(ds) && ds.read < Len(ds)
    requires !HoldsImage(Remaining(ImageInput(ds)))
    ensures Next(ds).0 == None
    ensures Next(ds).1.read == ds.read < Len(Next(ds).1)
    ensures LabelInput(Next(ds).1) == LabelInput(ds)
  {
  }

  /** An image read just before a failed label read is lost: it is consumed
      from the image stream, nothing is yielded and the counter stays put. */
  lemma {:induction false} ImageLostOnShortLabelStream(ds: TrainingDataset)
    requires Valid(ds) && ds.read < Len(ds)
    requires HoldsImage(Remaining(ImageInput(ds)))
    requires Remaining(LabelInput(ds)) == []
    ensures Next(ds).0 == None
    ensures Next(ds).1.read == ds.read < Len(Next(ds).1)
    ensures var b := Remaining(ImageInput(ds));
            Remaining(ImageInput(Next(ds).1)) == b[IMAGE_HEADER_SIZE + SizeAt(b).Area()..]
  {
  }

  /** `n` successive pulls are `Iterate(Next, ds, n)`; the first one
      comes from `ds` itself. */
  lemma {:induction false} PullsStep(ds: TrainingDataset, n: nat)
    ensures Iterate(Next, ds, n + 1).0 == [Next(ds).0] + Iterate(Next, Next(ds).1, n).0
    ensures Iterate(Next, ds, n + 1).1 == Iterate(Next, Next(ds).1, n).1
  {
    IterateStep(Next, ds, n);
  }

  /** Any number of pulls keeps a dataset valid. */
  lemma {:induction false} PullsKeepValid(ds: TrainingDataset, n: nat)
    requires Valid(ds)
    ensures Valid(Iterate(Next, ds, n).1)
  {
    forall s | Valid(s) ensures Valid(Next(s).1) {
      NextKeepsValid(s);
    }
    IterateKeeps(Next, Valid, ds, n);
  }

  /** The pulls that deliver `imgs[i]` paired with `lbls[i]`, in order. */
  function Pairs(imgs: seq<Image>, lbls: seq<Label>): (ps: seq<Option<Result<LabeledTrainingData, ErrorKind>>>)
    requires |imgs| == |lbls|
    ensures |ps| == |imgs|
    ensures forall i :: 0 <= i < |imgs| ==> ps[i] == Some(Ok(LabeledTrainingData(imgs[i], lbls[i])))
  {
    seq(|imgs|, i requires 0 <= i < |imgs| => Some(Ok(LabeledTrainingData(imgs[i], lbls[i]))))
  }

  ghost predicate AllValid(imgs: seq<Image>)
  {
    forall i :: 0 <= i < |imgs| ==> ValidImage(imgs[i])
  }

  /** From any valid state whose streams hold exactly the outstanding records
      (plus any trailing bytes), the dataset yields those pairs in order, the
      counter reaches the count, and the next pull is `None`. */
  lemma {:induction false} PullsDeliverPairs(ds: TrainingDataset, imgs: seq<Image>, lbls: seq<Label>, restI: seq<byte>, restL: seq<byte>)
    requires Valid(ds)
    requires |imgs| == |lbls| == Len(ds) - ds.read
    requires AllValid(imgs)
    requires Remaining(ImageInput(ds)) == ConcatMap(EncodeImage, imgs) + restI
    requires Remaining(LabelInput(ds)) == ConcatMap(EncodeLabel, lbls) + restL
    ensures Iterate(Next, ds, |imgs| + 1).0 == Pairs(imgs, lbls) + [None]
    ensures Iterate(Next, ds, |imgs|).1.read == Len(ds)
    decreases |imgs|
  {
    if imgs == [] {
      PullsStep(ds, 0);
    } else {
      NextOnEncodedPairs(ds, imgs, lbls, restI, restL);
      var ds' := Next(ds).1;
      PullsDeliverPairs(ds', imgs[1..], lbls[1..], restI, restL);
      PullsCons(ds, |imgs|);
      PairsCons(imgs, lbls);
      AppendCons(Next(ds).0, Pairs(imgs[1..], lbls[1..]), None);
    }
  }

  lemma {:induction false} PullsCons(ds: TrainingDataset, n: nat)
    requires n > 0
    ensures Iterate(Next, ds, n + 1).0 == [Next(ds).0] + Iterate(Next, Next(ds).1, n).0
    ensures Iterate(Next, ds, n).1 == Iterate(Next, Next(ds).1, n - 1).1
  {
    PullsStep(ds, n);
    PullsStep(ds, n - 1);
  }

  lemma {:induction false} PairsCons(imgs: seq<Image>, lbls: seq<Label>)
    requires |imgs| == |lbls| > 0
    ensures Pairs(imgs, lbls) == [Some(Ok(LabeledTrainingData(imgs[0], lbls[0])))] + Pairs(imgs[1..], lbls[1..])
  {
  }

  /** The head of the outstanding records is delivered by the next pull,
      leaving the tail for the pulls after it. */
  lemma {:induction false} NextOnEncodedPairs(ds: TrainingDataset, imgs: seq<Image>, lbls: seq<Label>, restI: seq<byte>, restL: seq<byte>)
    requires Valid(ds)
    requires |imgs| == |lbls| == Len(ds) - ds.read > 0
    requires AllValid(imgs)
    requires Remaining(ImageInput(ds)) == ConcatMap(EncodeImage, imgs) + restI
    requires Remaining(LabelInput(ds)) == ConcatMap(EncodeLabel, lbls) + restL
    ensures Next(ds).0 == Some(Ok(LabeledTrainingData(imgs[0], lbls[0])))
    ensures var ds' := Next(ds).1;
            && Valid(ds') && |imgs[1..]| == |lbls[1..]| == Len(ds') - ds'.read && AllValid(imgs[1..])
            && Remaining(ImageInput(ds')) == ConcatMap(EncodeImage, imgs[1..]) + restI
            && Remaining(LabelInput(ds')) == ConcatMap(EncodeLabel, lbls[1..]) + restL
  {
    assert ConcatMap(EncodeImage, imgs) + restI == EncodeImage(imgs[0]) + (ConcatMap(EncodeImage, imgs[1..]) + restI);
    assert ConcatMap(EncodeLabel, lbls) + restL == EncodeLabel(lbls[0]) + (ConcatMap(EncodeLabel, lbls[1..]) + restL);
    NextOnPair(ds, imgs[0], lbls[0], ConcatMap(EncodeImage, imgs[1..]) + restI, ConcatMap(EncodeLabel, lbls[1..]) + restL);
  }

  /** One pull on streams that start with an encoded image and an encoded
      label yields that pair and moves both streams just past them. */
  lemma {:induction false} NextOnPair(ds: TrainingDataset, img: Image, lab: Label, restI: seq<byte>, restL: seq<byte>)
    requires Valid(ds) && ds.read < Len(ds)
    requires ValidImage(img)
    requires Remaining(ImageInput(ds)) == EncodeImage(img) + restI
    requires Remaining(LabelInput(ds)) == EncodeLabel(lab) + restL
    ensures Next(ds).0 == Some(Ok(LabeledTrainingData(img, lab)))
    ensures Valid(Next(ds).1) && Next(ds).1.read == ds.read + 1 && Len(Next(ds).1) == Len(ds)
    ensures Remaining(ImageInput(Next(ds).1)) == restI
    ensures Remaining(LabelInput(Next(ds).1)) == restL
  {
    ImageRecords();
    LabelRecords();
    NextKeepsValid(ds);
    NextOnRecord(ds.images.images, EncodeImage, ValidImage, img, restI);
    NextOnRecord(ds.labels.labels, EncodeLabel, AnyLabel, lab, restL);
  }

  /** The image stream holding `imgs` under a matching header. */
  function EncodeImageFile(imgs: seq<Image>): seq<byte>
    requires |imgs| < U32_LIMIT
  {
    MAGIC_BYTES + EncodeBeU32(|imgs|) + ConcatMap(EncodeImage, imgs)
  }

  /** The label stream holding `lbls` under a matching header. */
  function EncodeLabelFile(lbls: seq<Label>): seq<byte>
    requires |lbls| < U32_LIMIT
  {
    MAGIC_BYTES + EncodeBeU32(|lbls|) + ConcatMap(EncodeLabel, lbls)
  }

  /** Round trip: encoding `n` images and `n` labels under matching headers and
      loading them yields a fresh dataset of length `n` that delivers exactly
      those pairs in order and then `None`. */
  lemma {:induction false} RoundTrip(imgs: seq<Image>, lbls: seq<Label>)
    requires |imgs| == |lbls| < U32_LIMIT
    requires AllValid(imgs)
    ensures FromReaders(Open(EncodeImageFile(imgs)), Open(EncodeLabelFile(lbls))).Ok?
    ensures var ds := FromReaders(Open(EncodeImageFile(imgs)), Open(EncodeLabelFile(lbls))).value;
            && ds.read == 0 && Len(ds) == |imgs|
            && Iterate(Next, ds, |imgs| + 1).0 == Pairs(imgs, lbls) + [None]
  {
    var si, sl := Open(EncodeImageFile(imgs)), Open(EncodeLabelFile(lbls));
    OpenEncodedFiles(imgs, lbls);
    var ds := FromReaders(si, sl).value;
    PullsDeliverPairs(ds, imgs, lbls, [], []);
  }

  lemma {:induction false} OpenEncodedFiles(imgs: seq<Image>, lbls: seq<Label>)
    requires |imgs| == |lbls| < U32_LIMIT
    ensures var r := FromReaders(Open(EncodeImageFile(imgs)), Open(EncodeLabelFile(lbls)));
            && r.Ok? && r.value.read == 0 && Len(r.value) == |imgs|
            && Remaining(ImageInput(r.value)) == ConcatMap(EncodeImage, imgs) + []
            && Remaining(LabelInput(r.value)) == ConcatMap(EncodeLabel, lbls) + []
  {
    var si, sl := Open(EncodeImageFile(imgs)), Open(EncodeLabelFile(lbls));
    assert Remaining(si)[..4] == MAGIC_BYTES && Remaining(sl)[..4] == MAGIC_BYTES;
    assert Remaining(si)[4..8] == EncodeBeU32(|imgs|) && Remaining(sl)[4..8] == EncodeBeU32(|lbls|);
    assert Remaining(si)[8..] == ConcatMap(EncodeImage, imgs) + [];
    assert Remaining(sl)[8..] == ConcatMap(EncodeLabel, lbls) + [];
    BeU32OfEncode(|imgs|);
    FromReadersByBytes(si, sl);
  }
}
