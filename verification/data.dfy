/** The image value types: `ImageSize`, `Image` and the builder that is the
    only way to make an `Image`. */
module Data {
  import opened Results
  import opened Bytes

  datatype ImageSize = ImageSize(width: u32, height: u32)
  {
    /** Number of pixels. Both sides are widened before multiplying, so the
        product is exact. */
    function Area(): (a: nat)
      ensures a == 0 <==> width == 0 || height == 0
      ensures width > 0 ==> height <= a
      ensures height > 0 ==> width <= a
    {
      ProductBounds(width, height);
      width * height
    }
  }

  lemma {:induction false} ProductBounds(w: nat, h: nat)
    ensures w * h == 0 <==> w == 0 || h == 0
    ensures w > 0 ==> h <= w * h
    ensures h > 0 ==> w <= w * h
  {
    if w > 0 && h > 0 {
      assert w * h == (w - 1) * h + h;
      assert w * h == w * (h - 1) + w;
      assert (w - 1) * h >= 0 && w * (h - 1) >= 0;
    }
  }

  /** `ImageSize::default()`. */
  const DEFAULT_SIZE: ImageSize := ImageSize(0, 0)

  /** A `d` by `d` size. */
  function Square(d: u32): (s: ImageSize)
    ensures s.width == d && s.height == d
    ensures s.Area() == d * d
  {
    ImageSize(d, d)
  }

  datatype Image = Image(size: ImageSize, pixels: seq<byte>)

  /** The invariant every built image keeps: one byte per pixel, row-major. */
  ghost predicate ValidImage(img: Image)
  {
    |img.pixels| == img.size.Area()
  }

  datatype ImageBuilder = ImageBuilder(size: ImageSize, pixels: seq<byte>)

  const BUILD_PANIC: string := "incorrect image data size"

  /** `Image::builder()`: an empty 0x0 size with no pixels. */
  function Builder(): (b: ImageBuilder)
    ensures b.size.Area() == 0 && b.pixels == []
  {
    ImageBuilder(DEFAULT_SIZE, [])
  }

  /** `ImageBuilder::with_size`: replaces the size only. */
  function WithSize(b: ImageBuilder, size: ImageSize): (b': ImageBuilder)
    ensures b'.size == size && b'.pixels == b.pixels
  {
    b.(size := size)
  }

  /** `ImageBuilder::with_pixels_row_major`: replaces the pixels only. */
  function WithPixelsRowMajor(b: ImageBuilder, pixels: seq<byte>): (b': ImageBuilder)
    ensures b'.pixels == pixels && b'.size == b.size
  {
    b.(pixels := pixels)
  }

  /** `ImageBuilder::build`: panics unless there is exactly one pixel per unit
      of area; otherwise the image holds exactly the builder's size and pixels. */
  function Build(b: ImageBuilder): (r: Outcome<Image>)
    ensures r.Returned? <==> |b.pixels| == b.size.Area()
    ensures r.Returned? ==> ValidImage(r.value) && r.value.size == b.size && r.value.pixels == b.pixels
    ensures r.Panicked? ==> r.message == BUILD_PANIC
  {
    if |b.pixels| != b.size.Area() then Panicked(BUILD_PANIC)
    else Returned(Image(b.size, b.pixels))
  }

  /** `Image::pixels()`: the pixel bytes, row-major. */
  function Pixels(img: Image): (p: seq<byte>)
    ensures ValidImage(img) ==> |p| == img.size.Area()
  {
    img.pixels
  }

  /** The builder with nothing set builds the empty image. */
  lemma {:induction false} EmptyBuild()
    ensures Build(Builder()) == Returned(Image(ImageSize(0, 0), []))
  {
  }

  /** Every valid image is what the builder makes of its own size and pixels,
      in either order of the two setters; and `Pixels` gives the pixels back. */
  lemma {:induction false} BuildRoundTrip(img: Image)
    requires ValidImage(img)
    ensures Build(WithPixelsRowMajor(WithSize(Builder(), img.size), img.pixels)) == Returned(img)
    ensures Build(WithSize(WithPixelsRowMajor(Builder(), img.pixels), img.size)) == Returned(img)
    ensures Pixels(img) == img.pixels
  {
  }

  /** The last `with_size` wins, and setting the pixels in between does not
      disturb it; the same holds the other way round. */
  lemma {:induction false} LastSetterWins(b: ImageBuilder, s1: ImageSize, s2: ImageSize, p1: seq<byte>, p2: seq<byte>)
    ensures WithSize(WithSize(b, s1), s2) == WithSize(b, s2)
    ensures WithPixelsRowMajor(WithPixelsRowMajor(b, p1), p2) == WithPixelsRowMajor(b, p2)
    ensures WithSize(WithPixelsRowMajor(b, p1), s1) == WithPixelsRowMajor(WithSize(b, s1), p1)
  {
  }
}
