/** Bytes, big-endian integers and the in-memory byte source that stands in
    for `std::io::Read`.

    A `Stream` is a byte sequence plus a read cursor. Reads take bytes from the
    cursor onward or fail with an unexpected end of input; a failed read leaves
    the cursor at the end of the bytes, which is where a `Cursor` or a `File`
    is left after a short `read_exact`.
 */
module Bytes {
  import opened Results

  /** Rust's `u8`. */
  type byte = n: int | 0 <= n < 0x100

  /** Rust's `u32`. */
  type u32 = n: int | 0 <= n < 0x1_0000_0000

  const U32_LIMIT: int := 0x1_0000_0000

  /** Value of four bytes read most significant first (`u32::from_be_bytes`). */
  function BeU32(b: seq<byte>): (n: u32)
    requires |b| == 4
  {
    (b[0] as int) * 0x100_0000 + (b[1] as int) * 0x1_0000 + (b[2] as int) * 0x100 + (b[3] as int)
  }

  /** The four bytes of `n`, most significant first (`u32::to_be_bytes`). */
  function EncodeBeU32(n: u32): (b: seq<byte>)
    ensures |b| == 4
  {
    [(n / 0x100_0000), (n / 0x1_0000 % 0x100), (n / 0x100 % 0x100), (n % 0x100)]
  }

  /** Splitting off the low byte: `n == hi * 256 + lo` determines both parts. */
  lemma {:induction false} SplitByte(n: nat, hi: nat, lo: nat)
    requires n == hi * 0x100 + lo && lo < 0x100
    ensures n / 0x100 == hi && n % 0x100 == lo
  {
  }

  lemma {:induction false} BeU32OfEncode(n: u32)
    ensures BeU32(EncodeBeU32(n)) == n
  {
    var n1 := n / 0x100;
    var n2 := n1 / 0x100;
    var n3 := n2 / 0x100;
    assert n / 0x1_0000 == n2;
    assert n / 0x100_0000 == n3;
    assert n3 < 0x100;
    var b := EncodeBeU32(n);
    assert b[0] == n3;
    assert b[1] == n2 % 0x100;
    assert b[2] == n1 % 0x100;
    assert b[3] == n % 0x100;
  }

  lemma {:induction false} EncodeOfBeU32(b: seq<byte>)
    requires |b| == 4
    ensures EncodeBeU32(BeU32(b)) == b
  {
    var n := BeU32(b);
    var n1 := (b[0] as int) * 0x1_0000 + (b[1] as int) * 0x100 + (b[2] as int);
    var n2 := (b[0] as int) * 0x100 + (b[1] as int);
    SplitByte(n, n1, b[3]);
    SplitByte(n1, n2, b[2]);
    SplitByte(n2, b[0], b[1]);
    assert n / 0x1_0000 == n2;
    assert n / 0x100_0000 == b[0];
    var e := EncodeBeU32(n);
    assert e[0] == b[0] && e[1] == b[1] && e[2] == b[2] && e[3] == b[3];
  }

  /** Two byte sequences decode to the same `u32` only if they are equal. */
  lemma {:induction false} BeU32Injective(a: seq<byte>, b: seq<byte>)
    requires |a| == 4 && |b| == 4
    ensures BeU32(a) == BeU32(b) <==> a == b
  {
    if BeU32(a) == BeU32(b) {
      EncodeOfBeU32(a);
      EncodeOfBeU32(b);
    }
  }

  datatype Cursor = Cursor(bytes: seq<byte>, pos: nat)

  /** A readable byte source: the cursor never passes the end of its bytes. */
  type Stream = c: Cursor | c.pos <= |c.bytes| witness Cursor([], 0)

  function Open(bytes: seq<byte>): (s: Stream)
    ensures Remaining(s) == bytes
  {
    Cursor(bytes, 0)
  }

  /** The bytes a further read would see. */
  function Remaining(s: Stream): seq<byte>
  {
    s.bytes[s.pos..]
  }

  /** `s` advanced by `n` bytes. */
  function Skip(s: Stream, n: nat): (t: Stream)
    requires n <= |Remaining(s)|
    ensures t.bytes == s.bytes && t.pos == s.pos + n
    ensures Remaining(t) == Remaining(s)[n..]
  {
    Cursor(s.bytes, s.pos + n)
  }

  /** The stream after a short read: every remaining byte has been taken. */
  function Drained(s: Stream): (t: Stream)
    ensures t.bytes == s.bytes && Remaining(t) == []
  {
    Cursor(s.bytes, |s.bytes|)
  }

  /** `t` is `s` or a later position of the same source. */
  ghost predicate Advanced(s: Stream, t: Stream)
  {
    t.bytes == s.bytes && s.pos <= t.pos
  }

  datatype IoError = UnexpectedEof

  type Read<T> = (Result<T, IoError>, Stream)

  /** `Read::read_exact`: exactly `n` bytes, or `UnexpectedEof` when fewer remain. */
  function ReadExact(s: Stream, n: nat): (r: Read<seq<byte>>)
    ensures Advanced(s, r.1)
    ensures r.0.Ok? <==> n <= |Remaining(s)|
    ensures r.0.Ok? ==> r.0.value == Remaining(s)[..n] && Remaining(r.1) == Remaining(s)[n..]
    ensures r.0.Err? ==> Remaining(r.1) == []
  {
    if n <= |Remaining(s)| then (Ok(s.bytes[s.pos..s.pos + n]), Skip(s, n))
    else (Err(UnexpectedEof), Drained(s))
  }

  /** `read_be::<u32>()`: four bytes taken as a big-endian integer. */
  function ReadBeU32(s: Stream): (r: Read<u32>)
    ensures Advanced(s, r.1)
    ensures r.0.Ok? <==> 4 <= |Remaining(s)|
    ensures r.0.Ok? ==> EncodeBeU32(r.0.value) == Remaining(s)[..4] && Remaining(r.1) == Remaining(s)[4..]
    ensures r.0.Err? ==> Remaining(r.1) == []
  {
    var (b, t) := ReadExact(s, 4);
    if b.Ok? then
      EncodeOfBeU32(b.value);
      (Ok(BeU32(b.value)), t)
    else (Err(b.error), t)
  }

  /** `read_ne::<u8>()`: one byte. */
  function ReadU8(s: Stream): (r: Read<byte>)
    ensures Advanced(s, r.1)
    ensures r.0.Ok? <==> 1 <= |Remaining(s)|
    ensures r.0.Ok? ==> [r.0.value] == Remaining(s)[..1] && Remaining(r.1) == Remaining(s)[1..]
    ensures r.0.Err? ==> Remaining(r.1) == []
  {
    var (b, t) := ReadExact(s, 1);
    if b.Ok? then (Ok(b.value[0]), t) else (Err(b.error), t)
  }

  /** Reading a `u32` from a stream whose next bytes encode `n` yields `n`
      and leaves the stream just after them. */
  lemma {:induction false} ReadBeU32Encoded(s: Stream, n: u32, rest: seq<byte>)
    requires Remaining(s) == EncodeBeU32(n) + rest
    ensures ReadBeU32(s).0 == Ok(n)
    ensures Remaining(ReadBeU32(s).1) == rest
  {
    var r := ReadBeU32(s);
    assert Remaining(s)[..4] == EncodeBeU32(n);
    BeU32Injective(EncodeBeU32(r.0.value), EncodeBeU32(n));
    BeU32OfEncode(r.0.value);
    BeU32OfEncode(n);
  }

  /** Concatenation of the encodings of `xs`, in order. */
  function ConcatMap<T>(encode: T -> seq<byte>, xs: seq<T>): seq<byte>
  {
    if xs == [] then [] else encode(xs[0]) + ConcatMap(encode, xs[1..])
  }
}
