/** The frame the server writes and the client decodes: a 4-byte
    little-endian signed length that counts the whole frame, the encoded
    payload, then the two bytes `"\n\n"`.
    `ObjectToBuffer` builds a frame around an already encoded payload
    (`bson.serialize` is outside the model); `DecodeOne` is the framing half
    of the client's `_decode`, which takes at most one frame per call. */
module Framing {
  import opened Base

  /** `Buffer.from("\n\n")` */
  const Trailer: Bytes := [10, 10]

  const MinInt32: int := -0x8000_0000
  const MaxInt32: int := 0x7FFF_FFFF

  /** `buf.writeInt32LE(n)` at offset 0: two's complement, least significant
      byte first. Node throws for a value outside the signed 32-bit range. */
  function Int32LE(n: int): (b: Bytes)
    requires MinInt32 <= n <= MaxInt32
    ensures |b| == 4
  {
    var u := if n < 0 then n + 0x1_0000_0000 else n;
    var u1 := u / 256;
    var u2 := u1 / 256;
    var u3 := u2 / 256;
    [(u % 256) as byte, (u1 % 256) as byte, (u2 % 256) as byte, u3 as byte]
  }

  /** `buf.readInt32LE()` (offset 0). */
  function ReadInt32LE(b: Bytes): (n: int)
    requires |b| >= 4
    ensures MinInt32 <= n <= MaxInt32
  {
    var u := b[0] as int + 256 * b[1] as int + 65536 * b[2] as int + 16777216 * b[3] as int;
    if u > MaxInt32 then u - 0x1_0000_0000 else u
  }

  /** Reading back what was written gives the same number. */
  lemma Int32RoundTrip(n: int)
    requires MinInt32 <= n <= MaxInt32
    ensures ReadInt32LE(Int32LE(n)) == n
  {
    var u := if n < 0 then n + 0x1_0000_0000 else n;
    var u1 := u / 256;
    var u2 := u1 / 256;
    var u3 := u2 / 256;
    assert u == 256 * u1 + u % 256;
    assert u1 == 256 * u2 + u1 % 256;
    assert u2 == 256 * u3 + u2 % 256;
    var b := Int32LE(n);
    assert b[0] as int == u % 256 && b[1] as int == u1 % 256 && b[2] as int == u2 % 256 && b[3] as int == u3;
  }

  /** A reading depends only on the first four bytes. */
  lemma ReadPrefix(b: Bytes, c: Bytes)
    requires |b| >= 4 && |c| >= 4 && b[..4] == c[..4]
    ensures ReadInt32LE(b) == ReadInt32LE(c)
  {
    assert b[0] == c[0] && b[1] == c[1] && b[2] == c[2] && b[3] == c[3] by {
      assert b[0] == b[..4][0] && b[1] == b[..4][1] && b[2] == b[..4][2] && b[3] == b[..4][3];
      assert c[0] == c[..4][0] && c[1] == c[..4][1] && c[2] == c[..4][2] && c[3] == c[..4][3];
    }
  }

  /** `objectToBuffer`, after serialisation: length header, payload,
      trailer. */
  function ObjectToBuffer(payload: Bytes): (r: Bytes)
    requires |payload| + 6 <= MaxInt32
    ensures |r| == 4 + |payload| + 2
    ensures ReadInt32LE(r) == |r|
    ensures r[4..|r| - 2] == payload
    ensures r[|r| - 2..] == Trailer
  {
    var r := Int32LE(|payload| + 6) + payload + Trailer;
    Int32RoundTrip(|payload| + 6);
    ReadPrefix(r, Int32LE(|payload| + 6));
    assert r[4..|r| - 2] == payload;
    r
  }

  /** Where `buf.slice(i)` starts or ends: a negative index counts from the
      end, and every index is clamped to the buffer. */
  function SliceIndex(i: int, len: nat): (r: nat)
    ensures r <= len
    ensures 0 <= i <= len ==> r == i
  {
    if i < 0 then (if len + i < 0 then 0 else len + i)
    else if i > len then len
    else i
  }

  /** `buf.slice(start, end)` */
  function Slice(b: Bytes, start: int, end: int): Bytes {
    var s := SliceIndex(start, |b|);
    var e := SliceIndex(end, |b|);
    if s <= e then b[s..e] else []
  }

  /** One step of `_decode`: nothing yet, or one frame's payload and the
      buffer that remains (`null` when nothing does). */
  datatype Decoded = Incomplete | Frame(payload: Bytes, rest: Option<Bytes>)

  /** The framing half of `_decode`. Reading the length needs four buffered
      bytes; Node throws on a shorter buffer. */
  function DecodeOne(buf: Bytes): (d: Decoded)
    requires |buf| >= 4
    ensures d.Incomplete? <==> |buf| < ReadInt32LE(buf)
    ensures d.Frame? && ReadInt32LE(buf) >= 6 ==>
      && d.payload == buf[4..ReadInt32LE(buf) - 2]
      && (ReadInt32LE(buf) == |buf| ==> d.rest == None)
      && (ReadInt32LE(buf) < |buf| ==> d.rest == Some(buf[ReadInt32LE(buf)..]))
  {
    var length := ReadInt32LE(buf);
    if |buf| < length then Incomplete
    else
      assert 0 <= length ==> buf[length..|buf|] == buf[length..];
      Frame(Slice(buf, 4, length - 2), if |buf| == length then None else Some(Slice(buf, length, |buf|)))
  }

  /** Frame round trip: decoding a frame followed by any bytes yields the
      original payload and keeps exactly those bytes. */
  lemma DecodeFrame(p: Bytes, suffix: Bytes)
    requires |p| + 6 <= MaxInt32
    ensures DecodeOne(ObjectToBuffer(p) + suffix) == Frame(p, if suffix == [] then None else Some(suffix))
  {
    var f := ObjectToBuffer(p);
    var buf := f + suffix;
    ReadPrefix(buf, f);
    assert buf[4..|f| - 2] == f[4..|f| - 2];
    assert buf[|f|..] == suffix;
  }

  /** A frame that has arrived only in part (with its header complete) is
      left alone: nothing is consumed. */
  lemma PartialFrameWaits(p: Bytes, k: nat)
    requires |p| + 6 <= MaxInt32
    requires 4 <= k < |ObjectToBuffer(p)|
    ensures DecodeOne(ObjectToBuffer(p)[..k]) == Incomplete
  {
    var f := ObjectToBuffer(p);
    ReadPrefix(f[..k], f);
  }

  /** Two frames in one buffer: one call yields the first payload and leaves
      the whole second frame buffered, to be decoded by a later call. */
  lemma OneFramePerCall(p: Bytes, q: Bytes)
    requires |p| + 6 <= MaxInt32 && |q| + 6 <= MaxInt32
    ensures DecodeOne(ObjectToBuffer(p) + ObjectToBuffer(q)) == Frame(p, Some(ObjectToBuffer(q)))
    ensures DecodeOne(ObjectToBuffer(q)) == Frame(q, None)
  {
    DecodeFrame(p, ObjectToBuffer(q));
    DecodeFrame(q, []);
    assert ObjectToBuffer(q) + [] == ObjectToBuffer(q);
  }
}
