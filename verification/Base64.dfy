/** Base64 of a part body, encoded piece by piece with a carry of less than three bytes. */
module Base64 {
  import opened Common
  import opened Bytes

  const PAD: byte := 61

  function Digit(v: nat): (b: byte)
    requires v < 64
    ensures b != PAD
  {
    if v < 26 then (65 + v) as byte
    else if v < 52 then (71 + v) as byte
    else if v < 62 then (v - 4) as byte
    else if v == 62 then 43
    else 47
  }

  function DigitValue(b: byte): Option<nat>
  {
    if 65 <= b <= 90 then Some((b - 65) as int)
    else if 97 <= b <= 122 then Some((b - 71) as int)
    else if 48 <= b <= 57 then Some((b as int) + 4)
    else if b == 43 then Some(62)
    else if b == 47 then Some(63)
    else None
  }

  lemma DigitRoundTrip(v: nat)
    requires v < 64
    ensures DigitValue(Digit(v)) == Some(v)
  {
  }

  /** The four digits of three bytes. */
  function Quad(a: byte, b: byte, c: byte): (q: bytes)
    ensures |q| == 4
  {
    var x, y, z := a as int, b as int, c as int;
    [Digit(x / 4), Digit(x % 4 * 16 + y / 16), Digit(y % 16 * 4 + z / 64), Digit(z % 64)]
  }

  /** `base64.b64encode`, one shot. */
  function Encode(s: bytes): bytes
  {
    if s == [] then []
    else if |s| == 1 then Quad(s[0], 0, 0)[..2] + [PAD, PAD]
    else if |s| == 2 then Quad(s[0], s[1], 0)[..3] + [PAD]
    else Quad(s[0], s[1], s[2]) + Encode(s[3..])
  }

  /** The three bytes of four digit values. */
  function Triple(v: nat, w: nat, x: nat, y: nat): (t: bytes)
    requires v < 64 && w < 64 && x < 64 && y < 64
    ensures |t| == 3
  {
    [(v * 4 + w / 16) as byte, (w % 16 * 16 + x / 4) as byte, (x % 4 * 64 + y) as byte]
  }

  function Decode(s: bytes): Option<bytes>
  {
    if s == [] then Some([])
    else if |s| < 4 then None
    else
      var v, w, x, y := DigitValue(s[0]), DigitValue(s[1]), DigitValue(s[2]), DigitValue(s[3]);
      if v.None? || w.None? then None
      else if s[2] == PAD then
        if |s| == 4 && s[3] == PAD then Some(Triple(v.value, w.value, 0, 0)[..1]) else None
      else if x.None? then None
      else if s[3] == PAD then
        if |s| == 4 then Some(Triple(v.value, w.value, x.value, 0)[..2]) else None
      else if y.None? then None
      else
        match Decode(s[4..])
        case None => None
        case Some(rest) => Some(Triple(v.value, w.value, x.value, y.value) + rest)
  }

  lemma QuadDigits(a: byte, b: byte, c: byte)
    ensures var q, x, y, z := Quad(a, b, c), a as int, b as int, c as int;
            && DigitValue(q[0]) == Some(x / 4) && DigitValue(q[1]) == Some(x % 4 * 16 + y / 16)
            && DigitValue(q[2]) == Some(y % 16 * 4 + z / 64) && DigitValue(q[3]) == Some(z % 64)
  {
    var x, y, z := a as int, b as int, c as int;
    DigitRoundTrip(x / 4);
    DigitRoundTrip(x % 4 * 16 + y / 16);
    DigitRoundTrip(y % 16 * 4 + z / 64);
    DigitRoundTrip(z % 64);
  }

  lemma TripleOf(x: nat, y: nat, z: nat)
    requires x < 256 && y < 256 && z < 256
    ensures Triple(x / 4, x % 4 * 16 + y / 16, y % 16 * 4 + z / 64, z % 64) == [x as byte, y as byte, z as byte]
  {
    assert x / 4 * 4 + (x % 4 * 16 + y / 16) / 16 == x;
    assert (x % 4 * 16 + y / 16) % 16 * 16 + (y % 16 * 4 + z / 64) / 4 == y;
    assert (y % 16 * 4 + z / 64) % 4 * 64 + z % 64 == z;
  }

  /** The four digits of three bytes hold their values. */
  lemma QuadTriple(a: byte, b: byte, c: byte)
    ensures var q := Quad(a, b, c);
            && (forall i :: 0 <= i < 4 ==> DigitValue(q[i]).Some? && DigitValue(q[i]).value < 64)
            && Triple(DigitValue(q[0]).value, DigitValue(q[1]).value,
                      DigitValue(q[2]).value, DigitValue(q[3]).value) == [a, b, c]
  {
    QuadDigits(a, b, c);
    TripleOf(a as int, b as int, c as int);
  }

  lemma OneByte(a: byte)
    ensures Decode(Quad(a, 0, 0)[..2] + [PAD, PAD]) == Some([a])
  {
    var q := Quad(a, 0, 0);
    var s := q[..2] + [PAD, PAD];
    QuadTriple(a, 0, 0);
    var v, w := DigitValue(q[0]).value, DigitValue(q[1]).value;
    assert s[0] == q[0] && s[1] == q[1] && s[2] == PAD && s[3] == PAD;
    assert Triple(v, w, 0, 0)[..1] == [a];
  }

  lemma TwoBytes(a: byte, b: byte)
    ensures Decode(Quad(a, b, 0)[..3] + [PAD]) == Some([a, b])
  {
    var q := Quad(a, b, 0);
    var s := q[..3] + [PAD];
    QuadTriple(a, b, 0);
    var v, w, x := DigitValue(q[0]).value, DigitValue(q[1]).value, DigitValue(q[2]).value;
    assert s[0] == q[0] && s[1] == q[1] && s[2] == q[2] && s[3] == PAD;
    assert Triple(v, w, x, 0)[..2] == [a, b];
  }

  /** Nothing is lost in the encoding. */
  lemma {:induction false} DecodeEncode(s: bytes)
    ensures Decode(Encode(s)) == Some(s)
    decreases |s|
  {
    if s == [] {
    } else if |s| == 1 {
      OneByte(s[0]);
      assert Encode(s) == Quad(s[0], 0, 0)[..2] + [PAD, PAD];
      assert s == [s[0]];
    } else if |s| == 2 {
      TwoBytes(s[0], s[1]);
      assert Encode(s) == Quad(s[0], s[1], 0)[..3] + [PAD];
      assert s == [s[0], s[1]];
    } else {
      QuadTriple(s[0], s[1], s[2]);
      DecodeEncode(s[3..]);
      var e := Encode(s);
      assert e[4..] == Encode(s[3..]);
      assert s == [s[0], s[1], s[2]] + s[3..];
    }
  }

  /** Whole groups of three bytes are encoded independently of what follows. */
  lemma {:induction false} EncodeAppend(a: bytes, b: bytes)
    requires |a| % 3 == 0
    ensures Encode(a + b) == Encode(a) + Encode(b)
    decreases |a|
  {
    if a == [] {
      assert a + b == b;
    } else {
      assert (a + b)[3..] == a[3..] + b;
      EncodeAppend(a[3..], b);
      assert Quad(a[0], a[1], a[2]) + (Encode(a[3..]) + Encode(b))
          == Quad(a[0], a[1], a[2]) + Encode(a[3..]) + Encode(b);
    }
  }

  /** The encoder between two calls: the carried bytes and the writes passed on. */
  datatype Encoder = Encoder(carry: bytes, writes: seq<bytes>)

  function Base64Write(e: Encoder, chunk: bytes): Encoder
  {
    var buf := e.carry + chunk;
    var whole := |buf| / 3 * 3;
    if buf == [] then e
    else Encoder(buf[whole..], if whole == 0 then e.writes else e.writes + [Encode(buf[..whole])])
  }

  function Base64WriteEof(e: Encoder): Encoder
  {
    if e.carry == [] then e else e.(writes := e.writes + [Encode(e.carry)])
  }

  function WriteAll(e: Encoder, chunks: seq<bytes>): Encoder
    decreases |chunks|
  {
    if chunks == [] then e else WriteAll(Base64Write(e, chunks[0]), chunks[1..])
  }

  /** What was passed on is the encoding of `done`, whole groups all of it; less than a group is carried. */
  predicate Encodes(e: Encoder, done: bytes)
  {
    |e.carry| < 3 && |done| % 3 == 0 && Flatten(e.writes) == Encode(done)
  }

  /** A write passes on the encoding of a front of whole groups and carries the back. */
  lemma PassesOn(e: Encoder, chunk: bytes) returns (front: bytes, back: bytes)
    ensures front + back == e.carry + chunk && |front| % 3 == 0 && |back| < 3
    ensures Base64Write(e, chunk).carry == back
    ensures Flatten(Base64Write(e, chunk).writes) == Flatten(e.writes) + Encode(front)
  {
    var buf := e.carry + chunk;
    var whole := |buf| / 3 * 3;
    front, back := buf[..whole], buf[whole..];
    if whole == 0 {
      assert Flatten(e.writes) + [] == Flatten(e.writes);
    } else {
      FlattenSnoc(e.writes, Encode(front));
    }
  }

  lemma MoreGroups(done: bytes, front: bytes)
    requires |done| % 3 == 0 && |front| % 3 == 0
    ensures |done + front| % 3 == 0 && Encode(done + front) == Encode(done) + Encode(front)
  {
    Mod3(|done|, |front|);
    EncodeAppend(done, front);
  }

  lemma Mod3(m: nat, n: nat)
    requires m % 3 == 0 && n % 3 == 0
    ensures (m + n) % 3 == 0
  {
  }

  lemma WriteKeeps(e: Encoder, chunk: bytes, done: bytes) returns (f: Encoder, more: bytes)
    requires Encodes(e, done)
    ensures f == Base64Write(e, chunk) && Encodes(f, more)
    ensures more + f.carry == done + e.carry + chunk
  {
    f := Base64Write(e, chunk);
    var front, back := PassesOn(e, chunk);
    more := done + front;
    MoreGroups(done, front);
    Assoc(done, front, back);
    Assoc(done, e.carry, chunk);
  }

  lemma {:induction false} WriteAllKeeps(e: Encoder, chunks: seq<bytes>, done: bytes) returns (more: bytes)
    requires Encodes(e, done)
    ensures Encodes(WriteAll(e, chunks), more)
    ensures more + WriteAll(e, chunks).carry == done + e.carry + Flatten(chunks)
    decreases |chunks|
  {
    if chunks == [] {
      more := done;
      assert done + e.carry + [] == done + e.carry;
    } else {
      var f, next := WriteKeeps(e, chunks[0], done);
      more := WriteAllKeeps(f, chunks[1..], next);
      Assoc(done + e.carry, chunks[0], Flatten(chunks[1..]));
    }
  }

  /**
   * For every sequence of writes and one end of file, the output is the base64 of the
   * concatenated input, and after the writes less than three bytes are carried.
   */
  lemma StreamingIsOneShot(e: Encoder, chunks: seq<bytes>)
    requires e == Encoder([], [])
    ensures Flatten(Base64WriteEof(WriteAll(e, chunks)).writes) == Encode(Flatten(chunks))
    ensures |WriteAll(e, chunks).carry| < 3
  {
    var f := WriteAll(e, chunks);
    var done := WriteAllKeeps(e, chunks, []);
    assert [] + [] + Flatten(chunks) == Flatten(chunks);
    EncodeAppend(done, f.carry);
    if f.carry == [] {
      assert Encode(done) + [] == Encode(done);
    } else {
      FlattenSnoc(f.writes, Encode(f.carry));
    }
  }

  /** `MultipartPayloadWriter` with base64 switched on. */
  class MultipartPayloadWriter {
    var encodingBuffer: bytes
    var writes: seq<bytes>  // what was passed on to the writer behind

    ghost function State(): Encoder
      reads this
    {
      Encoder(encodingBuffer, writes)
    }

    constructor ()
      ensures State() == Encoder([], [])
    {
      encodingBuffer, writes := [], [];
    }

    method Write(chunk: bytes)
      modifies this
      ensures State() == Base64Write(old(State()), chunk)
    {
      var buf := encodingBuffer + chunk;
      encodingBuffer := buf;
      if buf != [] {
        var div := |buf| / 3;
        var encChunk := buf[..div * 3];
        encodingBuffer := buf[div * 3..];
        if encChunk != [] {
          writes := writes + [Encode(encChunk)];
        }
      }
    }

    method WriteEof()
      modifies this
      ensures State() == Base64WriteEof(old(State()))
    {
      if encodingBuffer != [] {
        writes := writes + [Encode(encodingBuffer)];
      }
    }
  }
}
