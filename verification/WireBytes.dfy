/** The very bytes on the wire: characters, digits and separators that both sides of a round trip share. */
module WireBytes {
  import opened Common
  import opened Bytes
  import opened Headers
  import WriterSpec
  import HeadRoundTrip
  import Multipart
  import Base64

  /** The alphabet of section 4 of RFC 4648: A to Z, a to z, 0 to 9, and two marks. */
  lemma Base64Alphabet(v: nat)
    requires v < 63
    ensures Base64.Digit(0) as char == 'A' && Base64.Digit(25) as char == 'Z'
    ensures Base64.Digit(26) as char == 'a' && Base64.Digit(51) as char == 'z'
    ensures Base64.Digit(52) as char == '0' && Base64.Digit(61) as char == '9'
    ensures Base64.Digit(62) as char == '+' && Base64.Digit(63) as char == '/'
    ensures v !in {25, 51, 61, 62} ==> Base64.Digit(v + 1) == Base64.Digit(v) + 1
  {
  }

  /** The end of an encoding: no pad, one equals sign or two, for the bytes missing from the last group. */
  predicate Padded(e: bytes, missing: nat)
  {
    && |e| >= 4
    && (missing == 0 ==> e[|e| - 1] as char != '=')
    && (missing == 1 ==> e[|e| - 1] as char == '=' && e[|e| - 2] as char != '=')
    && (missing == 2 ==> e[|e| - 1] as char == '=' && e[|e| - 2] as char == '=')
  }

  lemma {:induction false} Base64Pads(s: bytes)
    requires s != []
    ensures Padded(Base64.Encode(s), (3 - |s| % 3) % 3)
    decreases |s|
  {
    if |s| > 3 {
      Base64Pads(s[3..]);
      PaddedBehind(Base64.Quad(s[0], s[1], s[2]), Base64.Encode(s[3..]), (3 - |s| % 3) % 3);
    } else if |s| == 3 {
      assert Base64.Encode(s) == Base64.Quad(s[0], s[1], s[2]) + [];
    }
  }

  lemma PaddedBehind(q: bytes, e: bytes, missing: nat)
    requires Padded(e, missing)
    ensures Padded(q + e, missing)
  {
  }

  const HEX_DIGITS := "0123456789abcdef"

  /** Digits are printed in lower case. */
  lemma DigitShown(v: nat)
    requires v < 16
    ensures HexDigit(v) as char == HEX_DIGITS[v]
  {
  }

  /** The digits of a size: the last one is its remainder, and the first one is not zero. */
  lemma {:induction false} HexDigitsOf(n: nat)
    ensures n < 16 ==> Hex(n) == [HexDigit(n)]
    ensures Hex(n) != [] && Hex(n)[|Hex(n)| - 1] == HexDigit(n % 16)
    ensures n > 0 ==> Hex(n)[0] != HexDigit(0)
  {
    if n >= 16 {
      HexDigitsOf(n / 16);
      BehindFirst(Hex(n / 16), HexDigit(n % 16));
    } else {
      assert n > 0 ==> HexDigit(n) != HexDigit(0);
    }
  }

  lemma BehindFirst(s: bytes, b: byte)
    requires s != []
    ensures (s + [b])[0] == s[0] && (s + [b])[|s + [b]| - 1] == b
  {
  }

  lemma LineEnd()
    ensures CRLF == Ascii("\r\n")
  {
  }

  /** A chunk: its size in hexadecimal, a line end, its bytes, a line end. */
  lemma ChunkOnWire(c: bytes)
    ensures WriterSpec.Frame(c) == Hex(|c|) + Ascii("\r\n") + c + Ascii("\r\n")
  {
    LineEnd();
  }

  /** The last chunk, of no bytes, and the empty line behind it. */
  lemma LastChunkOnWire()
    ensures WriterSpec.LAST_CHUNK == Ascii("0\r\n\r\n")
  {
  }

  /** Hexadecimal digits, in either case. */
  lemma HexCharacters(b: byte)
    ensures var ch := b as char;
            IsHexDigit(b) <==> '0' <= ch <= '9' || 'a' <= ch <= 'f' || 'A' <= ch <= 'F'
  {
  }

  /** The sixteen digits have their values whatever their case, and the first digit counts most. */
  lemma HexValues(b: byte, front: bytes)
    requires IsHexDigit(b) && IsHex(front)
    ensures HexDigitValue(b) < 16
    ensures var ch := if 'A' <= b as char <= 'F' then (b + 32) as char else b as char;
            HEX_DIGITS[HexDigitValue(b)] == ch
    ensures HexValue(front + [b]) == HexValue(front) * 16 + HexDigitValue(b) && HexValue([b]) == HexDigitValue(b)
  {
    assert (front + [b])[..|front|] == front;
    assert [b][..0] == [];
  }

  /** A field: its name, a colon and a blank, its value. A head: lines with line ends, and an empty one. */
  lemma HeadOnWire(status: bytes, f: Field)
    requires HeadRoundTrip.Safe(status) && HeadRoundTrip.Safe(f.name) && HeadRoundTrip.Safe(f.value)
    ensures FieldLine(f) == f.name + Ascii(": ") + f.value
    ensures HeadRoundTrip.Serialize(status, [f])
         == Some(status + Ascii("\r\n") + (f.name + Ascii(": ") + f.value) + Ascii("\r\n") + Ascii("\r\n"))
  {
    assert CRLF == Ascii("\r\n") && [COLON, SPACE] == Ascii(": ");
  }

  /** What is safe to send holds no line end and no zero byte. */
  lemma SafeBytes(s: bytes)
    ensures HeadRoundTrip.Safe(s) <==> forall i :: 0 <= i < |s| ==> s[i] != 13 && s[i] != 10 && s[i] != 0
  {
  }

  /** The delimiter between parts: a line end and the boundary. */
  lemma DelimiterOnWire(boundary: bytes)
    ensures Multipart.Delimiter(boundary) == Ascii("\r\n") + boundary
  {
    assert CRLF == Ascii("\r\n");
  }

  const TOKEN_MARKS := "!#$%&'*+-.^_`|~"

  /** The characters of a field name, section 5.6.2 of RFC 9110: letters, digits and these marks. */
  lemma TokenCharacters(b: byte)
    ensures var ch := b as char;
            IsTokenChar(b) <==> 'a' <= ch <= 'z' || 'A' <= ch <= 'Z' || '0' <= ch <= '9' || ch in TOKEN_MARKS
  {
  }

  /** A field value holds blanks, tabs and everything that is no control character. */
  lemma ValueCharacters(b: byte)
    ensures IsForbiddenControl(b) <==> (b < 32 && b != 9) || b == 127
    ensures IsBlank(b) <==> b == 32 || b == 9
  {
  }

  const ONCE: seq<string> :=
    ["content-length", "content-location", "content-range", "content-type", "etag", "host", "max-forwards",
     "server", "transfer-encoding", "user-agent"]

  predicate IsText(b: bytes, s: string) { |b| == |s| && forall i :: 0 <= i < |s| ==> b[i] as char == s[i] }

  lemma TextIs(b: bytes, s: string)
    requires (forall i :: 0 <= i < |s| ==> s[i] < 128 as char) && IsText(b, s)
    ensures b == Ascii(s)
  {
    forall i | 0 <= i < |s|
      ensures b[i] == Ascii(s)[i]
    {
      assert b[i] as char == s[i];
    }
  }

  /** A name on this list may be given once, in whatever case. */
  lemma NamedOnce(before: seq<Field>, g: Field, f: Field, n: nat)
    requires g in before && Lower(g.name) == Lower(f.name) && n < |ONCE| && IsText(Lower(f.name), ONCE[n])
    ensures !Admissible(before, f) && AddField(before, f).Failure?
  {
    var i :| 0 <= i < |before| && before[i] == g;
    TextIs(Lower(f.name), ONCE[n]);
  }

  /** Case does not matter for letters, and nothing else changes. */
  lemma LowerCases(s: bytes, i: nat)
    requires i < |s|
    ensures |Lower(s)| == |s|
    ensures Lower(s)[i] == if 'A' <= s[i] as char <= 'Z' then s[i] + 32 else s[i]
  {
  }

  // ----- field lines -----

  predicate AllBlank(s: bytes) { forall i :: 0 <= i < |s| ==> IsBlank(s[i]) }

  /** A line names a field, behind its colon the value between blanks. */
  predicate IsFieldLine(line: bytes, f: Field, left: bytes, right: bytes)
  {
    && line == f.name + Ascii(":") + (left + f.value + right)
    && IsToken(f.name) && AllBlank(left) && AllBlank(right) && NoEdgeBlank(f.value)
  }

  lemma {:induction false} LeftBlanks(s: bytes) returns (left: bytes)
    ensures s == left + LStrip(s) && AllBlank(left)
    decreases |s|
  {
    left := [];
    if s != [] && IsBlank(s[0]) {
      var more := LeftBlanks(s[1..]);
      left := [s[0]] + more;
      Assoc([s[0]], more, LStrip(s[1..]));
    }
  }

  lemma {:induction false} RightBlanks(s: bytes) returns (right: bytes)
    ensures s == RStrip(s) + right && AllBlank(right)
    decreases |s|
  {
    right := [];
    if s != [] && IsBlank(s[|s| - 1]) {
      var front, last := s[..|s| - 1], [s[|s| - 1]];
      var more := RightBlanks(front);
      right := more + last;
      Assoc(RStrip(front), more, last);
      assert s == front + last;
    } else {
      assert s + [] == s;
    }
  }

  lemma {:induction false} LStripDrops(left: bytes, s: bytes)
    requires AllBlank(left)
    ensures LStrip(left + s) == LStrip(s)
    decreases |left|
  {
    if left == [] {
      assert left + s == s;
    } else {
      assert (left + s)[1..] == left[1..] + s;
      LStripDrops(left[1..], s);
    }
  }

  lemma {:induction false} RStripDrops(s: bytes, right: bytes)
    requires AllBlank(right)
    ensures RStrip(s + right) == RStrip(s)
    decreases |right|
  {
    if right == [] {
      assert s + right == s;
    } else {
      assert (s + right)[..|s + right| - 1] == s + right[..|right| - 1];
      RStripDrops(s, right[..|right| - 1]);
    }
  }

  lemma StripDrops(left: bytes, v: bytes, right: bytes)
    requires AllBlank(left) && AllBlank(right) && NoEdgeBlank(v)
    ensures Strip(left + v + right) == v
  {
    Assoc(left, v, right);
    LStripDrops(left, v + right);
    RStripDrops(v, right);
    if v == [] {
      LStripDrops(right, []);
      assert v + right == right + [];
    } else {
      assert (v + right)[0] == v[0];
    }
  }

  lemma StripAgain(s: bytes)
    ensures LStrip(LStrip(s)) == LStrip(s)
  {
    if LStrip(s) == [] {
      assert LStrip([]) == [];
    }
  }

  lemma BlanksAround(raw: bytes) returns (left: bytes, right: bytes)
    ensures raw == left + Strip(LStrip(raw)) + right && AllBlank(left) && AllBlank(right)
    ensures NoEdgeBlank(Strip(LStrip(raw)))
  {
    StripAgain(raw);
    StripNoEdgeBlank(LStrip(raw));
    left := LeftBlanks(raw);
    right := RightBlanks(LStrip(raw));
    Assoc(left, RStrip(LStrip(raw)), right);
  }

  lemma AtColon(line: bytes)
    ensures var i := Find(line, [COLON], 0); i >= 0 ==> line == line[..i] + Ascii(":") + line[i + 1..]
  {
    var i := Find(line, [COLON], 0);
    if i >= 0 {
      assert line[i..i + 1] == [COLON];
      assert Ascii(":") == [COLON];
    }
  }

  /** The line parser accepts field lines only: `left` and `right` are the blanks it drops. */
  lemma AcceptedFieldLine(line: bytes) returns (left: bytes, right: bytes)
    ensures ParseLine(line).Success? ==> IsFieldLine(line, ParseLine(line).value, left, right)
    ensures ParseLine(line).Failure? ==> ParseLine(line).error == InvalidHeader
  {
    left, right := [], [];
    if ParseLine(line).Success? {
      AtColon(line);
      left, right := BlanksAround(line[Find(line, [COLON], 0) + 1..]);
    }
  }

  /** And all of them, whatever blanks there are. */
  lemma FieldLineAccepted(line: bytes, f: Field, left: bytes, right: bytes)
    requires IsFieldLine(line, f, left, right)
    ensures ParseLine(line) == Success(f)
  {
    var raw := left + f.value + right;
    assert Ascii(":") == [COLON];
    ColonFound(line, f.name, raw);
    StripDrops(left, f.value, right);
    LStripDrops([], raw);
    StripAgain(raw);
  }

  /** A value that holds a control byte is an invalid header; a repeated singleton makes a bad message. */
  lemma FieldRefused(before: seq<Field>, f: Field)
    ensures AddField(before, f) == Success(before + [f]) <==> (
              && (forall i :: 0 <= i < |f.value| ==> (f.value[i] >= 32 || f.value[i] == 9) && f.value[i] != 127)
              && !(IsSingleton(Lower(f.name)) && exists g :: g in before && Lower(g.name) == Lower(f.name)))
    ensures (exists i :: 0 <= i < |f.value| && f.value[i] == 0) ==> AddField(before, f) == Failure(InvalidHeader)
    ensures f.value == [] && AddField(before, f).Failure? ==> AddField(before, f).error == BadHttpMessage
  {
  }

  /** A head is refused if and only if a line end or a zero byte is in it, be it in a name. */
  lemma UnsafeRefused(status: bytes, fields: seq<Field>)
    ensures HeadRoundTrip.Serialize(status, fields).None?
       <==> Unsafe(status) || exists f :: f in fields && (Unsafe(f.name) || Unsafe(f.value))
  {
  }

  predicate Unsafe(s: bytes) { exists i :: 0 <= i < |s| && s[i] in {13, 10, 0} }
}
