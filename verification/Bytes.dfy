/** Byte strings, searching in them, and hexadecimal numerals. */
module Bytes {

  newtype byte = x: int | 0 <= x < 256

  type bytes = seq<byte>

  const CR: byte := 13
  const LF: byte := 10
  const TAB: byte := 9
  const SPACE: byte := 32
  const COLON: byte := 58
  const SEMICOLON: byte := 59
  const CRLF: bytes := [CR, LF]

  /** `sub` stands in `s` at index `i`. */
  predicate OccursAt(s: bytes, sub: bytes, i: int)
  {
    0 <= i && i + |sub| <= |s| && s[i..i + |sub|] == sub
  }

  /** `bytes.find(sub, from)`: the first index at or after `from`, or -1. */
  function Find(s: bytes, sub: bytes, from: nat): (r: int)
    ensures -1 <= r
    ensures r >= 0 ==> from <= r && OccursAt(s, sub, r)
    ensures forall j :: from <= j && (r < 0 || j < r) ==> !OccursAt(s, sub, j)
    decreases |s| - from
  {
    if from + |sub| > |s| then -1
    else if s[from..from + |sub|] == sub then from
    else Find(s, sub, from + 1)
  }

  /** Bytes put behind a byte string do not move occurrences that were already there. */
  lemma OccursAtPrefix(a: bytes, b: bytes, sub: bytes, i: int)
    ensures OccursAt(a, sub, i) ==> OccursAt(a + b, sub, i)
    ensures i + |sub| <= |a| ==> (OccursAt(a, sub, i) <==> OccursAt(a + b, sub, i))
  {
    if 0 <= i && i + |sub| <= |a| {
      assert (a + b)[i..i + |sub|] == a[i..i + |sub|];
    }
  }

  /** A first occurrence stays the first occurrence when more bytes arrive. */
  lemma FindStable(a: bytes, b: bytes, sub: bytes, from: nat)
    requires Find(a, sub, from) >= 0
    ensures Find(a + b, sub, from) == Find(a, sub, from)
  {
    var r := Find(a, sub, from);
    OccursAtPrefix(a, b, sub, r);
    var q := Find(a + b, sub, from);
    if q < r {
      OccursAtPrefix(a, b, sub, q);
    }
  }

  /** The value found is the only one meeting `Find`'s contract. */
  lemma FindIs(s: bytes, sub: bytes, from: nat, r: nat)
    requires from <= r && OccursAt(s, sub, r)
    requires forall j :: from <= j < r ==> !OccursAt(s, sub, j)
    ensures Find(s, sub, from) == r
  {
    var q := Find(s, sub, from);
    assert q >= 0 && q <= r;
  }

  /** A line without LF followed by CRLF: the separator is found right behind the line. */
  lemma FindLineEnd(line: bytes, rest: bytes)
    requires LF !in line
    ensures Find(line + CRLF + rest, CRLF, 0) == |line|
  {
    var s := line + CRLF + rest;
    assert s[|line|..|line| + 2] == CRLF;
    forall j | 0 <= j < |line|
      ensures !OccursAt(s, CRLF, j)
    {
      assert s[j + 1] != LF by {
        if j + 1 < |line| {
          assert s[j + 1] == line[j + 1];
        } else {
          assert s[j + 1] == CR;
        }
      }
      assert s[j..j + 2][1] == s[j + 1];
    }
    FindIs(s, CRLF, 0, |line|);
  }

  /** Without a CRLF in sight, no CRLF can be found. */
  lemma FindNone(s: bytes)
    requires LF !in s
    ensures Find(s, CRLF, 0) == -1
  {
    forall j | 0 <= j < |s| - 1
      ensures !OccursAt(s, CRLF, j)
    {
      assert s[j..j + 2][1] == s[j + 1];
    }
    assert forall j :: OccursAt(s, CRLF, j) ==> 0 <= j < |s| - 1;
  }

  /** Searching a single byte: the first index that holds it. */
  lemma FindByte(s: bytes, c: byte)
    ensures var r := Find(s, [c], 0);
            if c in s then 0 <= r < |s| && s[r] == c && c !in s[..r] else r == -1
  {
    var r := Find(s, [c], 0);
    forall j | 0 <= j < |s|
      ensures OccursAt(s, [c], j) <==> s[j] == c
    {
      assert s[j..j + 1] == [s[j]];
    }
    assert forall j :: OccursAt(s, [c], j) ==> 0 <= j < |s|;
  }

  /** The first `c` of `a + b`, when `a` holds none. */
  lemma FindByteBehind(a: bytes, b: bytes, c: byte)
    requires c !in a
    ensures Find(a + b, [c], 0) == if c in b then |a| + Find(b, [c], 0) else -1
  {
    FindByte(b, c);
    FindByte(a + b, c);
    if c in b {
      var i := Find(b, [c], 0);
      var s := a + b;
      assert s[|a| + i..|a| + i + 1] == [c];
      forall j | 0 <= j < |a| + i
        ensures !OccursAt(s, [c], j)
      {
        assert s[j..j + 1] == [s[j]];
        assert s[j] != c by {
          assert s[j] == if j < |a| then a[j] else b[..i][j - |a|];
        }
      }
      FindIs(s, [c], 0, |a| + i);
    }
  }

  /** Searching from an offset is searching what is behind it. */
  lemma FindBehindOffset(s: bytes, offset: nat, sub: bytes)
    requires offset <= |s|
    ensures var r, q := Find(s, sub, offset), Find(s[offset..], sub, 0);
            if r >= 0 then q == r - offset else q == -1
  {
    var t := s[offset..];
    forall j | 0 <= j <= |t| - |sub|
      ensures OccursAt(t, sub, j) <==> OccursAt(s, sub, offset + j)
    {
      assert t[j..j + |sub|] == s[offset + j..offset + j + |sub|];
    }
    var r, q := Find(s, sub, offset), Find(t, sub, 0);
    if r >= 0 {
      assert OccursAt(t, sub, r - offset);
      assert q >= 0 && OccursAt(s, sub, offset + q);
    } else {
      assert q >= 0 ==> OccursAt(s, sub, offset + q);
    }
  }

  predicate IsHexDigit(b: byte)
  {
    48 <= b <= 57 || 65 <= b <= 70 || 97 <= b <= 102
  }

  function HexDigitValue(b: byte): (v: nat)
    requires IsHexDigit(b)
    ensures v < 16
  {
    if b <= 57 then (b - 48) as int
    else if b <= 70 then (b - 55) as int
    else (b - 87) as int
  }

  /** `f"{n:x}"` digit by digit. */
  function HexDigit(v: nat): (b: byte)
    requires v < 16
    ensures IsHexDigit(b) && HexDigitValue(b) == v
  {
    if v < 10 then (48 + v) as byte else (87 + v) as byte
  }

  /** The pattern `[0-9a-fA-F]+`, matched over the whole byte string. */
  predicate IsHex(s: bytes)
  {
    s != [] && forall i :: 0 <= i < |s| ==> IsHexDigit(s[i])
  }

  /** `int(s, 16)`. */
  function HexValue(s: bytes): nat
    requires forall i :: 0 <= i < |s| ==> IsHexDigit(s[i])
  {
    if s == [] then 0
    else 16 * HexValue(s[..|s| - 1]) + HexDigitValue(s[|s| - 1])
  }

  /** `f"{n:x}"`. */
  function Hex(n: nat): (s: bytes)
    ensures IsHex(s)
  {
    if n < 16 then [HexDigit(n)] else Hex(n / 16) + [HexDigit(n % 16)]
  }

  /** Printing a size and reading it back is the identity. */
  lemma {:induction false} HexRoundTrip(n: nat)
    ensures HexValue(Hex(n)) == n
  {
    var s := Hex(n);
    if n < 16 {
      assert s[..|s| - 1] == [];
    } else {
      HexRoundTrip(n / 16);
      assert s[..|s| - 1] == Hex(n / 16);
    }
  }

  lemma HexHasNoSeparators(n: nat)
    ensures LF !in Hex(n) && CR !in Hex(n) && SEMICOLON !in Hex(n)
  {
    var s := Hex(n);
    assert forall i :: 0 <= i < |s| ==> IsHexDigit(s[i]);
  }

  /** A line end that was found stays where it is when bytes are added. */
  lemma LineStable(a: bytes, b: bytes)
    requires Find(a, CRLF, 0) >= 0
    ensures var pos := Find(a, CRLF, 0);
            Find(a + b, CRLF, 0) == pos && (a + b)[..pos] == a[..pos] && (a + b)[pos + 2..] == a[pos + 2..] + b
  {
    FindStable(a, b, CRLF, 0);
  }

  /** A separator found in `a + b` but not in `a` starts at the last byte of `a` or behind it. */
  lemma LineLater(a: bytes, b: bytes)
    requires Find(a, CRLF, 0) < 0
    ensures var pos := Find(a + b, CRLF, 0); pos >= 0 ==> |a| <= pos + 1
  {
    var pos := Find(a + b, CRLF, 0);
    if pos >= 0 {
      OccursAtPrefix(a, b, CRLF, pos);
      assert !OccursAt(a, CRLF, pos);
    }
  }

  /** A line with its end, cut out. */
  lemma LineAlone(data: bytes) returns (first: bytes)
    requires Find(data, CRLF, 0) >= 0
    ensures var pos := Find(data, CRLF, 0);
            && first == data[..pos + 2] && data == first + data[pos + 2..]
            && Find(first, CRLF, 0) == pos && first[..pos] == data[..pos] && first[pos + 2..] == []
  {
    var pos := Find(data, CRLF, 0);
    first := data[..pos + 2];
    assert first + data[pos + 2..] == data;
    assert first[pos..pos + 2] == CRLF;
    assert OccursAt(first, CRLF, pos);
    FindStable(first, data[pos + 2..], CRLF, 0);
  }

  /** In front of the LF of the first line end there is none. */
  lemma NoLineIn(data: bytes, n: nat)
    requires n <= |data| && (Find(data, CRLF, 0) < 0 || n <= Find(data, CRLF, 0) + 1)
    ensures Find(data[..n], CRLF, 0) < 0
  {
    assert data[..n] + data[n..] == data;
    if Find(data[..n], CRLF, 0) >= 0 {
      FindStable(data[..n], data[n..], CRLF, 0);
    }
  }
}
