/** Header fields: serialising them, and the strict header parser. */
module Headers {
  import opened Common
  import opened Bytes

  datatype HttpError =
    | InvalidHeader
    | BadHttpMessage
    | LineTooLong
    | TransferEncodingError
    | ContentLengthError

  datatype Field = Field(name: bytes, value: bytes)

  /** The bytes of a 7-bit string literal. */
  function Ascii(s: string): (r: bytes)
    requires forall i :: 0 <= i < |s| ==> s[i] < 128 as char
    ensures |r| == |s|
  {
    seq(|s|, i requires 0 <= i < |s| => s[i] as int as byte)
  }

  predicate IsTokenChar(b: byte)
  {
    || 48 <= b <= 57 || 65 <= b <= 90 || 97 <= b <= 122
    || b == 33 || 35 <= b <= 39 || b == 42 || b == 43 || b == 45 || b == 46
    || 94 <= b <= 96 || b == 124 || b == 126
  }

  predicate IsToken(s: bytes)
  {
    s != [] && forall i :: 0 <= i < |s| ==> IsTokenChar(s[i])
  }

  predicate IsBlank(b: byte) { b == SPACE || b == TAB }

  /** The control bytes a field value must not hold: all of them but TAB. */
  predicate IsForbiddenControl(b: byte)
  {
    b <= 8 || 10 <= b <= 31 || b == 127
  }

  predicate HasForbiddenControl(s: bytes)
  {
    exists i :: 0 <= i < |s| && IsForbiddenControl(s[i])
  }

  function LStrip(s: bytes): (r: bytes)
    ensures r != [] ==> !IsBlank(r[0])
    ensures s != [] && !IsBlank(s[0]) ==> r == s
  {
    if s != [] && IsBlank(s[0]) then LStrip(s[1..]) else s
  }

  function RStrip(s: bytes): (r: bytes)
    ensures |r| <= |s| && r == s[..|r|]
    ensures r != [] ==> !IsBlank(r[|r| - 1]) && r[0] == s[0]
  {
    if s != [] && IsBlank(s[|s| - 1]) then RStrip(s[..|s| - 1]) else s
  }

  function Strip(s: bytes): bytes { RStrip(LStrip(s)) }

  /** A value neither starts nor ends with a blank. */
  predicate NoEdgeBlank(v: bytes)
  {
    v != [] ==> !IsBlank(v[0]) && !IsBlank(v[|v| - 1])
  }

  function Lower(s: bytes): bytes
  {
    seq(|s|, i requires 0 <= i < |s| => if 65 <= s[i] <= 90 then s[i] + 32 else s[i])
  }

  predicate IsSingleton(lowered: bytes)
  {
    lowered in {
      Ascii("content-length"), Ascii("content-location"), Ascii("content-range"),
      Ascii("content-type"), Ascii("etag"), Ascii("host"), Ascii("max-forwards"),
      Ascii("server"), Ascii("transfer-encoding"), Ascii("user-agent")
    }
  }

  /** The case-insensitive `name in headers`. */
  predicate HasName(fields: seq<Field>, name: bytes)
  {
    exists i :: 0 <= i < |fields| && Lower(fields[i].name) == Lower(name)
  }

  /** One field may be added to the fields in front of it. */
  predicate Admissible(before: seq<Field>, f: Field)
  {
    && IsToken(f.name)
    && NoEdgeBlank(f.value)
    && !HasForbiddenControl(f.value)
    && !(HasName(before, f.name) && IsSingleton(Lower(f.name)))
  }

  /** The field lists a strict parser can deliver. */
  predicate WellFormed(fields: seq<Field>)
  {
    forall i :: 0 <= i < |fields| ==> Admissible(fields[..i], fields[i])
  }

  /** The name and the raw value of a line: cut at the first colon and checked. */
  function ParseLine(line: bytes): Result<Field, HttpError>
  {
    var colon := Find(line, [COLON], 0);
    if colon <= 0 then Failure(InvalidHeader)
    else
      var name := line[..colon];
      if IsBlank(name[0]) || IsBlank(name[|name| - 1]) then Failure(InvalidHeader)
      else if !IsToken(name) then Failure(InvalidHeader)
      else Success(Field(name, Strip(LStrip(line[colon + 1..]))))
  }

  /** The checks made on a field once the line behind it was fetched. */
  function AddField(before: seq<Field>, f: Field): Result<seq<Field>, HttpError>
  {
    if HasForbiddenControl(f.value) then Failure(InvalidHeader)
    else if HasName(before, f.name) && IsSingleton(Lower(f.name)) then Failure(BadHttpMessage)
    else Success(before + [f])
  }

  /** What the strict parser makes of `lines`, the fields `before` being parsed already. */
  function ParseFrom(lines: seq<bytes>, before: seq<Field>): Result<seq<Field>, HttpError>
    requires lines != [] && lines[|lines| - 1] == []
  {
    if lines[0] == [] then Success(before)
    else
      match ParseLine(lines[0])
      case Failure(e) => Failure(e)
      case Success(f) =>
        match AddField(before, f)
        case Failure(e) => Failure(e)
        case Success(fields) => ParseFrom(lines[1..], fields)
  }

  function Parse(lines: seq<bytes>): Result<seq<Field>, HttpError>
    requires lines != [] && lines[|lines| - 1] == []
  {
    ParseFrom(lines, [])
  }

  /**
   * `HeadersParser.parse_headers` with `lax` off: an index runs over the lines up to the first
   * empty one and the fields are collected in a list.
   */
  method ParseHeaders(lines: seq<bytes>) returns (r: Result<seq<Field>, HttpError>)
    requires lines != [] && lines[|lines| - 1] == []
    ensures r == Parse(lines)
    ensures r.Success? ==> WellFormed(r.value)
    ensures r.Failure? ==> r.error == InvalidHeader || r.error == BadHttpMessage
  {
    var fields: seq<Field> := [];
    var idx := 0;
    var line := lines[0];
    assert lines[0..] == lines;
    while line != []
      invariant 0 <= idx < |lines| && line == lines[idx]
      invariant ParseFrom(lines[idx..], fields) == Parse(lines)
      invariant WellFormed(fields)
      decreases |lines| - idx
    {
      assert lines[idx..][0] == line && lines[idx..][1..] == lines[idx + 1..];
      var colon := Find(line, [COLON], 0);
      if colon < 0 {
        return Failure(InvalidHeader);
      }
      var name, value := line[..colon], line[colon + 1..];
      if |name| == 0 {
        return Failure(InvalidHeader);
      }
      if IsBlank(name[0]) || IsBlank(name[|name| - 1]) {
        return Failure(InvalidHeader);
      }
      value := LStrip(value);
      if !IsToken(name) {
        return Failure(InvalidHeader);
      }
      idx := idx + 1;
      line := lines[idx];
      value := Strip(value);
      if HasForbiddenControl(value) {
        return Failure(InvalidHeader);
      }
      if HasName(fields, name) && IsSingleton(Lower(name)) {
        return Failure(BadHttpMessage);
      }
      StripNoEdgeBlank(LStrip(lines[idx - 1][colon + 1..]));
      WellFormedSnoc(fields, Field(name, value));
      fields := fields + [Field(name, value)];
    }
    return Success(fields);
  }

  lemma StripNoEdgeBlank(s: bytes)
    ensures NoEdgeBlank(Strip(s))
  {
  }

  lemma WellFormedSnoc(before: seq<Field>, f: Field)
    requires WellFormed(before) && Admissible(before, f)
    ensures WellFormed(before + [f])
  {
    var all := before + [f];
    forall i | 0 <= i < |all|
      ensures Admissible(all[..i], all[i])
    {
      if i < |before| {
        assert all[..i] == before[..i];
      } else {
        assert all[..i] == before;
      }
    }
  }

  /** Whatever the parser accepts, from whatever lines, is a well-formed list. */
  lemma {:induction false} ParsedIsWellFormed(lines: seq<bytes>, before: seq<Field>)
    requires lines != [] && lines[|lines| - 1] == []
    requires WellFormed(before)
    ensures ParseFrom(lines, before).Success? ==> WellFormed(ParseFrom(lines, before).value)
    decreases |lines|
  {
    if lines[0] != [] && ParseLine(lines[0]).Success? {
      var f := ParseLine(lines[0]).value;
      StripNoEdgeBlank(LStrip(lines[0][Find(lines[0], [COLON], 0) + 1..]));
      if AddField(before, f).Success? {
        WellFormedSnoc(before, f);
        ParsedIsWellFormed(lines[1..], before + [f]);
      }
    }
  }

  /** One serialised field, without its CRLF. */
  function FieldLine(f: Field): bytes { f.name + [COLON, SPACE] + f.value }

  function FieldLines(fields: seq<Field>): (r: seq<bytes>)
    ensures |r| == |fields|
  {
    seq(|fields|, i requires 0 <= i < |fields| => FieldLine(fields[i]))
  }

  /** The first colon is the one behind the name, as no name holds one. */
  lemma ColonFound(line: bytes, name: bytes, raw: bytes)
    requires line == name + [COLON] + raw && IsToken(name)
    ensures Find(line, [COLON], 0) == |name| && line[..|name|] == name && line[|name| + 1..] == raw
    ensures !IsBlank(name[0]) && !IsBlank(name[|name| - 1])
  {
    assert line[|name|..|name| + 1] == [COLON];
    forall j | 0 <= j < |name|
      ensures !OccursAt(line, [COLON], j)
    {
      assert line[j..j + 1] == [name[j]];
      assert IsTokenChar(name[j]);
    }
    FindIs(line, [COLON], 0, |name|);
    assert IsTokenChar(name[0]) && IsTokenChar(name[|name| - 1]);
  }

  lemma FieldLineParses(f: Field)
    requires IsToken(f.name) && NoEdgeBlank(f.value)
    ensures FieldLine(f) != [] && ParseLine(FieldLine(f)) == Success(f)
  {
    FieldLineParts(f.name, f.value);
    ColonFound(FieldLine(f), f.name, [SPACE] + f.value);
    BlankStripped(f.value);
  }

  lemma FieldLineParts(name: bytes, value: bytes)
    ensures name + [COLON, SPACE] + value == name + [COLON] + ([SPACE] + value)
  {
  }

  lemma BlankStripped(value: bytes)
    requires NoEdgeBlank(value)
    ensures Strip(LStrip([SPACE] + value)) == value
  {
    assert ([SPACE] + value)[1..] == value;
    assert LStrip([SPACE] + value) == value;
  }

  lemma {:induction false} FieldLinesParse(before: seq<Field>, fields: seq<Field>)
    requires WellFormed(before + fields)
    ensures ParseFrom(FieldLines(fields) + [[]], before) == Success(before + fields)
    decreases |fields|
  {
    var lines := FieldLines(fields) + [[]];
    if fields == [] {
      assert before + fields == before;
    } else {
      var f := fields[0];
      assert (before + fields)[..|before|] == before && (before + fields)[|before|] == f;
      FieldLineParses(f);
      assert lines[0] == FieldLine(f);
      assert lines[1..] == FieldLines(fields[1..]) + [[]];
      assert (before + [f]) + fields[1..] == before + fields;
      FieldLinesParse(before + [f], fields[1..]);
    }
  }

  /**
   * Serialising and parsing give back exactly the fields, names and values in order, for the
   * well-formed lists and for no others.
   */
  lemma FieldsRoundTrip(fields: seq<Field>)
    ensures Parse(FieldLines(fields) + [[]]) == Success(fields) <==> WellFormed(fields)
  {
    if WellFormed(fields) {
      assert [] + fields == fields;
      FieldLinesParse([], fields);
    }
    ParsedIsWellFormed(FieldLines(fields) + [[]], []);
  }
}
