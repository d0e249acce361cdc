/** What the header block of a request says about its body: the framing part of `parse_header`. */
module Headers {
  import opened ByteStrings
  import opened Wrappers
  import opened ChunkedCoding

  /** The settings that the model reads. `uriRefused` stands for the library call that splits the URI. */
  datatype Adjustments = Adjustments(
    maxHeader: int,
    maxBody: int,
    inbufOverflow: int,
    uriRefused: Bytes -> bool)

  datatype Framing = NoBody | Fixed(length: nat) | Chunked

  datatype Head =
    | Head(framing: Framing, expectsContinue: bool)
    | Malformed(expectsContinue: bool)
    | Unsupported

  type HeaderMap = map<Bytes, Bytes>

  const CONTENT_LENGTH := Ascii("CONTENT_LENGTH")
  const CONTENT_TYPE := Ascii("CONTENT_TYPE")
  const HOST := Ascii("HOST")
  const TRANSFER_ENCODING := Ascii("TRANSFER_ENCODING")
  const EXPECT := Ascii("EXPECT")
  const CHUNKED := Ascii("chunked")
  const HUNDRED_CONTINUE := Ascii("100-continue")
  const VERSION_1_1 := Ascii("1.1")

  // ---------- characters ----------

  predicate IsSpace(b: byte) { 9 <= b <= 13 || b == 32 }

  predicate IsBlank(b: byte) { b == 32 || b == 9 }

  /** visible or obs-text characters, and the blanks between them */
  predicate IsFieldByte(b: byte) { 33 <= b <= 126 || 128 <= b || IsBlank(b) }

  function UpperByte(b: byte): byte { if 97 <= b <= 122 then b - 32 else b }

  function LowerByte(b: byte): byte { if 65 <= b <= 90 then b + 32 else b }

  function Upper(s: Bytes): Bytes { seq(|s|, i requires 0 <= i < |s| => UpperByte(s[i])) }

  function Lower(s: Bytes): Bytes { seq(|s|, i requires 0 <= i < |s| => LowerByte(s[i])) }

  /** upper case, with dashes turned into underscores */
  function HeaderKey(name: Bytes): Bytes {
    seq(|name|, i requires 0 <= i < |name| => if name[i] == 45 then 95 else UpperByte(name[i]))
  }

  function LStrip(s: Bytes): (t: Bytes)
    ensures |t| <= |s| && (t != [] ==> !IsSpace(t[0]))
  {
    if s != [] && IsSpace(s[0]) then LStrip(s[1..]) else s
  }

  function RStrip(s: Bytes): (t: Bytes)
    ensures t <= s && (t != [] ==> !IsSpace(t[|t| - 1]))
  {
    if s != [] && IsSpace(s[|s| - 1]) then RStrip(s[..|s| - 1]) else s
  }

  /** `strip(b" \t")` */
  function StripBlanks(s: Bytes): Bytes {
    if s != [] && IsBlank(s[0]) then StripBlanks(s[1..])
    else if s != [] && IsBlank(s[|s| - 1]) then StripBlanks(s[..|s| - 1])
    else s
  }

  predicate HasBareEol(s: Bytes) { CR in s || LF in s }

  function FindByte(s: Bytes, b: byte): (p: int)
    ensures -1 <= p < |s|
    ensures p >= 0 ==> s[p] == b
    ensures forall i :: 0 <= i < (if p < 0 then |s| else p) ==> s[i] != b
  {
    if s == [] then -1
    else if s[0] == b then 0
    else var p := FindByte(s[1..], b); if p < 0 then -1 else p + 1
  }

  // ---------- lines ----------

  /** `split(b"\r\n")` */
  function SplitLines(s: Bytes): (lines: seq<Bytes>)
    ensures lines != []
    decreases |s|
  {
    var p := FindCrlf(s);
    if p < 0 then [s] else [s[..p]] + SplitLines(s[p + 2..])
  }

  /** Joins continuation lines to the line before them. */
  function FoldLines(lines: seq<Bytes>, r: seq<Bytes>): Option<seq<Bytes>>
    decreases |lines|
  {
    if lines == [] then Some(r)
    else
      var line := lines[0];
      if line == [] then FoldLines(lines[1..], r)
      else if HasBareEol(line) then None
      else if IsBlank(line[0]) then
        if r == [] then None
        else FoldLines(lines[1..], r[|r| - 1 := r[|r| - 1] + line])
      else FoldLines(lines[1..], r + [line])
  }

  method GetHeaderLines(header: Bytes) returns (r: Option<seq<Bytes>>)
    ensures r == FoldLines(SplitLines(header), [])
  {
    var lines := SplitLines(header);
    var acc: seq<Bytes> := [];
    for i := 0 to |lines|
      invariant FoldLines(lines[i..], acc) == FoldLines(lines, [])
    {
      var line := lines[i];
      assert lines[i..][1..] == lines[i + 1..];
      if line == [] {
        continue;
      }
      if HasBareEol(line) {
        return None;
      }
      if IsBlank(line[0]) {
        if acc == [] {
          return None;
        }
        acc := acc[|acc| - 1 := acc[|acc| - 1] + line];
      } else {
        acc := acc + [line];
      }
    }
    r := Some(acc);
  }

  // ---------- fields ----------

  datatype Field = Field(name: Bytes, value: Bytes)

  /** field-name ":" OWS field-value OWS */
  function MatchField(line: Bytes): Option<Field> {
    var n := TokenLength(line);
    if n == 0 || n == |line| || line[n] != 58 then None
    else if exists i :: n < i < |line| && !IsFieldByte(line[i]) then None
    else Some(Field(line[..n], StripBlanks(line[n + 1..])))
  }

  predicate IsSingleton(key: Bytes) {
    key == HOST || key == CONTENT_LENGTH || key == CONTENT_TYPE
  }

  const COMMA_SPACE: Bytes := [44, 32]

  /** None for a field that may not be repeated. */
  function AddField(h: HeaderMap, f: Field): Option<HeaderMap> {
    var key := HeaderKey(f.name);
    if 95 in f.name then Some(h)
    else if key in h then
      if IsSingleton(key) then None else Some(h[key := h[key] + COMMA_SPACE + f.value])
    else Some(h[key := f.value])
  }

  /** The dictionary after the lines, or up to the first line that is refused; and whether all passed. */
  function AddLines(lines: seq<Bytes>, h: HeaderMap): (HeaderMap, bool)
    decreases |lines|
  {
    if lines == [] then (h, true)
    else
      match MatchField(lines[0])
      case None => (h, false)
      case Some(f) =>
        match AddField(h, f)
        case None => (h, false)
        case Some(h') => AddLines(lines[1..], h')
  }

  // ---------- the request line ----------

  datatype StartLine = StartLine(command: Bytes, uri: Bytes, version: Bytes)

  predicate IsVersionTail(s: Bytes) {
    |s| == 8 && s[..5] == Ascii("HTTP/") && IsDigit(s[5]) && s[6] == 46 && IsDigit(s[7])
  }

  function CrackFirstLine(line: Bytes): Option<StartLine> {
    var n := TokenLength(line);
    if n == 0 || n == |line| || line[n] != 32 || Upper(line[..n]) != line[..n] then None
    else
      var rest := line[n + 1..];
      var sp := FindByte(rest, 32);
      if sp < 0 then
        if rest == [] then None else Some(StartLine(line[..n], rest, []))
      else if sp == 0 || !IsVersionTail(rest[sp + 1..]) then None
      else Some(StartLine(line[..n], rest[..sp], rest[sp + 6..]))
  }

  // ---------- framing ----------

  function SplitCommas(s: Bytes): seq<Bytes>
    decreases |s|
  {
    var p := FindByte(s, 44);
    if p < 0 then [s] else [s[..p]] + SplitCommas(s[p + 1..])
  }

  /** The transfer codings named, in lower case; empty elements are dropped. */
  function Encodings(parts: seq<Bytes>): seq<Bytes>
    decreases |parts|
  {
    if parts == [] then []
    else (if parts[0] == [] then [] else [Lower(StripBlanks(parts[0]))]) + Encodings(parts[1..])
  }

  function Get(h: HeaderMap, key: Bytes, default: Bytes): Bytes {
    if key in h then h[key] else default
  }

  predicate OnlyDigits(s: Bytes) {
    var t := DropFinalLf(s);
    t != [] && forall i :: 0 <= i < |t| ==> IsDigit(t[i])
  }

  function DigitValue(b: byte): nat
    requires IsDigit(b)
  {
    b as int - 48
  }

  function DecimalValue(s: Bytes): nat
    requires forall i :: 0 <= i < |s| ==> IsDigit(s[i])
  {
    if s == [] then 0
    else
      assert IsDigit(s[|s| - 1]);
      10 * DecimalValue(s[..|s| - 1]) + DigitValue(s[|s| - 1])
  }

  function LengthFraming(h: HeaderMap, expects: bool): Head {
    var cl := Get(h, CONTENT_LENGTH, [48]);
    if !OnlyDigits(cl) then Malformed(expects)
    else
      var n := DecimalValue(DropFinalLf(cl));
      Head(if n == 0 then NoBody else Fixed(n), expects)
  }

  function FramingOf(version: Bytes, h: HeaderMap): Head {
    if version != VERSION_1_1 then LengthFraming(h, false)
    else
      var encodings := Encodings(SplitCommas(Get(h, TRANSFER_ENCODING, [])));
      var expects := Lower(Get(h, EXPECT, [])) == HUNDRED_CONTINUE;
      if exists e :: e in encodings && e != CHUNKED then Unsupported
      else if |encodings| > 1 then Unsupported
      else if |encodings| == 1 then Head(Chunked, expects)
      else LengthFraming(h, expects)
  }

  /** The dictionary that the application sees: the transfer coding is the server's business. */
  function VisibleHeaders(version: Bytes, h: HeaderMap): HeaderMap {
    var h' := if version == VERSION_1_1 then h - {TRANSFER_ENCODING} else h;
    if FramingOf(version, h) in {Head(Chunked, true), Head(Chunked, false)}
    then h' - {CONTENT_LENGTH} else h'
  }

  /** What the parser makes of a header block when the dictionary already holds h0. */
  function ReadHeaderInto(adj: Adjustments, block: Bytes, h0: HeaderMap): (Head, HeaderMap) {
    var p := FindCrlf(block);
    if p < 0 then (Malformed(false), h0)
    else
      var firstLine := RStrip(block[..p]);
      if HasBareEol(firstLine) then (Malformed(false), h0)
      else
        match FoldLines(SplitLines(block[p + 2..]), [])
        case None => (Malformed(false), h0)
        case Some(lines) =>
          var (h, passed) := AddLines(lines, h0);
          if !passed then (Malformed(false), h)
          else
            match CrackFirstLine(firstLine)
            case None => (Malformed(false), h)
            case Some(start) =>
              if adj.uriRefused(start.uri) then (Malformed(false), h)
              else (FramingOf(start.version, h), VisibleHeaders(start.version, h))
  }

  function ReadHeader(adj: Adjustments, block: Bytes): (Head, HeaderMap) {
    ReadHeaderInto(adj, block, map[])
  }

  /** The loop over the header lines that fills the dictionary. */
  method CollectFields(lines: seq<Bytes>, h0: HeaderMap) returns (h: HeaderMap, passed: bool)
    ensures (h, passed) == AddLines(lines, h0)
  {
    h := h0;
    for i := 0 to |lines|
      invariant AddLines(lines[i..], h) == AddLines(lines, h0)
    {
      assert lines[i..][1..] == lines[i + 1..];
      var field := MatchField(lines[i]);
      if field.None? {
        return h, false;
      }
      var f := field.value;
      if 95 in f.name {
        continue;
      }
      var key := HeaderKey(f.name);
      if IsSingleton(key) && key in h {
        return h, false;
      }
      if key in h {
        h := h[key := h[key] + COMMA_SPACE + f.value];
      } else {
        h := h[key := f.value];
      }
    }
    passed := true;
  }

  method ParseBlock(adj: Adjustments, block: Bytes, h0: HeaderMap) returns (head: Head, h: HeaderMap)
    ensures (head, h) == ReadHeaderInto(adj, block, h0)
  {
    hide FoldLines, AddLines, FramingOf, VisibleHeaders, CrackFirstLine, SplitLines, RStrip, FindCrlf;
    head, h := Malformed(false), h0;
    var p := FindCrlf(block);
    if p < 0 {
      return;
    }
    var firstLine := RStrip(block[..p]);
    if HasBareEol(firstLine) {
      return;
    }
    var lines := GetHeaderLines(block[p + 2..]);
    if lines.None? {
      return;
    }
    var passed;
    h, passed := CollectFields(lines.value, h0);
    if !passed {
      return;
    }
    var start := CrackFirstLine(firstLine);
    if start.None? || adj.uriRefused(start.value.uri) {
      return;
    }
    head := FramingOf(start.value.version, h);
    h := VisibleHeaders(start.value.version, h);
  }

  function Decimal(n: nat): (s: Bytes)
    ensures s != [] && forall i :: 0 <= i < |s| ==> IsDigit(s[i])
  {
    if n < 10 then [(48 + n) as byte] else Decimal(n / 10) + [(48 + n % 10) as byte]
  }

  lemma {:induction false} DecimalRoundTrip(n: nat)
    ensures DecimalValue(Decimal(n)) == n
  {
    var s := Decimal(n);
    if n < 10 {
      assert s[..|s| - 1] == [];
    } else {
      DecimalRoundTrip(n / 10);
      assert s[..|s| - 1] == Decimal(n / 10);
    }
  }

  /** Section 6.3 of RFC 9112: an accepted message is chunked exactly when an HTTP/1.1 header names
      the chunked coding once and nothing else, and otherwise as long as its Content-Length says. */
  lemma FramingFollowsTheRules(version: Bytes, h: HeaderMap)
    ensures var head := FramingOf(version, h);
      var te := Encodings(SplitCommas(Get(h, TRANSFER_ENCODING, [])));
      && (head.Head? && head.framing.Chunked? <==> version == VERSION_1_1 && te == [CHUNKED])
      && (head.Unsupported? <==> version == VERSION_1_1 && te != [] && te != [CHUNKED])
      && (head.Head? && head.framing.Fixed? ==>
        CONTENT_LENGTH in h && OnlyDigits(h[CONTENT_LENGTH])
        && head.framing.length == DecimalValue(DropFinalLf(h[CONTENT_LENGTH])))
      && (head.Malformed? ==> CONTENT_LENGTH in h && !OnlyDigits(h[CONTENT_LENGTH]))
  {
    var te := Encodings(SplitCommas(Get(h, TRANSFER_ENCODING, [])));
    if te != [] && te != [CHUNKED] {
      assert te[0] in te;
    }
    assert DropFinalLf([48]) == [48];
    assert [48 as byte][..0] == [];
    assert DecimalValue([48]) == 10 * DecimalValue([]) + 0;
  }

  const SUBSTITUTE_BLOCK := Ascii("GET / HTTP/1.0") + CRLF

  /** The block that is parsed in place of a header that is too large announces no body and fills in
      nothing. */
  lemma SubstituteBlockIsEmpty(adj: Adjustments)
    requires !adj.uriRefused([47])
    ensures ReadHeader(adj, SUBSTITUTE_BLOCK) == (Head(NoBody, false), map[])
  {
    var block := SUBSTITUTE_BLOCK;
    var line := Ascii("GET / HTTP/1.0");
    assert |line| == 14 && block[14] == CR && block[15] == LF;
    FindCrlfUnique(block, 14);
    assert block[..14] == line && block[16..] == [];
    assert line[13] == 48 && RStrip(line) == line;
    assert !HasBareEol(line);
    assert SplitLines([]) == [[]];
    var blank: seq<Bytes> := [[]];
    assert blank[1..] == [] && FoldLines(blank, []) == FoldLines([], []);
    SubstituteLine(line);
    NoLength();
  }

  lemma SubstituteLine(line: Bytes)
    requires line == Ascii("GET / HTTP/1.0")
    ensures CrackFirstLine(line) == Some(StartLine(Ascii("GET"), [47], Ascii("1.0")))
  {
    var rest := line[4..];
    assert line[3] == 32 && rest[0] == 47 && rest[1] == 32;
    assert rest[2..] == Ascii("HTTP/1.0");
    SubstituteVersion(rest[2..]);
    TokenStops(line, 3);
    FindByteUnique(rest, 32, 1);
    hide TokenLength, FindByte, IsVersionTail;
    assert rest[..1] == [47] && rest[7..] == rest[2..][5..];
    assert line[..3] == Ascii("GET") && Upper(line[..3]) == line[..3];
  }

  lemma SubstituteVersion(s: Bytes)
    requires s == Ascii("HTTP/1.0")
    ensures IsVersionTail(s) && s[5..] == Ascii("1.0")
  {
    assert s[..5] == Ascii("HTTP/");
  }

  lemma {:induction false} TokenStops(s: Bytes, n: nat)
    requires n < |s| && !IsTchar(s[n]) && forall i :: 0 <= i < n ==> IsTchar(s[i])
    ensures TokenLength(s) == n
  {
    if n > 0 {
      TokenStops(s[1..], n - 1);
    }
  }

  lemma {:induction false} FindByteUnique(s: Bytes, b: byte, p: nat)
    requires p < |s| && s[p] == b && forall i :: 0 <= i < p ==> s[i] != b
    ensures FindByte(s, b) == p
  {
  }

  lemma NoLength()
    ensures FramingOf(Ascii("1.0"), map[]) == Head(NoBody, false) && VisibleHeaders(Ascii("1.0"), map[]) == map[]
  {
    assert Ascii("1.0")[2] != VERSION_1_1[2];
    assert DropFinalLf([48]) == [48];
    assert [48 as byte][..0] == [];
    assert DecimalValue([48]) == 10 * DecimalValue([]) + 0;
  }

  lemma SplitFirst(line: Bytes, rest: Bytes)
    requires CleanLine(line)
    ensures SplitLines(line) == [line] && SplitLines(line + CRLF + rest) == [line] + SplitLines(rest)
  {
    var s := line + CRLF + rest;
    assert forall i :: 0 <= i < |line| ==> line[i] in line && s[i] == line[i];
    FindCrlfUnique(s, |line|);
    assert s[|line| + 2..] == rest && s[..|line|] == line;
    assert FindCrlf(line) < 0;
  }

  lemma {:induction false} SplitJoin(lines: seq<Bytes>)
    requires lines != [] && forall l :: l in lines ==> CleanLine(l)
    ensures SplitLines(JoinLines(lines)) == lines
    decreases |lines|
  {
    hide SplitLines, CleanLine;
    assert lines[0] in lines;
    if |lines| == 1 {
      SplitFirst(lines[0], []);
    } else {
      SplitFirst(lines[0], JoinLines(lines[1..]));
      SplitJoin(lines[1..]);
    }
  }
}
