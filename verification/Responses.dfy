/** Response header blocks, and a client that reads responses off a kept-open connection by the rules
    of section 6.3 of RFC 9112. */
module Responses {
  import opened ByteStrings
  import opened Wrappers
  import opened ChunkedCoding
  import opened ChunkFraming
  import opened Headers

  datatype Header = Header(name: Bytes, value: Bytes)

  const CONTENT_LENGTH_NAME := Ascii("Content-Length")
  const TRANSFER_ENCODING_NAME := Ascii("Transfer-Encoding")
  const CONNECTION_NAME := Ascii("Connection")
  const SERVER_NAME := Ascii("Server")
  const VIA_NAME := Ascii("Via")
  const DATE_NAME := Ascii("Date")
  const CLOSE := Ascii("close")
  const KEEP_ALIVE := Ascii("keep-alive")
  const KEEP_ALIVE_VALUE := Ascii("Keep-Alive")
  const WAITRESS := Ascii("waitress")
  const HTTP_SLASH := Ascii("HTTP/")
  const VERSION_1_0 := Ascii("1.0")

  // ---------- the header that the server builds ----------

  /** Every dash-separated part capitalized. */
  function Normalize(name: Bytes): (r: Bytes)
    ensures |r| == |name|
  {
    seq(|name|, i requires 0 <= i < |name| =>
      if i == 0 || name[i - 1] == 45 then UpperByte(name[i]) else LowerByte(name[i]))
  }

  /** `capitalize()` */
  function Capitalize(name: Bytes): Bytes {
    seq(|name|, i requires 0 <= i < |name| => if i == 0 then UpperByte(name[i]) else LowerByte(name[i]))
  }

  /** 1xx, 204 and 304 responses have no body. */
  predicate HasBody(status: Bytes) {
    !(Ascii("1") <= status || Ascii("204") <= status || Ascii("304") <= status)
  }

  function NormalizeAll(hs: seq<Header>, hasBody: bool): seq<Header> {
    if hs == [] then []
    else
      var h := Header(Normalize(hs[0].name), hs[0].value);
      (if h.name == CONTENT_LENGTH_NAME && !hasBody then [] else [h]) + NormalizeAll(hs[1..], hasBody)
  }

  /** The value of the last header of that name, empty when there is none: Python's `not value`. */
  function LastValue(hs: seq<Header>, name: Bytes): Bytes {
    if hs == [] then []
    else if hs[|hs| - 1].name == name then hs[|hs| - 1].value
    else LastValue(hs[..|hs| - 1], name)
  }

  predicate HasName(hs: seq<Header>, name: Bytes) {
    exists i :: 0 <= i < |hs| && hs[i].name == name
  }

  /** The header part of `set_close_on_finish`. */
  function WithClose(hs: seq<Header>): seq<Header> {
    if exists i :: 0 <= i < |hs| && Capitalize(hs[i].name) == CONNECTION_NAME then hs
    else hs + [Header(CONNECTION_NAME, CLOSE)]
  }

  datatype Context = Context(
    version: Bytes,       // "1.0" or "1.1"
    connection: Bytes,    // the request's Connection header in lower case
    ident: Bytes,
    date: Bytes)

  datatype Built = Built(headers: seq<Header>, closes: bool, chunked: bool)

  /** `str(n)` */
  function Str(n: int): Bytes { if n < 0 then [45] + Decimal(-n) else Decimal(n) }

  function WithLength(hs: seq<Header>, contentLength: Option<int>, hasBody: bool): seq<Header> {
    if !HasName(hs, CONTENT_LENGTH_NAME) && contentLength.Some? && hasBody
    then hs + [Header(CONTENT_LENGTH_NAME, Str(contentLength.value))] else hs
  }

  function Persistence(c: Context, hs: seq<Header>, closes: bool, hasBody: bool): Built {
    var missing := LastValue(hs, CONTENT_LENGTH_NAME) == [];
    if c.version == VERSION_1_0 then
      if c.connection == KEEP_ALIVE && !missing
      then Built(hs + [Header(CONNECTION_NAME, KEEP_ALIVE_VALUE)], closes, false)
      else Built(WithClose(hs), true, false)
    else
      var hs1 := if c.connection == CLOSE then WithClose(hs) else hs;
      var closes1 := closes || c.connection == CLOSE;
      if !missing then Built(hs1, closes1, false)
      else
        var hs2 := if hasBody then hs1 + [Header(TRANSFER_ENCODING_NAME, CHUNKED)] else hs1;
        Built(if closes1 then hs2 else WithClose(hs2), true, hasBody)
  }

  function Identity(c: Context, hs: seq<Header>, server: Bytes, date: Bytes): seq<Header> {
    hs
    + (if server == [] then (if c.ident == [] then [] else [Header(SERVER_NAME, c.ident)])
       else [Header(VIA_NAME, if c.ident == [] then WAITRESS else c.ident)])
    + (if date == [] then [Header(DATE_NAME, c.date)] else [])
  }

  /** The headers of the response, whether the connection closes after it, and whether it is chunked. */
  function BuildHeaders(c: Context, hs: seq<Header>, contentLength: Option<int>, closes: bool, hasBody: bool): Built {
    var normal := NormalizeAll(hs, hasBody);
    var p := Persistence(c, WithLength(normal, contentLength, hasBody), closes, hasBody);
    p.(headers := Identity(c, p.headers, LastValue(normal, SERVER_NAME), LastValue(normal, DATE_NAME)))
  }

  predicate NameBefore(a: Bytes, b: Bytes) {
    a == [] || (b != [] && (a[0] < b[0] || (a[0] == b[0] && NameBefore(a[1..], b[1..]))))
  }

  /** Names are compared as Python compares strings. */
  lemma {:induction false} NameOrder(a: Bytes, b: Bytes)
    ensures NameBefore(a, b)
      <==> a <= b || exists k :: 0 <= k < |a| && k < |b| && a[..k] == b[..k] && a[k] < b[k]
  {
    if a != [] && b != [] {
      NameOrder(a[1..], b[1..]);
      if k :| 0 <= k < |a| && k < |b| && a[..k] == b[..k] && a[k] < b[k] {
        if k > 0 {
          assert a[0] == a[..k][0] && b[0] == b[..k][0];
          assert a[1..][..k - 1] == a[..k][1..] && b[1..][..k - 1] == b[..k][1..];
        }
      }
      if a[0] == b[0] {
        assert a <= b <==> a[1..] <= b[1..];
        if k :| 0 <= k < |a| - 1 && k < |b| - 1 && a[1..][..k] == b[1..][..k] && a[1..][k] < b[1..][k] {
          assert a[..k + 1] == [a[0]] + a[1..][..k] && b[..k + 1] == [b[0]] + b[1..][..k];
        }
      } else if a[0] < b[0] {
        assert a[..0] == b[..0];
      }
    }
  }

  function Insert(h: Header, hs: seq<Header>): seq<Header> {
    if hs == [] || NameBefore(h.name, hs[0].name) then [h] + hs else [hs[0]] + Insert(h, hs[1..])
  }

  /** A stable sort by name. */
  function Sort(hs: seq<Header>): seq<Header> {
    if hs == [] then [] else Insert(hs[0], Sort(hs[1..]))
  }

  function OfName(hs: seq<Header>, name: Bytes): seq<Header> {
    if hs == [] then [] else (if hs[0].name == name then [hs[0]] else []) + OfName(hs[1..], name)
  }

  predicate Ordered(hs: seq<Header>) {
    forall i :: 0 < i < |hs| ==> NameBefore(hs[i - 1].name, hs[i].name)
  }

  /** The headers come out by name, and those of one name as the application gave them. */
  lemma {:induction false} SortIsStable(hs: seq<Header>, name: Bytes)
    ensures Ordered(Sort(hs)) && OfName(Sort(hs), name) == OfName(hs, name)
  {
    hide NameBefore, Insert, Ordered, OfName;
    if hs == [] {
      NothingOrdered();
    } else {
      OfNameFirst(hs, name);
      SortIsStable(hs[1..], name);
      InsertIsStable(hs[0], Sort(hs[1..]), name);
    }
  }

  lemma OfNameFirst(hs: seq<Header>, name: Bytes)
    requires hs != []
    ensures OfName(hs, name) == OfName([hs[0]], name) + OfName(hs[1..], name)
  {
    assert [hs[0]][1..] == [];
  }

  lemma NothingOrdered()
    ensures Ordered([])
  {
  }

  lemma {:induction false} InsertIsStable(h: Header, hs: seq<Header>, name: Bytes)
    requires Ordered(hs)
    ensures var r := Insert(h, hs);
      && Ordered(r) && OfName(r, name) == OfName([h], name) + OfName(hs, name)
      && r != [] && (r[0] == h || (hs != [] && r[0] == hs[0]))
  {
    hide NameBefore, Ordered;
    if hs == [] || NameBefore(h.name, hs[0].name) {
      assert Insert(h, hs)[1..] == hs && [h][1..] == [];
      OrderedFront(h, hs);
    } else {
      var more := Insert(h, hs[1..]);
      OrderedTail(hs);
      InsertIsStable(h, hs[1..], name);
      NameTotal(h.name, hs[0].name);
      assert Insert(h, hs)[1..] == more && [h][1..] == [];
      SameNames(h, hs[0]);
      OrderedFront(hs[0], more);
    }
  }

  lemma OrderedFront(h: Header, hs: seq<Header>)
    requires Ordered(hs) && (hs == [] || NameBefore(h.name, hs[0].name))
    ensures Ordered([h] + hs)
  {
    hide NameBefore;
    var r := [h] + hs;
    forall i | 0 < i < |r| ensures NameBefore(r[i - 1].name, r[i].name) {
      if i > 1 {
        assert r[i - 1] == hs[i - 1 - 1];
      }
    }
  }

  lemma OrderedTail(hs: seq<Header>)
    requires Ordered(hs) && hs != []
    ensures Ordered(hs[1..]) && (|hs| > 1 ==> NameBefore(hs[0].name, hs[1].name))
  {
    hide NameBefore;
    forall i | 0 < i < |hs[1..]| ensures NameBefore(hs[1..][i - 1].name, hs[1..][i].name) {
      assert hs[1..][i - 1] == hs[i + 1 - 1];
    }
  }

  lemma SameNames(h: Header, g: Header)
    ensures !NameBefore(h.name, g.name) ==> h.name != g.name
  {
    NameReflexive(h.name);
  }

  lemma {:induction false} NameReflexive(a: Bytes)
    ensures NameBefore(a, a)
  {
    if a != [] {
      NameReflexive(a[1..]);
    }
  }

  lemma {:induction false} NameTotal(a: Bytes, b: Bytes)
    ensures NameBefore(a, b) || NameBefore(b, a)
  {
    if a != [] && b != [] {
      NameTotal(a[1..], b[1..]);
    }
  }

  const COLON_SPACE: Bytes := [58, 32]

  function HeaderLine(h: Header): Bytes { h.name + COLON_SPACE + h.value }

  function HeaderLines(hs: seq<Header>): seq<Bytes> {
    seq(|hs|, i requires 0 <= i < |hs| => HeaderLine(hs[i]))
  }

  function StatusLine(version: Bytes, status: Bytes): Bytes {
    HTTP_SLASH + version + [32] + status
  }

  function Render(version: Bytes, status: Bytes, hs: seq<Header>): Bytes {
    JoinLines([StatusLine(version, status)] + HeaderLines(Sort(hs))) + CRLF + CRLF
  }

  // ---------- the reader ----------

  /** The field of that name, case-insensitively, in the first line that has it. */
  function FieldValue(lines: seq<Bytes>, name: Bytes): Option<Bytes> {
    if lines == [] then None
    else
      var p := FindByte(lines[0], 58);
      if p >= 0 && Lower(lines[0][..p]) == Lower(name) then Some(StripBlanks(lines[0][p + 1..]))
      else FieldValue(lines[1..], name)
  }

  datatype Reading = Reading(body: Bytes, rest: Bytes)

  /** Three digits, and a space before any reason. */
  predicate GoodStatus(status: Bytes) {
    |status| >= 3 && IsDigit(status[0]) && IsDigit(status[1]) && IsDigit(status[2])
    && (|status| == 3 || status[3] == 32)
  }

  function Code(status: Bytes): nat
    requires GoodStatus(status)
  {
    100 * DigitValue(status[0]) + 10 * DigitValue(status[1]) + DigitValue(status[2])
  }

  /** A response with such a code ends with its header section, whatever its fields say. */
  predicate Bodiless(code: nat) {
    code / 100 == 1 || code == 204 || code == 304
  }

  /** HTTP-version SP status-code [ SP reason-phrase ] */
  predicate IsStatusLine(line: Bytes) {
    |line| >= 9 && IsVersionTail(line[..8]) && line[8] == 32 && GoodStatus(line[9..])
  }

  /** The last step of the reader: the header section has told how the body is delimited. */
  function ReadBody(s: Bytes, coding: Option<Bytes>, length: Option<Bytes>): (r: Option<Reading>)
    ensures r.Some? ==> |r.value.rest| <= |s|
  {
    if coding.Some? then
      if Lower(coding.value) != Ascii("chunked") then None
      else
        match Decode(s)
        case Ended(body, used) => DecodeUsed(s); Some(Reading(body, s[used..]))
        case _ => None
    else if length.None? || length.value == [] || exists i :: 0 <= i < |length.value| && !IsDigit(length.value[i]) then None
    else
      var n := DecimalValue(length.value);
      if |s| < n then None else Some(Reading(s[..n], s[n..]))
  }

  /** One response whose end can be told without closing the connection. */
  function ReadResponse(s: Bytes): (r: Option<Reading>)
    ensures r.Some? ==> |r.value.rest| < |s|
  {
    var p := FindDoubleNewline(s);
    if p < 0 then None
    else
      var lines := SplitLines(s[..p - 4]);
      if !IsStatusLine(lines[0]) then None
      else if Bodiless(Code(lines[0][9..])) then Some(Reading([], s[p..]))
      else
        var coding := FieldValue(lines[1..], Ascii("transfer-encoding"));
        var length := FieldValue(lines[1..], Ascii("content-length"));
        ReadBody(s[p..], coding, length)
  }

  lemma {:induction false} DecodeUsed(s: Bytes)
    ensures Decode(s).Ended? ==> Decode(s).used <= |s|
    decreases |s|
  {
    hide ReadSizeLine;
    var p := FindCrlf(s);
    if p >= 0 {
      var t := s[p + 2..];
      match ReadSizeLine(s[..p])
      case NoLine => DecodeUsed(t);
      case Rejected(_) =>
      case Size(n) =>
        if 0 < n && n + 2 <= |t| {
          DecodeUsed(t[n + 2..]);
        }
    }
  }

  function ReadResponses(s: Bytes): seq<Bytes>
    decreases |s|
  {
    match ReadResponse(s)
    case None => []
    case Some(r) => [r.body] + ReadResponses(r.rest)
  }

  // ---------- reading a rendered header ----------

  predicate IsToken(s: Bytes) { s != [] && forall i :: 0 <= i < |s| ==> IsTchar(s[i]) }

  predicate CleanHeader(h: Header) { IsToken(h.name) && NoEol(h.value) }

  predicate Named(h: Header, name: Bytes) { Lower(h.name) == Lower(name) }

  predicate AllDigits(s: Bytes) { s != [] && forall i :: 0 <= i < |s| ==> IsDigit(s[i]) }

  /** Some header has that name, and all of them declare the length n. */
  ghost predicate Declares(hs: seq<Header>, n: nat) {
    && (exists h :: h in hs && Named(h, CONTENT_LENGTH_NAME))
    && (forall h :: h in hs && Named(h, CONTENT_LENGTH_NAME) ==> AllDigits(h.value) && DecimalValue(h.value) == n)
  }

  ghost predicate CleanHeaders(status: Bytes, hs: seq<Header>) {
    NoEol(status) && GoodStatus(status) && forall h :: h in hs ==> CleanHeader(h)
  }

  /** The header section delimits the body by its length. */
  ghost predicate Delimits(status: Bytes, hs: seq<Header>, n: nat) {
    && HasBody(status) && CleanHeaders(status, hs)
    && (forall h :: h in hs ==> !Named(h, TRANSFER_ENCODING_NAME))
    && Declares(hs, n)
  }

  /** No field that announces a body. */
  ghost predicate Unframed(hs: seq<Header>) {
    forall h :: h in hs ==> !Named(h, CONTENT_LENGTH_NAME) && !Named(h, TRANSFER_ENCODING_NAME)
  }

  /** The header section says that the body is chunked, and gives no length. */
  ghost predicate DelimitsChunked(status: Bytes, hs: seq<Header>) {
    && HasBody(status) && CleanHeaders(status, hs)
    && (forall h :: h in hs ==> !Named(h, CONTENT_LENGTH_NAME))
    && (exists h :: h in hs && Named(h, TRANSFER_ENCODING_NAME))
    && (forall h :: h in hs && Named(h, TRANSFER_ENCODING_NAME) ==> h.value == CHUNKED)
  }

  lemma HeaderLineFacts(h: Header)
    requires CleanHeader(h)
    ensures CleanLine(HeaderLine(h))
    ensures FindByte(HeaderLine(h), 58) == |h.name|
    ensures HeaderLine(h)[..|h.name|] == h.name && HeaderLine(h)[|h.name| + 1..] == [32] + h.value
  {
    var line := HeaderLine(h);
    FindByteUnique(line, 58, |h.name|);
    assert forall i :: 0 <= i < |h.name| ==> IsTchar(h.name[i]) && h.name[i] != CR && h.name[i] != LF;
  }

  predicate Trimmed(v: Bytes) { v != [] && !IsBlank(v[0]) && !IsBlank(v[|v| - 1]) }

  lemma StripTrimmed(v: Bytes)
    requires Trimmed(v)
    ensures StripBlanks([32] + v) == v
  {
    var s := [32] + v;
    assert IsBlank(s[0]) && s[1..] == v;
    assert StripBlanks(s) == StripBlanks(v);
  }

  lemma {:induction false} FieldOfHeaders(hs: seq<Header>, name: Bytes)
    requires forall h :: h in hs ==> CleanHeader(h)
    requires forall h :: h in hs && Named(h, name) ==> Trimmed(h.value)
    ensures var r := FieldValue(HeaderLines(hs), name);
      && (r.None? <==> forall h :: h in hs ==> !Named(h, name))
      && (r.Some? ==> exists h :: h in hs && Named(h, name) && r.value == h.value)
    decreases |hs|
  {
    hide FindByte, StripBlanks;
    if hs != [] {
      var h := hs[0];
      assert h in hs;
      HeaderLineFacts(h);
      assert HeaderLines(hs)[0] == HeaderLine(h);
      assert HeaderLines(hs)[1..] == HeaderLines(hs[1..]);
      if Named(h, name) {
        StripTrimmed(h.value);
      } else {
        FieldOfHeaders(hs[1..], name);
      }
    }
  }

  lemma {:induction false} SortKeeps(hs: seq<Header>)
    ensures forall h :: h in Sort(hs) <==> h in hs
  {
    if hs != [] {
      SortKeeps(hs[1..]);
      InsertKeeps(hs[0], Sort(hs[1..]));
    }
  }

  lemma {:induction false} InsertKeeps(h: Header, hs: seq<Header>)
    ensures forall x :: x in Insert(h, hs) <==> x == h || x in hs
  {
    if hs != [] {
      InsertKeeps(h, hs[1..]);
    }
  }

  lemma RenderedLines(version: Bytes, status: Bytes, hs: seq<Header>)
    requires |version| == 3 && NoEol(version) && NoEol(status)
    requires forall h :: h in hs ==> CleanHeader(h)
    ensures var lines := [StatusLine(version, status)] + HeaderLines(Sort(hs));
      forall l :: l in lines ==> CleanLine(l)
  {
    SortKeeps(hs);
    assert NoEol(HTTP_SLASH);
    var sorted := Sort(hs);
    forall i | 0 <= i < |sorted| ensures CleanLine(HeaderLines(sorted)[i]) {
      assert sorted[i] in sorted;
      HeaderLineFacts(sorted[i]);
    }
  }

  /** The status codes that the server takes for bodiless are those of the reader. */
  lemma BodyByCode(status: Bytes)
    requires GoodStatus(status)
    ensures HasBody(status) <==> !Bodiless(Code(status))
  {
    assert Ascii("1") == [49] && Ascii("204") == [50, 48, 52] && Ascii("304") == [51, 48, 52];
    assert status[..3] == [status[0], status[1], status[2]];
  }

  predicate GoodVersion(version: Bytes) { version in {Ascii("1.0"), Ascii("1.1")} }

  lemma VersionFacts(version: Bytes)
    requires GoodVersion(version)
    ensures |version| == 3 && NoEol(version) && IsVersionTail(HTTP_SLASH + version)
  {
    assert (HTTP_SLASH + version)[..5] == Ascii("HTTP/");
    assert version == [49, 46, 48] || version == [49, 46, 49];
  }

  lemma StatusLineFacts(version: Bytes, status: Bytes)
    requires GoodVersion(version) && GoodStatus(status)
    ensures var line := StatusLine(version, status); IsStatusLine(line) && line[9..] == status
  {
    hide GoodVersion, GoodStatus, IsVersionTail;
    VersionFacts(version);
    assert StatusLine(version, status)[..8] == HTTP_SLASH + version;
    assert StatusLine(version, status)[9..] == status;
  }

  /** The reader finds the end of a rendered header section and the fields in it. */
  lemma ReadsHead(version: Bytes, status: Bytes, hs: seq<Header>, after: Bytes)
    requires GoodVersion(version) && CleanHeaders(status, hs)
    ensures var lines := HeaderLines(Sort(hs));
      ReadResponse(Render(version, status, hs) + after) ==
        if Bodiless(Code(status)) then Some(Reading([], after))
        else ReadBody(after, FieldValue(lines, Ascii("transfer-encoding")), FieldValue(lines, Ascii("content-length")))
  {
    hide Sort, FieldValue, SplitLines, JoinLines, FindDoubleNewline, HeaderLines, ReadBody, Bodiless, Code;
    hide GoodStatus, GoodVersion, IsStatusLine, StatusLine;
    VersionFacts(version);
    StatusLineFacts(version, status);
    var sorted := Sort(hs);
    var lines := [StatusLine(version, status)] + HeaderLines(sorted);
    var head := Render(version, status, hs);
    var s := head + after;
    RenderedLines(version, status, hs);
    BlockEnd(lines, after);
    SplitJoin(lines);
    assert s[..|head| - 4] == JoinLines(lines);
    assert lines[1..] == HeaderLines(sorted);
    assert s[|head|..] == after;
  }

  /** A response whose header section declares its length is read back, whatever follows it. */
  lemma ReadsBack(version: Bytes, status: Bytes, hs: seq<Header>, body: Bytes, rest: Bytes)
    requires GoodVersion(version) && Delimits(status, hs, |body|)
    ensures ReadResponse(Render(version, status, hs) + body + rest) == Some(Reading(body, rest))
  {
    hide Sort, FieldValue, Render, ReadResponse, DecimalValue, Decode, HasBody, Bodiless, Code, GoodStatus;
    hide GoodVersion, CONTENT_LENGTH_NAME, TRANSFER_ENCODING_NAME;
    var sorted := Sort(hs);
    BodyByCode(status);
    FieldNames();
    ReadsHead(version, status, hs, body + rest);
    assert Render(version, status, hs) + (body + rest) == Render(version, status, hs) + body + rest;
    SortKeeps(hs);
    assert forall h :: h in sorted && Named(h, CONTENT_LENGTH_NAME) ==> AllDigits(h.value) && DecimalValue(h.value) == |body|;
    assert forall h :: h in sorted && Named(h, CONTENT_LENGTH_NAME) ==> Trimmed(h.value);
    FieldOfHeaders(sorted, Ascii("content-length"));
    FieldOfHeaders(sorted, Ascii("transfer-encoding"));
    assert (body + rest)[..|body|] == body && (body + rest)[|body|..] == rest;
  }

  /** The names that the server writes are those that the reader looks for. */
  lemma FieldNames()
    ensures Lower(CONTENT_LENGTH_NAME) == Lower(Ascii("content-length"))
    ensures Lower(TRANSFER_ENCODING_NAME) == Lower(Ascii("transfer-encoding"))
    ensures Lower(CONNECTION_NAME) == Lower(Ascii("connection"))
  {
  }

  lemma ReadChunkedBody(chunks: seq<Bytes>, rest: Bytes, length: Option<Bytes>)
    requires forall i :: 0 <= i < |chunks| ==> chunks[i] != []
    ensures ReadBody(Encode(chunks) + rest, Some(CHUNKED), length) == Some(Reading(Join(chunks), rest))
  {
    hide Decode, Encode, CHUNKED;
    var s := Encode(chunks) + rest;
    ChunkedTrimmed();
    DecodeEncode(chunks, rest);
    assert s[|Encode(chunks)|..] == rest;
  }

  lemma ChunkedTrimmed()
    ensures Trimmed(CHUNKED) && Lower(CHUNKED) == Ascii("chunked")
  {
  }

  /** So is a chunked one. */
  lemma ChunkedReadsBack(version: Bytes, status: Bytes, hs: seq<Header>, chunks: seq<Bytes>, rest: Bytes)
    requires GoodVersion(version) && DelimitsChunked(status, hs)
    requires forall i :: 0 <= i < |chunks| ==> chunks[i] != []
    ensures ReadResponse(Render(version, status, hs) + Encode(chunks) + rest) == Some(Reading(Join(chunks), rest))
  {
    hide Sort, FieldValue, Render, ReadResponse, ReadBody, HasBody, Encode, Named, CleanHeader, HeaderLines, Trimmed,
      CHUNKED, TRANSFER_ENCODING_NAME, CONTENT_LENGTH_NAME, Join, NoEol, IsDigit, Bodiless, Code, GoodStatus,
      GoodVersion;
    var sorted := Sort(hs);
    BodyByCode(status);
    NamedAlike();
    var s := Encode(chunks) + rest;
    ReadsHead(version, status, hs, s);
    assert Render(version, status, hs) + s == Render(version, status, hs) + Encode(chunks) + rest;
    SortKeeps(hs);
    ChunkedTrimmed();
    assert forall h :: h in sorted && Named(h, TRANSFER_ENCODING_NAME) ==> Trimmed(h.value);
    FieldOfHeaders(sorted, Ascii("transfer-encoding"));
    ReadChunkedBody(chunks, rest, FieldValue(HeaderLines(sorted), Ascii("content-length")));
  }

  lemma NamedAlike()
    ensures forall h :: Named(h, TRANSFER_ENCODING_NAME) <==> Named(h, Ascii("transfer-encoding"))
  {
    FieldNames();
  }

  /** A response without a body ends with its header section, whatever follows it. */
  lemma BodilessReadsBack(version: Bytes, status: Bytes, hs: seq<Header>, rest: Bytes)
    requires GoodVersion(version) && CleanHeaders(status, hs) && Bodiless(Code(status))
    ensures ReadResponse(Render(version, status, hs) + rest) == Some(Reading([], rest))
  {
    hide Render, ReadResponse, GoodVersion, CleanHeaders;
    ReadsHead(version, status, hs, rest);
  }

  /** A stretch of output that reads as one response with that body, whatever follows it. */
  ghost predicate Framed(response: Bytes, body: Bytes) {
    forall rest :: ReadResponse(response + rest) == Some(Reading(body, rest))
  }

  /** A client that reads by the rules recovers every response from a kept-open connection. */
  lemma {:induction false} KeptOpenStreamReadsBack(responses: seq<Bytes>, bodies: seq<Bytes>)
    requires |responses| == |bodies|
    requires forall i :: 0 <= i < |responses| ==> Framed(responses[i], bodies[i])
    ensures ReadResponses(Join(responses)) == bodies
    decreases |responses|
  {
    hide ReadResponse;
    if responses == [] {
      NothingToRead();
    } else {
      assert Framed(responses[0], bodies[0]);
      KeptOpenStreamReadsBack(responses[1..], bodies[1..]);
    }
  }

  lemma NothingToRead()
    ensures ReadResponse([]) == None
  {
  }

  // ---------- when the connection stays open ----------

  /** Token names, no transfer coding, a noted length that every Content-Length header agrees with, and
      no Connection header but the server's own. */
  ghost predicate Sound(hs: seq<Header>, contentLength: Option<int>) {
    && (contentLength.Some? ==> contentLength.value >= 0)
    && (forall h :: h in hs ==> SoundHeader(h, contentLength))
  }

  predicate SoundHeader(h: Header, contentLength: Option<int>) {
    && CleanHeader(h) && !Named(h, TRANSFER_ENCODING_NAME)
    && (Named(h, CONTENT_LENGTH_NAME) ==> AllDigits(h.value) && contentLength == Some(DecimalValue(h.value)))
    && (Named(h, CONNECTION_NAME) ==> h.value == CLOSE)
  }

  ghost predicate GoodContext(c: Context) {
    GoodVersion(c.version) && NoEol(c.ident) && NoEol(c.date)
  }

  /** The client will take another response on this connection. */
  predicate PeerKeeps(c: Context) {
    if c.version == Ascii("1.0") then c.connection == Ascii("keep-alive") else c.connection != Ascii("close")
  }

  lemma NormalizeFacts(name: Bytes)
    ensures Lower(Normalize(name)) == Lower(name)
    ensures IsToken(name) ==> IsToken(Normalize(name))
    ensures Normalize(name) == CONTENT_LENGTH_NAME <==> Lower(name) == Lower(CONTENT_LENGTH_NAME)
  {
    var r := Normalize(name);
    assert forall i :: 0 <= i < |name| ==> LowerByte(r[i]) == LowerByte(name[i]);
    if Lower(name) == Lower(CONTENT_LENGTH_NAME) {
      assert |name| == 14;
      assert Lower(r) == Lower(CONTENT_LENGTH_NAME);
      NormalizeContentLength(name);
    }
  }

  lemma NormalizeContentLength(name: Bytes)
    requires Lower(name) == Lower(CONTENT_LENGTH_NAME)
    ensures Normalize(name) == CONTENT_LENGTH_NAME
  {
    var c := CONTENT_LENGTH_NAME;
    assert |name| == |Lower(name)| == |c| == 14;
    forall i | 0 <= i < 14 ensures Normalize(name)[i] == c[i] {
      assert Lower(name)[i] == Lower(c)[i];
      assert LowerByte(name[i]) == LowerByte(c[i]);
      if i > 0 {
        assert Lower(name)[i - 1] == Lower(c)[i - 1];
      }
    }
  }

  lemma NormalizeOne(h: Header, contentLength: Option<int>)
    requires SoundHeader(h, contentLength)
    ensures var r := Header(Normalize(h.name), h.value);
      SoundHeader(r, contentLength) && (Named(r, CONTENT_LENGTH_NAME) ==> r.name == CONTENT_LENGTH_NAME)
  {
    hide Normalize, IsToken, DecimalValue, Lower, AllDigits, NoEol, CONTENT_LENGTH_NAME, TRANSFER_ENCODING_NAME;
    NormalizeFacts(h.name);
  }

  /** A length header is spelt the way the server looks for it. */
  ghost predicate Canonical(hs: seq<Header>) {
    forall h :: h in hs && Named(h, CONTENT_LENGTH_NAME) ==> h.name == CONTENT_LENGTH_NAME
  }

  lemma {:induction false} NormalizeSound(hs: seq<Header>, contentLength: Option<int>, hasBody: bool)
    requires Sound(hs, contentLength)
    ensures var r := NormalizeAll(hs, hasBody);
      Sound(r, contentLength) && Canonical(r) && (!hasBody ==> !HasName(r, CONTENT_LENGTH_NAME))
  {
    hide SoundHeader, Named, Normalize, CONTENT_LENGTH_NAME;
    if hs != [] {
      assert hs[0] in hs;
      NormalizeOne(hs[0], contentLength);
      NormalizeSound(hs[1..], contentLength, hasBody);
    }
  }

  lemma {:induction false} LastValueOf(hs: seq<Header>, name: Bytes)
    ensures if HasName(hs, name) then exists h :: h in hs && h.name == name && LastValue(hs, name) == h.value
      else LastValue(hs, name) == []
  {
    if hs != [] && hs[|hs| - 1].name != name {
      LastValueOf(hs[..|hs| - 1], name);
      if HasName(hs, name) {
        var i :| 0 <= i < |hs| && hs[i].name == name;
        assert hs[..|hs| - 1][i].name == name;
      }
    }
  }

  lemma StrOf(n: nat)
    ensures AllDigits(Str(n)) && DecimalValue(Str(n)) == n && NoEol(Str(n))
  {
    DecimalRoundTrip(n);
  }

  /** After `WithLength` a length header is there exactly when the task knows the length of a body. */
  lemma LengthKnown(hs: seq<Header>, contentLength: Option<int>, hasBody: bool)
    requires Sound(hs, contentLength) && Canonical(hs) && (!hasBody ==> !HasName(hs, CONTENT_LENGTH_NAME))
    ensures var r := WithLength(hs, contentLength, hasBody);
      && Sound(r, contentLength)
      && (LastValue(r, CONTENT_LENGTH_NAME) != [] <==> contentLength.Some? && hasBody)
      && (if contentLength.Some? && hasBody then Declares(r, contentLength.value)
          else forall h :: h in r ==> !Named(h, CONTENT_LENGTH_NAME))
  {
    hide Lower, IsToken, DecimalValue, Decimal, Str, NoEol, CONTENT_LENGTH_NAME, TRANSFER_ENCODING_NAME, LastValue;
    var r := WithLength(hs, contentLength, hasBody);
    LastValueOf(r, CONTENT_LENGTH_NAME);
    LengthNames();
    if contentLength.Some? && hasBody {
      StrOf(contentLength.value);
      var own := Header(CONTENT_LENGTH_NAME, Str(contentLength.value));
      assert SoundHeader(own, contentLength);
      if HasName(hs, CONTENT_LENGTH_NAME) {
        var i :| 0 <= i < |hs| && hs[i].name == CONTENT_LENGTH_NAME;
        assert hs[i] in hs && Named(hs[i], CONTENT_LENGTH_NAME);
      } else {
        assert r[|hs|] == own && Named(own, CONTENT_LENGTH_NAME);
      }
    } else {
      assert r == hs;
      if hasBody {
        assert forall h :: h in hs ==> SoundHeader(h, contentLength);
      } else {
        assert forall h :: h in hs ==> h.name != CONTENT_LENGTH_NAME;
      }
    }
  }

  lemma LengthNames()
    ensures IsToken(CONTENT_LENGTH_NAME) && Lower(CONTENT_LENGTH_NAME) != Lower(TRANSFER_ENCODING_NAME)
    ensures Lower(CONTENT_LENGTH_NAME) != Lower(CONNECTION_NAME)
  {
    assert |Lower(CONTENT_LENGTH_NAME)| == 14 && |Lower(TRANSFER_ENCODING_NAME)| == 17;
    assert |Lower(CONNECTION_NAME)| == 10;
  }

  /** What `Persistence` decides and what it may add. */
  lemma PersistenceRules(c: Context, hs: seq<Header>, closes: bool, hasBody: bool)
    requires GoodVersion(c.version)
    ensures var p := Persistence(c, hs, closes, hasBody);
      var missing := LastValue(hs, CONTENT_LENGTH_NAME) == [];
      && (p.closes <==> closes || missing || !PeerKeeps(c))
      && (p.chunked <==> missing && hasBody && c.version == VERSION_1_1)
      && (forall h :: h in hs ==> h in p.headers)
      && (forall h :: h in p.headers ==>
        h in hs || (h.name == CONNECTION_NAME && h.value in {CLOSE, KEEP_ALIVE_VALUE})
        || (p.chunked && h == Header(TRANSFER_ENCODING_NAME, CHUNKED)))
      && (p.chunked ==> Header(TRANSFER_ENCODING_NAME, CHUNKED) in p.headers)
  {
    hide LastValue, CONTENT_LENGTH_NAME, CONNECTION_NAME, TRANSFER_ENCODING_NAME, KEEP_ALIVE_VALUE, CHUNKED;
    assert Ascii("1.0")[2] != Ascii("1.1")[2];
    WithCloseAdds(hs);
    WithCloseAdds(hs + [Header(TRANSFER_ENCODING_NAME, CHUNKED)]);
  }

  lemma WithCloseAdds(hs: seq<Header>)
    ensures WithClose(hs) == hs || WithClose(hs) == hs + [Header(CONNECTION_NAME, CLOSE)]
  {
  }

  predicate IsOwnHeader(h: Header) {
    h.name in {CONNECTION_NAME, SERVER_NAME, VIA_NAME, DATE_NAME} && NoEol(h.value)
  }

  lemma OwnHeader(h: Header)
    requires IsOwnHeader(h)
    ensures CleanHeader(h) && !Named(h, TRANSFER_ENCODING_NAME) && !Named(h, CONTENT_LENGTH_NAME)
    ensures Named(h, CONNECTION_NAME) <==> h.name == CONNECTION_NAME
  {
    assert |Lower(h.name)| == |h.name| && |Lower(CONNECTION_NAME)| == 10;
    assert |Lower(h.name)| < 14 && |Lower(CONTENT_LENGTH_NAME)| == 14 && |Lower(TRANSFER_ENCODING_NAME)| == 17;
  }

  lemma OwnValues()
    ensures NoEol(CLOSE) && NoEol(KEEP_ALIVE_VALUE) && NoEol(WAITRESS)
    ensures CleanHeader(Header(TRANSFER_ENCODING_NAME, CHUNKED))
  {
  }

  lemma IdentityAdds(c: Context, hs: seq<Header>, server: Bytes, date: Bytes)
    requires GoodContext(c)
    ensures var r := Identity(c, hs, server, date);
      (forall h :: h in hs ==> h in r)
      && (forall h :: h in r ==> h in hs || (IsOwnHeader(h) && h.name != CONNECTION_NAME))
  {
    OwnValues();
    assert |SERVER_NAME| == 6 && |DATE_NAME| == 4 && |VIA_NAME| == 3 && |CONNECTION_NAME| == 10;
    hide NoEol, SERVER_NAME, DATE_NAME, VIA_NAME, CONNECTION_NAME, WAITRESS;
  }

  // ---------- what the client is told of the connection ----------

  ghost predicate SaysClose(hs: seq<Header>) {
    exists h :: h in hs && Named(h, Ascii("connection")) && Lower(h.value) == Ascii("close")
  }

  ghost predicate SaysKeepAlive(hs: seq<Header>) {
    exists h :: h in hs && Named(h, Ascii("connection")) && Lower(h.value) == Ascii("keep-alive")
  }

  /** Section 9.3 of RFC 9112: the connection does not persist after such a response. */
  ghost predicate AnnouncesClose(version: Bytes, hs: seq<Header>) {
    SaysClose(hs) || (version == Ascii("1.0") && !SaysKeepAlive(hs))
  }

  lemma OptionsDiffer()
    ensures Lower(CLOSE) == Ascii("close") && Lower(KEEP_ALIVE_VALUE) == Ascii("keep-alive")
    ensures |Ascii("close")| != |Ascii("keep-alive")|
    ensures forall h :: Named(h, Ascii("connection")) <==> Named(h, CONNECTION_NAME)
    ensures !Named(Header(TRANSFER_ENCODING_NAME, CHUNKED), CONNECTION_NAME)
    ensures forall v :: Named(Header(CONNECTION_NAME, v), CONNECTION_NAME)
  {
    FieldNames();
    assert |Lower(TRANSFER_ENCODING_NAME)| == 17 && |Lower(CONNECTION_NAME)| == 10;
  }

  /** The server finds a Connection header in any spelling. */
  lemma CapitalizedConnection(h: Header)
    ensures Capitalize(h.name) == CONNECTION_NAME <==> Named(h, CONNECTION_NAME)
  {
    var r := Capitalize(h.name);
    if r == CONNECTION_NAME {
      forall i | 0 <= i < |h.name| ensures LowerByte(h.name[i]) == LowerByte(CONNECTION_NAME[i]) {
        assert r[i] == CONNECTION_NAME[i];
      }
      assert |r| == |h.name|;
    }
    if Named(h, CONNECTION_NAME) {
      assert |Lower(h.name)| == |h.name| && |Lower(CONNECTION_NAME)| == 10;
      forall i | 0 <= i < 10 ensures r[i] == CONNECTION_NAME[i] {
        assert Lower(h.name)[i] == Lower(CONNECTION_NAME)[i];
      }
      assert r == CONNECTION_NAME;
    }
  }

  /** Every Connection header there is says close. */
  ghost predicate OnlyCloses(hs: seq<Header>) {
    forall h :: h in hs && Named(h, CONNECTION_NAME) ==> h.value == CLOSE
  }

  lemma WithCloseSays(hs: seq<Header>)
    requires OnlyCloses(hs)
    ensures SaysClose(WithClose(hs)) && OnlyCloses(WithClose(hs)) && !SaysKeepAlive(WithClose(hs))
    ensures WithClose(hs) == hs <==> SaysClose(hs)
  {
    hide Capitalize, Named, Lower, CLOSE, KEEP_ALIVE_VALUE, CONNECTION_NAME, CHUNKED, TRANSFER_ENCODING_NAME;
    OptionsDiffer();
    var r := WithClose(hs);
    forall i | 0 <= i < |hs| ensures Capitalize(hs[i].name) == CONNECTION_NAME <==> Named(hs[i], CONNECTION_NAME) {
      CapitalizedConnection(hs[i]);
    }
    if i :| 0 <= i < |hs| && Capitalize(hs[i].name) == CONNECTION_NAME {
      assert hs[i] in hs;
    } else {
      assert r[|hs|] == Header(CONNECTION_NAME, CLOSE);
    }
  }

  lemma AddOption(hs: seq<Header>, h: Header)
    requires OnlyCloses(hs)
    ensures !Named(h, CONNECTION_NAME) ==> (SaysClose(hs + [h]) <==> SaysClose(hs)) && OnlyCloses(hs + [h])
    ensures h == Header(CONNECTION_NAME, KEEP_ALIVE_VALUE) ==>
      SaysKeepAlive(hs + [h]) && (SaysClose(hs + [h]) <==> SaysClose(hs))
  {
    hide Named, Lower, CLOSE, KEEP_ALIVE_VALUE, CONNECTION_NAME, CHUNKED, TRANSFER_ENCODING_NAME;
    OptionsDiffer();
    assert (hs + [h])[|hs|] == h;
    assert forall g :: g in hs ==> g in hs + [h];
  }

  lemma NoOptions(hs: seq<Header>)
    requires OnlyCloses(hs)
    ensures !SaysKeepAlive(hs)
  {
    hide Named, Lower, CLOSE, CONNECTION_NAME;
    OptionsDiffer();
  }

  /** The client is told to expect no other response exactly when the server will close. */
  lemma PersistenceTold(c: Context, hs: seq<Header>, closes: bool, hasBody: bool)
    requires GoodVersion(c.version) && OnlyCloses(hs) && (closes <==> SaysClose(hs))
    ensures var p := Persistence(c, hs, closes, hasBody); p.closes <==> AnnouncesClose(c.version, p.headers)
  {
    hide Named, WithClose, OnlyCloses, SaysClose, SaysKeepAlive, LastValue, CLOSE, KEEP_ALIVE, KEEP_ALIVE_VALUE, CHUNKED;
    hide CONNECTION_NAME, TRANSFER_ENCODING_NAME, CONTENT_LENGTH_NAME;
    assert Ascii("1.0")[2] != Ascii("1.1")[2];
    OptionsDiffer();
    NoOptions(hs);
    WithCloseSays(hs);
    AddOption(hs, Header(CONNECTION_NAME, KEEP_ALIVE_VALUE));
    var coding := Header(TRANSFER_ENCODING_NAME, CHUNKED);
    var hs1 := if c.connection == CLOSE then WithClose(hs) else hs;
    AddOption(hs1, coding);
    WithCloseSays(hs1);
    WithCloseSays(hs1 + [coding]);
  }

  /** Names are respelled, values are kept. */
  lemma {:induction false} NormalizeKeeps(hs: seq<Header>, hasBody: bool)
    ensures var r := NormalizeAll(hs, hasBody);
      && (forall h :: h in hs && (hasBody || !Named(h, CONTENT_LENGTH_NAME)) ==> Respelled(h) in r)
      && (forall g :: g in r ==> FromOne(g, hs))
  {
    hide Named, Normalize, CONTENT_LENGTH_NAME;
    if hs != [] {
      NormalizeKeeps(hs[1..], hasBody);
      RespelledFacts(hs[0]);
      assert hs == [hs[0]] + hs[1..];
      forall g | g in NormalizeAll(hs, hasBody) ensures FromOne(g, hs) {
        assert hs[0] in hs;
        if g != Respelled(hs[0]) {
          assert FromOne(g, hs[1..]);
        }
      }
    }
  }

  predicate FromOne(g: Header, hs: seq<Header>) {
    exists h :: h in hs && g == Respelled(h)
  }

  function Respelled(h: Header): Header { Header(Normalize(h.name), h.value) }

  lemma RespelledFacts(h: Header)
    ensures Respelled(h).name == CONTENT_LENGTH_NAME <==> Named(h, CONTENT_LENGTH_NAME)
    ensures forall name :: Named(Respelled(h), name) <==> Named(h, name)
  {
    hide Normalize, CONTENT_LENGTH_NAME, Lower;
    NormalizeFacts(h.name);
  }

  lemma NormalizeTold(hs: seq<Header>, hasBody: bool)
    requires OnlyCloses(hs)
    ensures var r := NormalizeAll(hs, hasBody); OnlyCloses(r) && (SaysClose(r) <==> SaysClose(hs))
  {
    hide Named, NormalizeAll, Respelled, Lower, CLOSE, CONNECTION_NAME, CONTENT_LENGTH_NAME, TRANSFER_ENCODING_NAME;
    var r := NormalizeAll(hs, hasBody);
    NormalizeKeeps(hs, hasBody);
    OptionsDiffer();
    forall h | h in hs
      ensures Named(Respelled(h), CONNECTION_NAME) <==> Named(h, CONNECTION_NAME)
      ensures Respelled(h).value == h.value
      ensures Named(h, CONNECTION_NAME) ==> Respelled(h) in r
    {
      RespelledFacts(h);
      RespelledValue(h);
      NotBoth(h);
    }
    if SaysClose(hs) {
      var h :| h in hs && Named(h, Ascii("connection")) && Lower(h.value) == Ascii("close");
      assert Named(Respelled(h), CONNECTION_NAME);
    }
  }

  lemma RespelledValue(h: Header)
    ensures Respelled(h).value == h.value
  {
  }

  lemma NotBoth(h: Header)
    ensures Named(h, CONNECTION_NAME) ==> !Named(h, CONTENT_LENGTH_NAME)
  {
    LengthNames();
  }

  /** The client is told whether the connection will close, as the server decides it. */
  lemma ClosingIsTold(c: Context, hs: seq<Header>, contentLength: Option<int>, closes: bool, hasBody: bool)
    requires Sound(hs, contentLength) && GoodContext(c) && (closes <==> SaysClose(hs))
    ensures var b := BuildHeaders(c, hs, contentLength, closes, hasBody); b.closes <==> AnnouncesClose(c.version, b.headers)
  {
    hide Named, NormalizeAll, Persistence, Identity, SaysClose, SaysKeepAlive, LastValue, HasName, Str, OnlyCloses;
    hide SERVER_NAME, DATE_NAME, CONNECTION_NAME, CONTENT_LENGTH_NAME, TRANSFER_ENCODING_NAME, GoodVersion;
    SoundCloses(hs, contentLength);
    var normal := NormalizeAll(hs, hasBody);
    NormalizeTold(hs, hasBody);
    var known := WithLength(normal, contentLength, hasBody);
    if known != normal {
      var own := Header(CONTENT_LENGTH_NAME, Str(contentLength.value));
      OwnLength(own);
      AddOption(normal, own);
    }
    var p := Persistence(c, known, closes, hasBody);
    PersistenceTold(c, known, closes, hasBody);
    var b := BuildHeaders(c, hs, contentLength, closes, hasBody);
    IdentityAdds(c, p.headers, LastValue(normal, SERVER_NAME), LastValue(normal, DATE_NAME));
    SameOptions(p.headers, b.headers);
  }

  lemma SoundCloses(hs: seq<Header>, contentLength: Option<int>)
    requires Sound(hs, contentLength)
    ensures OnlyCloses(hs)
  {
    hide CleanHeader, AllDigits, Named;
  }

  lemma OwnLength(h: Header)
    requires h.name == CONTENT_LENGTH_NAME
    ensures !Named(h, CONNECTION_NAME)
  {
    LengthNames();
  }

  lemma SameOptions(a: seq<Header>, b: seq<Header>)
    requires forall h :: h in a ==> h in b
    requires forall h :: h in b ==> h in a || (IsOwnHeader(h) && h.name != CONNECTION_NAME)
    ensures (SaysClose(a) <==> SaysClose(b)) && (SaysKeepAlive(a) <==> SaysKeepAlive(b))
  {
    hide Lower, IsOwnHeader, CONNECTION_NAME;
    OptionsDiffer();
    forall h | h in b && h !in a ensures !Named(h, CONNECTION_NAME) {
      OwnHeader(h);
    }
  }

  /** The application's headers reach the client, but for the length of a body that is not sent. */
  lemma HeadersAreKept(c: Context, hs: seq<Header>, contentLength: Option<int>, closes: bool, hasBody: bool, h: Header)
    requires GoodContext(c) && h in hs && (hasBody || !Named(h, CONTENT_LENGTH_NAME))
    ensures var b := BuildHeaders(c, hs, contentLength, closes, hasBody);
      exists g :: g in b.headers && Lower(g.name) == Lower(h.name) && g.value == h.value
  {
    hide Named, NormalizeAll, Persistence, Identity, Lower, LastValue, CONTENT_LENGTH_NAME, GoodVersion;
    NormalizeKeeps(hs, hasBody);
    var normal := NormalizeAll(hs, hasBody);
    var known := WithLength(normal, contentLength, hasBody);
    var p := Persistence(c, known, closes, hasBody);
    PersistenceRules(c, known, closes, hasBody);
    IdentityAdds(c, p.headers, LastValue(normal, SERVER_NAME), LastValue(normal, DATE_NAME));
    NormalizeFacts(h.name);
    assert Respelled(h) in p.headers;
  }

  /** Every response is dated, and says who served it where the server has a name. */
  lemma IdentityIsTold(c: Context, hs: seq<Header>, contentLength: Option<int>, closes: bool, hasBody: bool)
    requires GoodContext(c)
    ensures var b := BuildHeaders(c, hs, contentLength, closes, hasBody);
      && (exists g :: g in b.headers && Named(g, Ascii("date")))
      && (c.ident != [] ==>
        exists g :: g in b.headers && (Named(g, Ascii("server")) || Named(g, Ascii("via"))) && g.value == c.ident)
  {
    hide NormalizeAll, Persistence, LastValue, HasName, Named, SERVER_NAME, DATE_NAME, VIA_NAME, GoodVersion;
    var normal := NormalizeAll(hs, hasBody);
    var known := WithLength(normal, contentLength, hasBody);
    var p := Persistence(c, known, closes, hasBody);
    PersistenceRules(c, known, closes, hasBody);
    var server, date := LastValue(normal, SERVER_NAME), LastValue(normal, DATE_NAME);
    IdentityAdds(c, p.headers, server, date);
    var r := Identity(c, p.headers, server, date);
    OwnNames(c);
    if date == [] {
      assert r[|r| - 1] == Header(DATE_NAME, c.date);
    } else {
      LastValueOf(normal, DATE_NAME);
      var h :| h in normal && h.name == DATE_NAME;
      assert h in known;
      DateNamed(h);
      assert h in r;
    }
    if c.ident != [] {
      assert r[|p.headers|] == Header(if server == [] then SERVER_NAME else VIA_NAME, c.ident);
    }
  }

  lemma OwnNames(c: Context)
    ensures Named(Header(DATE_NAME, c.date), Ascii("date"))
    ensures Named(Header(SERVER_NAME, c.ident), Ascii("server")) && Named(Header(VIA_NAME, c.ident), Ascii("via"))
  {
  }

  lemma DateNamed(h: Header)
    ensures h.name == DATE_NAME ==> Named(h, Ascii("date"))
  {
  }

  /** What a header section tells the client, by what the task knew when it built it: the length of the
      body when it is known, chunks when it is not and the client speaks 1.1, and whether the
      connection stays open. */
  lemma HeaderSection(c: Context, status: Bytes, hs: seq<Header>, contentLength: Option<int>, closes: bool)
    requires Sound(hs, contentLength) && GoodContext(c) && NoEol(status) && GoodStatus(status)
    ensures var hasBody := HasBody(status);
      var b := BuildHeaders(c, hs, contentLength, closes, hasBody);
      && CleanHeaders(status, b.headers)
      && (b.closes <==> closes || !PeerKeeps(c) || !hasBody || contentLength.None?)
      && (b.chunked <==> hasBody && contentLength.None? && c.version == VERSION_1_1)
      && (hasBody && contentLength.Some? ==> Delimits(status, b.headers, contentLength.value))
      && (b.chunked ==> DelimitsChunked(status, b.headers))
      && (Bodiless(Code(status)) ==> Unframed(b.headers))
      && (closes == SaysClose(hs) ==> b.closes == AnnouncesClose(c.version, b.headers))
  {
    hide GoodStatus, Bodiless, Code, SaysClose, SaysKeepAlive, GoodVersion;
    hide NormalizeAll, WithLength, Persistence, Identity, PeerKeeps, HasBody, LastValue, IsOwnHeader, Named, NoEol,
      CleanHeader, AllDigits, DecimalValue, CHUNKED, CLOSE, KEEP_ALIVE_VALUE, HasName, Canonical,
      CONTENT_LENGTH_NAME, TRANSFER_ENCODING_NAME, CONNECTION_NAME, SERVER_NAME, DATE_NAME;
    var hasBody := HasBody(status);
    BodyByCode(status);
    if closes == SaysClose(hs) {
      ClosingIsTold(c, hs, contentLength, closes, hasBody);
    }
    var normal := NormalizeAll(hs, hasBody);
    NormalizeSound(hs, contentLength, hasBody);
    var known := WithLength(normal, contentLength, hasBody);
    LengthKnown(normal, contentLength, hasBody);
    var p := Persistence(c, known, closes, hasBody);
    PersistenceRules(c, known, closes, hasBody);
    var b := BuildHeaders(c, hs, contentLength, closes, hasBody);
    IdentityAdds(c, p.headers, LastValue(normal, SERVER_NAME), LastValue(normal, DATE_NAME));
    forall h | h in b.headers
      ensures h in known || IsOwnHeader(h) || (p.chunked && h == Header(TRANSFER_ENCODING_NAME, CHUNKED))
    {
      ConnectionOwn(h);
    }
    assert forall h :: h in known ==> h in b.headers;
    SectionFacts(known, b.headers, contentLength, p.chunked);
  }

  lemma ConnectionOwn(h: Header)
    ensures h.name == CONNECTION_NAME && h.value in {CLOSE, KEEP_ALIVE_VALUE} ==> IsOwnHeader(h)
  {
    OwnValues();
  }

  lemma SectionFacts(known: seq<Header>, hs: seq<Header>, contentLength: Option<int>, chunked: bool)
    requires Sound(known, contentLength)
    requires forall h :: h in known ==> h in hs
    requires forall h :: h in hs ==>
      h in known || IsOwnHeader(h) || (chunked && h == Header(TRANSFER_ENCODING_NAME, CHUNKED))
    ensures forall h :: h in hs ==> CleanHeader(h)
    ensures forall h :: h in hs && Named(h, CONTENT_LENGTH_NAME) ==> h in known
    ensures forall h :: h in hs && Named(h, TRANSFER_ENCODING_NAME) ==>
      chunked && h == Header(TRANSFER_ENCODING_NAME, CHUNKED)
    ensures Named(Header(TRANSFER_ENCODING_NAME, CHUNKED), TRANSFER_ENCODING_NAME)
  {
    LengthNames();
    OwnValues();
    hide IsOwnHeader, Lower, CleanHeader, CHUNKED, CONTENT_LENGTH_NAME, TRANSFER_ENCODING_NAME, AllDigits, DecimalValue;
    forall h | h in hs
      ensures CleanHeader(h)
      ensures Named(h, CONTENT_LENGTH_NAME) ==> h in known
      ensures Named(h, TRANSFER_ENCODING_NAME) ==> chunked && h == Header(TRANSFER_ENCODING_NAME, CHUNKED)
    {
      if h in known {
        assert SoundHeader(h, contentLength);
      } else if IsOwnHeader(h) {
        OwnHeader(h);
      }
    }
  }
}
