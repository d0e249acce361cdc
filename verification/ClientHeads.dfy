/** Request heads as clients write them, and what the parser makes of each of their fields. */
module ClientHeads {
  import opened ByteStrings
  import opened Wrappers
  import opened ChunkedCoding
  import opened ClientChunks
  import opened Headers
  import opened Spelling

  // ---------- names ----------

  const DASH: byte := 45
  const UNDERSCORE: byte := 95

  /** key is name in upper case, with underscores for its dashes. */
  predicate IsKeyOf(key: Bytes, name: Bytes) {
    && |key| == |name|
    && forall i :: 0 <= i < |name| ==>
      if name[i] == DASH then key[i] == UNDERSCORE
      else SameLetter(name[i], key[i]) && !IsLowerLetter(key[i])
  }

  lemma KeyMeaning(name: Bytes)
    ensures IsKeyOf(HeaderKey(name), name)
  {
    hide SameLetter, IsLowerLetter;
    forall i | 0 <= i < |name| && name[i] != DASH
      ensures SameLetter(name[i], HeaderKey(name)[i]) && !IsLowerLetter(HeaderKey(name)[i])
    {
      UpperLetter(name[i]);
    }
  }

  lemma UpperLetter(b: byte)
    ensures SameLetter(b, UpperByte(b)) && !IsLowerLetter(UpperByte(b))
  {
    LowerLetters(b);
    LetterCase(b, UpperByte(b));
  }

  /** Names without underscores are the same field exactly when they are equal but for letter case. */
  lemma SameKey(a: Bytes, b: Bytes)
    requires UNDERSCORE !in a && UNDERSCORE !in b
    ensures HeaderKey(a) == HeaderKey(b) <==> SameText(a, b)
  {
    hide SameLetter;
    forall i | 0 <= i < |a| && i < |b|
      ensures SameLetter(a[i], b[i]) <==> HeaderKey(a)[i] == HeaderKey(b)[i]
    {
      assert a[i] in a && b[i] in b;
      LetterCase(a[i], b[i]);
    }
  }

  const HOST_NAME := Ascii("Host")
  const CONTENT_LENGTH_NAME := Ascii("Content-Length")
  const CONTENT_TYPE_NAME := Ascii("Content-Type")
  const TRANSFER_ENCODING_NAME := Ascii("Transfer-Encoding")
  const EXPECT_NAME := Ascii("Expect")

  lemma KnownKeys()
    ensures HeaderKey(HOST_NAME) == HOST && HeaderKey(EXPECT_NAME) == EXPECT
    ensures HeaderKey(CONTENT_LENGTH_NAME) == CONTENT_LENGTH && HeaderKey(CONTENT_TYPE_NAME) == CONTENT_TYPE
    ensures HeaderKey(TRANSFER_ENCODING_NAME) == TRANSFER_ENCODING
    ensures UNDERSCORE !in HOST_NAME && UNDERSCORE !in EXPECT_NAME
    ensures UNDERSCORE !in CONTENT_LENGTH_NAME && UNDERSCORE !in CONTENT_TYPE_NAME
    ensures UNDERSCORE !in TRANSFER_ENCODING_NAME
  {
    hide HeaderKey;
    HostKey();
    ContentKeys();
    CodingKey();
  }

  lemma HostKey()
    ensures HeaderKey(HOST_NAME) == HOST && HeaderKey(EXPECT_NAME) == EXPECT
    ensures UNDERSCORE !in HOST_NAME && UNDERSCORE !in EXPECT_NAME
  {
  }

  lemma ContentKeys()
    ensures HeaderKey(CONTENT_LENGTH_NAME) == CONTENT_LENGTH && HeaderKey(CONTENT_TYPE_NAME) == CONTENT_TYPE
    ensures UNDERSCORE !in CONTENT_LENGTH_NAME && UNDERSCORE !in CONTENT_TYPE_NAME
  {
  }

  lemma CodingKey()
    ensures HeaderKey(TRANSFER_ENCODING_NAME) == TRANSFER_ENCODING
    ensures UNDERSCORE !in TRANSFER_ENCODING_NAME
  {
  }

  // ---------- fields ----------

  predicate AllBlank(s: Bytes) { forall i :: 0 <= i < |s| ==> IsPad(s[i]) }

  predicate AllText(s: Bytes) { forall i :: 0 <= i < |s| ==> IsText(s[i]) }

  predicate Trimmed(s: Bytes) {
    s != [] ==> !IsPad(s[0]) && !IsPad(s[|s| - 1])
  }

  function FieldText(name: Bytes, before: Bytes, value: Bytes, after: Bytes): Bytes {
    name + [58] + before + value + after
  }

  predicate IsField(name: Bytes, before: Bytes, value: Bytes, after: Bytes) {
    IsToken(name) && AllBlank(before) && AllBlank(after) && AllText(value) && Trimmed(value)
  }

  lemma {:induction false} StripPadding(before: Bytes, value: Bytes, after: Bytes)
    requires AllBlank(before) && AllBlank(after) && Trimmed(value)
    ensures StripBlanks(before + value + after) == value
    decreases |before| + |after|, |after|
  {
    hide IsBlank, IsPad;
    var s := before + value + after;
    if before != [] {
      Blanks(s[0]);
      assert s[0] == before[0] && s[1..] == before[1..] + value + after;
      StripPadding(before[1..], value, after);
    } else if after == [] {
      assert s == value;
      if s != [] {
        Blanks(s[0]);
        Blanks(s[|s| - 1]);
      }
    } else if value == [] {
      assert s == after + value + before;
      StripPadding(after, value, before);
    } else {
      var n := |after| - 1;
      Blanks(s[0]);
      Blanks(s[|s| - 1]);
      assert s[0] == value[0] && s[|s| - 1] == after[n];
      assert s[..|s| - 1] == before + value + after[..n];
      StripPadding(before, value, after[..n]);
    }
  }

  /** A well-formed field is read as its name and its value without the padding. */
  lemma FieldAccepted(name: Bytes, before: Bytes, value: Bytes, after: Bytes)
    requires IsField(name, before, value, after)
    ensures MatchField(FieldText(name, before, value, after)) == Some(Field(name, value))
  {
    hide IsTokenChar, IsText, IsFieldByte, IsPad, TokenLength, StripBlanks;
    var line := FieldText(name, before, value, after);
    var padded := before + value + after;
    var n := |name|;
    assert line == name + ([58] + padded);
    TokenEnds(name, [58] + padded);
    forall i | n < i < |line| ensures IsFieldByte(line[i]) {
      assert line[i] == padded[i - n - 1];
      TextChars(line[i]);
    }
    assert line[..n] == name && line[n + 1..] == padded;
    StripPadding(before, value, after);
  }

  /** Whatever is read as a field is one, padded by blanks. */
  lemma FieldGrammar(line: Bytes) returns (before: Bytes, after: Bytes)
    requires MatchField(line).Some?
    ensures var f := MatchField(line).value;
      IsField(f.name, before, f.value, after) && line == FieldText(f.name, before, f.value, after)
  {
    hide IsTokenChar, IsText, IsFieldByte, IsPad, TokenLength, StripBlanks;
    var n := TokenLength(line);
    var rest := line[n + 1..];
    TokenFound(line);
    before, after := Padding(rest);
    var value := StripBlanks(rest);
    assert rest == before + value + after;
    forall i | 0 <= i < |value| ensures IsText(value[i]) {
      assert value[i] == line[n + 1 + |before| + i];
      TextChars(value[i]);
    }
    assert line == line[..n] + [58] + rest;
  }

  lemma {:induction false} Padding(s: Bytes) returns (before: Bytes, after: Bytes)
    ensures AllBlank(before) && AllBlank(after) && Trimmed(StripBlanks(s))
    ensures s == before + StripBlanks(s) + after
    decreases |s|
  {
    hide IsBlank, IsPad;
    before, after := [], [];
    if s == [] {
      return;
    }
    Blanks(s[0]);
    Blanks(s[|s| - 1]);
    if IsBlank(s[0]) {
      var b, a := Padding(s[1..]);
      before, after := [s[0]] + b, a;
      assert s == [s[0]] + s[1..];
      Widen([s[0]], b, StripBlanks(s), a, []);
    } else if IsBlank(s[|s| - 1]) {
      var b, a := Padding(s[..|s| - 1]);
      before, after := b, a + [s[|s| - 1]];
      assert s == s[..|s| - 1] + [s[|s| - 1]];
      Widen([], b, StripBlanks(s), a, [s[|s| - 1]]);
    }
  }

  lemma Widen(x: Bytes, a: Bytes, b: Bytes, c: Bytes, y: Bytes)
    ensures x + (a + b + c) == (x + a) + b + c && (a + b + c) + y == a + b + (c + y)
  {
  }

  predicate Begins(line: Bytes) { CleanLine(line) && !IsPad(line[0]) }

  predicate Continues(line: Bytes) { CleanLine(line) && IsPad(line[0]) }

  /** A field as sent: its text, cut into a first line and continuation lines. */
  datatype ClientField = ClientField(
    name: Bytes, before: Bytes, value: Bytes, after: Bytes, lines: seq<Bytes>)
  {
    function Text(): Bytes { FieldText(name, before, value, after) }

    predicate Valid() {
      && IsField(name, before, value, after)
      && lines != [] && Join(lines) == Text()
      && Begins(lines[0])
      && forall i :: 1 <= i < |lines| ==> Continues(lines[i])
    }
  }

  predicate ValidFields(fields: seq<ClientField>) {
    forall f :: f in fields ==> f.Valid()
  }

  function Texts(fields: seq<ClientField>): seq<Bytes> {
    if fields == [] then [] else [fields[0].Text()] + Texts(fields[1..])
  }

  function AllLines(fields: seq<ClientField>): seq<Bytes> {
    if fields == [] then [] else fields[0].lines + AllLines(fields[1..])
  }

  // ---------- continuation lines ----------

  lemma {:induction false} FoldMore(more: seq<Bytes>, rest: seq<Bytes>, r: seq<Bytes>, text: Bytes)
    requires forall i :: 0 <= i < |more| ==> Continues(more[i])
    ensures FoldLines(more + rest, r + [text]) == FoldLines(rest, r + [text + Join(more)])
    decreases |more|
  {
    hide IsBlank, IsPad;
    if more == [] {
      assert more + rest == rest && text + [] == text;
    } else {
      var line := more[0];
      assert Continues(line);
      Blanks(line[0]);
      assert (more + rest)[1..] == more[1..] + rest;
      var acc := r + [text];
      assert acc[|acc| - 1 := text + line] == r + [text + line];
      FoldMore(more[1..], rest, r, text + line);
      assert text + line + Join(more[1..]) == text + Join(more);
    }
  }

  /** The lines of well-formed fields are joined to the texts of the fields again. */
  lemma {:induction false} FoldFields(fields: seq<ClientField>, rest: seq<Bytes>, r: seq<Bytes>)
    requires ValidFields(fields)
    ensures FoldLines(AllLines(fields) + rest, r) == FoldLines(rest, r + Texts(fields))
    decreases |fields|
  {
    hide IsBlank, IsPad, IsField, FieldText, FoldLines;
    if fields == [] {
      assert AllLines(fields) + rest == rest && r + [] == r;
    } else {
      var f := fields[0];
      assert f in fields;
      var more := AllLines(fields[1..]) + rest;
      assert AllLines(fields) + rest == f.lines + more;
      FoldOne(f, more, r);
      FoldFields(fields[1..], rest, r + [f.Text()]);
      assert r + [f.Text()] + Texts(fields[1..]) == r + Texts(fields);
    }
  }

  lemma FoldOne(f: ClientField, rest: seq<Bytes>, r: seq<Bytes>)
    requires f.Valid()
    ensures FoldLines(f.lines + rest, r) == FoldLines(rest, r + [f.Text()])
  {
    hide IsBlank, IsPad, IsField, FieldText;
    var line := f.lines[0];
    Blanks(line[0]);
    assert f.lines + rest == [line] + (f.lines[1..] + rest);
    assert (f.lines + rest)[1..] == f.lines[1..] + rest;
    FoldMore(f.lines[1..], rest, r, line);
  }

  /** The first line that is not empty does not continue another. */
  predicate StartsWell(lines: seq<Bytes>) {
    lines == [] || if lines[0] == [] then StartsWell(lines[1..]) else !IsPad(lines[0][0])
  }

  /** Lines are refused exactly when one of them holds a bare CR or LF, or the first continues none. */
  lemma {:induction false} FoldRefuses(lines: seq<Bytes>, r: seq<Bytes>)
    ensures FoldLines(lines, r).Some?
      <==> (forall l :: l in lines ==> CR !in l && LF !in l) && (r == [] ==> StartsWell(lines))
    decreases |lines|
  {
    hide IsBlank, IsPad;
    if lines != [] {
      var line, more := lines[0], lines[1..];
      assert lines == [line] + more;
      if line == [] {
        FoldRefuses(more, r);
      } else {
        Blanks(line[0]);
        if !HasBareEol(line) && IsBlank(line[0]) && r != [] {
          FoldRefuses(more, r[|r| - 1 := r[|r| - 1] + line]);
        } else if !HasBareEol(line) && !IsBlank(line[0]) {
          FoldRefuses(more, r + [line]);
        }
      }
    }
  }

  // ---------- the dictionary ----------

  /** The values of all the fields of that name, in order; names are compared without regard to case. */
  function ValuesOf(fields: seq<ClientField>, name: Bytes): seq<Bytes> {
    if fields == [] then []
    else
      var f := fields[|fields| - 1];
      ValuesOf(fields[..|fields| - 1], name) + if SameText(f.name, name) then [f.value] else []
  }

  function CommaJoin(values: seq<Bytes>): Bytes
    requires values != []
  {
    var last := values[|values| - 1];
    if |values| == 1 then last else CommaJoin(values[..|values| - 1]) + Ascii(", ") + last
  }

  /** A field that may be sent only once is sent again. */
  predicate Repeats(fields: seq<ClientField>) {
    || |ValuesOf(fields, HOST_NAME)| > 1
    || |ValuesOf(fields, CONTENT_LENGTH_NAME)| > 1
    || |ValuesOf(fields, CONTENT_TYPE_NAME)| > 1
  }

  /** The dictionary holds the fields of that name, joined by commas, or nothing when there are none. */
  predicate Holds(h: HeaderMap, name: Bytes, values: seq<Bytes>) {
    if values == [] then HeaderKey(name) !in h
    else HeaderKey(name) in h && h[HeaderKey(name)] == CommaJoin(values)
  }

  lemma {:induction false} AddLast(lines: seq<Bytes>, line: Bytes, h: HeaderMap)
    ensures var (h1, passed) := AddLines(lines, h);
      AddLines(lines + [line], h) == if passed then AddLines([line], h1) else (h1, false)
    decreases |lines|
  {
    hide MatchField, AddField;
    if lines == [] {
      assert lines + [line] == [line];
    } else {
      assert (lines + [line])[1..] == lines[1..] + [line];
      var f := MatchField(lines[0]);
      if f.Some? {
        var h' := AddField(h, f.value);
        if h'.Some? {
          AddLast(lines[1..], line, h'.value);
        }
      }
    }
  }

  lemma {:induction false} TextsLast(fields: seq<ClientField>)
    requires fields != []
    ensures Texts(fields) == Texts(fields[..|fields| - 1]) + [fields[|fields| - 1].Text()]
    decreases |fields|
  {
    hide ClientField.Text;
    if |fields| > 1 {
      TextsLast(fields[1..]);
      assert fields[1..][..|fields| - 2] == fields[..|fields| - 1][1..];
    }
  }

  /** One more field. */
  lemma AddOne(fields: seq<ClientField>)
    requires fields != [] && ValidFields(fields)
    ensures var n := |fields| - 1; var f := fields[n];
      var (h, passed) := AddLines(Texts(fields[..n]), map[]);
      AddLines(Texts(fields), map[]) ==
        if !passed then (h, false)
        else match AddField(h, Field(f.name, f.value)) case None => (h, false) case Some(h') => (h', true)
  {
    hide MatchField, AddField, FieldText, IsField;
    var n := |fields| - 1;
    var f := fields[n];
    assert f in fields;
    TextsLast(fields);
    AddLast(Texts(fields[..n]), f.Text(), map[]);
    FieldAccepted(f.name, f.before, f.value, f.after);
    var h := AddLines(Texts(fields[..n]), map[]).0;
    assert AddLines([f.Text()][1..], h) == (h, true);
  }

  lemma UnderscoresDiffer(a: Bytes, b: Bytes)
    requires UNDERSCORE in a && UNDERSCORE !in b
    ensures !SameText(a, b)
  {
    if SameText(a, b) {
      var i :| 0 <= i < |a| && a[i] == UNDERSCORE;
      assert b[i] in b && SameLetter(a[i], b[i]);
      Alphabet();
      assert false;
    }
  }

  lemma AddKeeps(h: HeaderMap, f: Field, name: Bytes, values: seq<Bytes>)
    requires UNDERSCORE !in name && Holds(h, name, values) && AddField(h, f).Some?
    ensures Holds(AddField(h, f).value, name, values + if SameText(f.name, name) then [f.value] else [])
  {
    hide HeaderKey, SameText, IsSingleton;
    if UNDERSCORE in f.name {
      UnderscoresDiffer(f.name, name);
      assert values + [] == values;
    } else {
      SameKey(f.name, name);
      var values' := values + [f.value];
      assert values'[..|values|] == values && Ascii(", ") == COMMA_SPACE;
      assert values + [] == values;
    }
  }

  lemma AddRefuses(h: HeaderMap, f: Field, hosts: seq<Bytes>, lengths: seq<Bytes>, types: seq<Bytes>)
    requires Holds(h, HOST_NAME, hosts)
    requires Holds(h, CONTENT_LENGTH_NAME, lengths)
    requires Holds(h, CONTENT_TYPE_NAME, types)
    ensures AddField(h, f).None? <==>
      || (hosts != [] && SameText(f.name, HOST_NAME))
      || (lengths != [] && SameText(f.name, CONTENT_LENGTH_NAME))
      || (types != [] && SameText(f.name, CONTENT_TYPE_NAME))
  {
    hide HeaderKey, SameText, CommaJoin;
    KnownKeys();
    if UNDERSCORE in f.name {
      UnderscoresDiffer(f.name, HOST_NAME);
      UnderscoresDiffer(f.name, CONTENT_LENGTH_NAME);
      UnderscoresDiffer(f.name, CONTENT_TYPE_NAME);
    } else {
      SameKey(f.name, HOST_NAME);
      SameKey(f.name, CONTENT_LENGTH_NAME);
      SameKey(f.name, CONTENT_TYPE_NAME);
    }
  }

  lemma OneMore(fields: seq<ClientField>, name: Bytes, h: HeaderMap)
    requires fields != [] && UNDERSCORE !in name
    requires var init := fields[..|fields| - 1];
      && !Repeats(init)
      && Holds(h, name, ValuesOf(init, name))
      && Holds(h, HOST_NAME, ValuesOf(init, HOST_NAME))
      && Holds(h, CONTENT_LENGTH_NAME, ValuesOf(init, CONTENT_LENGTH_NAME))
      && Holds(h, CONTENT_TYPE_NAME, ValuesOf(init, CONTENT_TYPE_NAME))
    ensures var f := fields[|fields| - 1]; var h' := AddField(h, Field(f.name, f.value));
      && (h'.None? <==> Repeats(fields))
      && (h'.Some? ==> Holds(h'.value, name, ValuesOf(fields, name)))
  {
    hide AddField, Holds, SameText, HeaderKey;
    var init, f := fields[..|fields| - 1], fields[|fields| - 1];
    AddRefuses(h, Field(f.name, f.value), ValuesOf(init, HOST_NAME),
      ValuesOf(init, CONTENT_LENGTH_NAME), ValuesOf(init, CONTENT_TYPE_NAME));
    if AddField(h, Field(f.name, f.value)).Some? {
      AddKeeps(h, Field(f.name, f.value), name, ValuesOf(init, name));
    }
  }

  /** Repeated fields are joined in order; the lines are refused exactly when a field that may be sent
      only once is sent again; and names with underscores leave no trace. */
  lemma {:induction false} Dictionary(fields: seq<ClientField>, name: Bytes)
    requires ValidFields(fields) && UNDERSCORE !in name
    ensures var (h, passed) := AddLines(Texts(fields), map[]);
      && (passed <==> !Repeats(fields))
      && (passed ==> Holds(h, name, ValuesOf(fields, name)))
    decreases |fields|
  {
    hide MatchField, AddField, ClientField.Valid, ClientField.Text;
    if fields == [] {
      assert Texts(fields) == [];
    } else {
      var init := fields[..|fields| - 1];
      assert forall f :: f in init ==> f in fields;
      KnownKeys();
      Dictionary(init, name);
      Dictionary(init, HOST_NAME);
      Dictionary(init, CONTENT_LENGTH_NAME);
      Dictionary(init, CONTENT_TYPE_NAME);
      AddOne(fields);
      hide Holds, SameText, HeaderKey;
      var (h, passed) := AddLines(Texts(init), map[]);
      if passed {
        OneMore(fields, name, h);
      }
    }
  }

  // ---------- the request line ----------

  predicate IsVersion(v: Bytes) {
    |v| == 3 && IsDecimalDigit(v[0]) && v[1..2] == Ascii(".") && IsDecimalDigit(v[2])
  }

  /** method SP request-target [ SP HTTP-version ], with no lower-case letter in the method */
  predicate IsRequestLine(s: StartLine) {
    && IsToken(s.command) && (forall i :: 0 <= i < |s.command| ==> !IsLowerLetter(s.command[i]))
    && s.uri != [] && Ascii(" ")[0] !in s.uri
    && (s.version == [] || IsVersion(s.version))
  }

  function LineText(s: StartLine): Bytes {
    s.command + Ascii(" ") + s.uri + if s.version == [] then [] else Ascii(" HTTP/") + s.version
  }

  lemma UpperText(s: Bytes)
    ensures Upper(s) == s <==> forall i :: 0 <= i < |s| ==> !IsLowerLetter(s[i])
  {
    hide IsLowerLetter, UpperByte;
    forall i | 0 <= i < |s| ensures Upper(s)[i] == s[i] <==> !IsLowerLetter(s[i]) {
      LowerLetters(s[i]);
    }
  }

  lemma VersionTail(s: Bytes)
    ensures IsVersionTail(s) <==> |s| == 8 && s == Ascii("HTTP/") + s[5..] && IsVersion(s[5..])
  {
    hide IsDecimalDigit;
    if |s| == 8 {
      DecimalDigits(s[5]);
      DecimalDigits(s[7]);
      assert s == s[..5] + s[5..];
      assert Ascii(".") == [46];
      assert s[5..][1..2] == [s[6]];
    }
  }

  lemma UriEnds(uri: Bytes, tail: Bytes)
    requires 32 !in uri && tail != [] && tail[0] == 32
    ensures FindByte(uri + tail, 32) == |uri|
  {
    var s := uri + tail;
    forall i | 0 <= i < |uri| ensures s[i] != 32 {
      assert uri[i] in uri;
    }
    FindByteUnique(s, 32, |uri|);
  }

  lemma HttpVersion(version: Bytes)
    requires IsVersion(version)
    ensures var tail := Ascii(" HTTP/") + version;
      tail[0] == 32 && IsVersionTail(tail[1..]) && tail[6..] == version
  {
    hide IsDecimalDigit;
    var tail := Ascii(" HTTP/") + version;
    assert tail[1..] == Ascii("HTTP/") + version;
    assert tail[1..][5..] == version;
    VersionTail(tail[1..]);
  }

  /** After the method and its space. */
  lemma CrackRest(verb: Bytes, rest: Bytes)
    requires IsToken(verb) && forall i :: 0 <= i < |verb| ==> !IsLowerLetter(verb[i])
    ensures CrackFirstLine(verb + [32] + rest) ==
      var sp := FindByte(rest, 32);
      if sp < 0 then
        if rest == [] then None else Some(StartLine(verb, rest, []))
      else if sp == 0 || !IsVersionTail(rest[sp + 1..]) then None
      else Some(StartLine(verb, rest[..sp], rest[sp + 6..]))
  {
    hide IsTokenChar, IsLowerLetter, TokenLength, FindByte, IsVersionTail;
    var line, n := verb + [32] + rest, |verb|;
    assert line == verb + ([32] + rest);
    TokenEnds(verb, [32] + rest);
    UpperText(verb);
    assert line[..n] == verb && line[n + 1..] == rest;
  }

  lemma CrackAccepted(s: StartLine)
    requires IsRequestLine(s)
    ensures CrackFirstLine(LineText(s)) == Some(s)
  {
    hide IsTokenChar, IsLowerLetter, FindByte, IsVersion, IsVersionTail, CrackFirstLine;
    var tail := if s.version == [] then [] else Ascii(" HTTP/") + s.version;
    var rest := s.uri + tail;
    assert Ascii(" ") == [32];
    assert LineText(s) == s.command + [32] + rest;
    CrackRest(s.command, rest);
    if s.version == [] {
      assert rest == s.uri;
    } else {
      UriEnds(s.uri, tail);
      HttpVersion(s.version);
      assert rest[|s.uri| + 1..] == tail[1..] && rest[|s.uri| + 6..] == tail[6..];
      assert rest[..|s.uri|] == s.uri;
    }
  }

  /** A request line is accepted exactly when it follows the grammar, and is taken apart as it was put
      together. */
  lemma CrackGrammar(line: Bytes)
    requires CrackFirstLine(line).Some?
    ensures var s := CrackFirstLine(line).value; IsRequestLine(s) && line == LineText(s)
  {
    hide IsTokenChar, IsTchar, IsLowerLetter, TokenLength, FindByte, IsVersion, IsVersionTail;
    var s := CrackFirstLine(line).value;
    var n := TokenLength(line);
    TokenFound(line);
    UpperText(line[..n]);
    var rest := line[n + 1..];
    assert Ascii(" ") == [32];
    assert line == line[..n] + [32] + rest;
    var sp := FindByte(rest, 32);
    if sp >= 0 {
      UriThenVersion(rest, sp);
      Regroup(line[..n], rest[..sp], Ascii(" HTTP/") + rest[sp + 6..]);
    }
  }

  lemma Regroup(a: Bytes, b: Bytes, c: Bytes)
    ensures a + [32] + (b + c) == a + [32] + b + c
  {
  }

  lemma UriThenVersion(rest: Bytes, sp: nat)
    requires sp < |rest| && rest[sp] == 32 && IsVersionTail(rest[sp + 1..])
    requires forall i :: 0 <= i < sp ==> rest[i] != 32
    ensures var v := rest[sp + 6..]; IsVersion(v) && rest == rest[..sp] + (Ascii(" HTTP/") + v)
    ensures 32 !in rest[..sp] && rest[sp + 6..] != []
  {
    hide IsVersion, IsVersionTail;
    var t := rest[sp + 1..];
    VersionTail(t);
    assert rest == rest[..sp] + ([32] + t);
    assert t[5..] == rest[sp + 6..];
    assert Ascii(" HTTP/") + t[5..] == [32] + (Ascii("HTTP/") + t[5..]);
  }
}
