/** The chunks that a task writes, and why the chunked decoder reads them back. */
module ChunkFraming {
  import opened ByteStrings
  import opened ChunkedCoding
  import opened Spelling

  function UpperHexDigit(n: nat): (b: byte)
    requires n < 16
    ensures IsHexDigit(b) && HexDigitValue(b) == n
  {
    if n < 10 then (48 + n) as byte else (55 + n) as byte
  }

  /** `hex(n)[2:].upper()` */
  function UpperHex(n: nat): (s: Bytes)
    ensures s != [] && AllHex(s)
  {
    if n < 16 then [UpperHexDigit(n)] else UpperHex(n / 16) + [UpperHexDigit(n % 16)]
  }

  lemma {:induction false} HexRoundTrip(n: nat)
    ensures HexValue(UpperHex(n)) == n
  {
    var s := UpperHex(n);
    if n < 16 {
      assert s[..|s| - 1] == [];
    } else {
      HexRoundTrip(n / 16);
      assert s[..|s| - 1] == UpperHex(n / 16);
    }
  }

  /** What is written spells the number, in upper case. */
  lemma {:induction false} UpperHexSpells(n: nat)
    ensures Spells(UpperHex(n), n, 16)
    ensures forall i :: 0 <= i < |UpperHex(n)| ==> UpperHex(n)[i] in UPPER_HEX
  {
    HexRoundTrip(n);
    HexSpelling(UpperHex(n), n);
    InUpperTable(n % 16);
    if n >= 16 {
      UpperHexSpells(n / 16);
    }
  }

  lemma InUpperTable(d: nat)
    requires d < 16
    ensures UpperHexDigit(d) in UPPER_HEX
  {
    assert forall i :: 0 <= i < 10 ==> UPPER_HEX[i] as int == 48 + i;
    assert forall i :: 10 <= i < 16 ==> UPPER_HEX[i] as int == 55 + i;
    assert UPPER_HEX[d] == UpperHexDigit(d);
  }

  lemma SizeLineRoundTrip(n: nat)
    ensures ReadSizeLine(UpperHex(n)) == Size(n)
    ensures FindCrlf(UpperHex(n)) < 0
  {
    HexRoundTrip(n);
    var s := UpperHex(n);
    assert FindSemicolon(s) < 0;
    assert DropFinalLf(s) == s;
  }

  /** What `write` hands to the channel for one piece of a chunked response. */
  function EncodeChunk(data: Bytes): Bytes {
    UpperHex(|data|) + CRLF + data + CRLF
  }

  /** What `finish` hands to the channel after a chunked response. */
  const LAST_CHUNK: Bytes := [48] + CRLF + CRLF

  function EncodeChunks(chunks: seq<Bytes>): Bytes {
    if chunks == [] then [] else EncodeChunk(chunks[0]) + EncodeChunks(chunks[1..])
  }

  function Encode(chunks: seq<Bytes>): Bytes {
    EncodeChunks(chunks) + LAST_CHUNK
  }

  lemma LineThenRest(line: Bytes, rest: Bytes)
    requires FindCrlf(line) < 0
    requires line != [] ==> line[|line| - 1] != CR
    ensures var s := line + CRLF + rest;
      FindCrlf(s) == |line| && s[..|line|] == line && s[|line| + 2..] == rest
  {
    var s := line + CRLF + rest;
    forall i | 0 <= i < |line| ensures !CrlfAt(s, i) {
      assert !CrlfAt(line, i);
    }
    FindCrlfUnique(s, |line|);
  }

  lemma DecodeLastChunk(rest: Bytes)
    ensures Decode(LAST_CHUNK + rest) == Ended([], |LAST_CHUNK|)
  {
    SizeLineRoundTrip(0);
    var zero := UpperHex(0);
    assert zero == [48];
    LineThenRest(zero, CRLF + rest);
    assert LAST_CHUNK + rest == zero + CRLF + (CRLF + rest);
    assert CrlfAt(CRLF + rest, 0);
  }

  lemma DecodeSize(s: Bytes, p: nat, n: nat)
    requires FindCrlf(s) == p && ReadSizeLine(s[..p]) == Size(n) && n > 0
    requires |s| >= p + n + 4 && CrlfAt(s[p + 2..], n)
    ensures var t := s[p + 2..];
      Decode(s) == After(t[..n], p + 2 + n + 2, Decode(t[n + 2..]))
  {
    hide ReadSizeLine, FindCrlf;
  }

  lemma DecodeZero(s: Bytes, p: nat)
    requires FindCrlf(s) == p && ReadSizeLine(s[..p]) == Size(0)
    requires TrailerEnd(s[p + 2..]) >= 0
    ensures Decode(s) == Ended([], p + 2 + TrailerEnd(s[p + 2..]))
  {
    hide ReadSizeLine, FindCrlf;
  }

  lemma HexIsNotCr(b: byte)
    ensures IsHexDigit(b) ==> b != CR
  {
  }

  lemma DecodeFirstChunk(data: Bytes, rest: Bytes)
    requires data != []
    ensures Decode(EncodeChunk(data) + rest) == After(data, |EncodeChunk(data)|, Decode(rest))
  {
    hide ReadSizeLine, Decode, UpperHex, FindCrlf, IsHexDigit;
    var n := |data|;
    SizeLineRoundTrip(n);
    var line := UpperHex(n);
    var t := data + CRLF + rest;
    assert line[|line| - 1] != CR by { HexIsNotCr(line[|line| - 1]); }
    LineThenRest(line, t);
    assert EncodeChunk(data) + rest == line + CRLF + t;
    DecodeSize(line + CRLF + t, |line|, n);
    assert t[..n] == data && CrlfAt(t, n) && t[n + 2..] == rest;
  }

  lemma {:induction false} DecodeEncode(chunks: seq<Bytes>, rest: Bytes)
    requires forall i :: 0 <= i < |chunks| ==> chunks[i] != []
    ensures Decode(Encode(chunks) + rest) == Ended(Join(chunks), |Encode(chunks)|)
    decreases |chunks|
  {
    hide Decode;
    if chunks == [] {
      assert Encode(chunks) == LAST_CHUNK;
      DecodeLastChunk(rest);
    } else {
      var more := Encode(chunks[1..]);
      assert Encode(chunks) == EncodeChunk(chunks[0]) + more;
      assert Encode(chunks) + rest == EncodeChunk(chunks[0]) + (more + rest);
      DecodeFirstChunk(chunks[0], more + rest);
      DecodeEncode(chunks[1..], rest);
    }
  }

  /** However the encoding and what follows it are cut into pieces, the decoder ends with the joined
      chunks and has taken the encoding and nothing of what follows. */
  lemma ChunksReadBack(chunks: seq<Bytes>, rest: Bytes, pieces: seq<Bytes>)
    requires forall i :: 0 <= i < |chunks| ==> chunks[i] != []
    requires Join(pieces) == Encode(chunks) + rest
    ensures FeedAll(FreshDecoder, pieces) == Decoder(Done, Join(chunks))
    ensures EatenAll(FreshDecoder, pieces) == |Encode(chunks)|
  {
    DecoderMeetsOneShot(pieces);
    DecodeEncode(chunks, rest);
  }
}
