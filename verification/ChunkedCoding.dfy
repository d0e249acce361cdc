/** The chunked transfer coding: its size lines, a decoder that takes one byte at a time, and a
    decoder that takes the whole message at once in the style of section 7.1 of RFC 9112. */
module ChunkedCoding {
  import opened ByteStrings

  // ---------- size lines ----------

  predicate IsDigit(b: byte) { 48 <= b <= 57 }

  predicate IsHexDigit(b: byte) {
    IsDigit(b) || 65 <= b <= 70 || 97 <= b <= 102
  }

  function HexDigitValue(b: byte): nat
    requires IsHexDigit(b)
  {
    if IsDigit(b) then b as int - 48
    else if b <= 70 then b as int - 55
    else b as int - 87
  }

  predicate AllHex(s: Bytes) {
    forall i :: 0 <= i < |s| ==> IsHexDigit(s[i])
  }

  function HexValue(s: Bytes): nat
    requires AllHex(s)
  {
    if s == [] then 0 else 16 * HexValue(s[..|s| - 1]) + HexDigitValue(s[|s| - 1])
  }

  /** `$` also matches just before one final LF. */
  function DropFinalLf(s: Bytes): Bytes {
    if |s| > 0 && s[|s| - 1] == LF then s[..|s| - 1] else s
  }

  predicate OnlyHexDigits(s: Bytes) {
    var t := DropFinalLf(s);
    t != [] && AllHex(t)
  }

  /** token characters: section 5.6.2 of RFC 9110 */
  predicate IsTchar(b: byte) {
    || IsDigit(b) || 65 <= b <= 90 || 97 <= b <= 122
    || b == 33 || 35 <= b <= 39 || b == 42 || b == 43 || b == 45 || b == 46
    || b == 94 || b == 95 || b == 96 || b == 124 || b == 126
  }

  predicate IsQdText(b: byte) {
    b == 9 || b == 32 || b == 33 || 35 <= b <= 91 || 93 <= b <= 126 || 128 <= b
  }

  predicate IsQuotable(b: byte) {
    b == 9 || 32 <= b <= 126 || 128 <= b
  }

  function TokenLength(s: Bytes): (n: nat)
    ensures n <= |s|
  {
    if s == [] || !IsTchar(s[0]) then 0 else 1 + TokenLength(s[1..])
  }

  /** The length of the rest of a quoted string after its opening quote, or 0 when it never closes. */
  function QuotedLength(s: Bytes): (n: nat)
    ensures n <= |s|
  {
    if s == [] then 0
    else if s[0] == 34 then 1
    else if s[0] == 92 then
      if |s| >= 2 && IsQuotable(s[1]) then
        var n := QuotedLength(s[2..]);
        if n == 0 then 0 else n + 2
      else 0
    else if IsQdText(s[0]) then
      var n := QuotedLength(s[1..]);
      if n == 0 then 0 else n + 1
    else 0
  }

  /** The length of a chunk-ext-val, or 0 when there is none. */
  function ExtensionValueLength(s: Bytes): (n: nat)
    ensures n <= |s|
  {
    if s == [] then 0
    else if s[0] == 34 then
      var n := QuotedLength(s[1..]);
      if n == 0 then 0 else n + 1
    else TokenLength(s)
  }

  /** chunk-ext: *( ";" name [ "=" value ] ), up to the end or one final LF */
  predicate IsChunkExtension(s: Bytes)
    decreases |s|
  {
    s == [] || s == [LF] ||
    (s[0] == 59 &&
     var n := TokenLength(s[1..]);
     var t := s[1 + n..];
     n > 0 &&
     if |t| > 0 && t[0] == 61 && ExtensionValueLength(t[1..]) > 0
     then IsChunkExtension(t[1 + ExtensionValueLength(t[1..])..])
     else IsChunkExtension(t))
  }

  function FindSemicolon(s: Bytes): (p: int)
    ensures -1 <= p < |s|
    ensures p >= 0 ==> s[p] == 59
    ensures forall i :: 0 <= i < (if p < 0 then |s| else p) ==> s[i] != 59
  {
    if s == [] then -1
    else if s[0] == 59 then 0
    else var p := FindSemicolon(s[1..]); if p < 0 then -1 else p + 1
  }

  datatype ChunkError = BadExtension | BadSize | BadTerminator

  datatype SizeLine = NoLine | Rejected(error: ChunkError) | Size(size: nat)

  lemma HexDigitsOnly(s: Bytes)
    requires OnlyHexDigits(s)
    ensures AllHex(DropFinalLf(s))
  {
  }

  /** What a control line announces. */
  function ReadSizeLine(line: Bytes): SizeLine {
    if line == [] then NoLine
    else
      var semi := FindSemicolon(line);
      if semi >= 0 && !IsChunkExtension(line[semi..]) then Rejected(BadExtension)
      else
        var digits := if semi >= 0 then line[..semi] else line;
        if !OnlyHexDigits(digits) then Rejected(BadSize)
        else Size(HexValue(DropFinalLf(digits)))
  }

  // ---------- the decoder, one byte at a time ----------

  datatype Phase =
    | Line(carry: Bytes)     // inside a control line
    | Data(remain: nat)      // inside chunk data
    | DataEnd(carry: Bytes)  // at the CR LF after chunk data
    | Trailer(carry: Bytes)  // after the last chunk
    | Done
    | Failed(error: ChunkError)

  datatype Decoder = Decoder(phase: Phase, body: Bytes) {
    predicate Halted() { phase.Done? || phase.Failed? }

    /** What the carried-over bytes can be. */
    predicate Wf() {
      match phase
      case Line(c) => FindCrlf(c) < 0
      case Data(n) => n > 0
      case DataEnd(c) => |c| < 2
      case Trailer(c) => FindDoubleNewline(c) < 0 && !CrlfAt(c, 0)
      case Done => true
      case Failed(_) => true
    }
  }

  const FreshDecoder := Decoder(Line([]), [])

  function AfterLine(line: Bytes, body: Bytes): (d: Decoder) {
    match ReadSizeLine(line)
    case NoLine => Decoder(Line([]), body)
    case Rejected(e) => Decoder(Failed(e), body)
    case Size(n) => Decoder(if n > 0 then Data(n) else Trailer([]), body)
  }

  function Step(d: Decoder, b: byte): Decoder {
    match d.phase
    case Line(c) =>
      var t := c + [b];
      if CrlfAt(t, |t| - 2) then AfterLine(t[..|t| - 2], d.body) else Decoder(Line(t), d.body)
    case Data(n) =>
      Decoder(if n <= 1 then DataEnd([]) else Data(n - 1), d.body + [b])
    case DataEnd(c) =>
      var t := c + [b];
      if |t| < 2 then Decoder(DataEnd(t), d.body)
      else if CrlfAt(t, 0) then Decoder(Line([]), d.body)
      else Decoder(Failed(BadTerminator), d.body)
    case Trailer(c) =>
      var t := c + [b];
      if (|t| == 2 && CrlfAt(t, 0)) || BlankAt(t, |t| - 4) then Decoder(Done, d.body)
      else Decoder(Trailer(t), d.body)
    case Done => d
    case Failed(_) => d
  }

  function Feed(d: Decoder, s: Bytes): Decoder
    decreases |s|
  {
    if s == [] || d.Halted() then d else Feed(Step(d, s[0]), s[1..])
  }

  /** How many bytes of s are taken until the decoder halts. */
  function Eaten(d: Decoder, s: Bytes): (n: nat)
    ensures n <= |s|
    ensures !Feed(d, s).Halted() ==> n == |s|
    ensures s != [] && !d.Halted() ==> 1 <= n
    decreases |s|
  {
    if s == [] || d.Halted() then 0 else 1 + Eaten(Step(d, s[0]), s[1..])
  }

  lemma {:induction false} StepKeepsWf(d: Decoder, b: byte)
    requires d.Wf()
    ensures Step(d, b).Wf()
  {
    match d.phase
    case Line(c) =>
      assert forall i :: !CrlfAt(c, i);
      assert forall i :: i < |c| - 1 ==> (CrlfAt(c + [b], i) <==> CrlfAt(c, i));
    case Trailer(c) =>
      assert forall i :: !BlankAt(c, i);
      assert forall i :: i < |c| - 3 ==> (BlankAt(c + [b], i) <==> BlankAt(c, i));
      assert CrlfAt(c + [b], 0) ==> |c| == 1 || CrlfAt(c, 0);
    case _ =>
  }

  lemma {:induction false} FeedKeepsWf(d: Decoder, s: Bytes)
    requires d.Wf()
    ensures Feed(d, s).Wf()
    decreases |s|
  {
    if s != [] && !d.Halted() {
      StepKeepsWf(d, s[0]);
      FeedKeepsWf(Step(d, s[0]), s[1..]);
    }
  }

  lemma FeedNothing(d: Decoder)
    ensures Feed(d, []) == d && Eaten(d, []) == 0
  {
  }

  lemma FeedHalted(d: Decoder, s: Bytes)
    ensures d.Halted() ==> Feed(d, s) == d && Eaten(d, s) == 0
  {
  }

  lemma FeedFirst(d: Decoder, s: Bytes)
    requires s != [] && !d.Halted()
    ensures Feed(d, s) == Feed(Step(d, s[0]), s[1..])
    ensures Eaten(d, s) == 1 + Eaten(Step(d, s[0]), s[1..])
  {
    hide Step;
  }

  /** Feeding in two pieces is feeding the whole. */
  lemma {:induction false} FeedSplit(d: Decoder, a: Bytes, b: Bytes)
    ensures Feed(d, a + b) == Feed(Feed(d, a), b)
    ensures Eaten(d, a + b) == Eaten(d, a) + Eaten(Feed(d, a), b)
    decreases |a|
  {
    if a == [] {
      assert a + b == b;
    } else if !d.Halted() {
      assert (a + b)[1..] == a[1..] + b;
      FeedSplit(Step(d, a[0]), a[1..], b);
    }
  }

  /** What lies beyond the byte at which the decoder halts does not matter. */
  lemma FeedPrefix(d: Decoder, s: Bytes, n: nat)
    requires Eaten(d, s) <= n <= |s|
    ensures Feed(d, s[..n]) == Feed(d, s) && Eaten(d, s[..n]) == Eaten(d, s)
  {
    hide Feed, Eaten;
    assert s == s[..n] + s[n..];
    FeedSplit(d, s[..n], s[n..]);
    var d' := Feed(d, s[..n]);
    FeedHalted(d', s[n..]);
    FeedNothing(d');
  }

  function FeedAll(d: Decoder, pieces: seq<Bytes>): Decoder
    decreases |pieces|
  {
    if pieces == [] then d else FeedAll(Feed(d, pieces[0]), pieces[1..])
  }

  function EatenAll(d: Decoder, pieces: seq<Bytes>): nat
    decreases |pieces|
  {
    if pieces == [] then 0 else Eaten(d, pieces[0]) + EatenAll(Feed(d, pieces[0]), pieces[1..])
  }

  lemma {:induction false} CutIndependence(d: Decoder, pieces: seq<Bytes>)
    ensures FeedAll(d, pieces) == Feed(d, Join(pieces))
    ensures EatenAll(d, pieces) == Eaten(d, Join(pieces))
    decreases |pieces|
  {
    if pieces != [] {
      FeedSplit(d, pieces[0], Join(pieces[1..]));
      CutIndependence(Feed(d, pieces[0]), pieces[1..]);
    }
  }

  // ---------- what a run of bytes does in each phase ----------

  lemma {:induction false} FeedLine(c: Bytes, body: Bytes, s: Bytes)
    requires FindCrlf(c) < 0
    ensures var t := c + s; var p := FindCrlf(t); var d := Decoder(Line(c), body);
      if p < 0 then Feed(d, s) == Decoder(Line(t), body)
      else
        && |c| < p + 2
        && Feed(d, s) == Feed(AfterLine(t[..p], body), t[p + 2..])
        && Eaten(d, s) == p + 2 - |c| + Eaten(AfterLine(t[..p], body), t[p + 2..])
    decreases |s|
  {
    hide AfterLine;
    var t := c + s;
    if s == [] {
      assert t == c;
    } else {
      var c' := c + [s[0]];
      assert c' + s[1..] == t;
      if CrlfAt(c', |c'| - 2) {
        assert CrlfAt(t, |c'| - 2);
        forall i | 0 <= i < |c'| - 2 ensures !CrlfAt(t, i) {
          assert !CrlfAt(c, i);
        }
        FindCrlfUnique(t, |c'| - 2);
        assert t[..|c'| - 2] == c'[..|c'| - 2];
        assert t[|c'|..] == s[1..];
      } else {
        forall i ensures !CrlfAt(c', i) {
          assert !CrlfAt(c, i);
        }
        FeedLine(c', body, s[1..]);
      }
    }
  }

  lemma {:induction false} FeedData(n: nat, body: Bytes, s: Bytes)
    requires n > 0
    ensures var d := Decoder(Data(n), body);
      if |s| < n then Feed(d, s) == Decoder(Data(n - |s|), body + s)
      else
        && Feed(d, s) == Feed(Decoder(DataEnd([]), body + s[..n]), s[n..])
        && Eaten(d, s) == n + Eaten(Decoder(DataEnd([]), body + s[..n]), s[n..])
    decreases |s|
  {
    hide AfterLine, FindCrlf, CrlfAt;
    if s == [] {
      assert body + s == body;
    } else {
      var body' := body + [s[0]];
      assert body' + s[1..] == body + s;
      if n == 1 {
        assert s[..1] == [s[0]];
      } else {
        FeedData(n - 1, body', s[1..]);
        if |s| >= n {
          assert body' + s[1..][..n - 1] == body + s[..n];
          assert s[1..][n - 1..] == s[n..];
        }
      }
    }
  }

  lemma {:induction false} FeedDataEnd(c: Bytes, body: Bytes, s: Bytes)
    requires |c| < 2
    ensures var t := c + s; var d := Decoder(DataEnd(c), body);
      if |t| < 2 then Feed(d, s) == Decoder(DataEnd(t), body)
      else if CrlfAt(t, 0) then
        && Feed(d, s) == Feed(Decoder(Line([]), body), t[2..])
        && Eaten(d, s) == 2 - |c| + Eaten(Decoder(Line([]), body), t[2..])
      else
        && Feed(d, s) == Decoder(Failed(BadTerminator), body)
        && Eaten(d, s) == 2 - |c|
    decreases |s|
  {
    var t := c + s;
    if s == [] {
      assert t == c;
    } else {
      var c' := c + [s[0]];
      assert c' + s[1..] == t;
      if |c'| < 2 {
        FeedDataEnd(c', body, s[1..]);
      } else {
        assert t[2..] == s[1..];
        assert CrlfAt(t, 0) <==> CrlfAt(c', 0);
      }
    }
  }

  /** Where the trailer section that starts t ends, or -1. */
  function TrailerEnd(t: Bytes): (p: int)
    ensures p == -1 || 2 <= p <= |t|
  {
    if CrlfAt(t, 0) then 2 else FindDoubleNewline(t)
  }

  /** A trailer section that was not over ends inside what is appended to it. */
  lemma TrailerEndIsNew(c: Bytes, s: Bytes)
    requires TrailerEnd(c) < 0
    ensures TrailerEnd(c + s) >= 0 ==> |c| < TrailerEnd(c + s)
  {
    var t := c + s;
    if TrailerEnd(t) >= 0 && TrailerEnd(t) <= |c| {
      assert CrlfAt(t, 0) ==> CrlfAt(c, 0);
      assert !CrlfAt(t, 0) ==> BlankAt(c, TrailerEnd(t) - 4);
      assert false;
    }
  }

  lemma {:induction false} FeedTrailer(c: Bytes, body: Bytes, s: Bytes)
    requires TrailerEnd(c) < 0
    ensures var t := c + s; var p := TrailerEnd(t); var d := Decoder(Trailer(c), body);
      if p < 0 then Feed(d, s) == Decoder(Trailer(t), body)
      else
        && |c| < p
        && Feed(d, s) == Decoder(Done, body)
        && Eaten(d, s) == p - |c|
    decreases |s|
  {
    var t := c + s;
    if s == [] {
      assert t == c;
    } else {
      var c' := c + [s[0]];
      assert c' + s[1..] == t;
      if |c'| == 2 && CrlfAt(c', 0) {
        assert CrlfAt(t, 0);
      } else {
        assert !CrlfAt(c', 0) by { assert !CrlfAt(c, 0); }
        assert !CrlfAt(t, 0) || |c'| < 2;
        if BlankAt(c', |c'| - 4) {
          assert BlankAt(t, |c'| - 4);
          forall i | 0 <= i < |c'| - 4 ensures !BlankAt(t, i) {
            assert !BlankAt(c, i);
          }
          FindDoubleNewlineUnique(t, |c'| - 4);
        } else {
          forall i ensures !BlankAt(c', i) {
            assert !BlankAt(c, i);
          }
          FeedTrailer(c', body, s[1..]);
        }
      }
    }
  }

  // ---------- how much a call says it has consumed ----------

  function CarryOf(d: Decoder): Bytes {
    if d.phase.DataEnd? then d.phase.carry else []
  }

  lemma {:induction false} BadTerminatorTakesTwo(d: Decoder, s: Bytes)
    requires !d.Halted() && d.Wf() && Feed(d, s).phase == Failed(BadTerminator)
    ensures |CarryOf(d)| + Eaten(d, s) >= 2
    decreases |s|
  {
    if s != [] {
      FeedFirst(d, s);
      var d1 := Step(d, s[0]);
      StepKeepsWf(d, s[0]);
      if !d1.Halted() {
        BadTerminatorTakesTwo(d1, s[1..]);
      } else {
        FeedHalted(d1, s[1..]);
      }
    }
  }

  /** What the code takes for a trailer after chunk data that does not end in CR LF: the two offending
      bytes, one of which may have been carried over, and everything after them. */
  function AfterBadEnd(d: Decoder, s: Bytes): Bytes
    requires |CarryOf(d)| + Eaten(d, s) >= 2
  {
    (CarryOf(d) + s)[|CarryOf(d)| + Eaten(d, s) - 2..]
  }

  /** The number of bytes that a call reports. Without an error it is what the decoder takes. After a bad
      size line it is all of them. After a bad chunk end the rest is searched for a blank line, as if it
      were a trailer, and counts up to there. */
  function Reported(d: Decoder, s: Bytes): (n: nat)
    requires !d.Halted() && d.Wf()
  {
    var d' := Feed(d, s);
    if !d'.phase.Failed? then Eaten(d, s)
    else if d'.phase.error != BadTerminator then |s|
    else
      BadTerminatorTakesTwo(d, s);
      var p := FindDoubleNewline(AfterBadEnd(d, s));
      if p < 0 then |s| else Eaten(d, s) - 2 + p
  }

  lemma ReportedBounds(d: Decoder, s: Bytes)
    requires !d.Halted() && d.Wf()
    ensures Eaten(d, s) <= Reported(d, s) <= |s|
  {
    if Feed(d, s).phase == Failed(BadTerminator) {
      BadTerminatorTakesTwo(d, s);
    }
  }

  // ---------- the whole message at once ----------

  datatype Decoded =
    | Ended(body: Bytes, used: nat)
    | Short(body: Bytes)
    | Bad(body: Bytes, error: ChunkError)

  /** The outcome of decoding what follows `data` and `skip` bytes of framing. */
  function After(data: Bytes, skip: nat, rest: Decoded): Decoded {
    match rest
    case Ended(b, n) => Ended(data + b, skip + n)
    case Short(b) => Short(data + b)
    case Bad(b, e) => Bad(data + b, e)
  }

  /** chunked-body = *chunk last-chunk trailer-section CRLF */
  function Decode(s: Bytes): Decoded
    decreases |s|
  {
    var p := FindCrlf(s);
    if p < 0 then Short([])
    else
      var t := s[p + 2..];
      match ReadSizeLine(s[..p])
      case NoLine => After([], p + 2, Decode(t))
      case Rejected(e) => Bad([], e)
      case Size(n) =>
        if n == 0 then
          var q := TrailerEnd(t);
          if q < 0 then Short([]) else Ended([], p + 2 + q)
        else if |t| < n + 2 then Short(t[..Min(n, |t|)])
        else if !CrlfAt(t, n) then Bad(t[..n], BadTerminator)
        else After(t[..n], p + 2 + n + 2, Decode(t[n + 2..]))
  }

  /** What a byte-at-a-time run that started with `body` has found. */
  function Verdict(d: Decoder, used: nat): Decoded {
    match d.phase
    case Done => Ended(d.body, used)
    case Failed(e) => Bad(d.body, e)
    case _ => Short(d.body)
  }

  function Run(d: Decoder, s: Bytes): Decoded {
    Verdict(Feed(d, s), Eaten(d, s))
  }

  lemma AfterAfter(a: Bytes, m: nat, b: Bytes, n: nat, r: Decoded)
    ensures After(a, m, After(b, n, r)) == After(a + b, m + n, r)
  {
    assert a + (b + r.body) == a + b + r.body;
  }

  lemma AfterNothing(r: Decoded)
    ensures After([], 0, r) == r
  {
    assert [] + r.body == r.body;
  }

  /** A run that reaches the same state a few bytes later reports those bytes too. */
  lemma RunLater(d: Decoder, s: Bytes, d': Decoder, s': Bytes, k: nat)
    requires Feed(d, s) == Feed(d', s') && Eaten(d, s) == k + Eaten(d', s')
    ensures Run(d, s) == After([], k, Run(d', s'))
  {
    hide Feed, Eaten;
    var r := Verdict(Feed(d', s'), Eaten(d', s'));
    assert [] + r.body == r.body;
  }

  lemma RunLine(body: Bytes, s: Bytes)
    ensures var p := FindCrlf(s);
      Run(Decoder(Line([]), body), s) ==
        if p < 0 then Short(body) else After([], p + 2, Run(AfterLine(s[..p], body), s[p + 2..]))
  {
    hide AfterLine, Feed, Eaten;
    FeedLine([], body, s);
    assert [] + s == s;
    var p := FindCrlf(s);
    if p >= 0 {
      RunLater(Decoder(Line([]), body), s, AfterLine(s[..p], body), s[p + 2..], p + 2);
    }
  }

  lemma RunTrailer(body: Bytes, t: Bytes)
    ensures var q := TrailerEnd(t);
      Run(Decoder(Trailer([]), body), t) == if q < 0 then Short(body) else Ended(body, q)
  {
    hide Feed, Eaten;
    FeedTrailer([], body, t);
    assert [] + t == t;
  }

  lemma RunChunk(body: Bytes, n: nat, t: Bytes)
    requires n > 0
    ensures Run(Decoder(Data(n), body), t) ==
        if |t| < n + 2 then Short(body + t[..Min(n, |t|)])
        else if !CrlfAt(t, n) then Bad(body + t[..n], BadTerminator)
        else After([], n + 2, Run(Decoder(Line([]), body + t[..n]), t[n + 2..]))
  {
    hide Feed, Eaten, FindCrlf, TrailerEnd;
    FeedData(n, body, t);
    if |t| < n {
      assert t[..Min(n, |t|)] == t;
    } else {
      var u := t[n..];
      FeedDataEnd([], body + t[..n], u);
      assert [] + u == u;
      if |t| >= n + 2 {
        assert CrlfAt(u, 0) <==> CrlfAt(t, n);
        if CrlfAt(t, n) {
          assert u[2..] == t[n + 2..];
          RunLater(Decoder(Data(n), body), t, Decoder(Line([]), body + t[..n]), t[n + 2..], n + 2);
        }
      }
    }
  }

  lemma {:induction false} DecodeFrom(body: Bytes, s: Bytes)
    ensures Run(Decoder(Line([]), body), s) == After(body, 0, Decode(s))
    decreases |s|
  {
    hide Run, ReadSizeLine, FindCrlf, TrailerEnd;
    RunLine(body, s);
    assert body + [] == body;
    var p := FindCrlf(s);
    if p >= 0 {
      var t := s[p + 2..];
      match ReadSizeLine(s[..p])
      case NoLine =>
        DecodeFrom(body, t);
        AfterAfter(body, 0, [], p + 2, Decode(t));
        AfterAfter([], p + 2, body, 0, Decode(t));
        assert [] + body == body;
      case Rejected(e) =>
        RunRejected(body, t, e);
        AfterAfter([], p + 2, body, 0, Bad([], e));
        assert [] + body == body;
      case Size(n) =>
        if n == 0 {
          RunTrailer(body, t);
        } else {
          RunChunk(body, n, t);
          AfterChunk(body, s, p, n);
        }
    }
  }

  lemma RunRejected(body: Bytes, t: Bytes, e: ChunkError)
    ensures Run(Decoder(Failed(e), body), t) == Bad(body, e)
  {
  }

  lemma AfterChunk(body: Bytes, s: Bytes, p: nat, n: nat)
    requires FindCrlf(s) == p && ReadSizeLine(s[..p]) == Size(n) && n > 0
    requires Run(Decoder(Line([]), body), s) == After([], p + 2, Run(Decoder(Data(n), body), s[p + 2..]))
    ensures Run(Decoder(Line([]), body), s) == After(body, 0, Decode(s))
    decreases |s|, 0
  {
    hide Run, ReadSizeLine, FindCrlf, TrailerEnd;
    var t := s[p + 2..];
    RunChunk(body, n, t);
    if |t| >= n + 2 && CrlfAt(t, n) {
      DecodeFrom(body + t[..n], t[n + 2..]);
      var r := Decode(t[n + 2..]);
      AfterAfter([], n + 2, body + t[..n], 0, r);
      AfterAfter([], p + 2, [] + (body + t[..n]), n + 2, r);
      AfterAfter(body, 0, t[..n], p + 2 + n + 2, r);
      assert [] + ([] + (body + t[..n])) == body + t[..n];
    } else {
      assert [] + (body + t[..Min(n, |t|)]) == body + t[..Min(n, |t|)];
    }
  }

  /** For every cut of every byte string, the decoder finds what the one-shot decoder finds. */
  lemma {:induction false} DecoderMeetsOneShot(pieces: seq<Bytes>)
    ensures Verdict(FeedAll(FreshDecoder, pieces), EatenAll(FreshDecoder, pieces)) == Decode(Join(pieces))
  {
    hide Feed, Eaten, Decode;
    CutIndependence(FreshDecoder, pieces);
    DecodeFrom([], Join(pieces));
    AfterNothing(Decode(Join(pieces)));
  }
}
