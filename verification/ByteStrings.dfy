/** Byte strings, the two delimiters the server searches for, and the laws of those searches. */
module ByteStrings {

  newtype byte = x: int | 0 <= x < 256

  type Bytes = seq<byte>

  const CR: byte := 13
  const LF: byte := 10
  const CRLF: Bytes := [CR, LF]

  function Ascii(s: string): (b: Bytes)
    ensures |b| == |s|
  {
    seq(|s|, i requires 0 <= i < |s| => if s[i] as int < 128 then s[i] as int as byte else 0)
  }

  predicate CrlfAt(s: Bytes, i: int) {
    0 <= i && i + 1 < |s| && s[i] == CR && s[i + 1] == LF
  }

  /** A blank line: CR LF CR LF starting at i. */
  predicate BlankAt(s: Bytes, i: int) {
    0 <= i && i + 3 < |s| && s[i] == CR && s[i + 1] == LF && s[i + 2] == CR && s[i + 3] == LF
  }

  function FindCrlfFrom(s: Bytes, from: nat): (p: int)
    requires from <= |s|
    ensures p == -1 || from <= p
    ensures p >= 0 ==> CrlfAt(s, p)
    ensures forall i :: from <= i && (p < 0 || i < p) ==> !CrlfAt(s, i)
    decreases |s| - from
  {
    if CrlfAt(s, from) then from
    else if from == |s| then -1
    else FindCrlfFrom(s, from + 1)
  }

  /** `s.find(b"\r\n")`: the first CR LF, or -1. */
  function FindCrlf(s: Bytes): (p: int)
    ensures p == -1 || 0 <= p
    ensures p >= 0 ==> CrlfAt(s, p)
    ensures forall i :: p < 0 || i < p ==> !CrlfAt(s, i)
  {
    FindCrlfFrom(s, 0)
  }

  function FindBlankFrom(s: Bytes, from: nat): (p: int)
    requires from <= |s|
    ensures p == -1 || from <= p
    ensures p >= 0 ==> BlankAt(s, p)
    ensures forall i :: from <= i && (p < 0 || i < p) ==> !BlankAt(s, i)
    decreases |s| - from
  {
    if BlankAt(s, from) then from
    else if from == |s| then -1
    else FindBlankFrom(s, from + 1)
  }

  /** The position just after the first blank line, or -1. */
  function FindDoubleNewline(s: Bytes): (p: int)
    ensures p == -1 || 4 <= p <= |s|
    ensures p >= 0 ==> BlankAt(s, p - 4)
    ensures forall i :: p < 0 || i < p - 4 ==> !BlankAt(s, i)
  {
    var p := FindBlankFrom(s, 0);
    if p < 0 then -1 else p + 4
  }

  function Min(a: int, b: int): int {
    if a < b then a else b
  }

  /** The pieces of a stream, joined again. */
  function Join(pieces: seq<Bytes>): Bytes {
    if pieces == [] then [] else pieces[0] + Join(pieces[1..])
  }

  lemma FindCrlfUnique(s: Bytes, p: int)
    requires CrlfAt(s, p)
    requires forall i :: 0 <= i < p ==> !CrlfAt(s, i)
    ensures FindCrlf(s) == p
  {
  }

  lemma FindDoubleNewlineUnique(s: Bytes, p: int)
    requires BlankAt(s, p)
    requires forall i :: 0 <= i < p ==> !BlankAt(s, i)
    ensures FindDoubleNewline(s) == p + 4
  {
  }

  lemma {:induction false} JoinAppend(contents: seq<Bytes>, data: Bytes)
    ensures Join(contents + [data]) == Join(contents) + data
    decreases |contents|
  {
    if contents == [] {
      assert [data][1..] == [];
    } else {
      assert (contents + [data])[1..] == contents[1..] + [data];
      JoinAppend(contents[1..], data);
    }
  }

  lemma {:induction false} JoinBoth(a: seq<Bytes>, b: seq<Bytes>)
    ensures Join(a + b) == Join(a) + Join(b)
    decreases |a|
  {
    if a == [] {
      assert a + b == b;
    } else {
      assert (a + b)[1..] == a[1..] + b;
      JoinBoth(a[1..], b);
    }
  }

  // ---------- lines ----------

  function JoinLines(lines: seq<Bytes>): Bytes
    requires lines != []
  {
    if |lines| == 1 then lines[0] else lines[0] + CRLF + JoinLines(lines[1..])
  }

  predicate NoEol(s: Bytes) { CR !in s && LF !in s }

  predicate CleanLine(line: Bytes) { line != [] && CR !in line && LF !in line }

  /** The first blank line after clean lines is the one that ends the block. */
  lemma {:induction false} BlockEnd(lines: seq<Bytes>, rest: Bytes)
    requires lines != [] && forall l :: l in lines ==> CleanLine(l)
    ensures var block := JoinLines(lines) + CRLF + CRLF; FindDoubleNewline(block + rest) == |block|
    decreases |lines|
  {
    var line := lines[0];
    var block := JoinLines(lines) + CRLF + CRLF;
    var s := block + rest;
    assert CleanLine(line);
    assert forall i :: 0 <= i < |line| ==> line[i] in line && s[i] == line[i];
    if |lines| == 1 {
      assert BlankAt(s, |line|);
      FindDoubleNewlineUnique(s, |line|);
    } else {
      var tail := JoinLines(lines[1..]) + CRLF + CRLF;
      assert lines[1] in lines && CleanLine(lines[1]);
      BlockEnd(lines[1..], rest);
      var t := tail + rest;
      assert s == line + CRLF + t;
      var q := FindDoubleNewline(t);
      assert BlankAt(t, q - 4);
      assert BlankAt(s, |line| + 2 + q - 4);
      assert t[0] == lines[1][0] by { JoinStarts(lines[1..]); }
      assert lines[1][0] in lines[1];
      forall i | 0 <= i < |line| + 2 + q - 4 ensures !BlankAt(s, i) {
        if i >= |line| + 2 {
          assert !BlankAt(t, i - |line| - 2);
        }
      }
      FindDoubleNewlineUnique(s, |line| + 2 + q - 4);
    }
  }

  lemma JoinStarts(lines: seq<Bytes>)
    requires lines != [] && lines[0] != []
    ensures JoinLines(lines) != [] && JoinLines(lines)[0] == lines[0][0]
  {
  }
}
