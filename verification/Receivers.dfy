/** The two body receivers: a fixed number of bytes, and the chunked coding. */
module Receivers {
  import opened ByteStrings
  import opened Wrappers
  import opened ChunkedCoding
  import opened Files
  import opened Buffers

  lemma SuffixWhole(s: Bytes)
    ensures s == Suffix(s, |s|)
  {
  }

  lemma SuffixOfSuffix(w: Bytes, y: Bytes, x: Bytes)
    requires |y| <= |w| && y == Suffix(w, |y|) && |x| <= |y|
    ensures x == Suffix(y, |x|) ==> x == Suffix(w, |x|)
  {
  }

  /** Without an error a call reports what the decoder takes. */
  lemma ReportedClean(d: Decoder, s: Bytes)
    ensures !d.Halted() && d.Wf() && !Feed(d, s).phase.Failed? ==> Reported(d, s) == Eaten(d, s)
    ensures !Feed(d, s).Halted() ==> Eaten(d, s) == |s|
  {
  }

  lemma ReportedAll(d: Decoder, s: Bytes)
    requires !d.Halted() && d.Wf() && Feed(d, s).phase.Failed? && Feed(d, s).phase.error != BadTerminator
    ensures Reported(d, s) == |s|
  {
  }

  /** After a bad chunk end the rest counts up to a blank line in it. */
  lemma ReportedBadEnd(d: Decoder, s: Bytes, t: Bytes)
    requires BadEnd(d, s, t)
    ensures Reported(d, s) == if TrailerEnd(t) < 0 then |s| else |s| - |t| + TrailerEnd(t)
  {
    BadTerminatorTakesTwo(d, s);
    assert t == AfterBadEnd(d, s);
  }

  /** The last n bytes. */
  function Suffix(s: Bytes, n: nat): Bytes {
    if n <= |s| then s[|s| - n..] else s
  }

  /** With the decoder at d, `s` is what is left of the data that `start` was to be fed with. */
  ghost predicate Fed(start: Decoder, data: Bytes, d: Decoder, s: Bytes) {
    var rest := CarryOf(d) + s;
    && start.Wf()
    && Feed(start, data) == Feed(d, s)
    && Eaten(start, data) + |s| == |data| + Eaten(d, s)
    && |rest| <= |CarryOf(start) + data| && rest == Suffix(CarryOf(start) + data, |rest|)
  }

  lemma FedAtStart(start: Decoder, data: Bytes)
    requires start.Wf()
    ensures Fed(start, data, start, data)
  {
    SuffixWhole(CarryOf(start) + data);
  }

  lemma FedOn(start: Decoder, data: Bytes, d: Decoder, s: Bytes, d': Decoder, s': Bytes)
    requires Fed(start, data, d, s)
    requires Feed(d, s) == Feed(d', s') && Eaten(d, s) + |s'| == |s| + Eaten(d', s')
    requires |CarryOf(d') + s'| <= |CarryOf(d) + s|
    requires CarryOf(d') + s' == Suffix(CarryOf(d) + s, |CarryOf(d') + s'|)
    ensures Fed(start, data, d', s')
  {
    hide Feed, Eaten;
    SuffixOfSuffix(CarryOf(start) + data, CarryOf(d) + s, CarryOf(d') + s');
  }

  /** The rest is what the code takes for a trailer after a bad chunk end. */
  ghost predicate BadEnd(start: Decoder, data: Bytes, t: Bytes) {
    && start.Wf() && !start.Halted() && Feed(start, data).phase == Failed(BadTerminator)
    && Eaten(start, data) + |t| == |data| + 2 && t == Suffix(CarryOf(start) + data, |t|) && !CrlfAt(t, 0)
  }

  lemma BadEndFound(start: Decoder, data: Bytes, d: Decoder, s: Bytes, d': Decoder, t: Bytes)
    requires Fed(start, data, d, s) && !start.Halted()
    requires d'.phase == Failed(BadTerminator) && Feed(d, s) == d'
    requires t == CarryOf(d) + s && !CrlfAt(t, 0) && Eaten(d, s) + |t| == |s| + 2
    ensures BadEnd(start, data, t) && Feed(start, data) == d'
  {
    hide Feed, Eaten;
  }

  lemma FedFailed(start: Decoder, data: Bytes, d: Decoder, s: Bytes)
    requires Fed(start, data, d, s) && !start.Halted() && d.phase.Failed? && d.phase.error != BadTerminator
    ensures Feed(start, data) == d && Reported(start, data) == |data|
  {
    FeedHalted(d, s);
    ReportedAll(start, data);
  }

  /** What the trailer takes is the end of the feed. */
  lemma FedDone(start: Decoder, data: Bytes, d: Decoder, s: Bytes, d': Decoder, rest: Bytes)
    requires Fed(start, data, d, s) && !start.Halted() && d' == Feed(d, s) && d'.phase.Done?
    requires Eaten(d, s) + |rest| == |s|
    ensures Feed(start, data) == d' && |data| - |rest| == Reported(start, data)
  {
    hide Feed, Eaten, Reported;
    ReportedClean(start, data);
  }

  lemma FedMore(start: Decoder, data: Bytes, d: Decoder, s: Bytes, d': Decoder)
    requires Fed(start, data, d, s) && d' == Feed(d, s) && !d'.Halted() && CarryOf(d') == []
    ensures Fed(start, data, d', [])
  {
    hide Feed, Eaten, Reported, CarryOf;
    FeedNothing(d');
    assert !Feed(d, s).Halted() ==> Eaten(d, s) == |s|;
    assert CarryOf(d') + [] == [];
    assert Suffix(CarryOf(start) + data, 0) == [];
  }

  lemma FedToTheEnd(start: Decoder, data: Bytes, d: Decoder)
    requires Fed(start, data, d, []) && !start.Halted() && !d.Halted()
    ensures Feed(start, data) == d && Reported(start, data) == |data|
  {
    hide Feed, Eaten, Reported;
    FeedNothing(d);
    ReportedClean(start, data);
  }

  class FixedStreamReceiver {
    var remain: int
    var completed: bool
    const buf: OverflowableBuffer

    ghost var Repr: set<object>

    ghost predicate Valid()
      reads this, Repr
      ensures Valid() ==> this in Repr && 0 <= remain
    {
      && this in Repr && buf in Repr && buf.Repr <= Repr && this !in buf.Repr
      && buf.Valid()
      && 0 <= remain && (completed ==> remain == 0)
    }

    ghost function Body(): Bytes
      reads this, Repr
      requires Valid()
    {
      buf.Unread()
    }

    constructor (cl: nat, buf: OverflowableBuffer)
      requires buf.Valid()
      ensures Valid() && Repr == {this} + buf.Repr && this.buf == buf
      ensures remain == cl && !completed && Body() == buf.Unread()
    {
      remain, completed := cl, false;
      this.buf := buf;
      Repr := {this} + buf.Repr;
    }

    method Received(data: Bytes) returns (n: nat)
      requires Valid()
      modifies Repr
      ensures Valid() && fresh(Repr - old(Repr))
      ensures n == Min(old(remain), |data|) && remain == old(remain) - n
      ensures Body() == old(Body()) + data[..n]
      ensures completed <==> remain == 0
    {
      var rm := remain;
      if rm < 1 {
        completed := true;
        return 0;
      }
      if rm <= |data| {
        buf.Append(data[..rm]);
        Repr := Repr + buf.Repr;
        remain := 0;
        completed := true;
        return rm;
      } else {
        buf.Append(data);
        Repr := Repr + buf.Repr;
        remain := remain - |data|;
        return |data|;
      }
    }

    method GetFile() returns (f: ByteFile)
      requires Valid()
      modifies Repr
      ensures Valid() && fresh(Repr - old(Repr)) && !f.closed
      ensures Body() == old(Body()) && remain == old(remain)
      ensures f.pos <= |f.data| && f.data[f.pos..] == Body()
    {
      f := buf.GetFile();
      Repr := Repr + buf.Repr;
    }
  }

  class ChunkedReceiver {
    var chunkRemainder: int
    var validateChunkEnd: bool
    var controlLine: Bytes
    var chunkEnd: Bytes
    var allChunksReceived: bool
    var trailer: Bytes
    var completed: bool
    var error: Option<ChunkError>
    const buf: OverflowableBuffer

    ghost var Repr: set<object>

    ghost predicate Valid()
      reads this, Repr
      ensures Valid() ==> this in Repr
    {
      && this in Repr && buf in Repr && buf.Repr <= Repr && this !in buf.Repr
      && buf.Valid()
      && FieldsAgree()
    }

    /** The fields that one phase leaves idle are at their initial values. */
    ghost predicate FieldsAgree()
      reads this
    {
      && 0 <= chunkRemainder
      && |chunkEnd| < 2
      && (chunkRemainder > 0 ==> !validateChunkEnd)
      && (chunkRemainder > 0 || validateChunkEnd ==> !allChunksReceived && controlLine == [])
      && (chunkEnd != [] ==> validateChunkEnd)
      && FindCrlf(controlLine) < 0
      && (allChunksReceived ==> controlLine == [])
      && (!allChunksReceived ==> trailer == [])
      && (error.Some? ==> allChunksReceived)
      && (completed ==> allChunksReceived)
      && (!completed ==> TrailerEnd(trailer) < 0)
    }

    ghost function CurrentPhase(): Phase
      reads this
      requires 0 <= chunkRemainder
    {
      if error.Some? then Failed(error.value)
      else if completed then Done
      else if chunkRemainder > 0 then Data(chunkRemainder)
      else if validateChunkEnd then DataEnd(chunkEnd)
      else if !allChunksReceived then Line(controlLine)
      else Trailer(trailer)
    }

    /** The decoder that the fields stand for. */
    ghost function State(): (d: Decoder)
      reads this, Repr
      requires Valid()
      ensures error.Some? ==> d.phase == Failed(error.value)
      ensures error.None? ==> !d.phase.Failed? && (d.phase.Done? <==> completed)
      ensures d.Wf()
    {
      Decoder(CurrentPhase(), buf.Unread())
    }

    /** `__len__` */
    function Length(): (n: int)
      reads this, Repr
      requires Valid()
      ensures n == |State().body|
    {
      buf.Length()
    }

    constructor (buf: OverflowableBuffer)
      requires buf.Valid()
      ensures Valid() && Repr == {this} + buf.Repr && this.buf == buf
      ensures State() == Decoder(Line([]), buf.Unread())
    {
      chunkRemainder, validateChunkEnd, controlLine, chunkEnd := 0, false, [], [];
      allChunksReceived, trailer, completed, error := false, [], false, None;
      this.buf := buf;
      Repr := {this} + buf.Repr;
    }

    /** `rest` is what one turn of the loop leaves of `s`. */
    twostate predicate Progress(s: Bytes, rest: Bytes)
      requires old(Valid()) && Valid()
      reads this, Repr
    {
      && Feed(old(State()), s) == Feed(State(), rest)
      && Eaten(old(State()), s) + |rest| == |s| + Eaten(State(), rest)
    }

    method ReceiveData(s: Bytes) returns (rest: Bytes)
      requires Valid() && CurrentPhase().Data? && s != []
      modifies Repr
      ensures Valid() && fresh(Repr - old(Repr))
      ensures Progress(s, rest) && |rest| < |s| && rest == Suffix(s, |rest|)
      ensures !completed && error.None? && CarryOf(State()) == []
    {
      hide FindCrlf, TrailerEnd, Feed, Eaten;
      FeedData(chunkRemainder, buf.Unread(), s);
      var toWrite := s[..Min(chunkRemainder, |s|)];
      buf.Append(toWrite);
      Repr := Repr + buf.Repr;
      rest := s[|toWrite|..];
      chunkRemainder := chunkRemainder - |toWrite|;
      if chunkRemainder == 0 {
        validateChunkEnd := true;
      } else {
        assert toWrite == s;
        FeedNothing(State());
      }
    }

    method ReceiveChunkEnd(s: Bytes) returns (rest: Bytes)
      requires Valid() && CurrentPhase().DataEnd? && s != []
      modifies Repr
      ensures Valid() && Repr == old(Repr) && !completed
      ensures error.None? ==> Progress(s, rest) && |rest| < |s|
      ensures error.None? ==> CarryOf(State()) + rest == Suffix(CarryOf(old(State())) + s, |CarryOf(State())| + |rest|)
      ensures error.Some? ==>
        && error == Some(BadTerminator) && Feed(old(State()), s) == State() && trailer == []
        && rest == CarryOf(old(State())) + s && !CrlfAt(rest, 0)
        && |rest| <= |s| + 1 && Eaten(old(State()), s) + |rest| == |s| + 2
    {
      hide FindCrlf, TrailerEnd, Feed, Eaten, FindCrlfFrom;
      FeedDataEnd(chunkEnd, buf.Unread(), s);
      var t := chunkEnd + s;
      var pos := FindCrlf(t);
      if pos < 0 && |t| < 2 {
        chunkEnd := t;
        rest := [];
        validateChunkEnd := true;
        FeedNothing(State());
      } else {
        chunkEnd := [];
        if pos == 0 {
          rest := t[2..];
        } else {
          rest := t;
          error := Some(BadTerminator);
          allChunksReceived := true;
        }
        validateChunkEnd := false;
      }
    }

    /** A finished control line begins a chunk, ends the chunks, or is refused. */
    method BeginChunk(line: Bytes)
      requires Valid() && CurrentPhase() == Line([])
      modifies this
      ensures Valid() && Repr == old(Repr) && !completed
      ensures State() == AfterLine(line, old(State()).body)
      ensures CarryOf(State()) == [] && error != Some(BadTerminator)
    {
      hide FindCrlf, IsChunkExtension, OnlyHexDigits, HexValue, DropFinalLf;
      if line != [] {
        var semi := FindSemicolon(line);
        var digits := line;
        if semi >= 0 {
          if !IsChunkExtension(line[semi..]) {
            error := Some(BadExtension);
            allChunksReceived := true;
            return;
          }
          digits := line[..semi];
        }
        if !OnlyHexDigits(digits) {
          error := Some(BadSize);
          allChunksReceived := true;
          return;
        }
        HexDigitsOnly(digits);
        var size := HexValue(DropFinalLf(digits));
        if size > 0 {
          chunkRemainder := size;
        } else {
          allChunksReceived := true;
        }
      }
    }

    method ReceiveControlLine(s: Bytes) returns (rest: Bytes)
      requires Valid() && CurrentPhase().Line? && s != []
      modifies Repr
      ensures Valid() && Repr == old(Repr) && !completed
      ensures Progress(s, rest) && |rest| < |s| && rest == Suffix(s, |rest|)
      ensures CarryOf(State()) == [] && (error.Some? ==> error != Some(BadTerminator))
    {
      hide AfterLine, TrailerEnd, Feed, Eaten;
      FeedLine(controlLine, buf.Unread(), s);
      var t := controlLine + s;
      var pos := FindCrlf(t);
      if pos < 0 {
        controlLine := t;
        rest := [];
        FeedNothing(State());
      } else {
        rest := t[pos + 2..];
        controlLine := [];
        BeginChunk(t[..pos]);
      }
    }

    method ReceiveTrailer(s: Bytes) returns (rest: Bytes)
      requires Valid() && !completed && allChunksReceived && s != []
      modifies this
      ensures Valid() && Repr == old(Repr) && error == old(error) && allChunksReceived
      ensures State() == Feed(old(State()), s)
      ensures completed ==> |rest| <= |s|
      ensures var t := old(trailer) + s; (completed <==> TrailerEnd(t) >= 0) && (completed ==> |rest| == |t| - TrailerEnd(t))
      ensures completed && error.None? ==> Eaten(old(State()), s) + |rest| == |s|
      ensures completed && old(trailer) == [] ==> |rest| + 2 <= |s|
      ensures !completed ==> rest == []
    {
      hide FindCrlf, FindDoubleNewline, Feed, Eaten;
      var t := trailer + s;
      FeedTrailer(trailer, buf.Unread(), s);
      FeedHalted(State(), s);
      TrailerEndIsNew(trailer, s);
      if CrlfAt(t, 0) {
        completed := true;
        return t[2..];
      }
      var pos := FindDoubleNewline(t);
      if pos < 0 {
        trailer := t;
        rest := [];
      } else {
        completed := true;
        trailer := t[..pos];
        rest := t[pos..];
      }
    }

    /** Feeds a piece of the stream and says how many of its bytes count as consumed. */
    method Received(data: Bytes) returns (n: nat)
      requires Valid()
      modifies Repr
      ensures Valid() && fresh(Repr - old(Repr))
      ensures State() == Feed(old(State()), data)
      ensures !old(State()).Halted() ==> n == Reported(old(State()), data)
      ensures Eaten(old(State()), data) <= n <= |data|
      ensures !State().phase.Failed? ==> n == Eaten(old(State()), data)
    {
      hide AfterLine, FindCrlf, FindDoubleNewline, TrailerEnd, Feed, Eaten, ReadSizeLine, Reported, Suffix, BadEnd, Fed;
      ghost var start := State();
      FeedHalted(start, data);
      if completed {
        return 0;
      }
      if !start.Halted() {
        ReportedBounds(start, data);
        ReportedClean(start, data);
      }
      FedAtStart(start, data);
      var s := data;
      while s != []
        invariant Valid() && fresh(Repr - old(Repr)) && !completed
        invariant error.None? ==> Fed(start, data, State(), s) && !start.Halted()
        invariant error.Some? ==> Feed(start, data) == State() && allChunksReceived
        invariant error.Some? && start.Halted() ==> s == [] || s == data
        invariant error.Some? && !start.Halted() ==>
          if s == [] then Reported(start, data) == |data| else BadEnd(start, data, s) && trailer == []
        decreases if error.None? then 1 else 0, |s|
      {
        ghost var s0, d0 := s, State();
        assert [] + s0 == s0;
        if chunkRemainder > 0 {
          s := ReceiveData(s);
          assert [] + s == s;
          FedOn(start, data, d0, s0, State(), s);
        } else if validateChunkEnd {
          s := ReceiveChunkEnd(s);
          if error.None? {
            FedOn(start, data, d0, s0, State(), s);
          } else {
            BadEndFound(start, data, d0, s0, State(), s);
          }
        } else if !allChunksReceived {
          s := ReceiveControlLine(s);
          assert [] + s == s;
          FedOn(start, data, d0, s0, State(), s);
          if error.Some? {
            FedFailed(start, data, State(), s);
            break;
          }
        } else {
          s := ReceiveTrailer(s);
          if error.Some? {
            if !start.Halted() {
              ReportedBadEnd(start, data, s0);
            }
          } else if completed {
            FedDone(start, data, d0, s0, State(), s);
          } else {
            FedMore(start, data, d0, s0, State());
          }
          if completed {
            return |data| - |s|;
          }
        }
      }
      if error.None? {
        FedToTheEnd(start, data, State());
      }
      n := |data|;
    }

    method GetFile() returns (f: ByteFile)
      requires Valid()
      modifies Repr
      ensures Valid() && fresh(Repr - old(Repr)) && !f.closed
      ensures State() == old(State())
      ensures f.pos <= |f.data| && f.data[f.pos..] == State().body
    {
      f := buf.GetFile();
      Repr := Repr + buf.Repr;
    }
  }
}
