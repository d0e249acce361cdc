/** The four-stage buffer: nothing, a byte string, a BytesIO, a temporary file. */
module Buffers {
  import opened ByteStrings
  import opened Files

  const STRBUF_LIMIT := 8192

  class OverflowableBuffer {
    var overflowed: bool
    var buf: FileBasedBuffer?
    var strbuf: Bytes
    const overflow: int

    ghost var Repr: set<object>

    ghost predicate Valid()
      reads this, Repr
      ensures Valid() ==> this in Repr
    {
      && this in Repr
      && (buf == null ==> !overflowed && |strbuf| < STRBUF_LIMIT)
      && (buf != null ==>
        && strbuf == []
        && buf in Repr && buf.file in Repr
        && buf.Valid()
        && overflowed == buf.file.onDisk
        && (!overflowed ==> buf.remain < overflow))
    }

    /** The bytes appended and not yet skipped. */
    ghost function Unread(): Bytes
      reads this, Repr
      requires Valid()
    {
      if buf == null then strbuf else buf.Unread()
    }

    /** How many of them are held outside a temporary file. */
    ghost function InMemory(): (n: nat)
      reads this, Repr
      requires Valid()
      ensures n == 0 || n < 8192 || n < overflow
    {
      if overflowed then 0 else |Unread()|
    }

    constructor (overflow: int)
      ensures Valid() && fresh(Repr) && Unread() == [] && this.overflow == overflow
    {
      overflowed, buf, strbuf := false, null, [];
      this.overflow := overflow;
      Repr := {this};
    }

    /** `__len__` */
    function Length(): (n: int)
      reads this, Repr
      requires Valid()
      ensures n == |Unread()|
    {
      if buf != null then buf.Length() else |strbuf|
    }

    method CreateBuffer()
      requires Valid() && buf == null
      modifies Repr
      ensures Valid() && fresh(Repr - old(Repr)) && buf != null
      ensures Unread() == old(Unread()) && (overflowed <==> |Unread()| >= overflow)
    {
      var keep := strbuf;
      if |strbuf| >= overflow {
        SetLargeBuffer();
      } else {
        buf := new FileBasedBuffer(false, null);
        Repr := Repr + {buf, buf.file};
        overflowed := false;
      }
      if keep != [] {
        buf.Append(keep);
        strbuf := [];
      }
    }

    /** Migration keeps the contents and the read position, and closes the file it leaves. */
    method SetLargeBuffer()
      requires this in Repr
      requires buf != null ==> buf in Repr && buf.file in Repr && buf.Valid()
      modifies Repr
      ensures this in Repr && fresh(Repr - old(Repr)) && strbuf == old(strbuf)
      ensures buf != null && buf in Repr && buf.file in Repr && buf.Valid() && buf.file.onDisk && overflowed
      ensures old(buf) == null ==> buf.file.data == [] && buf.file.pos == 0
      ensures old(buf) != null ==>
        && buf.file.data == old(buf.file.data) && buf.file.pos == old(buf.file.pos)
        && old(buf.file).closed
    {
      var oldbuf := buf;
      buf := new FileBasedBuffer(true, oldbuf);
      Repr := Repr + {buf, buf.file};
      if oldbuf != null {
        oldbuf.Close();
      }
      overflowed := true;
    }

    method Append(s: Bytes)
      requires Valid()
      modifies Repr
      ensures Valid() && fresh(Repr - old(Repr))
      ensures Unread() == old(Unread()) + s
      ensures buf == null <==> old(buf) == null && |Unread()| < 8192
      ensures buf != null ==> (overflowed <==> old(overflowed) || |Unread()| >= overflow)
    {
      if buf == null {
        if |strbuf| + |s| < STRBUF_LIMIT {
          strbuf := strbuf + s;
          return;
        }
        CreateBuffer();
      }
      buf.Append(s);
      var size := buf.Length();
      if !overflowed {
        if size >= overflow {
          SetLargeBuffer();
        }
      }
    }

    method Get(n: int, skip: bool) returns (r: Bytes)
      requires Valid()
      modifies Repr
      ensures Valid() && fresh(Repr - old(Repr))
      ensures r <= old(Unread())
      ensures n != 0 && old(Unread()) != [] ==> r != []
      ensures n < 0 ==> r == old(Unread())
      ensures n >= 0 && (skip || old(buf) != null) ==> |r| == Min(n, |old(Unread())|)
      ensures Unread() == if skip then old(Unread())[|r|..] else old(Unread())
    {
      if buf == null {
        if !skip {
          return strbuf;
        }
        CreateBuffer();
      }
      r := buf.Get(n, skip);
    }

    /** False stands for the ValueError. */
    method Skip(n: nat, allowPrune: bool) returns (ok: bool)
      requires Valid()
      modifies Repr
      ensures Valid() && fresh(Repr - old(Repr))
      ensures ok == (n <= |old(Unread())|)
      ensures Unread() == if ok then old(Unread())[n..] else old(Unread())
    {
      if buf == null {
        if allowPrune && n == |strbuf| {
          strbuf := [];
          return true;
        }
        CreateBuffer();
      }
      ok := buf.Skip(n);
    }

    /** The file behind the buffer, standing at the first unread byte. */
    method GetFile() returns (f: ByteFile)
      requires Valid()
      modifies Repr
      ensures Valid() && fresh(Repr - old(Repr)) && f in Repr && !f.closed
      ensures Unread() == old(Unread())
      ensures f.pos <= |f.data| && f.data[f.pos..] == Unread()
    {
      if buf == null {
        CreateBuffer();
      }
      f := buf.file;
    }

    method Close()
      requires Valid()
      modifies Repr
      ensures buf == old(buf) && strbuf == old(strbuf)
      ensures buf != null ==> buf.file == old(buf.file) && buf.file.closed && buf.remain == 0
    {
      if buf != null {
        buf.Close();
      }
    }
  }
}
