/** A seekable binary file, and the buffers that keep their bytes in one. */
module Files {
  import opened ByteStrings
  import opened Wrappers

  /** BytesIO or a temporary file: its bytes and its position. */
  class ByteFile {
    var data: Bytes
    var pos: nat
    var closed: bool
    const onDisk: bool

    constructor (onDisk: bool)
      ensures data == [] && pos == 0 && !closed && this.onDisk == onDisk
    {
      data, pos, closed := [], 0, false;
      this.onDisk := onDisk;
    }

    method Seek(p: nat)
      requires !closed
      modifies this`pos
      ensures pos == p
    {
      pos := p;
    }

    /** `seek(0, 2)` */
    method SeekEnd()
      requires !closed
      modifies this`pos
      ensures pos == |data|
    {
      pos := |data|;
    }

    /** `read(n)`; a negative n reads to the end. */
    method Read(n: int) returns (r: Bytes)
      requires !closed
      modifies this`pos
      ensures pos >= old(pos)
      ensures old(pos) <= |data| ==>
        && pos == (if n < 0 then |data| else Min(old(pos) + n, |data|))
        && r == data[old(pos)..pos]
      ensures old(pos) > |data| ==> r == [] && pos == old(pos)
    {
      if pos > |data| {
        return [];
      }
      var end := if n < 0 then |data| else Min(pos + n, |data|);
      r := data[pos..end];
      pos := end;
    }

    /** `write(s)`; a gap between the end and the position fills with zeros. */
    method Write(s: Bytes)
      requires !closed
      modifies this`data, this`pos
      ensures pos == old(pos) + |s|
      ensures old(pos) <= |old(data)| ==>
        data == old(data)[..old(pos)] + s + old(data)[Min(old(pos) + |s|, |old(data)|)..]
      ensures old(pos) > |old(data)| && s != [] ==>
        data == old(data) + seq(old(pos) - |old(data)|, _ => 0) + s
      ensures old(pos) > |old(data)| && s == [] ==> data == old(data)
    {
      if pos <= |data| {
        data := data[..pos] + s + data[Min(pos + |s|, |data|)..];
      } else if s != [] {
        data := data + seq(pos - |data|, _ => 0) + s;
      }
      pos := pos + |s|;
    }

    method Close()
      modifies this`closed
      ensures closed
    {
      closed := true;
    }
  }

  /** `1 << 18` */
  const COPY_BYTES := 0x4_0000

  /** A byte queue over a file: what is unread lies between the position and the end. */
  class FileBasedBuffer {
    var file: ByteFile
    var remain: int

    ghost predicate Valid()
      reads this, file
    {
      !file.closed && file.pos <= |file.data| && remain == |file.data| - file.pos
    }

    ghost function Unread(): Bytes
      reads this, file
      requires Valid()
    {
      file.data[file.pos..]
    }

    /** A new buffer over a new file; the contents and the read position of `from` move into it. */
    constructor (onDisk: bool, from: FileBasedBuffer?)
      requires from != null ==> from.Valid()
      modifies if from != null then {from.file} else {}
      ensures Valid() && fresh(file) && file.onDisk == onDisk
      ensures from == null ==> file.data == [] && file.pos == 0
      ensures from != null ==>
        && from.file.data == old(from.file.data) && from.file.pos == old(from.file.pos)
        && !from.file.closed && from.Valid()
        && file.data == from.file.data && file.pos == from.file.pos
    {
      var f := new ByteFile(onDisk);
      file := f;
      remain := 0;
      new;
      if from != null {
        var source := from.file;
        var readPos := source.pos;
        source.Seek(0);
        while true
          invariant !f.closed && !source.closed
          invariant source.data == old(source.data) && source.pos <= |source.data|
          invariant f.data == source.data[..source.pos] && f.pos == |f.data|
          invariant file == f && fresh(f) && readPos <= |source.data|
          decreases |source.data| - source.pos
        {
          var data := source.Read(COPY_BYTES);
          if data == [] {
            break;
          }
          f.Write(data);
        }
        remain := f.pos - readPos;
        source.Seek(readPos);
        f.Seek(readPos);
      }
    }

    /** `__len__` */
    function Length(): int
      reads this
    {
      remain
    }

    method Append(s: Bytes)
      requires Valid()
      modifies this`remain, file`data, file`pos
      ensures Valid() && Unread() == old(Unread()) + s && file.pos == old(file.pos)
    {
      var readPos := file.pos;
      file.SeekEnd();
      file.Write(s);
      file.Seek(readPos);
      remain := remain + |s|;
    }

    method Get(n: int, skip: bool) returns (r: Bytes)
      requires Valid()
      modifies this`remain, file`pos
      ensures Valid()
      ensures r == (if n < 0 then old(Unread()) else old(Unread())[..Min(n, |old(Unread())|)])
      ensures Unread() == if skip then old(Unread())[|r|..] else old(Unread())
    {
      var readPos := file.pos;
      r := file.Read(n);
      if skip {
        remain := remain - |r|;
      } else {
        file.Seek(readPos);
      }
    }

    /** False stands for the ValueError. */
    method Skip(n: nat) returns (ok: bool)
      requires Valid()
      modifies this`remain, file`pos
      ensures Valid() && ok == (n <= |old(Unread())|)
      ensures Unread() == if ok then old(Unread())[n..] else old(Unread())
    {
      if remain < n {
        return false;
      }
      file.Seek(file.pos + n);
      remain := remain - n;
      ok := true;
    }

    method Close()
      modifies this`remain, file`closed
      ensures file.closed && remain == 0
    {
      file.Close();
      remain := 0;
    }
  }

  /** `wsgi.file_wrapper`: at most `remain` further bytes of the file belong to the response. */
  class ReadOnlyFileBasedBuffer {
    var file: ByteFile
    var remain: int
    const seekable: bool

    ghost predicate Valid()
      reads this, file
    {
      !file.closed && 0 <= remain && file.pos + remain <= |file.data|
    }

    ghost function Unread(): Bytes
      reads this, file
      requires Valid()
    {
      file.data[file.pos..file.pos + remain]
    }

    constructor (file: ByteFile, seekable: bool)
      ensures this.file == file && this.seekable == seekable && remain == 0
    {
      this.file, this.seekable := file, seekable;
      remain := 0;
    }

    method Prepare(size: Option<int>) returns (n: int)
      requires !file.closed
      modifies this`remain, file`pos
      ensures n == remain && file.pos == old(file.pos)
      ensures !seekable ==> remain == old(remain)
      ensures seekable ==> var left := |file.data| - file.pos;
        n == if size.None? then left else Min(left, size.value)
      ensures seekable && file.pos <= |file.data| && (size.Some? ==> size.value >= 0) ==>
        Valid() && Unread() == file.data[file.pos..file.pos + n]
    {
      if seekable {
        var startPos: int := file.pos;
        file.SeekEnd();
        var endPos: int := file.pos;
        file.Seek(startPos);
        var fsize := endPos - startPos;
        remain := if size.None? then fsize else Min(fsize, size.value);
      }
      n := remain;
    }

    /** Only -1 stands for everything offered; a smaller number goes to the file, which is then read to
        its end. */
    method Get(n: int, skip: bool) returns (r: Bytes)
      requires Valid()
      modifies this`remain, file`pos
      ensures n >= -1 ==>
        && Valid() && r == (if n < 0 then old(Unread()) else old(Unread())[..Min(n, |old(Unread())|)])
        && Unread() == if skip then old(Unread())[|r|..] else old(Unread())
      ensures n < -1 ==>
        && r == old(file.data[file.pos..]) && remain == old(remain) - (if skip then |r| else 0)
        && file.pos == if skip then |file.data| else old(file.pos)
    {
      var k := if n == -1 || n > remain then remain else n;
      var readPos := file.pos;
      ghost var unread := Unread();
      r := file.Read(k);
      assert k >= 0 ==> file.pos == readPos + k && r == unread[..k];
      if skip {
        remain := remain - |r|;
        assert k >= 0 ==> Unread() == unread[k..];
      } else {
        file.Seek(readPos);
      }
    }

    /** False stands for the ValueError. */
    method Skip(n: nat) returns (ok: bool)
      requires Valid()
      modifies this`remain, file`pos
      ensures Valid() && ok == (n <= |old(Unread())|)
      ensures Unread() == if ok then old(Unread())[n..] else old(Unread())
    {
      if remain < n {
        return false;
      }
      file.Seek(file.pos + n);
      remain := remain - n;
      ok := true;
    }

    method Close()
      modifies this`remain, file`closed
      ensures file.closed && remain == 0
    {
      file.Close();
      remain := 0;
    }
  }
}
