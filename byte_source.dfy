/** The buffered file reader the decoder pulls its bytes from, `read_fully`, and
    `read_uint` performed on the reader. */
module ByteSource {
  import opened Bytes
  import opened Errors
  import opened VarUint

  function Min(a: nat, b: nat): nat {
    if a <= b then a else b
  }

  /** A sequential reader over the bytes of the file. One `Read` delivers at most
      `chunk` bytes, so short reads happen as they do with a real reader; the
      position may be moved past the end by `SeekRelative`, after which reads
      deliver nothing. */
  class Reader {
    const data: seq<Byte>
    const chunk: nat
    var pos: nat

    constructor (data: seq<Byte>, chunk: nat)
      requires chunk > 0
      ensures this.data == data && this.chunk == chunk && pos == 0
    {
      this.data := data;
      this.chunk := chunk;
      pos := 0;
    }

    /** The number of bytes left before the end of the file. */
    function Available(): nat
      reads this
    {
      if pos < |data| then |data| - pos else 0
    }

    /** One `read` call into `buf[off..]`: copies some of the bytes that fit,
        remain and one call allows, and returns how many. It returns 0 only at
        the end of the file or for an empty destination; otherwise how many is
        the reader's choice. */
    method Read(buf: array<Byte>, off: nat) returns (n: nat)
      requires off <= buf.Length
      modifies this, buf
      ensures n <= Min(Min(chunk, buf.Length - off), old(Available()))
      ensures n == 0 <==> Min(Min(chunk, buf.Length - off), old(Available())) == 0
      ensures pos == old(pos) + n
      ensures buf[..off] == old(buf[..off]) && buf[off + n..] == old(buf[off + n..])
      ensures n > 0 ==> buf[off..off + n] == data[old(pos)..old(pos) + n]
    {
      var most := Min(Min(chunk, buf.Length - off), Available());
      n :| n <= most && (n == 0 <==> most == 0);
      var p := pos;
      for i := 0 to n
        invariant pos == p
        invariant buf[..off] == old(buf[..off]) && buf[off + n..] == old(buf[off + n..])
        invariant i > 0 ==> buf[off..off + i] == data[p..p + i]
      {
        buf[off + i] := data[p + i];
      }
      pos := p + n;
    }

    /** `seek_relative` forward: it does not look at the end of the file. */
    method SeekRelative(n: nat)
      modifies this
      ensures pos == old(pos) + n
    {
      pos := pos + n;
    }
  }

  /** `read_fully`: fills `buf` completely, repeating reads, or fails with an
      unexpected end of file when the file ends first. */
  method ReadFully(r: Reader, buf: array<Byte>) returns (ok: bool)
    requires r.chunk > 0
    modifies r, buf
    ensures ok <==> buf.Length <= old(r.Available())
    ensures ok ==> r.pos == old(r.pos) + buf.Length
    ensures ok && buf.Length > 0 ==> buf[..] == r.data[old(r.pos)..r.pos]
    ensures !ok ==> r.Available() == 0
  {
    var bytesRead := 0;
    while bytesRead < buf.Length
      invariant bytesRead <= buf.Length
      invariant r.pos == old(r.pos) + bytesRead
      invariant bytesRead <= old(r.Available())
      invariant bytesRead > 0 ==> buf[..bytesRead] == r.data[old(r.pos)..r.pos]
    {
      ghost var done, at := buf[..bytesRead], r.pos;
      var n := r.Read(buf, bytesRead);
      if n == 0 {
        return false;
      }
      assert buf[..bytesRead] == done;
      assert buf[..bytesRead + n] == done + r.data[at..r.pos];
      assert bytesRead > 0 ==> r.data[old(r.pos)..r.pos] == r.data[old(r.pos)..at] + r.data[at..r.pos];
      bytesRead := bytesRead + n;
    }
    return true;
  }

  /** `read_uint` on the reader: reads the prefix byte and the bytes it announces,
      and agrees with `ReadUint` on the reader's bytes. */
  method ReadUintFrom(r: Reader) returns (res: Result<Uint>)
    requires r.chunk > 0
    modifies r
    ensures res == ReadUint(r.data, old(r.pos))
    ensures res.Ok? ==> r.pos == old(r.pos) + res.value.consumed
  {
    var s, start := r.data, r.pos;
    var len := new Byte[1];
    var ok := ReadFully(r, len);
    if !ok {
      return Fail(Truncated);
    }
    var p := len[0];
    assert p == s[start];
    var width := Width(p);
    if width > 1 {
      var rest := new Byte[width - 1];
      ok := ReadFully(r, rest);
      if !ok {
        return Fail(Truncated);
      }
      BigEndianSame(rest[..], 0, s, start + 1, width - 1);
      return Ok(Uint(BigEndian(rest[..], 0, width - 1), width));
    }
    if Unsupported(p) {
      return Fail(UnsupportedUint(p));
    }
    return Ok(Uint(p as nat, 1));
  }
}
