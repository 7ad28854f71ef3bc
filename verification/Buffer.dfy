/** The network byte buffer (src/network/buffer.h): one array, a read index and a write
    index. It behaves as a plain byte queue that can also be extended at the front. */
module Buffer {
  import opened Common

  const CHEAP_PREPEND: nat := 8
  const EXTRA: nat := 65536

  /** What one `readv` returned. */
  datatype ReadResult = Got(data: Bytes) | Eof | Failed

  lemma TwoParts(before: seq<Byte>, data: seq<Byte>, k: nat)
    requires k <= |data|
    ensures before + data[..k] + data[k..] == before + data
  { }

  lemma InFront(b: seq<Byte>, start: nat, middle: nat, end: nat)
    requires start <= middle <= end <= |b|
    ensures b[start..end] == b[start..middle] + b[middle..][..end - middle]
  { }

  lemma SameBytes(a: seq<Byte>, i: nat, b: seq<Byte>, j: nat, n: nat)
    requires i + n <= |a| && j + n <= |b| && forall k | i <= k < i + n :: a[k] == b[k - i + j]
    ensures a[i..i + n] == b[j..j + n]
  {
    var x, y := a[i..i + n], b[j..j + n];
    forall k | 0 <= k < n ensures x[k] == y[k] { assert x[k] == a[i + k] && y[k] == b[j + k]; }
  }

  lemma FirstBytes(b: seq<Byte>, start: nat, k: nat, end: nat)
    requires start + k <= end <= |b|
    ensures b[start..start + k] == b[start..end][..k]
  { }

  lemma Behind(b: seq<Byte>, middle: nat, end: nat)
    requires middle <= end <= |b|
    ensures b[middle..][..end - middle] == b[middle..end]
  { }

  class Buffer {
    var buf: array<Byte>
    var read: nat
    var write: nat

    ghost predicate Valid()
      reads this
    {
      read <= write <= buf.Length && buf.Length >= CHEAP_PREPEND
    }

    /** The readable bytes. */
    ghost function Contents(): Bytes
      reads this, buf
      requires Valid()
    {
      buf[read..write]
    }

    constructor (initialSize: nat)
      ensures Valid() && fresh(buf) && Contents() == []
      ensures read == CHEAP_PREPEND && buf.Length == CHEAP_PREPEND + initialSize
    {
      buf := new Byte[CHEAP_PREPEND + initialSize](_ => 0);
      read, write := CHEAP_PREPEND, CHEAP_PREPEND;
    }

    function Readable(): (n: nat)
      reads this, buf
      requires Valid()
      ensures n == |Contents()|
    {
      write - read
    }

    function Writable(): nat
      reads this
      requires Valid()
    {
      buf.Length - write
    }

    function Prependable(): nat
      reads this
    {
      read
    }

    method Swap(other: Buffer)
      requires Valid() && other.Valid() && other != this
      modifies this, other
      ensures Valid() && other.Valid() && buf == old(other.buf) && other.buf == old(buf)
      ensures Contents() == old(other.Contents()) && other.Contents() == old(Contents())
    {
      buf, other.buf := other.buf, buf;
      read, other.read := other.read, read;
      write, other.write := other.write, write;
    }

    // ---- reading ----

    /** Drops `n` bytes, or all when there are fewer. */
    method Retrieve(n: nat)
      requires Valid()
      modifies this
      ensures Valid() && (buf == old(buf) || fresh(buf))
      ensures Contents() == if n <= |old(Contents())| then old(Contents())[n..] else []
    {
      if n <= Readable() {
        read := read + n;
      } else {
        RetrieveAll();
      }
      ShrinkIfNeeded();
    }

    method RetrieveAll()
      requires Valid()
      modifies this
      ensures Valid() && buf == old(buf) && Contents() == [] && read == CHEAP_PREPEND
    {
      read := CHEAP_PREPEND;
      write := CHEAP_PREPEND;
    }

    method RetrieveAsString(n: nat) returns (s: Bytes)
      requires Valid() && n <= |Contents()|
      modifies this
      ensures Valid() && (buf == old(buf) || fresh(buf))
      ensures s == old(Contents())[..n] && Contents() == old(Contents())[n..]
    {
      s := buf[read..read + n];
      Retrieve(n);
    }

    // ---- writing ----

    method EnsureWritable(len: nat)
      requires Valid()
      modifies this, buf
      ensures Valid() && (buf == old(buf) || fresh(buf))
      ensures Writable() >= len && Contents() == old(Contents())
    {
      if Writable() < len {
        MakeSpace(len);
      }
    }

    method Append(data: Bytes)
      requires Valid()
      modifies this, buf
      ensures Valid() && (buf == old(buf) || fresh(buf))
      ensures Contents() == old(Contents()) + data
    {
      EnsureWritable(|data|);
      CopyIn(data, write);
      HasWritten(|data|);
    }

    method AppendBuffer(other: Buffer)
      requires Valid() && other.Valid() && other != this && other.buf != buf
      modifies this, buf
      ensures Valid() && (buf == old(buf) || fresh(buf))
      ensures Contents() == old(Contents()) + other.Contents() && other.Contents() == old(other.Contents())
    {
      Append(other.buf[other.read..other.write]);
    }

    /** Stores `data` at index `at`, past or before the readable bytes. */
    method CopyIn(data: Bytes, at: nat)
      requires Valid() && at + |data| <= buf.Length
      modifies buf
      ensures buf[at..at + |data|] == data
      ensures buf[..at] == old(buf[..at]) && buf[at + |data|..] == old(buf[at + |data|..])
    {
      for i := 0 to |data|
        invariant buf[at..at + i] == data[..i]
        invariant buf[..at] == old(buf[..at]) && buf[at + i..] == old(buf[at + i..])
      {
        buf[at + i] := data[i];
      }
    }

    /** Makes the next `len` bytes after the write index readable. */
    method HasWritten(len: nat)
      requires Valid() && len <= Writable()
      modifies this`write
      ensures Valid() && Contents() == old(Contents()) + buf[old(write)..old(write) + len]
    {
      write := write + len;
    }

    /** Takes back the last `len` readable bytes. */
    method Unwrite(len: nat)
      requires Valid() && len <= |Contents()|
      modifies this`write
      ensures Valid() && Contents() == old(Contents())[..|old(Contents())| - len]
    {
      write := write - len;
    }

    method Prepend(data: Bytes)
      requires Valid() && |data| <= Prependable()
      modifies this`read, buf
      ensures Valid() && Contents() == data + old(Contents())
      ensures read == old(read) - |data|
    {
      read := read - |data|;
      CopyIn(data, read);
      InFront(buf[..], read, read + |data|, write);
      Behind(old(buf[..]), read + |data|, write);
    }

    /** `readv` into the free space and a 64 KiB spill area; the spill is appended. */
    method ReadFromFd(result: ReadResult) returns (n: int)
      requires Valid()
      requires result.Got? ==> 0 < |result.data| <= Writable() + if Writable() < EXTRA then EXTRA else 0
      modifies this, buf
      ensures Valid() && (buf == old(buf) || fresh(buf))
      ensures n == match result case Got(data) => |data| case Eof => 0 case Failed => -1
      ensures Contents() == old(Contents()) + if result.Got? then result.data else []
    {
      if result.Failed? {
        return -1;
      }
      if result.Eof? {
        return 0;
      }
      Receive(result.data);
      n := |result.data|;
    }

    /** What `readv` does with the bytes it got: first the free space, then the spill area. */
    method Receive(data: Bytes)
      requires Valid()
      modifies this, buf
      ensures Valid() && (buf == old(buf) || fresh(buf))
      ensures Contents() == old(Contents()) + data
    {
      var writable := Writable();
      if |data| <= writable {
        CopyIn(data, write);
        HasWritten(|data|);
      } else {
        CopyIn(data[..writable], write);
        HasWritten(writable);
        assert Contents() == old(Contents()) + data[..writable];
        Append(data[writable..]);
        TwoParts(old(Contents()), data, writable);
      }
    }

    // ---- space ----

    /** Moves the readable bytes left, to just after the reserved prefix. Source and
        target overlap; copying upwards is safe because the target lies lower. */
    method MoveLeft()
      requires Valid() && read > CHEAP_PREPEND
      modifies this, buf
      ensures Valid() && buf == old(buf) && read == CHEAP_PREPEND && Contents() == old(Contents())
    {
      var readable := write - read;
      ghost var before := buf[..];
      for i := 0 to readable
        invariant Valid() && buf == old(buf) && read == old(read) && write == old(write)
        invariant buf[CHEAP_PREPEND..CHEAP_PREPEND + i] == before[read..read + i]
        invariant forall j | read + i <= j < write :: buf[j] == before[j]
      {
        buf[CHEAP_PREPEND + i] := buf[read + i];
      }
      read := CHEAP_PREPEND;
      write := read + readable;
    }

    method MakeSpace(len: nat)
      requires Valid() && Writable() < len
      modifies this, buf
      ensures Valid() && (buf == old(buf) || fresh(buf))
      ensures Writable() >= len && Contents() == old(Contents())
    {
      if Writable() + Prependable() < len + CHEAP_PREPEND {
        var kept := buf[..];
        var bigger := new Byte[write + len](i requires 0 <= i => if i < |kept| then kept[i] else 0);
        SameBytes(bigger[..], read, kept, read, write - read);
        buf := bigger;
      } else {
        MoveLeft();
      }
    }

    method Shrink()
      requires Valid()
      modifies this
      ensures Valid() && fresh(buf) && Contents() == old(Contents())
      ensures read == CHEAP_PREPEND && buf.Length == CHEAP_PREPEND + |Contents()|
    {
      var readable := write - read;
      var kept := buf[read..write];
      var smaller := new Byte[CHEAP_PREPEND + readable](
        i requires 0 <= i => if 0 <= i - CHEAP_PREPEND < |kept| then kept[i - CHEAP_PREPEND] else 0);
      SameBytes(smaller[..], CHEAP_PREPEND, kept, 0, readable);
      buf := smaller;
      read, write := CHEAP_PREPEND, CHEAP_PREPEND + readable;
    }

    /** Compacts when the read index is past the middle and little is left. */
    method ShrinkIfNeeded()
      requires Valid()
      modifies this
      ensures Valid() && (buf == old(buf) || fresh(buf)) && Contents() == old(Contents())
    {
      if read > buf.Length / 2 && Readable() < buf.Length / 4 {
        Shrink();
      }
    }
  }
}
