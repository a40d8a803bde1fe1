/** The input and output buffer of a connection: a vector with a read and a write index. */
module Buffers {

  newtype Byte = x: int | 0 <= x < 256

  const CHEAP_PREPEND := 8
  const INITIAL_SIZE := 1024

  /** The overflow area that readFd keeps on the stack. */
  const EXTRA_SIZE := 65536

  datatype ReadResult = Failed | Got(bytes: seq<Byte>)

  class Buffer {
    var data: array<Byte>
    var readerIndex: nat
    var writerIndex: nat

    ghost predicate Valid()
      reads this
    {
      readerIndex <= writerIndex <= data.Length && CHEAP_PREPEND <= data.Length
    }

    /** The readable bytes: what a buffer is, seen from outside. */
    ghost function Contents(): seq<Byte>
      requires Valid()
      reads this, data
    {
      data[readerIndex..writerIndex]
    }

    constructor ()
      ensures Valid() && fresh(data) && Contents() == []
      ensures WritableBytes() == 1024 && PrependableBytes() == 8
    {
      data := new Byte[CHEAP_PREPEND + INITIAL_SIZE](_ => 0);
      readerIndex, writerIndex := CHEAP_PREPEND, CHEAP_PREPEND;
    }

    function ReadableBytes(): (n: nat)
      requires Valid()
      reads this, data
      ensures n == |Contents()|
    {
      writerIndex - readerIndex
    }

    function WritableBytes(): nat
      requires Valid()
      reads this
    {
      data.Length - writerIndex
    }

    function PrependableBytes(): nat
      reads this
    {
      readerIndex
    }

    method Retrieve(len: nat)
      requires Valid() && len <= ReadableBytes()
      modifies this
      ensures Valid() && data == old(data) && Contents() == old(Contents())[len..]
      ensures readerIndex == old(readerIndex) + len
    {
      readerIndex := readerIndex + len;
    }

    method RetrieveAll()
      requires Valid()
      modifies this
      ensures Valid() && data == old(data) && Contents() == []
      ensures PrependableBytes() == CHEAP_PREPEND
    {
      readerIndex := CHEAP_PREPEND;
      writerIndex := CHEAP_PREPEND;
    }

    method RetrieveAsString() returns (str: seq<Byte>)
      requires Valid()
      modifies this
      ensures Valid() && data == old(data) && str == old(Contents()) && Contents() == []
    {
      str := data[readerIndex..writerIndex];
      RetrieveAll();
    }

    /** std::vector::resize to a greater size. */
    method Resize(size: nat)
      requires Valid() && size >= data.Length
      modifies this`data
      ensures Valid() && fresh(data) && data.Length == size && Contents() == old(Contents())
    {
      var oldData := data;
      var newData := new Byte[size](_ => 0);
      forall i | 0 <= i < oldData.Length {
        newData[i] := oldData[i];
      }
      data := newData;
      assert data[..oldData.Length] == oldData[..];
    }

    /** Grows the vector, or moves the readable bytes to the front when that makes room. */
    method MakeSpace(len: nat)
      requires Valid() && WritableBytes() < len
      modifies this, data
      ensures Valid() && (data == old(data) || fresh(data)) && data.Length >= old(data.Length)
      ensures Contents() == old(Contents()) && WritableBytes() >= len
      ensures data == old(data) <==> old(WritableBytes() + PrependableBytes()) >= len + 8
      ensures data == old(data) ==> readerIndex == 8
      ensures data != old(data) ==> readerIndex == old(readerIndex) && WritableBytes() == len
    {
      if WritableBytes() + PrependableBytes() < len + CHEAP_PREPEND {
        Resize(writerIndex + len);
      } else {
        assert CHEAP_PREPEND < readerIndex;
        var readable := ReadableBytes();
        MoveFront(readable);
        readerIndex := CHEAP_PREPEND;
        writerIndex := readerIndex + readable;
        assert readable == ReadableBytes();
      }
    }

    /** std::copy to an overlapping range further to the front. */
    method MoveFront(readable: nat)
      requires Valid() && readable == ReadableBytes() && CHEAP_PREPEND < readerIndex
      modifies data
      ensures data[CHEAP_PREPEND..CHEAP_PREPEND + readable] == old(Contents())
    {
      ghost var was := Contents();
      var i := 0;
      while i < readable
        invariant i <= readable
        invariant data[CHEAP_PREPEND..CHEAP_PREPEND + i] == was[..i]
        invariant data[readerIndex + i..writerIndex] == was[i..]
      {
        assert data[readerIndex + i] == data[readerIndex + i..writerIndex][0] == was[i];
        assert data[readerIndex + i + 1..writerIndex] == was[i + 1..];
        data[CHEAP_PREPEND + i] := data[readerIndex + i];
        assert data[CHEAP_PREPEND..CHEAP_PREPEND + i + 1] == was[..i] + [was[i]];
        i := i + 1;
      }
    }

    method EnsureWritableBytes(len: nat)
      requires Valid()
      modifies this, data
      ensures Valid() && (data == old(data) || fresh(data)) && data.Length >= old(data.Length)
      ensures Contents() == old(Contents()) && WritableBytes() >= len
      ensures old(WritableBytes()) >= len ==> data == old(data) && readerIndex == old(readerIndex)
    {
      if WritableBytes() < len {
        MakeSpace(len);
      }
    }

    method Append(bytes: seq<Byte>)
      requires Valid()
      modifies this, data
      ensures Valid() && (data == old(data) || fresh(data)) && data.Length >= old(data.Length)
      ensures Contents() == old(Contents()) + bytes
    {
      EnsureWritableBytes(|bytes|);
      CopyIn(bytes);
    }

    /** std::copy to beginWrite(), then hasWritten. */
    method CopyIn(bytes: seq<Byte>)
      requires Valid() && |bytes| <= WritableBytes()
      modifies this`writerIndex, data
      ensures Valid() && Contents() == old(Contents()) + bytes
      ensures writerIndex == old(writerIndex) + |bytes|
    {
      forall i | 0 <= i < |bytes| {
        data[writerIndex + i] := bytes[i];
      }
      assert data[readerIndex..writerIndex] == old(Contents());
      assert data[writerIndex..writerIndex + |bytes|] == bytes;
      writerIndex := writerIndex + |bytes|;
    }

    /** Undone by retrieving as many bytes. */
    method Prepend(bytes: seq<Byte>)
      requires Valid() && |bytes| <= PrependableBytes()
      modifies this, data
      ensures Valid() && data == old(data) && Contents() == bytes + old(Contents())
      ensures readerIndex == old(readerIndex) - |bytes|
    {
      readerIndex := readerIndex - |bytes|;
      forall i | 0 <= i < |bytes| {
        data[readerIndex + i] := bytes[i];
      }
      assert data[readerIndex..readerIndex + |bytes|] == bytes;
      assert data[readerIndex + |bytes|..writerIndex] == old(Contents());
    }

    /** A scatter read: the vector's free space first, then the overflow area.  What readv
        delivers is at most both together. */
    method ReadFd(read: ReadResult) returns (n: int)
      requires Valid() && (read.Got? ==> |read.bytes| <= WritableBytes() + EXTRA_SIZE)
      modifies this, data
      ensures Valid() && (data == old(data) || fresh(data)) && data.Length >= old(data.Length)
      ensures n == if read.Got? then |read.bytes| else -1
      ensures Contents() == old(Contents()) + (if read.Got? then read.bytes else [])
    {
      var writable := WritableBytes();
      if read.Failed? {
        n := -1;
      } else if |read.bytes| <= writable {
        CopyIn(read.bytes);
        n := |read.bytes|;
      } else {
        CopyIn(read.bytes[..writable]);
        assert writerIndex == data.Length;
        Append(read.bytes[writable..]);
        assert read.bytes == read.bytes[..writable] + read.bytes[writable..];
        n := |read.bytes|;
      }
    }

    method Swap(rhs: Buffer)
      requires Valid() && rhs.Valid() && rhs != this
      modifies this, rhs
      ensures Valid() && rhs.Valid() && data == old(rhs.data) && rhs.data == old(data)
      ensures Contents() == old(rhs.Contents()) && rhs.Contents() == old(Contents())
    {
      data, rhs.data := rhs.data, data;
      readerIndex, rhs.readerIndex := rhs.readerIndex, readerIndex;
      writerIndex, rhs.writerIndex := rhs.writerIndex, writerIndex;
    }
  }
}
