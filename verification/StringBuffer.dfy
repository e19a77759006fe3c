/**
 StringBuffer: a growable byte buffer with a read and a write index, as an object over an
 array.  `std::vector<char>` shows up as the array: the vector's size and capacity are both its
 length, which resize keeps equal as long as clear is not called.
 */
module StringBuffers {
  import opened Common

  function Pow2(k: nat): (r: nat)
    ensures r > 0
  {
    if k == 0 then 1 else 2 * Pow2(k - 1)
  }

  predicate IsCRLF(s: seq<byte>, i: nat) {
    i + 1 < |s| && s[i] == 13 && s[i + 1] == 10
  }

  /** The position of the first CRLF, if there is one. */
  function FirstCRLF(s: seq<byte>, from: nat): (r: Option<nat>)
    requires from <= |s|
    decreases |s| - from
  {
    if from == |s| then None else if IsCRLF(s, from) then Some(from) else FirstCRLF(s, from + 1)
  }

  lemma {:induction false} FirstCRLFIs(s: seq<byte>, from: nat)
    requires from <= |s|
    ensures match FirstCRLF(s, from)
            case Some(i) => from <= i && IsCRLF(s, i) && forall j :: from <= j < i ==> !IsCRLF(s, j)
            case None => forall j :: from <= j ==> !IsCRLF(s, j)
    decreases |s| - from
  {
    if from < |s| && !IsCRLF(s, from) { FirstCRLFIs(s, from + 1); }
  }

  /**
   The memory bound, after so many growths that moved so many bytes in all, when at most `peak`
   bytes were ever readable.
   */
  predicate Bounded(capacity: nat, peak: nat, growths: nat, moved: nat) {
    if growths == 0 then capacity == moved == 0
    else capacity < 4 * peak && Pow2(growths) <= capacity && moved < capacity
  }

  /** writeBuffer's size for resizeBuffer, when `size` bytes fit nowhere. */
  function Grown(capacity: nat, write: nat, size: nat): nat
    requires write <= capacity < write + size
  {
    (capacity + size - (capacity - write)) * 2
  }

  /** A growth more than doubles the capacity and keeps the bound, once the new bytes are counted. */
  lemma GrowthBounded(capacity: nat, read: nat, write: nat, size: nat, peak: nat, growths: nat, moved: nat)
    requires read <= write <= capacity && capacity - write + read < size
    requires Bounded(capacity, peak, growths, moved)
    ensures Grown(capacity, write, size) > 2 * capacity && Grown(capacity, write, size) >= write + size
    ensures Bounded(Grown(capacity, write, size), Max(peak, write - read + size), growths + 1, moved + capacity)
  {
    assert Pow2(growths + 1) == 2 * Pow2(growths);
  }

  /** So the number of growths is logarithmic in the largest readable length. */
  lemma GrowthsAreFew(capacity: nat, peak: nat, growths: nat, moved: nat)
    requires Bounded(capacity, peak, growths, moved) && growths >= 1
    ensures Pow2(growths - 1) < 2 * peak && moved < 4 * peak
  {
    assert Pow2(growths) == 2 * Pow2(growths - 1);
  }

  function Max(a: nat, b: nat): nat {
    if a < b then b else a
  }

  lemma Cut<T>(s: seq<T>, n: nat)
    requires n <= |s|
    ensures s[..n] + s[n..] == s
  {
  }

  lemma Shift<T>(a: seq<T>, b: seq<T>, n: nat)
    requires n <= |b|
    ensures (a + b[..n]) + b[n..] == a + b
  {
    Cut(b, n);
    assert (a + b[..n]) + b[n..] == a + (b[..n] + b[n..]);
  }

  lemma SliceOfPrefix<T>(s: seq<T>, n: nat, i: nat, j: nat)
    requires i <= j <= n <= |s|
    ensures s[..n][i..j] == s[i..j]
  {
    assert forall k :: 0 <= k < j - i ==> s[..n][i..j][k] == s[i + k] == s[i..j][k];
  }

  lemma CutEnd<T>(a: seq<T>, b: seq<T>, n: nat)
    requires n <= |b|
    ensures (a + b)[..|a + b| - n] == a + b[..|b| - n]
  {
  }

  class StringBuffer {
    var readIndex: nat
    var writeIndex: nat
    var buffer: array<byte>

    /** Everything written and not unwritten, and everything consumed. */
    ghost var written: seq<byte>
    ghost var consumed: seq<byte>
    /** The largest readable length so far, the growths, and the bytes they moved. */
    ghost var peak: nat
    ghost var growths: nat
    ghost var moved: nat

    ghost predicate Indexed()
      reads this
    {
      readIndex <= writeIndex <= buffer.Length
    }

    /** The bytes a reader can still get, oldest first. */
    ghost function Contents(): seq<byte>
      reads this, buffer
      requires Indexed()
    {
      buffer[readIndex..writeIndex]
    }

    /** First in, first out, within the memory bound. */
    ghost predicate Valid()
      reads this, buffer
    {
      && Indexed()
      && consumed + Contents() == written
      && |Contents()| <= peak
      && Bounded(buffer.Length, peak, growths, moved)
    }

    constructor ()
      ensures Valid() && fresh(buffer) && Contents() == written == consumed == []
      ensures growths == moved == peak == 0
    {
      readIndex, writeIndex := 0, 0;
      buffer := new byte[0];
      written, consumed := [], [];
      peak, growths, moved := 0, 0, 0;
    }

    function GetReadableBytes(): nat
      reads this
      requires Indexed()
    {
      writeIndex - readIndex
    }

    function GetBackwardWritableBytes(): nat
      reads this
      requires Indexed()
    {
      buffer.Length - writeIndex
    }

    function GetForwardWritableBytes(): nat
      reads this
    {
      readIndex
    }

    /** The copy inside adjustBuffer, byte by byte upwards: source and target may overlap. */
    method CopyDown(n: nat)
      requires Indexed() && n == writeIndex - readIndex
      modifies buffer
      ensures buffer[..n] == old(buffer[readIndex..writeIndex])
    {
      for i := 0 to n
        invariant buffer[..i] == old(buffer[readIndex..readIndex + i])
        invariant buffer[i..] == old(buffer[i..])
      {
        assert buffer[readIndex + i] == buffer[i..][readIndex] == old(buffer[readIndex + i]);
        buffer[i] := buffer[readIndex + i];
      }
    }

    /** Move the contents to the front. */
    method AdjustBuffer()
      requires Indexed()
      modifies this`readIndex, this`writeIndex, buffer
      ensures Indexed() && Contents() == old(Contents()) && readIndex == 0
    {
      var len := GetReadableBytes();
      CopyDown(len);
      readIndex := 0;
      writeIndex := len;
    }

    /** A larger array with the same bytes in front. */
    method ResizeBuffer(size: nat)
      requires Indexed() && size >= buffer.Length
      modifies this`buffer
      ensures fresh(buffer) && buffer.Length == size && buffer[..old(buffer.Length)] == old(buffer[..])
    {
      var n := buffer.Length;
      var larger := new byte[size];
      for i := 0 to n
        invariant buffer == old(buffer) && larger[..i] == buffer[..i]
      {
        larger[i] := buffer[i];
      }
      buffer := larger;
    }

    /** The copy of the new bytes to the end of the contents. */
    method CopyToEnd(data: seq<byte>)
      requires Indexed() && writeIndex + |data| <= buffer.Length
      modifies buffer
      ensures buffer[readIndex..writeIndex + |data|] == old(Contents()) + data
    {
      for i := 0 to |data|
        invariant buffer[readIndex..writeIndex + i] == old(Contents()) + data[..i]
      {
        buffer[writeIndex + i] := data[i];
        assert data[..i + 1] == data[..i] + [data[i]];
      }
    }

    /** The new bytes behind the contents, where there is room for them. */
    method Append(data: seq<byte>)
      requires Indexed() && writeIndex + |data| <= buffer.Length
      modifies this`writeIndex, buffer
      ensures Indexed() && Contents() == old(Contents()) + data
    {
      CopyToEnd(data);
      writeIndex := writeIndex + |data|;
    }

    /** writeBuffer's choice: room behind the contents, or compaction, or growth. */
    method MakeRoom(size: nat)
      requires Valid()
      modifies this`readIndex, this`writeIndex, this`buffer, this`moved, this`growths, buffer
      ensures buffer == old(buffer) || fresh(buffer)
      ensures Indexed() && writeIndex + size <= buffer.Length && Contents() == old(Contents())
      ensures Bounded(buffer.Length, Max(peak, |Contents()| + size), growths, moved)
    {
      if GetBackwardWritableBytes() >= size {
      } else if GetBackwardWritableBytes() + GetForwardWritableBytes() >= size {
        AdjustBuffer();
      } else {
        Grow(size);
      }
    }

    method Grow(size: nat)
      requires Valid() && buffer.Length - writeIndex + readIndex < size
      modifies this`buffer, this`moved, this`growths
      ensures fresh(buffer)
      ensures Indexed() && writeIndex + size <= buffer.Length && Contents() == old(Contents())
      ensures buffer.Length > 2 * old(buffer.Length)
      ensures Bounded(buffer.Length, Max(peak, |Contents()| + size), growths, moved)
    {
      GrowthBounded(buffer.Length, readIndex, writeIndex, size, peak, growths, moved);
      moved, growths := moved + buffer.Length, growths + 1;
      ghost var was := buffer[..];
      ResizeBuffer((buffer.Length + size - GetBackwardWritableBytes()) * 2);
      assert buffer[..|was|] == was;
      SliceOfPrefix(buffer[..], |was|, readIndex, writeIndex);
      assert Contents() == buffer[..][readIndex..writeIndex] && buffer[..][..|was|] == was;
    }

    method WriteBuffer(data: seq<byte>)
      requires Valid()
      modifies this, buffer
      ensures Valid() && (buffer == old(buffer) || fresh(buffer))
      ensures Contents() == old(Contents()) + data
      ensures written == old(written) + data && consumed == old(consumed)
      ensures peak == Max(old(peak), |Contents()|)
    {
      ghost var contents := Contents();
      MakeRoom(|data|);
      Append(data);
      Regroup(consumed, contents, data);
      written := written + data;
      peak := Max(peak, |Contents()|);
    }

    /** readBuffer into a string: up to `size` of the oldest bytes. */
    method ReadBuffer(size: nat) returns (data: seq<byte>)
      requires Valid()
      modifies this`readIndex, this`consumed
      ensures Valid()
      ensures data + Contents() == old(Contents()) && consumed == old(consumed) + data
      ensures |data| == if size < |old(Contents())| then size else |old(Contents())|
    {
      var n := GetReadableBytes();
      if size < n { n := size; }
      ghost var contents := Contents();
      data := buffer[readIndex..readIndex + n];
      assert data == contents[..n];
      Cut(contents, n);
      Shift(consumed, contents, n);
      consumed := consumed + data;
      readIndex := readIndex + n;
      assert Contents() == contents[n..];
    }

    /**
     readBuffer to an address: copies up to `size` bytes but consumes all there are, so bytes
     are lost exactly when fewer are asked for.
     */
    method ReadBufferTo(size: nat) returns (data: seq<byte>)
      requires Valid()
      modifies this`readIndex, this`consumed
      ensures Valid() && Contents() == [] && consumed == old(consumed) + old(Contents())
      ensures |data| == if size < |old(Contents())| then size else |old(Contents())|
      ensures data <= old(Contents())
      ensures data + Contents() == old(Contents()) <==> size >= |old(Contents())|
    {
      var n := GetReadableBytes();
      data := buffer[readIndex..readIndex + if size < n then size else n];
      assert Contents() == data + Contents()[|data|..];
      consumed := consumed + Contents();
      readIndex := readIndex + n;
    }

    /**
     retrieve: drop the n oldest bytes.  More than there are is only right when the contents
     end with the array: otherwise the read index passes the write index.
     */
    method Retrieve(n: nat)
      requires Valid()
      modifies this`readIndex, this`consumed
      ensures Valid() <==> n <= |old(Contents())| || writeIndex == buffer.Length
      ensures Valid() ==>
                var k := if n < |old(Contents())| then n else |old(Contents())|;
                Contents() == old(Contents())[k..] && consumed == old(consumed) + old(Contents())[..k]
    {
      ghost var contents := Contents();
      ghost var k := if n < |contents| then n else |contents|;
      Shift(consumed, contents, k);
      consumed := consumed + contents[..k];
      readIndex := readIndex + n;
      readIndex := if readIndex <= buffer.Length then readIndex else buffer.Length;
    }

    method RetrieveAsString(len: nat) returns (data: seq<byte>)
      requires Valid() && len <= |Contents()|
      modifies this`readIndex, this`consumed
      ensures Valid() && |data| == len
      ensures data + Contents() == old(Contents()) && consumed == old(consumed) + data
    {
      ghost var contents := Contents();
      data := buffer[readIndex..readIndex + len];
      assert data == contents[..len];
      Cut(contents, len);
      Retrieve(len);
    }

    /**
     unwrite: take back the newest bytes, if that many are still there.  A negative size,
     compared as an unsigned number, is too large.
     */
    method Unwrite(size: int)
      requires Valid()
      modifies this`writeIndex, this`written
      ensures Valid() && consumed == old(consumed)
      ensures var n := if 0 <= size <= |old(Contents())| then size else 0;
              && Contents() == old(Contents())[..|old(Contents())| - n]
              && written == old(written)[..|old(written)| - n]
    {
      if 0 <= size <= GetReadableBytes() {
        ghost var contents := Contents();
        CutEnd(consumed, contents, size);
        written := written[..|written| - size];
        writeIndex := writeIndex - size;
        assert Contents() == contents[..|contents| - size];
      } else {
        assert Contents()[..|Contents()| - 0] == Contents() && written[..|written| - 0] == written;
      }
    }

    /** std::search for the two bytes, from peek() to end(). */
    method FindCRLF() returns (crlf: Option<nat>)
      requires Valid()
      ensures crlf == FirstCRLF(Contents(), 0)
    {
      var i, n := 0, GetReadableBytes();
      while i < n
        invariant i <= n && FirstCRLF(Contents(), 0) == FirstCRLF(Contents(), i)
      {
        if i + 1 < n && buffer[readIndex + i] == 13 && buffer[readIndex + i + 1] == 10 {
          return Some(i);
        }
        i := i + 1;
      }
      crlf := None;
    }

    /** retrieveUntil a place within the contents, such as the one findCRLF gives. */
    method RetrieveUntil(position: nat)
      requires Valid() && position <= |Contents()|
      modifies this`readIndex, this`consumed
      ensures Valid()
      ensures Contents() == old(Contents())[position..] && consumed == old(consumed) + old(Contents())[..position]
    {
      Retrieve(position);
    }
  }
}
