/** `muduo::Buffer`: prependable, readable and writable bytes in one growing array. The
    readable region is the abstract value; `peak` is the largest readable length reached
    or asked room for, and bounds the storage. */
module Buffers {
  import opened Bytes
  import BigEndian

  const CHEAP_PREPEND: nat := 8
  const EXTRA_SIZE: nat := 65536

  /** What one `readv` call on the socket yields: an error number, or the bytes received. */
  datatype ReadResult = ReadFailed(errno: int) | ReadBytes(data: bytes)

  class Buffer {
    var store: array<byte>
    var reader: nat
    var writer: nat
    ghost var initial: nat
    ghost var peak: nat

    ghost predicate Indexed()
      reads this
    {
      reader <= writer <= store.Length && CHEAP_PREPEND <= store.Length && writer - reader <= peak
    }

    ghost predicate Valid()
      reads this
    {
      Indexed() && store.Length <= Max(CHEAP_PREPEND + initial, 2 * peak + 7)
    }

    function Readable(): (n: nat)
      requires Indexed()
      reads this
    {
      writer - reader
    }

    function Writable(): (n: nat)
      requires Indexed()
      reads this
    {
      store.Length - writer
    }

    /** The bytes from `peek()` to `beginWrite()`. */
    function Contents(): (s: bytes)
      requires Indexed()
      reads this, store
      ensures |s| == Readable()
    {
      store[reader..writer]
    }

    /** `kInitialSize` is the default. */
    constructor (initialSize: nat := 1024)
      ensures Valid() && fresh(store) && Contents() == []
      ensures initial == initialSize && peak == 0
      ensures Writable() == initialSize && reader == 8
    {
      store := new byte[CHEAP_PREPEND + initialSize](_ => '\0');
      reader, writer := CHEAP_PREPEND, CHEAP_PREPEND;
      initial, peak := initialSize, 0;
    }

    method FindCRLF() returns (r: Option<nat>)
      requires Valid()
      ensures r == Bytes.FindCRLF(Contents())
    {
      r := FindCRLFFrom(0);
    }

    /** The overload with a start position; positions are offsets from `peek()`. */
    method FindCRLFFrom(start: nat) returns (r: Option<nat>)
      requires Valid() && start <= Readable()
      ensures r == Bytes.FindCRLFFrom(Contents(), start)
    {
      var i := reader + start;
      while i + 1 < writer
        invariant reader + start <= i <= writer
        invariant Bytes.FindCRLFFrom(Contents(), start) == Bytes.FindCRLFFrom(Contents(), i - reader)
      {
        if store[i] == '\r' && store[i + 1] == '\n' {
          return Some(i - reader);
        }
        i := i + 1;
      }
      return None;
    }

    method FindEOL(start: nat := 0) returns (r: Option<nat>)
      requires Valid() && start <= Readable()
      ensures var i := FindFrom(Contents(), '\n', start); r == if i < Readable() then Some(i) else None
    {
      var i := reader + start;
      while i < writer && store[i] != '\n'
        invariant reader + start <= i <= writer
        invariant FindFrom(Contents(), '\n', start) == FindFrom(Contents(), '\n', i - reader)
      {
        i := i + 1;
      }
      r := if i < writer then Some(i - reader) else None;
    }

    method Retrieve(len: nat)
      requires Valid() && len <= Readable()
      modifies this`reader, this`writer
      ensures Valid()
      ensures Contents() == old(Contents())[len..]
      ensures reader == if len < old(Readable()) then old(reader) + len else CHEAP_PREPEND
    {
      if len < Readable() {
        reader := reader + len;
      } else {
        RetrieveAll();
      }
    }

    method RetrieveAll()
      requires Valid()
      modifies this`reader, this`writer
      ensures Valid() && Contents() == []
      ensures reader == CHEAP_PREPEND
    {
      reader, writer := CHEAP_PREPEND, CHEAP_PREPEND;
    }

    /** `retrieveUntil` with the end position as an offset from `peek()`. */
    method RetrieveUntil(end: nat)
      requires Valid() && end <= Readable()
      modifies this`reader, this`writer
      ensures Valid()
      ensures Contents() == old(Contents())[end..]
    {
      Retrieve(end);
    }

    method RetrieveAsString(len: nat) returns (result: bytes)
      requires Valid() && len <= Readable()
      modifies this`reader, this`writer
      ensures Valid()
      ensures result + Contents() == old(Contents()) && |result| == len
    {
      result := Contents()[..len];
      Retrieve(len);
    }

    method RetrieveAllAsString() returns (result: bytes)
      requires Valid()
      modifies this`reader, this`writer
      ensures Valid()
      ensures result == old(Contents()) && Contents() == []
    {
      result := RetrieveAsString(Readable());
    }

    /** The forward copy of the readable bytes to the prepend mark. Source and target
        overlap; copying upwards is right because the target starts lower. */
    method SlideDown()
      requires Indexed() && CHEAP_PREPEND < reader
      modifies store
      ensures store[CHEAP_PREPEND..CHEAP_PREPEND + Readable()] == old(Contents())
    {
      ghost var before := Contents();
      var readable := Readable();
      var i := 0;
      while i < readable
        modifies store
        invariant 0 <= i <= readable
        invariant forall k :: 0 <= k < i ==> store[CHEAP_PREPEND + k] == before[k]
        invariant forall k :: reader + i <= k < writer ==> store[k] == before[k - reader]
      {
        store[CHEAP_PREPEND + i] := store[reader + i];
        i := i + 1;
      }
    }

    /** `buffer_.resize(writer + len)` on a vector that is shorter. */
    method Grow(size: nat)
      requires Indexed() && store.Length <= size
      modifies this`store
      ensures fresh(store) && store.Length == size
      ensures Indexed() && Contents() == old(Contents())
    {
      var grown := new byte[size](_ => '\0');
      forall i | 0 <= i < store.Length {
        grown[i] := store[i];
      }
      store := grown;
    }

    /** Grows the array, or slides the readable bytes down to the prepend mark. The assertion
        of the source before the slide follows from the two tests that lead to it. */
    method MakeSpace(len: nat)
      requires Valid() && Writable() < len && Readable() + len <= peak
      modifies this`store, this`reader, this`writer, store
      ensures Valid() && Writable() >= len
      ensures Contents() == old(Contents())
      ensures if old(Writable() + reader) < len + CHEAP_PREPEND then fresh(store) && reader == old(reader)
              else store == old(store) && reader == CHEAP_PREPEND
    {
      if Writable() + reader < len + CHEAP_PREPEND {
        Grow(writer + len);
      } else {
        assert CHEAP_PREPEND < reader;
        var readable := Readable();
        SlideDown();
        reader := CHEAP_PREPEND;
        writer := reader + readable;
        assert readable == Readable();
      }
    }

    method EnsureWritableBytes(len: nat)
      requires Valid()
      modifies this`store, this`reader, this`writer, this`peak, store
      ensures Valid() && Writable() >= len
      ensures Contents() == old(Contents())
      ensures store == old(store) || fresh(store)
      ensures reader == old(reader) || reader == CHEAP_PREPEND
      ensures peak == Max(old(peak), old(Readable()) + len)
    {
      peak := Max(peak, Readable() + len);
      if Writable() < len {
        MakeSpace(len);
      }
    }

    /** The bytes already placed after `beginWrite()` become readable. */
    method HasWritten(len: nat)
      requires Valid() && len <= Writable()
      modifies this`writer, this`peak
      ensures Valid()
      ensures Contents() == old(Contents() + store[writer..writer + len])
      ensures peak == Max(old(peak), Readable())
    {
      peak := Max(peak, Readable() + len);
      writer := writer + len;
    }

    method Unwrite(len: nat)
      requires Valid() && len <= Readable()
      modifies this`writer
      ensures Valid()
      ensures Contents() == old(Contents())[..old(Readable()) - len]
    {
      ghost var before := Contents();
      writer := writer - len;
      assert forall k :: 0 <= k < Readable() ==> Contents()[k] == before[k];
    }

    /** Copies `data` to `beginWrite()`; the readable bytes are as before. */
    method CopyToEnd(data: bytes)
      requires Indexed() && |data| <= Writable()
      modifies store
      ensures Contents() == old(Contents())
      ensures store[writer..writer + |data|] == data
    {
      ghost var before := Contents();
      var i := 0;
      while i < |data|
        modifies store
        invariant 0 <= i <= |data|
        invariant store[writer..writer + i] == data[..i]
        invariant Contents() == before
      {
        store[writer + i] := data[i];
        i := i + 1;
      }
    }

    method Append(data: bytes)
      requires Valid()
      modifies this`store, this`reader, this`writer, this`peak, store
      ensures Valid()
      ensures Contents() == old(Contents()) + data
      ensures store == old(store) || fresh(store)
      ensures reader == old(reader) || reader == CHEAP_PREPEND
      ensures peak == Max(old(peak), Readable())
    {
      EnsureWritableBytes(|data|);
      CopyToEnd(data);
      HasWritten(|data|);
    }

    /** The `StringPiece` overload: the piece carries its length as a 32-bit `int`. */
    method AppendPiece(str: bytes)
      requires Valid() && PieceLengthValid(|str|)
      modifies this`store, this`reader, this`writer, this`peak, store
      ensures Valid()
      ensures Contents() == old(Contents()) + Piece(str)
      ensures store == old(store) || fresh(store)
      ensures reader == old(reader) || reader == CHEAP_PREPEND
      ensures peak == Max(old(peak), Readable())
    {
      Append(Piece(str));
    }

    method Prepend(data: bytes)
      requires Valid() && |data| <= reader
      modifies this`reader, this`peak, store
      ensures Valid()
      ensures Contents() == data + old(Contents())
      ensures reader == old(reader) - |data| && peak == Max(old(peak), Readable())
    {
      peak := Max(peak, Readable() + |data|);
      reader := reader - |data|;
      CopyToFront(data);
      assert Contents() == store[reader..reader + |data|] + store[reader + |data|..writer];
    }

    /** Copies `data` to `peek()`; the readable bytes behind it are as before. */
    method CopyToFront(data: bytes)
      requires Indexed() && |data| <= Readable()
      modifies store
      ensures store[reader..reader + |data|] == data
      ensures store[reader + |data|..writer] == old(store[reader + |data|..writer])
    {
      ghost var behind := store[reader + |data|..writer];
      var i := 0;
      while i < |data|
        modifies store
        invariant 0 <= i <= |data|
        invariant store[reader..reader + i] == data[..i]
        invariant store[reader + |data|..writer] == behind
      {
        store[reader + i] := data[i];
        i := i + 1;
      }
    }

    /** `appendInt8` to `appendInt64`, by width. */
    method AppendInt(width: nat, x: int)
      requires Valid() && BigEndian.IntWidth(width) && BigEndian.InRange(width, x)
      modifies this`store, this`reader, this`writer, this`peak, store
      ensures Valid()
      ensures Contents() == old(Contents()) + BigEndian.Encode(width, x)
      ensures store == old(store) || fresh(store)
      ensures reader == old(reader) || reader == CHEAP_PREPEND
      ensures peak == Max(old(peak), Readable())
    {
      Append(BigEndian.Encode(width, x));
    }

    /** `peekInt8` to `peekInt64`, by width. */
    method PeekInt(width: nat) returns (x: int)
      requires Valid() && BigEndian.IntWidth(width) && width <= Readable()
      ensures BigEndian.InRange(width, x)
      ensures BigEndian.Encode(width, x) == Contents()[..width]
    {
      x := BigEndian.Decode(Contents()[..width]);
      BigEndian.RoundTripBytes(Contents()[..width]);
    }

    /** `readInt8` to `readInt64`: the inverse of `AppendInt` on the front of the buffer. */
    method ReadInt(width: nat) returns (x: int)
      requires Valid() && BigEndian.IntWidth(width) && width <= Readable()
      modifies this`reader, this`writer
      ensures Valid() && BigEndian.InRange(width, x)
      ensures BigEndian.Encode(width, x) + Contents() == old(Contents())
    {
      x := PeekInt(width);
      Retrieve(width);
    }

    /** `prependInt8` to `prependInt64`, by width. */
    method PrependInt(width: nat, x: int)
      requires Valid() && BigEndian.IntWidth(width) && BigEndian.InRange(width, x) && width <= reader
      modifies this`reader, this`peak, store
      ensures Valid()
      ensures Contents() == BigEndian.Encode(width, x) + old(Contents())
      ensures reader == old(reader) - width && peak == Max(old(peak), Readable())
    {
      Prepend(BigEndian.Encode(width, x));
    }

    /** Integers of any widths, one after the other. */
    method AppendInts(items: seq<BigEndian.Item>)
      requires Valid() && BigEndian.ValidItems(items)
      modifies this`store, this`reader, this`writer, this`peak, store
      ensures Valid()
      ensures Contents() == old(Contents()) + BigEndian.EncodeAll(items)
      ensures store == old(store) || fresh(store)
      decreases |items|
    {
      if items == [] {
        NothingMore(Contents());
      } else {
        assert items[0] in items;
        ghost var before := Contents();
        ghost var head := BigEndian.Encode(items[0].width, items[0].value);
        AppendInt(items[0].width, items[0].value);
        AppendInts(items[1..]);
        Assoc(before, head, BigEndian.EncodeAll(items[1..]));
      }
    }

    /** One integer for each item, of its width, until too few bytes are left. */
    method ReadInts(items: seq<BigEndian.Item>) returns (values: seq<int>)
      requires Valid() && forall i :: i in items ==> BigEndian.IntWidth(i.width)
      modifies this`reader, this`writer
      ensures Valid() && (values, Contents()) == BigEndian.ReadAll(items, old(Contents()))
      decreases |items|
    {
      values := [];
      if items != [] && items[0].width <= Readable() {
        var width := items[0].width;
        ghost var before := Contents();
        var x := ReadInt(width);
        BigEndian.ReadOne(BigEndian.Item(width, x), Contents());
        assert BigEndian.Decode(before[..width]) == x && before[width..] == Contents();
        var later := ReadInts(items[1..]);
        values := [x] + later;
      }
    }

    /** Whatever is in the buffer, integers appended to it come back behind it, through growth and
        compaction. */
    method CarryInts(items: seq<BigEndian.Item>) returns (front: bytes, values: seq<int>)
      requires Valid() && BigEndian.ValidItems(items)
      modifies this`store, this`reader, this`writer, this`peak, store
      ensures Valid()
      ensures front == old(Contents()) && values == BigEndian.Values(items) && Contents() == []
      ensures store == old(store) || fresh(store)
    {
      var n := Readable();
      ghost var before, sent := Contents(), BigEndian.EncodeAll(items);
      AppendInts(items);
      front := RetrieveAsString(n);
      assert front == before && Contents() == sent by {
        assert (before + sent)[..n] == before && (before + sent)[n..] == sent;
        assert (front + Contents())[..n] == front && (front + Contents())[n..] == Contents();
      }
      BigEndian.MixedRoundTrip(items, []);
      NothingMore(sent);
      values := ReadInts(items);
    }

    /** How many bytes the scatter read offers the kernel. */
    function ReadLimit(): (n: nat)
      requires Indexed()
      reads this
      ensures 65536 <= n <= Max(Writable(), 131071)
    {
      Writable() + if Writable() < EXTRA_SIZE then EXTRA_SIZE else 0
    }

    /** The bytes that do not fit the free tail arrive in the side array and are appended. */
    method Spill(data: bytes)
      requires Valid() && |data| > Writable()
      modifies this`store, this`reader, this`writer, this`peak, store
      ensures Valid()
      ensures store == old(store) || fresh(store)
      ensures Contents() == old(Contents()) + data
      ensures peak == Max(old(peak), Readable())
    {
      var writable := Writable();
      var head, extrabuf := data[..writable], data[writable..];
      assert data == head + extrabuf;
      CopyToEnd(head);
      HasWritten(writable);
      assert Contents() == old(Contents()) + head;
      Append(extrabuf);
    }

    /** Reads into the free tail and, when that is short, into a 64k side array that is then
        appended. Whatever the kernel returns, the effect is one append. */
    method ReadFd(r: ReadResult) returns (n: int, savedErrno: Option<int>)
      requires Valid()
      requires r.ReadBytes? ==> |r.data| <= ReadLimit()
      modifies this`store, this`reader, this`writer, this`peak, store
      ensures Valid()
      ensures store == old(store) || fresh(store)
      ensures Contents() == old(Contents()) + if r.ReadBytes? then r.data else []
      ensures if r.ReadBytes? then n == |r.data| && savedErrno == None else n < 0 && savedErrno == Some(r.errno)
      ensures n <= Max(old(Writable()), 131071)
      ensures peak == Max(old(peak), Readable())
    {
      match r
      case ReadFailed(errno) =>
        n, savedErrno := -1, Some(errno);
      case ReadBytes(data) =>
        n, savedErrno := |data|, None;
        if n <= Writable() {
          CopyToEnd(data);
          HasWritten(n);
        } else {
          Spill(data);
        }
    }
  }
}
