/**
 The growing byte buffer of Stack/core/opcua_buffer.c. The object, with its reallocated array, is
 proved against a value: the bytes up to the end-of-data marker, the position and the sizes.
 */
module Buffers {
  import opened Basics

  // ----- the buffer as a value -----

  datatype Tape = Tape(contents: seq<Byte>, position: nat, size: nat, blockSize: nat, maxSize: nat)

  /** The size after rounding up to whole blocks. */
  function RoundedUp(n: nat, blockSize: nat): nat
    requires blockSize > 0
  {
    if n % blockSize != 0 then n + (blockSize - n % blockSize) else n
  }

  predicate WellFormed(t: Tape) {
    t.blockSize > 0 && t.position <= |t.contents| <= t.size && t.size % t.blockSize == 0
  }

  /** The bytes from the position on are replaced, and the contents grow when the chunk reaches past their end. */
  function Overwritten(s: seq<Byte>, position: nat, chunk: seq<Byte>): seq<Byte>
    requires position <= |s|
  {
    s[..position] + chunk + if position + |chunk| < |s| then s[position + |chunk|..] else []
  }

  function NeededSize(t: Tape, count: nat): nat
    requires WellFormed(t)
  {
    if t.size - t.position < count then RoundedUp(t.position + count, t.blockSize) else t.size
  }

  /** All or nothing: a write that would grow the buffer beyond a nonzero maximum changes nothing. */
  function Writing(t: Tape, chunk: seq<Byte>): (Tape, Status)
    requires WellFormed(t)
  {
    var size := NeededSize(t, |chunk|);
    if size != t.size && t.maxSize != 0 && size > t.maxSize then (t, BadEndOfStream)
    else (t.(contents := Overwritten(t.contents, t.position, chunk), position := t.position + |chunk|, size := size), Good)
  }

  function Reading(t: Tape, count: nat): (Tape, Status, seq<Byte>)
    requires WellFormed(t)
  {
    var left := |t.contents| - t.position;
    if count == 0 then (t, Good, [])
    else if left == 0 then (t, BadEndOfStream, [])
    else
      var n := if left > count then count else left;
      (t.(position := t.position + n), Good, t.contents[t.position..t.position + n])
  }

  function Skipping(t: Tape, count: nat): (Tape, Status)
    requires WellFormed(t)
  {
    if count > |t.contents| - t.position then (t, BadEndOfStream) else (t.(position := t.position + count), Good)
  }

  const POSITION_START: UInt32 := 0
  const POSITION_END: UInt32 := 0xFFFF_FFFF

  function Positioning(t: Tape, position: UInt32): (Tape, Status) {
    if position == POSITION_END then (t.(position := |t.contents|), Good)
    else if position > |t.contents| then (t, BadEndOfStream)
    else (t.(position := position), Good)
  }

  // ----- growth -----

  lemma ProductAtLeast(blockSize: int, d: int)
    requires blockSize >= 0
    ensures d >= 1 ==> blockSize * d >= blockSize
    ensures d <= -1 ==> blockSize * d <= -blockSize
  {
    assert blockSize * d == blockSize * (d - 1) + blockSize == blockSize * (d + 1) - blockSize;
  }

  /** Quotient and remainder are unique. */
  lemma ModuloUnique(n: nat, blockSize: nat, q: nat, r: nat)
    requires blockSize > 0 && r < blockSize && n == blockSize * q + r
    ensures n % blockSize == r && n / blockSize == q
  {
    var q2, r2 := n / blockSize, n % blockSize;
    assert n == blockSize * q2 + r2;
    assert blockSize * (q - q2) == blockSize * q - blockSize * q2 == r2 - r;
    ProductAtLeast(blockSize, q - q2);
  }

  lemma RoundedUpIsLeast(n: nat, blockSize: nat, m: nat)
    requires blockSize > 0
    ensures RoundedUp(n, blockSize) >= n && RoundedUp(n, blockSize) % blockSize == 0
    ensures m >= n && m % blockSize == 0 ==> m >= RoundedUp(n, blockSize)
  {
    var q, r, up := n / blockSize, n % blockSize, RoundedUp(n, blockSize);
    if r != 0 {
      assert up == blockSize * (q + 1) + 0;
      ModuloUnique(up, blockSize, q + 1, 0);
      if m >= n && m % blockSize == 0 && m < up {
        // m lies strictly between two neighbouring multiples
        assert m == blockSize * q + (m - blockSize * q);
        ModuloUnique(m, blockSize, q, m - blockSize * q);
        assert false;
      }
    }
  }

  /** A write keeps the buffer well formed. It grows the buffer only when it must, then to the least whole
      number of blocks that holds the chunk, and it is refused exactly when that exceeds a nonzero maximum. */
  lemma WritingGrows(t: Tape, chunk: seq<Byte>, m: nat)
    requires WellFormed(t)
    ensures var (u, status) := Writing(t, chunk);
      && WellFormed(u)
      && (t.position + |chunk| <= t.size ==> status == Good && u.size == t.size)
      && (t.position + |chunk| > t.size && status == Good ==>
            && u.size >= t.position + |chunk| && u.size % t.blockSize == 0
            && (m >= t.position + |chunk| && m % t.blockSize == 0 ==> m >= u.size))
      && (status != Good <==> t.position + |chunk| > t.size && t.maxSize != 0 && RoundedUp(t.position + |chunk|, t.blockSize) > t.maxSize)
      && (status != Good ==> u == t)
  {
    hide RoundedUp;
    RoundedUpIsLeast(t.position + |chunk|, t.blockSize, m);
  }

  // ----- single operations -----

  /** Byte by byte: the chunk's bytes from the position on, and everything before and behind them as it was. */
  ghost predicate Spliced(was: seq<Byte>, position: nat, chunk: seq<Byte>, now: seq<Byte>)
    requires position <= |was|
  {
    && |now| == (if |was| > position + |chunk| then |was| else position + |chunk|)
    && (forall i :: 0 <= i < position ==> now[i] == was[i])
    && (forall i :: position <= i < position + |chunk| ==> now[i] == chunk[i - position])
    && (forall i :: position + |chunk| <= i < |was| ==> now[i] == was[i])
  }

  lemma WritingSplices(t: Tape, chunk: seq<Byte>)
    requires WellFormed(t)
    ensures var (u, status) := Writing(t, chunk);
      if status == Good then Spliced(t.contents, t.position, chunk, u.contents) && u.position == t.position + |chunk|
      else status == BadEndOfStream && u == t
  {
  }

  /** Moving to a position and reading gives the bytes from there on; a position behind the end of data is refused. */
  lemma PositionThenRead(t: Tape, position: UInt32, count: nat)
    requires WellFormed(t)
    ensures var (u, status) := Positioning(t, position);
      && (status == Good <==> position <= |t.contents| || position == POSITION_END)
      && (status != Good ==> u == t && status == BadEndOfStream)
      && (status == Good && position != POSITION_END ==>
            && WellFormed(u) && u.contents == t.contents
            && Reading(u, count).2 == t.contents[position..Min(position + count, |t.contents|)])
      && (position == POSITION_END ==>
            && WellFormed(u) && u.contents == t.contents && Reading(u, count).2 == []
            && (count > 0 ==> Reading(u, count).1 == BadEndOfStream))
  {
  }

  /** Reading tells the end of data only when bytes are asked for and none is left. */
  lemma ReadingEnds(t: Tape, count: nat)
    requires WellFormed(t)
    ensures var (u, status, bytes) := Reading(t, count);
      && (status == BadEndOfStream <==> count > 0 && t.position == |t.contents|) && (status == Good || status == BadEndOfStream)
      && |bytes| == Min(count, |t.contents| - t.position) && u == t.(position := t.position + |bytes|)
  {
  }

  /** Skipping bytes and reading gives what reading all of them gives, from there on; and more than are left are not skipped. */
  lemma SkipThenRead(t: Tape, n: nat, m: nat)
    requires WellFormed(t)
    ensures var (u, status) := Skipping(t, n);
      && (status == Good <==> n <= |t.contents| - t.position)
      && (status != Good ==> u == t && status == BadEndOfStream)
      && (status == Good ==> WellFormed(u) && Reading(u, m).2 == Reading(t, n + m).2[n..] && Reading(u, m).0 == Reading(t, n + m).0)
  {
  }

  /** What is written at a position is read from there; and what is read from a range that it does not touch is what was
      there before. */
  lemma WriteThenRead(t: Tape, chunk: seq<Byte>, position: UInt32, count: nat)
    requires WellFormed(t) && Writing(t, chunk).1 == Good && t.position < POSITION_END
    requires position + count <= |t.contents| && position != POSITION_END
    ensures var u := Writing(t, chunk).0;
      && WellFormed(u)
      && WellFormed(Positioning(u, t.position).0) && Reading(Positioning(u, t.position).0, |chunk|).2 == chunk
      && WellFormed(Positioning(u, position).0)
      && (position + count <= t.position || t.position + |chunk| <= position ==>
            Reading(Positioning(u, position).0, count).2 == t.contents[position..position + count])
  {
    hide Writing, Reading, Positioning, WellFormed, Spliced;
    var u := Writing(t, chunk).0;
    WritingGrows(t, chunk, 0);
    WritingSplices(t, chunk);
    IsWithin(t);
    PositionThenRead(u, t.position, |chunk|);
    PositionThenRead(u, position, count);
    SplicedRanges(t.contents, t.position, chunk, u.contents, position, count);
  }

  lemma SplicedRanges(was: seq<Byte>, at: nat, chunk: seq<Byte>, now: seq<Byte>, position: nat, count: nat)
    requires at <= |was| && Spliced(was, at, chunk, now) && position + count <= |was|
    ensures |now| >= |was| && |now| >= at + |chunk| && now[at..at + |chunk|] == chunk
    ensures position + count <= at || at + |chunk| <= position ==> now[position..position + count] == was[position..position + count]
  {
  }

  lemma IsWithin(t: Tape)
    requires WellFormed(t)
    ensures t.position <= |t.contents|
  {
  }

  function Min(a: nat, b: nat): nat {
    if a < b then a else b
  }

  // ----- round trip -----

  datatype Written = Written(tape: Tape, accepted: seq<Byte>)

  /** Writes the chunks one after the other; a refused one is lost as a whole. */
  function WriteAll(t: Tape, chunks: seq<seq<Byte>>): Written
    requires WellFormed(t)
  {
    if chunks == [] then Written(t, [])
    else
      var last := |chunks| - 1;
      var w := WriteAll(t, chunks[..last]);
      if !WellFormed(w.tape) then w
      else
        var (u, status) := Writing(w.tape, chunks[last]);
        Written(u, w.accepted + if status == Good then chunks[last] else [])
  }

  /** Reads with the counts one after the other and joins what was read. */
  function ReadAll(t: Tape, counts: seq<nat>): (Tape, seq<Byte>)
    requires WellFormed(t)
  {
    if counts == [] then (t, [])
    else
      var last := |counts| - 1;
      var (u, bytes) := ReadAll(t, counts[..last]);
      if !WellFormed(u) then (u, bytes)
      else
        var (v, _, more) := Reading(u, counts[last]);
        (v, bytes + more)
  }

  function Sum(counts: seq<nat>): nat {
    if counts == [] then 0 else Sum(counts[..|counts| - 1]) + counts[|counts| - 1]
  }

  /** Writing to an empty buffer collects exactly the accepted chunks. */
  lemma {:induction false} WriteAllCollects(t: Tape, chunks: seq<seq<Byte>>)
    requires WellFormed(t) && t.contents == []
    ensures var w := WriteAll(t, chunks);
      WellFormed(w.tape) && w.tape.contents == w.accepted && w.tape.position == |w.accepted|
      && w.tape.blockSize == t.blockSize && w.tape.maxSize == t.maxSize
  {
    if chunks == [] {
    } else {
      var last := |chunks| - 1;
      WriteAllCollects(t, chunks[..last]);
      var w := WriteAll(t, chunks[..last]);
      WritingGrows(w.tape, chunks[last], 0);
      assert w.accepted[..|w.accepted|] == w.accepted;
    }
  }

  lemma SlicesJoin(s: seq<Byte>, a: nat, b: nat, c: nat)
    requires a <= b <= c <= |s|
    ensures s[a..b] + s[b..c] == s[a..c]
  {
  }

  /** Reading in any portions gives the bytes from the position on, in order, as far as the counts reach. */
  lemma {:induction false} ReadAllDelivers(t: Tape, counts: seq<nat>)
    requires WellFormed(t)
    ensures var (u, bytes) := ReadAll(t, counts);
      var n := Min(Sum(counts), |t.contents| - t.position);
      u == t.(position := t.position + n) && bytes == t.contents[t.position..t.position + n]
  {
    if counts == [] {
    } else {
      var last := |counts| - 1;
      ReadAllDelivers(t, counts[..last]);
      var (u, bytes) := ReadAll(t, counts[..last]);
      var (v, _, more) := Reading(u, counts[last]);
      assert more == t.contents[u.position..v.position];
      SlicesJoin(t.contents, t.position, u.position, v.position);
    }
  }

  /** Whatever the chunks written to an empty buffer, and whatever the portions read after SetPosition(start):
      the bytes read are the bytes of the accepted chunks, and at their end every further read says so. */
  lemma RoundTrip(t: Tape, chunks: seq<seq<Byte>>, counts: seq<nat>, count: nat)
    requires WellFormed(t) && t.contents == [] && count > 0
    ensures var w := WriteAll(t, chunks);
      && WellFormed(w.tape)
      && var start := Positioning(w.tape, POSITION_START).0;
        var (u, bytes) := ReadAll(start, counts);
        && bytes == w.accepted[..Min(Sum(counts), |w.accepted|)]
        && WellFormed(u)
        && (Sum(counts) >= |w.accepted| ==> bytes == w.accepted && Reading(u, count) == (u, BadEndOfStream, []))
        && (Sum(counts) < |w.accepted| ==> Reading(u, count).1 == Good && Reading(u, count).2 != [])
  {
    WriteAllCollects(t, chunks);
    var w := WriteAll(t, chunks);
    ReadAllDelivers(Positioning(w.tape, POSITION_START).0, counts);
  }

  /** Without a maximum no chunk is refused: everything written comes back. */
  lemma {:induction false} UnboundedAcceptsAll(t: Tape, chunks: seq<seq<Byte>>)
    requires WellFormed(t) && t.contents == [] && t.maxSize == 0
    ensures WriteAll(t, chunks).accepted == Joined(chunks)
  {
    if chunks == [] {
    } else {
      var last := |chunks| - 1;
      UnboundedAcceptsAll(t, chunks[..last]);
      WriteAllCollects(t, chunks[..last]);
      WritingGrows(WriteAll(t, chunks[..last]).tape, chunks[last], 0);
    }
  }

  function Joined(chunks: seq<seq<Byte>>): seq<Byte> {
    if chunks == [] then [] else Joined(chunks[..|chunks| - 1]) + chunks[|chunks| - 1]
  }

  // ----- the buffer object -----

  class Buffer {
    var Data: array<Byte>
    var Size: UInt32
    var EndOfData: UInt32
    var Position: UInt32
    var BlockSize: UInt32
    var MaxSize: UInt32

    ghost predicate Valid()
      reads this, Data
    {
      && Data.Length == Size && Position <= EndOfData <= Size
      && BlockSize > 0 && Size % BlockSize == 0
    }

    ghost function View(): (t: Tape)
      reads this, Data
      requires Valid()
      ensures WellFormed(t)
    {
      Tape(Data[..EndOfData], Position, Size, BlockSize, MaxSize)
    }

    /** Without an initial array the buffer has size 0. */
    constructor (data: array?<Byte>, dataSize: UInt32, blockSize: UInt32, maxSize: UInt32)
      requires data != null ==> data.Length == blockSize && dataSize <= blockSize
      requires data == null ==> dataSize == 0
      ensures Valid()
      ensures if data != null then Data == data else fresh(Data)
      ensures View() == Tape(if data != null then data[..dataSize] else [], 0, if data != null then blockSize else 0,
                             if blockSize > 0 then blockSize else 1, maxSize)
    {
      if data != null {
        Data, Size := data, blockSize;
      } else {
        Data, Size := new Byte[0], 0;
      }
      EndOfData, Position := dataSize, 0;
      BlockSize := if blockSize > 0 then blockSize else 1;
      MaxSize := maxSize;
    }

    /** Moves the contents into an array of the new size. */
    method Reallocate(newSize: UInt32)
      requires Valid() && newSize >= Size && newSize % BlockSize == 0
      modifies `Data, `Size
      ensures Valid() && fresh(Data) && View() == old(View()).(size := newSize)
    {
      var newData := new Byte[newSize];
      forall i | 0 <= i < Size {
        newData[i] := Data[i];
      }
      assert newData[..EndOfData] == Data[..EndOfData];
      Data, Size := newData, newSize;
    }

    /** Grows the buffer when the bytes do not fit behind the position, unless that exceeds the maximum. */
    method MakeRoom(count: nat) returns (status: Status)
      requires Valid()
      requires RoundedUp(Position + count, BlockSize) < TWO_TO_THE_32
      modifies `Data, `Size
      ensures Valid() && (Data == old(Data) || fresh(Data))
      ensures var size := NeededSize(old(View()), count);
        if size != old(Size) && MaxSize != 0 && size > MaxSize then status == BadEndOfStream && View() == old(View())
        else status == Good && View() == old(View()).(size := size)
      ensures status == Good ==> Position + count <= Size
    {
      hide WellFormed;
      RoundedUpIsLeast(Position + count, BlockSize, 0);
      var bytesAvailable := Size - Position;
      if bytesAvailable < count {
        var newSize := Size + (count - bytesAvailable);
        if newSize % BlockSize != 0 {
          newSize := newSize + (BlockSize - newSize % BlockSize);
        }
        assert newSize == RoundedUp(Position + count, BlockSize);
        if MaxSize != 0 && newSize > MaxSize {
          return BadEndOfStream;
        }
        Reallocate(newSize);
      }
      return Good;
    }

    /** All or nothing: BadEndOfStream leaves the buffer as it was. */
    method Write(chunk: seq<Byte>) returns (status: Status)
      requires Valid()
      requires RoundedUp(Position + |chunk|, BlockSize) < TWO_TO_THE_32
      modifies this, Data
      ensures Valid() && (Data == old(Data) || fresh(Data))
      ensures (View(), status) == Writing(old(View()), chunk)
      // byte by byte
      ensures status == Good ==> Spliced(old(View()).contents, old(Position), chunk, View().contents) && Position == old(Position) + |chunk|
      ensures status != Good ==> status == BadEndOfStream && View() == old(View())
    {
      hide RoundedUp, WellFormed, Spliced;
      WritingSplices(View(), chunk);
      status := MakeRoom(|chunk|);
      if status == Good {
        Copy(chunk);
      }
    }

    /** Copies the chunk to the position and moves the position and the end of data. */
    method Copy(chunk: seq<Byte>)
      requires Valid() && Position + |chunk| <= Size
      modifies Data, `Position, `EndOfData
      ensures Valid()
      ensures View() == old(View()).(contents := Overwritten(old(View()).contents, old(Position), chunk), position := old(Position) + |chunk|)
    {
      hide WellFormed;
      ghost var was, p := Data[..EndOfData], Position;
      forall i | 0 <= i < |chunk| {
        Data[Position + i] := chunk[i];
      }
      Position := Position + |chunk|;
      if EndOfData < Position {
        EndOfData := Position;
      }
      assert Data[..EndOfData] == Overwritten(was, p, chunk);
    }

    method Read(count: nat) returns (status: Status, bytes: seq<Byte>)
      requires Valid()
      modifies `Position
      ensures Valid()
      ensures (View(), status, bytes) == Reading(old(View()), count)
    {
      if count == 0 {
        return Good, [];
      }
      var bytesToRead := EndOfData - Position;
      if bytesToRead == 0 {
        return BadEndOfStream, [];
      }
      if bytesToRead > count {
        bytesToRead := count;
      }
      bytes := Data[Position..Position + bytesToRead];
      ghost var contents := Data[..EndOfData];
      assert forall i :: 0 <= i < bytesToRead ==> bytes[i] == contents[Position + i];
      assert bytes == contents[Position..Position + bytesToRead];
      Position := Position + bytesToRead;
      return Good, bytes;
    }

    method Skip(length: nat) returns (status: Status)
      requires Valid()
      modifies `Position
      ensures Valid()
      ensures (View(), status) == Skipping(old(View()), length)
    {
      if length == 0 {
        return Good;
      }
      var bytesAvailable := EndOfData - Position;
      if bytesAvailable == 0 || bytesAvailable < length {
        return BadEndOfStream;
      }
      Position := Position + length;
      return Good;
    }

    method SetPosition(position: UInt32) returns (status: Status)
      requires Valid()
      modifies `Position
      ensures Valid()
      ensures (View(), status) == Positioning(old(View()), position)
    {
      if position == POSITION_START {
        Position := 0;
        return Good;
      }
      if position == POSITION_END {
        Position := EndOfData;
        return Good;
      }
      if position > EndOfData {
        return BadEndOfStream;
      }
      Position := position;
      return Good;
    }

    method SetEmpty()
      requires Valid()
      modifies `EndOfData, `Position
      ensures Valid() && View() == old(View()).(contents := [], position := 0)
    {
      EndOfData, Position := 0, 0;
    }
  }
}
