/** The chunked message buffer (message_buffer.hpp) is a flat queue of bytes: whatever the length of
    its chunks, bytes come out in the order they went in. */
module MessageBuffer {
  import opened RawPack
  import opened Chunks

  class Buffer {
    const len: nat
    var buffers: seq<seq<Byte>>
    var readInd: Index
    var writeInd: Index
    var sanityCheck: nat

    // There is always room to write, and the chunk being read is the first one.
    ghost predicate Valid()
      reads this
    {
      && len > 0 && Even(len, buffers) && |Bytes()| == Start(len, |buffers|)
      && sanityCheck == |buffers|
      && readInd.first == 0 && readInd.second < len
      && writeInd.first < |buffers| && writeInd.second < len
      && Pos(len, readInd) <= Pos(len, writeInd) < |Bytes()|
    }

    ghost function Bytes(): seq<Byte>
      reads this
    {
      Concat(buffers)
    }

    // The queue: what was written and not yet read.
    ghost function Unread(): seq<Byte>
      requires Valid()
      reads this
    {
      Bytes()[Pos(len, readInd)..Pos(len, writeInd)]
    }

    // What the memory yet to be written to holds.
    ghost function Room(): seq<Byte>
      requires Valid()
      reads this
    {
      Bytes()[Pos(len, writeInd)..]
    }

    constructor (chunk: nat)
      requires chunk > 0
      ensures Valid() && len == chunk && Unread() == [] && |Room()| == chunk
    {
      len := chunk;
      var memory := AnyChunk(chunk);
      buffers := [memory];
      readInd, writeInd, sanityCheck := Index(0, 0), Index(0, 0), 1;
      new;
      ConcatLength(chunk, [memory]);
    }

    // Memory from the pool, holding anything.
    static method AnyChunk(n: nat) returns (c: seq<Byte>)
      ensures |c| == n
    {
      ghost var zeros: seq<Byte> := seq(n, _ => 0);
      assert |zeros| == n;
      c :| |c| == n;
    }

    function TotalBytes(): (r: nat)
      reads this
      requires Valid()
      ensures r == |Unread()| + |Room()| + Pos(len, readInd)
    {
      StartIsProduct(len, |buffers|);
      len * |buffers|
    }

    function BytesToReadFrom(i: Index): (r: int)
      reads this
      requires Valid() && i.second < len && Pos(len, i) <= Pos(len, writeInd)
      ensures r == Pos(len, writeInd) - Pos(len, i)
    {
      StartIsProduct(len, writeInd.first);
      StartIsProduct(len, i.first);
      Spread(writeInd.first, i.first, len);
      (writeInd.first - i.first) * len + writeInd.second - i.second
    }

    function BytesToRead(): (r: int)
      reads this
      requires Valid()
      ensures r == |Unread()|
    {
      BytesToReadFrom(readInd)
    }

    function BytesToWrite(): (r: int)
      reads this
      requires Valid()
      ensures r == |Room()| > 0
    {
      StartIsProduct(len, writeInd.first);
      TotalBytes() - writeInd.first * len - writeInd.second
    }

    method AddBufferToChain()
      requires Valid()
      modifies this
      ensures Valid() && readInd == old(readInd) && writeInd == old(writeInd)
      ensures Unread() == old(Unread()) && old(Room()) <= Room() && |Room()| == old(|Room()|) + len
    {
      var c := AnyChunk(len);
      Grown(len, buffers, c);
      sanityCheck := sanityCheck + 1;
      buffers := buffers + [c];
    }

    // At least `bytes` more bytes can be written.
    method AddSpace(bytes: nat)
      requires Valid()
      modifies this
      ensures Valid() && readInd == old(readInd) && writeInd == old(writeInd)
      ensures Unread() == old(Unread()) && old(Room()) <= Room() && |Room()| > old(|Room()|) + bytes
    {
      var buffersToAdd := bytes / len + 1;
      var i := 0;
      while i < buffersToAdd
        invariant 0 <= i <= buffersToAdd
        invariant Valid() && readInd == old(readInd) && writeInd == old(writeInd)
        invariant Unread() == old(Unread()) && old(Room()) <= Room() && |Room()| == old(|Room()|) + Start(len, i)
      {
        AddBufferToChain();
        i := i + 1;
      }
      Enough(len, bytes);
    }

    // Back to one chunk; what was not read is dropped.
    method Reset()
      requires len > 0 && Even(len, buffers) && buffers != [] && sanityCheck == |buffers|
      modifies this
      ensures Valid() && Unread() == [] && buffers == old(buffers)[..1] && readInd == writeInd == Index(0, 0)
    {
      while |buffers| > 1
        invariant buffers != [] && buffers <= old(buffers) && sanityCheck == |buffers|
      {
        sanityCheck := sanityCheck - 1;
        buffers := buffers[..|buffers| - 1];
      }
      readInd, writeInd := Index(0, 0), Index(0, 0);
      ConcatLength(len, buffers);
    }

    // Chunks that were read are dropped; reading up to the write position resets the buffer.
    method AdvanceReadPtr(bytes: nat)
      requires Valid() && bytes <= |Unread()|
      modifies this
      ensures Valid() && Unread() == old(Unread())[bytes..]
      ensures bytes == old(|Unread()|) ==> |buffers| == 1 && readInd == writeInd == Index(0, 0)
      ensures bytes < old(|Unread()|) ==> Room() == old(Room())
      ensures bytes < old(|Unread()|) ==> readInd.second == (old(readInd.second) + bytes) % len
    {
      AdvanceMoves(len, readInd, bytes);
      readInd := Advance(len, readInd, bytes);
      SameOrLess(len, readInd, writeInd);
      if readInd == writeInd {
        Reset();
      } else {
        DropRead();
      }
    }

    method DropRead()
      requires len > 0 && Even(len, buffers) && |Bytes()| == Start(len, |buffers|) && sanityCheck == |buffers|
      requires readInd.first <= writeInd.first < |buffers| && readInd.second < len && writeInd.second < len
      requires Pos(len, readInd) <= Pos(len, writeInd) < |Bytes()|
      modifies this
      ensures Valid() && readInd.second == old(readInd.second)
      ensures Unread() == old(Bytes()[Pos(len, readInd)..Pos(len, writeInd)])
      ensures Room() == old(Bytes()[Pos(len, writeInd)..])
    {
      ghost var k := 0;
      ghost var drop := readInd.first;
      while readInd.first > 0
        invariant k + readInd.first == drop && k + writeInd.first == old(writeInd.first)
        invariant readInd.second == old(readInd.second) && writeInd.second == old(writeInd.second)
        invariant k <= |old(buffers)| && buffers == old(buffers)[k..] && sanityCheck == |buffers|
        decreases readInd.first
      {
        buffers := buffers[1..];
        sanityCheck := sanityCheck - 1;
        readInd := Index(readInd.first - 1, readInd.second);
        writeInd := Index(writeInd.first - 1, writeInd.second);
        k := k + 1;
      }
      ConcatDrop(len, old(buffers), drop);
      ConcatLength(len, buffers);
      StartAdds(len, drop, writeInd.first);
      assert Pos(len, writeInd) == old(Pos(len, writeInd)) - Start(len, drop);
      assert Pos(len, readInd) == old(Pos(len, readInd)) - Start(len, drop);
      SliceDropped(old(Bytes()), Start(len, drop), Pos(len, readInd), Pos(len, writeInd));
    }

    // What was written becomes readable; chunks are added as far as they are needed.
    method AdvanceWritePtr(bytes: nat)
      requires Valid()
      modifies this
      ensures Valid() && readInd == old(readInd)
      ensures old(Unread()) <= Unread() && |Unread()| == old(|Unread()|) + bytes
      ensures bytes <= old(|Room()|) ==> Unread() == old(Unread()) + old(Room())[..bytes]
      ensures bytes < old(|Room()|) ==> Room() == old(Room())[bytes..]
    {
      AdvanceMoves(len, writeInd, bytes);
      writeInd := Advance(len, writeInd, bytes);
      while writeInd.first >= |buffers|
        invariant Even(len, buffers) && |Bytes()| == Start(len, |buffers|) && sanityCheck == |buffers|
        invariant old(Bytes()) <= Bytes()
        invariant writeInd.first >= |old(buffers)| || buffers == old(buffers)
        invariant readInd == old(readInd) && writeInd == Advance(len, old(writeInd), bytes)
        decreases writeInd.first - |buffers|
      {
        var c := AnyChunk(len);
        Grown(len, buffers, c);
        sanityCheck := sanityCheck + 1;
        buffers := buffers + [c];
      }
      Within(len, writeInd, |buffers|);
      WriteMoved(old(Bytes()), Bytes(), Pos(len, readInd), old(Pos(len, writeInd)), bytes);
      if bytes < old(|Room()|) {
        WithinBack(len, writeInd, |old(buffers)|);
      }
    }

    // Stretches of memory from the write position on, in order: all the room there is.
    method BufferSequence() returns (parts: seq<Part>)
      requires Valid()
      ensures Memory(buffers, parts) == Room() && forall p :: p in parts ==> InChain(buffers, p)
    {
      parts := PartsFrom(len, buffers, writeInd);
    }

    // Bytes arriving in the memory handed out by BufferSequence; they do not count as written yet.
    method Fill(data: seq<Byte>)
      requires Valid() && |data| <= |Room()|
      modifies this`buffers
      ensures Valid() && Unread() == old(Unread()) && Room() == data + old(Room())[|data|..]
    {
      var j := 0;
      var at := writeInd;
      ghost var first, w := Bytes(), Pos(len, writeInd);
      while j < |data|
        invariant |buffers| == |old(buffers)| && Filled(len, buffers, first, w, data, j, at)
      {
        FillNext(len, buffers, first, w, data, j, at);
        buffers := WriteByte(buffers, at, data[j]);
        at := Advance(len, at, 1);
        j := j + 1;
      }
      FilledAll(len, buffers, first, Pos(len, readInd), w, data, at);
    }

    // Bytes written and made readable.
    method Write(data: seq<Byte>)
      requires Valid() && |data| <= |Room()|
      modifies this
      ensures Valid() && Unread() == old(Unread()) + data
    {
      Fill(data);
      AdvanceWritePtr(|data|);
    }

    // Bytes that lie in the chunk being read.
    method ReadHere(size: nat) returns (data: seq<Byte>)
      requires Valid() && size <= |Unread()| && readInd.second + size <= len
      modifies this
      ensures Valid() && data == old(Unread())[..size] && Unread() == old(Unread())[size..]
    {
      ConcatSlice(len, buffers, readInd, size);
      SliceTake(Bytes(), Pos(len, readInd), Pos(len, writeInd), size);
      data := buffers[readInd.first][readInd.second..readInd.second + size];
      AdvanceReadPtr(size);
    }

    // The first `size` bytes of the queue, or nothing if there are fewer.
    method Read(size: nat) returns (ok: bool, data: seq<Byte>)
      requires Valid()
      modifies this
      ensures Valid() && (ok <==> size <= old(|Unread()|))
      ensures ok ==> data == old(Unread())[..size] && Unread() == old(Unread())[size..]
      ensures !ok ==> data == [] && buffers == old(buffers) && readInd == old(readInd) && writeInd == old(writeInd)
      decreases size
    {
      if BytesToRead() < size {
        return false, [];
      }
      if readInd.second + size <= len {
        data := ReadHere(size);
      } else {
        var here := len - readInd.second;
        ghost var unread := Unread();
        data := ReadHere(here);
        var inner, rest := Read(size - here);
        TakeTwice(unread, here, size - here);
        data := data + rest;
      }
      ok := true;
    }

    // Reads ahead from an index, moving the index but not the read position.
    method Peek(size: nat, index: Index) returns (ok: bool, data: seq<Byte>, moved: Index)
      requires Valid() && index.second < len && Pos(len, index) <= Pos(len, writeInd)
      ensures ok <==> Pos(len, index) + size <= Pos(len, writeInd)
      ensures ok ==> data == Bytes()[Pos(len, index)..Pos(len, index) + size]
      ensures ok ==> Pos(len, moved) == Pos(len, index) + size && moved.second < len
      ensures !ok ==> data == [] && moved == index
      decreases size
    {
      if BytesToReadFrom(index) < size {
        return false, [], index;
      }
      WithinBack(len, index, |buffers|);
      if index.second + size <= len {
        ConcatSlice(len, buffers, index, size);
        data := buffers[index.first][index.second..index.second + size];
        AdvanceMoves(len, index, size);
        moved := Advance(len, index, size);
      } else {
        var here := len - index.second;
        ConcatSlice(len, buffers, index, here);
        data := buffers[index.first][index.second..index.second + here];
        AdvanceMoves(len, index, here);
        var inner, rest, last := Peek(size - here, Advance(len, index, here));
        data, moved := data + rest, last;
      }
      ok := true;
    }
  }

  // A stretch of memory: the chunk, where it begins in it, and how long it is.
  datatype Part = Part(chunk: nat, offset: nat, size: nat)

  predicate InChain(buffers: seq<seq<Byte>>, p: Part) {
    p.chunk < |buffers| && p.offset + p.size <= |buffers[p.chunk]|
  }

  function PartBytes(buffers: seq<seq<Byte>>, p: Part): seq<Byte> {
    if InChain(buffers, p) then buffers[p.chunk][p.offset..p.offset + p.size] else []
  }

  function Memory(buffers: seq<seq<Byte>>, parts: seq<Part>): seq<Byte> {
    if parts == [] then []
    else Memory(buffers, parts[..|parts| - 1]) + PartBytes(buffers, parts[|parts| - 1])
  }

  lemma {:induction false} MemoryJoin(buffers: seq<seq<Byte>>, parts: seq<Part>, p: Part)
    ensures Memory(buffers, parts + [p]) == Memory(buffers, parts) + PartBytes(buffers, p)
  {
    assert (parts + [p])[..|parts|] == parts;
  }

  lemma {:induction false} WholeChunk(n: nat, chunks: seq<seq<Byte>>, i: nat)
    requires Even(n, chunks) && i < |chunks|
    ensures Start(n, i) <= Start(n, i + 1) <= |Concat(chunks)|
    ensures PartBytes(chunks, Part(i, 0, n)) == Concat(chunks)[Start(n, i)..Start(n, i + 1)]
  {
    ConcatSlice(n, chunks, Index(i, 0), n);
  }

  // The parts are the bytes from position w to the start of chunk i.
  ghost predicate Covers(n: nat, chunks: seq<seq<Byte>>, parts: seq<Part>, w: nat, i: nat) {
    && w <= Start(n, i) <= |Concat(chunks)|
    && Memory(chunks, parts) == Concat(chunks)[w..Start(n, i)]
    && forall p :: p in parts ==> InChain(chunks, p)
  }

  // The next chunk continues where the bytes before it end.
  lemma {:induction false} NextPart(n: nat, chunks: seq<seq<Byte>>, parts: seq<Part>, w: nat, i: nat)
    requires Even(n, chunks) && i < |chunks| && Covers(n, chunks, parts, w, i)
    ensures Covers(n, chunks, parts + [Part(i, 0, n)], w, i + 1)
  {
    WholeChunk(n, chunks, i);
    MemoryJoin(chunks, parts, Part(i, 0, n));
    SliceJoin(Concat(chunks), w, Start(n, i), Start(n, i + 1));
  }

  lemma {:induction false} FirstPart(n: nat, chunks: seq<seq<Byte>>, i: Index)
    requires Even(n, chunks) && i.first < |chunks| && i.second < n
    ensures Covers(n, chunks, [Part(i.first, i.second, n - i.second)], Pos(n, i), i.first + 1)
  {
    ConcatSlice(n, chunks, i, n - i.second);
    assert [] + [Part(i.first, i.second, n - i.second)] == [Part(i.first, i.second, n - i.second)];
    MemoryJoin(chunks, [], Part(i.first, i.second, n - i.second));
  }

  lemma {:induction false} CoversRest(n: nat, chunks: seq<seq<Byte>>, parts: seq<Part>, w: nat)
    requires Covers(n, chunks, parts, w, |chunks|) && |Concat(chunks)| == Start(n, |chunks|)
    ensures Memory(chunks, parts) == Concat(chunks)[w..]
  {
  }

  // The chunks from the given one on.
  method WholeParts(n: nat, chunks: seq<seq<Byte>>, first: Part, from: nat, ghost w: nat) returns (parts: seq<Part>)
    requires Even(n, chunks) && from <= |chunks| && Covers(n, chunks, [first], w, from)
    ensures Covers(n, chunks, parts, w, |chunks|)
  {
    parts := [first];
    for i := from to |chunks|
      invariant Covers(n, chunks, parts, w, i)
    {
      NextPart(n, chunks, parts, w, i);
      parts := parts + [Part(i, 0, n)];
    }
  }

  // The rest of the chunk at the index, and the chunks after it.
  method PartsFrom(n: nat, chunks: seq<seq<Byte>>, at: Index) returns (parts: seq<Part>)
    requires Even(n, chunks) && |Concat(chunks)| == Start(n, |chunks|) && at.first < |chunks| && at.second < n
    ensures Pos(n, at) <= |Concat(chunks)| && Memory(chunks, parts) == Concat(chunks)[Pos(n, at)..]
    ensures forall p :: p in parts ==> InChain(chunks, p)
  {
    FirstPart(n, chunks, at);
    parts := WholeParts(n, chunks, Part(at.first, at.second, n - at.second), at.first + 1, Pos(n, at));
    CoversRest(n, chunks, parts, Pos(n, at));
  }

  function WriteByte(buffers: seq<seq<Byte>>, at: Index, b: Byte): seq<seq<Byte>>
    requires at.first < |buffers| && at.second < |buffers[at.first]|
  {
    var c: seq<Byte> := buffers[at.first][at.second := b];
    buffers[at.first := c]
  }

  lemma {:induction false} Overwrite(was: seq<Byte>, first: seq<Byte>, w: nat, data: seq<Byte>, j: nat)
    requires j < |data| && w + |data| <= |first| == |was|
    requires was[..w] == first[..w] && was[w..] == data[..j] + first[w + j..]
    ensures was[w + j := data[j]][..w] == first[..w]
    ensures was[w + j := data[j]][w..] == data[..j + 1] + first[w + j + 1..]
  {
    assert was[w + j := data[j]][w..] == was[w..][j := data[j]];
  }

  // The first j bytes of the data are in place from position w on.
  ghost predicate Filled(n: nat, chunks: seq<seq<Byte>>, first: seq<Byte>, w: nat, data: seq<Byte>, j: nat, at: Index) {
    && Even(n, chunks) && j <= |data| && w + |data| <= |first| == |Concat(chunks)| == Start(n, |chunks|)
    && at.second < n && Pos(n, at) == w + j
    && Concat(chunks)[..w] == first[..w]
    && Concat(chunks)[w..] == data[..j] + first[w + j..]
  }

  lemma {:induction false} FillNext(
    n: nat, chunks: seq<seq<Byte>>, first: seq<Byte>, w: nat, data: seq<Byte>, j: nat, at: Index)
    requires Filled(n, chunks, first, w, data, j, at) && j < |data|
    ensures at.first < |chunks| && |chunks[at.first]| == n
    ensures Filled(n, WriteByte(chunks, at, data[j]), first, w, data, j + 1, Advance(n, at, 1))
  {
    WithinBack(n, at, |chunks|);
    ConcatWrite(n, chunks, at, data[j]);
    Overwrite(Concat(chunks), first, w, data, j);
    AdvanceMoves(n, at, 1);
  }

  lemma {:induction false} FilledAll(n: nat, chunks: seq<seq<Byte>>, first: seq<Byte>, r: nat, w: nat, data: seq<Byte>, at: Index)
    requires Filled(n, chunks, first, w, data, |data|, at) && r <= w
    ensures Concat(chunks)[r..w] == first[r..w] && Concat(chunks)[w..] == data + first[w..][|data|..]
  {
    assert Concat(chunks)[r..w] == Concat(chunks)[..w][r..] && first[r..w] == first[..w][r..];
    assert first[w..][|data|..] == first[w + |data|..] && data[..|data|] == data;
  }

  lemma {:induction false} Enough(n: nat, bytes: nat)
    requires n > 0
    ensures bytes < Start(n, bytes / n + 1)
  {
    StartIsProduct(n, bytes / n);
  }

  lemma {:induction false} WriteMoved(first: seq<Byte>, now: seq<Byte>, r: nat, w: nat, bytes: nat)
    requires r <= w <= |first| && first <= now && w + bytes <= |now|
    ensures first[r..w] <= now[r..w + bytes]
    ensures w + bytes <= |first| ==> now[r..w + bytes] == first[r..w] + first[w..][..bytes]
  {
    SliceJoin(now, r, w, w + bytes);
    assert now[r..w] == first[r..w];
    if w + bytes <= |first| {
      assert now[w..w + bytes] == first[w..][..bytes];
    }
  }

  lemma {:induction false} TakeTwice(s: seq<Byte>, a: nat, b: nat)
    requires a + b <= |s|
    ensures s[..a] + s[a..][..b] == s[..a + b] && s[a..][b..] == s[a + b..]
  {
  }

  lemma {:induction false} Spread(a: int, b: int, n: nat)
    ensures (a - b) * n == a * n - b * n
  {
  }

  lemma {:induction false} Grown(n: nat, chunks: seq<seq<Byte>>, c: seq<Byte>)
    requires Even(n, chunks) && |c| == n
    ensures Even(n, chunks + [c]) && Concat(chunks + [c]) == Concat(chunks) + c
    ensures |Concat(chunks + [c])| == Start(n, |chunks + [c]|)
  {
    ConcatJoin(chunks, [c]);
    assert [c][1..] == [] && Concat([c]) == c;
    ConcatLength(n, chunks + [c]);
  }

  // A position in one of the chunks, and only such a position, is below the end of the last chunk.
  lemma {:induction false} Within(n: nat, i: Index, chunks: nat)
    requires i.second < n && i.first < chunks
    ensures Pos(n, i) < Start(n, chunks)
  {
    PosOrder(n, i, Index(chunks, 0));
  }

  lemma {:induction false} WithinBack(n: nat, i: Index, chunks: nat)
    requires i.second < n && Pos(n, i) < Start(n, chunks)
    ensures i.first < chunks
  {
    if chunks <= i.first {
      StartAdds(n, chunks, i.first - chunks);
    }
  }

  lemma {:induction false} SameOrLess(n: nat, i: Index, j: Index)
    requires i.second < n && j.second < n && Pos(n, i) <= Pos(n, j)
    ensures i.first <= j.first && (i == j <==> Pos(n, i) == Pos(n, j))
  {
    if j.first < i.first {
      PosOrder(n, j, i);
    }
    if Pos(n, i) == Pos(n, j) {
      PosUnique(n, i, j);
    }
  }
}
