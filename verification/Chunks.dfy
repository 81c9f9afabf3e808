/** A chain of chunks of equal length read as one sequence of bytes. */
module Chunks {
  // The chunk in the chain, and the byte in the chunk.
  datatype Index = Index(first: nat, second: nat)

  // Where a chunk starts: k chunks of n bytes come before it.
  function Start(n: nat, k: nat): nat {
    if k == 0 then 0 else Start(n, k - 1) + n
  }

  function Pos(n: nat, i: Index): nat {
    Start(n, i.first) + i.second
  }

  // advance_index
  function Advance(n: nat, i: Index, bytes: nat): Index
    requires n > 0
  {
    Index(i.first + (bytes + i.second) / n, (bytes + i.second) % n)
  }

  function Concat<T>(chunks: seq<seq<T>>): seq<T> {
    if chunks == [] then [] else chunks[0] + Concat(chunks[1..])
  }

  ghost predicate Even<T>(n: nat, chunks: seq<seq<T>>) {
    forall i :: 0 <= i < |chunks| ==> |chunks[i]| == n
  }

  // ---------- positions ----------

  lemma {:induction false} StartIsProduct(n: nat, k: nat)
    ensures Start(n, k) == k * n
    decreases k
  {
    if k > 0 {
      StartIsProduct(n, k - 1);
    }
  }

  lemma {:induction false} StartAdds(n: nat, a: nat, b: nat)
    ensures Start(n, a + b) == Start(n, a) + Start(n, b)
    decreases b
  {
    if b > 0 {
      StartAdds(n, a, b - 1);
    }
  }

  lemma {:induction false} AdvanceMoves(n: nat, i: Index, bytes: nat)
    requires n > 0
    ensures Pos(n, Advance(n, i, bytes)) == Pos(n, i) + bytes && Advance(n, i, bytes).second < n
  {
    var q := (bytes + i.second) / n;
    StartIsProduct(n, q);
    StartAdds(n, i.first, q);
  }

  // Positions are in the order of the indexes.
  lemma {:induction false} PosOrder(n: nat, i: Index, j: Index)
    requires i.second < n && i.first < j.first
    ensures Pos(n, i) < Start(n, j.first) <= Pos(n, j)
  {
    StartAdds(n, i.first + 1, j.first - i.first - 1);
  }

  lemma {:induction false} PosUnique(n: nat, i: Index, j: Index)
    requires i.second < n && j.second < n && Pos(n, i) == Pos(n, j)
    ensures i == j
  {
    if i.first < j.first {
      PosOrder(n, i, j);
    } else if j.first < i.first {
      PosOrder(n, j, i);
    }
  }

  // ---------- stretches of bytes ----------

  lemma {:induction false} SliceJoin<T>(s: seq<T>, a: nat, b: nat, c: nat)
    requires a <= b <= c <= |s|
    ensures s[a..b] + s[b..c] == s[a..c]
  {
  }

  lemma {:induction false} SliceTake<T>(s: seq<T>, a: nat, b: nat, size: nat)
    requires a + size <= b <= |s|
    ensures s[a..b][..size] == s[a..a + size] && s[a..b][size..] == s[a + size..b]
  {
  }

  // A stretch of what is left when the first bytes are dropped.
  lemma {:induction false} SliceDropped<T>(s: seq<T>, drop: nat, a: nat, b: nat)
    requires drop + a <= drop + b <= |s|
    ensures s[drop..][a..b] == s[drop + a..drop + b] && s[drop..][b..] == s[drop + b..]
  {
  }

  // ---------- chunks ----------

  lemma {:induction false} ConcatLength<T>(n: nat, chunks: seq<seq<T>>)
    requires Even(n, chunks)
    ensures |Concat(chunks)| == Start(n, |chunks|)
    decreases |chunks|
  {
    if chunks != [] {
      ConcatLength(n, chunks[1..]);
      StartAdds(n, 1, |chunks| - 1);
    }
  }

  lemma {:induction false} ConcatJoin<T>(a: seq<seq<T>>, b: seq<seq<T>>)
    ensures Concat(a + b) == Concat(a) + Concat(b)
    decreases |a|
  {
    if a == [] {
      assert a + b == b;
    } else {
      assert (a + b)[1..] == a[1..] + b;
      ConcatJoin(a[1..], b);
    }
  }

  // Dropping chunks drops their bytes.
  lemma {:induction false} ConcatDrop<T>(n: nat, chunks: seq<seq<T>>, k: nat)
    requires Even(n, chunks) && k <= |chunks|
    ensures Start(n, k) <= |Concat(chunks)| && Concat(chunks[k..]) == Concat(chunks)[Start(n, k)..]
  {
    assert chunks == chunks[..k] + chunks[k..];
    ConcatJoin(chunks[..k], chunks[k..]);
    ConcatLength(n, chunks[..k]);
  }

  // A stretch of bytes within one chunk.
  lemma {:induction false} ConcatSlice<T>(n: nat, chunks: seq<seq<T>>, i: Index, size: nat)
    requires Even(n, chunks) && i.first < |chunks| && i.second + size <= n
    ensures Pos(n, i) + size <= |Concat(chunks)|
    ensures chunks[i.first][i.second..i.second + size] == Concat(chunks)[Pos(n, i)..Pos(n, i) + size]
  {
    ConcatDrop(n, chunks, i.first);
    var rest := chunks[i.first..];
    assert Concat(rest) == chunks[i.first] + Concat(rest[1..]);
    var flat := Concat(chunks);
    assert flat[Pos(n, i)..Pos(n, i) + size] == flat[Start(n, i.first)..][i.second..i.second + size];
  }

  // Writing a byte into a chunk.
  lemma {:induction false} ConcatWrite<T>(n: nat, chunks: seq<seq<T>>, i: Index, b: T)
    requires Even(n, chunks) && i.first < |chunks| && i.second < n
    ensures Pos(n, i) < |Concat(chunks)|
    ensures Concat(chunks[i.first := chunks[i.first][i.second := b]]) == Concat(chunks)[Pos(n, i) := b]
  {
    var head, tail := chunks[..i.first], chunks[i.first + 1..];
    var c := chunks[i.first];
    assert chunks == head + [c] + tail;
    assert chunks[i.first := c[i.second := b]] == head + [c[i.second := b]] + tail;
    ConcatThree(head, c, tail);
    ConcatThree(head, c[i.second := b], tail);
    ConcatLength(n, head);
  }

  lemma {:induction false} ConcatThree<T>(head: seq<seq<T>>, c: seq<T>, tail: seq<seq<T>>)
    ensures Concat(head + [c] + tail) == Concat(head) + c + Concat(tail)
  {
    ConcatJoin(head + [c], tail);
    ConcatJoin(head, [c]);
    assert [c][1..] == [] && Concat([c]) == c;
  }
}
