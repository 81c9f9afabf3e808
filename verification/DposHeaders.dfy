/** How headers follow each other (block_header_state.cpp): each new block confirms itself and some
    blocks before it, and a block with confirmations from more than two thirds of the producers is
    proposed to be irreversible. Blocks are numbered from 0 here, in the order they were made. */
module DposHeaders {

  const MAX_TRACKED := 1024

  // A block made by a producer, confirming the given number of blocks before it, and the confirmations
  // it needs itself.
  datatype Block = Block(producer: nat, confirmed: nat, required: nat)

  // ---------- confirmations counted from scratch ----------

  predicate Confirms(blocks: seq<Block>, i: nat, j: nat)
    requires i < |blocks|
  {
    i - blocks[i].confirmed <= j <= i
  }

  function Confirmations(blocks: seq<Block>, j: nat): nat {
    if |blocks| <= j then 0
    else
      var n := |blocks| - 1;
      Confirmations(blocks[..n], j) + (if Confirms(blocks, n, j) then 1 else 0)
  }

  // ---------- the counters the headers carry ----------

  // What is still missing for the last blocks, the newest last; and the newest block proposed, -1 if none.
  datatype Counters = Counters(missing: seq<nat>, proposed: int)

  function Grown(missing: seq<nat>, required: nat): seq<nat> {
    if |missing| < MAX_TRACKED then missing + [required] else missing[1..] + [required]
  }

  // Decrementing a byte; no entry is ever zero.
  function Decremented(x: nat): nat {
    if x == 0 then 255 else x - 1
  }

  function Lowered(missing: seq<nat>, from: nat): seq<nat> {
    seq(|missing|, t requires 0 <= t < |missing| => if t >= from then Decremented(missing[t]) else missing[t])
  }

  // The newest entry, from `from` on and below `i`, that only lacks one confirmation.
  function LastOne(missing: seq<nat>, from: nat, i: nat): int
    requires i <= |missing|
  {
    if i <= from then -1 else if missing[i - 1] == 1 then i - 1 else LastOne(missing, from, i - 1)
  }

  function First(size: nat, confirmed: nat): nat {
    if size <= confirmed + 1 then 0 else size - 1 - confirmed
  }

  // set_confirmed, for the head block with index `head`
  function Confirm(c: Counters, confirmed: nat, head: nat): Counters {
    var from := First(|c.missing|, confirmed);
    var hit := LastOne(c.missing, from, |c.missing|);
    var lowered := Lowered(c.missing, from);
    if hit < 0 || hit >= |lowered| then Counters(lowered, c.proposed)
    else Counters(lowered[hit + 1..], head - (|c.missing| - 1 - hit))
  }

  function NextCounters(c: Counters, b: Block, head: nat): Counters {
    Confirm(c.(missing := Grown(c.missing, b.required)), b.confirmed, head)
  }

  function CountersOf(blocks: seq<Block>): Counters {
    if blocks == [] then Counters([], -1)
    else
      var n := |blocks| - 1;
      NextCounters(CountersOf(blocks[..n]), blocks[n], n)
  }

  // ---------- they agree ----------

  // Entry t stands for block n - |missing| + t.
  ghost predicate TracksAt(blocks: seq<Block>, missing: seq<nat>, t: nat)
    requires |missing| <= |blocks|
  {
    t < |missing| ==>
      var j := |blocks| - |missing| + t;
      missing[t] > 0 && missing[t] + Confirmations(blocks, j) == blocks[j].required
  }

  ghost predicate Tracks(blocks: seq<Block>, c: Counters) {
    && |c.missing| <= |blocks| && |c.missing| <= MAX_TRACKED
    && forall t {:trigger TracksAt(blocks, c.missing, t)} :: TracksAt(blocks, c.missing, t)
  }

  // Nothing newer than the proposed block is left out, but for what is too old.
  ghost predicate Complete(blocks: seq<Block>, c: Counters) {
    && -1 <= c.proposed < |blocks| - |c.missing|
    && (|c.missing| == MAX_TRACKED || |blocks| - |c.missing| == c.proposed + 1)
    && (c.proposed >= 0 ==> Confirmations(blocks, c.proposed) >= blocks[c.proposed].required)
  }

  lemma {:induction false} ConfirmationsNext(blocks: seq<Block>, b: Block, j: nat)
    ensures Confirmations(blocks + [b], j)
         == Confirmations(blocks, j) + (if |blocks| - b.confirmed <= j <= |blocks| then 1 else 0)
  {
    assert (blocks + [b])[..|blocks|] == blocks;
    if |blocks| <= j {
      NotYet(blocks, j);
    }
  }

  lemma {:induction false} NotYet(blocks: seq<Block>, j: nat)
    requires |blocks| <= j
    ensures Confirmations(blocks, j) == 0
  {
  }

  lemma {:induction false} LastOneIs(missing: seq<nat>, from: nat, i: nat)
    requires i <= |missing|
    ensures var h := LastOne(missing, from, i);
            && -1 <= h < i && (h >= 0 ==> h >= from && missing[h] == 1)
            && forall t :: h < t < i && t >= from ==> missing[t] != 1
    decreases i
  {
    if i > from && missing[i - 1] != 1 {
      LastOneIs(missing, from, i - 1);
    }
  }

  lemma {:induction false} GrownTracks(blocks: seq<Block>, c: Counters, b: Block)
    requires Tracks(blocks, c) && b.required > 0
    ensures var g := Grown(c.missing, b.required);
            && |g| <= |blocks| + 1 && |g| <= MAX_TRACKED
            && forall t :: 0 <= t < |g| ==>
                 g[t] > 0 && g[t] + Confirmations(blocks, |blocks| + 1 - |g| + t) == (blocks + [b])[|blocks| + 1 - |g| + t].required
  {
    var g := Grown(c.missing, b.required);
    NotYet(blocks, |blocks|);
    forall t | 0 <= t < |g|
      ensures g[t] > 0 && g[t] + Confirmations(blocks, |blocks| + 1 - |g| + t) == (blocks + [b])[|blocks| + 1 - |g| + t].required
    {
      var s := if |c.missing| < MAX_TRACKED then t else t + 1;
      assert s < |c.missing| ==> TracksAt(blocks, c.missing, s);
    }
  }

  lemma {:induction false} LoweredTracks(blocks: seq<Block>, b: Block, g: seq<nat>, s: nat)
    requires s < |g| <= |blocks| + 1 && g[s] > 0
    requires g[s] + Confirmations(blocks, |blocks| + 1 - |g| + s) == (blocks + [b])[|blocks| + 1 - |g| + s].required
    ensures Lowered(g, First(|g|, b.confirmed))[s] + Confirmations(blocks + [b], |blocks| + 1 - |g| + s)
         == (blocks + [b])[|blocks| + 1 - |g| + s].required
  {
    ConfirmationsNext(blocks, b, |blocks| + 1 - |g| + s);
  }

  lemma {:induction false} HitComplete(blocks: seq<Block>, b: Block, g: seq<nat>, hit: nat, d: Counters)
    requires |g| <= |blocks| + 1 && hit < |g| && g[hit] == 1 && First(|g|, b.confirmed) <= hit
    requires g[hit] + Confirmations(blocks, |blocks| + 1 - |g| + hit) == (blocks + [b])[|blocks| + 1 - |g| + hit].required
    requires |d.missing| == |g| - hit - 1 && d.proposed == |blocks| - (|g| - 1 - hit)
    ensures Complete(blocks + [b], d)
  {
    ConfirmationsNext(blocks, b, |blocks| + 1 - |g| + hit);
  }

  lemma {:induction false} MissComplete(blocks: seq<Block>, c: Counters, b: Block, d: Counters)
    requires Complete(blocks, c) && |c.missing| <= MAX_TRACKED && d.proposed == c.proposed
    requires |d.missing| == if |c.missing| < MAX_TRACKED then |c.missing| + 1 else |c.missing|
    ensures Complete(blocks + [b], d)
  {
    if c.proposed >= 0 {
      ConfirmationsNext(blocks, b, c.proposed);
    }
  }

  // The newest entry that lacks one confirmation is the block proposed, and all up to it is dropped.
  lemma {:induction false} NextShape(c: Counters, b: Block, head: nat, g: seq<nat>, hit: int)
    requires g == Grown(c.missing, b.required) && hit == LastOne(g, First(|g|, b.confirmed), |g|)
    ensures var d := NextCounters(c, b, head);
            if hit < 0 then |d.missing| == |g| && d.proposed == c.proposed
            else hit < |g| && |d.missing| == |g| - hit - 1 && d.proposed == head - (|g| - 1 - hit)
  {
    LastOneIs(g, First(|g|, b.confirmed), |g|);
  }

  lemma {:induction false} NextTracks(blocks: seq<Block>, c: Counters, b: Block)
    requires Tracks(blocks, c) && b.required > 0
    ensures Tracks(blocks + [b], NextCounters(c, b, |blocks|))
  {
    var g := Grown(c.missing, b.required);
    var hit := LastOne(g, First(|g|, b.confirmed), |g|);
    var d := NextCounters(c, b, |blocks|);
    GrownTracks(blocks, c, b);
    NextShape(c, b, |blocks|, g, hit);
    LastOneIs(g, First(|g|, b.confirmed), |g|);
    forall t: nat ensures TracksAt(blocks + [b], d.missing, t) {
      if t < |d.missing| {
        LoweredTracks(blocks, b, g, if hit < 0 then t else hit + 1 + t);
      }
    }
  }

  lemma {:induction false} NextComplete(blocks: seq<Block>, c: Counters, b: Block)
    requires Tracks(blocks, c) && Complete(blocks, c) && b.required > 0
    ensures Complete(blocks + [b], NextCounters(c, b, |blocks|))
  {
    var g := Grown(c.missing, b.required);
    var hit := LastOne(g, First(|g|, b.confirmed), |g|);
    NextShape(c, b, |blocks|, g, hit);
    if hit >= 0 {
      GrownTracks(blocks, c, b);
      LastOneIs(g, First(|g|, b.confirmed), |g|);
      HitComplete(blocks, b, g, hit, NextCounters(c, b, |blocks|));
    } else {
      MissComplete(blocks, c, b, NextCounters(c, b, |blocks|));
    }
  }

  ghost predicate AllNeedSome(blocks: seq<Block>) {
    forall i :: 0 <= i < |blocks| ==> blocks[i].required > 0
  }

  /** In every chain: what the counters say is missing is what is needed less the confirmations counted
      from scratch. */
  lemma {:induction false} CountersAgree(blocks: seq<Block>)
    requires AllNeedSome(blocks)
    ensures Tracks(blocks, CountersOf(blocks)) && Complete(blocks, CountersOf(blocks))
    decreases |blocks|
  {
    if blocks != [] {
      var n := |blocks| - 1;
      assert blocks == blocks[..n] + [blocks[n]];
      CountersAgree(blocks[..n]);
      NextTracks(blocks[..n], CountersOf(blocks[..n]), blocks[n]);
      NextComplete(blocks[..n], CountersOf(blocks[..n]), blocks[n]);
    }
  }

  /** In every chain: the proposed block has all the confirmations it needs, and no newer block has,
      among those not too old to be tracked. */
  lemma {:induction false} ProposedIsNewest(blocks: seq<Block>, j: nat)
    requires AllNeedSome(blocks) && j < |blocks|
    ensures var p := CountersOf(blocks).proposed;
            && (p >= 0 ==> p < |blocks| && Confirmations(blocks, p) >= blocks[p].required)
            && (|blocks| - MAX_TRACKED <= j && Confirmations(blocks, j) >= blocks[j].required ==> j <= p)
  {
    CountersAgree(blocks);
    var c := CountersOf(blocks);
    var t := j - (|blocks| - |c.missing|);
    if t >= 0 {
      assert TracksAt(blocks, c.missing, t);
    }
  }

  // Proposals only move forward.
  lemma {:induction false} ProposedGrows(blocks: seq<Block>, b: Block)
    requires AllNeedSome(blocks + [b])
    ensures CountersOf(blocks).proposed <= CountersOf(blocks + [b]).proposed
  {
    assert (blocks + [b])[..|blocks|] == blocks;
    assert forall i :: 0 <= i < |blocks| ==> blocks[i] == (blocks + [b])[i];
    CountersAgree(blocks);
    var c := CountersOf(blocks);
    var g := Grown(c.missing, b.required);
    LastOneIs(g, First(|g|, b.confirmed), |g|);
  }

  // ---------- confirmations are by different producers ----------

  // A producer confirms no block it produced or confirmed before.
  ghost predicate NoDoubleConfirm(blocks: seq<Block>) {
    forall i, k :: 0 <= i < k < |blocks| && blocks[i].producer == blocks[k].producer ==> i < k - blocks[k].confirmed
  }

  function Confirmers(blocks: seq<Block>, j: nat): set<nat> {
    set i | 0 <= i < |blocks| && Confirms(blocks, i, j) :: blocks[i].producer
  }

  lemma {:induction false} ConfirmersNext(blocks: seq<Block>, n: nat, j: nat)
    requires n + 1 == |blocks|
    ensures Confirmers(blocks, j)
         == Confirmers(blocks[..n], j) + (if Confirms(blocks, n, j) then {blocks[n].producer} else {})
  {
    var front := blocks[..n];
    forall i | 0 <= i < n ensures (Confirms(blocks, i, j) <==> Confirms(front, i, j)) && blocks[i] == front[i] {
    }
  }

  lemma {:induction false} NewConfirmer(blocks: seq<Block>, n: nat, j: nat)
    requires NoDoubleConfirm(blocks) && n + 1 == |blocks| && Confirms(blocks, n, j)
    ensures blocks[n].producer !in Confirmers(blocks[..n], j)
  {
    var front := blocks[..n];
    forall i | 0 <= i < n && Confirms(front, i, j) ensures front[i].producer != blocks[n].producer {
      assert blocks[i] == front[i];
    }
  }

  /** Then the confirmations of a block come from as many different producers. */
  lemma {:induction false} ConfirmersDiffer(blocks: seq<Block>, j: nat)
    requires NoDoubleConfirm(blocks)
    ensures |Confirmers(blocks, j)| == Confirmations(blocks, j)
    decreases |blocks|
  {
    if |blocks| <= j {
      assert Confirmers(blocks, j) == {};
    } else {
      var n := |blocks| - 1;
      ConfirmersNext(blocks, n, j);
      ConfirmersDiffer(blocks[..n], j);
      if Confirms(blocks, n, j) {
        NewConfirmer(blocks, n, j);
      }
    }
  }

  // ---------- the code ----------

  // The loop of set_confirmed
  method SetConfirmed(missing: seq<nat>, proposed: int, confirmed: nat, head: nat) returns (m: seq<nat>, p: int)
    ensures Counters(m, p) == Confirm(Counters(missing, proposed), confirmed, head)
  {
    m, p := missing, proposed;
    var i := |m| - 1;
    var blocksToConfirm := confirmed + 1;
    ghost var from := First(|missing|, confirmed);
    while i >= 0 && blocksToConfirm > 0
      invariant -1 <= i < |missing| == |m| && blocksToConfirm == confirmed + 1 - (|missing| - 1 - i) >= 0
      invariant forall t :: 0 <= t < |m| ==> m[t] == if t > i then Decremented(missing[t]) else missing[t]
      invariant LastOne(missing, from, |missing|) == LastOne(missing, from, i + 1) && i + 1 >= from
    {
      m := m[i := Decremented(m[i])];
      if m[i] == 0 {
        p := head - (|m| - 1 - i);
        assert m[i + 1..] == Lowered(missing, from)[i + 1..];
        m := m[i + 1..];
        return;
      }
      i := i - 1;
      blocksToConfirm := blocksToConfirm - 1;
    }
    assert m == Lowered(missing, from);
  }
}
