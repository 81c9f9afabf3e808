/** Chains of headers (block_header_state.cpp) with changes of schedule: the last irreversible number
    never falls while a schedule stays, and falls after a change exactly when too many of the new
    producers lag behind. */
module DposChain {
  import opened Options
  import opened Quorums
  import opened Dpos
  import opened DposHeaders

  // A signed header: who made it, how many blocks before it are confirmed, and the schedule it announces.
  datatype Signed = Signed(producer: nat, confirmed: nat, announces: Option<set<nat>>)

  /** The state after a header: how many blocks were made since the first, the counters, the last block
      of each producer and what it implied, the last irreversible number, and the schedules. */
  datatype Header = Header(
    made: nat,
    counters: Counters,
    produced: map<nat, nat>,
    implied: map<nat, nat>,
    irreversible: nat,
    active: set<nat>,
    pending: set<nat>,
    pendingFrom: nat)

  // The first block has number 1, and what follows is numbered on; 0 is no block.
  function Number(index: nat): nat {
    index + 2
  }

  function Genesis(initial: set<nat>): Header {
    Header(0, Counters([], -1), map[], map[], 0, initial, initial, 0)
  }

  function Proposed(h: Header): nat {
    if h.counters.proposed < 0 then 0 else Number(h.counters.proposed)
  }

  // Block numbers are unsigned 32-bit values.
  function Difference(a: nat, b: nat): nat {
    (a - b) % 0x1_0000_0000
  }

  function BlockOf(h: Header, s: Signed): Block {
    Block(s.producer, s.confirmed, Quorum(|h.active|))
  }

  // A producer new to the schedule gets the last irreversible number.
  function Promoted(m: map<nat, nat>, schedule: set<nat>, l: nat): map<nat, nat> {
    map p | p in schedule :: if p in m then m[p] else l
  }

  // maybe_promote_pending
  predicate Promotes(h: Header, irreversible: nat) {
    h.pending != {} && irreversible >= h.pendingFrom
  }

  /** next: the producer is scheduled, does not confirm what it may have confirmed before, and implies
      what was proposed before its block. */
  ghost predicate Follows(h: Header, s: Signed, g: Header) {
    var implied := h.implied[s.producer := Proposed(h)];
    var produced := h.produced[s.producer := Number(h.made)];
    && s.producer in h.active
    && (s.producer in h.produced ==> h.produced[s.producer] < Difference(Number(h.made), s.confirmed))
    && g.made == h.made + 1
    && g.counters == NextCounters(h.counters, BlockOf(h, s), h.made)
    && IsIrreversible(implied, g.irreversible)
    && if Promotes(h, g.irreversible) then
         && s.announces.None?
         && g.active == h.pending && g.pending == {} && g.pendingFrom == h.pendingFrom
         && g.implied == Promoted(implied, h.pending, g.irreversible)
         && g.produced == Promoted(produced, h.pending, g.irreversible)[s.producer := Number(h.made)]
       else
         && g.active == h.active && g.implied == implied && g.produced == produced
         && match s.announces
            case None => g.pending == h.pending && g.pendingFrom == h.pendingFrom
            case Some(schedule) => h.pending == {} && g.pending == schedule && g.pendingFrom == Number(h.made)
  }

  ghost predicate Chain(initial: set<nat>, hs: seq<Header>, ss: seq<Signed>) {
    && |hs| == |ss| + 1 && initial != {} && hs[0] == Genesis(initial)
    && forall i {:trigger ss[i]} :: 0 <= i < |ss| ==> Follows(hs[i], ss[i], hs[i + 1])
  }

  function Blocks(hs: seq<Header>, ss: seq<Signed>): seq<Block>
    requires |hs| == |ss| + 1
  {
    seq(|ss|, i requires 0 <= i < |ss| => BlockOf(hs[i], ss[i]))
  }

  lemma {:induction false} BlocksNeedSome(hs: seq<Header>, ss: seq<Signed>, i: nat)
    requires |hs| == |ss| + 1 && i <= |ss|
    ensures AllNeedSome(Blocks(hs, ss)[..i])
  {
  }

  lemma {:induction false} FollowsCounts(h: Header, s: Signed, g: Header)
    requires Follows(h, s, g)
    ensures g.made == h.made + 1 && g.counters == NextCounters(h.counters, BlockOf(h, s), h.made)
  {
  }

  lemma {:induction false} CountersNext(blocks: seq<Block>, n: nat)
    requires n < |blocks|
    ensures CountersOf(blocks[..n + 1]) == NextCounters(CountersOf(blocks[..n]), blocks[n], n)
  {
    assert blocks[..n + 1][..n] == blocks[..n];
  }

  lemma {:induction false} ChainCounters(initial: set<nat>, hs: seq<Header>, ss: seq<Signed>, i: nat)
    requires Chain(initial, hs, ss) && i <= |ss|
    ensures hs[i].made == i && hs[i].counters == CountersOf(Blocks(hs, ss)[..i])
    decreases i
  {
    if i > 0 {
      var n := i - 1;
      ChainCounters(initial, hs, ss, n);
      FollowsCounts(hs[n], ss[n], hs[n + 1]);
      CountersNext(Blocks(hs, ss), n);
    }
  }

  lemma {:induction false} ProposedAlong(blocks: seq<Block>, i: nat)
    requires i < |blocks| && AllNeedSome(blocks[..i + 1])
    ensures CountersOf(blocks[..i]).proposed <= CountersOf(blocks[..i + 1]).proposed
  {
    assert blocks[..i + 1] == blocks[..i] + [blocks[i]];
    ProposedGrows(blocks[..i], blocks[i]);
  }

  lemma {:induction false} ChainProposed(initial: set<nat>, hs: seq<Header>, ss: seq<Signed>, i: nat)
    requires Chain(initial, hs, ss) && i < |ss|
    ensures Proposed(hs[i]) <= Proposed(hs[i + 1])
  {
    ChainCounters(initial, hs, ss, i);
    ChainCounters(initial, hs, ss, i + 1);
    BlocksNeedSome(hs, ss, i + 1);
    ProposedAlong(Blocks(hs, ss), i);
  }

  // ---------- nobody implies more than was proposed ----------

  ghost predicate Bounded(h: Header) {
    h.irreversible <= Proposed(h) && forall p :: p in h.implied ==> h.implied[p] <= Proposed(h)
  }

  lemma {:induction false} SubsetCount(a: set<nat>, b: set<nat>)
    requires a <= b
    ensures |a| <= |b|
  {
    assert |b| == |a| + |b - a| by { assert b == a + (b - a); }
  }

  lemma {:induction false} IrreversibleImplied(m: map<nat, nat>, l: nat, bound: nat)
    requires IsIrreversible(m, l) && forall p :: p in m ==> m[p] <= bound
    ensures l <= bound
  {
    if |m| != 0 {
      assert l >= l;
      assert Reaching(m, l) != {};
      var p :| p in Reaching(m, l);
      assert m[p] >= l;
    }
  }

  lemma {:induction false} NextBounded(h: Header, s: Signed, g: Header)
    requires Bounded(h) && Follows(h, s, g) && Proposed(h) <= Proposed(g)
    ensures Bounded(g)
  {
    IrreversibleImplied(h.implied[s.producer := Proposed(h)], g.irreversible, Proposed(h));
  }

  lemma {:induction false} ChainBounded(initial: set<nat>, hs: seq<Header>, ss: seq<Signed>, i: nat)
    requires Chain(initial, hs, ss) && i <= |ss|
    ensures Bounded(hs[i])
    decreases i
  {
    if i > 0 {
      ChainBounded(initial, hs, ss, i - 1);
      ChainProposed(initial, hs, ss, i - 1);
      assert Follows(hs[i - 1], ss[i - 1], hs[i]);
      NextBounded(hs[i - 1], ss[i - 1], hs[i]);
    }
  }

  // ---------- one more block ----------

  // The producers that implied less than l.
  function Behind(m: map<nat, nat>, l: nat): set<nat> {
    set p | p in m && m[p] < l
  }

  lemma {:induction false} BehindCounts(m: map<nat, nat>, l: nat)
    ensures |Reaching(m, l)| + |Behind(m, l)| == |m|
  {
    assert m.Keys == Reaching(m, l) + Behind(m, l);
  }

  lemma {:induction false} KeptIff(m: map<nat, nat>, l: nat, k: nat)
    requires |m| != 0 && IsIrreversible(m, k)
    ensures k >= l <==> |Behind(m, l)| <= (|m| - 1) / 3
  {
    BehindCounts(m, l);
    ThirdInto(|m|);
  }

  /** The producers that count in the next block, other than the one that makes it, and that implied
      less than the last irreversible number, are at most a third of all, less one. */
  predicate FewBehind(h: Header, producer: nat) {
    |Behind(h.implied, h.irreversible) - {producer}| <= (|h.implied.Keys + {producer}| - 1) / 3
  }

  lemma {:induction false} KeysAfter(m: map<nat, nat>, p: nat, v: nat, l: nat)
    requires v >= l
    ensures |m[p := v]| == |m.Keys + {p}| && Behind(m[p := v], l) == Behind(m, l) - {p}
  {
    assert m[p := v].Keys == m.Keys + {p};
  }

  /** The next block lowers the number exactly when too many lag behind. */
  lemma {:induction false} NextKeepsIff(h: Header, s: Signed, g: Header)
    requires Bounded(h) && Follows(h, s, g)
    ensures h.irreversible <= g.irreversible <==> FewBehind(h, s.producer)
  {
    KeysAfter(h.implied, s.producer, Proposed(h), h.irreversible);
    KeptIff(h.implied[s.producer := Proposed(h)], h.irreversible, g.irreversible);
  }

  // While the number is that of the numbers implied, few lag behind.
  lemma {:induction false} SettledIsFew(h: Header, producer: nat)
    requires IsIrreversible(h.implied, h.irreversible)
    ensures FewBehind(h, producer)
  {
    var behind := Behind(h.implied, h.irreversible);
    SubsetCount(behind - {producer}, behind);
    SubsetCount(h.implied.Keys, h.implied.Keys + {producer});
    if |h.implied| != 0 {
      KeptIff(h.implied, h.irreversible, h.irreversible);
    } else {
      assert behind == {};
    }
  }

  // ---------- on every chain ----------

  // A new schedule took over with the block before block k.
  predicate TookOver(hs: seq<Header>, k: nat)
    requires k < |hs|
  {
    k > 0 && Promotes(hs[k - 1], hs[k].irreversible)
  }

  lemma {:induction false} StepKeepsIff(initial: set<nat>, hs: seq<Header>, ss: seq<Signed>, k: nat)
    requires Chain(initial, hs, ss) && k < |ss|
    ensures hs[k].irreversible <= hs[k + 1].irreversible <==> (TookOver(hs, k) ==> FewBehind(hs[k], ss[k].producer))
  {
    ChainBounded(initial, hs, ss, k);
    assert Follows(hs[k], ss[k], hs[k + 1]);
    NextKeepsIff(hs[k], ss[k], hs[k + 1]);
    if !TookOver(hs, k) {
      if k > 0 {
        assert Follows(hs[k - 1], ss[k - 1], hs[k]);
      }
      SettledIsFew(hs[k], ss[k].producer);
    }
  }

  /** On every chain, whatever schedules come and go: between two headers the last irreversible number
      never falls exactly if at each change of schedule in between few of the new producers lag behind,
      not counting the one that makes the next block. */
  lemma {:induction false} NeverFallsIff(initial: set<nat>, hs: seq<Header>, ss: seq<Signed>, i: nat, j: nat)
    requires Chain(initial, hs, ss) && i <= j <= |ss|
    ensures (forall k :: i <= k < j ==> hs[k].irreversible <= hs[k + 1].irreversible)
       <==> (forall k :: i <= k < j && TookOver(hs, k) ==> FewBehind(hs[k], ss[k].producer))
  {
    forall k | i <= k < j
      ensures hs[k].irreversible <= hs[k + 1].irreversible <==> (TookOver(hs, k) ==> FewBehind(hs[k], ss[k].producer))
    {
      StepKeepsIff(initial, hs, ss, k);
    }
  }

  /** As long as no new schedule takes over it never falls. */
  lemma {:induction false} IrreversibleNeverFalls(initial: set<nat>, hs: seq<Header>, ss: seq<Signed>, i: nat, j: nat)
    requires Chain(initial, hs, ss) && i <= j <= |ss|
    requires forall k :: i <= k < j ==> !TookOver(hs, k)
    ensures hs[i].irreversible <= hs[j].irreversible
    decreases j
  {
    if i < j {
      IrreversibleNeverFalls(initial, hs, ss, i, j - 1);
      StepKeepsIff(initial, hs, ss, j - 1);
    }
  }
}
