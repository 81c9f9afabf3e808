/** The check against the last block of a producer (block_header_state.cpp) keeps it from confirming a
    block twice, across changes of schedule too, unless it claims to confirm more blocks than there are. */
module DposConfirms {
  import opened Quorums
  import opened DposHeaders
  import opened DposChain

  // ---------- the entry of a producer is not older than its last block ----------

  ghost predicate EntryAt(h: Header, ss: seq<Signed>, i: nat)
    requires i < |ss|
  {
    var p := ss[i].producer;
    if p in h.produced then h.produced[p] >= Number(i)
    else p !in h.active && (h.pending != {} ==> h.pendingFrom >= Number(i))
  }

  // For every block made so far.
  ghost predicate Entries(h: Header, ss: seq<Signed>) {
    && h.made <= |ss|
    && (h.made > 0 ==> h.active <= h.produced.Keys)
    && forall i: nat {:trigger EntryAt(h, ss, i)} :: i < h.made ==> EntryAt(h, ss, i)
  }

  lemma {:induction false} ScheduleKept(h: Header, s: Signed, g: Header)
    requires Follows(h, s, g) && (h.made > 0 ==> h.active <= h.produced.Keys)
    requires h.made == 0 ==> Promotes(h, g.irreversible)
    ensures g.active <= g.produced.Keys
  {
  }

  lemma {:induction false} EntryStays(h: Header, s: Signed, g: Header, ss: seq<Signed>, i: nat)
    requires Follows(h, s, g) && h.made < |ss| && ss[h.made] == s && i <= h.made && !Promotes(h, g.irreversible)
    requires i < h.made ==> EntryAt(h, ss, i)
    ensures EntryAt(g, ss, i)
  {
  }

  // A producer that comes back gets a number that its last block is not beyond.
  lemma {:induction false} EntryReset(h: Header, s: Signed, g: Header, ss: seq<Signed>, i: nat)
    requires Follows(h, s, g) && h.made < |ss| && ss[h.made] == s && i < h.made && Promotes(h, g.irreversible)
    requires EntryAt(h, ss, i) && g.active <= g.produced.Keys
    ensures EntryAt(g, ss, i)
  {
    var p := ss[i].producer;
    var produced := h.produced[s.producer := Number(h.made)];
    if p == s.producer {
      assert g.produced[p] == Number(h.made);
    } else if p in h.pending {
      assert g.produced[p] == if p in h.produced then h.produced[p] else g.irreversible;
    } else {
      assert p !in g.produced;
    }
  }

  lemma {:induction false} EntryKept(h: Header, s: Signed, g: Header, ss: seq<Signed>, i: nat)
    requires Follows(h, s, g) && h.made < |ss| && ss[h.made] == s && i <= h.made
    requires i < h.made ==> EntryAt(h, ss, i)
    requires g.active <= g.produced.Keys
    ensures EntryAt(g, ss, i)
  {
    if !Promotes(h, g.irreversible) {
      EntryStays(h, s, g, ss, i);
    } else if i < h.made {
      EntryReset(h, s, g, ss, i);
    }
  }

  lemma {:induction false} ChainEntries(initial: set<nat>, hs: seq<Header>, ss: seq<Signed>, k: nat)
    requires Chain(initial, hs, ss) && k <= |ss|
    ensures hs[k].made == k && Entries(hs[k], ss)
    decreases k
  {
    ChainCounters(initial, hs, ss, k);
    if k > 0 {
      ChainEntries(initial, hs, ss, k - 1);
      assert Follows(hs[k - 1], ss[k - 1], hs[k]);
      ScheduleKept(hs[k - 1], ss[k - 1], hs[k]);
      forall i: nat | i < k ensures EntryAt(hs[k], ss, i) {
        EntryKept(hs[k - 1], ss[k - 1], hs[k], ss, i);
      }
    }
  }

  // ---------- no block is confirmed twice ----------

  // Block k confirms a block that its producer confirmed with block i.
  predicate Again(ss: seq<Signed>, i: nat, k: nat)
    requires i < k < |ss|
  {
    ss[i].producer == ss[k].producer && k - ss[k].confirmed <= i
  }

  /** A block confirms again what its producer confirmed before exactly when it claims to confirm more
      blocks than there are, so that the difference of the check wraps around. */
  lemma {:induction false} AgainIff(initial: set<nat>, hs: seq<Header>, ss: seq<Signed>, i: nat, k: nat)
    requires Chain(initial, hs, ss) && i < k < |ss| && ss[i].producer == ss[k].producer
    requires Number(k) < 0x1_0000_0000
    ensures Again(ss, i, k) <==> ss[k].confirmed > Number(k)
  {
    ChainEntries(initial, hs, ss, k);
    assert EntryAt(hs[k], ss, i);
    assert Follows(hs[k], ss[k], hs[k + 1]);
  }

  // No producer that made a block before claims to confirm more blocks than there are.
  ghost predicate Modest(ss: seq<Signed>) {
    forall i, k :: 0 <= i < k < |ss| && ss[i].producer == ss[k].producer ==> ss[k].confirmed <= Number(k)
  }

  lemma {:induction false} OnceIff(initial: set<nat>, hs: seq<Header>, ss: seq<Signed>, blocks: seq<Block>, i: nat, k: nat)
    requires Chain(initial, hs, ss) && Number(|ss|) <= 0x1_0000_0000 && blocks == Blocks(hs, ss)
    requires i < k < |ss| && ss[i].producer == ss[k].producer
    ensures i < k - blocks[k].confirmed <==> ss[k].confirmed <= Number(k)
  {
    AgainIff(initial, hs, ss, i, k);
  }

  /** On every chain with 32-bit numbers: no producer confirms a block twice exactly if none that made a
      block before claims to confirm more blocks than there are. */
  lemma {:induction false} NoneTwiceIff(initial: set<nat>, hs: seq<Header>, ss: seq<Signed>, blocks: seq<Block>)
    requires Chain(initial, hs, ss) && Number(|ss|) <= 0x1_0000_0000 && blocks == Blocks(hs, ss)
    ensures NoDoubleConfirm(blocks) <==> Modest(ss)
  {
    if NoDoubleConfirm(blocks) {
      forall i, k | 0 <= i < k < |ss| && ss[i].producer == ss[k].producer ensures ss[k].confirmed <= Number(k) {
        OnceIff(initial, hs, ss, blocks, i, k);
        assert blocks[i].producer == blocks[k].producer;
      }
    }
    if Modest(ss) {
      forall i, k | 0 <= i < k < |blocks| && blocks[i].producer == blocks[k].producer
        ensures i < k - blocks[k].confirmed
      {
        assert ss[i].producer == ss[k].producer;
        OnceIff(initial, hs, ss, blocks, i, k);
      }
    }
  }

  lemma {:induction false} EnoughConfirmers(blocks: seq<Block>, k: nat, p: nat)
    requires NoDoubleConfirm(blocks) && k <= |blocks| && AllNeedSome(blocks[..k]) && CountersOf(blocks[..k]).proposed == p
    ensures p < k && |Confirmers(blocks[..k], p)| >= blocks[p].required
  {
    if k > 0 {
      ProposedIsNewest(blocks[..k], 0);
    }
    ConfirmersDiffer(blocks[..k], p);
  }

  /** Then a block proposed to be irreversible was confirmed by as many different producers as make a
      quorum of the schedule it was made under. */
  lemma {:induction false} ProposedHasQuorum(initial: set<nat>, hs: seq<Header>, ss: seq<Signed>, k: nat)
    requires Chain(initial, hs, ss) && Number(|ss|) <= 0x1_0000_0000 && Modest(ss) && k <= |ss|
    ensures var p := hs[k].counters.proposed;
            p >= 0 ==> p < k && |Confirmers(Blocks(hs, ss)[..k], p)| >= Quorum(|hs[p].active|)
  {
    var blocks := Blocks(hs, ss);
    NoneTwiceIff(initial, hs, ss, blocks);
    ChainCounters(initial, hs, ss, k);
    BlocksNeedSome(hs, ss, k);
    if hs[k].counters.proposed >= 0 {
      EnoughConfirmers(blocks, k, hs[k].counters.proposed);
    }
  }
}
