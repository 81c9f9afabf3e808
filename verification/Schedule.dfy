/** Producer schedules: who makes which block, where rounds begin, and quorums that overlap. */
module Schedule {
  import opened Quorums
  import opened Forks
  import opened ForkLaws

  const REPETITIONS := 12

  function BlocksPerRound(producers: nat): nat {
    producers * REPETITIONS
  }

  // The position in the schedule of the producer of a slot
  function ProducerIndex(producers: nat, slot: nat): (i: nat)
    requires producers > 0
    ensures i < producers
  {
    InRound(slot, producers);
    slot % BlocksPerRound(producers) / REPETITIONS
  }

  lemma {:induction false} InRound(slot: nat, producers: nat)
    requires producers > 0
    ensures 0 <= slot % BlocksPerRound(producers) < BlocksPerRound(producers)
  {
  }

  lemma {:induction false} SlotOfRound(round: nat, offset: nat, size: nat)
    requires offset < size
    ensures (round * size + offset) % size == offset
    decreases round
  {
    if round == 0 {
      assert (0 * size + offset) == offset;
      SmallModulo(offset, size);
    } else {
      SlotOfRound(round - 1, offset, size);
      AddModulo((round - 1) * size + offset, size);
      assert round * size + offset == (round - 1) * size + offset + size;
    }
  }

  lemma {:induction false} SmallModulo(x: nat, size: nat)
    requires x < size
    ensures x % size == x
  {
  }

  lemma {:induction false} AddModulo(x: nat, size: nat)
    requires size > 0
    ensures (x + size) % size == x % size
  {
    var q, r := x / size, x % size;
    assert x + size == (q + 1) * size + r;
    ModuloUnique(x + size, size, q + 1, r);
  }

  lemma {:induction false} MulStep(a: nat, b: nat, size: nat)
    requires a < b
    ensures a * size + size <= b * size
    decreases b
  {
    if a + 1 == b {
      assert b * size == a * size + size;
    } else {
      MulStep(a, b - 1, size);
      assert b * size == (b - 1) * size + size;
    }
  }

  lemma {:induction false} ModuloUnique(x: nat, size: nat, q: nat, r: nat)
    requires x == q * size + r && r < size
    ensures x % size == r
  {
    var q', r' := x / size, x % size;
    assert x == q' * size + r';
    if q < q' {
      MulStep(q, q', size);
    } else if q' < q {
      MulStep(q', q, size);
    }
  }

  /** In each round every producer has one run of twelve slots, in the order of the schedule. */
  lemma {:induction false} OneRunPerRound(producers: nat, round: nat, offset: nat, i: nat)
    requires i < producers && offset < BlocksPerRound(producers)
    ensures ProducerIndex(producers, round * BlocksPerRound(producers) + offset) == i
       <==> i * REPETITIONS <= offset < (i + 1) * REPETITIONS
  {
    SlotOfRound(round, offset, BlocksPerRound(producers));
  }

  // calc_block_num_of_next_round_first_block
  method NextRoundFirstBlock(producers: nat, head: nat) returns (res: nat)
    requires producers > 0
    ensures head < res && res % BlocksPerRound(producers) == 0
    ensures forall b :: head < b < res ==> b % BlocksPerRound(producers) != 0
    ensures ProducerIndex(producers, res) == 0 && ProducerIndex(producers, res - 1) == producers - 1
  {
    var perRound := BlocksPerRound(producers);
    res := head + 1;
    while res % perRound != 0
      invariant head < res && forall b :: head < b < res ==> b % perRound != 0
      decreases if res % perRound == 0 then 0 else perRound - res % perRound
    {
      NextModulo(res, perRound);
      res := res + 1;
    }
    BeforeRound(res, perRound);
  }

  lemma {:induction false} NextModulo(x: nat, size: nat)
    requires size > 0 && x % size != 0
    ensures (x + 1) % size == 0 || (x + 1) % size == x % size + 1
  {
    var q, r := x / size, x % size;
    if r + 1 < size {
      ModuloUnique(x + 1, size, q, r + 1);
    } else {
      assert x + 1 == (q + 1) * size + 0;
      ModuloUnique(x + 1, size, q + 1, 0);
    }
  }

  lemma {:induction false} BeforeRound(x: nat, size: nat)
    requires size > 0 && x > 0 && x % size == 0
    ensures (x - 1) % size == size - 1
  {
    var q := x / size;
    assert x == q * size && q > 0;
    assert x - 1 == (q - 1) * size + (size - 1);
    ModuloUnique(x - 1, size, q - 1, size - 1);
  }

  // ---------- expected irreversible block ----------

  // `rounds` is how many rounds may still be reversed.
  function ExpectedIrreversible(head: nat, rounds: nat): int {
    if rounds == 0 then head else (head / REPETITIONS - rounds + 1) * REPETITIONS - 1
  }

  /** It is the last block of a round, trails the head by at least rounds - 1 rounds and one block and at
      most by `rounds` rounds, and moves on with the head. */
  lemma {:induction false} ExpectedTrails(head: nat, rounds: nat)
    requires rounds > 0 && head >= rounds * REPETITIONS
    ensures var l := ExpectedIrreversible(head, rounds);
            && l >= 0 && (l + 1) % REPETITIONS == 0
            && (rounds - 1) * REPETITIONS + 1 <= head - l <= rounds * REPETITIONS
            && l <= ExpectedIrreversible(head + 1, rounds)
  {
  }

  // ---------- quorums ----------

  // Two thirds and one can be reached, and leave less than a third out.
  lemma {:induction false} QuorumAttainable(n: nat)
    requires n > 0
    ensures Quorum(n) <= n && 2 * Quorum(n) - n >= n / 3 + 1
  {
  }

  lemma {:induction false} Overlap(a: set<nat>, b: set<nat>, all: set<nat>)
    requires a <= all && b <= all
    ensures |a * b| >= |a| + |b| - |all|
  {
    Union(a, b);
    assert a + b <= all;
    assert |all| == |a + b| + |all - (a + b)| by { assert all == (a + b) + (all - (a + b)); }
  }

  lemma {:induction false} Union(a: set<nat>, b: set<nat>)
    ensures |a + b| + |a * b| == |a| + |b|
  {
    assert a + b == a + (b - a) && b == (b - a) + (a * b);
  }

  function Members(s: seq<nat>): set<nat> {
    set x | x in s
  }

  lemma {:induction false} MembersCount(s: seq<nat>)
    ensures |Members(s)| <= |s| && (Distinct(s) ==> |Members(s)| == |s|)
    decreases |s|
  {
    if s != [] {
      var front, last := s[..|s| - 1], s[|s| - 1];
      MembersCount(front);
      assert Members(s) == Members(front) + {last};
    }
  }

  /** Two blocks that have their quorum under the same schedule share more than a third of its
      producers as confirmers. */
  lemma {:induction false} QuorumsShare(a: Block, b: Block)
    requires GoodBlock(a) && GoodBlock(b) && a.producers == b.producers && HasQuorum(a) && HasQuorum(b)
    ensures |Members(a.confirmed) * Members(b.confirmed)| >= |a.producers| / 3 + 1
  {
    MembersCount(a.confirmed);
    MembersCount(b.confirmed);
    MembersCount(a.producers);
    Overlap(Members(a.confirmed), Members(b.confirmed), Members(a.producers));
    QuorumAttainable(|a.producers|);
  }
}
