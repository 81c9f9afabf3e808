/** What every run keeps: the incrementally maintained tallies equal the sums recomputed from the
    voters' rows. */
module VotingTally {
  import opened Sums
  import opened Voting

  // ---------- the recomputed tallies ----------

  // What a voter's row gives to producer p, and to the proxy a.
  function Share(v: Voter, p: nat): int {
    if v.proxy == 0 && p in v.producers then v.lastWeight else 0
  }

  function Delegated(v: Voter, a: nat): int {
    if v.proxy == a then v.lastWeight else 0
  }

  function Shares(voters: map<nat, Voter>, p: nat): nat -> int {
    x => if x in voters then Share(voters[x], p) else 0
  }

  function Delegations(voters: map<nat, Voter>, a: nat): nat -> int {
    x => if x in voters then Delegated(voters[x], a) else 0
  }

  ghost function VotesFor(voters: map<nat, Voter>, p: nat): int {
    Sum(voters.Keys, Shares(voters, p))
  }

  ghost function ProxiedTo(voters: map<nat, Voter>, a: nat): int {
    Sum(voters.Keys, Delegations(voters, a))
  }

  lemma {:induction false} VotesForUpdate(m: map<nat, Voter>, x: nat, r: Voter, p: nat)
    requires x in m
    ensures VotesFor(m[x := r], p) == VotesFor(m, p) - Share(m[x], p) + Share(r, p)
  {
    assert m[x := r].Keys == m.Keys;
    SumChange(m.Keys, Shares(m, p), Shares(m[x := r], p), x);
  }

  lemma {:induction false} ProxiedToUpdate(m: map<nat, Voter>, x: nat, r: Voter, a: nat)
    requires x in m
    ensures ProxiedTo(m[x := r], a) == ProxiedTo(m, a) - Delegated(m[x], a) + Delegated(r, a)
  {
    assert m[x := r].Keys == m.Keys;
    SumChange(m.Keys, Delegations(m, a), Delegations(m[x := r], a), x);
  }

  // A new row that votes for nobody changes no tally.
  lemma {:induction false} InsertIdle(m: map<nat, Voter>, x: nat, r: Voter, p: nat)
    requires x !in m && r.proxy == 0 && r.producers == []
    ensures VotesFor(m[x := r], p) == VotesFor(m, p)
    ensures p != 0 ==> ProxiedTo(m[x := r], p) == ProxiedTo(m, p)
  {
    var m' := m[x := r];
    assert m'.Keys - {x} == m.Keys;
    SumTake(m'.Keys, Shares(m', p), x);
    SumSame(m.Keys, Shares(m, p), Shares(m', p));
    SumTake(m'.Keys, Delegations(m', p), x);
    SumSame(m.Keys, Delegations(m, p), Delegations(m', p));
  }

  // ---------- the invariant ----------

  predicate Engaged(v: Voter) {
    v.proxy != 0 || v.producers != []
  }

  ghost predicate GoodRow(s: Votes, a: nat, v: Voter) {
    && (v.isProxy ==> v.proxy == 0)
    && (v.proxy != 0 ==> v.producers == [] && v.proxy in s.voters && v.proxy != a)
    && v.staked >= 0 && v.lastWeight >= 0
    && Ascending(v.producers) && |v.producers| <= MAX_VOTES
    && forall p :: p in v.producers ==> p in s.producers
  }

  ghost predicate Shape(s: Votes) {
    0 !in s.voters && forall a {:trigger s.voters[a]} :: a in s.voters ==> GoodRow(s, a, s.voters[a])
  }

  // The recorded weight of a vote in force is the current one.
  ghost predicate Weighed(s: Votes, except: set<nat>) {
    forall a {:trigger s.voters[a]} :: a in s.voters && a !in except && Engaged(s.voters[a]) ==> s.voters[a].lastWeight == WeightOf(s.voters[a])
  }

  ghost predicate Tallied(s: Votes) {
    forall p {:trigger s.producers[p]} :: p in s.producers ==> s.producers[p].totalVotes == VotesFor(s.voters, p)
  }

  // The proxied weight of every account is right, except that that of `a` is `off` too high.
  ghost predicate ProxiesOff(s: Votes, a: nat, off: int) {
    forall b {:trigger s.voters[b]} :: b in s.voters ==>
      s.voters[b].proxied == ProxiedTo(s.voters, b) + (if b == a then off else 0)
  }

  ghost predicate ProxiesTallied(s: Votes) {
    ProxiesOff(s, 0, 0)
  }

  function TotalOf(producers: map<nat, Producer>): nat -> int {
    p => if p in producers then producers[p].totalVotes else 0
  }

  ghost function AllVotes(producers: map<nat, Producer>): int {
    Sum(producers.Keys, TotalOf(producers))
  }

  ghost predicate Inv(s: Votes, except: set<nat>) {
    && Shape(s)
    && Weighed(s, except)
    && Tallied(s)
    && ProxiesTallied(s)
    && s.totalWeight == AllVotes(s.producers)
  }

  lemma {:induction false} ProxiedNonNegative(s: Votes, a: nat)
    requires Shape(s)
    ensures ProxiedTo(s.voters, a) >= 0
  {
    SumNonNegative(s.voters.Keys, Delegations(s.voters, a));
  }

  lemma {:induction false} VotesNonNegative(s: Votes, p: nat)
    requires Shape(s)
    ensures VotesFor(s.voters, p) >= 0
  {
    SumNonNegative(s.voters.Keys, Shares(s.voters, p));
  }

  // ---------- adding to listed producers ----------

  lemma {:induction false} LastIsNew(listed: seq<nat>)
    requires Ascending(listed) && listed != []
    ensures Ascending(listed[..|listed| - 1]) && listed[|listed| - 1] !in listed[..|listed| - 1]
  {
  }

  lemma {:induction false} AddOneMore(producers: map<nat, Producer>, front: seq<nat>, last: nat, delta: int)
    requires last !in front && last in producers
    ensures AllVotes(AddVotes(producers, front + [last], delta)) == AllVotes(AddVotes(producers, front, delta)) + delta
  {
    var m, m' := AddVotes(producers, front, delta), AddVotes(producers, front + [last], delta);
    assert m.Keys == producers.Keys && m'.Keys == producers.Keys;
    SumChange(producers.Keys, TotalOf(m), TotalOf(m'), last);
  }

  lemma {:induction false} AddVotesTotal(producers: map<nat, Producer>, listed: seq<nat>, delta: int)
    requires Ascending(listed) && forall p :: p in listed ==> p in producers
    ensures AllVotes(AddVotes(producers, listed, delta)) == AllVotes(producers) + Times(|listed|, delta)
    decreases |listed|
  {
    if listed == [] {
      assert AddVotes(producers, listed, delta) == producers;
    } else {
      var n := |listed| - 1;
      var front, last := listed[..n], listed[n];
      assert listed == front + [last];
      LastIsNew(listed);
      AddVotesTotal(producers, front, delta);
      AddOneMore(producers, front, last, delta);
    }
  }
}
