/** Every action keeps the tallies exact, and so does every run. */
module VotingRuns {
  import opened Options
  import opened Voting
  import opened VotingTally
  import opened VotingSteps
  import opened VotingRecast

  // ---------- update_votes takes the vote back and casts it anew ----------

  // A proxy is handed weight by an exact propagation.
  lemma {:induction false} HandOver(s: Votes, factor: real, a: nat, delta: int, todo: set<nat>)
    requires Steady(factor) && a in s.voters && GoodRow(s, a, s.voters[a])
    requires s.voters[a].proxy != 0 ==> s.voters[a].lastWeight == WeightOf(s.voters[a])
    ensures Propagate(AddProxied(s, a, delta), factor, a, todo) == Some(Pass(s, a, delta))
  {
    PropagateIsRefreshed(AddProxied(s, a, delta), factor, a, todo);
  }

  function Withdrawn(s: Votes, v: Voter): Votes
    requires v.proxy != 0 ==> v.proxy in s.voters
  {
    if v.proxy == 0 || v.lastWeight == 0 then s else Pass(s, v.proxy, -v.lastWeight)
  }

  lemma {:induction false} WithdrawIs(s: Votes, factor: real, x: nat, v: Voter)
    requires Steady(factor) && Shape(s) && Weighed(s, {x}) && x in s.voters && v == s.voters[x]
    requires v.proxy != 0 ==> v.proxy in s.voters
    ensures Withdraw(s, factor, v) == Some(Withdrawn(s, v))
  {
    assert GoodRow(s, x, v);
    if v.proxy != 0 && v.lastWeight > 0 {
      assert GoodRow(s, v.proxy, s.voters[v.proxy]);
      HandOver(s, factor, v.proxy, -v.lastWeight, s.voters.Keys - {v.proxy});
    }
  }

  lemma {:induction false} PassedRow(s: Votes, x: nat, a: nat, delta: int)
    requires a in s.voters && x in s.voters && a != x
    ensures x in Pass(s, a, delta).voters && Pass(s, a, delta).voters[x] == s.voters[x]
  {
  }

  lemma {:induction false} UnvotedPassed(s: Votes, x: nat, v: Voter, a: nat, delta: int)
    requires a in s.voters && x in s.voters && a != x && v == s.voters[x]
    ensures x in Pass(s, a, delta).voters && Unvoted(Pass(s, a, delta), x) == Pass(Unvoted(s, x), a, delta)
  {
    PassedRow(s, x, a, delta);
    EditCommutes(s, x, v.(proxy := 0, producers := []), v.producers, -v.lastWeight, a, delta);
  }

  lemma {:induction false} UnvotedWithdrawn(s: Votes, x: nat, v: Voter)
    requires Shape(s) && x in s.voters && v == s.voters[x]
    requires v.proxy != 0 ==> v.proxy in s.voters
    ensures x in Withdrawn(s, v).voters && Unvoted(Withdrawn(s, v), x) == Detached(s, x)
    ensures Withdrawn(s, v).voters[x] == v
  {
    assert GoodRow(s, x, v);
    if v.proxy != 0 && v.lastWeight != 0 {
      PassedRow(s, x, v.proxy, -v.lastWeight);
      UnvotedPassed(s, x, v, v.proxy, -v.lastWeight);
    }
  }

  lemma {:induction false} BestowIs(s: Votes, factor: real, x: nat, proxy: nat, weight: int, voting: bool)
    requires Steady(factor) && x in s.voters && x != proxy && weight >= 0
    requires Shape(Unvoted(s, x)) && Weighed(Unvoted(s, x), {})
    requires Bestow(s, factor, proxy, weight, voting).Some?
    ensures proxy != 0 ==> proxy in s.voters
    ensures Bestow(s, factor, proxy, weight, voting).value == Handed(s, proxy, weight)
  {
    if proxy != 0 {
      var u := Unvoted(s, x);
      assert u.voters[proxy] == s.voters[proxy];
      assert GoodRow(u, proxy, u.voters[proxy]);
      HandOver(s, factor, proxy, weight, s.voters.Keys - {proxy});
    }
  }

  // The producers of a vote of no weight, and of a vote through a proxy, need nothing taken away.
  lemma {:induction false} BeforeIs(m: map<nat, Producer>, v: Voter, before: seq<nat>)
    requires v.lastWeight >= 0 && (v.proxy != 0 ==> v.producers == [])
    requires before == if v.lastWeight > 0 && v.proxy == 0 then v.producers else []
    ensures AddVotes(m, before, -v.lastWeight) == AddVotes(m, v.producers, -v.lastWeight)
    ensures Times(|before|, v.lastWeight) == Times(|v.producers|, v.lastWeight)
  {
    if v.lastWeight == 0 {
      TimesZero(|v.producers|);
    }
  }

  lemma {:induction false} CastParts(
    s: Votes, x: nat, proxy: nat, producers: seq<nat>, before: seq<nat>, weight: int, voting: bool, t: Votes)
    requires x in s.voters
    requires CastVotes(s, x, proxy, producers, before, s.voters[x].lastWeight, producers, weight, voting) == Some(t)
    ensures forall p :: p in producers ==> p in s.producers
    ensures t.voters == s.voters[x := Marked(s.voters[x], proxy, producers, weight)] && t.activatedStake == s.activatedStake
    ensures t.producers == ApplyDeltas(s.producers, before, s.voters[x].lastWeight, producers, weight)
    ensures t.totalWeight == s.totalWeight + Times(CountIn(producers, s.producers), weight)
                             - Times(CountIn(before, s.producers), s.voters[x].lastWeight)
  {
  }

  lemma {:induction false} VotedParts(s: Votes, x: nat, proxy: nat, producers: seq<nat>, weight: int, v: Voter)
    requires x in s.voters && v == s.voters[x]
    ensures var t := Voted(Unvoted(s, x), x, proxy, producers, weight);
            && t.voters == s.voters[x := Marked(v, proxy, producers, weight)] && t.activatedStake == s.activatedStake
            && t.producers == AddVotes(AddVotes(s.producers, v.producers, -v.lastWeight), producers, weight)
            && t.totalWeight == s.totalWeight + Times(|v.producers|, -v.lastWeight) + Times(|producers|, weight)
  {
  }

  lemma {:induction false} CastTotals(m: map<nat, Producer>, v: Voter, before: seq<nat>, producers: seq<nat>, weight: int)
    requires v.lastWeight >= 0 && (v.proxy != 0 ==> v.producers == [])
    requires before == if v.lastWeight > 0 && v.proxy == 0 then v.producers else []
    requires (forall p :: p in v.producers ==> p in m) && (forall p :: p in producers ==> p in m)
    ensures Times(CountIn(producers, m), weight) - Times(CountIn(before, m), v.lastWeight)
         == Times(|v.producers|, -v.lastWeight) + Times(|producers|, weight)
  {
    BeforeIs(m, v, before);
    CountAll(before, m);
    CountAll(producers, m);
    TimesNegated(|v.producers|, v.lastWeight);
  }

  lemma {:induction false} CastIs(
    s: Votes, x: nat, proxy: nat, producers: seq<nat>, before: seq<nat>, weight: int, voting: bool, t: Votes, u: Votes)
    requires x in s.voters && GoodRow(s, x, s.voters[x]) && u == Voted(Unvoted(s, x), x, proxy, producers, weight)
    requires before == if s.voters[x].lastWeight > 0 && s.voters[x].proxy == 0 then s.voters[x].producers else []
    requires forall p {:trigger u.producers[p]} :: p in u.producers ==> u.producers[p].totalVotes >= 0
    requires CastVotes(s, x, proxy, producers, before, s.voters[x].lastWeight, producers, weight, voting) == Some(t)
    ensures t == u
  {
    var v := s.voters[x];
    VotedParts(s, x, proxy, producers, weight, v);
    CastParts(s, x, proxy, producers, before, weight, voting, t);
    CastTotals(s.producers, v, before, producers, weight);
    BeforeIs(s.producers, v, before);
    DeltasApplied(s.producers, before, v.lastWeight, producers, weight);
  }

  lemma {:induction false} RecastVia(s: Votes, x: nat, proxy: nat, producers: seq<nat>, s1: Votes, weight: int)
    requires Shape(s) && x in s.voters && x != proxy && weight == WeightOf(s.voters[x])
    requires s.voters[x].proxy != 0 ==> s.voters[x].proxy in s.voters
    requires proxy != 0 ==> proxy in s.voters && producers == []
    requires s1 == Withdrawn(s, s.voters[x])
    ensures proxy != 0 ==> proxy in s1.voters
    ensures x in Handed(s1, proxy, weight).voters
    ensures Voted(Unvoted(Handed(s1, proxy, weight), x), x, proxy, producers, weight) == Recast(s, x, proxy, producers)
  {
    UnvotedWithdrawn(s, x, s.voters[x]);
    if proxy != 0 {
      var v, d := s.voters[x], Detached(s, x);
      var u := v.(proxy := 0, producers := []);
      EditCommutes(s1, x, u, v.producers, -v.lastWeight, proxy, weight);
      EditCommutes(d, x, Marked(u, proxy, producers, weight), producers, weight, proxy, weight);
    }
  }

  lemma {:induction false} RevoteStages(
    s: Votes, factor: real, x: nat, proxy: nat, producers: seq<nat>, voting: bool, v: Voter, s1: Votes)
    requires Steady(factor) && Inv(s, {x}) && VoteAllowed(s, x, proxy, producers)
    requires v == s.voters[x] && (v.proxy != 0 ==> v.proxy in s.voters) && s1 == Withdrawn(s, v)
    requires Revote(s, factor, x, proxy, producers, voting).Some?
    ensures proxy != 0 ==> proxy in s1.voters
    ensures Withdraw(s, factor, v) == Some(s1)
    ensures Bestow(s1, factor, proxy, WeightOf(v), voting) == Some(Handed(s1, proxy, WeightOf(v)))
  {
    WeightNonNegative(s, x);
    WithdrawIs(s, factor, x, v);
    UnvotedWithdrawn(s, x, v);
    DetachKeeps(s, x);
    BestowIs(s1, factor, x, proxy, WeightOf(v), voting);
  }

  lemma {:induction false} TotalsNonNegative(s: Votes)
    requires Inv(s, {})
    ensures forall p {:trigger s.producers[p]} :: p in s.producers ==> s.producers[p].totalVotes >= 0
  {
    forall p | p in s.producers ensures s.producers[p].totalVotes >= 0 {
      VotesNonNegative(s, p);
    }
  }

  // The row of the voter, and who there is to vote for, are not affected by what proxies pass on.
  lemma {:induction false} StageRows(s: Votes, x: nat, proxy: nat, weight: int, v: Voter, s1: Votes)
    requires Shape(s) && x in s.voters && x != proxy && v == s.voters[x]
    requires v.proxy != 0 ==> v.proxy in s.voters
    requires s1 == Withdrawn(s, v) && (proxy != 0 ==> proxy in s1.voters)
    ensures var s2 := Handed(s1, proxy, weight);
            s2.producers.Keys == s.producers.Keys && s2.voters.Keys == s.voters.Keys && s2.voters[x] == v
    ensures GoodRow(Handed(s1, proxy, weight), x, v)
  {
    assert GoodRow(s, x, v);
    var s2 := Handed(s1, proxy, weight);
    assert s1.voters.Keys == s.voters.Keys && s2.voters.Keys == s1.voters.Keys;
  }

  lemma {:induction false} RevoteIsRecast(
    s: Votes, factor: real, x: nat, proxy: nat, producers: seq<nat>, voting: bool, t: Votes)
    requires Steady(factor) && Inv(s, {x}) && VoteAllowed(s, x, proxy, producers)
    requires s.voters[x].proxy != 0 ==> s.voters[x].proxy in s.voters
    requires Revote(s, factor, x, proxy, producers, voting) == Some(t)
    ensures Castable(s, x, proxy, producers) && t == Recast(s, x, proxy, producers)
    ensures Inv(t, {})
  {
    var v := s.voters[x];
    var s1, weight := Withdrawn(s, v), WeightOf(v);
    RevoteStages(s, factor, x, proxy, producers, voting, v, s1);
    StageRows(s, x, proxy, weight, v, s1);
    WeightNonNegative(s, x);
    RecastKeeps(s, x, proxy, producers);
    TotalsNonNegative(Recast(s, x, proxy, producers));
    RecastVia(s, x, proxy, producers, s1, weight);
    var before := if v.lastWeight > 0 && v.proxy == 0 then v.producers else [];
    CastIs(Handed(s1, proxy, weight), x, proxy, producers, before, weight, voting, t, Recast(s, x, proxy, producers));
  }
}
