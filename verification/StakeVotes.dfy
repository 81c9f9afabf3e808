/** What the votes do to the staked amounts in the voters' rows: only a change of stake does anything. */
module StakeVotes {
  import opened Options
  import opened Voting

  function StakedOf(s: Votes, a: nat): int {
    if a in s.voters then s.voters[a].staked else 0
  }

  ghost predicate SameStakes(s: Votes, t: Votes) {
    forall a :: StakedOf(t, a) == StakedOf(s, a)
  }

  lemma {:induction false} SameThrough(s: Votes, t: Votes, u: Votes)
    requires SameStakes(s, t) && SameStakes(t, u)
    ensures SameStakes(s, u)
  {
    forall a ensures StakedOf(u, a) == StakedOf(s, a) {
      assert StakedOf(t, a) == StakedOf(s, a);
    }
  }

  lemma {:induction false} PropagateSame(s: Votes, factor: real, name: nat, todo: set<nat>, t: Votes)
    requires name in s.voters && Propagate(s, factor, name, todo) == Some(t)
    ensures SameStakes(s, t)
    decreases |todo|
  {
    var v := s.voters[name];
    var delta := WeightOf(v) - v.lastWeight;
    if PassedOn(factor, delta) && v.proxy != 0 {
      var handed := AddProxied(s, v.proxy, delta);
      var r := Propagate(handed, factor, v.proxy, todo - {v.proxy});
      PropagateSame(handed, factor, v.proxy, todo - {v.proxy}, r.value);
      SameThrough(s, handed, r.value);
      SameThrough(s, r.value, t);
    }
  }

  lemma {:induction false} RevoteSame(
    s: Votes, factor: real, x: nat, proxy: nat, producers: seq<nat>, voting: bool, t: Votes)
    requires x in s.voters && Revote(s, factor, x, proxy, producers, voting) == Some(t)
    ensures SameStakes(s, t)
  {
    var v := s.voters[x];
    var s1 := Withdraw(s, factor, v).value;
    if v.lastWeight > 0 && v.proxy != 0 {
      PropagateSame(AddProxied(s, v.proxy, -v.lastWeight), factor, v.proxy, s.voters.Keys - {v.proxy}, s1);
      SameThrough(s, AddProxied(s, v.proxy, -v.lastWeight), s1);
    }
    var s2 := Bestow(s1, factor, proxy, WeightOf(v), voting).value;
    if proxy != 0 && WeightOf(v) >= 0 {
      PropagateSame(AddProxied(s1, proxy, WeightOf(v)), factor, proxy, s1.voters.Keys - {proxy}, s2);
      SameThrough(s1, AddProxied(s1, proxy, WeightOf(v)), s2);
    }
    SameThrough(s, s1, s2);
    SameThrough(s, s2, t);
  }

  lemma {:induction false} UpdateSame(
    s: Votes, factor: real, x: nat, proxy: nat, producers: seq<nat>, voting: bool, t: Votes)
    requires UpdateVotes(s, factor, x, proxy, producers, voting) == Some(t)
    ensures SameStakes(s, t)
  {
    RevoteSame(Activated(s, s.voters[x]), factor, x, proxy, producers, voting, t);
  }

  lemma {:induction false} StepSame(s: Votes, factor: real, a: Action)
    requires !a.Stake?
    ensures SameStakes(s, Step(s, factor, a))
  {
    var t := Step(s, factor, a);
    if t != s {
      match a
      case Vote(voter, proxy, producers) => UpdateSame(s, factor, voter, proxy, producers, true, t);
      case Proxy(name, isProxy) =>
        if name in s.voters {
          PropagateSame(s.(voters := s.voters[name := s.voters[name].(isProxy := isProxy)]), factor, name,
                        s.voters.Keys - {name}, t);
        }
      case Register(_) =>
      case Unregister(_) =>
    }
  }

  lemma {:induction false} ChangeStakeOne(s: Votes, factor: real, x: nat, delta: int, t: Votes)
    requires ChangeStake(s, factor, x, delta) == Some(t)
    ensures forall a :: StakedOf(t, a) == StakedOf(s, a) + (if a == x then delta else 0)
  {
    var v := if x in s.voters then s.voters[x] else NO_VOTE;
    var row := v.(staked := v.staked + delta);
    if row.producers != [] || row.proxy != 0 {
      UpdateSame(s.(voters := s.voters[x := row]), factor, x, row.proxy, row.producers, false, t);
    }
  }
}
