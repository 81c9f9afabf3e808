/** Every action keeps the tallies exact, and so does every run. */
module VotingActions {
  import opened Options
  import opened Sums
  import opened Voting
  import opened VotingTally
  import opened VotingSteps
  import opened VotingRuns

  // ---------- votes ----------

  lemma {:induction false} ActivatedKeeps(s: Votes, v: Voter, except: set<nat>)
    requires Inv(s, except)
    ensures Inv(Activated(s, v), except)
  {
    var t := Activated(s, v);
    forall a | a in t.voters ensures GoodRow(t, a, t.voters[a]) {
      assert GoodRow(s, a, s.voters[a]);
    }
  }

  lemma {:induction false} UpdateKeeps(s: Votes, factor: real, x: nat, proxy: nat, producers: seq<nat>, voting: bool, t: Votes)
    requires Steady(factor) && Inv(s, {x}) && UpdateVotes(s, factor, x, proxy, producers, voting) == Some(t)
    ensures Inv(t, {})
  {
    var v := s.voters[x];
    assert GoodRow(s, x, v);
    ActivatedKeeps(s, v, {x});
    RevoteIsRecast(Activated(s, v), factor, x, proxy, producers, voting, t);
  }

  // ---------- rows that come and change ----------

  // A row whose weight changes, its vote staying as recorded.
  ghost predicate Reweighed(s: Votes, x: nat, row: Voter, t: Votes) {
    && x in s.voters && row == s.voters[x].(staked := row.staked, isProxy := row.isProxy)
    && row.staked >= 0 && (row.isProxy ==> row.proxy == 0)
    && t == s.(voters := s.voters[x := row])
  }

  lemma {:induction false} ReweighRows(s: Votes, x: nat, row: Voter, t: Votes)
    requires Shape(s) && Weighed(s, {}) && Reweighed(s, x, row, t)
    ensures Shape(t) && Weighed(t, {x})
  {
    assert GoodRow(s, x, s.voters[x]);
    ShapeChange(s, t, x);
    WeighedChange(s, t, x, {x});
  }

  lemma {:induction false} ReweighProxies(s: Votes, x: nat, row: Voter, t: Votes)
    requires ProxiesTallied(s) && Reweighed(s, x, row, t)
    ensures ProxiesTallied(t)
  {
    forall b | b in t.voters ensures t.voters[b].proxied == ProxiedTo(t.voters, b) {
      ProxiedToUpdate(s.voters, x, row, b);
    }
  }

  lemma {:induction false} ReweighKeeps(s: Votes, x: nat, row: Voter, t: Votes)
    requires Inv(s, {}) && Reweighed(s, x, row, t)
    ensures Inv(t, {x})
  {
    ReweighRows(s, x, row, t);
    TalliedChange(s, t, x);
    ReweighProxies(s, x, row, t);
  }

  lemma {:induction false} NobodyDelegates(s: Votes, x: nat)
    requires Shape(s) && x !in s.voters && x != 0
    ensures ProxiedTo(s.voters, x) == 0
  {
    forall a | a in s.voters ensures Delegations(s.voters, x)(a) == 0 {
      assert GoodRow(s, a, s.voters[a]);
    }
    SumZero(s.voters.Keys, Delegations(s.voters, x));
  }

  lemma {:induction false} EnterShape(s: Votes, x: nat, row: Voter, t: Votes)
    requires Inv(s, {}) && x !in s.voters && x != 0 && row == NO_VOTE.(staked := row.staked, isProxy := row.isProxy)
    requires row.staked >= 0 && t == s.(voters := s.voters[x := row])
    ensures Shape(t) && Weighed(t, {})
  {
    forall a | a in t.voters ensures GoodRow(t, a, t.voters[a]) {
      if a != x {
        assert GoodRow(s, a, s.voters[a]);
      }
    }
    forall a | a in t.voters && Engaged(t.voters[a]) ensures t.voters[a].lastWeight == WeightOf(t.voters[a]) {
      assert t.voters[a] == s.voters[a];
    }
  }

  lemma {:induction false} EnterKeeps(s: Votes, x: nat, row: Voter, t: Votes)
    requires Inv(s, {}) && x !in s.voters && x != 0 && row == NO_VOTE.(staked := row.staked, isProxy := row.isProxy)
    requires row.staked >= 0 && t == s.(voters := s.voters[x := row])
    ensures Inv(t, {})
  {
    EnterShape(s, x, row, t);
    forall p | p in t.producers ensures t.producers[p].totalVotes == VotesFor(t.voters, p) {
      InsertIdle(s.voters, x, row, p);
    }
    NobodyDelegates(s, x);
    forall b | b in t.voters ensures t.voters[b].proxied == ProxiedTo(t.voters, b) {
      InsertIdle(s.voters, x, row, b);
    }
  }

  lemma {:induction false} IdleIsWeighed(s: Votes, x: nat)
    requires Inv(s, {x}) && x in s.voters && !Engaged(s.voters[x])
    ensures Inv(s, {})
  {
  }

  lemma {:induction false} RestakeKeeps(s: Votes, factor: real, x: nat, row: Voter, s1: Votes, t: Votes)
    requires Steady(factor) && Inv(s, {}) && Reweighed(s, x, row, s1) && Restake(s, factor, x, row) == Some(t)
    ensures Inv(t, {})
  {
    ReweighKeeps(s, x, row, s1);
    if Engaged(row) {
      UpdateKeeps(s1, factor, x, row.proxy, row.producers, false, t);
    } else {
      IdleIsWeighed(s1, x);
    }
  }

  lemma {:induction false} ChangeStakeIs(s: Votes, factor: real, x: nat, delta: int, v: Voter, row: Voter, t: Votes)
    requires ChangeStake(s, factor, x, delta) == Some(t)
    requires v == (if x in s.voters then s.voters[x] else NO_VOTE) && row == v.(staked := v.staked + delta)
    ensures row.staked >= 0 && Restake(s, factor, x, row) == Some(t)
  {
  }

  lemma {:induction false} StakeKeeps(s: Votes, factor: real, x: nat, delta: int, t: Votes)
    requires Steady(factor) && Inv(s, {}) && x != 0 && ChangeStake(s, factor, x, delta) == Some(t)
    ensures Inv(t, {})
  {
    var v := if x in s.voters then s.voters[x] else NO_VOTE;
    var row := v.(staked := v.staked + delta);
    ChangeStakeIs(s, factor, x, delta, v, row, t);
    if x in s.voters {
      assert GoodRow(s, x, v);
      RestakeKeeps(s, factor, x, row, s.(voters := s.voters[x := row]), t);
    } else {
      EnterKeeps(s, x, row, t);
    }
  }

  lemma {:induction false} ProxyKeeps(s: Votes, factor: real, x: nat, isProxy: bool, t: Votes)
    requires Steady(factor) && Inv(s, {}) && x != 0 && RegProxy(s, factor, x, isProxy) == Some(t)
    ensures Inv(t, {})
  {
    if x !in s.voters {
      EnterKeeps(s, x, NO_VOTE.(isProxy := isProxy), t);
    } else {
      var row := s.voters[x].(isProxy := isProxy);
      var s1 := s.(voters := s.voters[x := row]);
      assert GoodRow(s, x, s.voters[x]);
      ReweighKeeps(s, x, row, s1);
      PropagateIsRefreshed(s1, factor, x, s.voters.Keys - {x});
      RefreshKeeps(s1, x, {x});
      assert {x} - {x} == {};
    }
  }

  // ---------- producers ----------

  lemma {:induction false} ProducersShape(s: Votes, t: Votes)
    requires Shape(s) && t.voters == s.voters && s.producers.Keys <= t.producers.Keys
    ensures Shape(t)
  {
    forall a | a in t.voters ensures GoodRow(t, a, t.voters[a]) {
      assert GoodRow(s, a, s.voters[a]);
    }
  }

  lemma {:induction false} FlagTotal(m: map<nat, Producer>, name: nat, active: bool)
    requires name in m
    ensures AllVotes(m[name := m[name].(active := active)]) == AllVotes(m)
  {
    var m' := m[name := m[name].(active := active)];
    assert m'.Keys == m.Keys;
    SumSame(m.Keys, TotalOf(m), TotalOf(m'));
  }

  lemma {:induction false} EnrolTotal(m: map<nat, Producer>, name: nat)
    requires name !in m
    ensures AllVotes(m[name := Producer(0, true)]) == AllVotes(m)
  {
    var m' := m[name := Producer(0, true)];
    assert m'.Keys - {name} == m.Keys;
    SumTake(m'.Keys, TotalOf(m'), name);
    SumSame(m.Keys, TotalOf(m), TotalOf(m'));
  }

  lemma {:induction false} FlagKeeps(s: Votes, name: nat, active: bool, t: Votes)
    requires Inv(s, {}) && name in s.producers
    requires t == s.(producers := s.producers[name := s.producers[name].(active := active)])
    ensures Inv(t, {})
  {
    ProducersShape(s, t);
    FlagTotal(s.producers, name, active);
  }

  lemma {:induction false} NobodyVotes(s: Votes, p: nat)
    requires Shape(s) && p !in s.producers
    ensures VotesFor(s.voters, p) == 0
  {
    forall a | a in s.voters ensures Shares(s.voters, p)(a) == 0 {
      assert GoodRow(s, a, s.voters[a]);
    }
    SumZero(s.voters.Keys, Shares(s.voters, p));
  }

  lemma {:induction false} EnrolKeeps(s: Votes, name: nat, t: Votes)
    requires Inv(s, {}) && name !in s.producers && t == s.(producers := s.producers[name := Producer(0, true)])
    ensures Inv(t, {})
  {
    ProducersShape(s, t);
    NobodyVotes(s, name);
    EnrolTotal(s.producers, name);
  }

  // ---------- runs ----------

  lemma {:induction false} StepKeeps(s: Votes, factor: real, a: Action)
    requires Steady(factor) && Inv(s, {})
    ensures Inv(Step(s, factor, a), {})
  {
    var t := Step(s, factor, a);
    if t != s {
      match a
      case Stake(name, delta) => StakeKeeps(s, factor, name, delta, t);
      case Vote(voter, proxy, producers) =>
        UpdateKeeps(s, factor, voter, proxy, producers, true, t);
      case Proxy(name, isProxy) => ProxyKeeps(s, factor, name, isProxy, t);
      case Register(name) =>
        if name in s.producers { FlagKeeps(s, name, true, t); } else { EnrolKeeps(s, name, t); }
      case Unregister(name) => FlagKeeps(s, name, false, t);
    }
  }

  lemma {:induction false} RunKeeps(factor: real, actions: seq<Action>)
    requires Steady(factor)
    ensures Inv(Run(factor, actions), {})
    decreases |actions|
  {
    if actions != [] {
      var front := actions[..|actions| - 1];
      RunKeeps(factor, front);
      StepKeeps(Run(factor, front), factor, actions[|actions| - 1]);
    }
  }

  // ---------- the tallies counted from scratch ----------

  function Ballots(voters: map<nat, Voter>, p: nat): nat -> int {
    x => if x in voters && voters[x].proxy == 0 && p in voters[x].producers then WeightOf(voters[x]) else 0
  }

  function StakesHandedTo(voters: map<nat, Voter>, a: nat): nat -> int {
    x => if x in voters && voters[x].proxy == a then voters[x].staked else 0
  }

  lemma {:induction false} CountedAgain(s: Votes, p: nat)
    requires Inv(s, {})
    ensures VotesFor(s.voters, p) == Sum(s.voters.Keys, Ballots(s.voters, p))
    ensures p != 0 ==> ProxiedTo(s.voters, p) == Sum(s.voters.Keys, StakesHandedTo(s.voters, p))
  {
    forall a | a in s.voters
      ensures Shares(s.voters, p)(a) == Ballots(s.voters, p)(a)
      ensures p != 0 ==> Delegations(s.voters, p)(a) == StakesHandedTo(s.voters, p)(a)
    {
      assert GoodRow(s, a, s.voters[a]);
    }
    SumSame(s.voters.Keys, Shares(s.voters, p), Ballots(s.voters, p));
    if p != 0 {
      SumSame(s.voters.Keys, Delegations(s.voters, p), StakesHandedTo(s.voters, p));
    }
  }

  /** A producer's total is the weight of those who vote for it directly, with what is proxied to
      them if they are registered proxies; what is proxied to an account is the stake of those who
      chose it; the overall total is that of all producers. */
  ghost predicate Exact(s: Votes) {
    && (forall p {:trigger s.producers[p]} :: p in s.producers ==>
          s.producers[p].totalVotes == Sum(s.voters.Keys, Ballots(s.voters, p)))
    && (forall a {:trigger s.voters[a]} :: a in s.voters ==>
          s.voters[a].proxied == Sum(s.voters.Keys, StakesHandedTo(s.voters, a)))
    && s.totalWeight == Sum(s.producers.Keys, TotalOf(s.producers))
  }

  lemma {:induction false} InvIsExact(s: Votes)
    requires Inv(s, {})
    ensures Exact(s)
  {
    forall p | p in s.producers ensures s.producers[p].totalVotes == Sum(s.voters.Keys, Ballots(s.voters, p)) {
      CountedAgain(s, p);
    }
    forall a | a in s.voters ensures s.voters[a].proxied == Sum(s.voters.Keys, StakesHandedTo(s.voters, a)) {
      CountedAgain(s, a);
    }
  }

  // In every run, at more than one vote a token.
  lemma {:induction false} TalliesExact(factor: real, actions: seq<Action>)
    requires Steady(factor)
    ensures Exact(Run(factor, actions))
  {
    RunKeeps(factor, actions);
    InvIsExact(Run(factor, actions));
  }
}
