/** When an action of a voter succeeds: on the tables that runs reach no check for corrupted data can
    fail, so only what the voter asks for decides. */
module VotingOutcomes {
  import opened Options
  import opened Voting
  import opened VotingTally
  import opened VotingSteps
  import opened VotingRecast
  import opened VotingRuns
  import opened VotingActions

  /** What a vote asks for is there: the proxy, registered as one unless only the stake changes, and
      the producers, active unless only the stake changes. */
  ghost predicate Available(s: Votes, proxy: nat, producers: seq<nat>, voting: bool) {
    && (proxy != 0 ==> proxy in s.voters && (voting ==> s.voters[proxy].isProxy))
    && (proxy == 0 ==> forall p :: p in producers ==> p in s.producers && (voting ==> s.producers[p].active))
  }

  // What proxies pass on changes nothing that a vote can ask for.
  ghost predicate SameOffer(s: Votes, t: Votes) {
    && t.voters.Keys == s.voters.Keys && t.producers.Keys == s.producers.Keys
    && (forall a {:trigger t.voters[a]} :: a in t.voters ==> t.voters[a].isProxy == s.voters[a].isProxy)
    && (forall p {:trigger t.producers[p]} :: p in t.producers ==> t.producers[p].active == s.producers[p].active)
  }

  lemma {:induction false} PassOffers(s: Votes, a: nat, delta: int)
    requires a in s.voters
    ensures SameOffer(s, Pass(s, a, delta))
  {
  }

  lemma {:induction false} SameOfferTwice(s: Votes, t: Votes, u: Votes)
    requires SameOffer(s, t) && SameOffer(t, u)
    ensures SameOffer(s, u)
  {
  }

  lemma {:induction false} SameAvailable(s: Votes, t: Votes, proxy: nat, producers: seq<nat>, voting: bool)
    requires SameOffer(s, t)
    ensures Available(s, proxy, producers, voting) <==> Available(t, proxy, producers, voting)
  {
  }

  // Bestowing is refused only for want of the proxy.
  lemma {:induction false} BestowSome(s: Votes, factor: real, x: nat, proxy: nat, weight: int, voting: bool)
    requires Steady(factor) && x in s.voters && x != proxy && weight >= 0
    requires Shape(Unvoted(s, x)) && Weighed(Unvoted(s, x), {})
    ensures Bestow(s, factor, proxy, weight, voting).Some? <==>
            (proxy != 0 ==> proxy in s.voters && (voting ==> s.voters[proxy].isProxy))
  {
    if proxy != 0 && proxy in s.voters {
      var u := Unvoted(s, x);
      assert u.voters[proxy] == s.voters[proxy];
      assert GoodRow(u, proxy, u.voters[proxy]);
      HandOver(s, factor, proxy, weight, s.voters.Keys - {proxy});
    }
  }

  lemma {:induction false} CastSome(
    s: Votes, x: nat, proxy: nat, producers: seq<nat>, before: seq<nat>, last: int, weight: int, voting: bool)
    requires x in s.voters && (proxy != 0 ==> producers == [] && proxy in s.voters && (voting ==> s.voters[proxy].isProxy))
    ensures CastVotes(s, x, proxy, producers, before, last, producers, weight, voting).Some? <==>
            Available(s, proxy, producers, voting)
  {
  }

  lemma {:induction false} WithdrawnOffers(s: Votes, v: Voter, s1: Votes)
    requires (v.proxy != 0 ==> v.proxy in s.voters) && s1 == Withdrawn(s, v)
    ensures SameOffer(s, s1)
  {
    if v.proxy != 0 && v.lastWeight != 0 {
      PassOffers(s, v.proxy, -v.lastWeight);
    }
  }

  lemma {:induction false} WithdrawnShape(s: Votes, x: nat, v: Voter, s1: Votes)
    requires Inv(s, {x}) && x in s.voters && v == s.voters[x]
    requires (v.proxy != 0 ==> v.proxy in s.voters) && s1 == Withdrawn(s, v)
    ensures x in s1.voters && Shape(Unvoted(s1, x)) && Weighed(Unvoted(s1, x), {})
  {
    UnvotedWithdrawn(s, x, v);
    DetachKeeps(s, x);
  }

  lemma {:induction false} SecondStage(
    s: Votes, factor: real, x: nat, proxy: nat, weight: int, voting: bool, s1: Votes, s2: Votes)
    requires Steady(factor) && x in s1.voters && x != proxy && weight >= 0 && SameOffer(s, s1)
    requires Shape(Unvoted(s1, x)) && Weighed(Unvoted(s1, x), {})
    requires Bestow(s1, factor, proxy, weight, voting) == Some(s2)
    ensures SameOffer(s, s2)
  {
    BestowIs(s1, factor, x, proxy, weight, voting);
    if proxy != 0 {
      PassOffers(s1, proxy, weight);
      SameOfferTwice(s, s1, s2);
    }
  }

  // update_votes after the old vote was withdrawn
  lemma {:induction false} RevoteAfter(
    s: Votes, factor: real, x: nat, proxy: nat, producers: seq<nat>, voting: bool, v: Voter, s1: Votes, before: seq<nat>)
    requires x in s.voters && v == s.voters[x] && Withdraw(s, factor, v) == Some(s1) && WeightOf(v) >= 0
    requires before == if v.lastWeight > 0 && v.proxy == 0 then v.producers else []
    requires proxy != 0 ==> producers == []
    ensures var r := Bestow(s1, factor, proxy, WeightOf(v), voting);
            Revote(s, factor, x, proxy, producers, voting)
            == if r.None? || x !in r.value.voters then None
               else CastVotes(r.value, x, proxy, producers, before, v.lastWeight, producers, WeightOf(v), voting)
  {
  }

  lemma {:induction false} RestSucceeds(
    s: Votes, factor: real, x: nat, proxy: nat, producers: seq<nat>, voting: bool, v: Voter, s1: Votes, before: seq<nat>)
    requires Steady(factor) && x in s1.voters && x != proxy && WeightOf(v) >= 0 && SameOffer(s, s1)
    requires Shape(Unvoted(s1, x)) && Weighed(Unvoted(s1, x), {}) && (proxy != 0 ==> producers == [])
    ensures var r := Bestow(s1, factor, proxy, WeightOf(v), voting);
            (r.Some? && x in r.value.voters
             && CastVotes(r.value, x, proxy, producers, before, v.lastWeight, producers, WeightOf(v), voting).Some?)
            <==> Available(s, proxy, producers, voting)
  {
    BestowSome(s1, factor, x, proxy, WeightOf(v), voting);
    SameAvailable(s, s1, proxy, producers, voting);
    var r := Bestow(s1, factor, proxy, WeightOf(v), voting);
    if r.Some? {
      SecondStage(s, factor, x, proxy, WeightOf(v), voting, s1, r.value);
      SameAvailable(s, r.value, proxy, producers, voting);
      CastSome(r.value, x, proxy, producers, before, v.lastWeight, WeightOf(v), voting);
    }
  }

  lemma {:induction false} RevoteSucceeds(s: Votes, factor: real, x: nat, proxy: nat, producers: seq<nat>, voting: bool)
    requires Steady(factor) && Inv(s, {x}) && x != 0 && VoteAllowed(s, x, proxy, producers)
    requires s.voters[x].proxy != 0 ==> s.voters[x].proxy in s.voters
    ensures Revote(s, factor, x, proxy, producers, voting).Some? <==> Available(s, proxy, producers, voting)
  {
    var v := s.voters[x];
    var s1 := Withdrawn(s, v);
    var before := if v.lastWeight > 0 && v.proxy == 0 then v.producers else [];
    WithdrawIs(s, factor, x, v);
    WithdrawnOffers(s, v, s1);
    WithdrawnShape(s, x, v, s1);
    WeightNonNegative(s, x);
    RevoteAfter(s, factor, x, proxy, producers, voting, v, s1, before);
    RestSucceeds(s, factor, x, proxy, producers, voting, v, s1, before);
  }

  /** A vote succeeds exactly when it is allowed and what it asks for is there. */
  lemma {:induction false} VoteSucceedsIff(s: Votes, factor: real, x: nat, proxy: nat, producers: seq<nat>, voting: bool)
    requires Steady(factor) && Inv(s, {x}) && x != 0
    ensures UpdateVotes(s, factor, x, proxy, producers, voting).Some? <==>
            VoteAllowed(s, x, proxy, producers) && Available(s, proxy, producers, voting)
  {
    if VoteAllowed(s, x, proxy, producers) {
      var v := s.voters[x];
      assert GoodRow(s, x, v);
      ActivatedKeeps(s, v, {x});
      RevoteSucceeds(Activated(s, v), factor, x, proxy, producers, voting);
    }
  }

  lemma {:induction false} RecastRow(s: Votes, x: nat, proxy: nat, producers: seq<nat>)
    requires Shape(s) && Castable(s, x, proxy, producers)
    requires s.voters[x].proxy != 0 ==> s.voters[x].proxy in s.voters
    ensures Recast(s, x, proxy, producers).voters[x] == Marked(s.voters[x], proxy, producers, WeightOf(s.voters[x]))
    ensures Recast(s, x, proxy, producers).activatedStake == s.activatedStake
  {
    DetachedRow(s, x);
  }

  /** A vote puts on record what was asked for, at the voter's weight, and counts the stake as
      activated if no weight was on record before. */
  lemma {:induction false} VoteRecorded(
    s: Votes, factor: real, x: nat, proxy: nat, producers: seq<nat>, voting: bool, v: Voter, t: Votes)
    requires Steady(factor) && Inv(s, {x}) && UpdateVotes(s, factor, x, proxy, producers, voting) == Some(t)
    requires x in s.voters && v == s.voters[x]
    ensures x in t.voters && t.voters[x] == v.(proxy := proxy, producers := producers, lastWeight := WeightOf(v))
    ensures t.activatedStake == s.activatedStake + if v.lastWeight == 0 then v.staked else 0
  {
    assert GoodRow(s, x, v);
    var s' := Activated(s, v);
    ActivatedKeeps(s, v, {x});
    RevoteIsRecast(s', factor, x, proxy, producers, voting, t);
    RecastRow(s', x, proxy, producers);
  }

  // The vote in force is still available when only the stake changes.
  lemma {:induction false} RestakeSucceeds(s: Votes, factor: real, x: nat, row: Voter, s1: Votes)
    requires Steady(factor) && Inv(s, {}) && Reweighed(s, x, row, s1) && x != 0
    ensures Restake(s, factor, x, row).Some?
  {
    ReweighKeeps(s, x, row, s1);
    if Engaged(row) {
      assert GoodRow(s1, x, s1.voters[x]);
      VoteSucceedsIff(s1, factor, x, row.proxy, row.producers, false);
    }
  }

  lemma {:induction false} ChangeStakeSome(s: Votes, factor: real, x: nat, delta: int, v: Voter, row: Voter)
    requires v == (if x in s.voters then s.voters[x] else NO_VOTE) && row == v.(staked := v.staked + delta)
    ensures ChangeStake(s, factor, x, delta).Some? <==> row.staked >= 0 && Restake(s, factor, x, row).Some?
    ensures !Engaged(row) ==> Restake(s, factor, x, row).Some?
  {
  }

  /** Nothing a voter voted for, and nothing that became of it since, keeps the stake from changing:
      only a stake below zero is refused. */
  lemma {:induction false} StakeChangesIff(s: Votes, factor: real, x: nat, delta: int)
    requires Steady(factor) && Inv(s, {}) && x != 0
    ensures ChangeStake(s, factor, x, delta).Some? <==>
            (if x in s.voters then s.voters[x].staked else 0) + delta >= 0
  {
    var v := if x in s.voters then s.voters[x] else NO_VOTE;
    var row := v.(staked := v.staked + delta);
    ChangeStakeSome(s, factor, x, delta, v, row);
    if x in s.voters && row.staked >= 0 {
      assert GoodRow(s, x, v);
      RestakeSucceeds(s, factor, x, row, s.(voters := s.voters[x := row]));
    }
  }

  /** In every run, whatever was voted, registered and unregistered before. */
  lemma {:induction false} StakeNeverStuck(factor: real, actions: seq<Action>, x: nat, delta: int)
    requires Steady(factor) && x != 0
    ensures var s := Run(factor, actions);
            ChangeStake(s, factor, x, delta).Some? <==>
            (if x in s.voters then s.voters[x].staked else 0) + delta >= 0
  {
    RunKeeps(factor, actions);
    StakeChangesIff(Run(factor, actions), factor, x, delta);
  }
}
