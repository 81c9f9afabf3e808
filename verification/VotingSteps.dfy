/** Each elementary change of a vote keeps the tallies exact. */
module VotingSteps {
  import opened Options
  import opened Voting
  import opened VotingTally

  lemma {:induction false} TimesZero(n: nat)
    ensures Times(n, 0) == 0
    decreases n
  {
    if n > 0 {
      TimesZero(n - 1);
    }
  }

  // ---------- bringing one recorded weight up to date ----------

  function Refreshed(s: Votes, name: nat): Votes
    requires name in s.voters
  {
    var v := s.voters[name];
    var weight := WeightOf(v);
    var delta := weight - v.lastWeight;
    SetLast(
      s.(producers := AddVotes(s.producers, v.producers, delta), totalWeight := s.totalWeight + Times(|v.producers|, delta)),
      name, weight)
  }

  /** The factors for which no change of weight is too small to be passed on: one token is worth
      more than one vote. */
  predicate Steady(factor: real) {
    factor > 1.0
  }

  lemma {:induction false} SteadyPassesOn(factor: real, delta: int)
    requires Steady(factor)
    ensures PassedOn(factor, delta) <==> delta != 0
  {
    var k := if delta < 0 then -delta else delta;
    if k >= 1 {
      assert factor * (k as real) >= factor;
    }
  }

  // For steady factors propagation never recurses and never drops a change.
  lemma {:induction false} PropagateIsRefreshed(s: Votes, factor: real, name: nat, todo: set<nat>)
    requires Steady(factor) && name in s.voters && GoodRow(s, name, s.voters[name])
    requires s.voters[name].proxy != 0 ==> s.voters[name].lastWeight == WeightOf(s.voters[name])
    ensures Propagate(s, factor, name, todo) == Some(Refreshed(s, name))
  {
    var v := s.voters[name];
    SteadyPassesOn(factor, WeightOf(v) - v.lastWeight);
    if WeightOf(v) == v.lastWeight {
      TimesZero(|v.producers|);
      assert AddVotes(s.producers, v.producers, 0) == s.producers;
    }
  }

  lemma {:induction false} WeightNonNegative(s: Votes, name: nat)
    requires Shape(s) && ProxiesTallied(s) && name in s.voters
    ensures WeightOf(s.voters[name]) >= 0
  {
    ProxiedNonNegative(s, name);
  }

  // ---------- changing one row ----------

  // t is s with the row of x replaced, over the same producers.
  ghost predicate RowChanged(s: Votes, t: Votes, x: nat) {
    && x in s.voters && x in t.voters
    && t.voters == s.voters[x := t.voters[x]]
    && t.producers.Keys == s.producers.Keys
  }

  lemma {:induction false} ShapeChange(s: Votes, t: Votes, x: nat)
    requires RowChanged(s, t, x) && Shape(s) && GoodRow(t, x, t.voters[x])
    ensures Shape(t)
  {
    forall a | a in t.voters ensures GoodRow(t, a, t.voters[a]) {
      if a != x {
        assert GoodRow(s, a, s.voters[a]);
      }
    }
  }

  lemma {:induction false} WeighedChange(s: Votes, t: Votes, x: nat, except: set<nat>)
    requires RowChanged(s, t, x) && Weighed(s, except + {x})
    requires x in except || !Engaged(t.voters[x]) || t.voters[x].lastWeight == WeightOf(t.voters[x])
    ensures Weighed(t, except)
  {
    forall a | a in t.voters && a !in except && Engaged(t.voters[a])
      ensures t.voters[a].lastWeight == WeightOf(t.voters[a])
    {
      if a != x {
        assert t.voters[a] == s.voters[a];
      }
    }
  }

  lemma {:induction false} TalliedChange(s: Votes, t: Votes, x: nat)
    requires RowChanged(s, t, x) && Tallied(s)
    requires forall p {:trigger t.producers[p]} :: p in t.producers ==>
               t.producers[p].totalVotes == s.producers[p].totalVotes - Share(s.voters[x], p) + Share(t.voters[x], p)
    ensures Tallied(t)
  {
    forall p | p in t.producers ensures t.producers[p].totalVotes == VotesFor(t.voters, p) {
      VotesForUpdate(s.voters, x, t.voters[x], p);
    }
  }

  // The vote of x moves from one proxy to another, or to none.
  lemma {:induction false} ProxiesChange(s: Votes, t: Votes, x: nat)
    requires RowChanged(s, t, x) && ProxiesTallied(s) && t.voters[x].proxied == s.voters[x].proxied && Shape(s)
    requires t.voters[x].proxy != 0 ==> s.voters[x].proxy == 0 || t.voters[x] == s.voters[x].(lastWeight := s.voters[x].lastWeight)
    ensures t.voters[x].proxy == 0 ==> ProxiesOff(t, s.voters[x].proxy, s.voters[x].lastWeight)
    ensures t.voters[x].proxy != 0 && s.voters[x].proxy == 0 ==> ProxiesOff(t, t.voters[x].proxy, -t.voters[x].lastWeight)
  {
    forall b | b in t.voters
      ensures t.voters[b].proxied
           == ProxiedTo(t.voters, b) + Delegated(s.voters[x], b) - Delegated(t.voters[x], b)
    {
      ProxiedToUpdate(s.voters, x, t.voters[x], b);
      assert b == x || t.voters[b] == s.voters[b];
    }
  }

  // Correcting the proxied weight that is off.
  lemma {:induction false} ProxiedFixed(s: Votes, a: nat, delta: int)
    requires ProxiesOff(s, a, -delta) && a in s.voters
    ensures ProxiesTallied(AddProxied(s, a, delta))
  {
    var t := AddProxied(s, a, delta);
    forall b | b in t.voters ensures t.voters[b].proxied == ProxiedTo(t.voters, b) {
      ProxiedToUpdate(s.voters, a, t.voters[a], b);
    }
  }

  // The invariant, but for what is proxied.
  ghost predicate AllButProxies(s: Votes) {
    Shape(s) && Weighed(s, {}) && Tallied(s) && s.totalWeight == AllVotes(s.producers)
  }

  lemma {:induction false} AddProxiedRows(s: Votes, a: nat, delta: int)
    requires Shape(s) && Weighed(s, {}) && a in s.voters
    ensures Shape(AddProxied(s, a, delta)) && Weighed(AddProxied(s, a, delta), {a})
  {
    assert GoodRow(s, a, s.voters[a]);
    ShapeChange(s, AddProxied(s, a, delta), a);
    WeighedChange(s, AddProxied(s, a, delta), a, {a});
  }

  lemma {:induction false} AddProxiedKeeps(s: Votes, a: nat, delta: int)
    requires AllButProxies(s)
    requires a in s.voters && ProxiesOff(s, a, -delta)
    ensures Inv(AddProxied(s, a, delta), {a})
  {
    AddProxiedRows(s, a, delta);
    TalliedChange(s, AddProxied(s, a, delta), a);
    ProxiedFixed(s, a, delta);
  }

  // ---------- bringing a recorded weight up to date keeps the tallies ----------

  lemma {:induction false} RefreshRows(s: Votes, name: nat, except: set<nat>)
    requires Shape(s) && ProxiesTallied(s) && Weighed(s, except) && name in s.voters
    ensures Shape(Refreshed(s, name)) && Weighed(Refreshed(s, name), except - {name})
  {
    var t := Refreshed(s, name);
    assert GoodRow(s, name, s.voters[name]);
    WeightNonNegative(s, name);
    ShapeChange(s, t, name);
    WeighedChange(s, t, name, except - {name});
  }

  lemma {:induction false} RefreshTallied(s: Votes, name: nat)
    requires Shape(s) && Tallied(s) && name in s.voters
    requires s.voters[name].proxy != 0 ==> s.voters[name].lastWeight == WeightOf(s.voters[name])
    ensures Tallied(Refreshed(s, name))
  {
    assert GoodRow(s, name, s.voters[name]);
    TalliedChange(s, Refreshed(s, name), name);
  }

  lemma {:induction false} RefreshedTallies(s: Votes, name: nat, v: Voter, delta: int)
    requires name in s.voters && v == s.voters[name] && delta == WeightOf(v) - v.lastWeight
    ensures Refreshed(s, name).producers == AddVotes(s.producers, v.producers, delta)
    ensures Refreshed(s, name).totalWeight == s.totalWeight + Times(|v.producers|, delta)
  {
  }

  lemma {:induction false} RefreshTotal(s: Votes, name: nat)
    requires Shape(s) && s.totalWeight == AllVotes(s.producers) && name in s.voters
    ensures Refreshed(s, name).totalWeight == AllVotes(Refreshed(s, name).producers)
  {
    var v := s.voters[name];
    assert GoodRow(s, name, v);
    var delta := WeightOf(v) - v.lastWeight;
    AddVotesTotal(s.producers, v.producers, delta);
    RefreshedTallies(s, name, v, delta);
  }

  lemma {:induction false} RefreshKeeps(s: Votes, name: nat, except: set<nat>)
    requires Inv(s, except) && name in s.voters
    requires s.voters[name].proxy != 0 ==> s.voters[name].lastWeight == WeightOf(s.voters[name])
    ensures Inv(Refreshed(s, name), except - {name})
  {
    RefreshRows(s, name, except);
    RefreshTallied(s, name);
    RefreshTotal(s, name);
    RefreshProxies(s, name);
  }

  lemma {:induction false} RefreshedRow(s: Votes, name: nat, row: Voter)
    requires name in s.voters && row == s.voters[name].(lastWeight := WeightOf(s.voters[name]))
    ensures Refreshed(s, name).voters == s.voters[name := row]
  {
  }

  lemma {:induction false} RefreshProxies(s: Votes, name: nat)
    requires Shape(s) && ProxiesTallied(s) && name in s.voters
    requires s.voters[name].proxy != 0 ==> s.voters[name].lastWeight == WeightOf(s.voters[name])
    ensures ProxiesTallied(Refreshed(s, name))
  {
    var t := Refreshed(s, name);
    var row := s.voters[name].(lastWeight := WeightOf(s.voters[name]));
    RefreshedRow(s, name, row);
    forall b | b in t.voters ensures t.voters[b].proxied == ProxiedTo(t.voters, b) {
      ProxiedToUpdate(s.voters, name, row, b);
    }
  }

  // ---------- taking a vote back ----------

  // The row of x replaced, with `delta` added to the listed producers.
  function Edit(s: Votes, x: nat, row: Voter, listed: seq<nat>, delta: int): Votes {
    s.(voters := s.voters[x := row],
       producers := AddVotes(s.producers, listed, delta),
       totalWeight := s.totalWeight + Times(|listed|, delta))
  }

  // The voter's row without its vote, the producers it voted for without its weight.
  function Unvoted(s: Votes, x: nat): Votes
    requires x in s.voters
  {
    var v := s.voters[x];
    Edit(s, x, v.(proxy := 0, producers := []), v.producers, -v.lastWeight)
  }

  lemma {:induction false} UnvotedRows(s: Votes, x: nat)
    requires Shape(s) && Weighed(s, {x}) && ProxiesTallied(s) && x in s.voters
    ensures var t := Unvoted(s, x);
            Shape(t) && Weighed(t, {}) && ProxiesOff(t, s.voters[x].proxy, s.voters[x].lastWeight)
  {
    var t := Unvoted(s, x);
    assert GoodRow(s, x, s.voters[x]);
    ShapeChange(s, t, x);
    assert {} + {x} == {x};
    WeighedChange(s, t, x, {});
    ProxiesChange(s, t, x);
  }

  lemma {:induction false} UnvotedTallied(s: Votes, x: nat)
    requires Shape(s) && Tallied(s) && x in s.voters
    ensures Tallied(Unvoted(s, x))
  {
    assert GoodRow(s, x, s.voters[x]);
    TalliedChange(s, Unvoted(s, x), x);
  }

  lemma {:induction false} UnvotedTallies(s: Votes, x: nat, v: Voter, delta: int)
    requires x in s.voters && v == s.voters[x] && delta == -v.lastWeight
    ensures Unvoted(s, x).producers == AddVotes(s.producers, v.producers, delta)
    ensures Unvoted(s, x).totalWeight == s.totalWeight + Times(|v.producers|, delta)
  {
  }

  lemma {:induction false} UnvotedTotal(s: Votes, x: nat)
    requires Shape(s) && s.totalWeight == AllVotes(s.producers) && x in s.voters
    ensures Unvoted(s, x).totalWeight == AllVotes(Unvoted(s, x).producers)
  {
    var v := s.voters[x];
    assert GoodRow(s, x, v);
    var delta := -v.lastWeight;
    AddVotesTotal(s.producers, v.producers, delta);
    UnvotedTallies(s, x, v, delta);
  }

  // Weight handed to a proxy, and what the proxy casts brought up to date.
  function Pass(s: Votes, a: nat, delta: int): Votes
    requires a in s.voters
  {
    Refreshed(AddProxied(s, a, delta), a)
  }

  function Detached(s: Votes, x: nat): Votes
    requires x in s.voters && (s.voters[x].proxy != 0 ==> s.voters[x].proxy in s.voters)
  {
    var v := s.voters[x];
    if v.proxy == 0 || v.lastWeight == 0 then Unvoted(s, x) else Pass(Unvoted(s, x), v.proxy, -v.lastWeight)
  }

  lemma {:induction false} UnvotedKeeps(s: Votes, x: nat)
    requires Inv(s, {x}) && x in s.voters
    ensures AllButProxies(Unvoted(s, x)) && ProxiesOff(Unvoted(s, x), s.voters[x].proxy, s.voters[x].lastWeight)
  {
    UnvotedRows(s, x);
    UnvotedTallied(s, x);
    UnvotedTotal(s, x);
  }

  lemma {:induction false} DetachKeeps(s: Votes, x: nat)
    requires Inv(s, {x}) && x in s.voters && (s.voters[x].proxy != 0 ==> s.voters[x].proxy in s.voters)
    ensures Inv(Detached(s, x), {})
  {
    UnvotedKeeps(s, x);
    assert GoodRow(s, x, s.voters[x]);
    WithdrawnKeeps(Unvoted(s, x), s.voters[x].proxy, s.voters[x].lastWeight, Detached(s, x));
  }

  lemma {:induction false} WithdrawnKeeps(s: Votes, a: nat, weight: int, t: Votes)
    requires AllButProxies(s) && ProxiesOff(s, a, weight) && (a != 0 ==> a in s.voters)
    requires t == if a == 0 || weight == 0 then s else Pass(s, a, -weight)
    ensures Inv(t, {})
  {
    if a == 0 || weight == 0 {
      NothingOff(s, a, weight);
    } else {
      PassKeeps(s, a, -weight, t);
    }
  }

  // Correcting what a proxy holds, and then what it casts.
  lemma {:induction false} PassKeeps(s: Votes, a: nat, delta: int, t: Votes)
    requires AllButProxies(s)
    requires a in s.voters && ProxiesOff(s, a, -delta) && t == Pass(s, a, delta)
    ensures Inv(t, {})
  {
    AddProxiedKeeps(s, a, delta);
    StillWeighed(s, a, delta);
    RefreshKeeps(AddProxied(s, a, delta), a, {a});
    assert {a} - {a} == {};
  }

  lemma {:induction false} NothingOff(s: Votes, a: nat, off: int)
    requires Shape(s) && ProxiesOff(s, a, off) && (a == 0 || off == 0)
    ensures ProxiesTallied(s)
  {
  }

  // A proxy that itself delegates does not count what is delegated to it.
  lemma {:induction false} StillWeighed(s: Votes, a: nat, delta: int)
    requires Shape(s) && Weighed(s, {}) && a in s.voters
    ensures var v := AddProxied(s, a, delta).voters[a];
            v.proxy != 0 ==> v.lastWeight == WeightOf(v)
  {
    assert GoodRow(s, a, s.voters[a]);
  }
}
