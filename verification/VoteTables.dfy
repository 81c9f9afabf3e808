/** The tables of the system contract as they are updated in place, action by action. Each method
    computes the step of module Voting; an action that fails leaves the tables as they were. */
module VoteTables {
  import opened Options
  import opened Sums
  import opened Voting

  // ---------- the overall total follows the changes producer by producer ----------

  function Listed(listed: seq<nat>, producers: map<nat, Producer>, weight: int): nat -> int {
    p => if p in listed && p in producers then weight else 0
  }

  lemma {:induction false} SumListed(keys: set<nat>, listed: seq<nat>, producers: map<nat, Producer>, weight: int)
    requires Ascending(listed) && forall p :: p in listed ==> p in keys
    ensures Sum(keys, Listed(listed, producers, weight)) == Times(CountIn(listed, producers), weight)
    decreases |listed|
  {
    if listed == [] {
      SumZero(keys, Listed(listed, producers, weight));
    } else {
      var rest := listed[1..];
      assert listed[0] !in rest;
      SumListed(keys, rest, producers, weight);
      SumChange(keys, Listed(rest, producers, weight), Listed(listed, producers, weight), listed[0]);
    }
  }

  // What the change of a producer adds to the overall total.
  function Change(
    before: seq<nat>, last: int, after: seq<nat>, weight: int, producers: map<nat, Producer>): nat -> int
  {
    p => if p in producers then DeltaFor(p, before, last, after, weight) else 0
  }

  lemma {:induction false} SumSplit(keys: set<nat>, f: nat -> int, g: nat -> int, h: nat -> int)
    requires forall x :: x in keys ==> f(x) == g(x) - h(x)
    ensures Sum(keys, f) == Sum(keys, g) - Sum(keys, h)
    decreases |keys|
  {
    if keys != {} {
      var x :| x in keys;
      SumTake(keys, f, x);
      SumTake(keys, g, x);
      SumTake(keys, h, x);
      SumSplit(keys - {x}, f, g, h);
    }
  }

  lemma {:induction false} SumChanges(
    keys: set<nat>, before: seq<nat>, last: int, after: seq<nat>, weight: int, producers: map<nat, Producer>)
    requires Ascending(before) && Ascending(after)
    requires forall p :: p in before || p in after ==> p in keys
    ensures Sum(keys, Change(before, last, after, weight, producers))
         == Times(CountIn(after, producers), weight) - Times(CountIn(before, producers), last)
  {
    SumListed(keys, before, producers, last);
    SumListed(keys, after, producers, weight);
    SumSplit(keys, Change(before, last, after, weight, producers),
             Listed(after, producers, weight), Listed(before, producers, last));
  }

  // ---------- the changes of one vote, by producer ----------

  // The change of a producer's total, and whether the producer is in the new vote.
  datatype Delta = Delta(votes: int, isNew: bool)

  function Votes0(deltas: map<nat, Delta>, p: nat): int {
    if p in deltas then deltas[p].votes else 0
  }

  // r is deltas with the change of the listed producers entered.
  ghost predicate Merged(r: map<nat, Delta>, deltas: map<nat, Delta>, listed: seq<nat>, change: int, isNew: bool) {
    && (forall p :: p in r <==> p in deltas || p in listed)
    && (forall p :: p in r ==>
          r[p] == if p in listed then Delta(Votes0(deltas, p) + change, isNew) else Delta(Votes0(deltas, p), deltas[p].isNew))
  }

  lemma {:induction false} EnterOne(
    r: map<nat, Delta>, deltas: map<nat, Delta>, front: seq<nat>, p: nat, change: int, isNew: bool)
    requires Merged(r, deltas, front, change, isNew) && p !in front
    ensures Merged(r[p := Delta(Votes0(r, p) + change, isNew)], deltas, front + [p], change, isNew)
  {
    assert Votes0(r, p) == Votes0(deltas, p);
  }

  // The first i of the list have been added to.
  ghost predicate Added(m: map<nat, Producer>, listed: seq<nat>, i: nat, delta: int, now: map<nat, Producer>) {
    i <= |listed| && now == AddVotes(m, listed[..i], delta) && forall p :: p in listed[..i] ==> p in m
  }

  lemma {:induction false} AddedNone(m: map<nat, Producer>, listed: seq<nat>, delta: int)
    ensures Added(m, listed, 0, delta, m)
  {
  }

  lemma {:induction false} AddedNext(
    m: map<nat, Producer>, listed: seq<nat>, i: nat, delta: int, now: map<nat, Producer>, p: nat)
    requires Ascending(listed) && Added(m, listed, i, delta, now) && i < |listed| && p == listed[i]
    ensures p in now <==> p in m
    ensures p in now ==> Added(m, listed, i + 1, delta, now[p := now[p].(totalVotes := now[p].totalVotes + delta)])
  {
    assert p !in listed[..i];
    assert listed[..i + 1] == listed[..i] + [p];
  }

  lemma {:induction false} AddedAll(m: map<nat, Producer>, listed: seq<nat>, delta: int, now: map<nat, Producer>)
    requires Added(m, listed, |listed|, delta, now)
    ensures now == AddVotes(m, listed, delta) && forall p :: p in listed ==> p in m
  {
    assert listed[..|listed|] == listed;
  }

  method Enter(deltas: map<nat, Delta>, listed: seq<nat>, change: int, isNew: bool) returns (r: map<nat, Delta>)
    requires Ascending(listed)
    ensures Merged(r, deltas, listed, change, isNew)
  {
    r := deltas;
    var i := 0;
    while i < |listed|
      invariant 0 <= i <= |listed|
      invariant Merged(r, deltas, listed[..i], change, isNew)
    {
      var p := listed[i];
      EnterOne(r, deltas, listed[..i], p, change, isNew);
      assert listed[..i + 1] == listed[..i] + [p];
      r := r[p := Delta(Votes0(r, p) + change, isNew)];
      i := i + 1;
    }
    assert listed[..i] == listed;
  }

  predicate Accepted(deltas: map<nat, Delta>, producers: map<nat, Producer>, voting: bool) {
    forall p :: p in deltas && deltas[p].isNew ==> p in producers && (voting ==> producers[p].active)
  }

  function Updated(producers: map<nat, Producer>, deltas: map<nat, Delta>, done: set<nat>): map<nat, Producer> {
    map p | p in producers ::
      if p in done && p in deltas then
        producers[p].(totalVotes := AtLeastZero(producers[p].totalVotes + deltas[p].votes))
      else producers[p]
  }

  function Entered(deltas: map<nat, Delta>, producers: map<nat, Producer>): nat -> int {
    p => if p in deltas && p in producers then deltas[p].votes else 0
  }

  lemma {:induction false} ApplyOne(producers: map<nat, Producer>, deltas: map<nat, Delta>, done: set<nat>, p: nat)
    requires p in deltas && p !in done
    ensures Updated(producers, deltas, done + {p})
         == if p in producers then
              Updated(producers, deltas, done)[
                p := producers[p].(totalVotes := AtLeastZero(producers[p].totalVotes + deltas[p].votes))]
            else Updated(producers, deltas, done)
    ensures Sum(done + {p}, Entered(deltas, producers))
         == Sum(done, Entered(deltas, producers)) + (if p in producers then deltas[p].votes else 0)
  {
    SumTake(done + {p}, Entered(deltas, producers), p);
    assert done + {p} - {p} == done;
  }

  // The changes of a vote that is taken back from `before` and cast for `after`.
  ghost predicate Collected(deltas: map<nat, Delta>, before: seq<nat>, last: int, after: seq<nat>, weight: int) {
    && (forall p :: p in deltas <==> p in before || p in after)
    && (forall p :: p in deltas ==> deltas[p] == Delta(DeltaFor(p, before, last, after, weight), p in after))
  }

  lemma {:induction false} MergedTwice(
    first: map<nat, Delta>, second: map<nat, Delta>, before: seq<nat>, last: int, after: seq<nat>, weight: int)
    requires Merged(first, map[], before, -last, false) && Merged(second, first, after, weight, true)
    ensures Collected(second, before, last, after, weight)
  {
  }

  lemma {:induction false} CollectedAccepted(
    deltas: map<nat, Delta>, before: seq<nat>, last: int, after: seq<nat>, weight: int, producers: map<nat, Producer>,
    voting: bool)
    requires Collected(deltas, before, last, after, weight)
    ensures Accepted(deltas, producers, voting)
       <==> !(exists p :: p in after && (p !in producers || (voting && !producers[p].active)))
  {
    if Accepted(deltas, producers, voting) {
      forall p | p in after ensures p in producers && (voting ==> producers[p].active) {
        assert p in deltas && deltas[p].isNew;
      }
    }
  }

  lemma {:induction false} CollectedApplied(
    deltas: map<nat, Delta>, before: seq<nat>, last: int, after: seq<nat>, weight: int, producers: map<nat, Producer>)
    requires Collected(deltas, before, last, after, weight) && Ascending(before) && Ascending(after)
    ensures Updated(producers, deltas, deltas.Keys) == ApplyDeltas(producers, before, last, after, weight)
    ensures Sum(deltas.Keys, Entered(deltas, producers))
         == Times(CountIn(after, producers), weight) - Times(CountIn(before, producers), last)
  {
    SumChanges(deltas.Keys, before, last, after, weight, producers);
    SumSame(deltas.Keys, Entered(deltas, producers), Change(before, last, after, weight, producers));
  }

  // The vote as the loop over its changes casts it.
  lemma {:induction false} CastWhole(
    s: Votes, voter: nat, proxy: nat, listed: seq<nat>, before: seq<nat>, last: int, after: seq<nat>, weight: int,
    voting: bool, deltas: map<nat, Delta>)
    requires voter in s.voters && Collected(deltas, before, last, after, weight) && Ascending(before) && Ascending(after)
    ensures CastVotes(s, voter, proxy, listed, before, last, after, weight, voting)
         == if Accepted(deltas, s.producers, voting) then
              Some(s.(
                voters := s.voters[voter := s.voters[voter].(lastWeight := weight, producers := listed, proxy := proxy)],
                producers := Updated(s.producers, deltas, deltas.Keys),
                totalWeight := s.totalWeight + Sum(deltas.Keys, Entered(deltas, s.producers))))
            else None
  {
    CollectedAccepted(deltas, before, last, after, weight, s.producers, voting);
    CollectedApplied(deltas, before, last, after, weight, s.producers);
  }

  // ---------- the tables ----------

  class Tables {
    var voters: map<nat, Voter>
    var producers: map<nat, Producer>
    var totalWeight: int
    var activatedStake: int

    constructor ()
      ensures State() == GENESIS && Valid()
    {
      voters, producers, totalWeight, activatedStake := map[], map[], 0, 0;
    }

    function State(): Votes
      reads this
    {
      Votes(voters, producers, totalWeight, activatedStake)
    }

    // Votes are recorded in order, without repetition.
    ghost predicate Valid()
      reads this
    {
      forall a {:trigger voters[a]} :: a in voters ==> Ascending(voters[a].producers)
    }

    method Restore(saved: Votes)
      modifies this
      ensures State() == saved
    {
      voters, producers := saved.voters, saved.producers;
      totalWeight, activatedStake := saved.totalWeight, saved.activatedStake;
    }

    // The loop of propagate_weight_change over the producers of a voter.
    method AddToListed(listed: seq<nat>, delta: int) returns (ok: bool)
      requires Ascending(listed)
      modifies this`producers, this`totalWeight
      ensures ok <==> forall p :: p in listed ==> p in old(producers)
      ensures ok ==> producers == AddVotes(old(producers), listed, delta)
      ensures ok ==> totalWeight == old(totalWeight) + Times(|listed|, delta)
    {
      ok := true;
      var i := 0;
      AddedNone(producers, listed, delta);
      while i < |listed|
        invariant Added(old(producers), listed, i, delta, producers)
        invariant totalWeight == old(totalWeight) + Times(i, delta)
      {
        var p := listed[i];
        AddedNext(old(producers), listed, i, delta, producers, p);
        if p !in producers {
          ok := false;
          return;
        }
        producers := producers[p := producers[p].(totalVotes := producers[p].totalVotes + delta)];
        totalWeight := totalWeight + delta;
        i := i + 1;
      }
      AddedAll(old(producers), listed, delta, producers);
    }

    method PropagateWeight(factor: real, name: nat, todo: set<nat>) returns (ok: bool)
      requires Valid() && name in voters
      modifies this
      ensures ok <==> Propagate(old(State()), factor, name, todo).Some?
      ensures ok ==> State() == Propagate(old(State()), factor, name, todo).value && Valid()
      decreases |todo|
    {
      var v := voters[name];
      if v.proxy != 0 && v.isProxy {
        return false;
      }
      var weight := WeightOf(v);
      if PassedOn(factor, weight - v.lastWeight) {
        if v.proxy != 0 {
          if v.proxy !in voters || v.proxy !in todo || name == v.proxy {
            return false;
          }
          var a := voters[v.proxy];
          voters := voters[v.proxy := a.(proxied := a.proxied + (weight - v.lastWeight))];
          ok := PropagateWeight(factor, v.proxy, todo - {v.proxy});
          if !ok || name !in voters {
            return false;
          }
        } else {
          ok := AddToListed(v.producers, weight - v.lastWeight);
          if !ok {
            return false;
          }
        }
      }
      voters := voters[name := voters[name].(lastWeight := weight)];
      ok := true;
    }

    // The loop of update_votes over the collected changes; their order does not matter.
    method ApplyAll(deltas: map<nat, Delta>, voting: bool) returns (ok: bool)
      modifies this`producers, this`totalWeight
      ensures ok <==> Accepted(deltas, old(producers), voting)
      ensures ok ==> producers == Updated(old(producers), deltas, deltas.Keys)
      ensures ok ==> totalWeight == old(totalWeight) + Sum(deltas.Keys, Entered(deltas, old(producers)))
    {
      var todo := deltas.Keys;
      assert deltas.Keys - todo == {};
      while todo != {}
        invariant todo <= deltas.Keys
        invariant producers == Updated(old(producers), deltas, deltas.Keys - todo)
        invariant totalWeight == old(totalWeight) + Sum(deltas.Keys - todo, Entered(deltas, old(producers)))
        invariant forall p :: p in deltas && p !in todo && deltas[p].isNew ==>
                    p in old(producers) && (voting ==> old(producers)[p].active)
      {
        var p :| p in todo;
        var d := deltas[p];
        ghost var done := deltas.Keys - todo;
        ApplyOne(old(producers), deltas, done, p);
        assert deltas.Keys - (todo - {p}) == done + {p};
        if p in producers {
          if voting && !producers[p].active && d.isNew {
            return false;
          }
          producers := producers[p := producers[p].(totalVotes := AtLeastZero(producers[p].totalVotes + d.votes))];
          totalWeight := totalWeight + d.votes;
        } else if d.isNew {
          return false;
        }
        todo := todo - {p};
      }
      assert deltas.Keys - todo == deltas.Keys;
      ok := true;
    }

    // Taking the weight last cast back from the proxy, as far as there is one.
    method WithdrawVote(factor: real, v: Voter) returns (ok: bool)
      requires Valid()
      modifies this
      ensures ok <==> Withdraw(old(State()), factor, v).Some?
      ensures ok ==> State() == Withdraw(old(State()), factor, v).value && Valid()
    {
      ok := true;
      if v.lastWeight > 0 && v.proxy != 0 {
        if v.proxy !in voters {
          return false;
        }
        var a, others := voters[v.proxy], voters.Keys - {v.proxy};
        voters := voters[v.proxy := a.(proxied := a.proxied + -v.lastWeight)];
        ok := PropagateWeight(factor, v.proxy, others);
      }
    }

    method BestowVote(factor: real, proxy: nat, weight: int, voting: bool) returns (ok: bool)
      requires Valid()
      modifies this
      ensures ok <==> Bestow(old(State()), factor, proxy, weight, voting).Some?
      ensures ok ==> State() == Bestow(old(State()), factor, proxy, weight, voting).value && Valid()
    {
      ok := true;
      if proxy != 0 {
        if proxy !in voters || (voting && !voters[proxy].isProxy) {
          return false;
        }
        if weight >= 0 {
          var a, others := voters[proxy], voters.Keys - {proxy};
          voters := voters[proxy := a.(proxied := a.proxied + weight)];
          ok := PropagateWeight(factor, proxy, others);
        }
      }
    }

    method CastVote(
      voter: nat, proxy: nat, listed: seq<nat>, before: seq<nat>, last: int, after: seq<nat>, weight: int, voting: bool)
      returns (ok: bool)
      requires Valid() && voter in voters && Ascending(before) && Ascending(after) && Ascending(listed)
      modifies this
      ensures ok <==> CastVotes(old(State()), voter, proxy, listed, before, last, after, weight, voting).Some?
      ensures ok ==> State() == CastVotes(old(State()), voter, proxy, listed, before, last, after, weight, voting).value
      ensures ok ==> Valid()
    {
      var taken := Enter(map[], before, -last, false);
      var deltas := Enter(taken, after, weight, true);
      MergedTwice(taken, deltas, before, last, after, weight);
      CastWhole(State(), voter, proxy, listed, before, last, after, weight, voting, deltas);
      ok := ApplyAll(deltas, voting);
      voters := voters[voter := voters[voter].(lastWeight := weight, producers := listed, proxy := proxy)];
    }

    // The adjacent comparisons of the source order the whole list.
    method InOrder(names: seq<nat>) returns (ok: bool)
      ensures ok <==> Ascending(names)
    {
      var i := 1;
      while i < |names|
        invariant 1 <= i && (i <= |names| || i == 1)
        invariant forall j, k :: 0 <= j < k < i ==> names[j] < names[k]
      {
        if names[i - 1] >= names[i] {
          return false;
        }
        i := i + 1;
      }
      ok := true;
    }

    method AllowVote(voter: nat, proxy: nat, listed: seq<nat>) returns (ok: bool)
      ensures ok <==> VoteAllowed(State(), voter, proxy, listed)
    {
      if proxy != 0 {
        ok := listed == [] && voter != proxy;
      } else {
        ok := InOrder(listed);
        ok := ok && |listed| <= MAX_VOTES;
      }
      ok := ok && voter in voters && (proxy != 0 ==> !voters[voter].isProxy);
    }

    // update_votes; an error undoes the action.
    method UpdateVote(factor: real, voter: nat, proxy: nat, listed: seq<nat>, voting: bool) returns (ok: bool)
      requires Valid()
      modifies this
      ensures ok <==> UpdateVotes(old(State()), factor, voter, proxy, listed, voting).Some?
      ensures State() == if ok then UpdateVotes(old(State()), factor, voter, proxy, listed, voting).value else old(State())
      ensures Valid()
    {
      var saved := State();
      ok := AllowVote(voter, proxy, listed);
      if ok {
        var v := voters[voter];
        if v.lastWeight <= 0 {
          activatedStake := activatedStake + v.staked;
        }
        ok := Redo(factor, voter, proxy, listed, voting);
      }
      if !ok {
        Restore(saved);
      }
    }

    method Redo(factor: real, voter: nat, proxy: nat, listed: seq<nat>, voting: bool) returns (ok: bool)
      requires Valid() && voter in voters && (proxy == 0 ==> Ascending(listed)) && (proxy != 0 ==> listed == [])
      modifies this
      ensures ok <==> Revote(old(State()), factor, voter, proxy, listed, voting).Some?
      ensures ok ==> State() == Revote(old(State()), factor, voter, proxy, listed, voting).value && Valid()
    {
      var v := voters[voter];
      var weight := WeightOf(v);
      ok := WithdrawVote(factor, v);
      if !ok {
        return;
      }
      ok := BestowVote(factor, proxy, weight, voting);
      if !ok || voter !in voters {
        return false;
      }
      var before := if v.lastWeight > 0 && v.proxy == 0 then v.producers else [];
      var after := if proxy == 0 && weight >= 0 then listed else [];
      ok := CastVote(voter, proxy, listed, before, v.lastWeight, after, weight, voting);
    }

    method RegisterProxy(factor: real, name: nat, isProxy: bool) returns (ok: bool)
      requires Valid()
      modifies this
      ensures ok <==> RegProxy(old(State()), factor, name, isProxy).Some?
      ensures State() == if ok then RegProxy(old(State()), factor, name, isProxy).value else old(State())
      ensures Valid()
    {
      if name in voters {
        var saved := State();
        var v, others := voters[name], voters.Keys - {name};
        if isProxy == v.isProxy || (isProxy && v.proxy != 0) {
          return false;
        }
        voters := voters[name := v.(isProxy := isProxy)];
        ok := PropagateWeight(factor, name, others);
        if !ok {
          Restore(saved);
        }
      } else {
        voters := voters[name := NO_VOTE.(isProxy := isProxy)];
        ok := true;
      }
    }

    method SetStake(factor: real, name: nat, delta: int) returns (ok: bool)
      requires Valid()
      modifies this
      ensures ok <==> ChangeStake(old(State()), factor, name, delta).Some?
      ensures State() == if ok then ChangeStake(old(State()), factor, name, delta).value else old(State())
      ensures Valid()
    {
      var saved := voters;
      var v := if name in voters then voters[name] else NO_VOTE;
      if v.staked + delta < 0 {
        return false;
      }
      voters := voters[name := v.(staked := v.staked + delta)];
      ok := true;
      if v.producers != [] || v.proxy != 0 {
        ok := UpdateVote(factor, name, v.proxy, v.producers, false);
        if !ok {
          voters := saved;
        }
      }
    }
  }
}
