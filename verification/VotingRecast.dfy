/** A vote taken back and cast anew keeps the tallies exact. */
module VotingRecast {
  import opened Voting
  import opened VotingTally
  import opened VotingSteps

  // ---------- casting a vote ----------

  function Marked(v: Voter, proxy: nat, producers: seq<nat>, weight: int): Voter {
    v.(proxy := proxy, producers := producers, lastWeight := weight)
  }

  function Voted(s: Votes, x: nat, proxy: nat, producers: seq<nat>, weight: int): Votes
    requires x in s.voters
  {
    Edit(s, x, Marked(s.voters[x], proxy, producers, weight), producers, weight)
  }

  // The vote that x may cast in s: what is left of the checks of update_votes.
  ghost predicate Castable(s: Votes, x: nat, proxy: nat, producers: seq<nat>) {
    && x in s.voters
    && (proxy != 0 ==> producers == [] && proxy in s.voters && proxy != x && !s.voters[x].isProxy)
    && Ascending(producers) && |producers| <= MAX_VOTES
    && forall p :: p in producers ==> p in s.producers
  }

  lemma {:induction false} VotedShape(s: Votes, x: nat, proxy: nat, producers: seq<nat>, weight: int)
    requires Shape(s) && Castable(s, x, proxy, producers) && weight >= 0
    ensures Shape(Voted(s, x, proxy, producers, weight))
  {
    assert GoodRow(s, x, s.voters[x]);
    ShapeChange(s, Voted(s, x, proxy, producers, weight), x);
  }

  lemma {:induction false} VotedProxies(s: Votes, x: nat, proxy: nat, producers: seq<nat>, weight: int)
    requires Shape(s) && ProxiesTallied(s) && Castable(s, x, proxy, producers) && !Engaged(s.voters[x])
    ensures ProxiesOff(Voted(s, x, proxy, producers, weight), proxy, -weight)
  {
    ProxiesChange(s, Voted(s, x, proxy, producers, weight), x);
  }

  lemma {:induction false} VotedTallied(s: Votes, x: nat, proxy: nat, producers: seq<nat>, weight: int)
    requires Tallied(s) && Castable(s, x, proxy, producers) && !Engaged(s.voters[x])
    ensures Tallied(Voted(s, x, proxy, producers, weight))
  {
    TalliedChange(s, Voted(s, x, proxy, producers, weight), x);
  }

  lemma {:induction false} VotedTotal(s: Votes, x: nat, proxy: nat, producers: seq<nat>, weight: int)
    requires s.totalWeight == AllVotes(s.producers) && Castable(s, x, proxy, producers)
    ensures var t := Voted(s, x, proxy, producers, weight); t.totalWeight == AllVotes(t.producers)
  {
    AddVotesTotal(s.producers, producers, weight);
  }

  // ---------- the vote taken back and cast anew ----------

  function Handed(s: Votes, a: nat, weight: int): Votes
    requires a != 0 ==> a in s.voters
  {
    if a == 0 then s else Pass(s, a, weight)
  }

  function Recast(s: Votes, x: nat, proxy: nat, producers: seq<nat>): Votes
    requires x in s.voters && (s.voters[x].proxy != 0 ==> s.voters[x].proxy in s.voters)
    requires proxy != 0 ==> proxy in s.voters
  {
    var weight := WeightOf(s.voters[x]);
    Handed(Voted(Detached(s, x), x, proxy, producers, weight), proxy, weight)
  }

  // Taking the vote back leaves the voter's own weight alone.
  lemma {:induction false} DetachedRow(s: Votes, x: nat)
    requires Shape(s) && x in s.voters
    ensures Detached(s, x).voters.Keys == s.voters.Keys && Detached(s, x).producers.Keys == s.producers.Keys
    ensures Detached(s, x).voters[x] == s.voters[x].(proxy := 0, producers := [])
  {
    assert GoodRow(s, x, s.voters[x]);
  }

  lemma {:induction false} VotedWeighed(s: Votes, x: nat, proxy: nat, producers: seq<nat>, weight: int)
    requires Weighed(s, {}) && x in s.voters && weight == WeightOf(s.voters[x])
    ensures Weighed(Voted(s, x, proxy, producers, weight), {})
  {
    WeighedChange(s, Voted(s, x, proxy, producers, weight), x, {});
  }

  lemma {:induction false} VotedKeeps(s: Votes, x: nat, proxy: nat, producers: seq<nat>, weight: int)
    requires Inv(s, {}) && Castable(s, x, proxy, producers) && !Engaged(s.voters[x]) && weight == WeightOf(s.voters[x])
    ensures AllButProxies(Voted(s, x, proxy, producers, weight))
    ensures ProxiesOff(Voted(s, x, proxy, producers, weight), proxy, -weight)
  {
    WeightNonNegative(s, x);
    VotedShape(s, x, proxy, producers, weight);
    VotedWeighed(s, x, proxy, producers, weight);
    VotedProxies(s, x, proxy, producers, weight);
    VotedTallied(s, x, proxy, producers, weight);
    VotedTotal(s, x, proxy, producers, weight);
  }

  lemma {:induction false} HandedKeeps(s: Votes, a: nat, weight: int, t: Votes)
    requires AllButProxies(s) && ProxiesOff(s, a, -weight) && (a != 0 ==> a in s.voters) && t == Handed(s, a, weight)
    ensures Inv(t, {})
  {
    if a == 0 {
      NothingOff(s, a, -weight);
    } else {
      PassKeeps(s, a, weight, t);
    }
  }

  lemma {:induction false} RecastKeeps(s: Votes, x: nat, proxy: nat, producers: seq<nat>)
    requires Inv(s, {x}) && Castable(s, x, proxy, producers)
    requires s.voters[x].proxy != 0 ==> s.voters[x].proxy in s.voters
    ensures Inv(Recast(s, x, proxy, producers), {})
  {
    var weight := WeightOf(s.voters[x]);
    DetachKeeps(s, x);
    DetachedRow(s, x);
    VotedKeeps(Detached(s, x), x, proxy, producers, weight);
    HandedKeeps(Voted(Detached(s, x), x, proxy, producers, weight), proxy, weight, Recast(s, x, proxy, producers));
  }

  // ---------- update_votes takes the vote back and casts it anew ----------

  lemma {:induction false} AddVotesCommute(m: map<nat, Producer>, l1: seq<nat>, d1: int, l2: seq<nat>, d2: int)
    ensures AddVotes(AddVotes(m, l1, d1), l2, d2) == AddVotes(AddVotes(m, l2, d2), l1, d1)
  {
  }

  // Editing the row of x and handing weight to another account can be done in either order.
  lemma {:induction false} EditCommutes(s: Votes, x: nat, row: Voter, listed: seq<nat>, d: int, a: nat, weight: int)
    requires a in s.voters && x in s.voters && a != x
    ensures Pass(Edit(s, x, row, listed, d), a, weight) == Edit(Pass(s, a, weight), x, row, listed, d)
  {
    var v := s.voters[a].(proxied := s.voters[a].proxied + weight);
    AddVotesCommute(s.producers, listed, d, v.producers, WeightOf(v) - v.lastWeight);
    assert s.voters[x := row][a := v] == s.voters[a := v][x := row];
    assert s.voters[x := row][a := v][a := v.(lastWeight := WeightOf(v))]
        == s.voters[a := v][a := v.(lastWeight := WeightOf(v))][x := row];
  }

  lemma {:induction false} TimesNegated(n: nat, k: int)
    ensures Times(n, -k) == -Times(n, k)
    decreases n
  {
    if n > 0 {
      TimesNegated(n - 1, k);
    }
  }

  lemma {:induction false} CountAll(listed: seq<nat>, producers: map<nat, Producer>)
    requires forall p :: p in listed ==> p in producers
    ensures CountIn(listed, producers) == |listed|
    decreases |listed|
  {
    if listed != [] {
      assert listed[0] in listed;
      CountAll(listed[1..], producers);
    }
  }

  // Where no total falls below zero the two lists of changes amount to taking away and adding.
  lemma {:induction false} DeltasApplied(m: map<nat, Producer>, before: seq<nat>, last: int, after: seq<nat>, weight: int)
    requires forall p {:trigger m[p]} :: p in m ==> AddVotes(AddVotes(m, before, -last), after, weight)[p].totalVotes >= 0
    ensures ApplyDeltas(m, before, last, after, weight) == AddVotes(AddVotes(m, before, -last), after, weight)
  {
  }
}
