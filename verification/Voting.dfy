/** Votes, proxies and producer tallies of the system contract (voting.cpp), at one moment in time.
    All weights are then whole multiples of what one token weighs, and are counted in tokens here:
    a weight of k stands for k * factor votes, with `factor` the positive weight of one token. */
module Voting {
  import opened Options

  // Account names; 0 is no account.
  datatype Voter = Voter(
    proxy: nat,
    producers: seq<nat>,
    staked: int,
    lastWeight: int,
    proxied: int,
    isProxy: bool)

  datatype Producer = Producer(totalVotes: int, active: bool)

  datatype Votes = Votes(
    voters: map<nat, Voter>,
    producers: map<nat, Producer>,
    totalWeight: int,
    activatedStake: int)

  const MAX_VOTES := 30

  function WeightOf(v: Voter): int {
    v.staked + (if v.isProxy then v.proxied else 0)
  }

  // A change of weight is passed on only if it is worth more than one vote.
  predicate PassedOn(factor: real, delta: int) {
    factor * ((if delta < 0 then -delta else delta) as real) > 1.0
  }

  // Adds `delta` to every listed producer.
  function AddVotes(producers: map<nat, Producer>, listed: seq<nat>, delta: int): map<nat, Producer> {
    map p | p in producers ::
      if p in listed then producers[p].(totalVotes := producers[p].totalVotes + delta) else producers[p]
  }

  // x added n times
  function Times(n: nat, x: int): int {
    if n == 0 then 0 else Times(n - 1, x) + x
  }

  function SetLast(s: Votes, name: nat, weight: int): Votes
    requires name in s.voters
  {
    s.(voters := s.voters[name := s.voters[name].(lastWeight := weight)])
  }

  function AddProxied(s: Votes, name: nat, delta: int): Votes
    requires name in s.voters
  {
    s.(voters := s.voters[name := s.voters[name].(proxied := s.voters[name].proxied + delta)])
  }

  /** propagate_weight_change. A change of at most one vote is not passed on, but is recorded as the last
      weight all the same. `todo` holds the accounts that may still be visited; a cycle of proxies
      would never return. */
  function Propagate(s: Votes, factor: real, name: nat, todo: set<nat>): Option<Votes>
    requires name in s.voters
    decreases |todo|
  {
    var v := s.voters[name];
    if v.proxy != 0 && v.isProxy then None
    else
      var weight := WeightOf(v);
      var delta := weight - v.lastWeight;
      if PassedOn(factor, delta) then
        if v.proxy != 0 then
          if v.proxy !in s.voters || v.proxy !in todo || name == v.proxy then None
          else
            var r := Propagate(AddProxied(s, v.proxy, delta), factor, v.proxy, todo - {v.proxy});
            if r.None? || name !in r.value.voters then None else Some(SetLast(r.value, name, weight))
        else if exists p :: p in v.producers && p !in s.producers then None
        else
          Some(SetLast(
            s.(producers := AddVotes(s.producers, v.producers, delta),
               totalWeight := s.totalWeight + Times(|v.producers|, delta)), name, weight))
      else Some(SetLast(s, name, weight))
  }

  predicate Ascending(names: seq<nat>) {
    forall i, j :: 0 <= i < j < |names| ==> names[i] < names[j]
  }

  // What a vote takes away from and gives to a producer.
  function DeltaFor(p: nat, before: seq<nat>, last: int, after: seq<nat>, weight: int): int {
    (if p in after then weight else 0) - (if p in before then last else 0)
  }

  function AtLeastZero(x: int): int { if x < 0 then 0 else x }

  function ApplyDeltas(producers: map<nat, Producer>, before: seq<nat>, last: int, after: seq<nat>, weight: int)
    : map<nat, Producer>
  {
    map p | p in producers ::
      if p in before || p in after then
        producers[p].(totalVotes := AtLeastZero(producers[p].totalVotes + DeltaFor(p, before, last, after, weight)))
      else producers[p]
  }

  function CountIn(listed: seq<nat>, producers: map<nat, Producer>): nat {
    if listed == [] then 0 else (if listed[0] in producers then 1 else 0) + CountIn(listed[1..], producers)
  }

  // The weight last cast through a proxy is taken back from it.
  function Withdraw(s: Votes, factor: real, v: Voter): Option<Votes> {
    if v.lastWeight > 0 && v.proxy != 0 then
      if v.proxy !in s.voters then None
      else Propagate(AddProxied(s, v.proxy, -v.lastWeight), factor, v.proxy, s.voters.Keys - {v.proxy})
    else Some(s)
  }

  function Bestow(s: Votes, factor: real, proxy: nat, weight: int, voting: bool): Option<Votes> {
    if proxy == 0 then Some(s)
    else if proxy !in s.voters || (voting && !s.voters[proxy].isProxy) then None
    else if weight >= 0 then Propagate(AddProxied(s, proxy, weight), factor, proxy, s.voters.Keys - {proxy})
    else Some(s)
  }

  predicate VoteAllowed(s: Votes, voter: nat, proxy: nat, producers: seq<nat>) {
    && (proxy != 0 ==> producers == [] && voter != proxy)
    && (proxy == 0 ==> |producers| <= MAX_VOTES && Ascending(producers))
    && voter in s.voters
    && (proxy != 0 ==> !s.voters[voter].isProxy)
  }

  // The stake of a voter whose recorded weight is not positive counts as activated from now on.
  function Activated(s: Votes, v: Voter): Votes {
    if v.lastWeight <= 0 then s.(activatedStake := s.activatedStake + v.staked) else s
  }

  /** update_votes: the previous vote is undone at its recorded weight and the new one cast at the
      current weight. `voting` is false when it is the stake that changed. */
  function UpdateVotes(s: Votes, factor: real, voter: nat, proxy: nat, producers: seq<nat>, voting: bool): Option<Votes> {
    if VoteAllowed(s, voter, proxy, producers) then
      Revote(Activated(s, s.voters[voter]), factor, voter, proxy, producers, voting)
    else None
  }

  function Revote(s: Votes, factor: real, voter: nat, proxy: nat, producers: seq<nat>, voting: bool): Option<Votes>
    requires voter in s.voters
  {
    var v := s.voters[voter];
    var weight := WeightOf(v);
    var s1 := Withdraw(s, factor, v);
    if s1.None? then None
    else
      var s2 := Bestow(s1.value, factor, proxy, weight, voting);
      if s2.None? || voter !in s2.value.voters then None
      else
        var before := if v.lastWeight > 0 && v.proxy == 0 then v.producers else [];
        var after := if proxy == 0 && weight >= 0 then producers else [];
        CastVotes(s2.value, voter, proxy, producers, before, v.lastWeight, after, weight, voting)
  }

  // Applies the changed tallies and records the vote.
  function CastVotes(
    s: Votes, voter: nat, proxy: nat, producers: seq<nat>, before: seq<nat>, last: int, after: seq<nat>, weight: int,
    voting: bool): Option<Votes>
    requires voter in s.voters
  {
    if exists p :: p in after && (p !in s.producers || (voting && !s.producers[p].active)) then None
    else
      Some(s.(
        voters := s.voters[voter := s.voters[voter].(lastWeight := weight, producers := producers, proxy := proxy)],
        producers := ApplyDeltas(s.producers, before, last, after, weight),
        totalWeight := s.totalWeight + Times(CountIn(after, s.producers), weight)
                       - Times(CountIn(before, s.producers), last)))
  }

  const NO_VOTE := Voter(0, [], 0, 0, 0, false)

  function RegProxy(s: Votes, factor: real, name: nat, isProxy: bool): Option<Votes> {
    if name in s.voters then
      var v := s.voters[name];
      if isProxy == v.isProxy || (isProxy && v.proxy != 0) then None
      else
        Propagate(s.(voters := s.voters[name := v.(isProxy := isProxy)]), factor, name, s.voters.Keys - {name})
    else Some(s.(voters := s.voters[name := NO_VOTE.(isProxy := isProxy)]))
  }

  function RegProducer(s: Votes, name: nat): Votes {
    if name in s.producers then s.(producers := s.producers[name := s.producers[name].(active := true)])
    else s.(producers := s.producers[name := Producer(0, true)])
  }

  function UnregProducer(s: Votes, name: nat): Option<Votes> {
    if name in s.producers then Some(s.(producers := s.producers[name := s.producers[name].(active := false)]))
    else None
  }

  // The last part of changebw: the stake of a voter changes, and with it the vote in force.
  function ChangeStake(s: Votes, factor: real, name: nat, delta: int): Option<Votes> {
    var v := if name in s.voters then s.voters[name] else NO_VOTE;
    if v.staked + delta < 0 then None else Restake(s, factor, name, v.(staked := v.staked + delta))
  }

  function Restake(s: Votes, factor: real, name: nat, row: Voter): Option<Votes> {
    var s1 := s.(voters := s.voters[name := row]);
    if row.producers != [] || row.proxy != 0 then UpdateVotes(s1, factor, name, row.proxy, row.producers, false)
    else Some(s1)
  }

  datatype Action =
    | Stake(name: nat, delta: int)
    | Vote(voter: nat, proxy: nat, producers: seq<nat>)
    | Proxy(name: nat, isProxy: bool)
    | Register(name: nat)
    | Unregister(name: nat)

  // An action that fails leaves no trace; no account has the empty name.
  function Step(s: Votes, factor: real, a: Action): Votes {
    var r := match a
      case Stake(name, delta) => if name == 0 then None else ChangeStake(s, factor, name, delta)
      case Vote(voter, proxy, producers) => UpdateVotes(s, factor, voter, proxy, producers, true)
      case Proxy(name, isProxy) => if name == 0 then None else RegProxy(s, factor, name, isProxy)
      case Register(name) => Some(RegProducer(s, name))
      case Unregister(name) => UnregProducer(s, name);
    if r.None? then s else r.value
  }

  const GENESIS := Votes(map[], map[], 0, 0)

  function Run(factor: real, actions: seq<Action>): Votes {
    if actions == [] then GENESIS else Step(Run(factor, actions[..|actions| - 1]), factor, actions[|actions| - 1])
  }
}
