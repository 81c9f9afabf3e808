/** The tallies are exact on every run just when one token is worth more than one vote. Below that,
    a change of one token is recorded at the proxy but never reaches the producers it votes for. */
module VotingLimits {
  import opened Options
  import opened Sums
  import opened Voting
  import opened VotingSteps
  import opened VotingActions

  const PROXY: nat := 1
  const VOTER: nat := 2
  const PRODUCER: nat := 9

  // A proxy votes for a producer, then an account with one token delegates to it.
  const DRIFT: seq<Action> := [
    Proxy(PROXY, true),
    Register(PRODUCER),
    Vote(PROXY, 0, [PRODUCER]),
    Stake(VOTER, 1),
    Vote(VOTER, PROXY, [])]

  function Before(): Votes {
    Votes(map[PROXY := Voter(0, [PRODUCER], 0, 0, 0, true), VOTER := NO_VOTE.(staked := 1)],
          map[PRODUCER := Producer(0, true)], 0, 0)
  }

  lemma {:induction false} FirstSteps(factor: real, s2: Votes)
    requires s2 == Votes(map[PROXY := NO_VOTE.(isProxy := true)], map[PRODUCER := Producer(0, true)], 0, 0)
    ensures Run(factor, DRIFT[..2]) == s2
  {
    assert DRIFT[..2][..1] == DRIFT[..1] && DRIFT[..1][..0] == [];
    assert Run(factor, DRIFT[..1]) == Votes(map[PROXY := NO_VOTE.(isProxy := true)], map[], 0, 0);
  }

  lemma {:induction false} ProxyVotes(factor: real, s: Votes, t: Votes)
    requires s == Votes(map[PROXY := NO_VOTE.(isProxy := true)], map[PRODUCER := Producer(0, true)], 0, 0)
    requires t == Votes(map[PROXY := Voter(0, [PRODUCER], 0, 0, 0, true)], map[PRODUCER := Producer(0, true)], 0, 0)
    ensures Step(s, factor, Vote(PROXY, 0, [PRODUCER])) == t
  {
    assert CountIn([PRODUCER], s.producers) == 1 by { assert [PRODUCER][1..] == []; }
    assert Times(1, 0) == 0;
    assert ApplyDeltas(s.producers, [], 0, [PRODUCER], 0) == s.producers;
  }

  lemma {:induction false} ReachesBefore(factor: real)
    ensures Run(factor, DRIFT[..4]) == Before()
  {
    var s2 := Votes(map[PROXY := NO_VOTE.(isProxy := true)], map[PRODUCER := Producer(0, true)], 0, 0);
    var s3 := Votes(map[PROXY := Voter(0, [PRODUCER], 0, 0, 0, true)], map[PRODUCER := Producer(0, true)], 0, 0);
    FirstSteps(factor, s2);
    ProxyVotes(factor, s2, s3);
    assert DRIFT[..3][..2] == DRIFT[..2];
    assert Run(factor, DRIFT[..3]) == s3;
    assert DRIFT[..4][..3] == DRIFT[..3];
    assert Step(s3, factor, Stake(VOTER, 1)) == Before();
  }

  // The delegated token is recorded by the proxy and dropped on the way to the producer.
  lemma {:induction false} LastStep(factor: real, s: Votes, t: Votes)
    requires 0.0 < factor <= 1.0 && s == Before()
    requires t == Votes(map[PROXY := Voter(0, [PRODUCER], 0, 1, 1, true), VOTER := Voter(PROXY, [], 1, 1, 0, false)],
                        map[PRODUCER := Producer(0, true)], 0, 1)
    ensures Step(s, factor, Vote(VOTER, PROXY, [])) == t
  {
    var s0 := Activated(s, s.voters[VOTER]);
    var handed := AddProxied(s0, PROXY, 1);
    assert !PassedOn(factor, 1);
    assert Propagate(handed, factor, PROXY, s0.voters.Keys - {PROXY}) == Some(SetLast(handed, PROXY, 1));
    assert ApplyDeltas(s.producers, [], 0, [], 1) == s.producers;
    assert CountIn([], s.producers) == 0;
  }

  lemma {:induction false} OneVoteMissing(t: Votes)
    requires t.voters == map[PROXY := Voter(0, [PRODUCER], 0, 1, 1, true), VOTER := Voter(PROXY, [], 1, 1, 0, false)]
    requires t.producers == map[PRODUCER := Producer(0, true)]
    ensures !Exact(t)
  {
    var keys := t.voters.Keys;
    SumTake(keys, Ballots(t.voters, PRODUCER), PROXY);
    assert t.voters[PROXY].producers[0] == PRODUCER;
    assert Ballots(t.voters, PRODUCER)(PROXY) == 1;
    SumZero(keys - {PROXY}, Ballots(t.voters, PRODUCER));
    assert t.producers[PRODUCER].totalVotes != Sum(keys, Ballots(t.voters, PRODUCER));
  }

  lemma {:induction false} Drifts(factor: real)
    requires 0.0 < factor <= 1.0
    ensures !Exact(Run(factor, DRIFT))
  {
    ReachesBefore(factor);
    var t := Votes(map[PROXY := Voter(0, [PRODUCER], 0, 1, 1, true), VOTER := Voter(PROXY, [], 1, 1, 0, false)],
                   map[PRODUCER := Producer(0, true)], 0, 1);
    LastStep(factor, Before(), t);
    assert DRIFT[..|DRIFT| - 1] == DRIFT[..4];
    OneVoteMissing(t);
  }

  lemma {:induction false} ExactIffSteady(factor: real)
    requires factor > 0.0
    ensures (forall actions: seq<Action> :: Exact(Run(factor, actions))) <==> Steady(factor)
  {
    if Steady(factor) {
      forall actions: seq<Action> ensures Exact(Run(factor, actions)) {
        TalliesExact(factor, actions);
      }
    } else {
      Drifts(factor);
    }
  }
}
