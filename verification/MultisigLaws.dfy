/** In every run the approvals on record are exactly the levels asked whose last vote was to approve,
    and only they count when the transaction is executed. */
module MultisigLaws {
  import opened Authorities
  import opened AuthorityCheck
  import opened Multisig

  // ---------- taking one out ----------

  lemma {:induction false} WithoutCounts(s: seq<Level>, l: Level)
    requires l in s
    ensures multiset(s) == multiset(Without(s, l)) + multiset{l}
    decreases |s|
  {
    assert s == [s[0]] + s[1..];
    if s[0] != l {
      WithoutCounts(s[1..], l);
    }
  }

  ghost predicate AskedOnce(s: seq<Level>) {
    forall l :: multiset(s)[l] <= 1
  }

  // ---------- the invariant ----------

  // No approval is lost and none is made up.
  ghost predicate Balanced(a: Approvals, h: History) {
    multiset(a.requested) + multiset(a.provided) == multiset(h.asked)
  }

  ghost predicate VotesCount(a: Approvals, h: History) {
    && (forall l :: l in h.votes ==> l in h.asked)
    && (AskedOnce(h.asked) ==> forall l :: l in a.provided <==> Approves(h, l))
  }

  ghost predicate GoodAt(t: Tables, h: map<Key, History>, key: Key) {
    && (key in t.proposals <==> key in t.approvals) && (key in t.approvals <==> key in h)
    && (key in t.approvals ==> Balanced(t.approvals[key], h[key]) && VotesCount(t.approvals[key], h[key]))
  }

  ghost predicate Good(t: Tables, h: map<Key, History>) {
    forall key {:trigger GoodAt(t, h, key)} :: GoodAt(t, h, key)
  }

  lemma {:induction false} ApproveCounts(a: Approvals, h: History, l: Level)
    requires Balanced(a, h) && VotesCount(a, h) && l in a.requested
    ensures var b := Approvals(Without(a.requested, l), a.provided + [l]);
            Balanced(b, h.(votes := h.votes[l := true])) && VotesCount(b, h.(votes := h.votes[l := true]))
  {
    WithoutCounts(a.requested, l);
    assert l in multiset(h.asked);
    assert l in h.asked;
  }

  lemma {:induction false} UnapproveCounts(a: Approvals, h: History, l: Level)
    requires Balanced(a, h) && VotesCount(a, h) && l in a.provided
    ensures var b := Approvals(a.requested + [l], Without(a.provided, l));
            Balanced(b, h.(votes := h.votes[l := false])) && VotesCount(b, h.(votes := h.votes[l := false]))
  {
    WithoutCounts(a.provided, l);
    var b := Approvals(a.requested + [l], Without(a.provided, l));
    assert l in multiset(h.asked);
    assert l in h.asked;
    if AskedOnce(h.asked) {
      forall m ensures m in b.provided <==> m in a.provided && m != l {
        assert m in b.provided <==> multiset(b.provided)[m] > 0;
        assert m in a.provided <==> multiset(a.provided)[m] > 0;
        assert multiset(h.asked)[m] <= 1;
      }
    }
  }

  lemma {:induction false} NextGood(t: Tables, h: map<Key, History>, s: Step)
    requires Good(t, h)
    ensures Good(Next(t, s), NextHistory(h, t, s))
  {
    var u, g := Next(t, s), NextHistory(h, t, s);
    forall key ensures GoodAt(u, g, key) {
      assert GoodAt(t, h, key);
      if Perform(t, s).Some? && s.action.key == key {
        match s.action
        case Proposing(_, requested, _) =>
          assert multiset(requested) + multiset([]) == multiset(requested);
        case Approving(_, level) => ApproveCounts(t.approvals[key], h[key], level);
        case Unapproving(_, level) => UnapproveCounts(t.approvals[key], h[key], level);
        case Cancelling(_, _) =>
        case Executing(_) =>
      }
    }
  }

  lemma {:induction false} RunGood(steps: seq<Step>)
    ensures Good(Run(steps), Histories(steps))
    decreases |steps|
  {
    if steps == [] {
      forall key ensures GoodAt(EMPTY, map[], key) {
      }
    } else {
      var n := |steps| - 1;
      RunGood(steps[..n]);
      NextGood(Run(steps[..n]), Histories(steps[..n]), steps[n]);
    }
  }

  // ---------- what it means ----------

  // In every run: what is still requested and what is provided is what was asked for.
  lemma {:induction false} NothingLost(steps: seq<Step>, key: Key)
    requires key in Run(steps).proposals
    ensures key in Histories(steps) && key in Run(steps).approvals
    ensures Balanced(Run(steps).approvals[key], Histories(steps)[key])
  {
    RunGood(steps);
    assert GoodAt(Run(steps), Histories(steps), key);
  }

  function ApprovedBy(h: History): set<Level> {
    set l | l in h.asked && Approves(h, l)
  }

  /** In every run, for a proposal that asks each level once: the approvals provided are the levels
      asked whose last vote was to approve. */
  lemma {:induction false} ProvidedIsLastVote(steps: seq<Step>, key: Key)
    requires key in Histories(steps) && AskedOnce(Histories(steps)[key].asked)
    ensures key in Run(steps).approvals
    ensures (set l | l in Run(steps).approvals[key].provided) == ApprovedBy(Histories(steps)[key])
  {
    RunGood(steps);
    assert GoodAt(Run(steps), Histories(steps), key);
  }

  lemma {:induction false} OneLeft(s: seq<Level>, l: Level)
    requires multiset(s)[l] >= 2
    ensures l in s && l in Without(s, l)
  {
    assert l in s;
    WithoutCounts(s, l);
    assert l in multiset(Without(s, l));
  }

  /** A transaction is sent off only if every level it declares is satisfied, under the permissions in
      force at that moment, by the levels asked whose last vote was to approve. */
  lemma {:induction false} ExecNeedsVotes(steps: seq<Step>, key: Key, w: World, l: Level)
    requires key in Histories(steps) && AskedOnce(Histories(steps)[key].asked)
    requires Exec(Run(steps), w, key).Some? && l in Run(steps).proposals[key].declared
    requires forall m :: m in w.auths ==> m.permission != 0
    ensures exists k :: Holds(Env({}, ApprovedBy(Histories(steps)[key]), Run(steps).proposals[key].delay, w.auths, w.limit),
                              AccountFactor(l, 1), k)
    ensures Run(steps).proposals[key].expiration >= w.now
  {
    ProvidedIsLastVote(steps, key);
    var t := Run(steps);
    var env := EnvFor(w, t.proposals[key], t.approvals[key].provided);
    var k := SoundVisit(env, AccountFactor(l, 1), 0, State(InitialCache(env), {}), 0, 0);
  }

  /** A proposal disappears in two ways: it is executed in time with the approvals it needs, or it is
      cancelled, by its proposer or once it has expired. Nothing else touches it. */
  lemma {:induction false} HowProposalsEnd(t: Tables, s: Step, key: Key)
    requires key in t.proposals && key in t.approvals
    ensures key in Next(t, s).proposals ==> Next(t, s).proposals[key] == t.proposals[key]
    ensures key !in Next(t, s).proposals <==>
            || (s.action == Executing(key) && t.proposals[key].expiration >= s.world.now
                && Authorized(s.world, t.proposals[key], t.approvals[key].provided))
            || (s.action.Cancelling? && s.action.key == key
                && (s.action.canceler == key.proposer || t.proposals[key].expiration < s.world.now))
    ensures Next(t, s).sent == (if s.action.Executing? && Exec(t, s.world, s.action.key).Some?
                                then t.sent + [t.proposals[s.action.key]] else t.sent)
  {
  }

  // ---------- what becomes of proposals ----------

  // How often a transaction was proposed, and how often such a proposal was cancelled.
  function TimesProposed(steps: seq<Step>, trx: Transaction): nat {
    if steps == [] then 0
    else
      var front, s := steps[..|steps| - 1], steps[|steps| - 1];
      TimesProposed(front, trx)
      + if s.action.Proposing? && s.action.trx == trx && Perform(Run(front), s).Some? then 1 else 0
  }

  function TimesCancelled(steps: seq<Step>, trx: Transaction): nat {
    if steps == [] then 0
    else
      var front, s := steps[..|steps| - 1], steps[|steps| - 1];
      TimesCancelled(front, trx)
      + if s.action.Cancelling? && Perform(Run(front), s).Some? && Run(front).proposals[s.action.key] == trx then 1 else 0
  }

  function OpenWith(t: Tables, trx: Transaction): set<Key> {
    set key | key in t.proposals && t.proposals[key] == trx
  }

  ghost predicate Settles(t: Tables, u: Tables, trx: Transaction, proposed: int, cancelled: int) {
    multiset(u.sent)[trx] + |OpenWith(u, trx)| + cancelled == multiset(t.sent)[trx] + |OpenWith(t, trx)| + proposed
  }

  lemma {:induction false} ProposeSettles(t: Tables, u: Tables, key: Key, offered: Transaction, trx: Transaction)
    requires key !in t.proposals && u.proposals == t.proposals[key := offered] && u.sent == t.sent
    ensures Settles(t, u, trx, if offered == trx then 1 else 0, 0)
  {
    assert OpenWith(u, trx) == if offered == trx then OpenWith(t, trx) + {key} else OpenWith(t, trx);
  }

  lemma {:induction false} EndSettles(t: Tables, u: Tables, key: Key, trx: Transaction)
    requires key in t.proposals && u.proposals == t.proposals - {key}
    ensures u.sent == t.sent ==> Settles(t, u, trx, 0, if t.proposals[key] == trx then 1 else 0)
    ensures u.sent == t.sent + [t.proposals[key]] ==> Settles(t, u, trx, 0, 0)
  {
    assert OpenWith(u, trx) == OpenWith(t, trx) - {key};
    assert key in OpenWith(t, trx) <==> t.proposals[key] == trx;
  }

  lemma {:induction false} VoteSettles(t: Tables, u: Tables, trx: Transaction)
    requires u.proposals == t.proposals && u.sent == t.sent
    ensures Settles(t, u, trx, 0, 0)
  {
    assert OpenWith(u, trx) == OpenWith(t, trx);
  }

  lemma {:induction false} StepSettles(t: Tables, s: Step, trx: Transaction, proposed: int, cancelled: int)
    requires proposed == if s.action.Proposing? && s.action.trx == trx && Perform(t, s).Some? then 1 else 0
    requires cancelled == if s.action.Cancelling? && Perform(t, s).Some? && t.proposals[s.action.key] == trx then 1 else 0
    ensures Settles(t, Next(t, s), trx, proposed, cancelled)
  {
    var u := Next(t, s);
    if Perform(t, s).None? {
      VoteSettles(t, u, trx);
    } else {
      match s.action
      case Proposing(key, _, offered) => ProposeSettles(t, u, key, offered, trx);
      case Approving(_, _) => VoteSettles(t, u, trx);
      case Unapproving(_, _) => VoteSettles(t, u, trx);
      case Cancelling(key, _) => EndSettles(t, u, key, trx);
      case Executing(key) => EndSettles(t, u, key, trx);
    }
  }

  /** In every run: a transaction was proposed as often as it was sent off, is still open, or was
      cancelled. So none is sent that was not proposed, and none twice for one proposal. */
  lemma {:induction false} ProposalsConserved(steps: seq<Step>, trx: Transaction)
    ensures TimesProposed(steps, trx)
         == multiset(Run(steps).sent)[trx] + |OpenWith(Run(steps), trx)| + TimesCancelled(steps, trx)
    decreases |steps|
  {
    if steps == [] {
      assert OpenWith(EMPTY, trx) == {};
    } else {
      var n := |steps| - 1;
      ProposalsConserved(steps[..n], trx);
      StepSettles(Run(steps[..n]), steps[n], trx, TimesProposed(steps, trx) - TimesProposed(steps[..n], trx),
                  TimesCancelled(steps, trx) - TimesCancelled(steps[..n], trx));
    }
  }
}
