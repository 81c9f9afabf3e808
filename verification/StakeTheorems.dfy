/** What the stake ledger promises its users. */
module StakeTheorems {
  import opened Options
  import opened MapSums
  import opened Voting
  import opened VotingTally
  import opened VotingSteps
  import opened VotingActions
  import opened StakeVotes
  import opened Stakes
  import opened StakeLaws

  // ---------- eosio.stake holds the delegations and the pending refunds ----------

  ghost predicate HoldsStakes(l: Ledger) {
    Balance(l.balances, STAKE) - l.given == MapSum(l.delegated, Whole()) + MapSum(l.refunds, RefundTotal())
  }

  predicate StakedByItself(act: Act) {
    (act.StakeUp? || act.StakeDown?) && act.source == STAKE
  }

  lemma {:induction false} UnbackedOnlyByItself(l: Ledger, factor: real, t: Timed)
    ensures StakedByItself(t.act) && Perform(l, factor, t.act, t.now).Some? ==>
              Next(l, factor, t).unbacked == l.unbacked + (if t.act.StakeUp? then t.act.delta.Total() else -t.act.delta.Total())
    ensures !StakedByItself(t.act) || Perform(l, factor, t.act, t.now).None? ==> Next(l, factor, t).unbacked == l.unbacked
  {
  }

  lemma {:induction false} BackedWhile(balances: map<nat, int>, factor: real, acts: seq<Timed>)
    requires forall i :: 0 <= i < |acts| ==> !StakedByItself(acts[i].act)
    ensures RunFrom(Start(balances), factor, acts).unbacked == 0
    decreases |acts|
  {
    if acts != [] {
      var n := |acts| - 1;
      BackedWhile(balances, factor, acts[..n]);
      UnbackedOnlyByItself(RunFrom(Start(balances), factor, acts[..n]), factor, acts[n]);
    }
  }

  /** As long as eosio.stake itself neither stakes nor takes back a stake, its balance above what it
      was given is what is staked and what is waiting to be refunded, in every run. */
  lemma {:induction false} HoldsStakesWhile(balances: map<nat, int>, factor: real, acts: seq<Timed>)
    requires GoodBalances(balances) && forall i :: 0 <= i < |acts| ==> !StakedByItself(acts[i].act)
    ensures HoldsStakes(RunFrom(Start(balances), factor, acts))
  {
    RunSound(balances, factor, acts);
    BackedWhile(balances, factor, acts);
  }

  // The first time it does, the balance no longer matches.
  lemma {:induction false} HoldsStakesUntil(l: Ledger, factor: real, t: Timed, supply: int)
    requires Sound(l, supply) && HoldsStakes(l)
    ensures HoldsStakes(Next(l, factor, t)) <==> !StakedByItself(t.act) || Perform(l, factor, t.act, t.now).None?
  {
    NextKeeps(l, factor, t, supply);
    UnbackedOnlyByItself(l, factor, t);
  }

  // ---------- refunds are paid ----------

  // A refund that is due can be claimed, unless eosio.stake gave away more than it was given.
  lemma {:induction false} RefundPaid(l: Ledger, owner: nat, now: nat, supply: int)
    requires Sound(l, supply) && l.unbacked <= l.given
    requires owner in l.refunds && l.refunds[owner].requested + REFUND_DELAY <= now
    ensures Claim(l, owner, now).Some?
    ensures var m := Claim(l, owner, now).value;
            && owner !in m.refunds
            && Balance(m.balances, owner) == Balance(l.balances, owner) + l.refunds[owner].Total()
  {
    MapSumNonNegative(l.delegated, Whole());
    MapSumCovers(l.refunds, owner, RefundTotal());
    TransferMoves(l.balances, STAKE, owner, l.refunds[owner].Total(), Claim(l, owner, now).value.balances);
  }

  // ---------- staking for oneself, and for another ----------

  // What is staked for oneself comes out of the pending refund first, resource by resource.
  lemma {:induction false} SelfStakeUsesRefund(
    l: Ledger, factor: real, source: nat, delta: Amounts, now: nat, m: Ledger)
    requires source != STAKE && source in l.refunds && l.refunds[source].net >= 0 && l.refunds[source].cpu >= 0
    requires Delegate(l, factor, source, source, delta, false, now) == Some(m)
    ensures var r := l.refunds[source];
            && Balance(m.balances, source)
               == Balance(l.balances, source) - AtLeastZero(delta.net - r.net) - AtLeastZero(delta.cpu - r.cpu)
            && (source in m.refunds <==> delta.net < r.net || delta.cpu < r.cpu)
            && (source in m.refunds ==>
                  m.refunds[source] == Refund(AtLeastZero(r.net - delta.net), AtLeastZero(r.cpu - delta.cpu), r.requested))
  {
    var done := Settle(Pending(l.refunds, source), delta, true, now);
    if done.due > 0 {
      TransferMoves(l.balances, source, STAKE, done.due, m.balances);
    }
  }

  // What is staked for another account, or given away with the stake, is paid in liquid tokens.
  lemma {:induction false} StakeForOtherPays(
    l: Ledger, factor: real, source: nat, receiver: nat, delta: Amounts, transfer: bool, now: nat, m: Ledger)
    requires source != STAKE && (source != receiver || transfer)
    requires Delegate(l, factor, source, receiver, delta, transfer, now) == Some(m)
    ensures m.refunds == l.refunds
    ensures Balance(m.balances, source) == Balance(l.balances, source) - delta.Total()
  {
    var owner := if transfer then receiver else source;
    TransferMoves(l.balances, source, STAKE, delta.Total(), m.balances);
    assert m.refunds == l.refunds;
  }

  // What is unstaked goes to the pending refund, which starts its delay anew; no tokens move.
  lemma {:induction false} UnstakeWaits(
    l: Ledger, factor: real, source: nat, receiver: nat, delta: Amounts, now: nat, m: Ledger)
    requires source != STAKE && (source in l.refunds ==> l.refunds[source].net >= 0 && l.refunds[source].cpu >= 0)
    requires Undelegate(l, factor, source, receiver, delta, now) == Some(m)
    ensures m.balances == l.balances && source in m.refunds
    ensures var r := if source in l.refunds then l.refunds[source] else Refund(0, 0, now);
            m.refunds[source] == Refund(r.net + delta.net, r.cpu + delta.cpu, now)
  {
  }

  // ---------- scheduled refunds ----------

  ghost predicate Promised(refunds: map<nat, Refund>, scheduled: map<nat, nat>) {
    forall a {:trigger refunds[a]} :: a in refunds ==>
      a in scheduled && scheduled[a] >= refunds[a].requested + REFUND_DELAY
  }

  // Time does not run backwards.
  ghost predicate Asked(l: Ledger, now: nat) {
    forall a {:trigger l.refunds[a]} :: a in l.refunds ==> l.refunds[a].requested <= now
  }

  // The owner of the new stake has a refund pending, but it is not this stake that uses it.
  predicate Strands(l: Ledger, factor: real, t: Timed) {
    && t.act.StakeUp? && t.act.source != STAKE
    && (if t.act.transfer then t.act.receiver else t.act.source) in l.refunds
    && (t.act.transfer || t.act.source != t.act.receiver)
    && Perform(l, factor, t.act, t.now).Some?
  }

  lemma {:induction false} SetPromise(
    refunds: map<nat, Refund>, scheduled: map<nat, nat>, owner: nat, done: Settlement, now: nat)
    requires Promised(refunds, scheduled) && (done.refund.Some? && done.schedule ==> done.refund.value.requested <= now)
    ensures Promised(SetRefund(refunds, owner, done.refund), Rescheduled(scheduled, owner, done.schedule, now))
       <==> done.refund.None? || done.schedule
  {
    if done.refund.Some? && !done.schedule {
      assert owner in SetRefund(refunds, owner, done.refund);
    }
  }

  lemma {:induction false} PayPromise(l: Ledger, source: nat, owner: nat, delta: Amounts, toSelf: bool, now: nat, p: Ledger)
    requires Promised(l.refunds, l.scheduled) && Asked(l, now) && OneWay(delta)
    requires PayStake(l, source, owner, delta, toSelf, now) == Some(p)
    ensures Promised(p.refunds, p.scheduled)
       <==> source == STAKE || owner !in l.refunds || toSelf || delta.Total() < 0
  {
    if source != STAKE {
      SetPromise(l.refunds, l.scheduled, owner, Settle(Pending(l.refunds, owner), delta, toSelf, now), now);
    }
  }

  lemma {:induction false} ChangePromise(
    l: Ledger, factor: real, source: nat, receiver: nat, delta: Amounts, transfer: bool, now: nat, m: Ledger)
    requires Promised(l.refunds, l.scheduled) && Asked(l, now)
    requires ChangeBandwidth(l, factor, source, receiver, delta, transfer, now) == Some(m)
    ensures Promised(m.refunds, m.scheduled)
       <==> source == STAKE || (if transfer then receiver else source) !in l.refunds
            || (!transfer && source == receiver) || delta.Total() < 0
  {
    var owner := if transfer then receiver else source;
    var entered, p := ChangeParts(l, factor, source, receiver, delta, transfer, now, owner, m);
    PayPromise(entered, source, owner, delta, !transfer && owner == receiver, now, p);
  }

  lemma {:induction false} StakeUpPromise(l: Ledger, factor: real, t: Timed, m: Ledger)
    requires Promised(l.refunds, l.scheduled) && Asked(l, t.now) && t.act.StakeUp? && Perform(l, factor, t.act, t.now) == Some(m)
    ensures Promised(m.refunds, m.scheduled) <==> !Strands(l, factor, t)
  {
    ChangePromise(l, factor, t.act.source, t.act.receiver, t.act.delta, t.act.transfer, t.now, m);
  }

  lemma {:induction false} StakeDownPromise(l: Ledger, factor: real, t: Timed, m: Ledger)
    requires Promised(l.refunds, l.scheduled) && Asked(l, t.now) && t.act.StakeDown? && Perform(l, factor, t.act, t.now) == Some(m)
    ensures Promised(m.refunds, m.scheduled)
  {
    ChangePromise(l, factor, t.act.source, t.act.receiver, Negated(t.act.delta), false, t.now, m);
  }

  lemma {:induction false} ScheduledPromise(l: Ledger, owner: nat, now: nat, supply: int)
    requires Sound(l, supply) && l.unbacked <= l.given && Promised(l.refunds, l.scheduled) && RunScheduled(l, owner, now).Some?
    ensures Promised(RunScheduled(l, owner, now).value.refunds, RunScheduled(l, owner, now).value.scheduled)
  {
    if owner in l.refunds {
      RefundPaid(l, owner, now, supply);
    }
  }

  /** The refund transaction of every pending refund stays scheduled, at a time when the refund is
      due, except that a stake that does not use the owner's refund cancels it. */
  lemma {:induction false} PromiseKept(l: Ledger, factor: real, t: Timed, supply: int)
    requires Sound(l, supply) && l.unbacked <= l.given && Promised(l.refunds, l.scheduled) && Asked(l, t.now)
    ensures Promised(Next(l, factor, t).refunds, Next(l, factor, t).scheduled) <==> !Strands(l, factor, t)
  {
    var r := Perform(l, factor, t.act, t.now);
    if r.Some? {
      match t.act
      case StakeUp(_, _, _, _) => StakeUpPromise(l, factor, t, r.value);
      case StakeDown(_, _, _) => StakeDownPromise(l, factor, t, r.value);
      case ClaimRefund(_) =>
      case Scheduled(owner) => ScheduledPromise(l, owner, t.now, supply);
      case PayTokens(_, _, _) =>
      case Cast(_) =>
    }
  }

  // ---------- the votes the stake carries ----------

  lemma {:induction false} NextVotes(l: Ledger, factor: real, t: Timed)
    requires Steady(factor) && Inv(l.votes, {})
    ensures Inv(Next(l, factor, t).votes, {})
  {
    var r := Perform(l, factor, t.act, t.now);
    if r.Some? {
      match t.act
      case StakeUp(source, receiver, delta, transfer) =>
        StakeKeeps(l.votes, factor, if transfer then receiver else source, delta.Total(), r.value.votes);
      case StakeDown(source, receiver, delta) =>
        StakeKeeps(l.votes, factor, source, Negated(delta).Total(), r.value.votes);
      case ClaimRefund(_) =>
      case Scheduled(_) =>
      case PayTokens(_, _, _) =>
      case Cast(action) => StepKeeps(l.votes, factor, action);
    }
  }

  lemma {:induction false} RunVotes(balances: map<nat, int>, factor: real, acts: seq<Timed>)
    requires Steady(factor)
    ensures Inv(RunFrom(Start(balances), factor, acts).votes, {})
    decreases |acts|
  {
    if acts != [] {
      var n := |acts| - 1;
      RunVotes(balances, factor, acts[..n]);
      NextVotes(RunFrom(Start(balances), factor, acts[..n]), factor, acts[n]);
    }
  }

  /** In every run of staking, refunding, paying and voting: the tallies of producers and proxies are
      those counted from scratch, and the stake each voter carries is the sum of its delegations. */
  lemma {:induction false} VotesBackedByStakes(balances: map<nat, int>, factor: real, acts: seq<Timed>, a: nat)
    requires Steady(factor) && GoodBalances(balances)
    ensures var l := RunFrom(Start(balances), factor, acts);
            Exact(l.votes) && StakedOf(l.votes, a) == MapSum(l.delegated, StakedBy(a))
  {
    RunVotes(balances, factor, acts);
    InvIsExact(RunFrom(Start(balances), factor, acts).votes);
    RunSound(balances, factor, acts);
  }
}
