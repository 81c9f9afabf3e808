/** Whole runs of the stake ledger: when every refund is paid and stays scheduled, and runs in which a
    promise is broken. */
module StakeRuns {
  import opened Options
  import opened MapSums
  import opened Voting
  import opened Stakes
  import opened StakeLaws
  import opened StakeTheorems

  // ---------- runs in which eosio.stake keeps what it holds ----------

  // Time does not run backwards.
  ghost predicate InOrder(acts: seq<Timed>) {
    forall i, j :: 0 <= i < j < |acts| ==> acts[i].now <= acts[j].now
  }

  predicate Spends(act: Act) {
    StakedByItself(act) || (act.PayTokens? && act.source == STAKE)
  }

  ghost predicate Kept(acts: seq<Timed>) {
    forall i :: 0 <= i < |acts| ==> !Spends(acts[i].act)
  }

  lemma {:induction false} GivenNext(l: Ledger, factor: real, t: Timed)
    requires !Spends(t.act)
    ensures l.given <= Next(l, factor, t).given
  {
    var r := Perform(l, factor, t.act, t.now);
    if r.Some? && (t.act.StakeUp? || t.act.StakeDown?) {
      var up := t.act.StakeUp?;
      var transfer := up && t.act.transfer;
      GivenStays(l, factor, t.act.source, t.act.receiver, if up then t.act.delta else Negated(t.act.delta), transfer, t.now, r.value);
    }
  }

  lemma {:induction false} GivenStays(
    l: Ledger, factor: real, source: nat, receiver: nat, delta: Amounts, transfer: bool, now: nat, m: Ledger)
    requires ChangeBandwidth(l, factor, source, receiver, delta, transfer, now) == Some(m)
    ensures m.given == l.given
  {
    var owner := if transfer then receiver else source;
    var entered, p := ChangeParts(l, factor, source, receiver, delta, transfer, now, owner, m);
  }

  lemma {:induction false} GivenGrows(balances: map<nat, int>, factor: real, acts: seq<Timed>)
    requires Kept(acts)
    ensures RunFrom(Start(balances), factor, acts).given >= Balance(balances, STAKE)
    decreases |acts|
  {
    if acts != [] {
      var n := |acts| - 1;
      GivenGrows(balances, factor, acts[..n]);
      GivenNext(RunFrom(Start(balances), factor, acts[..n]), factor, acts[n]);
    }
  }

  lemma {:induction false} NothingOwed(balances: map<nat, int>, factor: real, acts: seq<Timed>)
    requires GoodBalances(balances) && Kept(acts)
    ensures var l := RunFrom(Start(balances), factor, acts);
            l.unbacked <= l.given && Sound(l, MapSum(balances, Itself()))
  {
    GivenGrows(balances, factor, acts);
    BackedWhile(balances, factor, acts);
    RunSound(balances, factor, acts);
  }

  /** In every run in which eosio.stake neither stakes nor pays: a refund that is due can be claimed and
      is paid in full. */
  lemma {:induction false} RefundsPaid(balances: map<nat, int>, factor: real, acts: seq<Timed>, owner: nat, now: nat)
    requires GoodBalances(balances) && Kept(acts)
    requires var l := RunFrom(Start(balances), factor, acts);
             owner in l.refunds && l.refunds[owner].requested + REFUND_DELAY <= now
    ensures var l := RunFrom(Start(balances), factor, acts);
            var r := Claim(l, owner, now);
            && r.Some? && owner !in r.value.refunds
            && Balance(r.value.balances, owner) == Balance(l.balances, owner) + l.refunds[owner].Total()
  {
    NothingOwed(balances, factor, acts);
    RefundPaid(RunFrom(Start(balances), factor, acts), owner, now, MapSum(balances, Itself()));
  }

  // ---------- no refund is asked for in the future ----------

  lemma {:induction false} AskedPay(l: Ledger, source: nat, owner: nat, delta: Amounts, toSelf: bool, now: nat, p: Ledger)
    requires Asked(l, now) && PayStake(l, source, owner, delta, toSelf, now) == Some(p)
    ensures Asked(p, now)
  {
  }

  lemma {:induction false} AskedChange(
    l: Ledger, factor: real, source: nat, receiver: nat, delta: Amounts, transfer: bool, now: nat, m: Ledger)
    requires Asked(l, now) && ChangeBandwidth(l, factor, source, receiver, delta, transfer, now) == Some(m)
    ensures Asked(m, now)
  {
    var owner := if transfer then receiver else source;
    var entered, p := ChangeParts(l, factor, source, receiver, delta, transfer, now, owner, m);
    AskedPay(entered, source, owner, delta, !transfer && owner == receiver, now, p);
  }

  lemma {:induction false} AskedNext(l: Ledger, factor: real, t: Timed)
    requires Asked(l, t.now)
    ensures Asked(Next(l, factor, t), t.now)
  {
    var r := Perform(l, factor, t.act, t.now);
    if r.Some? {
      match t.act
      case StakeUp(source, receiver, delta, transfer) =>
        AskedChange(l, factor, source, receiver, delta, transfer, t.now, r.value);
      case StakeDown(source, receiver, delta) =>
        AskedChange(l, factor, source, receiver, Negated(delta), false, t.now, r.value);
      case ClaimRefund(_) =>
      case Scheduled(_) =>
      case PayTokens(_, _, _) =>
      case Cast(_) =>
    }
  }

  lemma {:induction false} RunAsked(balances: map<nat, int>, factor: real, acts: seq<Timed>, now: nat)
    requires InOrder(acts) && forall i :: 0 <= i < |acts| ==> acts[i].now <= now
    ensures Asked(RunFrom(Start(balances), factor, acts), now)
    decreases |acts|
  {
    if acts != [] {
      var n := |acts| - 1;
      RunAsked(balances, factor, acts[..n], acts[n].now);
      AskedNext(RunFrom(Start(balances), factor, acts[..n]), factor, acts[n]);
    }
  }

  // ---------- refunds stay scheduled ----------

  ghost function After(balances: map<nat, int>, factor: real, acts: seq<Timed>, i: nat): Ledger
    requires i <= |acts|
  {
    RunFrom(Start(balances), factor, acts[..i])
  }

  ghost predicate PromisedAfter(balances: map<nat, int>, factor: real, acts: seq<Timed>, i: nat)
    requires i <= |acts|
  {
    Promised(After(balances, factor, acts, i).refunds, After(balances, factor, acts, i).scheduled)
  }

  ghost predicate StrandsAt(balances: map<nat, int>, factor: real, acts: seq<Timed>, i: nat)
    requires i < |acts|
  {
    Strands(After(balances, factor, acts, i), factor, acts[i])
  }

  lemma {:induction false} AfterNext(balances: map<nat, int>, factor: real, acts: seq<Timed>, i: nat)
    requires i < |acts|
    ensures After(balances, factor, acts, i + 1) == Next(After(balances, factor, acts, i), factor, acts[i])
  {
    assert acts[..i + 1][..i] == acts[..i];
  }

  lemma {:induction false} PromiseStep(balances: map<nat, int>, factor: real, acts: seq<Timed>, i: nat)
    requires GoodBalances(balances) && InOrder(acts) && Kept(acts) && i < |acts| && PromisedAfter(balances, factor, acts, i)
    ensures PromisedAfter(balances, factor, acts, i + 1) <==> !StrandsAt(balances, factor, acts, i)
  {
    AfterNext(balances, factor, acts, i);
    NothingOwed(balances, factor, acts[..i]);
    RunAsked(balances, factor, acts[..i], acts[i].now);
    PromiseKept(After(balances, factor, acts, i), factor, acts[i], MapSum(balances, Itself()));
  }

  lemma {:induction false} PromisedThrough(balances: map<nat, int>, factor: real, acts: seq<Timed>, i: nat)
    requires GoodBalances(balances) && InOrder(acts) && Kept(acts) && i <= |acts|
    requires forall k :: 0 <= k < |acts| ==> !StrandsAt(balances, factor, acts, k)
    ensures PromisedAfter(balances, factor, acts, i)
    decreases i
  {
    if i > 0 {
      PromisedThrough(balances, factor, acts, i - 1);
      PromiseStep(balances, factor, acts, i - 1);
      assert !StrandsAt(balances, factor, acts, i - 1);
    }
  }

  /** In every run in which eosio.stake neither stakes nor pays: every pending refund has its transaction
      scheduled all the time exactly if no stake is made that leaves its owner's refund aside. */
  lemma {:induction false} PromisesKeptIff(balances: map<nat, int>, factor: real, acts: seq<Timed>)
    requires GoodBalances(balances) && InOrder(acts) && Kept(acts)
    ensures (forall i :: 0 <= i <= |acts| ==> PromisedAfter(balances, factor, acts, i))
       <==> (forall i :: 0 <= i < |acts| ==> !StrandsAt(balances, factor, acts, i))
  {
    if forall i :: 0 <= i < |acts| ==> !StrandsAt(balances, factor, acts, i) {
      forall i | 0 <= i <= |acts| ensures PromisedAfter(balances, factor, acts, i) {
        PromisedThrough(balances, factor, acts, i);
      }
    }
    if forall i :: 0 <= i <= |acts| ==> PromisedAfter(balances, factor, acts, i) {
      forall i | 0 <= i < |acts| ensures !StrandsAt(balances, factor, acts, i) {
        assert PromisedAfter(balances, factor, acts, i) && PromisedAfter(balances, factor, acts, i + 1);
        PromiseStep(balances, factor, acts, i);
      }
    }
  }

  // ---------- a refund left aside ----------

  lemma {:induction false} RowAfter<K>(rows: map<K, Amounts>, k: K, delta: Amounts, other: K)
    requires var row := Add(RowAt(rows, k), delta); row.net >= 0 && row.cpu >= 0
    ensures var r := ChangeRow(rows, k, delta);
            r.Some? && RowAt(r.value, other) == if other == k then Add(RowAt(rows, k), delta) else RowAt(rows, other)
  {
  }

  // The voter's row of an account that votes for nobody.
  function Row(staked: int, weight: int): Voter {
    Voter(0, [], staked, weight, 0, false)
  }

  lemma {:induction false} IdleStake(s: Votes, factor: real, x: nat, delta: int, row: Voter)
    requires row == Row(row.staked, row.lastWeight) && row == (if x in s.voters then s.voters[x] else NO_VOTE)
    requires row.staked + delta >= 0
    ensures ChangeStake(s, factor, x, delta) == Some(s.(voters := s.voters[x := Row(row.staked + delta, row.lastWeight)]))
  {
  }

  // Account 1 has so much liquid, so much staked for itself and nothing for account 2, and a vote for nobody.
  ghost predicate Stands(l: Ledger, liquid: int, staked: int, weight: int, activated: int, refund: Option<Refund>) {
    && Balance(l.balances, 1) == liquid
    && RowAt(l.delegated, Link(1, 1)) == Amounts(staked, 0) && RowAt(l.delegated, Link(1, 2)) == NOTHING
    && RowAt(l.totals, 1) == Amounts(staked, 0) && RowAt(l.totals, 2) == NOTHING
    && Pending(l.refunds, 1) == refund
    && Row(staked, weight) == (if 1 in l.votes.voters then l.votes.voters[1] else NO_VOTE)
    && l.votes.activatedStake == activated
  }

  lemma {:induction false} EnterOwn(l: Ledger, delta: Amounts) returns (entered: Ledger)
    requires var row := Add(RowAt(l.delegated, Link(1, 1)), delta); row.net >= 0 && row.cpu >= 0
    requires RowAt(l.totals, 1) == RowAt(l.delegated, Link(1, 1))
    ensures EnterStake(l, 1, 1, delta) == Some(entered) && entered == l.(delegated := entered.delegated, totals := entered.totals)
    ensures RowAt(entered.delegated, Link(1, 1)) == Add(RowAt(l.delegated, Link(1, 1)), delta)
    ensures RowAt(entered.delegated, Link(1, 2)) == RowAt(l.delegated, Link(1, 2))
    ensures RowAt(entered.totals, 1) == Add(RowAt(l.totals, 1), delta) && RowAt(entered.totals, 2) == RowAt(l.totals, 2)
  {
    RowAfter(l.delegated, Link(1, 1), delta, Link(1, 1));
    RowAfter(l.delegated, Link(1, 1), delta, Link(1, 2));
    RowAfter(l.totals, 1, delta, 1);
    RowAfter(l.totals, 1, delta, 2);
    entered := EnterStake(l, 1, 1, delta).value;
  }

  // Staking for oneself, with no refund pending.
  lemma {:induction false} StakesOwn(l: Ledger, factor: real, amount: int, liquid: int, now: nat) returns (m: Ledger)
    requires Stands(l, liquid, 0, 0, 0, None) && 0 < amount <= liquid
    ensures Delegate(l, factor, 1, 1, Amounts(amount, 0), false, now) == Some(m)
    ensures Stands(m, liquid - amount, amount, 0, 0, None) && 1 in m.votes.voters
  {
    var delta := Amounts(amount, 0);
    var entered := EnterOwn(l, delta);
    IdleStake(l.votes, factor, 1, amount, Row(0, 0));
    var paid := Transfer(l.balances, 1, STAKE, amount).value;
    TransferMoves(l.balances, 1, STAKE, amount, paid);
    assert Settle(None, delta, true, now) == Settlement(None, amount, false);
    m := Delegate(l, factor, 1, 1, delta, false, now).value;
    assert m.balances == paid;
  }

  lemma {:induction false} CastsNothing(s: Votes, factor: real, x: nat, row: Voter)
    requires x in s.voters && s.voters[x] == row == Row(row.staked, 0) && row.staked >= 0
    ensures Step(s, factor, Vote(x, 0, [])).voters == s.voters[x := Row(row.staked, row.staked)]
    ensures Step(s, factor, Vote(x, 0, [])).activatedStake == s.activatedStake + row.staked
  {
    assert VoteAllowed(s, x, 0, []);
    var s1 := Activated(s, row);
    assert Withdraw(s1, factor, row) == Some(s1) && Bestow(s1, factor, 0, row.staked, true) == Some(s1);
    assert CastVotes(s1, x, 0, [], [], 0, [], row.staked, true).Some?;
  }

  lemma {:induction false} Activates(l: Ledger, factor: real, amount: int, liquid: int) returns (m: Ledger)
    requires Stands(l, liquid, amount, 0, 0, None) && 1 in l.votes.voters && amount >= 0
    ensures CastOn(l, factor, Vote(1, 0, [])) == Some(m) && Stands(m, liquid, amount, amount, amount, None)
  {
    CastsNothing(l.votes, factor, 1, Row(amount, 0));
    m := CastOn(l, factor, Vote(1, 0, [])).value;
  }

  lemma {:induction false} UnstakesOwn(l: Ledger, factor: real, amount: int, liquid: int, part: int, now: nat) returns (m: Ledger)
    requires Stands(l, liquid, amount, amount, amount, None) && 0 < part <= amount && MIN_ACTIVATED_STAKE <= amount
    ensures Undelegate(l, factor, 1, 1, Amounts(part, 0), now) == Some(m)
    ensures Stands(m, liquid, amount - part, amount, amount, Some(Refund(part, 0, now))) && 1 in m.votes.voters
  {
    var delta := Negated(Amounts(part, 0));
    var entered := EnterOwn(l, delta);
    IdleStake(l.votes, factor, 1, -part, Row(amount, amount));
    assert Settle(None, delta, true, now) == Settlement(Some(Refund(part, 0, now)), 0, true);
    m := Undelegate(l, factor, 1, 1, Amounts(part, 0), now).value;
  }

  lemma {:induction false} StakesForOther(
    l: Ledger, factor: real, liquid: int, staked: int, weight: int, r: Refund, other: int, now: nat) returns (m: Ledger)
    requires Stands(l, liquid, staked, weight, weight, Some(r)) && 0 < other <= liquid && staked >= 0
    ensures Delegate(l, factor, 1, 2, Amounts(other, 0), false, now) == Some(m)
    ensures Pending(m.refunds, 1) == Some(r) && 1 !in m.scheduled
  {
    var delta := Amounts(other, 0);
    RowAfter(l.delegated, Link(1, 2), delta, Link(1, 2));
    RowAfter(l.totals, 2, delta, 2);
    IdleStake(l.votes, factor, 1, other, Row(staked, weight));
    assert Settle(Some(r), delta, false, now) == Settlement(Some(r), other, false);
    m := Delegate(l, factor, 1, 2, delta, false, now).value;
  }

  lemma {:induction false} FirstTwo(
    balances: map<nat, int>, factor: real, amount: int, liquid: int, acts: seq<Timed>) returns (l: Ledger)
    requires amount > 0 && liquid >= 0 && balances == map[1 := amount + liquid] && |acts| >= 2
    requires acts[0] == Timed(StakeUp(1, 1, Amounts(amount, 0), false), 0) && acts[1] == Timed(Cast(Vote(1, 0, [])), 0)
    ensures l == After(balances, factor, acts, 2) && Stands(l, liquid, amount, amount, amount, None)
  {
    var l0 := Start(balances);
    assert acts[..0] == [] && After(balances, factor, acts, 0) == l0;
    assert Stands(l0, amount + liquid, 0, 0, 0, None);
    var l1 := StakesOwn(l0, factor, amount, amount + liquid, 0);
    AfterNext(balances, factor, acts, 0);
    l := Activates(l1, factor, amount, liquid);
    AfterNext(balances, factor, acts, 1);
  }

  lemma {:induction false} Third(l: Ledger, factor: real, amount: int, liquid: int, part: int, t: Timed) returns (m: Ledger)
    requires Stands(l, liquid, amount, amount, amount, None) && 0 < part <= amount && MIN_ACTIVATED_STAKE <= amount
    requires t == Timed(StakeDown(1, 1, Amounts(part, 0)), t.now)
    ensures m == Next(l, factor, t) && Stands(m, liquid, amount - part, amount, amount, Some(Refund(part, 0, t.now)))
  {
    m := UnstakesOwn(l, factor, amount, liquid, part, t.now);
  }

  lemma {:induction false} Fourth(
    l: Ledger, factor: real, liquid: int, staked: int, weight: int, r: Refund, other: int, t: Timed) returns (m: Ledger)
    requires Stands(l, liquid, staked, weight, weight, Some(r)) && 0 < other <= liquid && staked >= 0
    requires t == Timed(StakeUp(1, 2, Amounts(other, 0), false), t.now)
    ensures m == Next(l, factor, t) && Pending(m.refunds, 1) == Some(r) && 1 !in m.scheduled
  {
    m := StakesForOther(l, factor, liquid, staked, weight, r, other, t.now);
  }

  /** An account stakes enough, votes, takes back a part of its stake, and stakes for another account before
      the refund is due: the refund is still pending, and nothing is scheduled to pay it. */
  lemma {:induction false} RefundLeftAside(
    balances: map<nat, int>, factor: real, amount: int, liquid: int, part: int, other: int, acts: seq<Timed>)
    requires MIN_ACTIVATED_STAKE <= amount && 0 < part <= amount && 0 < other <= liquid && balances == map[1 := amount + liquid]
    requires |acts| == 4
    requires acts[0] == Timed(StakeUp(1, 1, Amounts(amount, 0), false), 0) && acts[1] == Timed(Cast(Vote(1, 0, [])), 0)
    requires acts[2] == Timed(StakeDown(1, 1, Amounts(part, 0)), acts[2].now)
    requires acts[3] == Timed(StakeUp(1, 2, Amounts(other, 0), false), acts[3].now)
    ensures var l := RunFrom(Start(balances), factor, acts);
            1 in l.refunds && 1 !in l.scheduled && !Promised(l.refunds, l.scheduled)
  {
    var l2 := FirstTwo(balances, factor, amount, liquid, acts);
    var l3 := Third(l2, factor, amount, liquid, part, acts[2]);
    AfterNext(balances, factor, acts, 2);
    var l4 := Fourth(l3, factor, liquid, amount - part, amount, Refund(part, 0, acts[2].now), other, acts[3]);
    AfterNext(balances, factor, acts, 3);
    assert acts[..4] == acts;
  }

  // ---------- a stake of eosio.stake itself ----------

  lemma {:induction false} StakesUnbacked(l: Ledger, factor: real, amount: int, now: nat)
    requires l == Start(l.balances) && amount > 0
    ensures Delegate(l, factor, STAKE, 1, Amounts(amount, 0), false, now).Some?
  {
    var delta := Amounts(amount, 0);
    RowAfter(l.delegated, Link(STAKE, 1), delta, Link(STAKE, 1));
    RowAfter(l.totals, 1, delta, 1);
    IdleStake(l.votes, factor, STAKE, amount, Row(0, 0));
  }

  /** Whatever the balances, eosio.stake can stake for another account without a token moving: then its
      balance is no longer what is staked. */
  lemma {:induction false} StakedOutOfNothing(balances: map<nat, int>, factor: real, amount: int, now: nat)
    requires GoodBalances(balances) && amount > 0
    ensures !HoldsStakes(RunFrom(Start(balances), factor, [Timed(StakeUp(STAKE, 1, Amounts(amount, 0), false), now)]))
  {
    var l := Start(balances);
    var t := Timed(StakeUp(STAKE, 1, Amounts(amount, 0), false), now);
    assert [t][..0] == [] && RunFrom(l, factor, [t]) == Next(RunFrom(l, factor, []), factor, t);
    RunSound(balances, factor, []);
    HoldsStakesWhile(balances, factor, []);
    StakesUnbacked(l, factor, amount, now);
    HoldsStakesUntil(l, factor, t, MapSum(balances, Itself()));
  }
}
