/** What every run of the stake ledger keeps: no token is made or lost, eosio.stake holds exactly what
    is staked or waiting to be refunded, and the totals agree with the delegations. */
module StakeLaws {
  import opened Options
  import opened MapSums
  import opened Voting
  import opened StakeVotes
  import opened Stakes

  // ---------- sums over the tables ----------

  function Itself(): (nat, int) -> int { (_, x) => x }
  function RefundTotal(): (nat, Refund) -> int { (_: nat, r: Refund) => r.net + r.cpu }
  function Whole(): (Link, Amounts) -> int { (_: Link, v: Amounts) => v.net + v.cpu }
  function StakedBy(a: nat): (Link, Amounts) -> int { (k: Link, v: Amounts) => if k.owner == a then v.net + v.cpu else 0 }
  function NetFor(a: nat): (Link, Amounts) -> int { (k: Link, v: Amounts) => if k.receiver == a then v.net else 0 }
  function CpuFor(a: nat): (Link, Amounts) -> int { (k: Link, v: Amounts) => if k.receiver == a then v.cpu else 0 }

  // What is staked for an account.
  ghost function Received(delegated: map<Link, Amounts>, a: nat): Amounts {
    Amounts(MapSum(delegated, NetFor(a)), MapSum(delegated, CpuFor(a)))
  }

  lemma {:induction false} TransferMoves(b: map<nat, int>, from: nat, to: nat, amount: int, c: map<nat, int>)
    requires Transfer(b, from, to, amount) == Some(c)
    ensures MapSum(c, Itself()) == MapSum(b, Itself())
    ensures forall a :: Balance(c, a)
                     == Balance(b, a) + (if a == to then amount else 0) - (if a == from then amount else 0)
  {
    var left := Balance(b, from) - amount;
    var paid := Put(b, from, left, Balance(b, from) != amount);
    MapSumPut(b, from, left, Balance(b, from) != amount, Itself());
    MapSumPut(paid, to, Balance(paid, to) + amount, true, Itself());
  }

  lemma {:induction false} ChangeRowSum<K>(
    rows: map<K, Amounts>, k: K, delta: Amounts, changed: map<K, Amounts>, g: (K, Amounts) -> int)
    requires ChangeRow(rows, k, delta) == Some(changed) && g(k, NOTHING) == 0
    requires g(k, Add(RowAt(rows, k), delta)) == g(k, RowAt(rows, k)) + g(k, delta)
    ensures MapSum(changed, g) == MapSum(rows, g) + g(k, delta)
  {
    var row := Add(RowAt(rows, k), delta);
    MapSumPut(rows, k, row, row != NOTHING, g);
  }

  lemma {:induction false} StakedSum(rows: map<Link, Amounts>, k: Link, delta: Amounts, changed: map<Link, Amounts>, a: nat)
    requires ChangeRow(rows, k, delta) == Some(changed)
    ensures MapSum(changed, StakedBy(a)) == MapSum(rows, StakedBy(a)) + (if k.owner == a then delta.Total() else 0)
  {
    ChangeRowSum(rows, k, delta, changed, StakedBy(a));
  }

  lemma {:induction false} NetSum(rows: map<Link, Amounts>, k: Link, delta: Amounts, changed: map<Link, Amounts>, a: nat)
    requires ChangeRow(rows, k, delta) == Some(changed)
    ensures MapSum(changed, NetFor(a)) == MapSum(rows, NetFor(a)) + (if k.receiver == a then delta.net else 0)
  {
    ChangeRowSum(rows, k, delta, changed, NetFor(a));
  }

  lemma {:induction false} CpuSum(rows: map<Link, Amounts>, k: Link, delta: Amounts, changed: map<Link, Amounts>, a: nat)
    requires ChangeRow(rows, k, delta) == Some(changed)
    ensures MapSum(changed, CpuFor(a)) == MapSum(rows, CpuFor(a)) + (if k.receiver == a then delta.cpu else 0)
  {
    ChangeRowSum(rows, k, delta, changed, CpuFor(a));
  }

  lemma {:induction false} ReceivedSum(rows: map<Link, Amounts>, k: Link, delta: Amounts, changed: map<Link, Amounts>, a: nat)
    requires ChangeRow(rows, k, delta) == Some(changed)
    ensures Received(changed, a) == if k.receiver == a then Add(Received(rows, a), delta) else Received(rows, a)
  {
    NetSum(rows, k, delta, changed, a);
    CpuSum(rows, k, delta, changed, a);
  }

  lemma {:induction false} WholeSum(rows: map<Link, Amounts>, k: Link, delta: Amounts, changed: map<Link, Amounts>)
    requires ChangeRow(rows, k, delta) == Some(changed)
    ensures MapSum(changed, Whole()) == MapSum(rows, Whole()) + delta.Total()
  {
    ChangeRowSum(rows, k, delta, changed, Whole());
  }

  // ---------- the settlement of one change ----------

  ghost predicate GoodRefund(r: Option<Refund>) {
    r.Some? ==> r.value.net >= 0 && r.value.cpu >= 0 && r.value.Total() > 0
  }

  function TotalOf(r: Option<Refund>): int {
    if r.Some? then r.value.Total() else 0
  }

  /** Whatever the case, what is paid in tokens is what is staked beyond the pending refund and what
      is unstaked is added to it. */
  lemma {:induction false} SettleBalances(pending: Option<Refund>, delta: Amounts, toSelf: bool, now: nat)
    requires OneWay(delta) && GoodRefund(pending)
    ensures var s := Settle(pending, delta, toSelf, now);
            && s.due >= 0 && GoodRefund(s.refund)
            && s.due + TotalOf(pending) == delta.Total() + TotalOf(s.refund)
  {
    assert (delta.net >= 0 && delta.cpu >= 0) || (delta.net <= 0 && delta.cpu <= 0);
  }

  // ---------- the invariant ----------

  ghost predicate GoodDelegations(delegated: map<Link, Amounts>) {
    forall k {:trigger delegated[k]} :: k in delegated ==> delegated[k].net >= 0 && delegated[k].cpu >= 0
  }

  ghost predicate GoodRefunds(refunds: map<nat, Refund>) {
    STAKE !in refunds && forall a {:trigger refunds[a]} :: a in refunds ==> GoodRefund(Some(refunds[a]))
  }

  ghost predicate GoodBalances(balances: map<nat, int>) {
    forall a {:trigger balances[a]} :: a in balances ==> balances[a] >= 0
  }

  ghost predicate GoodRows(l: Ledger) {
    GoodDelegations(l.delegated) && GoodRefunds(l.refunds) && GoodBalances(l.balances)
  }

  ghost predicate StakesTallied(l: Ledger) {
    forall a :: StakedOf(l.votes, a) == MapSum(l.delegated, StakedBy(a))
  }

  function TotalsOf(totals: map<nat, Amounts>, a: nat): Amounts {
    if a in totals then totals[a] else NOTHING
  }

  ghost predicate TotalsTallied(l: Ledger) {
    forall a :: TotalsOf(l.totals, a) == Received(l.delegated, a)
  }

  // eosio.stake holds what is staked and what is waiting to be refunded.
  ghost predicate Backed(l: Ledger) {
    Balance(l.balances, STAKE) + l.unbacked == l.given + MapSum(l.delegated, Whole()) + MapSum(l.refunds, RefundTotal())
  }

  // ---------- a change of stake ----------

  lemma {:induction false} SetRefundSum(refunds: map<nat, Refund>, a: nat, r: Option<Refund>)
    ensures MapSum(SetRefund(refunds, a, r), RefundTotal())
         == MapSum(refunds, RefundTotal()) - TotalOf(Pending(refunds, a)) + TotalOf(r)
  {
    if r.Some? {
      MapSumPut(refunds, a, r.value, true, RefundTotal());
    } else {
      MapSumOut(refunds, a, RefundTotal());
    }
  }

  // What eosio.stake holds beyond the pending refunds.
  ghost function Surplus(l: Ledger): int {
    Balance(l.balances, STAKE) + l.unbacked - MapSum(l.refunds, RefundTotal())
  }

  lemma {:induction false} TransferGood(b: map<nat, int>, from: nat, to: nat, amount: int, c: map<nat, int>)
    requires Transfer(b, from, to, amount) == Some(c) && GoodBalances(b)
    ensures GoodBalances(c)
  {
    TransferMoves(b, from, to, amount, c);
    forall a | a in c ensures c[a] >= 0 {
      assert c[a] == Balance(c, a);
    }
  }

  lemma {:induction false} SetRefundGood(refunds: map<nat, Refund>, a: nat, r: Option<Refund>)
    requires GoodRefunds(refunds) && GoodRefund(r) && (a == STAKE ==> r.None?)
    ensures GoodRefunds(SetRefund(refunds, a, r))
  {
  }

  lemma {:induction false} PayStakeRefunds(
    l: Ledger, source: nat, owner: nat, delta: Amounts, toSelf: bool, now: nat, p: Ledger)
    requires OneWay(delta) && GoodRefunds(l.refunds) && PayStake(l, source, owner, delta, toSelf, now) == Some(p)
    requires owner == STAKE && source != STAKE ==> delta.Total() > 0 && !toSelf
    ensures GoodRefunds(p.refunds)
  {
    if source != STAKE {
      var pending := Pending(l.refunds, owner);
      SettleBalances(pending, delta, toSelf, now);
      SetRefundGood(l.refunds, owner, Settle(pending, delta, toSelf, now).refund);
    }
  }

  lemma {:induction false} PayStakeSums(
    l: Ledger, source: nat, owner: nat, delta: Amounts, toSelf: bool, now: nat, p: Ledger)
    requires OneWay(delta) && GoodRefunds(l.refunds) && GoodBalances(l.balances)
    requires PayStake(l, source, owner, delta, toSelf, now) == Some(p)
    ensures GoodBalances(p.balances)
    ensures MapSum(p.balances, Itself()) == MapSum(l.balances, Itself())
    ensures Surplus(p) == Surplus(l) + delta.Total()
  {
    if source != STAKE {
      var pending := Pending(l.refunds, owner);
      var done := Settle(pending, delta, toSelf, now);
      SettleBalances(pending, delta, toSelf, now);
      SetRefundSum(l.refunds, owner, done.refund);
      if done.due > 0 {
        TransferMoves(l.balances, source, STAKE, done.due, p.balances);
        TransferGood(l.balances, source, STAKE, done.due, p.balances);
      }
    }
  }

  lemma {:induction false} ChangeRowGood(rows: map<Link, Amounts>, k: Link, delta: Amounts, changed: map<Link, Amounts>)
    requires GoodDelegations(rows) && ChangeRow(rows, k, delta) == Some(changed)
    ensures GoodDelegations(changed)
  {
  }

  lemma {:induction false} ChangeKeepsStakes(l: Ledger, factor: real, owner: nat, receiver: nat, delta: Amounts, m: Ledger)
    requires StakesTallied(l) && ChangeRow(l.delegated, Link(owner, receiver), delta) == Some(m.delegated)
    requires ChangeStake(l.votes, factor, owner, delta.Total()) == Some(m.votes)
    ensures StakesTallied(m)
  {
    ChangeStakeOne(l.votes, factor, owner, delta.Total(), m.votes);
    forall a ensures StakedOf(m.votes, a) == MapSum(m.delegated, StakedBy(a)) {
      StakedSum(l.delegated, Link(owner, receiver), delta, m.delegated, a);
    }
  }

  lemma {:induction false} TotalsChanged(totals: map<nat, Amounts>, receiver: nat, delta: Amounts, changed: map<nat, Amounts>, a: nat)
    requires ChangeRow(totals, receiver, delta) == Some(changed)
    ensures TotalsOf(changed, a) == if receiver == a then Add(TotalsOf(totals, a), delta) else TotalsOf(totals, a)
  {
  }

  lemma {:induction false} ChangeKeepsTotals(l: Ledger, owner: nat, receiver: nat, delta: Amounts, m: Ledger)
    requires TotalsTallied(l) && ChangeRow(l.delegated, Link(owner, receiver), delta) == Some(m.delegated)
    requires ChangeRow(l.totals, receiver, delta) == Some(m.totals)
    ensures TotalsTallied(m)
  {
    forall a ensures TotalsOf(m.totals, a) == Received(m.delegated, a) {
      ReceivedSum(l.delegated, Link(owner, receiver), delta, m.delegated, a);
      TotalsChanged(l.totals, receiver, delta, m.totals, a);
    }
  }

  lemma {:induction false} ChangeKeepsBacking(l: Ledger, owner: nat, receiver: nat, delta: Amounts, m: Ledger)
    requires Backed(l) && ChangeRow(l.delegated, Link(owner, receiver), delta) == Some(m.delegated)
    requires Surplus(m) == Surplus(l) + delta.Total() && m.given == l.given
    ensures Backed(m)
  {
    WholeSum(l.delegated, Link(owner, receiver), delta, m.delegated);
  }

  // ---------- every action ----------

  ghost predicate Sound(l: Ledger, supply: int) {
    && GoodRows(l)
    && StakesTallied(l)
    && TotalsTallied(l)
    && Backed(l)
    && MapSum(l.balances, Itself()) == supply
  }

  lemma {:induction false} EnterKeeps(l: Ledger, owner: nat, receiver: nat, delta: Amounts, entered: Ledger)
    requires EnterStake(l, owner, receiver, delta) == Some(entered) && GoodRows(l)
    ensures GoodRows(entered) && Surplus(entered) == Surplus(l)
  {
    ChangeRowGood(l.delegated, Link(owner, receiver), delta, entered.delegated);
  }

  lemma {:induction false} ChangeKeepsTokens(
    l: Ledger, source: nat, owner: nat, receiver: nat, delta: Amounts, toSelf: bool, now: nat, entered: Ledger, p: Ledger)
    requires GoodRows(l) && OneWay(delta) && EnterStake(l, owner, receiver, delta) == Some(entered)
    requires owner == STAKE && source != STAKE ==> delta.Total() > 0 && !toSelf
    requires PayStake(entered, source, owner, delta, toSelf, now) == Some(p)
    ensures GoodRows(p) && MapSum(p.balances, Itself()) == MapSum(l.balances, Itself())
    ensures Surplus(p) == Surplus(l) + delta.Total() && p.given == l.given
    ensures p.delegated == entered.delegated && p.totals == entered.totals
  {
    EnterKeeps(l, owner, receiver, delta, entered);
    PayStakeRefunds(entered, source, owner, delta, toSelf, now, p);
    PayStakeSums(entered, source, owner, delta, toSelf, now, p);
  }

  lemma {:induction false} ChangeParts(
    l: Ledger, factor: real, source: nat, receiver: nat, delta: Amounts, transfer: bool, now: nat, owner: nat, m: Ledger)
    returns (entered: Ledger, p: Ledger)
    requires ChangeBandwidth(l, factor, source, receiver, delta, transfer, now) == Some(m)
    requires owner == if transfer then receiver else source
    ensures OneWay(delta) && EnterStake(l, owner, receiver, delta) == Some(entered)
    ensures PayStake(entered, source, owner, delta, !transfer && owner == receiver, now) == Some(p)
    ensures ChangeStake(l.votes, factor, owner, delta.Total()) == Some(m.votes) && m == p.(votes := m.votes)
  {
    entered := EnterStake(l, owner, receiver, delta).value;
    p := PayStake(entered, source, owner, delta, !transfer && owner == receiver, now).value;
  }

  lemma {:induction false} ChangeKeeps(
    l: Ledger, factor: real, source: nat, receiver: nat, delta: Amounts, transfer: bool, now: nat, m: Ledger, supply: int)
    requires Sound(l, supply) && (transfer ==> delta.Total() > 0)
    requires ChangeBandwidth(l, factor, source, receiver, delta, transfer, now) == Some(m)
    ensures Sound(m, supply)
  {
    var owner := if transfer then receiver else source;
    var entered, p := ChangeParts(l, factor, source, receiver, delta, transfer, now, owner, m);
    ChangeKeepsTokens(l, source, owner, receiver, delta, !transfer && owner == receiver, now, entered, p);
    ChangeKeepsStakes(l, factor, owner, receiver, delta, m);
    ChangeKeepsTotals(l, owner, receiver, delta, m);
    ChangeKeepsBacking(l, owner, receiver, delta, m);
  }

  lemma {:induction false} ClaimKeeps(l: Ledger, owner: nat, now: nat, m: Ledger, supply: int)
    requires Sound(l, supply) && Claim(l, owner, now) == Some(m)
    ensures Sound(m, supply)
  {
    TransferMoves(l.balances, STAKE, owner, l.refunds[owner].Total(), m.balances);
    TransferGood(l.balances, STAKE, owner, l.refunds[owner].Total(), m.balances);
    MapSumOut(l.refunds, owner, RefundTotal());
  }

  lemma {:induction false} PayKeeps(l: Ledger, from: nat, to: nat, amount: int, m: Ledger, supply: int)
    requires Sound(l, supply) && Pay(l, from, to, amount) == Some(m)
    ensures Sound(m, supply)
  {
    TransferMoves(l.balances, from, to, amount, m.balances);
    TransferGood(l.balances, from, to, amount, m.balances);
  }

  lemma {:induction false} CastKeeps(l: Ledger, factor: real, a: Action, m: Ledger, supply: int)
    requires Sound(l, supply) && CastOn(l, factor, a) == Some(m)
    ensures Sound(m, supply)
  {
    StepSame(l.votes, factor, a);
    forall b ensures StakedOf(m.votes, b) == MapSum(m.delegated, StakedBy(b)) {
      assert StakedOf(l.votes, b) == MapSum(l.delegated, StakedBy(b));
    }
  }

  lemma {:induction false} NextKeeps(l: Ledger, factor: real, t: Timed, supply: int)
    requires Sound(l, supply)
    ensures Sound(Next(l, factor, t), supply)
  {
    var r := Perform(l, factor, t.act, t.now);
    if r.Some? {
      match t.act
      case StakeUp(source, receiver, delta, transfer) =>
        ChangeKeeps(l, factor, source, receiver, delta, transfer, t.now, r.value, supply);
      case StakeDown(source, receiver, delta) =>
        ChangeKeeps(l, factor, source, receiver, Negated(delta), false, t.now, r.value, supply);
      case ClaimRefund(owner) => ClaimKeeps(l, owner, t.now, r.value, supply);
      case Scheduled(owner) =>
        var claimed := Claim(l, owner, t.now);
        if claimed.Some? {
          ClaimKeeps(l, owner, t.now, claimed.value, supply);
        }
      case PayTokens(source, receiver, amount) => PayKeeps(l, source, receiver, amount, r.value, supply);
      case Cast(action) => CastKeeps(l, factor, action, r.value, supply);
    }
  }

  lemma {:induction false} StartSound(balances: map<nat, int>)
    requires GoodBalances(balances)
    ensures Sound(Start(balances), MapSum(balances, Itself()))
  {
  }

  /** In every run the tokens are conserved and the ledger stays sound. */
  lemma {:induction false} RunSound(balances: map<nat, int>, factor: real, acts: seq<Timed>)
    requires GoodBalances(balances)
    ensures Sound(RunFrom(Start(balances), factor, acts), MapSum(balances, Itself()))
    decreases |acts|
  {
    if acts == [] {
      StartSound(balances);
    } else {
      var n := |acts| - 1;
      RunSound(balances, factor, acts[..n]);
      NextKeeps(RunFrom(Start(balances), factor, acts[..n]), factor, acts[n], MapSum(balances, Itself()));
    }
  }
}
