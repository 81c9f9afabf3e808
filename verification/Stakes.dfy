/** Staked tokens: delegations, refunds and the transfers behind them (delegate_bandwidth.cpp),
    together with the votes the stake carries (voting.cpp). Amounts are whole token units. */
module Stakes {
  import opened Options
  import opened MapSums
  import opened Voting

  const STAKE: nat := 7 // the account eosio.stake, which holds all staked tokens
  const REFUND_DELAY := 3 * 24 * 3600
  const MIN_ACTIVATED_STAKE := 150_000_000_0000

  datatype Amounts = Amounts(net: int, cpu: int) {
    function Total(): int { net + cpu }
  }

  const NOTHING := Amounts(0, 0)

  function Add(a: Amounts, b: Amounts): Amounts {
    Amounts(a.net + b.net, a.cpu + b.cpu)
  }

  datatype Refund = Refund(net: int, cpu: int, requested: nat) {
    function Total(): int { net + cpu }
  }

  function Negated(a: Amounts): Amounts {
    Amounts(-a.net, -a.cpu)
  }

  // Who staked, and for whom.
  datatype Link = Link(owner: nat, receiver: nat)

  /** `scheduled` holds the time of the refund
      transaction set up for an account. The last two fields are history: what came to eosio.stake
      by plain transfers or was there at the start, and what it staked of its own, for which
      no tokens move. */
  datatype Ledger = Ledger(
    balances: map<nat, int>,
    delegated: map<Link, Amounts>,
    totals: map<nat, Amounts>,
    refunds: map<nat, Refund>,
    scheduled: map<nat, nat>,
    votes: Votes,
    given: int,
    unbacked: int)

  function Balance(balances: map<nat, int>, a: nat): int {
    if a in balances then balances[a] else 0
  }

  // The transfer action of the token contract.
  function Transfer(balances: map<nat, int>, from: nat, to: nat, amount: int): Option<map<nat, int>> {
    if from == to || amount <= 0 || Balance(balances, from) < amount then None
    else
      var paid := Put(balances, from, Balance(balances, from) - amount, Balance(balances, from) != amount);
      Some(paid[to := Balance(paid, to) + amount])
  }

  function RowAt<K>(rows: map<K, Amounts>, k: K): Amounts {
    if k in rows then rows[k] else NOTHING
  }

  // A row raised or lowered by an amount; it must not fall below zero, and is dropped at zero.
  function ChangeRow<K>(rows: map<K, Amounts>, k: K, delta: Amounts): Option<map<K, Amounts>> {
    var row := Add(RowAt(rows, k), delta);
    if row.net < 0 || row.cpu < 0 then None else Some(Put(rows, k, row, row != NOTHING))
  }

  // What becomes of the pending refund, what is left to pay in liquid tokens, and whether a
  // refund transaction is set up.
  datatype Settlement = Settlement(refund: Option<Refund>, due: int, schedule: bool)

  function Settle(pending: Option<Refund>, delta: Amounts, toSelf: bool, now: nat): Settlement {
    if toSelf || delta.Total() < 0 then
      if pending.Some? then
        var r := pending.value;
        var requested := if delta.net < 0 || delta.cpu < 0 then now else r.requested;
        var left := Refund(AtLeastZero(r.net - delta.net), AtLeastZero(r.cpu - delta.cpu), requested);
        var due := AtLeastZero(delta.net - r.net) + AtLeastZero(delta.cpu - r.cpu);
        if left.net == 0 && left.cpu == 0 then Settlement(None, due, false) else Settlement(Some(left), due, true)
      else if delta.net < 0 || delta.cpu < 0 then
        Settlement(Some(Refund(AtLeastZero(-delta.net), AtLeastZero(-delta.cpu), now)),
                   AtLeastZero(delta.net) + AtLeastZero(delta.cpu), true)
      else Settlement(None, delta.Total(), false)
    else Settlement(pending, delta.Total(), false)
  }

  function Pending(refunds: map<nat, Refund>, a: nat): Option<Refund> {
    if a in refunds then Some(refunds[a]) else None
  }

  function SetRefund(refunds: map<nat, Refund>, a: nat, r: Option<Refund>): map<nat, Refund> {
    if r.Some? then refunds[a := r.value] else refunds - {a}
  }

  function Rescheduled(scheduled: map<nat, nat>, a: nat, schedule: bool, now: nat): map<nat, nat> {
    if schedule then scheduled[a := now + REFUND_DELAY] else scheduled - {a}
  }

  function Abs(x: int): int { if x < 0 then -x else x }

  // The amounts are not both zero and do not pull in opposite directions.
  predicate OneWay(delta: Amounts) {
    && (delta.net != 0 || delta.cpu != 0)
    && Abs(delta.Total()) >= Abs(delta.net) && Abs(delta.Total()) >= Abs(delta.cpu)
  }

  // The refund and the tokens of a change of stake; eosio.stake moves no tokens.
  function PayStake(l: Ledger, source: nat, owner: nat, delta: Amounts, toSelf: bool, now: nat): Option<Ledger> {
    if source == STAKE then Some(l.(unbacked := l.unbacked + delta.Total()))
    else
      var done := Settle(Pending(l.refunds, owner), delta, toSelf, now);
      var settled := l.(
        refunds := SetRefund(l.refunds, owner, done.refund),
        scheduled := Rescheduled(l.scheduled, owner, done.schedule, now));
      if done.due > 0 then
        var paid := Transfer(l.balances, source, STAKE, done.due);
        if paid.None? then None else Some(settled.(balances := paid.value))
      else Some(settled)
  }

  // The delegation and the receiver's totals.
  function EnterStake(l: Ledger, owner: nat, receiver: nat, delta: Amounts): Option<Ledger> {
    var delegated := ChangeRow(l.delegated, Link(owner, receiver), delta);
    var totals := ChangeRow(l.totals, receiver, delta);
    if delegated.None? || totals.None? then None
    else Some(l.(delegated := delegated.value, totals := totals.value))
  }

  /** changebw. With `transfer` the stake becomes the receiver's own, though the source pays for it. */
  function ChangeBandwidth(
    l: Ledger, factor: real, source: nat, receiver: nat, delta: Amounts, transfer: bool, now: nat): Option<Ledger>
  {
    var owner := if transfer then receiver else source;
    var entered := EnterStake(l, owner, receiver, delta);
    if !OneWay(delta) || entered.None? then None
    else
      var paid := PayStake(entered.value, source, owner, delta, !transfer && owner == receiver, now);
      var votes := ChangeStake(l.votes, factor, owner, delta.Total());
      if paid.None? || votes.None? then None else Some(paid.value.(votes := votes.value))
  }

  function Delegate(
    l: Ledger, factor: real, source: nat, receiver: nat, delta: Amounts, transfer: bool, now: nat): Option<Ledger>
  {
    if delta.net < 0 || delta.cpu < 0 || delta.Total() <= 0 || (transfer && source == receiver) then None
    else ChangeBandwidth(l, factor, source, receiver, delta, transfer, now)
  }

  function Undelegate(l: Ledger, factor: real, source: nat, receiver: nat, delta: Amounts, now: nat): Option<Ledger> {
    if delta.net < 0 || delta.cpu < 0 || delta.Total() <= 0 || l.votes.activatedStake < MIN_ACTIVATED_STAKE then None
    else ChangeBandwidth(l, factor, source, receiver, Negated(delta), false, now)
  }

  // The refund action.
  function Claim(l: Ledger, owner: nat, now: nat): Option<Ledger> {
    if owner !in l.refunds || now < l.refunds[owner].requested + REFUND_DELAY then None
    else
      var paid := Transfer(l.balances, STAKE, owner, l.refunds[owner].Total());
      if paid.None? then None else Some(l.(balances := paid.value, refunds := l.refunds - {owner}))
  }

  // The scheduled refund transaction runs once, whether it succeeds or not.
  function RunScheduled(l: Ledger, owner: nat, now: nat): Option<Ledger> {
    if owner !in l.scheduled || now < l.scheduled[owner] then None
    else
      var r := Claim(l, owner, now);
      var after := if r.None? then l else r.value;
      Some(after.(scheduled := after.scheduled - {owner}))
  }

  // A plain transfer of tokens.
  function Pay(l: Ledger, from: nat, to: nat, amount: int): Option<Ledger> {
    var paid := Transfer(l.balances, from, to, amount);
    if paid.None? then None
    else
      Some(l.(balances := paid.value,
              given := l.given + (if to == STAKE then amount else 0) - (if from == STAKE then amount else 0)))
  }

  datatype Act =
    | StakeUp(source: nat, receiver: nat, delta: Amounts, transfer: bool)
    | StakeDown(source: nat, receiver: nat, delta: Amounts)
    | ClaimRefund(owner: nat)
    | Scheduled(owner: nat)
    | PayTokens(source: nat, receiver: nat, amount: int)
    | Cast(action: Voting.Action)

  // The stake of a voter changes with the delegations only.
  function CastOn(l: Ledger, factor: real, a: Voting.Action): Option<Ledger> {
    if a.Stake? then None else Some(l.(votes := Voting.Step(l.votes, factor, a)))
  }

  function Perform(l: Ledger, factor: real, act: Act, now: nat): Option<Ledger> {
    match act
    case StakeUp(source, receiver, delta, transfer) =>
      if source == 0 || receiver == 0 then None else Delegate(l, factor, source, receiver, delta, transfer, now)
    case StakeDown(source, receiver, delta) =>
      if source == 0 || receiver == 0 then None else Undelegate(l, factor, source, receiver, delta, now)
    case ClaimRefund(owner) => Claim(l, owner, now)
    case Scheduled(owner) => RunScheduled(l, owner, now)
    case PayTokens(source, receiver, amount) => Pay(l, source, receiver, amount)
    case Cast(action) => CastOn(l, factor, action)
  }

  datatype Timed = Timed(act: Act, now: nat)

  // An action that fails leaves no trace.
  function Next(l: Ledger, factor: real, t: Timed): Ledger {
    var r := Perform(l, factor, t.act, t.now);
    if r.None? then l else r.value
  }

  function Start(balances: map<nat, int>): Ledger {
    Ledger(balances, map[], map[], map[], map[], Voting.GENESIS, Balance(balances, STAKE), 0)
  }

  function RunFrom(l: Ledger, factor: real, acts: seq<Timed>): Ledger {
    if acts == [] then l else Next(RunFrom(l, factor, acts[..|acts| - 1]), factor, acts[|acts| - 1])
  }
}
