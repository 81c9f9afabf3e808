/** The stake tables as the actions update them in place. An action that fails is undone. */
module StakeTables {
  import opened MapSums
  import opened VoteTables
  import opened Stakes

  // Creates or changes a row, checks it and erases it at zero.
  method BumpRow<K(==)>(rows: map<K, Amounts>, k: K, delta: Amounts) returns (ok: bool, changed: map<K, Amounts>)
    ensures ok <==> ChangeRow(rows, k, delta).Some?
    ensures ok ==> changed == ChangeRow(rows, k, delta).value
  {
    var row := Add(RowAt(rows, k), delta);
    ok := 0 <= row.net && 0 <= row.cpu;
    if row == NOTHING {
      changed := rows - {k};
    } else {
      changed := rows[k := row];
    }
    assert changed == Put(rows, k, row, row != NOTHING);
  }

  class Bank {
    var balances: map<nat, int>
    var delegated: map<Link, Amounts>
    var totals: map<nat, Amounts>
    var refunds: map<nat, Refund>
    var scheduled: map<nat, nat>
    const votes: Tables
    ghost var given: int
    ghost var unbacked: int

    constructor (start: map<nat, int>)
      ensures View() == Start(start) && Valid() && fresh(votes)
    {
      balances, delegated, totals := start, map[], map[];
      refunds, scheduled := map[], map[];
      votes := new Tables();
      given, unbacked := Balance(start, STAKE), 0;
    }

    ghost predicate Valid()
      reads this, votes
    {
      votes.Valid()
    }

    ghost function View(): Ledger
      reads this, votes
    {
      Ledger(balances, delegated, totals, refunds, scheduled, votes.State(), given, unbacked)
    }

    method MoveTokens(from: nat, to: nat, amount: int) returns (ok: bool)
      modifies this`balances
      ensures ok <==> Transfer(old(balances), from, to, amount).Some?
      ensures balances == if ok then Transfer(old(balances), from, to, amount).value else old(balances)
    {
      if from == to || amount <= 0 || from !in balances || balances[from] < amount {
        return false;
      }
      if balances[from] == amount {
        balances := balances - {from};
      } else {
        balances := balances[from := balances[from] - amount];
      }
      if to in balances {
        balances := balances[to := balances[to] + amount];
      } else {
        balances := balances[to := amount];
      }
      ok := true;
    }

    method EnterRows(owner: nat, receiver: nat, delta: Amounts) returns (ok: bool)
      modifies this`delegated, this`totals
      ensures ok <==> EnterStake(old(View()), owner, receiver, delta).Some?
      ensures ok ==> View() == EnterStake(old(View()), owner, receiver, delta).value
    {
      ok, delegated := BumpRow(delegated, Link(owner, receiver), delta);
      if ok {
        ok, totals := BumpRow(totals, receiver, delta);
      }
    }

    // The refund row of the owner after a change of stake, and what remains to be paid.
    method SettleRefund(owner: nat, delta: Amounts, toSelf: bool, now: nat) returns (due: int)
      modifies this`refunds, this`scheduled
      ensures var s := Settle(Pending(old(refunds), owner), delta, toSelf, now);
              && due == s.due
              && refunds == SetRefund(old(refunds), owner, s.refund)
              && scheduled == Rescheduled(old(scheduled), owner, s.schedule, now)
    {
      var netBalance, cpuBalance := delta.net, delta.cpu;
      var schedule := false;
      if toSelf || netBalance + cpuBalance < 0 {
        if owner in refunds {
          var r := refunds[owner];
          if netBalance < 0 || cpuBalance < 0 {
            r := r.(requested := now);
          }
          r := r.(net := r.net - netBalance);
          if r.net < 0 {
            netBalance := -r.net;
            r := r.(net := 0);
          } else {
            netBalance := 0;
          }
          r := r.(cpu := r.cpu - cpuBalance);
          if r.cpu < 0 {
            cpuBalance := -r.cpu;
            r := r.(cpu := 0);
          } else {
            cpuBalance := 0;
          }
          if r.net == 0 && r.cpu == 0 {
            refunds := refunds - {owner};
          } else {
            refunds := refunds[owner := r];
            schedule := true;
          }
        } else if netBalance < 0 || cpuBalance < 0 {
          var r := Refund(0, 0, now);
          if netBalance < 0 {
            r, netBalance := r.(net := -netBalance), 0;
          }
          if cpuBalance < 0 {
            r, cpuBalance := r.(cpu := -cpuBalance), 0;
          }
          refunds := refunds[owner := r];
          schedule := true;
        }
      }
      if schedule {
        scheduled := (scheduled - {owner})[owner := now + REFUND_DELAY];
      } else {
        scheduled := scheduled - {owner};
      }
      due := netBalance + cpuBalance;
      assert old(refunds) == SetRefund(old(refunds), owner, Pending(old(refunds), owner));
    }

    method PayForStake(source: nat, owner: nat, delta: Amounts, toSelf: bool, now: nat) returns (ok: bool)
      modifies this`balances, this`refunds, this`scheduled, this`unbacked
      ensures ok <==> PayStake(old(View()), source, owner, delta, toSelf, now).Some?
      ensures ok ==> View() == PayStake(old(View()), source, owner, delta, toSelf, now).value
    {
      ok := true;
      if source != STAKE {
        var due := SettleRefund(owner, delta, toSelf, now);
        if 0 < due {
          ok := MoveTokens(source, STAKE, due);
        }
      } else {
        unbacked := unbacked + delta.Total();
      }
    }

    method TryChangeBw(factor: real, source: nat, receiver: nat, delta: Amounts, transfer: bool, now: nat) returns (ok: bool)
      requires Valid()
      modifies this, votes
      ensures ok <==> ChangeBandwidth(old(View()), factor, source, receiver, delta, transfer, now).Some?
      ensures ok ==> View() == ChangeBandwidth(old(View()), factor, source, receiver, delta, transfer, now).value
      ensures given == old(given) && Valid() && (!ok ==> votes.State() == old(votes.State()))
    {
      if !OneWay(delta) {
        return false;
      }
      var owner := if transfer then receiver else source;
      ok := EnterRows(owner, receiver, delta);
      if ok {
        ok := PayForStake(source, owner, delta, !transfer && owner == receiver, now);
      }
      if ok {
        ok := votes.SetStake(factor, owner, delta.Total());
      }
    }

    method ChangeBw(factor: real, source: nat, receiver: nat, delta: Amounts, transfer: bool, now: nat) returns (ok: bool)
      requires Valid()
      modifies this, votes
      ensures ok <==> ChangeBandwidth(old(View()), factor, source, receiver, delta, transfer, now).Some?
      ensures View() == if ok then ChangeBandwidth(old(View()), factor, source, receiver, delta, transfer, now).value
                        else old(View())
      ensures Valid()
    {
      var b, d, t, r, s := balances, delegated, totals, refunds, scheduled;
      ghost var u := unbacked;
      ok := TryChangeBw(factor, source, receiver, delta, transfer, now);
      if !ok {
        balances, delegated, totals, refunds, scheduled := b, d, t, r, s;
        unbacked := u;
      }
    }

    method DelegateBw(factor: real, source: nat, receiver: nat, delta: Amounts, transfer: bool, now: nat) returns (ok: bool)
      requires Valid()
      modifies this, votes
      ensures ok <==> Delegate(old(View()), factor, source, receiver, delta, transfer, now).Some?
      ensures View() == if ok then Delegate(old(View()), factor, source, receiver, delta, transfer, now).value
                        else old(View())
      ensures Valid()
    {
      if delta.cpu < 0 || delta.net < 0 || delta.net + delta.cpu <= 0 || (transfer && source == receiver) {
        return false;
      }
      ok := ChangeBw(factor, source, receiver, delta, transfer, now);
    }

    method UndelegateBw(factor: real, source: nat, receiver: nat, delta: Amounts, now: nat) returns (ok: bool)
      requires Valid()
      modifies this, votes
      ensures ok <==> Undelegate(old(View()), factor, source, receiver, delta, now).Some?
      ensures View() == if ok then Undelegate(old(View()), factor, source, receiver, delta, now).value else old(View())
      ensures Valid()
    {
      if delta.cpu < 0 || delta.net < 0 || delta.net + delta.cpu <= 0 || votes.activatedStake < MIN_ACTIVATED_STAKE {
        return false;
      }
      ok := ChangeBw(factor, source, receiver, Negated(delta), false, now);
    }

    method RefundTokens(owner: nat, now: nat) returns (ok: bool)
      requires Valid()
      modifies this
      ensures ok <==> Claim(old(View()), owner, now).Some?
      ensures View() == if ok then Claim(old(View()), owner, now).value else old(View())
      ensures Valid()
    {
      if owner !in refunds || now < refunds[owner].requested + REFUND_DELAY {
        return false;
      }
      ok := MoveTokens(STAKE, owner, refunds[owner].net + refunds[owner].cpu);
      if ok {
        refunds := refunds - {owner};
      }
    }
  }
}
