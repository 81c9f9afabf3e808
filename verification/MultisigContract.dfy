/** The multisig contract as it updates its tables in place. */
module MultisigContract {
  import opened Authorities
  import opened Multisig

  lemma {:induction false} WithoutAt(s: seq<Level>, l: Level, i: nat)
    requires i < |s| && s[i] == l && l !in s[..i]
    ensures Without(s, l) == s[..i] + s[i + 1..]
    decreases |s|
  {
    if i > 0 {
      assert s[..i][0] == s[0] && s[1..][..i - 1] == s[..i][1..];
      WithoutAt(s[1..], l, i - 1);
      assert s[1..][i..] == s[i + 1..];
    }
  }

  // std::find
  method Find(s: seq<Level>, l: Level) returns (i: nat)
    ensures i <= |s| && l !in s[..i] && (i < |s| ==> s[i] == l) && (i == |s| <==> l !in s)
  {
    i := 0;
    while i < |s| && s[i] != l
      invariant i <= |s| && l !in s[..i]
    {
      assert s[..i + 1] == s[..i] + [s[i]];
      i := i + 1;
    }
    assert s[..|s|] == s;
  }

  // The loop over the levels a transaction declares
  method CheckAuthorization(w: World, trx: Transaction, granted: seq<Level>) returns (ok: bool)
    ensures ok <==> Authorized(w, trx, granted)
  {
    var env := EnvFor(w, trx, granted);
    var i := 0;
    while i < |trx.declared|
      invariant i <= |trx.declared| && forall j :: 0 <= j < i ==> LevelSatisfied(env, trx.declared[j])
    {
      if !LevelSatisfied(env, trx.declared[i]) {
        return false;
      }
      i := i + 1;
    }
    ok := true;
  }

  class Contract {
    var proposals: map<Key, Transaction>
    var approvals: map<Key, Approvals>
    var sent: seq<Transaction>

    constructor ()
      ensures View() == EMPTY
    {
      proposals, approvals, sent := map[], map[], [];
    }

    function View(): Tables
      reads this
    {
      Tables(proposals, approvals, sent)
    }

    method ProposeTrx(w: World, key: Key, requested: seq<Level>, trx: Transaction) returns (ok: bool)
      modifies this
      ensures ok <==> Propose(old(View()), w, key, requested, trx).Some?
      ensures View() == if ok then Propose(old(View()), w, key, requested, trx).value else old(View())
    {
      if trx.expiration < w.now || key in proposals {
        return false;
      }
      ok := CheckAuthorization(w, trx, requested);
      if ok {
        proposals := proposals[key := trx];
        approvals := approvals[key := Approvals(requested, [])];
      }
    }

    method ApproveTrx(key: Key, level: Level) returns (ok: bool)
      modifies this
      ensures ok <==> Approve(old(View()), key, level).Some?
      ensures View() == if ok then Approve(old(View()), key, level).value else old(View())
    {
      if key !in approvals {
        return false;
      }
      var a := approvals[key];
      var i := Find(a.requested, level);
      if i == |a.requested| {
        return false;
      }
      WithoutAt(a.requested, level, i);
      approvals := approvals[key := Approvals(a.requested[..i] + a.requested[i + 1..], a.provided + [level])];
      ok := true;
    }

    method UnapproveTrx(key: Key, level: Level) returns (ok: bool)
      modifies this
      ensures ok <==> Unapprove(old(View()), key, level).Some?
      ensures View() == if ok then Unapprove(old(View()), key, level).value else old(View())
    {
      if key !in approvals {
        return false;
      }
      var a := approvals[key];
      var i := Find(a.provided, level);
      if i == |a.provided| {
        return false;
      }
      WithoutAt(a.provided, level, i);
      approvals := approvals[key := Approvals(a.requested + [level], a.provided[..i] + a.provided[i + 1..])];
      ok := true;
    }

    method CancelTrx(w: World, key: Key, canceler: nat) returns (ok: bool)
      modifies this
      ensures ok <==> Cancel(old(View()), w, key, canceler).Some?
      ensures View() == if ok then Cancel(old(View()), w, key, canceler).value else old(View())
    {
      if key !in proposals {
        return false;
      }
      if canceler != key.proposer && proposals[key].expiration >= w.now {
        return false;
      }
      if key !in approvals {
        return false;
      }
      proposals, approvals := proposals - {key}, approvals - {key};
      ok := true;
    }

    method ExecTrx(w: World, key: Key) returns (ok: bool)
      modifies this
      ensures ok <==> Exec(old(View()), w, key).Some?
      ensures View() == if ok then Exec(old(View()), w, key).value else old(View())
    {
      if key !in proposals || key !in approvals || proposals[key].expiration < w.now {
        return false;
      }
      ok := CheckAuthorization(w, proposals[key], approvals[key].provided);
      if ok {
        sent := sent + [proposals[key]];
        proposals, approvals := proposals - {key}, approvals - {key};
      }
    }
  }
}
