/** Authorities: a threshold over weighted keys, delegated permission levels and waits, the
    order in which the checker visits those factors, and the validation every stored
    authority has passed (authority.hpp, authority_checker.hpp). */
module Authorities {

  // Account and permission names are 64-bit values; the empty name is 0.
  datatype Level = Level(actor: nat, permission: nat)

  type Weight = w: nat | w < 0x1_0000

  datatype KeyWeight = KeyWeight(key: nat, weight: Weight)
  datatype LevelWeight = LevelWeight(level: Level, weight: Weight)
  datatype WaitWeight = WaitWeight(waitSec: nat, weight: Weight)

  datatype Authority = Authority(
    threshold: nat,
    keys: seq<KeyWeight>,
    accounts: seq<LevelWeight>,
    waits: seq<WaitWeight>)

  // One entry of an authority, whatever its kind (meta_permission).
  datatype Factor =
    | AccountFactor(level: Level, weight: Weight)
    | KeyFactor(key: nat, weight: Weight)
    | WaitFactor(waitSec: nat, weight: Weight)

  function Which(f: Factor): nat {
    match f
    case AccountFactor(_, _) => 0
    case KeyFactor(_, _) => 1
    case WaitFactor(_, _) => 2
  }

  // Heavier first; on equal weight waits, then keys, then accounts.
  predicate Before(a: Factor, b: Factor) {
    a.weight > b.weight || (a.weight == b.weight && Which(a) > Which(b))
  }

  function WaitFactors(waits: seq<WaitWeight>): seq<Factor> {
    seq(|waits|, i requires 0 <= i < |waits| => WaitFactor(waits[i].waitSec, waits[i].weight))
  }

  function KeyFactors(keys: seq<KeyWeight>): seq<Factor> {
    seq(|keys|, i requires 0 <= i < |keys| => KeyFactor(keys[i].key, keys[i].weight))
  }

  function AccountFactors(accounts: seq<LevelWeight>): seq<Factor> {
    seq(|accounts|, i requires 0 <= i < |accounts| => AccountFactor(accounts[i].level, accounts[i].weight))
  }

  // The factors in the order in which the checker inserts them.
  function FactorsOf(auth: Authority): seq<Factor> {
    WaitFactors(auth.waits) + KeyFactors(auth.keys) + AccountFactors(auth.accounts)
  }

  // Insertion into the ordered multiset: after every factor that does not come strictly later.
  function Place(f: Factor, s: seq<Factor>): seq<Factor> {
    if s == [] then [f]
    else if Before(f, s[0]) then [f] + s
    else [s[0]] + Place(f, s[1..])
  }

  function PlaceAll(fs: seq<Factor>): seq<Factor> {
    if fs == [] then [] else Place(fs[|fs| - 1], PlaceAll(fs[..|fs| - 1]))
  }

  function Ordered(auth: Authority): seq<Factor> {
    PlaceAll(FactorsOf(auth))
  }

  ghost predicate Descending(s: seq<Factor>) {
    forall i, j :: 0 <= i < j < |s| ==> !Before(s[j], s[i])
  }

  lemma LongerKeeps(f: Factor, rest: seq<Factor>)
    requires Descending(rest) && forall j :: 0 <= j < |rest| ==> !Before(rest[j], f)
    ensures Descending([f] + rest)
  {
  }

  lemma {:induction false} PlaceKeeps(f: Factor, s: seq<Factor>)
    requires Descending(s)
    ensures Descending(Place(f, s))
    ensures multiset(Place(f, s)) == multiset(s) + multiset{f}
  {
    if s == [] {
    } else if Before(f, s[0]) {
      assert multiset([f] + s) == multiset([f]) + multiset(s);
    } else {
      PlaceKeeps(f, s[1..]);
      assert s == [s[0]] + s[1..];
      var rest := Place(f, s[1..]);
      forall j | 0 <= j < |rest| ensures !Before(rest[j], s[0]) {
        assert rest[j] in multiset(rest);
        assert rest[j] == f || rest[j] in s[1..];
      }
      LongerKeeps(s[0], rest);
    }
  }

  // The visiting order is a permutation of the factors, heaviest first.
  lemma {:induction false} PlaceAllSorts(fs: seq<Factor>)
    ensures Descending(PlaceAll(fs))
    ensures multiset(PlaceAll(fs)) == multiset(fs)
  {
    if fs != [] {
      PlaceAllSorts(fs[..|fs| - 1]);
      PlaceKeeps(fs[|fs| - 1], PlaceAll(fs[..|fs| - 1]));
      assert fs == fs[..|fs| - 1] + [fs[|fs| - 1]];
    }
  }

  lemma OrderedSorts(auth: Authority)
    ensures Descending(Ordered(auth))
    ensures multiset(Ordered(auth)) == multiset(FactorsOf(auth))
  {
    PlaceAllSorts(FactorsOf(auth));
  }

  // ---------- totals ----------

  function TotalWeight(fs: seq<Factor>): nat {
    if fs == [] then 0 else fs[0].weight + TotalWeight(fs[1..])
  }

  predicate Counted(auth: Authority) {
    |auth.keys| + |auth.accounts| + |auth.waits| <= 0x1_0000
  }

  lemma {:induction false} TotalBound(fs: seq<Factor>)
    ensures TotalWeight(fs) <= 0xFFFF * |fs|
  {
    if fs != [] {
      TotalBound(fs[1..]);
    }
  }

  lemma {:induction false} TotalConcat(a: seq<Factor>, b: seq<Factor>)
    ensures TotalWeight(a + b) == TotalWeight(a) + TotalWeight(b)
  {
    if a == [] {
      assert a + b == b;
    } else {
      TotalConcat(a[1..], b);
      assert (a + b)[1..] == a[1..] + b;
    }
  }

  lemma TotalOf(auth: Authority)
    ensures TotalWeight(FactorsOf(auth)) == TotalWeight(KeyFactors(auth.keys))
                                            + TotalWeight(AccountFactors(auth.accounts))
                                            + TotalWeight(WaitFactors(auth.waits))
  {
    TotalConcat(WaitFactors(auth.waits) + KeyFactors(auth.keys), AccountFactors(auth.accounts));
    TotalConcat(WaitFactors(auth.waits), KeyFactors(auth.keys));
  }

  // ---------- validation ----------

  predicate LevelLess(a: Level, b: Level) {
    a.actor < b.actor || (a.actor == b.actor && a.permission < b.permission)
  }

  /** What a stored authority guarantees: no more factors than the weights can count without
      overflow, a positive reachable threshold, and keys, levels and waits each strictly
      ascending, hence free of duplicates. */
  ghost predicate WellFormed(auth: Authority) {
    && Counted(auth)
    && 0 < auth.threshold <= TotalWeight(FactorsOf(auth))
    && (forall i, j :: 0 <= i < j < |auth.keys| ==> auth.keys[i].key < auth.keys[j].key)
    && (forall i, j :: 0 <= i < j < |auth.accounts| ==> LevelLess(auth.accounts[i].level, auth.accounts[j].level))
    && (forall i, j :: 0 <= i < j < |auth.waits| ==> auth.waits[i].waitSec < auth.waits[j].waitSec)
    && (forall i :: 0 <= i < |auth.waits| ==> 0 < auth.waits[i].waitSec)
  }

  // Weights are added in an unsigned 32-bit accumulator.
  function AddWeight(total: nat, w: Weight): nat {
    (total + w) % 0x1_0000_0000
  }

  method SumKeys(keys: seq<KeyWeight>, total: nat) returns (ok: bool, sum: nat)
    requires total + 0xFFFF * |keys| < 0x1_0000_0000
    ensures ok <==> forall i, j :: 0 <= i < j < |keys| ==> keys[i].key < keys[j].key
    ensures ok ==> sum == total + TotalWeight(KeyFactors(keys))
  {
    sum := total;
    for i := 0 to |keys|
      invariant forall a, b :: 0 <= a < b < i ==> keys[a].key < keys[b].key
      invariant sum == total + TotalWeight(KeyFactors(keys[..i]))
    {
      if i > 0 && !(keys[i - 1].key < keys[i].key) {
        return false, sum;
      }
      NextTotal(KeyFactors(keys), KeyFactors(keys[..i]), KeyFactors(keys[..i + 1]), i);
      sum := AddWeight(sum, keys[i].weight);
    }
    assert keys[..|keys|] == keys;
    ok := true;
  }

  method SumAccounts(accounts: seq<LevelWeight>, total: nat) returns (ok: bool, sum: nat)
    requires total + 0xFFFF * |accounts| < 0x1_0000_0000
    ensures ok <==> forall i, j :: 0 <= i < j < |accounts| ==> LevelLess(accounts[i].level, accounts[j].level)
    ensures ok ==> sum == total + TotalWeight(AccountFactors(accounts))
  {
    sum := total;
    for i := 0 to |accounts|
      invariant forall a, b :: 0 <= a < b < i ==> LevelLess(accounts[a].level, accounts[b].level)
      invariant sum == total + TotalWeight(AccountFactors(accounts[..i]))
    {
      if i > 0 && !LevelLess(accounts[i - 1].level, accounts[i].level) {
        return false, sum;
      }
      NextTotal(AccountFactors(accounts), AccountFactors(accounts[..i]), AccountFactors(accounts[..i + 1]), i);
      sum := AddWeight(sum, accounts[i].weight);
    }
    assert accounts[..|accounts|] == accounts;
    ok := true;
  }

  method SumWaits(waits: seq<WaitWeight>, total: nat) returns (ok: bool, sum: nat)
    requires total + 0xFFFF * |waits| < 0x1_0000_0000
    ensures ok <==> && (forall i, j :: 0 <= i < j < |waits| ==> waits[i].waitSec < waits[j].waitSec)
                    && (forall i :: 0 <= i < |waits| ==> 0 < waits[i].waitSec)
    ensures ok ==> sum == total + TotalWeight(WaitFactors(waits))
  {
    sum := total;
    if |waits| > 0 && waits[0].waitSec == 0 {
      return false, sum;
    }
    for i := 0 to |waits|
      invariant forall a, b :: 0 <= a < b < i ==> waits[a].waitSec < waits[b].waitSec
      invariant sum == total + TotalWeight(WaitFactors(waits[..i]))
    {
      if i > 0 && waits[i - 1].waitSec >= waits[i].waitSec {
        return false, sum;
      }
      NextTotal(WaitFactors(waits), WaitFactors(waits[..i]), WaitFactors(waits[..i + 1]), i);
      sum := AddWeight(sum, waits[i].weight);
    }
    assert waits[..|waits|] == waits;
    ok := true;
  }

  lemma NextTotal(all: seq<Factor>, done: seq<Factor>, next: seq<Factor>, i: nat)
    requires i < |all| && done == all[..i] && next == all[..i + 1]
    ensures TotalWeight(next) == TotalWeight(done) + all[i].weight <= 0xFFFF * |all|
  {
    assert next == done + [all[i]];
    TotalConcat(done, [all[i]]);
    TotalBound(next);
  }

  /** The wrapping 32-bit sum of the source decides exactly the unbounded condition. */
  method Validate(auth: Authority) returns (ok: bool)
    ensures ok <==> WellFormed(auth)
  {
    TotalOf(auth);
    if |auth.keys| + |auth.accounts| + |auth.waits| > 0x1_0000 {
      return false;
    }
    if auth.threshold == 0 {
      return false;
    }
    TotalBound(KeyFactors(auth.keys));
    TotalBound(AccountFactors(auth.accounts));
    var total;
    ok, total := SumKeys(auth.keys, 0);
    if !ok {
      return;
    }
    ok, total := SumAccounts(auth.accounts, total);
    if !ok {
      return;
    }
    ok, total := SumWaits(auth.waits, total);
    if !ok {
      return;
    }
    ok := total >= auth.threshold;
  }
}
