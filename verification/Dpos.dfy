/** The last irreversible block by delegated proof of stake (block_header_state.cpp): the largest number
    that more than two thirds of the producers imply to be irreversible. */
module Dpos {
  import opened Quorums

  // ---------- order statistics ----------

  function CountFrom(s: seq<nat>, x: nat): nat {
    if s == [] then 0 else (if s[0] >= x then 1 else 0) + CountFrom(s[1..], x)
  }

  function Insert(v: nat, s: seq<nat>): seq<nat> {
    if s == [] || v <= s[0] then [v] + s else [s[0]] + Insert(v, s[1..])
  }

  // std::sort
  function Sort(s: seq<nat>): seq<nat> {
    if s == [] then [] else Insert(s[0], Sort(s[1..]))
  }

  ghost predicate InAscendingOrder(s: seq<nat>) {
    forall i, j :: 0 <= i < j < |s| ==> s[i] <= s[j]
  }

  lemma {:induction false} InsertKeeps(v: nat, s: seq<nat>)
    requires InAscendingOrder(s)
    ensures InAscendingOrder(Insert(v, s)) && |Insert(v, s)| == |s| + 1
    ensures forall x :: CountFrom(Insert(v, s), x) == CountFrom(s, x) + (if v >= x then 1 else 0)
    ensures forall w :: w in Insert(v, s) ==> w == v || w in s
    decreases |s|
  {
    if s != [] && v > s[0] {
      InsertKeeps(v, s[1..]);
      var r := Insert(v, s);
      assert r[1..] == Insert(v, s[1..]);
      forall i, j | 0 <= i < j < |r| ensures r[i] <= r[j] {
        assert r[j] == r[1..][j - 1] && r[j] in r[1..];
        assert i > 0 ==> r[i] == r[1..][i - 1];
      }
    } else {
      assert Insert(v, s)[1..] == s;
    }
  }

  lemma {:induction false} SortKeeps(s: seq<nat>)
    ensures InAscendingOrder(Sort(s)) && |Sort(s)| == |s| && forall x :: CountFrom(Sort(s), x) == CountFrom(s, x)
    decreases |s|
  {
    if s != [] {
      SortKeeps(s[1..]);
      InsertKeeps(s[0], Sort(s[1..]));
    }
  }

  // In ascending order, the elements from x on are the last ones.
  lemma {:induction false} CountAscending(s: seq<nat>, k: nat, x: nat)
    requires InAscendingOrder(s) && k < |s|
    ensures s[k] >= x <==> CountFrom(s, x) >= |s| - k
    decreases |s|
  {
    CountBound(s[1..], x);
    if k > 0 {
      CountAscending(s[1..], k - 1, x);
    }
    if s[0] >= x {
      CountAll(s[1..], x);
    }
  }

  lemma {:induction false} CountBound(s: seq<nat>, x: nat)
    ensures CountFrom(s, x) <= |s|
    decreases |s|
  {
    if s != [] {
      CountBound(s[1..], x);
    }
  }

  lemma {:induction false} CountAll(s: seq<nat>, x: nat)
    requires forall i :: 0 <= i < |s| ==> s[i] >= x
    ensures CountFrom(s, x) == |s|
    decreases |s|
  {
    if s != [] {
      CountAll(s[1..], x);
    }
  }

  // ---------- the last irreversible block ----------

  // The producers that imply a number of at least x.
  function Reaching(implied: map<nat, nat>, x: nat): set<nat> {
    set p | p in implied && implied[p] >= x
  }

  ghost predicate IsIrreversible(implied: map<nat, nat>, l: nat) {
    if |implied| == 0 then l == 0
    else forall x: nat :: l >= x <==> |Reaching(implied, x)| >= Quorum(|implied|)
  }

  lemma {:induction false} IrreversibleUnique(implied: map<nat, nat>, a: nat, b: nat)
    requires IsIrreversible(implied, a) && IsIrreversible(implied, b)
    ensures a == b
  {
    if |implied| != 0 {
      assert a >= a && b >= b;
      assert |Reaching(implied, a)| >= Quorum(|implied|);
      assert |Reaching(implied, b)| >= Quorum(|implied|);
    }
  }

  lemma {:induction false} ThirdInto(n: nat)
    requires n > 0
    ensures n - (n - 1) / 3 == Quorum(n) && (n - 1) / 3 < n
  {
  }

  function ReachingIn(m: map<nat, nat>, done: set<nat>, x: nat): set<nat> {
    set q | q in done && q in m && m[q] >= x
  }

  lemma {:induction false} OneMore(m: map<nat, nat>, done: set<nat>, p: nat, nums: seq<nat>, x: nat)
    requires p in m && p !in done && CountFrom(nums, x) == |ReachingIn(m, done, x)|
    ensures CountFrom([m[p]] + nums, x) == |ReachingIn(m, done + {p}, x)|
  {
    assert ([m[p]] + nums)[1..] == nums;
    if m[p] >= x {
      assert ReachingIn(m, done + {p}, x) == ReachingIn(m, done, x) + {p};
    } else {
      assert ReachingIn(m, done + {p}, x) == ReachingIn(m, done, x);
    }
  }

  // calc_dpos_last_irreversible
  method CalcLastIrreversible(implied: map<nat, nat>) returns (l: nat)
    ensures IsIrreversible(implied, l)
  {
    var nums: seq<nat> := [];
    var todo := implied.Keys;
    while todo != {}
      invariant todo <= implied.Keys && |nums| + |todo| == |implied|
      invariant forall x: nat :: CountFrom(nums, x) == |ReachingIn(implied, implied.Keys - todo, x)|
    {
      var p :| p in todo;
      ghost var done := implied.Keys - todo;
      forall x: nat
        ensures CountFrom([implied[p]] + nums, x) == |ReachingIn(implied, done + {p}, x)|
      {
        OneMore(implied, done, p, nums, x);
      }
      nums := [implied[p]] + nums;
      todo := todo - {p};
      assert implied.Keys - todo == done + {p};
    }
    if |nums| == 0 {
      return 0;
    }
    SortKeeps(nums);
    ThirdInto(|nums|);
    l := Sort(nums)[(|nums| - 1) / 3];
    forall x: nat ensures l >= x <==> |Reaching(implied, x)| >= Quorum(|implied|) {
      CountAscending(Sort(nums), (|nums| - 1) / 3, x);
      assert Reaching(implied, x) == ReachingIn(implied, implied.Keys - todo, x);
    }
  }
}
