/** The checker as the object the source has: the provided keys with a parallel vector of used
    marks that queries update in place and restore on rejection. */
module AuthorityChecker {
  import opened Authorities
  import opened AuthorityCheck

  class Checker {
    const auths: map<Level, Authority>
    const limit: nat
    const providedKeys: seq<nat>
    const granted: set<Level>
    const delay: nat
    var usedKeys: seq<bool>

    ghost predicate Valid()
      reads this
    {
      && |usedKeys| == |providedKeys|
      && (forall i, j :: 0 <= i < j < |providedKeys| ==> providedKeys[i] != providedKeys[j])
    }

    ghost function Environment(): Env {
      Env(set i | 0 <= i < |providedKeys| :: providedKeys[i], granted, delay, auths, limit)
    }

    ghost function Used(): set<nat>
      requires Valid()
      reads this
    {
      set i | 0 <= i < |providedKeys| && usedKeys[i] :: providedKeys[i]
    }

    constructor (auths: map<Level, Authority>, limit: nat, keys: seq<nat>, granted: set<Level>, delay: nat)
      requires forall i, j :: 0 <= i < j < |keys| ==> keys[i] != keys[j]
      ensures Valid() && Used() == {}
      ensures Environment() == Env(set i | 0 <= i < |keys| :: keys[i], granted, delay, auths, limit)
    {
      this.auths, this.limit, this.providedKeys, this.granted, this.delay := auths, limit, keys, granted, delay;
      usedKeys := seq(|keys|, _ => false);
    }

    /** A query against a fresh cache. What it decides, which keys it leaves marked and that a
        rejection leaves none are the statements about Query. */
    method Satisfied(auth: Authority) returns (ok: bool)
      requires Valid()
      modifies this
      ensures Valid()
      ensures ok == Query(Environment(), auth, old(Used())).ok
      ensures Used() == Query(Environment(), auth, old(Used())).st.used
    {
      var cache := map l | l in granted :: Status.Satisfied;
      ok, cache := SatisfiedAt(auth, cache, 0);
    }

    method SatisfiedAt(auth: Authority, cache: Cache, depth: nat) returns (ok: bool, cache': Cache)
      requires Valid() && depth <= limit
      modifies this
      ensures Valid()
      ensures Outcome(ok, State(cache', Used())) == Check(Environment(), auth, State(cache, old(Used())), depth)
      decreases limit - depth, 1
    {
      var saved := usedKeys;
      var permissions := Ordered(auth);
      cache' := cache;
      var total: nat, i := 0, 0;
      ghost var st := State(cache, Used());
      while i < |permissions|
        invariant 0 <= i <= |permissions| && Valid()
        invariant Tally(Environment(), permissions, auth.threshold, 0, st, depth)
               == Tally(Environment(), permissions[i..], auth.threshold, total, State(cache', Used()), depth)
      {
        assert permissions[i..][0] == permissions[i] && permissions[i..][1..] == permissions[i + 1..];
        total, cache' := VisitFactor(permissions[i], total, cache', depth);
        if total >= auth.threshold {
          return true, cache';
        }
        i := i + 1;
      }
      usedKeys := saved;
      ok := false;
    }

    method VisitFactor(f: Factor, total: nat, cache: Cache, depth: nat) returns (total': nat, cache': Cache)
      requires Valid() && depth <= limit
      modifies this
      ensures Valid()
      ensures Visited(total', State(cache', Used())) == Visit(Environment(), f, total, State(cache, old(Used())), depth)
      decreases limit - depth, 0
    {
      total', cache' := total, cache;
      match f {
        case WaitFactor(waitSec, w) =>
          if delay >= waitSec * MICROSECONDS {
            total' := AddWeight(total, w);
          }
        case KeyFactor(key, w) =>
          var i := FindKey(key);
          if i < |providedKeys| {
            Mark(i);
            total' := AddWeight(total, w);
          }
        case AccountFactor(l, w) =>
          var status := StatusOf(cache, l);
          if status.None? {
            if depth < limit && l in auths {
              cache' := cache[l := BeingEvaluated];
              var r;
              r, cache' := SatisfiedAt(auths[l], cache', depth + 1);
              if r {
                total' := AddWeight(total, w);
                cache' := cache'[l := Status.Satisfied];
              } else {
                cache' := cache'[l := Unsatisfied];
              }
            }
          } else if status.value == Status.Satisfied {
            total' := AddWeight(total, w);
          }
      }
    }

    method FindKey(key: nat) returns (i: nat)
      ensures i <= |providedKeys|
      ensures i < |providedKeys| ==> providedKeys[i] == key && key in Environment().keys
      ensures i == |providedKeys| ==> key !in Environment().keys
    {
      i := 0;
      while i < |providedKeys| && providedKeys[i] != key
        invariant i <= |providedKeys|
        invariant forall j :: 0 <= j < i ==> providedKeys[j] != key
      {
        i := i + 1;
      }
    }

    method Mark(i: nat)
      requires Valid() && i < |providedKeys|
      modifies this
      ensures Valid() && Used() == old(Used()) + {providedKeys[i]}
    {
      ghost var before := Used();
      usedKeys := usedKeys[i := true];
      forall k ensures k in Used() <==> k in before + {providedKeys[i]} {
        if k in before {
          var j :| 0 <= j < |providedKeys| && old(usedKeys)[j] && providedKeys[j] == k;
          assert usedKeys[j];
        }
        assert usedKeys[i];
      }
    }

    // used_keys and unused_keys: the provided keys split by their marks.
    method SplitKeys() returns (used: set<nat>, unused: set<nat>)
      requires Valid()
      ensures used == Used() && unused == Environment().keys - Used()
    {
      used, unused := {}, {};
      for i := 0 to |providedKeys|
        invariant used == set j | 0 <= j < i && usedKeys[j] :: providedKeys[j]
        invariant unused == set j | 0 <= j < i && !usedKeys[j] :: providedKeys[j]
      {
        if usedKeys[i] {
          used := used + {providedKeys[i]};
        } else {
          unused := unused + {providedKeys[i]};
        }
      }
    }

    method AllKeysUsed() returns (all: bool)
      requires Valid()
      ensures all <==> Used() == Environment().keys
    {
      all := true;
      for i := 0 to |usedKeys|
        invariant all <==> forall j :: 0 <= j < i ==> usedKeys[j]
      {
        all := all && usedKeys[i];
      }
      if !all {
        var j :| 0 <= j < |usedKeys| && !usedKeys[j];
        assert providedKeys[j] in Environment().keys && providedKeys[j] !in Used();
      }
    }
  }
}
