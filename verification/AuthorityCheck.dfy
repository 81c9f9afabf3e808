/** The evaluation performed by authority_checker: factors are visited heaviest first, nested
    permissions are evaluated down to a depth limit, every verdict on a nested permission is
    remembered in a cache, and a rejected authority gives its newly used keys back. */
module AuthorityCheck {
  import opened Options
  import opened Authorities
  import opened Sequences

  datatype Status = BeingEvaluated | Unsatisfied | Satisfied

  type Cache = map<Level, Status>

  // What a checker is built from. `auths` is the permission graph; it may be cyclic.
  datatype Env = Env(
    keys: set<nat>,
    granted: set<Level>,
    delay: nat,
    auths: map<Level, Authority>,
    limit: nat)

  datatype State = State(cache: Cache, used: set<nat>)
  datatype Outcome = Outcome(ok: bool, st: State)
  datatype Visited = Visited(total: nat, st: State)

  const MICROSECONDS := 1000000

  // An entry for the level itself, or else for all permissions of its actor.
  function StatusOf(cache: Cache, l: Level): Option<Status> {
    if l in cache then Some(cache[l])
    else if Level(l.actor, 0) in cache then Some(cache[Level(l.actor, 0)])
    else None
  }

  function Check(env: Env, auth: Authority, st: State, depth: nat): Outcome
    requires depth <= env.limit
    decreases env.limit - depth, 1, 0
  {
    var r := Tally(env, Ordered(auth), auth.threshold, 0, st, depth);
    if r.ok then r else Outcome(false, r.st.(used := st.used))
  }

  function Tally(env: Env, fs: seq<Factor>, threshold: nat, total: nat, st: State, depth: nat): Outcome
    requires depth <= env.limit
    decreases env.limit - depth, 0, |fs|
  {
    if fs == [] then Outcome(false, st)
    else
      var v := Visit(env, fs[0], total, st, depth);
      if v.total >= threshold then Outcome(true, v.st)
      else Tally(env, fs[1..], threshold, v.total, v.st, depth)
  }

  function Visit(env: Env, f: Factor, total: nat, st: State, depth: nat): Visited
    requires depth <= env.limit
    decreases env.limit - depth, 0, 0
  {
    match f
    case WaitFactor(waitSec, w) =>
      if env.delay >= waitSec * MICROSECONDS then Visited(AddWeight(total, w), st) else Visited(total, st)
    case KeyFactor(key, w) =>
      if key in env.keys then Visited(AddWeight(total, w), st.(used := st.used + {key})) else Visited(total, st)
    case AccountFactor(l, w) =>
      match StatusOf(st.cache, l)
      case Some(status) =>
        if status == Satisfied then Visited(AddWeight(total, w), st) else Visited(total, st)
      case None =>
        if depth < env.limit && l in env.auths then
          var r := Check(env, env.auths[l], st.(cache := st.cache[l := BeingEvaluated]), depth + 1);
          if r.ok then Visited(AddWeight(total, w), r.st.(cache := r.st.cache[l := Satisfied]))
          else Visited(total, r.st.(cache := r.st.cache[l := Unsatisfied]))
        else Visited(total, st)
  }

  function InitialCache(env: Env): Cache {
    map l | l in env.granted :: Satisfied
  }

  // A fresh query: the cache holds the granted levels, the used keys are kept across queries.
  function Query(env: Env, auth: Authority, used: set<nat>): Outcome {
    Check(env, auth, State(InitialCache(env), used), 0)
  }

  // ---------- the declarative reading ----------

  predicate Granted(env: Env, l: Level) {
    l in env.granted || Level(l.actor, 0) in env.granted
  }

  // The factor is provided, going through at most k nested permissions.
  ghost predicate Holds(env: Env, f: Factor, k: nat)
    decreases k, 0, 0
  {
    match f
    case WaitFactor(waitSec, _) => env.delay >= waitSec * MICROSECONDS
    case KeyFactor(key, _) => key in env.keys
    case AccountFactor(l, _) => Granted(env, l) || (k > 0 && l in env.auths && Sat(env, env.auths[l], k - 1))
  }

  // The weight of the provided factors: an unordered sum.
  ghost function Gained(env: Env, fs: seq<Factor>, k: nat): nat
    decreases k, 1, |fs|
  {
    if fs == [] then 0 else (if Holds(env, fs[0], k) then fs[0].weight else 0) + Gained(env, fs[1..], k)
  }

  ghost predicate Sat(env: Env, auth: Authority, k: nat)
    decreases k, 2, 0
  {
    FactorsOf(auth) != [] && Gained(env, FactorsOf(auth), k) >= auth.threshold
  }

  // ---------- sums do not depend on order ----------

  lemma {:induction false} GainedConcat(env: Env, a: seq<Factor>, b: seq<Factor>, k: nat)
    ensures Gained(env, a + b, k) == Gained(env, a, k) + Gained(env, b, k)
    decreases |a|
  {
    if a == [] {
      assert a + b == b;
    } else {
      GainedConcat(env, a[1..], b, k);
      assert (a + b)[1..] == a[1..] + b;
    }
  }

  lemma {:induction false} GainedWithoutOne(env: Env, b: seq<Factor>, i: nat, k: nat)
    requires i < |b|
    ensures Gained(env, b, k) == Gained(env, [b[i]], k) + Gained(env, b[..i] + b[i + 1..], k)
  {
    assert b == b[..i] + ([b[i]] + b[i + 1..]);
    GainedConcat(env, b[..i], [b[i]] + b[i + 1..], k);
    GainedConcat(env, [b[i]], b[i + 1..], k);
    GainedConcat(env, b[..i], b[i + 1..], k);
  }

  lemma {:induction false} GainedPermuted(env: Env, a: seq<Factor>, b: seq<Factor>, k: nat)
    requires multiset(a) == multiset(b)
    ensures Gained(env, a, k) == Gained(env, b, k)
    decreases |a|
  {
    if a == [] {
      assert |b| == |multiset(b)| == 0;
    } else {
      var i := HeadElsewhere(a, b);
      GainedPermuted(env, a[1..], b[..i] + b[i + 1..], k);
      GainedWithoutOne(env, b, i, k);
    }
  }

  lemma GainedOrdered(env: Env, auth: Authority, k: nat)
    ensures Gained(env, Ordered(auth), k) == Gained(env, FactorsOf(auth), k)
    ensures Ordered(auth) == [] <==> FactorsOf(auth) == []
    ensures forall f :: f in Ordered(auth) <==> f in FactorsOf(auth)
  {
    OrderedSorts(auth);
    GainedPermuted(env, Ordered(auth), FactorsOf(auth), k);
    assert forall f :: f in Ordered(auth) <==> f in multiset(Ordered(auth));
    assert |Ordered(auth)| == |multiset(Ordered(auth))| == |FactorsOf(auth)|;
  }

  // ---------- more nesting, more keys: never less ----------

  // env2 provides at least what env1 does, over the same graph.
  predicate Extends(env1: Env, env2: Env) {
    env1.keys <= env2.keys && env1.granted <= env2.granted && env1.delay <= env2.delay && env1.auths == env2.auths
  }

  lemma {:induction false} HoldsGrows(env1: Env, env2: Env, f: Factor, k: nat, k': nat)
    requires Extends(env1, env2) && k <= k' && Holds(env1, f, k)
    ensures Holds(env2, f, k')
    decreases k, 0, 0
  {
    if f.AccountFactor? && !Granted(env1, f.level) {
      SatGrows(env1, env2, env1.auths[f.level], k - 1, k' - 1);
    }
  }

  lemma {:induction false} GainedGrows(env1: Env, env2: Env, fs: seq<Factor>, k: nat, k': nat)
    requires Extends(env1, env2) && k <= k'
    ensures Gained(env1, fs, k) <= Gained(env2, fs, k')
    decreases k, 1, |fs|
  {
    if fs != [] {
      if Holds(env1, fs[0], k) {
        HoldsGrows(env1, env2, fs[0], k, k');
      }
      GainedGrows(env1, env2, fs[1..], k, k');
    }
  }

  lemma {:induction false} SatGrows(env1: Env, env2: Env, auth: Authority, k: nat, k': nat)
    requires Extends(env1, env2) && k <= k' && Sat(env1, auth, k)
    ensures Sat(env2, auth, k')
    decreases k, 2, 0
  {
    GainedGrows(env1, env2, FactorsOf(auth), k, k');
  }

  // ---------- soundness, for every graph ----------

  // Every verdict of acceptance in the cache is justified within k levels.
  ghost predicate CacheSound(env: Env, cache: Cache, k: nat) {
    forall l :: l in cache && cache[l] == Satisfied ==>
      Granted(env, l) || (l in env.auths && l.permission != 0 && Sat(env, env.auths[l], k))
  }

  // Permission names are never empty, so no entry of the graph stands for a whole actor.
  predicate Named(env: Env) {
    forall l :: l in env.auths ==> l.permission != 0
  }

  lemma CacheSoundGrows(env: Env, cache: Cache, k: nat, k': nat)
    requires CacheSound(env, cache, k) && k <= k'
    ensures CacheSound(env, cache, k')
  {
    forall l | l in cache && cache[l] == Satisfied && !Granted(env, l)
      ensures Sat(env, env.auths[l], k')
    {
      SatGrows(env, env, env.auths[l], k, k');
    }
  }

  lemma {:induction false} SoundVisit(env: Env, f: Factor, total: nat, st: State, depth: nat, k: nat) returns (k': nat)
    requires depth <= env.limit && Named(env) && CacheSound(env, st.cache, k)
    ensures k <= k' && CacheSound(env, Visit(env, f, total, st, depth).st.cache, k')
    ensures Visit(env, f, total, st, depth).total <= total + if Holds(env, f, k') then f.weight else 0
    decreases env.limit - depth, 0, 0
  {
    k' := k;
    if f.AccountFactor? {
      var l := f.level;
      match StatusOf(st.cache, l)
      case Some(status) =>
        k' := k + 1;
        CacheSoundGrows(env, st.cache, k, k');
      case None =>
        if depth < env.limit && l in env.auths {
          var st1 := st.(cache := st.cache[l := BeingEvaluated]);
          var k1 := SoundCheck(env, env.auths[l], st1, depth + 1, k);
          var r := Check(env, env.auths[l], st1, depth + 1);
          k' := k1 + 1;
          CacheSoundGrows(env, r.st.cache, k1, k');
          if r.ok {
            SatGrows(env, env, env.auths[l], k1, k');
          }
        }
    }
  }

  lemma {:induction false} SoundTally(env: Env, fs: seq<Factor>, threshold: nat, total: nat, st: State, depth: nat, k: nat)
    returns (k': nat)
    requires depth <= env.limit && Named(env) && CacheSound(env, st.cache, k)
    ensures k <= k' && CacheSound(env, Tally(env, fs, threshold, total, st, depth).st.cache, k')
    ensures Tally(env, fs, threshold, total, st, depth).ok ==> fs != [] && total + Gained(env, fs, k') >= threshold
    decreases env.limit - depth, 0, |fs|
  {
    k' := k;
    if fs != [] {
      var k1 := SoundVisit(env, fs[0], total, st, depth, k);
      var v := Visit(env, fs[0], total, st, depth);
      k' := k1;
      if v.total < threshold {
        k' := SoundTally(env, fs[1..], threshold, v.total, v.st, depth, k1);
      }
      if Holds(env, fs[0], k1) {
        HoldsGrows(env, env, fs[0], k1, k');
      }
    }
  }

  lemma {:induction false} SoundCheck(env: Env, auth: Authority, st: State, depth: nat, k: nat) returns (k': nat)
    requires depth <= env.limit && Named(env) && CacheSound(env, st.cache, k)
    ensures k <= k' && CacheSound(env, Check(env, auth, st, depth).st.cache, k')
    ensures Check(env, auth, st, depth).ok ==> Sat(env, auth, k')
    decreases env.limit - depth, 1, 0
  {
    k' := SoundTally(env, Ordered(auth), auth.threshold, 0, st, depth, k);
    GainedOrdered(env, auth, k');
  }

  /** Whatever the graph, cycles included, and whatever the depth limit: an accepted authority
      really is satisfied by the provided keys, levels and delay. */
  lemma QuerySound(env: Env, auth: Authority, used: set<nat>)
    requires Named(env)
    ensures Query(env, auth, used).ok ==> exists k :: Sat(env, auth, k)
  {
    var k := SoundCheck(env, auth, State(InitialCache(env), used), 0, 0);
  }
}
