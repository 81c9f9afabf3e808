/** Cycles by themselves do no harm: looking upon a permission under evaluation as unsatisfied is
    right, because what satisfies it needs no detour through itself. Only a rejection that was made
    there, taken from the cache later on, can mislead. */
module AuthorityCycles {
  import opened Authorities
  import opened AuthorityCheck
  import opened AuthorityCuts

  // The evaluation takes a rejection from the cache or stops at the depth limit.
  predicate CheckStale(env: Env, auth: Authority, st: State, depth: nat)
    requires depth <= env.limit
    decreases env.limit - depth, 1, 0
  {
    TallyStale(env, Ordered(auth), auth.threshold, 0, st, depth)
  }

  predicate TallyStale(env: Env, fs: seq<Factor>, threshold: nat, total: nat, st: State, depth: nat)
    requires depth <= env.limit
    decreases env.limit - depth, 0, |fs|
  {
    fs != [] && (VisitStale(env, fs[0], st, depth)
                 || (var v := Visit(env, fs[0], total, st, depth);
                     v.total < threshold && TallyStale(env, fs[1..], threshold, v.total, v.st, depth)))
  }

  predicate VisitStale(env: Env, f: Factor, st: State, depth: nat)
    requires depth <= env.limit
    decreases env.limit - depth, 0, 0
  {
    f.AccountFactor? &&
    match StatusOf(st.cache, f.level)
    case Some(status) => status == Unsatisfied
    case None =>
      f.level in env.auths &&
      (depth == env.limit
       || CheckStale(env, env.auths[f.level], st.(cache := st.cache[f.level := BeingEvaluated]), depth + 1))
  }

  // ---------- no detour is needed ----------

  function Minus(env: Env, s: set<Level>): Env {
    env.(auths := env.auths - s)
  }

  lemma {:induction false} HoldsWithout(env: Env, l: Level, f: Factor, j: nat, k: nat)
    requires l in env.auths && (forall i: nat :: i < k ==> !Sat(env, env.auths[l], i)) && j <= k && Holds(env, f, j)
    ensures Holds(Minus(env, {l}), f, j)
    decreases j, 0, 0
  {
    if f.AccountFactor? && !Granted(env, f.level) {
      SatWithout(env, l, env.auths[f.level], j - 1, k);
    }
  }

  lemma {:induction false} GainedWithout(env: Env, l: Level, fs: seq<Factor>, j: nat, k: nat)
    requires l in env.auths && (forall i: nat :: i < k ==> !Sat(env, env.auths[l], i)) && j <= k
    ensures Gained(env, fs, j) <= Gained(Minus(env, {l}), fs, j)
    decreases j, 1, |fs|
  {
    if fs != [] {
      if Holds(env, fs[0], j) {
        HoldsWithout(env, l, fs[0], j, k);
      }
      GainedWithout(env, l, fs[1..], j, k);
    }
  }

  lemma {:induction false} SatWithout(env: Env, l: Level, auth: Authority, j: nat, k: nat)
    requires l in env.auths && (forall i: nat :: i < k ==> !Sat(env, env.auths[l], i)) && j <= k && Sat(env, auth, j)
    ensures Sat(Minus(env, {l}), auth, j)
    decreases j, 2, 0
  {
    GainedWithout(env, l, FactorsOf(auth), j, k);
  }

  /** A permission that is satisfied at all is satisfied without reference to itself. */
  lemma {:induction false} NoDetour(env: Env, l: Level, k: nat) returns (k': nat)
    requires l in env.auths && Sat(env, env.auths[l], k)
    ensures Sat(Minus(env, {l}), env.auths[l], k')
    decreases k
  {
    if i: nat :| i < k && Sat(env, env.auths[l], i) {
      k' := NoDetour(env, l, i);
    } else {
      k' := k;
      SatWithout(env, l, env.auths[l], k, k);
    }
  }

  lemma {:induction false} NoDetourUnder(env: Env, s: set<Level>, l: Level, k: nat) returns (k': nat)
    requires l in env.auths && l !in s && Sat(Minus(env, s), env.auths[l], k)
    ensures Sat(Minus(env, s + {l}), env.auths[l], k')
  {
    k' := NoDetour(Minus(env, s), l, k);
    assert env.auths - s - {l} == env.auths - (s + {l});
  }

  // ---------- what is under evaluation ----------

  ghost function Under(cache: Cache): set<Level> {
    set l | l in cache && cache[l] == BeingEvaluated
  }

  lemma {:induction false} UnderVisit(env: Env, f: Factor, total: nat, st: State, depth: nat)
    requires depth <= env.limit
    ensures Under(Visit(env, f, total, st, depth).st.cache) == Under(st.cache)
    decreases env.limit - depth, 0, 0
  {
    if f.AccountFactor? && StatusOf(st.cache, f.level).None? && depth < env.limit && f.level in env.auths {
      var st1 := st.(cache := st.cache[f.level := BeingEvaluated]);
      UnderCheck(env, env.auths[f.level], st1, depth + 1);
      assert Under(st1.cache) == Under(st.cache) + {f.level};
    }
  }

  lemma {:induction false} UnderTally(env: Env, fs: seq<Factor>, threshold: nat, total: nat, st: State, depth: nat)
    requires depth <= env.limit
    ensures Under(Tally(env, fs, threshold, total, st, depth).st.cache) == Under(st.cache)
    decreases env.limit - depth, 0, |fs|
  {
    if fs != [] {
      UnderVisit(env, fs[0], total, st, depth);
      var v := Visit(env, fs[0], total, st, depth);
      if v.total < threshold {
        UnderTally(env, fs[1..], threshold, v.total, v.st, depth);
      }
    }
  }

  lemma {:induction false} UnderCheck(env: Env, auth: Authority, st: State, depth: nat)
    requires depth <= env.limit
    ensures Under(Check(env, auth, st, depth).st.cache) == Under(st.cache)
    decreases env.limit - depth, 1, 0
  {
    UnderTally(env, Ordered(auth), auth.threshold, 0, st, depth);
  }

  // ---------- nothing is overlooked ----------

  // What was granted is in the cache, and none of it under evaluation.
  ghost predicate GrantsIn(env: Env, cache: Cache) {
    && (forall l :: l in env.granted ==> l in cache && cache[l] == Satisfied)
    && (forall l :: l in cache && l.permission == 0 ==> l in env.granted)
    && (forall l :: l in cache && cache[l] == BeingEvaluated ==> !Granted(env, l))
  }

  lemma {:induction false} EnterGrants(env: Env, l: Level, cache: Cache)
    requires Named(env) && GrantsIn(env, cache) && StatusOf(cache, l).None? && l in env.auths
    ensures GrantsIn(env, cache[l := BeingEvaluated]) && !Granted(env, l)
    ensures Under(cache[l := BeingEvaluated]) == Under(cache) + {l} && l !in Under(cache)
  {
  }

  lemma {:induction false} LeaveGrants(env: Env, l: Level, cache: Cache, status: Status)
    requires GrantsIn(env, cache) && !Granted(env, l) && l.permission != 0 && status != BeingEvaluated
    ensures GrantsIn(env, cache[l := status])
  {
  }

  lemma {:induction false} FullNested(env: Env, l: Level, st: State, depth: nat, k: nat)
    requires WellCounted(env) && GrantsIn(env, st.cache) && StatusOf(st.cache, l).None?
    requires l in env.auths && depth < env.limit
    requires !CheckStale(env, env.auths[l], st.(cache := st.cache[l := BeingEvaluated]), depth + 1)
    ensures var r := Check(env, env.auths[l], st.(cache := st.cache[l := BeingEvaluated]), depth + 1);
            && GrantsIn(env, r.st.cache[l := if r.ok then Satisfied else Unsatisfied])
            && (Sat(Minus(env, Under(st.cache)), env.auths[l], k) ==> r.ok)
    decreases env.limit - depth, 0, 0, 0
  {
    var st1 := st.(cache := st.cache[l := BeingEvaluated]);
    var s := Under(st.cache);
    EnterGrants(env, l, st.cache);
    var k' := 0;
    if Sat(Minus(env, s), env.auths[l], k) {
      k' := NoDetourUnder(env, s, l, k);
    }
    FullCheck(env, env.auths[l], st1, depth + 1, k');
    var r := Check(env, env.auths[l], st1, depth + 1);
    LeaveGrants(env, l, r.st.cache, if r.ok then Satisfied else Unsatisfied);
  }

  lemma {:induction false} FullVisit(env: Env, f: Factor, total: nat, st: State, depth: nat, k: nat)
    requires WellCounted(env) && GrantsIn(env, st.cache) && depth <= env.limit
    requires !VisitStale(env, f, st, depth) && total + f.weight < 0x1_0000_0000
    ensures var v := Visit(env, f, total, st, depth);
            && GrantsIn(env, v.st.cache)
            && total + (if Holds(Minus(env, Under(st.cache)), f, k) then f.weight else 0) <= v.total <= total + f.weight
    decreases env.limit - depth, 0, 0, 1
  {
    if f.AccountFactor? && StatusOf(st.cache, f.level).None? && f.level in env.auths {
      FullNested(env, f.level, st, depth, if k > 0 then k - 1 else 0);
    }
  }

  lemma {:induction false} FullTally(
    env: Env, fs: seq<Factor>, threshold: nat, total: nat, st: State, depth: nat, k: nat)
    requires WellCounted(env) && GrantsIn(env, st.cache) && depth <= env.limit
    requires !TallyStale(env, fs, threshold, total, st, depth) && total + TotalWeight(fs) < 0x1_0000_0000
    ensures var r := Tally(env, fs, threshold, total, st, depth);
            && GrantsIn(env, r.st.cache)
            && (!r.ok && fs != [] ==> total + Gained(Minus(env, Under(st.cache)), fs, k) < threshold)
    decreases env.limit - depth, 0, |fs|, 2
  {
    if fs != [] {
      FullVisit(env, fs[0], total, st, depth, k);
      UnderVisit(env, fs[0], total, st, depth);
      var v := Visit(env, fs[0], total, st, depth);
      if v.total < threshold {
        FullTally(env, fs[1..], threshold, v.total, v.st, depth, k);
      }
    }
  }

  lemma {:induction false} FullCheck(env: Env, auth: Authority, st: State, depth: nat, k: nat)
    requires WellCounted(env) && Counted(auth) && GrantsIn(env, st.cache) && depth <= env.limit
    requires !CheckStale(env, auth, st, depth)
    ensures GrantsIn(env, Check(env, auth, st, depth).st.cache)
    ensures Sat(Minus(env, Under(st.cache)), auth, k) ==> Check(env, auth, st, depth).ok
    decreases env.limit - depth, 1, 0
  {
    GainedOrdered(Minus(env, Under(st.cache)), auth, k);
    OrderedSorts(auth);
    assert |Ordered(auth)| == |multiset(Ordered(auth))| == |FactorsOf(auth)|;
    TotalBound(Ordered(auth));
    FullTally(env, Ordered(auth), auth.threshold, 0, st, depth, k);
  }

  /** On every graph: unless a rejection is taken from the cache or the depth limit is met, the verdict
      is that of the declarative sum of weights, however many cycles are run into. */
  lemma {:induction false} ExactUnlessStale(env: Env, auth: Authority, used: set<nat>)
    requires WellCounted(env) && Counted(auth)
    requires !CheckStale(env, auth, State(InitialCache(env), used), 0)
    ensures Query(env, auth, used).ok <==> exists k :: Sat(env, auth, k)
  {
    QuerySound(env, auth, used);
    var st := State(InitialCache(env), used);
    assert Under(st.cache) == {} && env.auths - {} == env.auths;
    forall k: nat | Sat(env, auth, k) ensures Query(env, auth, used).ok {
      FullCheck(env, auth, st, 0, k);
    }
  }

  /** A wrong verdict is the rejection of a satisfied authority, and it takes two things: that the
      evaluation was cut short, and that it took a rejection from the cache or met the depth limit. */
  lemma {:induction false} WrongOnlyIf(env: Env, auth: Authority, used: set<nat>)
    requires WellCounted(env) && Counted(auth)
    requires Query(env, auth, used).ok != exists k :: Sat(env, auth, k)
    ensures !Query(env, auth, used).ok
    ensures CheckCut(env, auth, State(InitialCache(env), used), 0)
    ensures CheckStale(env, auth, State(InitialCache(env), used), 0)
  {
    QuerySound(env, auth, used);
    if !CheckCut(env, auth, State(InitialCache(env), used), 0) {
      ExactUnlessCut(env, auth, used);
    }
    if !CheckStale(env, auth, State(InitialCache(env), used), 0) {
      ExactUnlessStale(env, auth, used);
    }
  }
}
