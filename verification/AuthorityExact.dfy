/** When the verdict of the checker is the declarative one. The cache makes the verdict depend
    on the order of evaluation on cyclic or deep permission graphs; on graphs whose delegation
    chains fit the depth limit it is exact. */
module AuthorityExact {
  import opened Authorities
  import opened AuthorityCheck

  // The nested permissions of `auth` that are not granted outright have a rank below n.
  ghost predicate Below(env: Env, rank: map<Level, nat>, fs: seq<Factor>, n: nat) {
    forall f :: f in fs && f.AccountFactor? && f.level in env.auths && !Granted(env, f.level) ==>
      f.level in rank && rank[f.level] < n
  }

  /** Every delegation goes to a permission of smaller rank: the graph under the ranked
      permissions is acyclic and a chain from rank r is at most r long. */
  ghost predicate Ranked(env: Env, rank: map<Level, nat>) {
    && Named(env)
    && forall l :: l in rank ==> l in env.auths && Counted(env.auths[l]) && Below(env, rank, FactorsOf(env.auths[l]), rank[l])
  }

  // With every chain shorter than k, more nesting changes nothing.
  lemma {:induction false} HoldsStable(env: Env, rank: map<Level, nat>, f: Factor, k: nat, k': nat)
    requires Ranked(env, rank) && k <= k' && Below(env, rank, [f], k)
    ensures Holds(env, f, k) <==> Holds(env, f, k')
    decreases k, 0, 0
  {
    if f.AccountFactor? && !Granted(env, f.level) && f.level in env.auths {
      assert f in [f];
      SatStable(env, rank, env.auths[f.level], k - 1, k' - 1);
    }
  }

  lemma {:induction false} GainedStable(env: Env, rank: map<Level, nat>, fs: seq<Factor>, k: nat, k': nat)
    requires Ranked(env, rank) && k <= k' && Below(env, rank, fs, k)
    ensures Gained(env, fs, k) == Gained(env, fs, k')
    decreases k, 1, |fs|
  {
    if fs != [] {
      HoldsStable(env, rank, fs[0], k, k');
      GainedStable(env, rank, fs[1..], k, k');
    }
  }

  lemma {:induction false} SatStable(env: Env, rank: map<Level, nat>, auth: Authority, k: nat, k': nat)
    requires Ranked(env, rank) && k <= k' && Below(env, rank, FactorsOf(auth), k)
    ensures Sat(env, auth, k) <==> Sat(env, auth, k')
    decreases k, 2, 0
  {
    GainedStable(env, rank, FactorsOf(auth), k, k');
  }

  ghost predicate Verdict(env: Env, rank: map<Level, nat>, l: Level) {
    l in rank && l in env.auths && Sat(env, env.auths[l], rank[l])
  }

  // The cache while an authority whose nested permissions rank below n is evaluated.
  ghost predicate CacheExact(env: Env, rank: map<Level, nat>, cache: Cache, n: nat) {
    && (forall l :: l in env.granted ==> l in cache && cache[l] == Satisfied)
    && (forall l :: l in cache && l.permission == 0 ==> l in env.granted)
    && (forall l :: l in cache && l !in env.granted ==> l in rank)
    && (forall l :: l in cache && l !in env.granted && cache[l] == Satisfied ==> Verdict(env, rank, l) || Granted(env, l))
    && (forall l :: l in cache && cache[l] == Unsatisfied ==> !Verdict(env, rank, l) && !Granted(env, l))
    && (forall l :: l in cache && cache[l] == BeingEvaluated ==> l in rank && rank[l] >= n && !Granted(env, l))
  }

  ghost predicate NoNewEvaluation(c: Cache, c': Cache) {
    forall l :: l in c' && c'[l] == BeingEvaluated ==> l in c && c[l] == BeingEvaluated
  }

  lemma {:induction false} ExactNested(env: Env, rank: map<Level, nat>, l: Level, st: State, depth: nat, n: nat)
    requires Ranked(env, rank) && CacheExact(env, rank, st.cache, n)
    requires l in rank && rank[l] < n && depth + n <= env.limit && !Granted(env, l) && l !in st.cache
    ensures var st1 := st.(cache := st.cache[l := BeingEvaluated]);
            var r := Check(env, env.auths[l], st1, depth + 1);
            var c := r.st.cache[l := if r.ok then Satisfied else Unsatisfied];
            && (r.ok <==> Verdict(env, rank, l))
            && CacheExact(env, rank, c, n)
            && NoNewEvaluation(st.cache, c)
    decreases env.limit - depth, 0, 0, 0
  {
    var st1 := st.(cache := st.cache[l := BeingEvaluated]);
    assert CacheExact(env, rank, st1.cache, rank[l]);
    ExactCheck(env, rank, env.auths[l], st1, depth + 1, rank[l]);
  }

  lemma {:induction false} ExactVisit(env: Env, rank: map<Level, nat>, f: Factor, total: nat, st: State, depth: nat, n: nat)
    requires Ranked(env, rank) && CacheExact(env, rank, st.cache, n)
    requires Below(env, rank, [f], n) && depth + n <= env.limit && total + f.weight < 0x1_0000_0000
    ensures var v := Visit(env, f, total, st, depth);
            && v.total == total + (if Holds(env, f, n) then f.weight else 0)
            && CacheExact(env, rank, v.st.cache, n)
            && NoNewEvaluation(st.cache, v.st.cache)
    decreases env.limit - depth, 0, 0, 1
  {
    if f.AccountFactor? {
      var l := f.level;
      assert f in [f];
      if StatusOf(st.cache, l).None? {
        assert !Granted(env, l);
        if l in env.auths {
          ExactNested(env, rank, l, st, depth, n);
          SatStable(env, rank, env.auths[l], rank[l], n - 1);
        }
      } else {
        CachedVerdict(env, rank, l, st.cache, n);
      }
    }
  }

  // What a cached status says about a permission of rank below n.
  lemma CachedVerdict(env: Env, rank: map<Level, nat>, l: Level, cache: Cache, n: nat)
    requires Ranked(env, rank) && CacheExact(env, rank, cache, n) && StatusOf(cache, l).Some?
    requires l in env.auths && !Granted(env, l) ==> l in rank && rank[l] < n
    ensures StatusOf(cache, l).value == Satisfied <==> forall w :: Holds(env, AccountFactor(l, w), n)
    ensures forall w, w' :: Holds(env, AccountFactor(l, w), n) == Holds(env, AccountFactor(l, w'), n)
  {
    assert Holds(env, AccountFactor(l, 0), n) || !Holds(env, AccountFactor(l, 0), n);
    if !Granted(env, l) {
      SatStable(env, rank, env.auths[l], rank[l], n - 1);
    }
  }

  lemma {:induction false} ExactTally(
    env: Env, rank: map<Level, nat>, fs: seq<Factor>, threshold: nat, total: nat, st: State, depth: nat, n: nat)
    requires Ranked(env, rank) && CacheExact(env, rank, st.cache, n)
    requires Below(env, rank, fs, n) && depth + n <= env.limit && total + TotalWeight(fs) < 0x1_0000_0000
    ensures var r := Tally(env, fs, threshold, total, st, depth);
            && (r.ok <==> fs != [] && total + Gained(env, fs, n) >= threshold)
            && CacheExact(env, rank, r.st.cache, n)
            && NoNewEvaluation(st.cache, r.st.cache)
    decreases env.limit - depth, 0, |fs|, 2
  {
    if fs != [] {
      ExactVisit(env, rank, fs[0], total, st, depth, n);
      var v := Visit(env, fs[0], total, st, depth);
      if v.total < threshold {
        ExactTally(env, rank, fs[1..], threshold, v.total, v.st, depth, n);
      }
    }
  }

  lemma {:induction false} ExactCheck(env: Env, rank: map<Level, nat>, auth: Authority, st: State, depth: nat, n: nat)
    requires Ranked(env, rank) && CacheExact(env, rank, st.cache, n)
    requires Counted(auth) && Below(env, rank, FactorsOf(auth), n) && depth + n <= env.limit
    ensures var r := Check(env, auth, st, depth);
            && (r.ok <==> Sat(env, auth, n))
            && CacheExact(env, rank, r.st.cache, n)
            && NoNewEvaluation(st.cache, r.st.cache)
    decreases env.limit - depth, 1, 0
  {
    GainedOrdered(env, auth, n);
    OrderedSorts(auth);
    assert |Ordered(auth)| == |multiset(Ordered(auth))| == |FactorsOf(auth)|;
    TotalBound(Ordered(auth));
    ExactTally(env, rank, Ordered(auth), auth.threshold, 0, st, depth, n);
  }

  /** On graphs whose delegation chains from `auth` are at most n <= limit long, the greedy,
      caching, early-exiting checker accepts exactly the authorities whose provided weight
      reaches the threshold. */
  lemma QueryExact(env: Env, rank: map<Level, nat>, auth: Authority, used: set<nat>, n: nat)
    requires Ranked(env, rank) && Counted(auth) && Below(env, rank, FactorsOf(auth), n) && n <= env.limit
    ensures Query(env, auth, used).ok <==> Sat(env, auth, env.limit)
  {
    ExactCheck(env, rank, auth, State(InitialCache(env), used), 0, n);
    SatStable(env, rank, auth, n, env.limit);
  }

  /** There the order of evaluation is irrelevant: any arrangement of the factors gets the same verdict. */
  lemma OrderIrrelevant(
    env: Env, rank: map<Level, nat>, fs: seq<Factor>, gs: seq<Factor>, threshold: nat, used: set<nat>, n: nat)
    requires Ranked(env, rank) && Below(env, rank, fs, n) && n <= env.limit
    requires multiset(fs) == multiset(gs) && |fs| <= 0x1_0000
    ensures Tally(env, fs, threshold, 0, State(InitialCache(env), used), 0).ok
         == Tally(env, gs, threshold, 0, State(InitialCache(env), used), 0).ok
  {
    forall f | f in gs ensures f in fs {
      assert f in multiset(gs);
    }
    assert |gs| == |multiset(gs)| == |fs|;
    TotalBound(fs);
    TotalBound(gs);
    GainedPermuted(env, fs, gs, n);
    ExactTally(env, rank, fs, threshold, 0, State(InitialCache(env), used), 0, n);
    ExactTally(env, rank, gs, threshold, 0, State(InitialCache(env), used), 0, n);
  }
}
