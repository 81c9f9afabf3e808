/** Why a rejection can be wrong, on any graph: only because the evaluation was cut short, at a
    permission that was under evaluation already or at the depth limit. */
module AuthorityCuts {
  import opened Authorities
  import opened AuthorityCheck

  // The evaluation meets a permission it does not look into.
  predicate CheckCut(env: Env, auth: Authority, st: State, depth: nat)
    requires depth <= env.limit
    decreases env.limit - depth, 1, 0
  {
    TallyCut(env, Ordered(auth), auth.threshold, 0, st, depth)
  }

  predicate TallyCut(env: Env, fs: seq<Factor>, threshold: nat, total: nat, st: State, depth: nat)
    requires depth <= env.limit
    decreases env.limit - depth, 0, |fs|
  {
    fs != [] && (VisitCut(env, fs[0], st, depth)
                 || (var v := Visit(env, fs[0], total, st, depth);
                     v.total < threshold && TallyCut(env, fs[1..], threshold, v.total, v.st, depth)))
  }

  predicate VisitCut(env: Env, f: Factor, st: State, depth: nat)
    requires depth <= env.limit
    decreases env.limit - depth, 0, 0
  {
    f.AccountFactor? &&
    match StatusOf(st.cache, f.level)
    case Some(status) => status == BeingEvaluated
    case None =>
      f.level in env.auths &&
      (depth == env.limit
       || CheckCut(env, env.auths[f.level], st.(cache := st.cache[f.level := BeingEvaluated]), depth + 1))
  }

  ghost predicate Never(env: Env, l: Level) {
    !Granted(env, l) && (l in env.auths ==> forall k: nat {:trigger Sat(env, env.auths[l], k)} :: !Sat(env, env.auths[l], k))
  }

  // Rejections in the cache are right, and what was granted is there.
  ghost predicate Truthful(env: Env, cache: Cache) {
    && (forall l :: l in env.granted ==> l in cache && cache[l] == Satisfied)
    && (forall l :: l in cache && l.permission == 0 ==> l in env.granted)
    && (forall l :: l in cache && cache[l] == Unsatisfied ==> Never(env, l))
  }

  ghost predicate WellCounted(env: Env) {
    Named(env) && forall l :: l in env.auths ==> Counted(env.auths[l])
  }

  lemma {:induction false} RightNested(env: Env, l: Level, st: State, depth: nat)
    requires WellCounted(env) && Truthful(env, st.cache) && StatusOf(st.cache, l).None?
    requires l in env.auths && depth < env.limit
    requires !CheckCut(env, env.auths[l], st.(cache := st.cache[l := BeingEvaluated]), depth + 1)
    ensures var r := Check(env, env.auths[l], st.(cache := st.cache[l := BeingEvaluated]), depth + 1);
            && Truthful(env, r.st.cache[l := if r.ok then Satisfied else Unsatisfied])
            && (!r.ok ==> Never(env, l))
    decreases env.limit - depth, 0, 0, 0
  {
    var st1 := st.(cache := st.cache[l := BeingEvaluated]);
    var r := Check(env, env.auths[l], st1, depth + 1);
    assert Truthful(env, st1.cache);
    RightCheck(env, env.auths[l], st1, depth + 1, 0);
    if !r.ok {
      forall k: nat ensures !Sat(env, env.auths[l], k) {
        RightCheck(env, env.auths[l], st1, depth + 1, k);
      }
    }
  }

  lemma {:induction false} RightVisit(env: Env, f: Factor, total: nat, st: State, depth: nat, k: nat)
    requires WellCounted(env) && Truthful(env, st.cache) && depth <= env.limit
    requires !VisitCut(env, f, st, depth) && total + f.weight < 0x1_0000_0000
    ensures var v := Visit(env, f, total, st, depth);
            && Truthful(env, v.st.cache)
            && total + (if Holds(env, f, k) then f.weight else 0) <= v.total <= total + f.weight
    decreases env.limit - depth, 0, 0, 1
  {
    if f.AccountFactor? && StatusOf(st.cache, f.level).None? && f.level in env.auths {
      RightNested(env, f.level, st, depth);
    }
  }

  lemma {:induction false} RightTally(
    env: Env, fs: seq<Factor>, threshold: nat, total: nat, st: State, depth: nat, k: nat)
    requires WellCounted(env) && Truthful(env, st.cache) && depth <= env.limit
    requires !TallyCut(env, fs, threshold, total, st, depth) && total + TotalWeight(fs) < 0x1_0000_0000
    ensures var r := Tally(env, fs, threshold, total, st, depth);
            && Truthful(env, r.st.cache)
            && (!r.ok && fs != [] ==> total + Gained(env, fs, k) < threshold)
    decreases env.limit - depth, 0, |fs|, 2
  {
    if fs != [] {
      RightVisit(env, fs[0], total, st, depth, k);
      var v := Visit(env, fs[0], total, st, depth);
      if v.total < threshold {
        RightTally(env, fs[1..], threshold, v.total, v.st, depth, k);
      }
    }
  }

  lemma {:induction false} RightCheck(env: Env, auth: Authority, st: State, depth: nat, k: nat)
    requires WellCounted(env) && Counted(auth) && Truthful(env, st.cache) && depth <= env.limit
    requires !CheckCut(env, auth, st, depth)
    ensures Truthful(env, Check(env, auth, st, depth).st.cache)
    ensures !Check(env, auth, st, depth).ok ==> !Sat(env, auth, k)
    decreases env.limit - depth, 1, 0
  {
    GainedOrdered(env, auth, k);
    OrderedSorts(auth);
    assert |Ordered(auth)| == |multiset(Ordered(auth))| == |FactorsOf(auth)|;
    TotalBound(Ordered(auth));
    RightTally(env, Ordered(auth), auth.threshold, 0, st, depth, k);
  }

  /** On every graph, cycles included: unless the evaluation is cut short, the verdict is that of the
      declarative sum of weights. */
  lemma {:induction false} ExactUnlessCut(env: Env, auth: Authority, used: set<nat>)
    requires WellCounted(env) && Counted(auth)
    requires !CheckCut(env, auth, State(InitialCache(env), used), 0)
    ensures Query(env, auth, used).ok <==> exists k :: Sat(env, auth, k)
  {
    QuerySound(env, auth, used);
    if !Query(env, auth, used).ok {
      forall k: nat ensures !Sat(env, auth, k) {
        RightCheck(env, auth, State(InitialCache(env), used), 0, k);
      }
    }
  }
}
