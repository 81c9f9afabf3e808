/** Permission graphs on which the cache of the checker shows. They mark the limits of the
    exactness results: a cycle, a chain longer than the depth limit, a shared permission. */
module AuthorityExamples {
  import opened Authorities
  import opened AuthorityCheck
  import opened AuthorityMarks

  const P := Level(2, 1)
  const Q := Level(1, 1)
  const R := Level(3, 1)

  function OnKey(key: nat): Authority {
    Authority(1, [KeyWeight(key, 1)], [], [])
  }

  function OnLevel(l: Level): Authority {
    Authority(1, [], [LevelWeight(l, 1)], [])
  }

  function OnBoth(threshold: nat, a: Level, wa: Weight, b: Level, wb: Weight): Authority {
    Authority(threshold, [], [LevelWeight(a, wa), LevelWeight(b, wb)], [])
  }

  lemma Arranged(key: nat, l: Level, a: Level, wa: Weight, b: Level, wb: Weight, t: nat)
    ensures Ordered(OnKey(key)) == FactorsOf(OnKey(key)) == [KeyFactor(key, 1)]
    ensures Ordered(OnLevel(l)) == FactorsOf(OnLevel(l)) == [AccountFactor(l, 1)]
    ensures FactorsOf(OnBoth(t, a, wa, b, wb)) == [AccountFactor(a, wa), AccountFactor(b, wb)]
    ensures Ordered(OnBoth(t, a, wa, b, wb))
         == if wb > wa then [AccountFactor(b, wb), AccountFactor(a, wa)] else [AccountFactor(a, wa), AccountFactor(b, wb)]
  {
    PlacedOne(KeyFactor(key, 1));
    PlacedOne(AccountFactor(l, 1));
    PlacedOne(AccountFactor(a, wa));
    var two := [AccountFactor(a, wa), AccountFactor(b, wb)];
    assert FactorsOf(OnBoth(t, a, wa, b, wb)) == two;
    assert two[..1] == [AccountFactor(a, wa)];
    assert PlaceAll(two) == Place(AccountFactor(b, wb), PlaceAll(two[..1]));
    assert FactorsOf(OnKey(key)) == [KeyFactor(key, 1)];
    assert FactorsOf(OnLevel(l)) == [AccountFactor(l, 1)];
  }

  lemma PlacedOne(f: Factor)
    ensures PlaceAll([f]) == [f]
  {
    assert [f][..0] == [];
  }

  // One step of the evaluation of each of the three shapes.
  lemma CheckKey(env: Env, key: nat, st: State, depth: nat)
    requires depth <= env.limit
    ensures Check(env, OnKey(key), st, depth)
         == if key in env.keys then Outcome(true, st.(used := st.used + {key})) else Outcome(false, st)
  {
    Arranged(key, P, P, 1, P, 1, 1);
    var fs := [KeyFactor(key, 1)];
    assert Tally(env, fs, 1, 0, st, depth)
        == (var v := Visit(env, fs[0], 0, st, depth);
            if v.total >= 1 then Outcome(true, v.st) else Tally(env, fs[1..], 1, v.total, v.st, depth));
  }

  lemma CheckLevel(env: Env, l: Level, st: State, depth: nat)
    requires depth <= env.limit
    ensures var v := Visit(env, AccountFactor(l, 1), 0, st, depth);
            Check(env, OnLevel(l), st, depth)
            == if v.total >= 1 then Outcome(true, v.st) else Outcome(false, v.st.(used := st.used))
  {
    Arranged(0, l, P, 1, P, 1, 1);
    var fs := [AccountFactor(l, 1)];
    assert fs[1..] == [];
    var v := Visit(env, fs[0], 0, st, depth);
    assert Tally(env, fs, 1, 0, st, depth)
        == if v.total >= 1 then Outcome(true, v.st) else Tally(env, fs[1..], 1, v.total, v.st, depth);
  }

  lemma TallyTwo(env: Env, f: Factor, g: Factor, threshold: nat, st: State, depth: nat)
    requires depth <= env.limit
    ensures var v := Visit(env, f, 0, st, depth);
            var w := Visit(env, g, v.total, v.st, depth);
            Tally(env, [f, g], threshold, 0, st, depth)
            == if v.total >= threshold then Outcome(true, v.st) else Outcome(w.total >= threshold, w.st)
  {
    var fs := [f, g];
    assert fs[1..] == [g];
    assert [g][1..] == [];
    var v := Visit(env, f, 0, st, depth);
    var w := Visit(env, g, v.total, v.st, depth);
    assert Tally(env, fs, threshold, 0, st, depth)
        == if v.total >= threshold then Outcome(true, v.st) else Tally(env, fs[1..], threshold, v.total, v.st, depth);
    assert Tally(env, [g], threshold, v.total, v.st, depth)
        == if w.total >= threshold then Outcome(true, w.st) else Tally(env, [g][1..], threshold, w.total, w.st, depth);
  }

  lemma QueryTwo(env: Env, threshold: nat, a: Level, wa: Weight, b: Level, wb: Weight, v: Visited, w: Visited)
    requires env.granted == {} && wa >= wb
    requires v == Visit(env, AccountFactor(a, wa), 0, State(map[], {}), 0)
    requires w == Visit(env, AccountFactor(b, wb), v.total, v.st, 0)
    ensures var r := Query(env, OnBoth(threshold, a, wa, b, wb), {});
            && r.ok == (v.total >= threshold || w.total >= threshold)
            && (v.total < threshold <= w.total ==> r.st.used == w.st.used)
  {
    assert InitialCache(env) == map[];
    Arranged(0, P, a, wa, b, wb, threshold);
    TallyTwo(env, AccountFactor(a, wa), AccountFactor(b, wb), threshold, State(map[], {}), 0);
  }

  lemma VisitCached(env: Env, l: Level, w: Weight, total: nat, st: State, depth: nat)
    requires depth <= env.limit && l in st.cache
    ensures Visit(env, AccountFactor(l, w), total, st, depth)
         == if st.cache[l] == Satisfied then Visited(AddWeight(total, w), st) else Visited(total, st)
  {
  }

  // The declarative reading of the three shapes.
  lemma {:induction false} SatKey(env: Env, key: nat, k: nat)
    ensures Sat(env, OnKey(key), k) <==> key in env.keys
  {
    Arranged(key, P, P, 1, P, 1, 1);
    var fs := [KeyFactor(key, 1)];
    assert fs[1..] == [];
    assert Gained(env, fs, k) == (if key in env.keys then 1 else 0) + Gained(env, fs[1..], k);
  }

  lemma {:induction false} SatLevel(env: Env, l: Level, k: nat)
    ensures Sat(env, OnLevel(l), k) <==> Holds(env, AccountFactor(l, 1), k)
  {
    Arranged(0, l, P, 1, P, 1, 1);
    var fs := [AccountFactor(l, 1)];
    assert fs[1..] == [];
    assert Gained(env, fs, k) == (if Holds(env, fs[0], k) then 1 else 0) + Gained(env, fs[1..], k);
  }

  lemma {:induction false} SatBoth(env: Env, threshold: nat, a: Level, wa: Weight, b: Level, wb: Weight, k: nat)
    ensures Sat(env, OnBoth(threshold, a, wa, b, wb), k)
       <==> (if Holds(env, AccountFactor(a, wa), k) then wa else 0)
            + (if Holds(env, AccountFactor(b, wb), k) then wb else 0) >= threshold
  {
    Arranged(0, P, a, wa, b, wb, threshold);
    var f, g := AccountFactor(a, wa), AccountFactor(b, wb);
    var fs := [f, g];
    assert fs[1..] == [g];
    assert Gained(env, fs, k) == (if Holds(env, f, k) then wa else 0) + Gained(env, fs[1..], k);
    assert [g][1..] == [];
    assert Gained(env, [g], k) == (if Holds(env, g, k) then wb else 0) + Gained(env, [g][1..], k);
  }

  // ---------- a cycle ----------

  const CYCLE := Env({1}, {}, 0, map[Q := OnBoth(1, P, 2, R, 1), P := OnLevel(Q), R := OnKey(1)], 6)

  /** Q accepts through R; P delegates back to Q. Evaluating Q first leaves P rejected in the
      cache, evaluating P first does not: the verdict depends on the order, and the checker
      rejects an authority that is satisfied. */
  lemma CycleIsOrderDependent(env: Env)
    requires env == CYCLE
    ensures var auth := OnBoth(2, Q, 1, P, 1);
            && !Query(env, auth, {}).ok
            && Sat(env, auth, env.limit)
            && Tally(env, [AccountFactor(P, 1), AccountFactor(Q, 1)], 2, 0, State(InitialCache(env), {}), 0).ok
  {
    QFirst(env);
    var q := Visit(env, AccountFactor(Q, 1), 0, State(map[], {}), 0);
    VisitCached(env, P, 1, 1, q.st, 0);
    QueryTwo(env, 2, Q, 1, P, 1, q, Visited(1, q.st));
    PFirst(env);
    var p := Visit(env, AccountFactor(P, 1), 0, State(map[], {}), 0);
    VisitCached(env, Q, 1, 1, p.st, 0);
    assert InitialCache(env) == map[];
    TallyTwo(env, AccountFactor(P, 1), AccountFactor(Q, 1), 2, State(map[], {}), 0);
    CycleSatisfied();
  }

  lemma QFirst(env: Env)
    requires env == CYCLE
    ensures var v := Visit(env, AccountFactor(Q, 1), 0, State(map[], {}), 0);
            v.total == 1 && v.st.cache == map[Q := Satisfied, P := Unsatisfied, R := Satisfied]
  {
    var st1 := State(map[Q := BeingEvaluated], {});
    Arranged(0, P, P, 2, R, 1, 1);
    TallyTwo(env, AccountFactor(P, 2), AccountFactor(R, 1), 1, st1, 1);
    BackIntoQ(env, st1);
    RByKey(env, State(map[Q := BeingEvaluated, P := Unsatisfied], {}), 1);
  }

  lemma BackIntoQ(env: Env, st1: State)
    requires env == CYCLE && st1 == State(map[Q := BeingEvaluated], {})
    ensures Visit(env, AccountFactor(P, 2), 0, st1, 1)
         == Visited(0, State(map[Q := BeingEvaluated, P := Unsatisfied], {}))
  {
    CheckLevel(env, Q, State(map[Q := BeingEvaluated, P := BeingEvaluated], {}), 2);
  }

  lemma RByKey(env: Env, st: State, depth: nat)
    requires 1 in env.keys && R in env.auths && env.auths[R] == OnKey(1) && depth < env.limit
    requires StatusOf(st.cache, R).None?
    ensures Visit(env, AccountFactor(R, 1), 0, st, depth)
         == Visited(1, State(st.cache[R := Satisfied], st.used + {1}))
  {
    CheckKey(env, 1, st.(cache := st.cache[R := BeingEvaluated]), depth + 1);
    assert st.cache[R := BeingEvaluated][R := Satisfied] == st.cache[R := Satisfied];
  }

  lemma PFirst(env: Env)
    requires env == CYCLE
    ensures var v := Visit(env, AccountFactor(P, 1), 0, State(map[], {}), 0);
            v.total == 1 && v.st.cache == map[Q := Satisfied, P := Satisfied, R := Satisfied]
  {
    var st1 := State(map[P := BeingEvaluated], {});
    CheckLevel(env, Q, st1, 1);
    var st2 := State(map[P := BeingEvaluated, Q := BeingEvaluated], {});
    Arranged(0, P, P, 2, R, 1, 1);
    TallyTwo(env, AccountFactor(P, 2), AccountFactor(R, 1), 1, st2, 2);
    assert Visit(env, AccountFactor(P, 2), 0, st2, 2) == Visited(0, st2);
    RByKey(env, st2, 2);
    assert Visit(env, AccountFactor(Q, 1), 0, st1, 1)
        == Visited(1, State(map[P := BeingEvaluated, Q := Satisfied, R := Satisfied], {1}));
  }

  lemma CycleSatisfied()
    ensures Sat(CYCLE, OnBoth(2, Q, 1, P, 1), CYCLE.limit)
  {
    var env := CYCLE;
    SatKey(env, 1, 3);
    assert Holds(env, AccountFactor(R, 1), 4);
    SatBoth(env, 1, P, 2, R, 1, 4);
    assert Sat(env, env.auths[Q], 4);
    assert Holds(env, AccountFactor(Q, 1), 5);
    SatLevel(env, Q, 5);
    assert Holds(env, AccountFactor(P, 1), 6);
    HoldsGrows(env, env, AccountFactor(Q, 1), 5, 6);
    SatBoth(env, 2, Q, 1, P, 1, 6);
  }

  // ---------- a chain longer than the depth limit ----------

  const CHAIN := Env({1}, {}, 0, map[Q := OnLevel(P), P := OnLevel(R), R := OnKey(1)], 2)

  /** P is satisfied within the limit of two, but its rejection below Q, where the limit cuts it
      off, is remembered: the checker rejects a satisfied authority. */
  lemma ChainRejectsSatisfied(env: Env)
    requires env == CHAIN
    ensures var auth := OnBoth(1, Q, 2, P, 1);
            !Query(env, auth, {}).ok && Sat(env, auth, env.limit)
  {
    CutOff(env);
    var st := State(map[Q := Unsatisfied, P := Unsatisfied], {});
    VisitCached(env, P, 1, 0, st, 0);
    QueryTwo(env, 1, Q, 2, P, 1, Visited(0, st), Visited(0, st));
    ChainSatisfied();
  }

  // A level that stands on another one, whose visit is in vain.
  lemma InVain(env: Env, l: Level, m: Level, w: Weight, st: State, st1: State, depth: nat, after: State)
    requires depth < env.limit && StatusOf(st.cache, l).None? && l in env.auths && env.auths[l] == OnLevel(m)
    requires st1 == st.(cache := st.cache[l := BeingEvaluated]) && after.used == st1.used
    requires Visit(env, AccountFactor(m, 1), 0, st1, depth + 1) == Visited(0, after)
    ensures Visit(env, AccountFactor(l, w), 0, st, depth) == Visited(0, after.(cache := after.cache[l := Unsatisfied]))
  {
    CheckLevel(env, m, st1, depth + 1);
    assert after.(used := st1.used) == after;
  }

  lemma CutOff(env: Env)
    requires env == CHAIN
    ensures Visit(env, AccountFactor(Q, 2), 0, State(map[], {}), 0)
         == Visited(0, State(map[Q := Unsatisfied, P := Unsatisfied], {}))
  {
    var st, st1 := State(map[], {}), State(map[Q := BeingEvaluated], {});
    var st2 := State(map[Q := BeingEvaluated, P := BeingEvaluated], {});
    AtLimit(env, st2);
    InVain(env, P, R, 1, st1, st2, 1, st2);
    var st3 := State(map[Q := BeingEvaluated, P := Unsatisfied], {});
    assert st2.cache[P := Unsatisfied] == st3.cache;
    InVain(env, Q, P, 2, st, st1, 0, st3);
    assert st3.cache[Q := Unsatisfied] == map[Q := Unsatisfied, P := Unsatisfied];
  }

  lemma AtLimit(env: Env, st2: State)
    requires env == CHAIN && st2 == State(map[Q := BeingEvaluated, P := BeingEvaluated], {})
    ensures Visit(env, AccountFactor(R, 1), 0, st2, 2) == Visited(0, st2)
  {
  }

  lemma ChainSatisfied()
    ensures Sat(CHAIN, OnBoth(1, Q, 2, P, 1), CHAIN.limit)
  {
    var env := CHAIN;
    SatKey(env, 1, 0);
    assert Holds(env, AccountFactor(R, 1), 1);
    SatLevel(env, R, 1);
    assert Holds(env, AccountFactor(P, 1), 2);
    SatBoth(env, 1, Q, 2, P, 1, 2);
  }

  /** And the other way round: an acceptance of P remembered from where it fits the limit also
      counts below Q, where it does not: the checker goes beyond its depth limit. */
  lemma ChainAcceptsBeyondLimit(env: Env)
    requires env == CHAIN
    ensures var auth := OnBoth(2, P, 1, Q, 1);
            Query(env, auth, {}).ok && !Sat(env, auth, env.limit)
  {
    WithinLimit(env);
    var st := State(map[P := Satisfied, R := Satisfied], {1});
    ThroughCache(env, st);
    QueryTwo(env, 2, P, 1, Q, 1, Visited(1, st), Visit(env, AccountFactor(Q, 1), 1, st, 0));
    BeyondLimit();
    SatBoth(env, 2, P, 1, Q, 1, 2);
  }

  lemma ThroughCache(env: Env, st: State)
    requires env == CHAIN && st == State(map[P := Satisfied, R := Satisfied], {1})
    ensures Visit(env, AccountFactor(Q, 1), 1, st, 0).total == 2
  {
    var st1 := State(map[P := Satisfied, R := Satisfied, Q := BeingEvaluated], {1});
    VisitCached(env, P, 1, 0, st1, 1);
    CheckLevel(env, P, st1, 1);
  }

  lemma WithinLimit(env: Env)
    requires env == CHAIN
    ensures Visit(env, AccountFactor(P, 1), 0, State(map[], {}), 0)
         == Visited(1, State(map[P := Satisfied, R := Satisfied], {1}))
  {
    var st1 := State(map[P := BeingEvaluated], {});
    RByKey(env, st1, 1);
    CheckLevel(env, R, st1, 1);
  }

  lemma BeyondLimit()
    ensures !Holds(CHAIN, AccountFactor(Q, 1), 2)
  {
    var env := CHAIN;
    assert !Holds(env, AccountFactor(R, 1), 0);
    SatLevel(env, R, 0);
    assert !Holds(env, AccountFactor(P, 1), 1);
    SatLevel(env, P, 1);
  }

  // ---------- a permission referred to twice ----------

  const SHARED := Env({1}, {}, 0, map[P := OnBoth(2, R, 1, Q, 1), R := OnKey(1)], 6)

  /** R is satisfied inside P, P is rejected and gives the key back, and R is then taken from the
      cache: the query is accepted with no key marked, and no number of levels lets an empty key
      set satisfy the authority. */
  lemma SharedLosesMarks(env: Env)
    requires env == SHARED
    ensures var r := Query(env, OnBoth(1, P, 2, R, 1), {});
            r.ok && r.st.used == {}
    ensures forall k :: !Sat(env.(keys := {}), OnBoth(1, P, 2, R, 1), k)
  {
    SharedAccepted(env);
    forall k: nat ensures !Sat(env.(keys := {}), OnBoth(1, P, 2, R, 1), k) {
      SharedNeedsKey(k);
    }
  }

  lemma SharedAccepted(env: Env)
    requires env == SHARED
    ensures var r := Query(env, OnBoth(1, P, 2, R, 1), {});
            r.ok && r.st.used == {}
  {
    Rejected(env);
    var st := State(map[P := Unsatisfied, R := Satisfied], {});
    VisitCached(env, R, 1, 0, st, 0);
    QueryTwo(env, 1, P, 2, R, 1, Visited(0, st), Visited(1, st));
  }

  // The acceptance of R is taken from the cache after its key was given back.
  lemma SharedLoses(env: Env)
    requires env == SHARED
    ensures Loses(env, OnBoth(1, P, 2, R, 1), {})
  {
    SharedAccepted(env);
    Rejected(env);
    Arranged(0, P, P, 2, R, 1, 1);
    assert InitialCache(env) == map[];
    var f, g := AccountFactor(P, 2), AccountFactor(R, 1);
    var st0, st := State(map[], {}), State(map[P := Unsatisfied, R := Satisfied], {});
    RejectedKeeps(env, st0);
    assert [f, g][1..] == [g];
    assert TraceVisit(env, g, st, 0, {}).lost;
    assert TraceTally(env, [g], 1, 0, st, 0, {}).lost;
    assert TraceTally(env, [f, g], 1, 0, st0, 0, {}).lost;
  }

  lemma RejectedKeeps(env: Env, st0: State)
    requires env == SHARED && st0 == State(map[], {})
    ensures TraceVisit(env, AccountFactor(P, 2), st0, 0, {}) == Trace(false, {})
  {
    Rejected(env);
  }

  lemma Rejected(env: Env)
    requires env == SHARED
    ensures Visit(env, AccountFactor(P, 2), 0, State(map[], {}), 0)
         == Visited(0, State(map[P := Unsatisfied, R := Satisfied], {}))
  {
    var st1 := State(map[P := BeingEvaluated], {});
    RByKey(env, st1, 1);
    var st2 := State(map[P := BeingEvaluated, R := Satisfied], {1});
    assert Visit(env, AccountFactor(Q, 1), 1, st2, 1) == Visited(1, st2);
    Arranged(0, P, R, 1, Q, 1, 2);
    TallyTwo(env, AccountFactor(R, 1), AccountFactor(Q, 1), 2, st1, 1);
  }

  lemma {:induction false} SharedNeedsKey(k: nat)
    ensures !Sat(SHARED.(keys := {}), OnBoth(1, P, 2, R, 1), k)
  {
    var env := SHARED.(keys := {});
    WithoutKey(k);
    if k > 0 {
      WithoutKey(k - 1);
      SatBoth(env, 2, R, 1, Q, 1, k - 1);
    }
    SatBoth(env, 1, P, 2, R, 1, k);
  }

  lemma {:induction false} WithoutKey(k: nat)
    ensures var env := SHARED.(keys := {});
            !Holds(env, AccountFactor(R, 1), k) && !Holds(env, AccountFactor(Q, 1), k)
  {
    if k > 0 {
      SatKey(SHARED.(keys := {}), 1, k - 1);
    }
  }
}
