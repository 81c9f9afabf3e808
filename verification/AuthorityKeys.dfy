/** The keys a query leaves marked as used: a rejection restores the marks, and on graphs where
    no permission is referenced twice the marks of an acceptance suffice on their own. */
module AuthorityKeys {
  import opened Options
  import opened Authorities
  import opened AuthorityCheck

  lemma {:induction false} UsedGrowsVisit(env: Env, f: Factor, total: nat, st: State, depth: nat)
    requires depth <= env.limit
    ensures st.used <= Visit(env, f, total, st, depth).st.used <= st.used + env.keys
    decreases env.limit - depth, 0, 0
  {
    if f.AccountFactor? && StatusOf(st.cache, f.level).None? && depth < env.limit && f.level in env.auths {
      UsedGrowsCheck(env, env.auths[f.level], st.(cache := st.cache[f.level := BeingEvaluated]), depth + 1);
    }
  }

  lemma {:induction false} UsedGrowsTally(env: Env, fs: seq<Factor>, threshold: nat, total: nat, st: State, depth: nat)
    requires depth <= env.limit
    ensures st.used <= Tally(env, fs, threshold, total, st, depth).st.used <= st.used + env.keys
    decreases env.limit - depth, 0, |fs|
  {
    if fs != [] {
      UsedGrowsVisit(env, fs[0], total, st, depth);
      var v := Visit(env, fs[0], total, st, depth);
      UsedGrowsTally(env, fs[1..], threshold, v.total, v.st, depth);
    }
  }

  lemma {:induction false} UsedGrowsCheck(env: Env, auth: Authority, st: State, depth: nat)
    requires depth <= env.limit
    ensures var r := Check(env, auth, st, depth);
            && (r.ok ==> st.used <= r.st.used <= st.used + env.keys)
            && (!r.ok ==> r.st.used == st.used)
    decreases env.limit - depth, 1, 0
  {
    UsedGrowsTally(env, Ordered(auth), auth.threshold, 0, st, depth);
  }

  // ---------- graphs without sharing ----------

  // Every nested permission in fs names `owner` as the one place that refers to it.
  ghost predicate OwnedBy(env: Env, parent: map<Level, Option<Level>>, fs: seq<Factor>, owner: Option<Level>) {
    forall f :: f in fs && f.AccountFactor? && f.level in env.auths ==> f.level in parent && parent[f.level] == owner
  }

  ghost predicate DistinctLevels(fs: seq<Factor>) {
    forall i, j :: 0 <= i < j < |fs| && fs[i].AccountFactor? && fs[j].AccountFactor? ==> fs[i].level != fs[j].level
  }

  /** No permission is referred to from two places: `parent` assigns each its single referrer
      (None for the queried authority itself). */
  ghost predicate Unshared(env: Env, parent: map<Level, Option<Level>>) {
    && Named(env)
    && forall l :: l in parent && l in env.auths ==>
         && OwnedBy(env, parent, FactorsOf(env.auths[l]), Some(l))
         && DistinctLevels(Ordered(env.auths[l]))
  }

  // Cached levels are granted, or were reached through their referrer.
  ghost predicate Reached(env: Env, parent: map<Level, Option<Level>>, cache: Cache) {
    && (forall l :: l in env.granted ==> l in cache && cache[l] == Satisfied)
    && (forall l :: l in cache && l !in env.granted ==>
          l in env.auths && l in parent && (parent[l].None? || parent[l].value in cache))
  }

  ghost predicate AddedUnder(parent: map<Level, Option<Level>>, c: Cache, c': Cache, owner: Option<Level>) {
    && (forall l :: l in c ==> l in c')
    && (forall l :: l in c' && l !in c ==>
          l in parent && (parent[l] == owner || (parent[l].Some? && parent[l].value in c' && parent[l].value !in c)))
  }

  // None of the nested permissions in fs has been evaluated yet.
  ghost predicate Fresh(env: Env, fs: seq<Factor>, cache: Cache) {
    forall f :: f in fs && f.AccountFactor? && !Granted(env, f.level) ==> f.level !in cache
  }

  // Of the permissions referred to by `owner`, at most the one in f has been added.
  ghost predicate OnlyChild(
    parent: map<Level, Option<Level>>, c: Cache, c': Cache, owner: Option<Level>, f: Factor)
  {
    forall l :: l in c' && l !in c && l in parent && parent[l] == owner ==> f.AccountFactor? && l == f.level
  }

  lemma FreshAfter(
    env: Env, parent: map<Level, Option<Level>>, fs: seq<Factor>, c: Cache, c': Cache, owner: Option<Level>)
    requires fs != [] && DistinctLevels(fs) && OwnedBy(env, parent, fs, owner) && Fresh(env, fs, c)
    requires Reached(env, parent, c') && OnlyChild(parent, c, c', owner, fs[0])
    ensures Fresh(env, fs[1..], c')
  {
    forall f | f in fs[1..] && f.AccountFactor? && !Granted(env, f.level) ensures f.level !in c' {
      var i :| 0 <= i < |fs[1..]| && fs[1..][i] == f;
      assert fs[i + 1] == f;
    }
  }

  function Marked(env: Env, used: set<nat>): Env {
    env.(keys := used)
  }

  // A permission not yet cached is first reached here, so nothing below it is cached either.
  lemma EnterFresh(env: Env, parent: map<Level, Option<Level>>, l: Level, c: Cache)
    requires Unshared(env, parent) && Reached(env, parent, c)
    requires l in env.auths && l in parent && l !in c && !Granted(env, l) && (parent[l].None? || parent[l].value in c)
    ensures Reached(env, parent, c[l := BeingEvaluated])
    ensures Fresh(env, Ordered(env.auths[l]), c[l := BeingEvaluated])
  {
    GainedOrdered(env, env.auths[l], 0);
    var fs := FactorsOf(env.auths[l]);
    forall f | f in fs && f.AccountFactor? && !Granted(env, f.level) ensures f.level !in c[l := BeingEvaluated] {
      if f.level in env.auths {
        assert parent[f.level] == Some(l);
      }
    }
  }

  lemma LeaveAdded(
    env: Env, parent: map<Level, Option<Level>>, l: Level, c: Cache, c': Cache, status: Status, owner: Option<Level>)
    requires Reached(env, parent, c[l := BeingEvaluated]) && Reached(env, parent, c')
    requires l !in c && l in parent && parent[l] == owner && (owner.Some? ==> owner.value in c) && l !in env.granted
    requires AddedUnder(parent, c[l := BeingEvaluated], c', Some(l))
    ensures Reached(env, parent, c'[l := status])
    ensures AddedUnder(parent, c, c'[l := status], owner)
    ensures OnlyChild(parent, c, c'[l := status], owner, AccountFactor(l, 0))
  {
  }

  ghost predicate VisitMarks(
    env: Env, parent: map<Level, Option<Level>>, f: Factor, total: nat, c: Cache, depth: nat, owner: Option<Level>, v: Visited)
    requires depth <= env.limit
  {
    && Reached(env, parent, v.st.cache)
    && AddedUnder(parent, c, v.st.cache, owner)
    && OnlyChild(parent, c, v.st.cache, owner, f)
    && v.total <= total + (if Holds(Marked(env, v.st.used), f, env.limit - depth) then f.weight else 0)
  }

  lemma {:induction false} HoldsNested(env: Env, f: Factor, k: nat)
    requires f.AccountFactor? && k > 0 && f.level in env.auths && Sat(env, env.auths[f.level], k - 1)
    ensures Holds(env, f, k)
  {
  }

  lemma {:induction false} MarksVisit(
    env: Env, parent: map<Level, Option<Level>>, f: Factor, total: nat, st: State, depth: nat, owner: Option<Level>)
    requires depth <= env.limit && Unshared(env, parent) && Reached(env, parent, st.cache)
    requires OwnedBy(env, parent, [f], owner) && (owner.Some? ==> owner.value in st.cache) && Fresh(env, [f], st.cache)
    ensures VisitMarks(env, parent, f, total, st.cache, depth, owner, Visit(env, f, total, st, depth))
    decreases env.limit - depth, 0, 0
  {
    if f.AccountFactor? {
      var l := f.level;
      assert f in [f];
      if StatusOf(st.cache, l).None? && depth < env.limit && l in env.auths {
        MarksNested(env, parent, l, st, depth, owner);
        var r := Check(env, env.auths[l], st.(cache := st.cache[l := BeingEvaluated]), depth + 1);
        if r.ok {
          HoldsNested(Marked(env, r.st.used), f, env.limit - depth);
        }
      } else {
        MarksCached(env, parent, f, total, st, depth, owner);
      }
    }
  }

  lemma {:induction false} MarksCached(
    env: Env, parent: map<Level, Option<Level>>, f: Factor, total: nat, st: State, depth: nat, owner: Option<Level>)
    requires depth <= env.limit && Named(env) && Reached(env, parent, st.cache)
    requires f.AccountFactor? && (!Granted(env, f.level) ==> f.level !in st.cache)
    requires StatusOf(st.cache, f.level).Some? || depth == env.limit || f.level !in env.auths
    ensures VisitMarks(env, parent, f, total, st.cache, depth, owner, Visit(env, f, total, st, depth))
  {
    if StatusOf(st.cache, f.level).Some? {
      CachedIsGranted(env, parent, f.level, st.cache);
    }
  }

  lemma CachedIsGranted(env: Env, parent: map<Level, Option<Level>>, l: Level, c: Cache)
    requires Named(env) && Reached(env, parent, c) && StatusOf(c, l).Some?
    requires !Granted(env, l) ==> l !in c
    ensures Granted(env, l)
  {
  }

  lemma {:induction false} MarksInside(
    env: Env, parent: map<Level, Option<Level>>, l: Level, st: State, st1: State, depth: nat)
    requires depth < env.limit && Unshared(env, parent) && Reached(env, parent, st.cache)
    requires l in env.auths && l in parent && l !in st.cache && !Granted(env, l)
    requires parent[l].Some? ==> parent[l].value in st.cache
    requires st1 == st.(cache := st.cache[l := BeingEvaluated])
    ensures var r := Check(env, env.auths[l], st1, depth + 1);
            && Reached(env, parent, st1.cache) && Reached(env, parent, r.st.cache)
            && AddedUnder(parent, st1.cache, r.st.cache, Some(l))
            && (r.ok ==> Sat(Marked(env, r.st.used), env.auths[l], env.limit - (depth + 1)))
    decreases env.limit - depth - 1, 2, 0
  {
    EnterFresh(env, parent, l, st.cache);
    MarksCheck(env, parent, env.auths[l], st1, depth + 1, Some(l));
  }

  lemma {:induction false} MarksNested(
    env: Env, parent: map<Level, Option<Level>>, l: Level, st: State, depth: nat, owner: Option<Level>)
    requires depth < env.limit && Unshared(env, parent) && Reached(env, parent, st.cache)
    requires l in env.auths && l in parent && parent[l] == owner && l !in st.cache && !Granted(env, l)
    requires owner.Some? ==> owner.value in st.cache
    ensures var r := Check(env, env.auths[l], st.(cache := st.cache[l := BeingEvaluated]), depth + 1);
            var c := r.st.cache[l := if r.ok then Satisfied else Unsatisfied];
            && Reached(env, parent, c)
            && AddedUnder(parent, st.cache, c, owner)
            && OnlyChild(parent, st.cache, c, owner, AccountFactor(l, 0))
            && (r.ok ==> Sat(Marked(env, r.st.used), env.auths[l], env.limit - (depth + 1)))
    decreases env.limit - depth - 1, 3, 0
  {
    var st1 := st.(cache := st.cache[l := BeingEvaluated]);
    MarksInside(env, parent, l, st, st1, depth);
    var r := Check(env, env.auths[l], st1, depth + 1);
    LeaveAdded(env, parent, l, st.cache, r.st.cache, if r.ok then Satisfied else Unsatisfied, owner);
  }

  lemma TailKeeps(env: Env, parent: map<Level, Option<Level>>, fs: seq<Factor>, owner: Option<Level>)
    requires fs != [] && OwnedBy(env, parent, fs, owner) && DistinctLevels(fs)
    ensures OwnedBy(env, parent, [fs[0]], owner) && OwnedBy(env, parent, fs[1..], owner) && DistinctLevels(fs[1..])
  {
    var rest := fs[1..];
    forall i, j | 0 <= i < j < |rest| && rest[i].AccountFactor? && rest[j].AccountFactor?
      ensures rest[i].level != rest[j].level
    {
      assert fs[i + 1] == rest[i] && fs[j + 1] == rest[j];
    }
  }

  lemma AddedTwice(parent: map<Level, Option<Level>>, c: Cache, c1: Cache, c2: Cache, owner: Option<Level>)
    requires AddedUnder(parent, c, c1, owner) && AddedUnder(parent, c1, c2, owner)
    ensures AddedUnder(parent, c, c2, owner)
  {
  }

  // Keys marked later do not take away what the first factor contributed.
  lemma GainedStep(env: Env, fs: seq<Factor>, used: set<nat>, used': set<nat>, k: nat)
    requires fs != [] && used <= used'
    ensures Gained(Marked(env, used'), fs, k)
         >= (if Holds(Marked(env, used), fs[0], k) then fs[0].weight else 0) + Gained(Marked(env, used'), fs[1..], k)
  {
    if Holds(Marked(env, used), fs[0], k) {
      HoldsGrows(Marked(env, used), Marked(env, used'), fs[0], k, k);
    }
  }

  ghost predicate TallyMarks(
    env: Env, parent: map<Level, Option<Level>>, fs: seq<Factor>, threshold: nat, total: nat, c: Cache, depth: nat,
    owner: Option<Level>, r: Outcome)
    requires depth <= env.limit
  {
    && Reached(env, parent, r.st.cache)
    && AddedUnder(parent, c, r.st.cache, owner)
    && (r.ok ==> fs != [] && total + Gained(Marked(env, r.st.used), fs, env.limit - depth) >= threshold)
  }

  lemma TallyStep(
    env: Env, parent: map<Level, Option<Level>>, fs: seq<Factor>, threshold: nat, total: nat, c: Cache, depth: nat,
    owner: Option<Level>, v: Visited, r: Outcome)
    requires depth <= env.limit && fs != [] && v.st.used <= r.st.used
    requires VisitMarks(env, parent, fs[0], total, c, depth, owner, v)
    requires (v.total >= threshold && r == Outcome(true, v.st))
             || TallyMarks(env, parent, fs[1..], threshold, v.total, v.st.cache, depth, owner, r)
    ensures TallyMarks(env, parent, fs, threshold, total, c, depth, owner, r)
  {
    GainedStep(env, fs, v.st.used, r.st.used, env.limit - depth);
    if TallyMarks(env, parent, fs[1..], threshold, v.total, v.st.cache, depth, owner, r) {
      AddedTwice(parent, c, v.st.cache, r.st.cache, owner);
    }
  }

  lemma {:induction false} MarksTally(
    env: Env, parent: map<Level, Option<Level>>, fs: seq<Factor>, threshold: nat, total: nat, st: State, depth: nat,
    owner: Option<Level>)
    requires depth <= env.limit && Unshared(env, parent) && Reached(env, parent, st.cache)
    requires OwnedBy(env, parent, fs, owner) && (owner.Some? ==> owner.value in st.cache) && Fresh(env, fs, st.cache)
    requires DistinctLevels(fs)
    ensures TallyMarks(env, parent, fs, threshold, total, st.cache, depth, owner, Tally(env, fs, threshold, total, st, depth))
    decreases env.limit - depth, 0, |fs|
  {
    if fs != [] {
      TailKeeps(env, parent, fs, owner);
      MarksVisit(env, parent, fs[0], total, st, depth, owner);
      var v := Visit(env, fs[0], total, st, depth);
      var r := Tally(env, fs, threshold, total, st, depth);
      if v.total < threshold {
        FreshAfter(env, parent, fs, st.cache, v.st.cache, owner);
        MarksTally(env, parent, fs[1..], threshold, v.total, v.st, depth, owner);
        UsedGrowsTally(env, fs[1..], threshold, v.total, v.st, depth);
      }
      TallyStep(env, parent, fs, threshold, total, st.cache, depth, owner, v, r);
    }
  }

  lemma {:induction false} MarksCheck(
    env: Env, parent: map<Level, Option<Level>>, auth: Authority, st: State, depth: nat, owner: Option<Level>)
    requires depth <= env.limit && Unshared(env, parent) && Reached(env, parent, st.cache)
    requires OwnedBy(env, parent, FactorsOf(auth), owner) && (owner.Some? ==> owner.value in st.cache)
    requires Fresh(env, Ordered(auth), st.cache) && DistinctLevels(Ordered(auth))
    ensures var r := Check(env, auth, st, depth);
            && Reached(env, parent, r.st.cache)
            && AddedUnder(parent, st.cache, r.st.cache, owner)
            && (r.ok ==> Sat(Marked(env, r.st.used), auth, env.limit - depth))
    decreases env.limit - depth, 1, 0
  {
    var r := Check(env, auth, st, depth);
    GainedOrdered(Marked(env, r.st.used), auth, env.limit - depth);
    MarksTally(env, parent, Ordered(auth), auth.threshold, 0, st, depth, owner);
  }

  /** After an acceptance the keys marked as used satisfy the authority by themselves, within the
      depth limit, whenever no permission reachable from it is referred to twice. */
  lemma MarksSuffice(env: Env, parent: map<Level, Option<Level>>, auth: Authority, used: set<nat>)
    requires Unshared(env, parent) && OwnedBy(env, parent, FactorsOf(auth), None) && DistinctLevels(Ordered(auth))
    ensures var r := Query(env, auth, used);
            r.ok ==> Sat(Marked(env, r.st.used), auth, env.limit)
  {
    MarksCheck(env, parent, auth, State(InitialCache(env), used), 0, None);
  }
}
