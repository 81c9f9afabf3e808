/** When the keys marked as used satisfy what was accepted, on any graph: unless the evaluation takes an
    acceptance from the cache whose keys were given back with a rejected branch. */
module AuthorityMarks {
  import opened Options
  import opened Authorities
  import opened AuthorityCheck
  import opened AuthorityKeys

  /** What a part of the evaluation that is not given back did: whether it took an acceptance from the
      cache whose keys are not marked, and the permissions accepted whose keys are. */
  datatype Trace = Trace(lost: bool, kept: set<Level>)

  function TraceCheck(env: Env, auth: Authority, st: State, depth: nat, kept: set<Level>): Trace
    requires depth <= env.limit
    decreases env.limit - depth, 1, 0
  {
    if Check(env, auth, st, depth).ok then TraceTally(env, Ordered(auth), auth.threshold, 0, st, depth, kept)
    else Trace(false, kept)
  }

  function TraceTally(
    env: Env, fs: seq<Factor>, threshold: nat, total: nat, st: State, depth: nat, kept: set<Level>): Trace
    requires depth <= env.limit
    decreases env.limit - depth, 0, |fs|
  {
    if fs == [] then Trace(false, kept)
    else
      var v := Visit(env, fs[0], total, st, depth);
      var t := TraceVisit(env, fs[0], st, depth, kept);
      if v.total >= threshold then t
      else
        var r := TraceTally(env, fs[1..], threshold, v.total, v.st, depth, t.kept);
        Trace(t.lost || r.lost, r.kept)
  }

  function TraceVisit(env: Env, f: Factor, st: State, depth: nat, kept: set<Level>): Trace
    requires depth <= env.limit
    decreases env.limit - depth, 0, 0
  {
    if !f.AccountFactor? then Trace(false, kept)
    else
      match StatusOf(st.cache, f.level)
      case Some(status) => Trace(status == Satisfied && !Granted(env, f.level) && f.level !in kept, kept)
      case None =>
        if depth < env.limit && f.level in env.auths then
          var st1 := st.(cache := st.cache[f.level := BeingEvaluated]);
          var t := TraceCheck(env, env.auths[f.level], st1, depth + 1, kept);
          if Check(env, env.auths[f.level], st1, depth + 1).ok then t.(kept := t.kept + {f.level}) else t
        else Trace(false, kept)
  }

  // Acceptances whose keys are marked are justified by the marks within k levels.
  ghost predicate KeptSound(env: Env, kept: set<Level>, used: set<nat>, k: nat) {
    forall l :: l in kept ==> l in env.auths && Sat(Marked(env, used), env.auths[l], k)
  }

  lemma {:induction false} KeptGrows(env: Env, kept: set<Level>, used: set<nat>, used': set<nat>, k: nat, k': nat)
    requires KeptSound(env, kept, used, k) && used <= used' && k <= k'
    ensures KeptSound(env, kept, used', k')
  {
    forall l | l in kept ensures Sat(Marked(env, used'), env.auths[l], k') {
      SatGrows(Marked(env, used), Marked(env, used'), env.auths[l], k, k');
    }
  }

  lemma {:induction false} KeptVisit(
    env: Env, f: Factor, total: nat, st: State, depth: nat, kept: set<Level>, k: nat) returns (k': nat)
    requires depth <= env.limit && KeptSound(env, kept, st.used, k) && !TraceVisit(env, f, st, depth, kept).lost
    ensures var v := Visit(env, f, total, st, depth);
            && k <= k' && KeptSound(env, TraceVisit(env, f, st, depth, kept).kept, v.st.used, k')
            && v.total <= total + (if Holds(Marked(env, v.st.used), f, k') then f.weight else 0)
    decreases env.limit - depth, 0, 0
  {
    k' := k + 1;
    KeptGrows(env, kept, st.used, Visit(env, f, total, st, depth).st.used, k, k') by {
      UsedGrowsVisit(env, f, total, st, depth);
    }
    if f.AccountFactor? && StatusOf(st.cache, f.level).None? && depth < env.limit && f.level in env.auths {
      k' := KeptNested(env, f, st, depth, kept, k);
    }
  }

  lemma {:induction false} KeptNested(env: Env, f: Factor, st: State, depth: nat, kept: set<Level>, k: nat) returns (k': nat)
    requires depth < env.limit && KeptSound(env, kept, st.used, k) && !TraceVisit(env, f, st, depth, kept).lost
    requires f.AccountFactor? && StatusOf(st.cache, f.level).None? && f.level in env.auths
    ensures var r := Check(env, env.auths[f.level], st.(cache := st.cache[f.level := BeingEvaluated]), depth + 1);
            && k <= k' && KeptSound(env, TraceVisit(env, f, st, depth, kept).kept, r.st.used, k')
            && (r.ok ==> Holds(Marked(env, r.st.used), f, k'))
    decreases env.limit - depth - 1, 2, 0
  {
    var st1 := st.(cache := st.cache[f.level := BeingEvaluated]);
    var r := Check(env, env.auths[f.level], st1, depth + 1);
    var k1 := KeptCheck(env, env.auths[f.level], st1, depth + 1, kept, k);
    k' := k1 + 1;
    KeptGrows(env, TraceCheck(env, env.auths[f.level], st1, depth + 1, kept).kept, r.st.used, r.st.used, k1, k');
    if r.ok {
      SatGrows(Marked(env, r.st.used), Marked(env, r.st.used), env.auths[f.level], k1, k');
    }
  }

  lemma {:induction false} KeptTally(
    env: Env, fs: seq<Factor>, threshold: nat, total: nat, st: State, depth: nat, kept: set<Level>, k: nat)
    returns (k': nat)
    requires depth <= env.limit && KeptSound(env, kept, st.used, k)
    requires !TraceTally(env, fs, threshold, total, st, depth, kept).lost
    ensures var r := Tally(env, fs, threshold, total, st, depth);
            && k <= k' && KeptSound(env, TraceTally(env, fs, threshold, total, st, depth, kept).kept, r.st.used, k')
            && (r.ok ==> fs != [] && total + Gained(Marked(env, r.st.used), fs, k') >= threshold)
    decreases env.limit - depth, 0, |fs|
  {
    k' := k;
    if fs != [] {
      var k1 := KeptVisit(env, fs[0], total, st, depth, kept, k);
      var v := Visit(env, fs[0], total, st, depth);
      k' := k1;
      if v.total < threshold {
        k' := KeptTally(env, fs[1..], threshold, v.total, v.st, depth, TraceVisit(env, fs[0], st, depth, kept).kept, k1);
        UsedGrowsTally(env, fs[1..], threshold, v.total, v.st, depth);
      }
      var r := Tally(env, fs, threshold, total, st, depth);
      if Holds(Marked(env, v.st.used), fs[0], k1) {
        HoldsGrows(Marked(env, v.st.used), Marked(env, r.st.used), fs[0], k1, k');
      }
    }
  }

  lemma {:induction false} KeptCheck(env: Env, auth: Authority, st: State, depth: nat, kept: set<Level>, k: nat) returns (k': nat)
    requires depth <= env.limit && KeptSound(env, kept, st.used, k) && !TraceCheck(env, auth, st, depth, kept).lost
    ensures var r := Check(env, auth, st, depth);
            && k <= k' && KeptSound(env, TraceCheck(env, auth, st, depth, kept).kept, r.st.used, k')
            && (r.ok ==> Sat(Marked(env, r.st.used), auth, k'))
    decreases env.limit - depth, 1, 0
  {
    k' := k;
    var r := Check(env, auth, st, depth);
    if r.ok {
      k' := KeptTally(env, Ordered(auth), auth.threshold, 0, st, depth, kept, k);
      GainedOrdered(Marked(env, r.st.used), auth, k');
    }
  }

  // The query takes an acceptance from the cache whose keys were given back.
  predicate Loses(env: Env, auth: Authority, used: set<nat>) {
    TraceCheck(env, auth, State(InitialCache(env), used), 0, {}).lost
  }

  /** On every graph: the used keys alone satisfy what was accepted, unless the query depends on an
      acceptance from the cache whose keys were given back. */
  lemma {:induction false} MarksSufficeUnlessLost(env: Env, auth: Authority, used: set<nat>)
    requires !Loses(env, auth, used)
    ensures Query(env, auth, used).ok ==> exists k :: Sat(Marked(env, Query(env, auth, used).st.used), auth, k)
  {
    var k := KeptCheck(env, auth, State(InitialCache(env), used), 0, {}, 0);
  }

  // ---------- where nothing is shared ----------

  lemma {:induction false} UnsharedVisit(
    env: Env, parent: map<Level, Option<Level>>, f: Factor, st: State, depth: nat, owner: Option<Level>, kept: set<Level>)
    requires depth <= env.limit && Unshared(env, parent) && Reached(env, parent, st.cache)
    requires OwnedBy(env, parent, [f], owner) && (owner.Some? ==> owner.value in st.cache) && Fresh(env, [f], st.cache)
    ensures !TraceVisit(env, f, st, depth, kept).lost
    decreases env.limit - depth, 0, 0
  {
    if f.AccountFactor? {
      var l := f.level;
      assert f in [f];
      if StatusOf(st.cache, l).Some? {
        CachedIsGranted(env, parent, l, st.cache);
      } else if depth < env.limit && l in env.auths {
        EnterFresh(env, parent, l, st.cache);
        UnsharedCheck(env, parent, env.auths[l], st.(cache := st.cache[l := BeingEvaluated]), depth + 1, Some(l), kept);
      }
    }
  }

  lemma {:induction false} UnsharedTally(
    env: Env, parent: map<Level, Option<Level>>, fs: seq<Factor>, threshold: nat, total: nat, st: State, depth: nat,
    owner: Option<Level>, kept: set<Level>)
    requires depth <= env.limit && Unshared(env, parent) && Reached(env, parent, st.cache)
    requires OwnedBy(env, parent, fs, owner) && (owner.Some? ==> owner.value in st.cache) && Fresh(env, fs, st.cache)
    requires DistinctLevels(fs)
    ensures !TraceTally(env, fs, threshold, total, st, depth, kept).lost
    decreases env.limit - depth, 0, |fs|
  {
    if fs != [] {
      TailKeeps(env, parent, fs, owner);
      UnsharedVisit(env, parent, fs[0], st, depth, owner, kept);
      MarksVisit(env, parent, fs[0], total, st, depth, owner);
      var v := Visit(env, fs[0], total, st, depth);
      if v.total < threshold {
        FreshAfter(env, parent, fs, st.cache, v.st.cache, owner);
        UnsharedTally(env, parent, fs[1..], threshold, v.total, v.st, depth, owner, TraceVisit(env, fs[0], st, depth, kept).kept);
      }
    }
  }

  lemma {:induction false} UnsharedCheck(
    env: Env, parent: map<Level, Option<Level>>, auth: Authority, st: State, depth: nat, owner: Option<Level>, kept: set<Level>)
    requires depth <= env.limit && Unshared(env, parent) && Reached(env, parent, st.cache)
    requires OwnedBy(env, parent, FactorsOf(auth), owner) && (owner.Some? ==> owner.value in st.cache)
    requires Fresh(env, Ordered(auth), st.cache) && DistinctLevels(Ordered(auth))
    ensures !TraceCheck(env, auth, st, depth, kept).lost
    decreases env.limit - depth, 1, 0
  {
    GainedOrdered(env, auth, 0);
    UnsharedTally(env, parent, Ordered(auth), auth.threshold, 0, st, depth, owner, kept);
  }

  /** Where no permission is referred to twice nothing is lost. */
  lemma {:induction false} UnsharedNeverLoses(env: Env, parent: map<Level, Option<Level>>, auth: Authority, used: set<nat>)
    requires Unshared(env, parent) && OwnedBy(env, parent, FactorsOf(auth), None) && DistinctLevels(Ordered(auth))
    ensures !Loses(env, auth, used)
  {
    UnsharedCheck(env, parent, auth, State(InitialCache(env), used), 0, None, {});
  }
}
