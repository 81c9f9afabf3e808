/** Multisig proposals (eosio.msig.cpp): levels are asked to approve a transaction, approve and take
    it back, and whoever executes it has the approvals checked against the permissions in force then. */
module Multisig {
  import opened Options
  import opened Authorities
  import opened AuthorityCheck

  // Of a transaction matter when it expires, its delay, and the levels its actions declare.
  datatype Transaction = Transaction(expiration: nat, delay: nat, declared: seq<Level>)

  datatype Key = Key(proposer: nat, name: nat)
  datatype Approvals = Approvals(requested: seq<Level>, provided: seq<Level>)

  // The two tables, and the transactions sent off.
  datatype Tables = Tables(
    proposals: map<Key, Transaction>,
    approvals: map<Key, Approvals>,
    sent: seq<Transaction>)

  // The permissions and the depth limit at the time of an action.
  datatype World = World(auths: map<Level, Authority>, limit: nat, now: nat)

  function EnvFor(w: World, trx: Transaction, granted: seq<Level>): Env {
    Env({}, (set l | l in granted), trx.delay, w.auths, w.limit)
  }

  // authority_checker::satisfied for one level
  predicate LevelSatisfied(env: Env, l: Level) {
    Visit(env, AccountFactor(l, 1), 0, State(InitialCache(env), {}), 0).total > 0
  }

  // check_transaction_authorization, with approved levels and no keys
  predicate Authorized(w: World, trx: Transaction, granted: seq<Level>) {
    forall l :: l in trx.declared ==> LevelSatisfied(EnvFor(w, trx, granted), l)
  }

  // The first occurrence is taken out.
  function Without(s: seq<Level>, l: Level): seq<Level> {
    if s == [] then [] else if s[0] == l then s[1..] else [s[0]] + Without(s[1..], l)
  }

  function Propose(t: Tables, w: World, key: Key, requested: seq<Level>, trx: Transaction): Option<Tables> {
    if trx.expiration < w.now || key in t.proposals || !Authorized(w, trx, requested) then None
    else
      Some(t.(proposals := t.proposals[key := trx], approvals := t.approvals[key := Approvals(requested, [])]))
  }

  function Approve(t: Tables, key: Key, l: Level): Option<Tables> {
    if key !in t.approvals || l !in t.approvals[key].requested then None
    else
      var a := t.approvals[key];
      Some(t.(approvals := t.approvals[key := Approvals(Without(a.requested, l), a.provided + [l])]))
  }

  function Unapprove(t: Tables, key: Key, l: Level): Option<Tables> {
    if key !in t.approvals || l !in t.approvals[key].provided then None
    else
      var a := t.approvals[key];
      Some(t.(approvals := t.approvals[key := Approvals(a.requested + [l], Without(a.provided, l))]))
  }

  // Others than the proposer have to wait until the transaction expired.
  function Cancel(t: Tables, w: World, key: Key, canceler: nat): Option<Tables> {
    if key !in t.proposals || (canceler != key.proposer && t.proposals[key].expiration >= w.now) || key !in t.approvals then None
    else Some(t.(proposals := t.proposals - {key}, approvals := t.approvals - {key}))
  }

  function Exec(t: Tables, w: World, key: Key): Option<Tables> {
    if key !in t.proposals || key !in t.approvals || t.proposals[key].expiration < w.now
       || !Authorized(w, t.proposals[key], t.approvals[key].provided) then None
    else
      Some(Tables(t.proposals - {key}, t.approvals - {key}, t.sent + [t.proposals[key]]))
  }

  datatype Action =
    | Proposing(key: Key, requested: seq<Level>, trx: Transaction)
    | Approving(key: Key, level: Level)
    | Unapproving(key: Key, level: Level)
    | Cancelling(key: Key, canceler: nat)
    | Executing(key: Key)

  datatype Step = Step(action: Action, world: World)

  function Perform(t: Tables, s: Step): Option<Tables> {
    match s.action
    case Proposing(key, requested, trx) => Propose(t, s.world, key, requested, trx)
    case Approving(key, level) => Approve(t, key, level)
    case Unapproving(key, level) => Unapprove(t, key, level)
    case Cancelling(key, canceler) => Cancel(t, s.world, key, canceler)
    case Executing(key) => Exec(t, s.world, key)
  }

  function Next(t: Tables, s: Step): Tables {
    var r := Perform(t, s);
    if r.None? then t else r.value
  }

  const EMPTY := Tables(map[], map[], [])

  function Run(steps: seq<Step>): Tables {
    if steps == [] then EMPTY else Next(Run(steps[..|steps| - 1]), steps[|steps| - 1])
  }

  // ---------- the votes cast ----------

  /** What was asked for when the open proposal was made, and the last vote of each level since. */
  datatype History = History(asked: seq<Level>, votes: map<Level, bool>)

  function NextHistory(h: map<Key, History>, t: Tables, s: Step): map<Key, History> {
    if Perform(t, s).None? then h
    else
      match s.action
      case Proposing(key, requested, _) => h[key := History(requested, map[])]
      case Approving(key, level) =>
        if key in h then h[key := h[key].(votes := h[key].votes[level := true])] else h
      case Unapproving(key, level) =>
        if key in h then h[key := h[key].(votes := h[key].votes[level := false])] else h
      case Cancelling(key, _) => h - {key}
      case Executing(key) => h - {key}
  }

  function Histories(steps: seq<Step>): map<Key, History> {
    if steps == [] then map[]
    else
      var front := steps[..|steps| - 1];
      NextHistory(Histories(front), Run(front), steps[|steps| - 1])
  }

  // The levels asked whose last vote was to approve.
  predicate Approves(h: History, l: Level) {
    l in h.asked && l in h.votes && h.votes[l]
  }
}
