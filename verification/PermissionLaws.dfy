/** The permissions of every account stay a tree under its owner permission, so that the walk to the
    root ends, and it finds exactly the ancestors. */
module PermissionLaws {
  import opened Options
  import opened Permissions

  // ---------- the tree ----------

  // A parent is older than its children and belongs to the same account; only owner has none.
  ghost predicate GoodAt(t: Tables, i: nat) {
    i in t.perms && i != 0 ==>
      var p := t.perms[i];
      && i < t.nextId && p.owner in t.accounts && p.owner != 0 && p.name != 0
      && p.parent in t.perms && p.parent < i
      && (p.parent == 0 <==> p.name == OWNER)
      && (p.parent != 0 ==> t.perms[p.parent].owner == p.owner)
  }

  ghost predicate Tree(t: Tables) {
    && t.nextId > 0 && 0 in t.perms && t.perms[0] == Permission(0, 0, 0)
    && forall i {:trigger GoodAt(t, i)} :: GoodAt(t, i)
  }

  ghost predicate Unique(perms: map<nat, Permission>) {
    forall i, j :: i in perms && j in perms && Is(perms[i], perms[j].owner, perms[j].name) ==> i == j
  }

  // Every account has an owner and an active permission.
  ghost predicate Rooted(t: Tables) {
    forall a :: a in t.accounts ==> a != 0 && Exists(t.perms, a, OWNER) && Exists(t.perms, a, ACTIVE)
  }

  ghost predicate Sound(t: Tables) {
    Tree(t) && Unique(t.perms) && Rooted(t)
  }

  // ---------- ancestors ----------

  // a is q or an ancestor of q.
  ghost predicate Above(t: Tables, a: nat, q: nat)
    requires Tree(t) && q in t.perms
    decreases q
  {
    assert GoodAt(t, q);
    a == q || (q != 0 && t.perms[q].parent != 0 && Above(t, a, t.perms[q].parent))
  }

  /** Every permission is under the owner permission of its account. */
  lemma {:induction false} UnderOwner(t: Tables, q: nat) returns (r: nat)
    requires Tree(t) && q in t.perms && q != 0
    ensures r in t.perms && Is(t.perms[r], t.perms[q].owner, OWNER) && Above(t, r, q)
    decreases q
  {
    assert GoodAt(t, q);
    if t.perms[q].parent == 0 {
      r := q;
    } else {
      r := UnderOwner(t, t.perms[q].parent);
    }
  }

  // ---------- satisfies ----------

  // The walk up from a permission, as the code does it: two steps at once at the start.
  ghost predicate Climbs(t: Tables, id: nat, at: nat)
    requires Tree(t) && at in t.perms
    decreases at
  {
    assert GoodAt(t, at);
    if id == t.perms[at].parent then true
    else if t.perms[at].parent == 0 then false
    else Climbs(t, id, t.perms[at].parent)
  }

  ghost predicate Satisfies(t: Tables, p: nat, q: nat)
    requires Tree(t) && p in t.perms && q in t.perms
  {
    assert GoodAt(t, q);
    if t.perms[p].owner != t.perms[q].owner then false
    else if p == q || p == t.perms[q].parent then true
    else Climbs(t, p, t.perms[q].parent)
  }

  lemma {:induction false} ClimbsToAbove(t: Tables, id: nat, at: nat)
    requires Tree(t) && at in t.perms && id != 0
    ensures Climbs(t, id, at)
       <==> at != 0 && t.perms[at].parent != 0 && t.perms[at].parent in t.perms && Above(t, id, t.perms[at].parent)
    decreases at
  {
    assert GoodAt(t, at);
    if at != 0 && t.perms[at].parent != 0 {
      assert GoodAt(t, t.perms[at].parent);
      ClimbsToAbove(t, id, t.perms[at].parent);
    }
  }

  lemma {:induction false} AboveSameOwner(t: Tables, a: nat, q: nat)
    requires Tree(t) && q in t.perms && q != 0 && Above(t, a, q)
    ensures a in t.perms && t.perms[a].owner == t.perms[q].owner
    decreases q
  {
    assert GoodAt(t, q);
    if a != q {
      AboveSameOwner(t, a, t.perms[q].parent);
    }
  }

  /** One permission satisfies another exactly when it is that permission or an ancestor of it. */
  lemma {:induction false} SatisfiesIsAbove(t: Tables, p: nat, q: nat)
    requires Tree(t) && p in t.perms && q in t.perms && p != 0 && q != 0
    ensures Satisfies(t, p, q) <==> Above(t, p, q)
  {
    assert GoodAt(t, q) && GoodAt(t, t.perms[q].parent);
    ClimbsToAbove(t, p, t.perms[q].parent);
    if Above(t, p, q) {
      AboveSameOwner(t, p, q);
    }
  }

  // ---------- every action keeps the tree ----------

  lemma {:induction false} CreateTree(t: Tables, owner: nat, name: nat, parent: nat, accounts: set<nat>)
    requires Tree(t) && t.accounts <= accounts && owner in accounts && owner != 0 && name != 0
    requires parent in t.perms && parent < t.nextId && (parent == 0 <==> name == OWNER)
    requires parent != 0 ==> t.perms[parent].owner == owner
    ensures Tree(Create(t, owner, name, parent).(accounts := accounts)) && t.nextId !in t.perms
  {
    var u := Create(t, owner, name, parent).(accounts := accounts);
    assert GoodAt(t, t.nextId);
    forall i ensures GoodAt(u, i) {
      assert GoodAt(t, i);
    }
  }

  lemma {:induction false} CreateUnique(t: Tables, owner: nat, name: nat, parent: nat)
    requires Tree(t) && Unique(t.perms) && !Exists(t.perms, owner, name)
    ensures Unique(Create(t, owner, name, parent).perms)
  {
    var perms := Create(t, owner, name, parent).perms;
    assert GoodAt(t, t.nextId);
    forall i, j | i in perms && j in perms && Is(perms[i], perms[j].owner, perms[j].name) ensures i == j {
    }
  }

  lemma {:induction false} CreateExists(t: Tables, owner: nat, name: nat, parent: nat, o: nat, n: nat)
    requires Tree(t)
    ensures Exists(Create(t, owner, name, parent).perms, o, n) <==> Exists(t.perms, o, n) || (o == owner && n == name)
  {
    var perms := Create(t, owner, name, parent).perms;
    assert GoodAt(t, t.nextId);
    assert Is(perms[t.nextId], owner, name);
    if Exists(t.perms, o, n) {
      var i :| i in t.perms && Is(t.perms[i], o, n);
      assert i in perms && Is(perms[i], o, n);
    }
    if Exists(perms, o, n) {
      var i :| i in perms && Is(perms[i], o, n);
      assert i == t.nextId || (i in t.perms && Is(t.perms[i], o, n));
    }
  }

  lemma {:induction false} NoneYet(t: Tables, account: nat, name: nat)
    requires Tree(t) && account !in t.accounts && account != 0
    ensures !Exists(t.perms, account, name)
  {
    forall i | i in t.perms ensures !Is(t.perms[i], account, name) {
      assert GoodAt(t, i);
    }
  }

  lemma {:induction false} NewAccountTree(t: Tables, account: nat, u: Tables)
    requires Sound(t) && NewAccount(t, account) == Some(u)
    ensures Tree(u)
  {
    var accounts := t.accounts + {account};
    CreateTree(t, account, OWNER, 0, accounts);
    CreateTree(Create(t, account, OWNER, 0).(accounts := accounts), account, ACTIVE, t.nextId, accounts);
    assert u == Create(Create(t, account, OWNER, 0).(accounts := accounts), account, ACTIVE, t.nextId);
  }

  lemma {:induction false} NewAccountKeeps(t: Tables, account: nat, u: Tables)
    requires Sound(t) && NewAccount(t, account) == Some(u)
    ensures Sound(u)
  {
    var t1 := Create(t, account, OWNER, 0).(accounts := t.accounts + {account});
    NewAccountTree(t, account, u);
    CreateTree(t, account, OWNER, 0, t.accounts + {account});
    NoneYet(t, account, OWNER);
    NoneYet(t, account, ACTIVE);
    CreateUnique(t, account, OWNER, 0);
    CreateExists(t, account, OWNER, 0, account, ACTIVE);
    CreateUnique(t1, account, ACTIVE, t.nextId);
    forall a | a in u.accounts ensures a != 0 && Exists(u.perms, a, OWNER) && Exists(u.perms, a, ACTIVE) {
      CreateExists(t, account, OWNER, 0, a, OWNER);
      CreateExists(t, account, OWNER, 0, a, ACTIVE);
      CreateExists(t1, account, ACTIVE, t.nextId, a, OWNER);
      CreateExists(t1, account, ACTIVE, t.nextId, a, ACTIVE);
    }
  }

  lemma {:induction false} UpdateKeeps(t: Tables, account: nat, name: nat, parent: nat, valid: bool, u: Tables)
    requires Sound(t) && Update(t, account, name, parent, valid) == Some(u)
    ensures Sound(u)
  {
    if !Exists(t.perms, account, name) {
      assert name != OWNER;
      var parentId := Find(t.perms, account, parent);
      assert GoodAt(t, parentId);
      CreateTree(t, account, name, parentId, t.accounts);
      CreateUnique(t, account, name, parentId);
      forall a | a in u.accounts ensures a != 0 && Exists(u.perms, a, OWNER) && Exists(u.perms, a, ACTIVE) {
        CreateExists(t, account, name, parentId, a, OWNER);
        CreateExists(t, account, name, parentId, a, ACTIVE);
      }
    }
  }

  lemma {:induction false} DeleteExists(perms: map<nat, Permission>, id: nat, o: nat, n: nat)
    requires Unique(perms) && id in perms && Exists(perms, o, n) && !Is(perms[id], o, n)
    ensures Exists(perms - {id}, o, n)
  {
    var i :| i in perms && Is(perms[i], o, n);
    assert i in perms - {id} && Is((perms - {id})[i], o, n);
  }

  lemma {:induction false} DeleteKeeps(t: Tables, account: nat, name: nat, u: Tables)
    requires Sound(t) && Delete(t, account, name) == Some(u)
    ensures Sound(u)
  {
    var id := Find(t.perms, account, name);
    forall i ensures GoodAt(u, i) {
      assert GoodAt(t, i);
    }
    forall a | a in u.accounts ensures a != 0 && Exists(u.perms, a, OWNER) && Exists(u.perms, a, ACTIVE) {
      DeleteExists(t.perms, id, a, OWNER);
      DeleteExists(t.perms, id, a, ACTIVE);
    }
  }

  lemma {:induction false} LinksKeep(t: Tables, u: Tables)
    requires Sound(t) && u == t.(links := u.links)
    ensures Sound(u)
  {
    forall i ensures GoodAt(u, i) {
      assert GoodAt(t, i);
    }
  }

  lemma {:induction false} NextKeeps(t: Tables, a: Action)
    requires Sound(t)
    ensures Sound(Next(t, a))
  {
    var r := Perform(t, a);
    if r.Some? {
      match a
      case Account(account) => NewAccountKeeps(t, account, r.value);
      case UpdateAuth(account, name, parent, valid) => UpdateKeeps(t, account, name, parent, valid, r.value);
      case DeleteAuth(account, name) => DeleteKeeps(t, account, name, r.value);
      case LinkAuth(key, name) => LinksKeep(t, r.value);
      case UnlinkAuth(key) => LinksKeep(t, r.value);
    }
  }

  /** In every run the permissions of every account are a tree rooted at its owner permission. */
  lemma {:induction false} RunSound(actions: seq<Action>)
    ensures Sound(Run(actions))
    decreases |actions|
  {
    if actions == [] {
      forall i ensures GoodAt(START, i) {
      }
    } else {
      var n := |actions| - 1;
      RunSound(actions[..n]);
      NextKeeps(Run(actions[..n]), actions[n]);
    }
  }

  // ---------- what a declared permission may do ----------

  // The check of one declared level against the permission its action needs.
  ghost predicate Relevant(t: Tables, actor: nat, name: nat, code: nat, message: nat)
    requires Tree(t)
  {
    var min := MinimumPermission(t.links, actor, code, message);
    min.None? || (&& Exists(t.perms, actor, min.value) && Exists(t.perms, actor, name)
                  && Satisfies(t, Find(t.perms, actor, name), Find(t.perms, actor, min.value)))
  }

  /** In every run: a permission may perform an action of its account exactly when it is the one the
      action is linked to, or an ancestor of it. */
  lemma {:induction false} RelevantIsAbove(t: Tables, actor: nat, name: nat, code: nat, message: nat, p: nat, q: nat)
    requires Sound(t) && actor != 0 && p in t.perms && q in t.perms && Is(t.perms[p], actor, name)
    requires MinimumPermission(t.links, actor, code, message) == Some(t.perms[q].name) && t.perms[q].owner == actor
    ensures Relevant(t, actor, name, code, message) <==> Above(t, p, q)
  {
    assert Is(t.perms[q], actor, t.perms[q].name);
    SatisfiesIsAbove(t, p, q);
  }

  // ---------- links that lead nowhere ----------

  // Every link names a permission of its own account.
  ghost predicate LinksResolve(t: Tables) {
    forall k {:trigger t.links[k]} :: k in t.links && t.links[k] != ANY ==> Exists(t.perms, k.account, t.links[k])
  }

  ghost predicate Dangles(t: Tables, a: Action) {
    a.LinkAuth? && a.name != ANY && !Exists(t.perms, a.key.account, a.name)
  }

  lemma {:induction false} CreateResolves(t: Tables, owner: nat, name: nat, parent: nat)
    requires Tree(t) && LinksResolve(t)
    ensures LinksResolve(Create(t, owner, name, parent))
  {
    forall k | k in t.links && t.links[k] != ANY
      ensures Exists(Create(t, owner, name, parent).perms, k.account, t.links[k])
    {
      CreateExists(t, owner, name, parent, k.account, t.links[k]);
    }
  }

  lemma {:induction false} DeleteResolves(t: Tables, account: nat, name: nat, u: Tables)
    requires Sound(t) && LinksResolve(t) && Delete(t, account, name) == Some(u)
    ensures LinksResolve(u)
  {
    var id := Find(t.perms, account, name);
    forall k | k in u.links && u.links[k] != ANY ensures Exists(u.perms, k.account, u.links[k]) {
      assert !(k.account == account && t.links[k] == name);
      DeleteExists(t.perms, id, k.account, t.links[k]);
    }
  }

  /** Deleting never leaves a link behind; it is only linking that can, because the name is looked up
      among the permissions of all accounts. */
  lemma {:induction false} LinksResolveUnless(t: Tables, a: Action)
    requires Sound(t) && LinksResolve(t)
    ensures LinksResolve(Next(t, a)) <==> !(Dangles(t, a) && Perform(t, a).Some?)
  {
    var r := Perform(t, a);
    if r.Some? {
      match a
      case Account(account) =>
        CreateTree(t, account, OWNER, 0, t.accounts + {account});
        CreateResolves(t, account, OWNER, 0);
        CreateResolves(Create(t, account, OWNER, 0).(accounts := t.accounts + {account}), account, ACTIVE, t.nextId);
      case UpdateAuth(account, name, parent, valid) =>
        if !Exists(t.perms, account, name) {
          CreateResolves(t, account, name, if name == OWNER then 0 else Find(t.perms, account, parent));
        }
      case DeleteAuth(account, name) => DeleteResolves(t, account, name, r.value);
      case LinkAuth(key, name) => assert r.value.links[key] == name;
      case UnlinkAuth(key) =>
    }
  }

  // ---------- links in whole runs ----------

  ghost predicate ResolvedAfter(actions: seq<Action>, i: nat)
    requires i <= |actions|
  {
    LinksResolve(Run(actions[..i]))
  }

  ghost predicate DanglesAt(actions: seq<Action>, i: nat)
    requires i < |actions|
  {
    Dangles(Run(actions[..i]), actions[i]) && Perform(Run(actions[..i]), actions[i]).Some?
  }

  lemma {:induction false} ResolvedStep(actions: seq<Action>, i: nat)
    requires i < |actions| && ResolvedAfter(actions, i)
    ensures ResolvedAfter(actions, i + 1) <==> !DanglesAt(actions, i)
  {
    assert actions[..i + 1][..i] == actions[..i];
    RunSound(actions[..i]);
    LinksResolveUnless(Run(actions[..i]), actions[i]);
  }

  lemma {:induction false} ResolvedThrough(actions: seq<Action>, i: nat)
    requires i <= |actions| && forall k :: 0 <= k < |actions| ==> !DanglesAt(actions, k)
    ensures ResolvedAfter(actions, i)
    decreases i
  {
    if i > 0 {
      ResolvedThrough(actions, i - 1);
      ResolvedStep(actions, i - 1);
      assert !DanglesAt(actions, i - 1);
    }
  }

  /** In every run: all links lead to a permission of their account all the time, if and only if no link is
      made to a name that its account does not have. */
  lemma {:induction false} LinksResolveIff(actions: seq<Action>)
    ensures (forall i :: 0 <= i <= |actions| ==> ResolvedAfter(actions, i))
       <==> (forall i :: 0 <= i < |actions| ==> !DanglesAt(actions, i))
  {
    if forall i :: 0 <= i < |actions| ==> !DanglesAt(actions, i) {
      forall i | 0 <= i <= |actions| ensures ResolvedAfter(actions, i) {
        ResolvedThrough(actions, i);
      }
    }
    if forall i :: 0 <= i <= |actions| ==> ResolvedAfter(actions, i) {
      forall i | 0 <= i < |actions| ensures !DanglesAt(actions, i) {
        assert ResolvedAfter(actions, i) && ResolvedAfter(actions, i + 1);
        ResolvedStep(actions, i);
      }
    }
  }
}
