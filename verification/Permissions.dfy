/** The permissions of accounts, each with a parent, and the links from actions to the permission they
    need (authorization_manager.cpp, eosio_contract.cpp, permission_object.hpp). */
module Permissions {
  import opened Options

  // Names are numbers; 0 is the empty name.
  const OWNER: nat := 1
  const ACTIVE: nat := 2
  const ANY: nat := 3 // eosio.any

  datatype Permission = Permission(parent: nat, owner: nat, name: nat)

  datatype LinkKey = LinkKey(account: nat, code: nat, message: nat)

  // Permissions by id; ids are handed out in order, and id 0 is taken by a dummy without a parent.
  datatype Tables = Tables(
    accounts: set<nat>,
    perms: map<nat, Permission>,
    nextId: nat,
    links: map<LinkKey, nat>)

  const START := Tables({}, map[0 := Permission(0, 0, 0)], 1, map[])

  predicate Is(p: Permission, owner: nat, name: nat) {
    p.owner == owner && p.name == name
  }

  predicate Exists(perms: map<nat, Permission>, owner: nat, name: nat) {
    exists i :: i in perms && Is(perms[i], owner, name)
  }

  // find_permission: there is at most one of that owner and name.
  ghost function Find(perms: map<nat, Permission>, owner: nat, name: nat): nat
    requires Exists(perms, owner, name)
    ensures Find(perms, owner, name) in perms && Is(perms[Find(perms, owner, name)], owner, name)
  {
    var i :| i in perms && Is(perms[i], owner, name);
    i
  }

  function Create(t: Tables, owner: nat, name: nat, parent: nat): Tables {
    t.(perms := t.perms[t.nextId := Permission(parent, owner, name)], nextId := t.nextId + 1)
  }

  // A new account gets its owner permission, and the active permission under it.
  function NewAccount(t: Tables, account: nat): Option<Tables> {
    if account == 0 || account in t.accounts then None
    else
      var t1 := Create(t, account, OWNER, 0);
      Some(Create(t1, account, ACTIVE, t.nextId).(accounts := t.accounts + {account}))
  }

  // updateauth; `valid` stands for the checks on the authority itself and on reserved names.
  ghost function Update(t: Tables, account: nat, name: nat, parent: nat, valid: bool): Option<Tables> {
    if name == 0 || name == parent || account !in t.accounts || !valid then None
    else if name == ACTIVE && parent != OWNER then None
    else if (name == OWNER) != (parent == 0) then None
    else if name != OWNER && !Exists(t.perms, account, parent) then None
    else
      var parentId := if name == OWNER then 0 else Find(t.perms, account, parent);
      if Exists(t.perms, account, name) then
        if t.perms[Find(t.perms, account, name)].parent != parentId then None else Some(t)
      else Some(Create(t, account, name, parentId))
  }

  predicate HasChildren(perms: map<nat, Permission>, id: nat) {
    exists i :: i in perms && i != 0 && perms[i].parent == id
  }

  predicate Linked(links: map<LinkKey, nat>, account: nat, name: nat) {
    exists k :: k in links && k.account == account && links[k] == name
  }

  ghost function Delete(t: Tables, account: nat, name: nat): Option<Tables> {
    if name == ACTIVE || name == OWNER || Linked(t.links, account, name) || name == 0 || account == 0
       || !Exists(t.perms, account, name) then None
    else
      var id := Find(t.perms, account, name);
      if HasChildren(t.perms, id) then None else Some(t.(perms := t.perms - {id}))
  }

  // linkauth looks the permission up by its name alone, whichever account it belongs to.
  predicate NameInUse(perms: map<nat, Permission>, name: nat) {
    exists i :: i in perms && perms[i].name == name
  }

  function Link(t: Tables, key: LinkKey, name: nat): Option<Tables> {
    if name == 0 || key.account !in t.accounts || key.code !in t.accounts then None
    else if name != ANY && !NameInUse(t.perms, name) then None
    else if key in t.links && t.links[key] == name then None
    else Some(t.(links := t.links[key := name]))
  }

  function Unlink(t: Tables, key: LinkKey): Option<Tables> {
    if key !in t.links then None else Some(t.(links := t.links - {key}))
  }

  datatype Action =
    | Account(account: nat)
    | UpdateAuth(account: nat, name: nat, parent: nat, valid: bool)
    | DeleteAuth(account: nat, name: nat)
    | LinkAuth(key: LinkKey, name: nat)
    | UnlinkAuth(key: LinkKey)

  ghost function Perform(t: Tables, a: Action): Option<Tables> {
    match a
    case Account(account) => NewAccount(t, account)
    case UpdateAuth(account, name, parent, valid) => Update(t, account, name, parent, valid)
    case DeleteAuth(account, name) => Delete(t, account, name)
    case LinkAuth(key, name) => Link(t, key, name)
    case UnlinkAuth(key) => Unlink(t, key)
  }

  ghost function Next(t: Tables, a: Action): Tables {
    var r := Perform(t, a);
    if r.None? then t else r.value
  }

  ghost function Run(actions: seq<Action>): Tables {
    if actions == [] then START else Next(Run(actions[..|actions| - 1]), actions[|actions| - 1])
  }

  // ---------- what an action needs ----------

  // The link for the action, or else for the contract, or else active; none for eosio.any.
  function MinimumPermission(links: map<LinkKey, nat>, account: nat, code: nat, message: nat): Option<nat> {
    var name :=
      if LinkKey(account, code, message) in links then links[LinkKey(account, code, message)]
      else if LinkKey(account, code, 0) in links then links[LinkKey(account, code, 0)]
      else ACTIVE;
    if name == ANY then None else Some(name)
  }
}
