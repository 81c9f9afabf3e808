/** The permission tables as the native actions update them in place, and the walk up a permission's
    ancestors. */
module PermissionStore {
  import opened Permissions
  import opened PermissionLaws

  class Store {
    var accounts: set<nat>
    var perms: map<nat, Permission>
    var nextId: nat
    var links: map<LinkKey, nat>

    constructor ()
      ensures View() == START && Valid()
    {
      accounts, perms, nextId, links := {}, map[0 := Permission(0, 0, 0)], 1, map[];
      new;
      RunSound([]);
    }

    function View(): Tables
      reads this
    {
      Tables(accounts, perms, nextId, links)
    }

    ghost predicate Valid()
      reads this
    {
      Sound(View())
    }

    // find_permission: the id, or 0 if there is none.
    method FindPermission(owner: nat, name: nat) returns (id: nat)
      requires Valid() && owner != 0
      ensures id == if Exists(perms, owner, name) then Find(perms, owner, name) else 0
    {
      var todo := perms.Keys;
      while todo != {}
        invariant todo <= perms.Keys && forall i :: i in perms && i !in todo ==> !Is(perms[i], owner, name)
      {
        var i :| i in todo;
        if perms[i].owner == owner && perms[i].name == name {
          assert Is(perms[i], owner, name);
          return i;
        }
        todo := todo - {i};
      }
      id := 0;
    }

    // permission_object::satisfies
    method SatisfiesPermission(p: nat, q: nat) returns (ok: bool)
      requires Valid() && p in perms && q in perms && p != 0 && q != 0
      ensures ok <==> Above(View(), p, q)
    {
      ghost var t := View();
      SatisfiesIsAbove(t, p, q);
      if perms[p].owner != perms[q].owner {
        return false;
      }
      if p == q || p == perms[q].parent {
        return true;
      }
      assert GoodAt(t, q);
      var at := perms[q].parent;
      while true
        invariant at in perms && (Climbs(t, p, at) <==> Satisfies(t, p, q))
        decreases at
      {
        assert GoodAt(t, at);
        if p == perms[at].parent {
          return true;
        }
        if perms[at].parent == 0 {
          return false;
        }
        at := perms[at].parent;
      }
    }

    method CreatePermission(owner: nat, name: nat, parent: nat)
      modifies this
      ensures View() == Create(old(View()), owner, name, parent)
    {
      perms := perms[nextId := Permission(parent, owner, name)];
      nextId := nextId + 1;
    }

    method CreateAccount(account: nat) returns (ok: bool)
      requires Valid()
      modifies this
      ensures Valid() && (ok <==> NewAccount(old(View()), account).Some?)
      ensures View() == if ok then NewAccount(old(View()), account).value else old(View())
    {
      if account == 0 || account in accounts {
        return false;
      }
      ghost var t := View();
      var ownerId := nextId;
      CreatePermission(account, OWNER, 0);
      CreatePermission(account, ACTIVE, ownerId);
      accounts := accounts + {account};
      ok := true;
      NewAccountKeeps(t, account, View());
    }

    method UpdatePermission(account: nat, name: nat, parent: nat, valid: bool) returns (ok: bool)
      requires Valid()
      modifies this
      ensures Valid() && (ok <==> Update(old(View()), account, name, parent, valid).Some?)
      ensures View() == if ok then Update(old(View()), account, name, parent, valid).value else old(View())
    {
      if name == 0 || name == parent || account !in accounts || !valid {
        return false;
      }
      if name == ACTIVE && parent != OWNER {
        return false;
      }
      if (name == OWNER && parent != 0) || (name != OWNER && parent == 0) {
        return false;
      }
      ghost var t := View();
      var id := FindPermission(account, name);
      var parentId := 0;
      if name != OWNER {
        parentId := FindPermission(account, parent);
        if parentId == 0 {
          return false;
        }
      }
      if id != 0 {
        if parentId != perms[id].parent {
          return false;
        }
      } else {
        CreatePermission(account, name, parentId);
      }
      ok := true;
      UpdateKeeps(t, account, name, parent, valid, View());
    }

    method DeletePermission(account: nat, name: nat) returns (ok: bool)
      requires Valid()
      modifies this
      ensures Valid() && (ok <==> Delete(old(View()), account, name).Some?)
      ensures View() == if ok then Delete(old(View()), account, name).value else old(View())
    {
      if name == ACTIVE || name == OWNER || Linked(links, account, name) || name == 0 || account == 0 {
        return false;
      }
      ghost var t := View();
      var id := FindPermission(account, name);
      if id == 0 || HasChildren(perms, id) {
        return false;
      }
      perms := perms - {id};
      ok := true;
      DeleteKeeps(t, account, name, View());
    }
  }
}
