/** A link to a permission that its account does not have. */
module PermissionExamples {
  import opened Permissions
  import opened PermissionLaws

  // One account has the permission and the other has not.
  ghost predicate OnlyOne(t: Tables, one: nat, other: nat, name: nat) {
    one in t.accounts && other in t.accounts && Exists(t.perms, one, name) && !Exists(t.perms, other, name)
  }

  /** Then the other can link its actions to it, and the link leads nowhere. */
  lemma {:induction false} LinksAnyway(t: Tables, one: nat, other: nat, name: nat, key: LinkKey)
    requires Sound(t) && LinksResolve(t) && OnlyOne(t, one, other, name) && name != 0 && name != ANY
    requires key.account == other && key.code in t.accounts && key !in t.links
    ensures Perform(t, LinkAuth(key, name)).Some? && !LinksResolve(Next(t, LinkAuth(key, name)))
  {
    var i :| i in t.perms && Is(t.perms[i], one, name);
    assert NameInUse(t.perms, name);
    LinksResolveUnless(t, LinkAuth(key, name));
  }

  const ONE: nat := 10
  const OTHER: nat := 11
  const EXTRA: nat := 50

  lemma {:induction false} TwoAccounts(t: Tables)
    requires t == Next(Next(START, Account(ONE)), Account(OTHER))
    ensures t.accounts == {ONE, OTHER} && t.links == map[] && !Exists(t.perms, OTHER, EXTRA) && !Exists(t.perms, ONE, EXTRA)
    ensures Exists(t.perms, ONE, ACTIVE)
  {
    assert Is(t.perms[2], ONE, ACTIVE);
    forall i | i in t.perms ensures t.perms[i].name != EXTRA {
    }
  }

  lemma {:induction false} OneMore(t: Tables, u: Tables)
    requires t.accounts == {ONE, OTHER} && t.links == map[] && !Exists(t.perms, OTHER, EXTRA) && !Exists(t.perms, ONE, EXTRA)
    requires Exists(t.perms, ONE, ACTIVE) && t.nextId !in t.perms && u == Next(t, UpdateAuth(ONE, EXTRA, ACTIVE, true))
    ensures OnlyOne(u, ONE, OTHER, EXTRA) && u.links == map[]
  {
    assert Is(u.perms[t.nextId], ONE, EXTRA);
    forall i | i in u.perms ensures !Is(u.perms[i], OTHER, EXTRA) {
      if i in t.perms {
        assert !Is(t.perms[i], OTHER, EXTRA);
      }
    }
  }

  /** Two accounts are created, one gets a permission, and the other links its own actions to it. */
  lemma {:induction false} DanglingLink(actions: seq<Action>)
    requires actions == [
      Account(ONE), Account(OTHER), UpdateAuth(ONE, EXTRA, ACTIVE, true), LinkAuth(LinkKey(OTHER, OTHER, 0), EXTRA)]
    ensures !LinksResolve(Run(actions))
  {
    var first := actions[..2];
    assert first[..1] == [Account(ONE)] && [Account(ONE)][..0] == [];
    assert Run([Account(ONE)]) == Next(START, Account(ONE));
    assert Run(first) == Next(Run(first[..1]), Account(OTHER));
    var t, u := Run(first), Run(actions[..3]);
    assert actions[..3][..2] == first;
    TwoAccounts(t);
    RunSound(first);
    assert GoodAt(t, t.nextId);
    RunSound(actions[..3]);
    OneMore(t, u);
    LinksAnyway(u, ONE, OTHER, EXTRA, LinkKey(OTHER, OTHER, 0));
  }
}
