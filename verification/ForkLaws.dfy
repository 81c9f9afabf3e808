/** In every run each block carries the number of the latest block it builds on, itself included,
    that more than two thirds of its producers confirmed. */
module ForkLaws {
  import opened Options
  import opened Forks

  // ---------- the reference: the latest block with a quorum ----------

  function All(f: Forks): map<nat, Block> {
    f.past + f.index
  }

  function LatestQuorum(ids: Ids, all: map<nat, Block>, x: nat): nat
    requires Linked(ids)
    decreases ids.num(x)
  {
    if x !in all then 0
    else if HasQuorum(all[x]) then ids.num(x)
    else if x == ids.root || ids.num(x) == 0 then 0
    else LatestQuorum(ids, all, ids.previous(x))
  }

  // It is the largest number of a block with a quorum that x is or builds on, and zero if there is none.
  ghost predicate IsLargestQuorum(ids: Ids, all: map<nat, Block>, x: nat, n: nat)
    requires Linked(ids)
  {
    && (forall a :: a in all && Under(ids, x, a) && HasQuorum(all[a]) ==> ids.num(a) <= n)
    && (n == 0 || exists a :: a in all && Under(ids, x, a) && HasQuorum(all[a]) && ids.num(a) == n)
  }

  // ---------- the invariant ----------

  ghost predicate Distinct(s: seq<nat>) {
    forall i, j :: 0 <= i < j < |s| ==> s[i] != s[j]
  }

  ghost predicate GoodBlock(b: Block) {
    Distinct(b.confirmed) && forall p :: p in b.confirmed ==> p in b.producers
  }

  ghost predicate Rooted(ids: Ids, f: Forks) {
    && f.index.Keys !! f.past.Keys
    && (forall x :: x in f.index ==> x == ids.root || ids.previous(x) in f.index || ids.previous(x) in f.past)
    && (forall x :: x in f.past ==> x == ids.root || ids.previous(x) in f.past)
    && (forall x :: x in f.index || x in f.past ==> ids.num(x) >= ids.num(ids.root))
    && (forall p, x :: p in f.past && x in f.index ==> ids.num(p) < ids.num(x))
  }

  // A block carries its own number once it has its quorum, and that of the previous block before.
  ghost predicate Carries(ids: Ids, all: map<nat, Block>, x: nat)
    requires x in all
  {
    all[x].bft == if HasQuorum(all[x]) then ids.num(x)
                  else if x == ids.root || ids.previous(x) !in all then 0
                  else all[ids.previous(x)].bft
  }

  ghost predicate GoodBlocks(ids: Ids, all: map<nat, Block>) {
    forall x {:trigger Carries(ids, all, x)} :: x in all ==> GoodBlock(all[x]) && Carries(ids, all, x)
  }

  ghost predicate Sound(ids: Ids, f: Forks) {
    Rooted(ids, f) && GoodBlocks(ids, All(f))
  }

  ghost predicate Closed(ids: Ids, all: map<nat, Block>) {
    forall x {:trigger all[x]} :: x in all ==> x == ids.root || ids.previous(x) in all
  }

  lemma {:induction false} RootedCloses(ids: Ids, f: Forks)
    requires Rooted(ids, f)
    ensures Closed(ids, All(f))
  {
  }

  lemma {:induction false} CarriesLatest(ids: Ids, f: Forks, x: nat)
    requires Linked(ids) && Sound(ids, f) && x in All(f)
    ensures All(f)[x].bft == LatestQuorum(ids, All(f), x) <= ids.num(x)
    decreases ids.num(x)
  {
    var all := All(f);
    assert Carries(ids, all, x);
    if !HasQuorum(all[x]) && x != ids.root {
      CarriesLatest(ids, f, ids.previous(x));
    }
  }

  // ---------- the latest is the largest ----------

  lemma {:induction false} UnderNum(ids: Ids, x: nat, a: nat)
    requires Linked(ids) && Under(ids, x, a)
    ensures x == a || ids.num(a) < ids.num(x)
  {
  }

  lemma {:induction false} LatestBounds(ids: Ids, f: Forks, x: nat, a: nat)
    requires Linked(ids) && Rooted(ids, f) && x in All(f) && a in All(f) && Under(ids, x, a) && HasQuorum(All(f)[a])
    ensures ids.num(a) <= LatestQuorum(ids, All(f), x)
    decreases ids.num(x)
  {
    UnderNum(ids, x, a);
    if x != a && !HasQuorum(All(f)[x]) {
      LatestBounds(ids, f, ids.previous(x), a);
    }
  }

  lemma {:induction false} LatestFound(ids: Ids, f: Forks, x: nat) returns (a: nat)
    requires Linked(ids) && Rooted(ids, f) && x in All(f) && LatestQuorum(ids, All(f), x) > 0
    ensures a in All(f) && Under(ids, x, a) && HasQuorum(All(f)[a]) && ids.num(a) == LatestQuorum(ids, All(f), x)
    decreases ids.num(x)
  {
    if HasQuorum(All(f)[x]) {
      a := x;
    } else {
      a := LatestFound(ids, f, ids.previous(x));
      UnderNum(ids, ids.previous(x), a);
    }
  }

  lemma {:induction false} LatestIsLargest(ids: Ids, f: Forks, x: nat)
    requires Linked(ids) && Sound(ids, f) && x in All(f)
    ensures IsLargestQuorum(ids, All(f), x, All(f)[x].bft)
  {
    CarriesLatest(ids, f, x);
    var all := All(f);
    forall a | a in all && Under(ids, x, a) && HasQuorum(all[a]) ensures ids.num(a) <= all[x].bft {
      LatestBounds(ids, f, x, a);
    }
    if all[x].bft > 0 {
      var a := LatestFound(ids, f, x);
    }
  }

  // ---------- each event keeps it ----------

  lemma {:induction false} AddCarries(ids: Ids, all: map<nat, Block>, id: nat, b: Block)
    requires GoodBlocks(ids, all) && Closed(ids, all) && id !in all && id != ids.root && ids.previous(id) in all
    requires b.confirmed == [] && b.bft == all[ids.previous(id)].bft
    ensures GoodBlocks(ids, all[id := b])
  {
    var more := all[id := b];
    forall x | x in more ensures GoodBlock(more[x]) && Carries(ids, more, x) {
      if x != id {
        assert more[x] == all[x] && Carries(ids, all, x);
      }
    }
  }

  lemma {:induction false} AddRooted(ids: Ids, f: Forks, id: nat, producers: seq<nat>, g: Forks)
    requires Linked(ids) && Rooted(ids, f) && AddBlock(ids, f, id, producers) == Some(g)
    ensures Rooted(ids, g) && id !in f.past && id != ids.root && All(g) == All(f)[id := g.index[id]]
    ensures All(f)[ids.previous(id)] == f.index[ids.previous(id)]
  {
    assert id !in f.past;
    assert id != ids.root by {
      assert ids.previous(id) in f.index;
    }
  }

  lemma {:induction false} AddKeeps(ids: Ids, f: Forks, id: nat, producers: seq<nat>, g: Forks)
    requires Linked(ids) && Sound(ids, f) && AddBlock(ids, f, id, producers) == Some(g)
    ensures Sound(ids, g)
  {
    AddRooted(ids, f, id, producers, g);
    RootedCloses(ids, f);
    AddCarries(ids, All(f), id, g.index[id]);
  }

  lemma {:induction false} RootedSame(ids: Ids, f: Forks, g: Forks)
    requires Rooted(ids, f) && g.index.Keys == f.index.Keys && g.past.Keys == f.past.Keys
    ensures Rooted(ids, g)
  {
    assert forall x :: x in g.index <==> x in f.index;
    assert forall x :: x in g.past <==> x in f.past;
  }

  lemma {:induction false} ConfirmCarries(ids: Ids, all: map<nat, Block>, id: nat, b: Block)
    requires GoodBlocks(ids, all) && id in all
    requires b == all[id].(confirmed := b.confirmed) && GoodBlock(b) && (HasQuorum(b) <==> HasQuorum(all[id]))
    ensures GoodBlocks(ids, all[id := b])
  {
    var changed := all[id := b];
    forall x | x in changed ensures GoodBlock(changed[x]) && Carries(ids, changed, x) {
      assert Carries(ids, all, x) && GoodBlock(all[x]);
    }
  }

  lemma {:induction false} UnderStep(ids: Ids, x: nat, id: nat)
    requires Linked(ids) && ids.num(x) > 0
    ensures Under(ids, ids.previous(x), id) ==> Under(ids, x, id)
  {
    if Under(ids, ids.previous(x), id) {
      UnderNum(ids, ids.previous(x), id);
    }
  }

  // A block under another that is in the database is reached through blocks in the database.
  lemma {:induction false} PreviousStays(ids: Ids, f: Forks, x: nat, id: nat)
    requires Linked(ids) && Rooted(ids, f) && id in f.index && x in f.index && x != id && Under(ids, x, id)
    ensures ids.previous(x) in f.index && Under(ids, ids.previous(x), id) && x != ids.root
  {
    UnderNum(ids, ids.previous(x), id);
  }

  lemma {:induction false} RaisedCarries(ids: Ids, f: Forks, id: nat, b: Block, g: Forks, x: nat)
    requires Linked(ids) && Sound(ids, f) && id in f.index && x in All(g)
    requires b == f.index[id].(confirmed := b.confirmed) && GoodBlock(b) && HasQuorum(b) && b.bft < ids.num(id)
    requires g == f.(index := SetIrreversible(ids, f.index[id := b], id))
    ensures GoodBlock(All(g)[x]) && Carries(ids, All(g), x)
  {
    assert Carries(ids, All(f), x) && GoodBlock(All(f)[x]);
    CarriesLatest(ids, f, x);
    if x in f.index && Under(ids, x, id) {
      UnderNum(ids, x, id);
      if x != id {
        PreviousStays(ids, f, x, id);
      }
    } else {
      UnderStep(ids, x, id);
    }
  }

  lemma {:induction false} QuorumReached(ids: Ids, f: Forks, id: nat, b: Block, g: Forks)
    requires Linked(ids) && Sound(ids, f) && id in f.index
    requires b == f.index[id].(confirmed := b.confirmed) && GoodBlock(b) && HasQuorum(b) && b.bft < ids.num(id)
    requires g == f.(index := SetIrreversible(ids, f.index[id := b], id))
    ensures Sound(ids, g)
  {
    RootedSame(ids, f, g);
    forall x | x in All(g) ensures GoodBlock(All(g)[x]) && Carries(ids, All(g), x) {
      RaisedCarries(ids, f, id, b, g, x);
    }
  }

  lemma {:induction false} CarriesOwn(ids: Ids, f: Forks, id: nat)
    requires Linked(ids) && Sound(ids, f) && id in f.index
    ensures HasQuorum(f.index[id]) <==> f.index[id].bft >= ids.num(id)
  {
    assert All(f)[id] == f.index[id] && Carries(ids, All(f), id);
    if !HasQuorum(f.index[id]) && id != ids.root {
      RootedCloses(ids, f);
      CarriesLatest(ids, f, ids.previous(id));
    }
  }

  lemma {:induction false} QuorumNotReached(ids: Ids, f: Forks, id: nat, b: Block, g: Forks)
    requires Linked(ids) && Sound(ids, f) && id in f.index && g == f.(index := f.index[id := b])
    requires b == f.index[id].(confirmed := b.confirmed) && GoodBlock(b) && (HasQuorum(f.index[id]) <==> HasQuorum(b))
    ensures Sound(ids, g)
  {
    RootedSame(ids, f, g);
    assert All(g) == All(f)[id := b];
    ConfirmCarries(ids, All(f), id, b);
  }

  lemma {:induction false} ConfirmKeeps(ids: Ids, f: Forks, id: nat, producer: nat, signed: bool, g: Forks)
    requires Linked(ids) && Sound(ids, f) && Confirm(ids, f, id, producer, signed) == Some(g)
    ensures Sound(ids, g)
  {
    var b := f.index[id].(confirmed := f.index[id].confirmed + [producer]);
    assert GoodBlock(b) by {
      assert Carries(ids, All(f), id) && All(f)[id] == f.index[id];
    }
    CarriesOwn(ids, f, id);
    if b.bft < ids.num(id) && HasQuorum(b) {
      QuorumReached(ids, f, id, b, g);
    } else {
      QuorumNotReached(ids, f, id, b, g);
    }
  }

  // Blocks leave together with all that builds on them, or become part of the past.
  lemma {:induction false} FewerCarry(ids: Ids, all: map<nat, Block>, fewer: map<nat, Block>)
    requires GoodBlocks(ids, all) && Closed(ids, fewer) && fewer.Keys <= all.Keys
    requires forall x {:trigger fewer[x]} :: x in fewer ==> fewer[x] == all[x]
    ensures GoodBlocks(ids, fewer)
  {
    forall x | x in fewer ensures GoodBlock(fewer[x]) && Carries(ids, fewer, x) {
      assert Carries(ids, all, x);
    }
  }

  lemma {:induction false} RemoveRooted(ids: Ids, f: Forks, id: nat, g: Forks)
    requires Linked(ids) && Rooted(ids, f) && id in f.index && g == f.(index := Without(ids, f.index, id))
    ensures Rooted(ids, g)
  {
    forall x | x in g.index ensures x == ids.root || ids.previous(x) in g.index || ids.previous(x) in g.past {
      UnderStep(ids, x, id);
    }
  }

  lemma {:induction false} RemoveKeeps(ids: Ids, f: Forks, id: nat, g: Forks)
    requires Linked(ids) && Sound(ids, f) && id in f.index && g == f.(index := Without(ids, f.index, id))
    ensures Sound(ids, g)
  {
    RemoveRooted(ids, f, id, g);
    RootedCloses(ids, g);
    FewerCarry(ids, All(f), All(g));
  }

  lemma {:induction false} OutlivedStep(ids: Ids, index: map<nat, Block>, h: nat, x: nat)
    requires Linked(ids) && ids.num(x) > 0 && Outlived(ids, index, h, ids.previous(x))
    ensures Outlived(ids, index, h, x)
  {
    var s :| s in index && Rival(ids, index, h, s) && Under(ids, ids.previous(x), s);
    UnderStep(ids, x, s);
  }

  lemma {:induction false} PruneRooted(ids: Ids, f: Forks, h: nat, g: Forks)
    requires Linked(ids) && Rooted(ids, f) && Prune(ids, f, h) == Some(g)
    ensures Rooted(ids, g)
  {
    forall x | x in g.index
      ensures ids.num(h) < ids.num(x)
      ensures x == ids.root || ids.previous(x) in g.index || ids.previous(x) in g.past
    {
      assert ids.num(x) == ids.num(h) ==> Rival(ids, f.index, h, x) && Under(ids, x, x);
      if Outlived(ids, f.index, h, ids.previous(x)) {
        OutlivedStep(ids, f.index, h, x);
      }
    }
  }

  lemma {:induction false} PruneAll(ids: Ids, f: Forks, h: nat, g: Forks)
    requires Linked(ids) && f.index.Keys !! f.past.Keys && Prune(ids, f, h) == Some(g)
    ensures All(g).Keys <= All(f).Keys
    ensures forall x {:trigger All(g)[x]} :: x in All(g) ==> All(g)[x] == All(f)[x]
  {
    forall x | x in All(g) ensures x in All(f) && All(g)[x] == All(f)[x] {
      assert x in g.index ==> g.index[x] == f.index[x];
    }
  }

  lemma {:induction false} PruneKeeps(ids: Ids, f: Forks, h: nat, g: Forks)
    requires Linked(ids) && Sound(ids, f) && Prune(ids, f, h) == Some(g)
    ensures Sound(ids, g)
  {
    PruneRooted(ids, f, h, g);
    RootedCloses(ids, g);
    PruneAll(ids, f, h, g);
    FewerCarry(ids, All(f), All(g));
  }

  lemma {:induction false} NextKeeps(ids: Ids, f: Forks, e: Event)
    requires Linked(ids) && Sound(ids, f)
    ensures Sound(ids, Next(ids, f, e))
  {
    var g := Next(ids, f, e);
    match e
    case Added(id, producers) =>
      if AddBlock(ids, f, id, producers).Some? { AddKeeps(ids, f, id, producers, g); }
    case Confirmed(id, producer, signed) =>
      if Confirm(ids, f, id, producer, signed).Some? { ConfirmKeeps(ids, f, id, producer, signed, g); }
    case Removed(id) =>
      if id in f.index { RemoveKeeps(ids, f, id, g); }
    case Pruned(id) =>
      if Prune(ids, f, id).Some? { PruneKeeps(ids, f, id, g); }
  }

  lemma {:induction false} StartSound(ids: Ids, producers: seq<nat>)
    requires Linked(ids)
    ensures Sound(ids, Start(ids, producers))
  {
    var all := All(Start(ids, producers));
    forall x | x in all ensures GoodBlock(all[x]) && Carries(ids, all, x) {
    }
  }

  lemma {:induction false} RunSound(ids: Ids, producers: seq<nat>, events: seq<Event>)
    requires Linked(ids)
    ensures Sound(ids, Run(ids, producers, events))
    decreases |events|
  {
    if events == [] {
      StartSound(ids, producers);
    } else {
      var n := |events| - 1;
      RunSound(ids, producers, events[..n]);
      NextKeeps(ids, Run(ids, producers, events[..n]), events[n]);
    }
  }

  // ---------- what it means ----------

  /** In every run the irreversible number a block carries is the largest number of a block with a
      quorum that it is or builds on, and zero if there is none. */
  lemma {:induction false} CarriesLargest(ids: Ids, producers: seq<nat>, events: seq<Event>, x: nat)
    requires Linked(ids) && x in All(Run(ids, producers, events))
    ensures var all := All(Run(ids, producers, events)); IsLargestQuorum(ids, all, x, all[x].bft)
  {
    RunSound(ids, producers, events);
    LatestIsLargest(ids, Run(ids, producers, events), x);
  }

  lemma {:induction false} ConfirmNeverLowers(ids: Ids, f: Forks, id: nat, producer: nat, signed: bool, g: Forks, x: nat)
    requires Linked(ids) && Confirm(ids, f, id, producer, signed) == Some(g) && x in All(f)
    ensures x in All(g) && All(f)[x].bft <= All(g)[x].bft
  {
    if x in f.index {
      assert All(f)[x] == f.index[x] && All(g)[x] == g.index[x];
    }
  }

  // It never falls.
  lemma {:induction false} NeverFalls(ids: Ids, f: Forks, e: Event, x: nat)
    requires Linked(ids) && Sound(ids, f) && x in All(f) && x in All(Next(ids, f, e))
    ensures All(f)[x].bft <= All(Next(ids, f, e))[x].bft
  {
    var g := Next(ids, f, e);
    match e
    case Added(id, producers) =>
      if AddBlock(ids, f, id, producers).Some? { AddRooted(ids, f, id, producers, g); }
    case Confirmed(id, producer, signed) =>
      if Confirm(ids, f, id, producer, signed).Some? { ConfirmNeverLowers(ids, f, id, producer, signed, g, x); }
    case Removed(id) =>
    case Pruned(id) =>
      if Prune(ids, f, id).Some? { PruneAll(ids, f, id, g); }
  }

  // Blocks that build on each other carry numbers in order.
  lemma {:induction false} CarriedUpwards(ids: Ids, f: Forks, x: nat, a: nat)
    requires Linked(ids) && Sound(ids, f) && x in All(f) && a in All(f) && Under(ids, x, a)
    ensures All(f)[a].bft <= All(f)[x].bft
    decreases ids.num(x)
  {
    if x != a {
      UnderNum(ids, x, a);
      assert Carries(ids, All(f), x);
      CarriesLatest(ids, f, a);
      CarriesLatest(ids, f, x);
      assert x != ids.root;
      CarriedUpwards(ids, f, ids.previous(x), a);
      CarriesLatest(ids, f, ids.previous(x));
    }
  }
}
