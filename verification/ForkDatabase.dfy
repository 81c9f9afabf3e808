/** The fork database as it is updated in place: the traversals over the blocks that build on a block,
    proved to compute the steps of module Forks. */
module ForkDatabase {
  import opened Options
  import opened Forks
  import opened ForkLaws

  // ---------- raising the irreversible number, layer by layer ----------

  // Numbers do not fall from a block to the next.
  ghost predicate OrderedAt(ids: Ids, index: map<nat, Block>, x: nat)
    requires x in index
  {
    x != ids.root && ids.previous(x) in index ==> index[ids.previous(x)].bft <= index[x].bft
  }

  ghost predicate Ordered(ids: Ids, index: map<nat, Block>) {
    forall x {:trigger OrderedAt(ids, index, x)} :: x in index ==> OrderedAt(ids, index, x)
  }

  function Children(ids: Ids, index: map<nat, Block>, i: nat): set<nat> {
    set x | x in index && x != ids.root && ids.previous(x) == i
  }

  function Below(index: map<nat, Block>, n: nat): set<nat> {
    set x | x in index && index[x].bft < n
  }

  /** The traversal under way, seen from block x: `before` is the index it started from, `start` that
      at the beginning of the layer; of the layer the blocks of `rest` are still to be visited, `more`
      is the next layer. Only blocks under `id` change, and only by being raised. What builds directly
      on a raised block is raised, unless that block is still to be visited. */
  ghost predicate WaveAt(
    ids: Ids, before: map<nat, Block>, start: map<nat, Block>, now: map<nat, Block>, id: nat, rest: seq<nat>,
    more: seq<nat>, x: nat)
    requires Linked(ids)
  {
    var n := ids.num(id);
    && (x in now <==> x in before) && (x in now <==> x in start)
    && (x in rest || x in more ==> x in now && Under(ids, x, id))
    && (x in now ==>
          && ids.num(x) > 0
          && (now[x] == before[x] || (Under(ids, x, id) && now[x] == Raised(before[x], n)))
          && start[x].bft <= now[x].bft
          && (x in more <==> start[x].bft < n <= now[x].bft)
          && (&& x != ids.root && ids.previous(x) in now && Under(ids, ids.previous(x), id)
              && now[ids.previous(x)].bft >= n && ids.previous(x) !in rest && ids.previous(x) !in more
              ==> now[x].bft >= n))
  }

  ghost predicate Wave(
    ids: Ids, before: map<nat, Block>, start: map<nat, Block>, now: map<nat, Block>, id: nat, rest: seq<nat>,
    more: seq<nat>)
    requires Linked(ids)
  {
    forall x {:trigger WaveAt(ids, before, start, now, id, rest, more, x)} ::
      WaveAt(ids, before, start, now, id, rest, more, x)
  }

  // The children of i that were looked at are raised.
  ghost predicate Raising(ids: Ids, now: map<nat, Block>, n: nat, i: nat, todo: set<nat>) {
    forall x :: x in Children(ids, now, i) && x !in todo ==> now[x].bft >= n
  }

  // A child is raised: the blocks on top of it are to be visited in the next layer.
  lemma {:induction false} RaiseOne(
    ids: Ids, before: map<nat, Block>, start: map<nat, Block>, now: map<nat, Block>, id: nat, rest: seq<nat>,
    more: seq<nat>, i: nat, c: nat, next: map<nat, Block>)
    requires Linked(ids) && Wave(ids, before, start, now, id, rest, more) && Under(ids, i, id)
    requires c in Children(ids, now, i) && now[c].bft < ids.num(id) && next == now[c := now[c].(bft := ids.num(id))]
    ensures Wave(ids, before, start, next, id, rest, more + [c])
  {
    forall x ensures WaveAt(ids, before, start, next, id, rest, more + [c], x) {
      assert WaveAt(ids, before, start, now, id, rest, more, x);
      if x == c {
        UnderStep(ids, c, id);
      }
    }
  }

  lemma {:induction false} Visited(
    ids: Ids, before: map<nat, Block>, start: map<nat, Block>, now: map<nat, Block>, id: nat, rest: seq<nat>,
    more: seq<nat>)
    requires Linked(ids) && rest != [] && Wave(ids, before, start, now, id, rest, more)
    requires Raising(ids, now, ids.num(id), rest[0], {})
    ensures Wave(ids, before, start, now, id, rest[1..], more)
  {
    forall x ensures WaveAt(ids, before, start, now, id, rest[1..], more, x) {
      assert WaveAt(ids, before, start, now, id, rest, more, x);
      assert x in now && x != ids.root && ids.previous(x) == rest[0] ==> x in Children(ids, now, rest[0]);
    }
  }

  // Raises the blocks directly on top of the first of `rest`.
  method RaiseChildren(
    ids: Ids, index: map<nat, Block>, id: nat, rest: seq<nat>, updated: seq<nat>, ghost before: map<nat, Block>,
    ghost start: map<nat, Block>)
    returns (now: map<nat, Block>, more: seq<nat>)
    requires Linked(ids) && rest != [] && Wave(ids, before, start, index, id, rest, updated)
    ensures Wave(ids, before, start, now, id, rest[1..], more)
  {
    now, more := index, updated;
    var n, i := ids.num(id), rest[0];
    var todo := Children(ids, now, i);
    assert WaveAt(ids, before, start, now, id, rest, more, i);
    while todo != {}
      invariant todo <= Children(ids, now, i)
      invariant Raising(ids, now, n, i, todo)
      invariant Wave(ids, before, start, now, id, rest, more)
    {
      var c :| c in todo;
      if now[c].bft < n {
        ghost var was := now;
        now := now[c := now[c].(bft := n)];
        RaiseOne(ids, before, start, was, id, rest, more, i, c, now);
        assert Children(ids, now, i) == Children(ids, was, i);
        more := more + [c];
      }
      todo := todo - {c};
    }
    Visited(ids, before, start, now, id, rest, more);
  }

  // One layer: the blocks on top of those in the queue.
  method RaiseLayer(ids: Ids, index: map<nat, Block>, id: nat, queue: seq<nat>, ghost before: map<nat, Block>)
    returns (now: map<nat, Block>, updated: seq<nat>)
    requires Linked(ids) && Wave(ids, before, index, index, id, queue, [])
    ensures Wave(ids, before, now, now, id, updated, []) && now.Keys == index.Keys
    ensures forall x :: x in updated <==> x in now && index[x].bft < ids.num(id) <= now[x].bft
    ensures Below(now, ids.num(id)) <= Below(index, ids.num(id))
    ensures updated != [] ==> Below(now, ids.num(id)) < Below(index, ids.num(id))
  {
    now, updated := index, [];
    var rest := queue;
    while rest != []
      invariant Wave(ids, before, index, now, id, rest, updated)
      decreases |rest|
    {
      now, updated := RaiseChildren(ids, now, id, rest, updated, before, index);
      rest := rest[1..];
    }
    LayerDone(ids, before, index, now, id, updated);
  }

  lemma {:induction false} LayerDone(
    ids: Ids, before: map<nat, Block>, start: map<nat, Block>, now: map<nat, Block>, id: nat, more: seq<nat>)
    requires Linked(ids) && Wave(ids, before, start, now, id, [], more)
    ensures Wave(ids, before, now, now, id, more, []) && now.Keys == start.Keys
    ensures forall x :: x in more <==> x in now && start[x].bft < ids.num(id) <= now[x].bft
    ensures Below(now, ids.num(id)) <= Below(start, ids.num(id))
    ensures more != [] ==> Below(now, ids.num(id)) < Below(start, ids.num(id))
  {
    var n := ids.num(id);
    forall x ensures WaveAt(ids, before, now, now, id, more, [], x) {
      assert WaveAt(ids, before, start, now, id, [], more, x);
    }
    forall x | x in Below(now, n) ensures x in Below(start, n) {
      assert WaveAt(ids, before, start, now, id, [], more, x);
    }
    forall x ensures x in now <==> x in start {
      assert WaveAt(ids, before, start, now, id, [], more, x);
    }
    forall x ensures x in more <==> x in now && start[x].bft < n <= now[x].bft {
      assert WaveAt(ids, before, start, now, id, [], more, x);
    }
    if more != [] {
      assert WaveAt(ids, before, start, now, id, [], more, more[0]);
      assert more[0] in Below(start, n) && more[0] !in Below(now, n);
    }
  }

  // ---------- the traversal reaches every block on top ----------

  lemma {:induction false} FirstWave(ids: Ids, index: map<nat, Block>, id: nat, now: map<nat, Block>)
    requires Linked(ids) && id in index && Ordered(ids, index) && index[id].bft < ids.num(id)
    requires (forall x :: x in index ==> ids.num(x) > 0) && now == index[id := index[id].(bft := ids.num(id))]
    ensures Wave(ids, index, now, now, id, [id], [])
  {
    forall x ensures WaveAt(ids, index, now, now, id, [id], [], x) {
      if x in index {
        assert OrderedAt(ids, index, x);
      }
    }
  }

  lemma {:induction false} AllRaised(ids: Ids, before: Forks, now: map<nat, Block>, id: nat, x: nat)
    requires Linked(ids) && Rooted(ids, before) && id in before.index && Wave(ids, before.index, now, now, id, [], [])
    requires id in now && now[id].bft >= ids.num(id) && x in before.index && Under(ids, x, id)
    ensures x in now && now[x].bft >= ids.num(id)
    decreases ids.num(x)
  {
    assert WaveAt(ids, before.index, now, now, id, [], [], x);
    if x != id {
      PreviousStays(ids, before, x, id);
      UnderNum(ids, x, id);
      AllRaised(ids, before, now, id, ids.previous(x));
    }
  }

  lemma {:induction false} RaisedIsSpec(ids: Ids, before: Forks, now: map<nat, Block>, id: nat)
    requires Linked(ids) && Rooted(ids, before) && id in before.index && Wave(ids, before.index, now, now, id, [], [])
    requires id in now && now[id].bft >= ids.num(id)
    ensures now == SetIrreversible(ids, before.index, id)
  {
    var spec := SetIrreversible(ids, before.index, id);
    forall x ensures x in now <==> x in spec {
      assert WaveAt(ids, before.index, now, now, id, [], [], x);
    }
    forall x | x in now ensures now[x] == spec[x] {
      assert WaveAt(ids, before.index, now, now, id, [], [], x);
      if Under(ids, x, id) {
        AllRaised(ids, before, now, id, x);
      }
    }
  }

  // set_bft_irreversible
  method RaiseAbove(ids: Ids, index: map<nat, Block>, id: nat, ghost f: Forks) returns (now: map<nat, Block>)
    requires Linked(ids) && Rooted(ids, f) && f.index == index && id in index && Ordered(ids, index)
    requires index[id].bft < ids.num(id)
    ensures now == SetIrreversible(ids, index, id)
  {
    now := index[id := index[id].(bft := ids.num(id))];
    FirstWave(ids, index, id, now);
    var queue := [id];
    while queue != []
      invariant Wave(ids, index, now, now, id, queue, [])
      invariant id in now && id !in Below(now, ids.num(id))
      decreases Below(now, ids.num(id)), |queue|
    {
      now, queue := RaiseLayer(ids, now, id, queue, index);
      assert WaveAt(ids, index, now, now, id, queue, [], id);
    }
    RaisedIsSpec(ids, f, now, id);
  }

  // ---------- removing a block and what builds on it ----------

  // The blocks directly on top of i, in some order.
  method ListChildren(ids: Ids, index: map<nat, Block>, i: nat) returns (r: seq<nat>)
    ensures Distinct(r) && forall x :: x in r <==> x in Children(ids, index, i)
  {
    r := [];
    var todo := Children(ids, index, i);
    while todo != {}
      invariant Distinct(r) && todo <= Children(ids, index, i)
      invariant forall x :: x in r <==> x in Children(ids, index, i) && x !in todo
    {
      var c :| c in todo;
      r := r + [c];
      todo := todo - {c};
    }
  }

  /** The removal under way, seen from block x: what is gone lies under `id`, and what builds directly
      on it is in the rest of the queue. */
  ghost predicate GoingAt(ids: Ids, before: map<nat, Block>, now: map<nat, Block>, id: nat, rest: seq<nat>, x: nat)
    requires Linked(ids)
  {
    && (x in now ==> x in before && now[x] == before[x])
    && (x in before && x !in now ==> Under(ids, x, id))
    && (x in rest ==> x in now && Under(ids, x, id) && (x == id || (x != ids.root && ids.previous(x) !in now)))
    && (x in now && x != ids.root && ids.previous(x) in before && ids.previous(x) !in now ==> x in rest)
  }

  ghost predicate Going(ids: Ids, before: map<nat, Block>, now: map<nat, Block>, id: nat, rest: seq<nat>)
    requires Linked(ids)
  {
    forall x {:trigger GoingAt(ids, before, now, id, rest, x)} :: GoingAt(ids, before, now, id, rest, x)
  }

  lemma {:induction false} DistinctJoin(a: seq<nat>, b: seq<nat>)
    requires Distinct(a) && Distinct(b) && forall x :: x in b ==> x !in a
    ensures Distinct(a + b)
  {
    forall i, j | 0 <= i < j < |a + b| ensures (a + b)[i] != (a + b)[j] {
      assert i < |a| <= j ==> b[j - |a|] in b && a[i] in a;
    }
  }

  lemma {:induction false} RemoveFirst(
    ids: Ids, before: map<nat, Block>, now: map<nat, Block>, id: nat, rest: seq<nat>, children: seq<nat>)
    requires Linked(ids) && (forall x :: x in before ==> ids.num(x) > 0)
    requires Going(ids, before, now, id, rest) && Distinct(rest) && rest != [] && Distinct(children)
    requires forall x :: x in children <==> x in Children(ids, now - {rest[0]}, rest[0])
    ensures rest[0] in now
    ensures Going(ids, before, now - {rest[0]}, id, rest[1..] + children) && Distinct(rest[1..] + children)
  {
    var i := rest[0];
    assert GoingAt(ids, before, now, id, rest, i);
    forall x | x in children ensures x !in rest[1..] && Under(ids, x, id) {
      assert x in Children(ids, now - {i}, i) && GoingAt(ids, before, now, id, rest, x);
      UnderStep(ids, x, id);
      UnderNum(ids, i, id);
    }
    DistinctJoin(rest[1..], children);
    forall x ensures GoingAt(ids, before, now - {i}, id, rest[1..] + children, x) {
      assert GoingAt(ids, before, now, id, rest, x);
      assert x in rest ==> x == i || x in rest[1..];
      assert x in now - {i} && x != ids.root && ids.previous(x) == i ==> x in Children(ids, now - {i}, i);
    }
  }

  // A block on top of `id` is reached through blocks in the index.
  ghost predicate Reached(ids: Ids, index: map<nat, Block>, id: nat)
    requires Linked(ids)
  {
    && id in index
    && (forall x :: x in index ==> ids.num(x) > 0)
    && forall x {:trigger Under(ids, x, id)} :: x in index && x != id && Under(ids, x, id) ==>
         ids.previous(x) in index && x != ids.root
  }

  lemma {:induction false} RootedReaches(ids: Ids, f: Forks, id: nat)
    requires Linked(ids) && Rooted(ids, f) && id in f.index
    ensures Reached(ids, f.index, id)
  {
    forall x | x in f.index && x != id && Under(ids, x, id) ensures ids.previous(x) in f.index && x != ids.root {
      PreviousStays(ids, f, x, id);
    }
  }

  lemma {:induction false} NoneLeft(ids: Ids, before: map<nat, Block>, now: map<nat, Block>, id: nat, x: nat)
    requires Linked(ids) && Reached(ids, before, id) && Going(ids, before, now, id, [])
    requires id !in now && x in before && Under(ids, x, id)
    ensures x !in now
    decreases ids.num(x)
  {
    assert GoingAt(ids, before, now, id, [], x);
    if x != id {
      UnderNum(ids, x, id);
      NoneLeft(ids, before, now, id, ids.previous(x));
    }
  }

  lemma {:induction false} GoneIsSpec(ids: Ids, before: map<nat, Block>, now: map<nat, Block>, id: nat)
    requires Linked(ids) && Reached(ids, before, id) && Going(ids, before, now, id, []) && id !in now
    ensures now == Without(ids, before, id)
  {
    var spec := Without(ids, before, id);
    forall x ensures (x in now <==> x in spec) && (x in now ==> now[x] == spec[x]) {
      assert GoingAt(ids, before, now, id, [], x);
      if x in before && Under(ids, x, id) {
        NoneLeft(ids, before, now, id, x);
      }
    }
  }

  lemma {:induction false} StartGoing(ids: Ids, index: map<nat, Block>, id: nat)
    requires Linked(ids) && id in index
    ensures Going(ids, index, index, id, [id])
  {
    forall x ensures GoingAt(ids, index, index, id, [id], x) {
    }
  }

  // The loop of fork_database::remove
  method RemoveAbove(ids: Ids, index: map<nat, Block>, id: nat) returns (now: map<nat, Block>)
    requires Linked(ids) && Reached(ids, index, id)
    ensures now == Without(ids, index, id)
  {
    now := index;
    var rest := [id];
    StartGoing(ids, index, id);
    while rest != []
      invariant Going(ids, index, now, id, rest) && Distinct(rest)
      invariant id in now ==> rest == [id]
      decreases |now|
    {
      var i := rest[0];
      var children := ListChildren(ids, now - {i}, i);
      RemoveFirst(ids, index, now, id, rest, children);
      now := now - {i};
      rest := rest[1..] + children;
    }
    GoneIsSpec(ids, index, now, id);
  }

  // ---------- pruning the oldest block ----------

  function Rivals(ids: Ids, index: map<nat, Block>, h: nat): set<nat> {
    set s | s in index && Rival(ids, index, h, s)
  }

  // The index without h, and without what builds on its rivals that were dealt with.
  function Survivors(ids: Ids, index: map<nat, Block>, h: nat, done: set<nat>): map<nat, Block>
    requires Linked(ids)
  {
    map x | x in index && x != h && (forall s :: s in done ==> !Under(ids, x, s)) :: index[x]
  }

  lemma {:induction false} SurvivorsReached(ids: Ids, f: Forks, h: nat, done: set<nat>, s: nat)
    requires Linked(ids) && Rooted(ids, f) && h in f.index && done <= Rivals(ids, f.index, h)
    requires s in Rivals(ids, f.index, h) && s !in done
    ensures Reached(ids, Survivors(ids, f.index, h, done), s)
  {
    var index := Survivors(ids, f.index, h, done);
    forall r | r in done ensures !Under(ids, s, r) {
    }
    forall x | x in index && x != s && Under(ids, x, s) ensures ids.previous(x) in index && x != ids.root {
      PreviousStays(ids, f, x, s);
      UnderNum(ids, ids.previous(x), s);
      forall r | r in done ensures !Under(ids, ids.previous(x), r) {
        UnderStep(ids, x, r);
      }
    }
  }

  lemma {:induction false} SurvivorsNext(ids: Ids, index: map<nat, Block>, h: nat, done: set<nat>, s: nat)
    requires Linked(ids)
    ensures Without(ids, Survivors(ids, index, h, done), s) == Survivors(ids, index, h, done + {s})
  {
  }

  lemma {:induction false} SurvivorsAll(ids: Ids, index: map<nat, Block>, h: nat)
    requires Linked(ids)
    ensures Survivors(ids, index, h, Rivals(ids, index, h))
         == map x | x in index && x != h && !Outlived(ids, index, h, x) :: index[x]
  {
    var rivals := Rivals(ids, index, h);
    forall x | Outlived(ids, index, h, x) ensures exists s :: s in rivals && Under(ids, x, s) {
      var s :| s in index && Rival(ids, index, h, s) && Under(ids, x, s);
      assert s in rivals;
    }
    forall x, s | s in rivals && Under(ids, x, s) ensures Outlived(ids, index, h, x) {
      assert Rival(ids, index, h, s);
    }
  }

  method DropRivals(ids: Ids, index: map<nat, Block>, h: nat, ghost f: Forks) returns (now: map<nat, Block>)
    requires Linked(ids) && Rooted(ids, f) && f.index == index && h in index
    ensures now == map x | x in index && x != h && !Outlived(ids, index, h, x) :: index[x]
  {
    now := index - {h};
    var todo := Rivals(ids, index, h);
    ghost var done := {};
    assert now == Survivors(ids, index, h, done);
    while todo != {}
      invariant done + todo == Rivals(ids, index, h) && done !! todo
      invariant now == Survivors(ids, index, h, done)
    {
      var s :| s in todo;
      SurvivorsReached(ids, f, h, done, s);
      SurvivorsNext(ids, index, h, done, s);
      now := RemoveAbove(ids, now, s);
      todo, done := todo - {s}, done + {s};
    }
    assert done == Rivals(ids, index, h);
    SurvivorsAll(ids, index, h);
  }

  class ForkDb {
    const ids: Ids
    var index: map<nat, Block>
    ghost var past: map<nat, Block>

    ghost function View(): Forks
      reads this
    {
      Forks(index, past)
    }

    ghost predicate Valid()
      reads this
    {
      Linked(ids) && Sound(ids, View())
    }

    constructor (links: Ids, producers: seq<nat>)
      requires Linked(links)
      ensures ids == links && View() == Start(links, producers) && Valid()
    {
      ids := links;
      index := map[links.root := Block(producers, [], 0)];
      past := map[];
      new;
      StartSound(links, producers);
    }

    method Add(id: nat, producers: seq<nat>) returns (ok: bool)
      requires Valid()
      modifies this`index
      ensures Valid()
      ensures ok <==> AddBlock(ids, old(View()), id, producers).Some?
      ensures View() == if ok then AddBlock(ids, old(View()), id, producers).value else old(View())
      ensures ok ==> index[id].bft == index[ids.previous(id)].bft
    {
      if id in index || ids.num(id) == 0 || ids.previous(id) !in index {
        return false;
      }
      ghost var before := View();
      index := index[id := Block(producers, [], index[ids.previous(id)].bft)];
      ok := true;
      AddKeeps(ids, before, id, producers, View());
    }

    method AddConfirmation(id: nat, producer: nat, signed: bool) returns (ok: bool)
      requires Valid()
      modifies this`index
      ensures Valid()
      ensures ok <==> Confirm(ids, old(View()), id, producer, signed).Some?
      ensures View() == if ok then Confirm(ids, old(View()), id, producer, signed).value else old(View())
    {
      if id !in index || producer in index[id].confirmed || producer !in index[id].producers || !signed {
        return false;
      }
      ghost var before := View();
      index := index[id := index[id].(confirmed := index[id].confirmed + [producer])];
      if index[id].bft < ids.num(id) && |index[id].confirmed| >= |index[id].producers| * 2 / 3 + 1 {
        RootedSame(ids, before, View());
        StillOrdered(ids, before, index);
        index := RaiseAbove(ids, index, id, View());
      }
      ok := true;
      ConfirmKeeps(ids, before, id, producer, signed, View());
    }

    method Remove(id: nat)
      requires Valid() && id in index
      modifies this`index
      ensures Valid() && View() == old(View()).(index := Without(ids, old(index), id))
    {
      ghost var before := View();
      RootedReaches(ids, before, id);
      index := RemoveAbove(ids, index, id);
      RemoveKeeps(ids, before, id, View());
    }

    // The pruning done by `add`, of the oldest block.
    method PruneOldest(h: nat)
      requires Valid() && Lowest(ids, index, h)
      modifies this
      ensures Valid() && Prune(ids, old(View()), h) == Some(View())
    {
      ghost var before := View();
      past := past[h := index[h]];
      index := DropRivals(ids, index, h, before);
      PruneKeeps(ids, before, h, View());
    }
  }

  // A confirmation changes no irreversible number by itself.
  lemma {:induction false} StillOrdered(ids: Ids, f: Forks, index: map<nat, Block>)
    requires Linked(ids) && Sound(ids, f) && index.Keys == f.index.Keys
    requires forall x {:trigger index[x]} :: x in index ==> index[x].bft == f.index[x].bft
    ensures Ordered(ids, index)
  {
    forall x | x in index ensures OrderedAt(ids, index, x) {
      if x != ids.root && ids.previous(x) in index {
        assert All(f)[x] == f.index[x] && All(f)[ids.previous(x)] == f.index[ids.previous(x)];
        assert Under(ids, ids.previous(x), ids.previous(x));
        UnderStep(ids, x, ids.previous(x));
        CarriedUpwards(ids, f, x, ids.previous(x));
      }
    }
  }
}
