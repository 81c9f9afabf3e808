/** The fork database: a tree of blocks that producers confirm (fork_database.cpp,
    block_header_state.cpp). A block becomes irreversible for good once more than two thirds of its
    producers confirmed it, and every block that builds on it then carries its number. */
module Forks {
  import opened Options
  import opened Quorums

  /** What the id of a block says about it: it is a hash over the id of the previous block, and it
      starts with the number of the block. */
  datatype Ids = Ids(previous: nat -> nat, num: nat -> nat, root: nat)

  ghost predicate Linked(ids: Ids) {
    && ids.num(ids.root) > 0
    && forall x {:trigger ids.previous(x)} :: ids.num(x) > 0 ==> ids.num(ids.previous(x)) == ids.num(x) - 1
  }

  // The schedule that confirms a block, the producers that did, and the irreversible number it carries.
  datatype Block = Block(producers: seq<nat>, confirmed: seq<nat>, bft: nat)

  // The blocks in the database, and those pruned from it when they became irreversible.
  datatype Forks = Forks(index: map<nat, Block>, past: map<nat, Block>)

  predicate HasQuorum(b: Block) {
    |b.confirmed| >= Quorum(|b.producers|)
  }

  // x is the block id or builds on it.
  predicate Under(ids: Ids, x: nat, id: nat)
    requires Linked(ids)
    decreases ids.num(x)
  {
    x == id || (ids.num(x) > ids.num(id) && Under(ids, ids.previous(x), id))
  }

  function Start(ids: Ids, producers: seq<nat>): Forks {
    Forks(map[ids.root := Block(producers, [], 0)], map[])
  }

  // A new block inherits the irreversible number of the one it builds on.
  function AddBlock(ids: Ids, f: Forks, id: nat, producers: seq<nat>): Option<Forks> {
    if id in f.index || ids.num(id) == 0 || ids.previous(id) !in f.index then None
    else Some(f.(index := f.index[id := Block(producers, [], f.index[ids.previous(id)].bft)]))
  }

  function Raised(b: Block, n: nat): Block {
    if b.bft < n then b.(bft := n) else b
  }

  // set_bft_irreversible: every block on top of this one carries at least its number.
  function SetIrreversible(ids: Ids, index: map<nat, Block>, id: nat): map<nat, Block>
    requires Linked(ids)
  {
    map x | x in index :: if Under(ids, x, id) then Raised(index[x], ids.num(id)) else index[x]
  }

  // Whether the signature is that of the producer is for the caller to say.
  predicate Confirmable(f: Forks, id: nat, producer: nat, signed: bool) {
    && id in f.index
    && producer !in f.index[id].confirmed
    && producer in f.index[id].producers
    && signed
  }

  function Confirm(ids: Ids, f: Forks, id: nat, producer: nat, signed: bool): Option<Forks>
    requires Linked(ids)
  {
    if !Confirmable(f, id, producer, signed) then None
    else
      var b := f.index[id].(confirmed := f.index[id].confirmed + [producer]);
      var index := f.index[id := b];
      if b.bft < ids.num(id) && HasQuorum(b) then Some(f.(index := SetIrreversible(ids, index, id)))
      else Some(f.(index := index))
  }

  // A block found invalid goes, with all that builds on it.
  function Without(ids: Ids, index: map<nat, Block>, id: nat): map<nat, Block>
    requires Linked(ids)
  {
    map x | x in index && !Under(ids, x, id) :: index[x]
  }

  predicate Lowest(ids: Ids, index: map<nat, Block>, h: nat) {
    h in index && forall x :: x in index ==> ids.num(h) <= ids.num(x)
  }

  // The other blocks with the number of h.
  predicate Rival(ids: Ids, index: map<nat, Block>, h: nat, s: nat) {
    s in index && s != h && ids.num(s) == ids.num(h)
  }

  predicate Outlived(ids: Ids, index: map<nat, Block>, h: nat, x: nat)
    requires Linked(ids)
  {
    exists s :: s in index && Rival(ids, index, h, s) && Under(ids, x, s)
  }

  // The oldest block leaves the database as irreversible; its rivals go with all that builds on them.
  function Prune(ids: Ids, f: Forks, h: nat): Option<Forks>
    requires Linked(ids)
  {
    if !Lowest(ids, f.index, h) then None
    else
      Some(Forks(map x | x in f.index && x != h && !Outlived(ids, f.index, h, x) :: f.index[x],
                 f.past[h := f.index[h]]))
  }

  datatype Event =
    | Added(id: nat, producers: seq<nat>)
    | Confirmed(id: nat, producer: nat, signed: bool)
    | Removed(id: nat)
    | Pruned(id: nat)

  function Next(ids: Ids, f: Forks, e: Event): Forks
    requires Linked(ids)
  {
    var r := match e
      case Added(id, producers) => AddBlock(ids, f, id, producers)
      case Confirmed(id, producer, signed) => Confirm(ids, f, id, producer, signed)
      case Removed(id) => if id in f.index then Some(f.(index := Without(ids, f.index, id))) else None
      case Pruned(id) => Prune(ids, f, id);
    if r.None? then f else r.value
  }

  function Run(ids: Ids, producers: seq<nat>, events: seq<Event>): Forks
    requires Linked(ids)
  {
    if events == [] then Start(ids, producers)
    else Next(ids, Run(ids, producers, events[..|events| - 1]), events[|events| - 1])
  }
}
