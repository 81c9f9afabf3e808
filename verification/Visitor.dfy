/** The permission visitor of the authority tests: undo by remembering how long the list was, which is
    as good as remembering the whole list. */
module Visitor {
  import opened Options
  import opened Authorities

  datatype Op = Visit(level: Level) | PushUndo | PopUndo | SquashUndo

  // ---------- remembering sizes, and remembering copies ----------

  datatype Sizes = Sizes(permissions: seq<Level>, sizes: seq<nat>)
  datatype Copies = Copies(permissions: seq<Level>, saved: seq<seq<Level>>)

  function SizeStep(s: Sizes, op: Op): Option<Sizes> {
    match op
    case Visit(l) => Some(s.(permissions := s.permissions + [l]))
    case PushUndo => Some(s.(sizes := s.sizes + [|s.permissions|]))
    case PopUndo =>
      var n := |s.sizes| - 1;
      if n < 0 || s.sizes[n] > |s.permissions| then None
      else Some(Sizes(s.permissions[..s.sizes[n]], s.sizes[..n]))
    case SquashUndo => if s.sizes == [] then None else Some(s.(sizes := s.sizes[..|s.sizes| - 1]))
  }

  function CopyStep(c: Copies, op: Op): Option<Copies> {
    match op
    case Visit(l) => Some(c.(permissions := c.permissions + [l]))
    case PushUndo => Some(c.(saved := c.saved + [c.permissions]))
    case PopUndo =>
      var n := |c.saved| - 1;
      if n < 0 then None else Some(Copies(c.saved[n], c.saved[..n]))
    case SquashUndo => if c.saved == [] then None else Some(c.(saved := c.saved[..|c.saved| - 1]))
  }

  function SizeRun(ops: seq<Op>): Option<Sizes> {
    if ops == [] then Some(Sizes([], []))
    else
      var r := SizeRun(ops[..|ops| - 1]);
      if r.None? then None else SizeStep(r.value, ops[|ops| - 1])
  }

  function CopyRun(ops: seq<Op>): Option<Copies> {
    if ops == [] then Some(Copies([], []))
    else
      var r := CopyRun(ops[..|ops| - 1]);
      if r.None? then None else CopyStep(r.value, ops[|ops| - 1])
  }

  // ---------- they agree ----------

  // The saved copies are beginnings of the list, of the remembered sizes, each within the next.
  ghost predicate Agree(s: Sizes, c: Copies) {
    && s.permissions == c.permissions && |s.sizes| == |c.saved|
    && (forall i :: 0 <= i < |s.sizes| ==> s.sizes[i] <= |s.permissions| && c.saved[i] == s.permissions[..s.sizes[i]])
    && (forall i, j :: 0 <= i < j < |s.sizes| ==> s.sizes[i] <= s.sizes[j])
  }

  lemma {:induction false} StepAgrees(s: Sizes, c: Copies, op: Op)
    requires Agree(s, c)
    ensures SizeStep(s, op).Some? <==> CopyStep(c, op).Some?
    ensures SizeStep(s, op).Some? ==> Agree(SizeStep(s, op).value, CopyStep(c, op).value)
  {
    if SizeStep(s, op).Some? {
      var t, d := SizeStep(s, op).value, CopyStep(c, op).value;
      forall i | 0 <= i < |t.sizes|
        ensures t.sizes[i] <= |t.permissions| && d.saved[i] == t.permissions[..t.sizes[i]]
      {
        if i < |s.sizes| {
          assert c.saved[i] == s.permissions[..s.sizes[i]];
        }
      }
    }
  }

  /** Every run of visits, pushes, pops and squashes leaves the same list either way, and goes wrong
      in the same place. */
  lemma {:induction false} RunsAgree(ops: seq<Op>)
    ensures SizeRun(ops).Some? <==> CopyRun(ops).Some?
    ensures SizeRun(ops).Some? ==> Agree(SizeRun(ops).value, CopyRun(ops).value)
    decreases |ops|
  {
    if ops != [] {
      var n := |ops| - 1;
      RunsAgree(ops[..n]);
      if SizeRun(ops[..n]).Some? {
        StepAgrees(SizeRun(ops[..n]).value, CopyRun(ops[..n]).value, ops[n]);
      }
    }
  }

  // ---------- the code ----------

  class PermissionVisitor {
    var permissions: seq<Level>
    var sizeStack: seq<nat>
    ghost var saved: seq<seq<Level>>

    ghost predicate Valid()
      reads this
    {
      Agree(Sizes(permissions, sizeStack), Copies(permissions, saved))
    }

    constructor ()
      ensures Valid() && permissions == [] && saved == []
    {
      permissions, sizeStack, saved := [], [], [];
    }

    method Call(l: Level)
      requires Valid()
      modifies this
      ensures Valid() && permissions == old(permissions) + [l] && saved == old(saved)
    {
      StepAgrees(Sizes(permissions, sizeStack), Copies(permissions, saved), Visit(l));
      permissions := permissions + [l];
    }

    method Push()
      requires Valid()
      modifies this
      ensures Valid() && permissions == old(permissions) && saved == old(saved) + [permissions]
    {
      StepAgrees(Sizes(permissions, sizeStack), Copies(permissions, saved), PushUndo);
      sizeStack := sizeStack + [|permissions|];
      saved := saved + [permissions];
    }

    // The list is what it was when the undo was pushed.
    method Pop()
      requires Valid() && saved != []
      modifies this
      ensures Valid() && permissions == old(saved)[|old(saved)| - 1] && saved == old(saved)[..|old(saved)| - 1]
    {
      StepAgrees(Sizes(permissions, sizeStack), Copies(permissions, saved), PopUndo);
      permissions := permissions[..sizeStack[|sizeStack| - 1]];
      sizeStack := sizeStack[..|sizeStack| - 1];
      saved := saved[..|saved| - 1];
    }

    method Squash()
      requires Valid() && saved != []
      modifies this
      ensures Valid() && permissions == old(permissions) && saved == old(saved)[..|old(saved)| - 1]
    {
      StepAgrees(Sizes(permissions, sizeStack), Copies(permissions, saved), SquashUndo);
      sizeStack := sizeStack[..|sizeStack| - 1];
      saved := saved[..|saved| - 1];
    }
  }
}
