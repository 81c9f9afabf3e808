/** When the approvals on record tell the last votes: exactly if no level was asked twice. */
module MultisigVotes {
  import opened Authorities
  import opened Multisig
  import opened MultisigLaws

  // The approvals of the open proposal are the levels asked whose last vote was to approve.
  ghost predicate Tells(steps: seq<Step>, key: Key) {
    && key in Histories(steps) && key in Run(steps).approvals
    && (set l | l in Run(steps).approvals[key].provided) == ApprovedBy(Histories(steps)[key])
  }

  // The proposal that is open after the first steps stays open through the others.
  ghost predicate StaysOpen(steps: seq<Step>, more: seq<Step>, key: Key) {
    forall i {:trigger more[..i]} :: 0 <= i <= |more| ==> key in Histories(steps + more[..i])
  }

  lemma {:induction false} OneMoreStep(steps: seq<Step>, s: Step)
    ensures Run(steps + [s]) == Next(Run(steps), s)
    ensures Histories(steps + [s]) == NextHistory(Histories(steps), Run(steps), s)
  {
    assert (steps + [s])[..|steps|] == steps;
  }

  lemma {:induction false} StillOpen(steps: seq<Step>, key: Key)
    requires key in Histories(steps)
    ensures key in Run(steps).proposals && key in Run(steps).approvals
    ensures Balanced(Run(steps).approvals[key], Histories(steps)[key])
  {
    RunGood(steps);
    assert GoodAt(Run(steps), Histories(steps), key);
  }

  // What was asked for stays.
  lemma {:induction false} AskedStays(steps: seq<Step>, s: Step, key: Key)
    requires key in Histories(steps) && key in Histories(steps + [s])
    ensures Histories(steps + [s])[key].asked == Histories(steps)[key].asked
  {
    OneMoreStep(steps, s);
    StillOpen(steps, key);
  }

  lemma {:induction false} AskedThrough(steps: seq<Step>, more: seq<Step>, key: Key)
    requires StaysOpen(steps, more, key)
    ensures key in Histories(steps) && key in Histories(steps + more)
    ensures Histories(steps + more)[key].asked == Histories(steps)[key].asked
    decreases |more|
  {
    assert more[..0] == [] && steps + [] == steps && more[..|more|] == more;
    if more != [] {
      var n := |more| - 1;
      var front := more[..n];
      forall i | 0 <= i <= |front| ensures key in Histories(steps + front[..i]) {
        assert front[..i] == more[..i];
      }
      AskedThrough(steps, front, key);
      assert steps + more == steps + front + [more[n]];
      AskedStays(steps + front, more[n], key);
    }
  }

  // ---------- a level asked twice ----------

  ghost function Given(steps: seq<Step>, key: Key, l: Level): nat
    requires key in Run(steps).approvals
  {
    multiset(Run(steps).approvals[key].provided)[l]
  }

  lemma {:induction false} Approves1(steps: seq<Step>, w: World, key: Key, l: Level)
    requires key in Histories(steps) && key in Run(steps).approvals && l in Run(steps).approvals[key].requested
    ensures var next := steps + [Step(Approving(key, l), w)];
            && key in Histories(next) && key in Run(next).approvals
            && Given(next, key, l) == Given(steps, key, l) + 1
  {
    OneMoreStep(steps, Step(Approving(key, l), w));
  }

  lemma {:induction false} TakesBack(steps: seq<Step>, w: World, key: Key, l: Level)
    requires key in Histories(steps) && key in Run(steps).approvals && Given(steps, key, l) >= 2
    ensures var next := steps + [Step(Unapproving(key, l), w)];
            key in Histories(next) && !Tells(next, key)
  {
    var s := Step(Unapproving(key, l), w);
    OneMoreStep(steps, s);
    var provided := Run(steps).approvals[key].provided;
    OneLeft(provided, l);
    var next := steps + [s];
    assert l in Run(next).approvals[key].provided;
    assert !Approves(Histories(next)[key], l);
    assert l in (set m | m in Run(next).approvals[key].provided) && l !in ApprovedBy(Histories(next)[key]);
  }

  lemma {:induction false} OpenLonger(steps: seq<Step>, s: Step, more: seq<Step>, key: Key)
    requires key in Histories(steps) && StaysOpen(steps + [s], more, key)
    ensures StaysOpen(steps, [s] + more, key) && steps + ([s] + more) == steps + [s] + more
  {
    var all := [s] + more;
    forall i | 0 <= i <= |all| ensures key in Histories(steps + all[..i]) {
      if i == 0 {
        assert steps + all[..0] == steps;
      } else {
        assert all[..i] == [s] + more[..i - 1];
        assert steps + all[..i] == steps + [s] + more[..i - 1];
      }
    }
  }

  // The level approves until it has done so twice, and takes one back.
  lemma {:induction false} Misleads(steps: seq<Step>, w: World, key: Key, l: Level) returns (more: seq<Step>)
    requires key in Histories(steps) && multiset(Histories(steps)[key].asked)[l] >= 2
    ensures StaysOpen(steps, more, key) && !Tells(steps + more, key)
    decreases if key in Run(steps).approvals && Given(steps, key, l) < 2 then 2 - Given(steps, key, l) else 0
  {
    StillOpen(steps, key);
    if Given(steps, key, l) >= 2 {
      var s := Step(Unapproving(key, l), w);
      TakesBack(steps, w, key, l);
      assert StaysOpen(steps + [s], [], key) by { assert steps + [s] + [][..0] == steps + [s]; }
      OpenLonger(steps, s, [], key);
      more := [s];
      assert [s] + [] == [s] && steps + [s] + [] == steps + [s];
    } else {
      var a := Run(steps).approvals[key];
      assert multiset(a.requested)[l] > 0;
      var s := Step(Approving(key, l), w);
      Approves1(steps, w, key, l);
      AskedStays(steps, s, key);
      var rest := Misleads(steps + [s], w, key, l);
      OpenLonger(steps, s, rest, key);
      more := [s] + rest;
    }
  }

  /** In every run: however an open proposal goes on, its approvals are the levels asked whose last vote was
      to approve, if and only if no level was asked twice. */
  lemma {:induction false} TellsIff(steps: seq<Step>, key: Key, w: World)
    requires key in Histories(steps)
    ensures (forall more :: StaysOpen(steps, more, key) ==> Tells(steps + more, key))
       <==> AskedOnce(Histories(steps)[key].asked)
  {
    if AskedOnce(Histories(steps)[key].asked) {
      forall more | StaysOpen(steps, more, key) ensures Tells(steps + more, key) {
        AskedThrough(steps, more, key);
        ProvidedIsLastVote(steps + more, key);
      }
    } else {
      var l :| multiset(Histories(steps)[key].asked)[l] > 1;
      var more := Misleads(steps, w, key, l);
    }
  }
}
