/** Chains on which the checks do not suffice: a change of schedule that lowers the last irreversible
    number, and a block confirmed twice by its producer. */
module DposExamples {
  import opened Options
  import opened Quorums
  import opened Dpos
  import opened DposHeaders
  import opened DposChain
  import opened DposConfirms

  // ---------- the number of few producers ----------

  lemma {:induction false} OfOne(m: map<nat, nat>, p: nat)
    requires m.Keys == {p}
    ensures IsIrreversible(m, m[p])
  {
    forall x: nat ensures m[p] >= x <==> |Reaching(m, x)| >= 1 {
      assert Reaching(m, x) == if m[p] >= x then {p} else {};
    }
    assert |m| == |m.Keys| == 1;
  }

  lemma {:induction false} OfTwo(m: map<nat, nat>, low: nat, high: nat)
    requires m.Keys == {low, high} && low != high && m[low] <= m[high]
    ensures IsIrreversible(m, m[low])
  {
    forall x: nat ensures m[low] >= x <==> |Reaching(m, x)| >= 2 {
      if m[low] >= x {
        assert Reaching(m, x) == {low, high};
      } else {
        assert Reaching(m, x) <= {high};
        SubsetCount(Reaching(m, x), {high});
      }
    }
    assert |m| == |m.Keys| == 2;
  }

  lemma {:induction false} OfFour(m: map<nat, nat>, low: nat, at: nat, p: nat, q: nat)
    requires m.Keys == {low, at, p, q} && |{low, at, p, q}| == 4
    requires m[low] <= m[at] <= m[p] && m[at] <= m[q]
    ensures IsIrreversible(m, m[at])
  {
    forall x: nat ensures m[at] >= x <==> |Reaching(m, x)| >= 3 {
      if m[at] >= x {
        assert {at, p, q} <= Reaching(m, x);
        assert {low, at, p, q} == {at, p, q} + {low};
        SubsetCount({at, p, q}, Reaching(m, x));
      } else {
        assert Reaching(m, x) <= {p, q};
        SubsetCount(Reaching(m, x), {p, q});
      }
    }
    assert |m| == |m.Keys| == 4;
  }

  // ---------- the counters of a single producer, and of three that take turns ----------

  lemma {:induction false} AloneCounts(proposed: int, producer: nat, confirmed: nat, head: nat)
    ensures NextCounters(Counters([], proposed), Block(producer, confirmed, 1), head) == Counters([], head)
  {
    assert Grown([], 1) == [1];
    assert LastOne([1], 0, 1) == 0;
  }

  lemma {:induction false} RollingCounts(proposed: int, producer: nat, head: nat)
    requires head >= 2
    ensures NextCounters(Counters([1, 2], proposed), Block(producer, 2, 3), head) == Counters([1, 2], head - 2)
  {
    var g := [1, 2, 3];
    assert Grown([1, 2], 3) == g;
    assert LastOne(g, 0, 1) == 0 && LastOne(g, 0, 2) == 0 && LastOne(g, 0, 3) == 0;
    assert Lowered(g, 0)[1..] == [1, 2];
  }

  lemma {:induction false} FirstCounts(proposed: int, producer: nat, head: nat)
    ensures NextCounters(Counters([], proposed), Block(producer, 0, 3), head) == Counters([2], proposed)
  {
    assert Grown([], 3) == [3];
    assert LastOne([3], 0, 1) == -1;
    assert Lowered([3], 0) == [2];
  }

  lemma {:induction false} SecondCounts(proposed: int, producer: nat, head: nat)
    ensures NextCounters(Counters([2], proposed), Block(producer, 1, 3), head) == Counters([1, 2], proposed)
  {
    assert Grown([2], 3) == [2, 3];
    assert LastOne([2, 3], 0, 1) == -1 && LastOne([2, 3], 0, 2) == -1;
    assert Lowered([2, 3], 0) == [1, 2];
  }

  lemma {:induction false} LastCounts(proposed: int, producer: nat, head: nat)
    ensures NextCounters(Counters([1, 2], proposed), Block(producer, 0, 2), head) == Counters([1, 2, 1], proposed)
  {
    var g := [1, 2, 2];
    assert Grown([1, 2], 2) == g;
    assert LastOne(g, 2, 3) == -1;
    assert Lowered(g, 2) == [1, 2, 1];
  }

  // ---------- a change of schedule ----------

  const FIRST: set<nat> := {9}
  const FOUR: set<nat> := {1, 2, 3, 4}
  const TWO: set<nat> := {4, 5}

  lemma {:induction false} Needs()
    ensures Quorum(|FIRST|) == 1 && Quorum(|FOUR|) == 3 && Quorum(|TWO|) == 2
  {
    assert |FIRST| == 1 && |FOUR| == 4 && |TWO| == 2;
  }

  function OfFours(a: nat, b: nat, c: nat, d: nat): map<nat, nat> {
    map[1 := a, 2 := b, 3 := c, 4 := d]
  }

  // One more block, with no change of schedule.
  function After(h: Header, s: Signed, counters: Counters, irreversible: nat): Header {
    Header(
      h.made + 1, counters, h.produced[s.producer := h.made + 2], h.implied[s.producer := Proposed(h)], irreversible,
      h.active, if s.announces.Some? then s.announces.value else h.pending,
      if s.announces.Some? then h.made + 2 else h.pendingFrom)
  }

  predicate Mine(h: Header, s: Signed) {
    s.producer in h.active && (s.producer in h.produced ==> h.produced[s.producer] + s.confirmed < h.made + 2 < 0x1_0000_0000)
  }

  lemma {:induction false} AfterFollows(h: Header, s: Signed, counters: Counters, l: nat)
    requires Mine(h, s) && counters == NextCounters(h.counters, BlockOf(h, s), h.made)
    requires IsIrreversible(h.implied[s.producer := Proposed(h)], l) && !Promotes(h, l)
    requires s.announces.Some? ==> h.pending == {}
    ensures Follows(h, s, After(h, s, counters, l))
  {
  }

  // One more block, with the pending schedule taking over.
  function Taken(h: Header, s: Signed, counters: Counters, l: nat): Header {
    Header(
      h.made + 1, counters, Promoted(h.produced[s.producer := h.made + 2], h.pending, l)[s.producer := h.made + 2],
      Promoted(h.implied[s.producer := Proposed(h)], h.pending, l), l, h.pending, {}, h.pendingFrom)
  }

  lemma {:induction false} TakenFollows(h: Header, s: Signed, counters: Counters, l: nat)
    requires Mine(h, s) && counters == NextCounters(h.counters, BlockOf(h, s), h.made)
    requires IsIrreversible(h.implied[s.producer := Proposed(h)], l) && Promotes(h, l) && s.announces.None?
    ensures Follows(h, s, Taken(h, s, counters, l))
  {
  }

  // The first producer makes a block by itself, announces the four, and hands over to them.
  lemma {:induction false} Begins(h: Header, s: Signed) returns (g: Header)
    requires h == Genesis(FIRST) && s == Signed(9, 0, None)
    ensures Follows(h, s, g) && g == Header(1, Counters([], 0), map[9 := 2], map[9 := 0], 0, FIRST, {}, 0)
  {
    Needs();
    AloneCounts(h.counters.proposed, 9, 0, h.made);
    var m: map<nat, nat> := h.implied[9 := 0];
    OfOne(m, 9);
    TakenFollows(h, s, Counters([], 0), 0);
    g := Taken(h, s, Counters([], 0), 0);
    assert g.produced == map[9 := 2] && g.implied == map[9 := 0];
  }

  lemma {:induction false} Announces(h: Header, s: Signed) returns (g: Header)
    requires h == Header(1, Counters([], 0), map[9 := 2], map[9 := 0], 0, FIRST, {}, 0) && s == Signed(9, 0, Some(FOUR))
    ensures Follows(h, s, g) && g == Header(2, Counters([], 1), map[9 := 3], map[9 := 2], 2, FIRST, FOUR, 3)
  {
    Needs();
    AloneCounts(h.counters.proposed, 9, 0, h.made);
    OfOne(h.implied[9 := 2], 9);
    AfterFollows(h, s, Counters([], 1), 2);
    g := After(h, s, Counters([], 1), 2);
    assert g.produced == map[9 := 3] && g.implied == map[9 := 2];
  }

  lemma {:induction false} HandsOver(h: Header, s: Signed) returns (g: Header)
    requires h == Header(2, Counters([], 1), map[9 := 3], map[9 := 2], 2, FIRST, FOUR, 3) && s == Signed(9, 0, None)
    ensures Follows(h, s, g)
    ensures g == Header(3, Counters([], 2), OfFours(3, 3, 3, 3)[9 := 4], OfFours(3, 3, 3, 3), 3, FOUR, {}, 3)
  {
    Needs();
    AloneCounts(h.counters.proposed, 9, 0, h.made);
    OfOne(h.implied[9 := 3], 9);
    TakenFollows(h, s, Counters([], 2), 3);
    g := Taken(h, s, Counters([], 2), 3);
    assert g.produced == OfFours(3, 3, 3, 3)[9 := 4] && g.implied == OfFours(3, 3, 3, 3);
  }

  // The fourth producer keeps out of it.
  lemma {:induction false} Starts(h: Header, s: Signed) returns (g: Header)
    requires h == Header(3, Counters([], 2), OfFours(3, 3, 3, 3)[9 := 4], OfFours(3, 3, 3, 3), 3, FOUR, {}, 3)
    requires s == Signed(1, 0, Some(TWO))
    ensures Follows(h, s, g)
    ensures g == Header(4, Counters([2], 2), OfFours(5, 3, 3, 3)[9 := 4], OfFours(4, 3, 3, 3), 3, FOUR, TWO, 5)
  {
    Needs();
    FirstCounts(h.counters.proposed, 1, h.made);
    OfFour(h.implied[1 := 4], 4, 3, 2, 1);
    AfterFollows(h, s, Counters([2], 2), 3);
    g := After(h, s, Counters([2], 2), 3);
    assert g.produced == OfFours(5, 3, 3, 3)[9 := 4] && g.implied == OfFours(4, 3, 3, 3);
  }

  lemma {:induction false} GoesOn(h: Header, s: Signed) returns (g: Header)
    requires h == Header(4, Counters([2], 2), OfFours(5, 3, 3, 3)[9 := 4], OfFours(4, 3, 3, 3), 3, FOUR, TWO, 5)
    requires s == Signed(2, 1, None)
    ensures Follows(h, s, g)
    ensures g == Header(5, Counters([1, 2], 2), OfFours(5, 6, 3, 3)[9 := 4], OfFours(4, 4, 3, 3), 3, FOUR, TWO, 5)
  {
    Needs();
    SecondCounts(h.counters.proposed, 2, h.made);
    OfFour(h.implied[2 := 4], 4, 3, 2, 1);
    AfterFollows(h, s, Counters([1, 2], 2), 3);
    g := After(h, s, Counters([1, 2], 2), 3);
    assert g.produced == OfFours(5, 6, 3, 3)[9 := 4] && g.implied == OfFours(4, 4, 3, 3);
  }

  // The three others take turns, each confirming the two blocks before its own.
  lemma {:induction false} TakesTurn(h: Header, s: Signed, at: nat, p: nat, q: nat, l: nat) returns (g: Header)
    requires h.active == FOUR && h.pending == TWO && h.pendingFrom == 5 > l && h.implied.Keys == FOUR
    requires h.counters.missing == [1, 2] && 2 <= h.made < 100 && h.counters.proposed >= 0
    requires s == Signed(s.producer, 2, None) && Mine(h, s) && {4, at, p, q} == FOUR
    requires var m := h.implied[s.producer := Proposed(h)]; m[4] <= m[at] == l <= m[p] && l <= m[q]
    ensures Follows(h, s, g) && g == After(h, s, Counters([1, 2], h.made - 2), l)
  {
    Needs();
    RollingCounts(h.counters.proposed, s.producer, h.made);
    OfFour(h.implied[s.producer := Proposed(h)], 4, at, p, q);
    AfterFollows(h, s, Counters([1, 2], h.made - 2), l);
    g := After(h, s, Counters([1, 2], h.made - 2), l);
  }

  lemma {:induction false} Turns(h: Header, s: Signed) returns (g: Header)
    requires h == Header(5, Counters([1, 2], 2), OfFours(5, 6, 3, 3)[9 := 4], OfFours(4, 4, 3, 3), 3, FOUR, TWO, 5)
    requires s == Signed(3, 2, None)
    ensures Follows(h, s, g)
    ensures g == Header(6, Counters([1, 2], 3), OfFours(5, 6, 7, 3)[9 := 4], OfFours(4, 4, 4, 3), 4, FOUR, TWO, 5)
  {
    g := TakesTurn(h, s, 3, 2, 1, 4);
    assert g.produced == OfFours(5, 6, 7, 3)[9 := 4] && g.implied == OfFours(4, 4, 4, 3);
  }

  lemma {:induction false} TurnsAgain(h: Header, s: Signed) returns (g: Header)
    requires h == Header(6, Counters([1, 2], 3), OfFours(5, 6, 7, 3)[9 := 4], OfFours(4, 4, 4, 3), 4, FOUR, TWO, 5)
    requires s == Signed(1, 2, None)
    ensures Follows(h, s, g)
    ensures g == Header(7, Counters([1, 2], 4), OfFours(8, 6, 7, 3)[9 := 4], OfFours(5, 4, 4, 3), 4, FOUR, TWO, 5)
  {
    g := TakesTurn(h, s, 3, 2, 1, 4);
    assert g.produced == OfFours(8, 6, 7, 3)[9 := 4] && g.implied == OfFours(5, 4, 4, 3);
  }

  lemma {:induction false} TurnsOnceMore(h: Header, s: Signed) returns (g: Header)
    requires h == Header(7, Counters([1, 2], 4), OfFours(8, 6, 7, 3)[9 := 4], OfFours(5, 4, 4, 3), 4, FOUR, TWO, 5)
    requires s == Signed(2, 2, None)
    ensures Follows(h, s, g)
    ensures g == Header(8, Counters([1, 2], 5), OfFours(8, 9, 7, 3)[9 := 4], OfFours(5, 6, 4, 3), 4, FOUR, TWO, 5)
  {
    g := TakesTurn(h, s, 3, 2, 1, 4);
    assert g.produced == OfFours(8, 9, 7, 3)[9 := 4] && g.implied == OfFours(5, 6, 4, 3);
  }

  // The fourth and a newcomer take over.
  lemma {:induction false} TwoTables(produced: map<nat, nat>, implied: map<nat, nat>)
    requires produced == OfFours(8, 9, 7, 3)[9 := 4] && implied == OfFours(5, 6, 4, 3)
    ensures Promoted(produced[3 := 10], TWO, 5)[3 := 10] == map[4 := 3, 5 := 5, 3 := 10]
    ensures Promoted(implied[3 := 7], TWO, 5) == map[4 := 3, 5 := 5]
  {
    assert Promoted(produced[3 := 10], TWO, 5) == map[4 := 3, 5 := 5];
  }

  lemma {:induction false} TakeOver(h: Header, s: Signed) returns (g: Header)
    requires h == Header(8, Counters([1, 2], 5), OfFours(8, 9, 7, 3)[9 := 4], OfFours(5, 6, 4, 3), 4, FOUR, TWO, 5)
    requires s == Signed(3, 2, None)
    ensures Follows(h, s, g)
    ensures g == Header(9, Counters([1, 2], 6), map[4 := 3, 5 := 5, 3 := 10], map[4 := 3, 5 := 5], 5, TWO, {}, 5)
  {
    Needs();
    RollingCounts(h.counters.proposed, 3, h.made);
    OfFour(h.implied[3 := 7], 4, 1, 2, 3);
    TwoTables(h.produced, h.implied);
    TakenFollows(h, s, Counters([1, 2], 6), 5);
    g := Taken(h, s, Counters([1, 2], 6), 5);
  }

  lemma {:induction false} Falls(h: Header, s: Signed) returns (g: Header)
    requires h == Header(9, Counters([1, 2], 6), map[4 := 3, 5 := 5, 3 := 10], map[4 := 3, 5 := 5], 5, TWO, {}, 5)
    requires s == Signed(5, 0, None)
    ensures Follows(h, s, g) && g.irreversible == 3
  {
    Needs();
    LastCounts(h.counters.proposed, 5, h.made);
    OfTwo(h.implied[5 := 8], 4, 5);
    AfterFollows(h, s, Counters([1, 2, 1], 6), 3);
    g := After(h, s, Counters([1, 2, 1], 6), 3);
  }

  // ---------- put together ----------

  // Headers of a chain with the given last ones.
  ghost predicate Leads(made: nat, h: Header, g: Header) {
    exists hs: seq<Header>, ss: seq<Signed> :: Chain(FIRST, hs, ss) && |ss| == made + 1 && hs[made] == h && hs[made + 1] == g
  }

  lemma {:induction false} Longer(hs: seq<Header>, ss: seq<Signed>, s: Signed, g: Header)
    requires Chain(FIRST, hs, ss) && Follows(hs[|ss|], s, g)
    ensures Chain(FIRST, hs + [g], ss + [s])
  {
    var hs', ss' := hs + [g], ss + [s];
    forall i {:trigger ss'[i]} | 0 <= i < |ss'| ensures Follows(hs'[i], ss'[i], hs'[i + 1]) {
      if i < |ss| {
        assert ss'[i] == ss[i] && hs'[i] == hs[i] && hs'[i + 1] == hs[i + 1];
      }
    }
  }

  lemma {:induction false} LeadsOn(made: nat, h: Header, g: Header, s: Signed, g': Header)
    requires Leads(made, h, g) && Follows(g, s, g')
    ensures Leads(made + 1, g, g')
  {
    var hs, ss :| Chain(FIRST, hs, ss) && |ss| == made + 1 && hs[made] == h && hs[made + 1] == g;
    Longer(hs, ss, s, g');
    assert (hs + [g'])[made + 1] == g && (hs + [g'])[made + 2] == g';
  }

  lemma {:induction false} LeadsFirst(h: Header, s: Signed, g: Header)
    requires h == Genesis(FIRST) && Follows(h, s, g)
    ensures Leads(0, h, g)
  {
    assert Chain(FIRST, [h], []);
    Longer([h], [], s, g);
    assert ([h] + [g])[1] == g && ([h] + [g])[0] == h;
  }

  lemma {:induction false} HalfWay() returns (h: Header, g: Header)
    ensures Leads(4, h, g)
    ensures g == Header(5, Counters([1, 2], 2), OfFours(5, 6, 3, 3)[9 := 4], OfFours(4, 4, 3, 3), 3, FOUR, TWO, 5)
  {
    var h0 := Genesis(FIRST);
    var h1 := Begins(h0, Signed(9, 0, None));
    LeadsFirst(h0, Signed(9, 0, None), h1);
    var h2 := Announces(h1, Signed(9, 0, Some(FOUR)));
    LeadsOn(0, h0, h1, Signed(9, 0, Some(FOUR)), h2);
    var h3 := HandsOver(h2, Signed(9, 0, None));
    LeadsOn(1, h1, h2, Signed(9, 0, None), h3);
    h := Starts(h3, Signed(1, 0, Some(TWO)));
    LeadsOn(2, h2, h3, Signed(1, 0, Some(TWO)), h);
    g := GoesOn(h, Signed(2, 1, None));
    LeadsOn(3, h3, h, Signed(2, 1, None), g);
  }

  /** Three of four producers make blocks and the fourth falls behind; it and a newcomer take over, and
      with the newcomer's first block the last irreversible number falls from 5 to 3. */
  lemma {:induction false} PromotionLowers()
    ensures exists h, g :: Leads(9, h, g) && h.irreversible == 5 && g.irreversible == 3
  {
    var h4, h5 := HalfWay();
    var h6 := Turns(h5, Signed(3, 2, None));
    LeadsOn(4, h4, h5, Signed(3, 2, None), h6);
    var h7 := TurnsAgain(h6, Signed(1, 2, None));
    LeadsOn(5, h5, h6, Signed(1, 2, None), h7);
    var h8 := TurnsOnceMore(h7, Signed(2, 2, None));
    LeadsOn(6, h6, h7, Signed(2, 2, None), h8);
    var h9 := TakeOver(h8, Signed(3, 2, None));
    LeadsOn(7, h7, h8, Signed(3, 2, None), h9);
    var h10 := Falls(h9, Signed(5, 0, None));
    LeadsOn(8, h8, h9, Signed(5, 0, None), h10);
  }

  // ---------- a block confirmed twice ----------

  const TWICE: seq<Signed> := [Signed(9, 0, None), Signed(9, 4, None)]

  lemma {:induction false} Wraps(h: Header, s: Signed) returns (g: Header)
    requires h == Header(1, Counters([], 0), map[9 := 2], map[9 := 0], 0, FIRST, {}, 0) && s == Signed(9, 4, None)
    ensures Follows(h, s, g)
  {
    Needs();
    AloneCounts(h.counters.proposed, 9, 4, h.made);
    OfOne(h.implied[9 := 2], 9);
    g := After(h, s, Counters([], 1), 2);
    assert Difference(Number(h.made), s.confirmed) == 0xFFFF_FFFF;
  }

  /** The third block claims to confirm four before it: the check lets it confirm the second again. */
  lemma {:induction false} ConfirmsTwice()
    ensures exists hs: seq<Header> :: Chain(FIRST, hs, TWICE) && Again(TWICE, 0, 1)
  {
    var h1 := Begins(Genesis(FIRST), TWICE[0]);
    var h2 := Wraps(h1, TWICE[1]);
    assert Chain(FIRST, [Genesis(FIRST), h1, h2], TWICE);
  }
}
