/** The part of a name after its last dot (name_suffix), computed with a mask and two shifts. */
module NameSuffix {
  import opened Names

  // ---------- what it is ----------

  // A dot with a character other than a dot somewhere behind it.
  ghost predicate ActualDot(n: nat, k: nat) {
    k < 12 && Char(n, k) == 0 && exists j :: k < j < 13 && Char(n, j) != 0
  }

  ghost predicate LastDot(n: nat, k: nat) {
    ActualDot(n, k) && forall i :: k < i < 12 ==> !ActualDot(n, i)
  }

  ghost predicate NoDot(n: nat) {
    forall i :: 0 <= i < 12 ==> !ActualDot(n, i)
  }

  // m holds the characters behind position k, moved to the left.
  ghost predicate Behind(n: nat, k: nat, m: nat) {
    forall j :: 0 <= j < 13 ==> Char(m, j) == Char(n, k + 1 + j)
  }

  // The name itself if it has no dot, else what is behind its last dot.
  ghost predicate IsSuffix(n: nat, m: nat) {
    (NoDot(n) && m == n) || exists k: nat :: LastDot(n, k) && Behind(n, k, m)
  }

  lemma {:induction false} LastDotUnique(n: nat, k: nat, l: nat)
    requires LastDot(n, k) && LastDot(n, l)
    ensures k == l
  {
    assert ActualDot(n, k) && ActualDot(n, l);
  }

  lemma {:induction false} BehindUnique(n: nat, k: nat, a: Word, b: Word)
    requires Behind(n, k, a) && Behind(n, k, b)
    ensures a == b
  {
    forall j | 0 <= j < 13 ensures Char(a, j) == Char(b, j) {
      assert Char(a, j) == Char(n, k + 1 + j);
    }
    SameChars(a, b);
  }

  lemma {:induction false} SuffixUnique(n: Word, a: Word, b: Word)
    requires IsSuffix(n, a) && IsSuffix(n, b)
    ensures a == b
  {
    if !NoDot(n) {
      var k: nat :| LastDot(n, k) && Behind(n, k, a);
      var l: nat :| LastDot(n, l) && Behind(n, l, b);
      LastDotUnique(n, k, l);
      BehindUnique(n, k, a, b);
    } else {
      NoLastDot(n);
    }
  }

  lemma {:induction false} NoLastDot(n: nat)
    requires NoDot(n)
    ensures forall k: nat :: !LastDot(n, k)
  {
    forall k: nat ensures !LastDot(n, k) {
      assert k < 12 ==> !ActualDot(n, k);
    }
  }

  lemma {:induction false} DotMoves(n: nat, k: nat, m: nat, i: nat)
    requires k < 12 && i < 12 && Behind(n, k, m)
    ensures ActualDot(m, i) ==> ActualDot(n, k + 1 + i)
  {
    assert Char(m, i) == Char(n, k + 1 + i);
    if ActualDot(m, i) {
      var j :| i < j < 13 && Char(m, j) != 0;
      assert Char(m, j) == Char(n, k + 1 + j);
    }
  }

  lemma {:induction false} SuffixHasNoDot(n: Word, m: Word)
    requires IsSuffix(n, m)
    ensures NoDot(m)
  {
    if !NoDot(n) {
      var k: nat :| LastDot(n, k) && Behind(n, k, m);
      forall i | 0 <= i < 12 ensures !ActualDot(m, i) {
        DotMoves(n, k, m, i);
      }
    }
  }

  // Taking the suffix again changes nothing.
  lemma {:induction false} SuffixIdempotent(n: Word, m: Word, again: Word)
    requires IsSuffix(n, m) && IsSuffix(m, again)
    ensures again == m
  {
    SuffixHasNoDot(n, m);
  }

  // But for the empty name it starts with a character other than a dot, and dots only end it.
  lemma {:induction false} SuffixStarts(n: Word, m: Word)
    requires n != 0 && IsSuffix(n, m)
    ensures Char(m, 0) != 0
    ensures forall i, j :: 0 <= i < j < 13 && Char(m, i) == 0 ==> Char(m, j) == 0
  {
    SuffixHasNoDot(n, m);
    forall i, j | 0 <= i < j < 13 && Char(m, i) == 0 ensures Char(m, j) == 0 {
      assert !ActualDot(m, i);
    }
    if NoDot(n) {
      if Char(n, 0) == 0 {
        assert !ActualDot(n, 0);
        AllDots();
        SameChars(n, 0);
      }
    } else {
      var k: nat :| LastDot(n, k) && Behind(n, k, m);
      assert Char(m, 0) == Char(n, k + 1 + 0);
      assert k + 1 < 12 ==> !ActualDot(n, k + 1);
    }
  }

  lemma {:induction false} Zero(k: nat)
    ensures Shr(0, k) == 0 && Low(0, k) == 0
    decreases k
  {
    if k > 0 {
      Zero(k - 1);
    }
  }

  lemma {:induction false} AllDots()
    ensures forall i :: Char(0, i) == 0
  {
    forall i: nat ensures Char(0, i) == 0 {
      if i < 12 {
        Zero(59 - 5 * i);
      }
      Zero(5);
      Zero(4);
    }
  }

  // ---------- the mask and the shifts ----------

  // The bits behind the dot but for the last character, and the last character, moved to the left.
  function High(n: nat, r: nat): nat
    requires 4 <= r <= 59
  {
    MaskKeeps(n, r, 4);
    Shl(Low(n, r) - Low(n, 4), 64 - r)
  }

  function Last(n: nat, r: nat): nat
    requires 4 <= r <= 59
  {
    Shl(Low(n, 4), 63 - r)
  }

  // The two parts have no bit in common and stay within 64 bits.
  lemma {:induction false} NoCarry(n: nat, r: nat)
    requires 4 <= r <= 59
    ensures And(High(n, r), Last(n, r)) == 0 && High(n, r) + Last(n, r) < WORDS
  {
    MaskKeeps(n, r, 4);
    var w := Widened(n, r);
    WideParts(n, r);
    Parts(n, 4);
    Shl4(1);
    ShlOrder(Low(n, 4), Shl(1, 4), 63 - r);
    ShlAdds(1, 4, 63 - r);
    ShlMiddle(n, r);
    OrIsSum(Middle(n, r), Last(n, r), 68 - r);
    WideBound(n, r);
    ShlOrder(w, Shl(1, r + 1), 63 - r);
    ShlAdds(1, r + 1, 63 - r);
    WordLimit();
  }

  // The characters behind the dot but for the last one, as a number; and with the last one.
  function Middle(n: nat, r: nat): nat
    requires 4 <= r
  {
    Shr(Low(n, r), 4)
  }

  function Widened(n: nat, r: nat): nat
    requires 4 <= r
  {
    32 * Middle(n, r) + Low(n, 4)
  }

  lemma {:induction false} ShlMiddle(n: nat, r: nat)
    requires 4 <= r <= 59
    ensures Low(n, 4) <= Low(n, r) && High(n, r) == Shl(Middle(n, r), 68 - r)
  {
    Parts(Low(n, r), 4);
    LowLow(n, r, 4);
    ShlAdds(Middle(n, r), 4, 64 - r);
  }

  lemma {:induction false} WideParts(n: nat, r: nat)
    requires 4 <= r <= 59
    ensures Low(n, 4) <= Low(n, r) && High(n, r) + Last(n, r) == Shl(Widened(n, r), 63 - r)
  {
    ShlMiddle(n, r);
    Shl5(Middle(n, r));
    ShlAdds(Middle(n, r), 5, 63 - r);
    ShlSum(32 * Middle(n, r), Low(n, 4), 63 - r);
  }

  lemma {:induction false} WideBound(n: nat, r: nat)
    requires 4 <= r
    ensures Widened(n, r) < Shl(1, r + 1)
  {
    Parts(n, r);
    Parts(Low(n, r), 4);
    LowLow(n, r, 4);
    Shl4(Middle(n, r));
    Shl4(1);
    Parts(n, 4);
    ShlAdds(1, 4, r - 4);
    MiddleBound(n, r);
    ShlAdds(1, r - 4, 5);
    Shl5(Shl(1, r - 4));
  }

  lemma {:induction false} MiddleBound(n: nat, r: nat)
    requires 4 <= r
    ensures Middle(n, r) < Shl(1, r - 4)
  {
    Parts(n, r);
    Parts(Low(n, r), 4);
    Shl4(Middle(n, r));
    ShlAdds(1, r - 4, 4);
    Shl4(Shl(1, r - 4));
  }

  // ---------- the characters of the result ----------

  lemma {:induction false} WideLast(n: nat, r: nat)
    requires 4 <= r
    ensures Shr(Widened(n, r), 5) == Middle(n, r) && Low(Widened(n, r), 5) == Low(n, 4)
  {
    Parts(n, 4);
    Shl4(1);
    Shl5(Middle(n, r));
    SplitAt(Middle(n, r), Low(n, 4), 5);
    Shl5(1);
  }

  // The characters of the result, position by position.
  lemma {:induction false} MovedChar(n: nat, k: nat, j: nat)
    requires k < 12 && j < 13
    ensures Char(Shl(Widened(n, 59 - 5 * k), 4 + 5 * k), j) == Char(n, k + 1 + j)
  {
    var r := 59 - 5 * k;
    var w := Widened(n, r);
    if j == 12 {
      LowShl(w, 4 + 5 * k, 4);
    } else {
      ShrShl(w, 4 + 5 * k, 59 - 5 * j);
      WideLast(n, r);
      if j > 11 - k {
        LowShl(w, 5 * (j + k - 11), 5);
      } else if j < 11 - k {
        var q := 10 - k - j;
        ShrAdds(w, 5, 5 * q);
        ShrAdds(Low(n, r), 4, 5 * q);
        LowShrLow(n, r, 4 + 5 * q, 5);
      }
    }
  }

  lemma {:induction false} MovedIsBehind(n: nat, k: nat)
    requires k < 12
    ensures Behind(n, k, High(n, 59 - 5 * k) + Last(n, 59 - 5 * k))
  {
    WideParts(n, 59 - 5 * k);
    var m := High(n, 59 - 5 * k) + Last(n, 59 - 5 * k);
    forall j | 0 <= j < 13 ensures Char(m, j) == Char(n, k + 1 + j) {
      MovedChar(n, k, j);
    }
  }

  // ---------- the code ----------

  // The last of the first i characters that is a dot, and the last with another character behind it
  // among the first i; 0 if there is none, else the number of bits behind the dot.
  ghost predicate Dots(n: nat, i: nat, tmp: nat, remaining: nat) {
    && (tmp == 0 ==> forall d :: 0 <= d < i ==> Char(n, d) != 0)
    && (tmp != 0 ==> exists d :: 0 <= d < i && Position(d, tmp) && Char(n, d) == 0 && forall e :: d < e < i ==> Char(n, e) != 0)
    && (remaining == 0 ==> forall d, e :: 0 <= d < e < i && Char(n, d) == 0 ==> Char(n, e) == 0)
    && (remaining != 0 ==> exists k :: 0 <= k < i && Position(k, remaining) && LastIn(n, k, i))
  }

  predicate Position(d: int, bits: nat) {
    bits == 59 - 5 * d
  }

  // The dot at k has another character behind it, and no later dot does, within the first i.
  ghost predicate LastIn(n: nat, k: nat, i: nat) {
    && Char(n, k) == 0 && (exists j :: k < j < i && Char(n, j) != 0)
    && forall d, e :: k < d < e < i && Char(n, d) == 0 ==> Char(n, e) == 0
  }

  lemma {:induction false} AfterDot(n: nat, i: nat, tmp: nat, remaining: nat)
    requires i < 12 && Dots(n, i, tmp, remaining) && Char(n, i) == 0
    ensures Dots(n, i + 1, 59 - 5 * i, remaining)
  {
    assert Position(i, 59 - 5 * i);
    if remaining != 0 {
      var k: nat :| 0 <= k < i && Position(k, remaining) && LastIn(n, k, i);
      assert LastIn(n, k, i + 1);
    }
  }

  lemma {:induction false} AfterLetter(n: nat, i: nat, tmp: nat, remaining: nat)
    requires i < 12 && Dots(n, i, tmp, remaining) && Char(n, i) != 0
    ensures Dots(n, i + 1, tmp, tmp)
  {
    if tmp != 0 {
      var d: nat :| 0 <= d < i && Position(d, tmp) && Char(n, d) == 0 && forall e :: d < e < i ==> Char(n, e) != 0;
      assert LastIn(n, d, i + 1);
    }
  }

  // With the thirteenth character the dots of the name are known.
  lemma {:induction false} DotsDone(n: nat, tmp: nat, remaining: nat, last: nat)
    requires Dots(n, 12, tmp, remaining) && last == if Char(n, 12) != 0 then tmp else remaining
    ensures last == 0 ==> NoDot(n)
    ensures last != 0 ==> exists k :: 0 <= k < 12 && Position(k, last) && LastDot(n, k)
  {
    if last != 0 {
      if Char(n, 12) != 0 {
        var d: nat :| 0 <= d < 12 && Position(d, tmp) && Char(n, d) == 0 && forall e :: d < e < 12 ==> Char(n, e) != 0;
        assert LastDot(n, d);
      } else {
        var k: nat :| 0 <= k < 12 && Position(k, remaining) && LastIn(n, k, 12);
        assert LastDot(n, k);
      }
    }
  }

  // The number of bits behind the last dot, 0 if there is none.
  ghost predicate BitsBehindDot(n: nat, remaining: nat) {
    && (remaining == 0 ==> NoDot(n))
    && (remaining != 0 ==> exists k :: 0 <= k < 12 && Position(k, remaining) && LastDot(n, k))
  }

  // The loop of name_suffix
  method FindLastDot(n: Word) returns (remaining: nat)
    ensures BitsBehindDot(n, remaining)
  {
    remaining := 0;
    var tmp: nat := 0;
    var bits := 59;
    ghost var i := 0;
    while bits >= 4
      invariant 0 <= i <= 12 && bits == 59 - 5 * i && Dots(n, i, tmp, remaining)
    {
      var c := And(Shr(n, bits), 0x1F);
      Low5(Shr(n, bits));
      if c == 0 {
        AfterDot(n, i, tmp, remaining);
        tmp := bits;
      } else {
        AfterLetter(n, i, tmp, remaining);
        remaining := tmp;
      }
      bits, i := bits - 5, i + 1;
    }
    Low4(n);
    DotsDone(n, tmp, remaining, if Char(n, 12) != 0 then tmp else remaining);
    if And(n, 0xF) != 0 {
      remaining := tmp;
    }
  }

  lemma {:induction false} MaskedParts(n: nat, remaining: nat, mask: nat)
    requires 4 <= remaining <= 59 && 16 + mask == Shl(1, remaining)
    ensures Shl(And(n, mask), 64 - remaining) == High(n, remaining)
    ensures Shl(And(n, 0xF), 63 - remaining) == Last(n, remaining)
  {
    MaskKeeps(n, remaining, 4);
    Shl4(1);
    Low4(n);
  }

  lemma {:induction false} ShiftedIsSuffix(n: Word, remaining: nat)
    requires remaining != 0 && BitsBehindDot(n, remaining)
    ensures 4 <= remaining <= 59
    ensures High(n, remaining) + Last(n, remaining) < WORDS && IsSuffix(n, High(n, remaining) + Last(n, remaining))
  {
    var k: nat :| 0 <= k < 12 && Position(k, remaining) && LastDot(n, k);
    MovedIsBehind(n, k);
    NoCarry(n, remaining);
  }

  lemma {:induction false} MaskFits(remaining: nat)
    requires 4 <= remaining
    ensures Shl(1, remaining) >= 16
  {
    MaskKeeps(0, remaining, 4);
    Shl4(1);
  }

  method Suffix(n: Word) returns (m: Word)
    ensures IsSuffix(n, m)
  {
    var remaining := FindLastDot(n);
    if remaining == 0 {
      return n;
    }
    ShiftedIsSuffix(n, remaining);
    MaskFits(remaining);
    var mask := Shl(1, remaining) - 16;
    MaskedParts(n, remaining, mask);
    var shift := 64 - remaining;
    m := Shl(And(n, mask), shift) + Shl(And(n, 0xF), shift - 1);
  }
}
