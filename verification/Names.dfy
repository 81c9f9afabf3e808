/** Account names: thirteen characters in 64 bits, twelve of five bits and a last one of four
    (name.hpp, name.cpp). Words are natural numbers, and the bit operations on them are spelled out. */
module Names {

  const WORDS := 0x1_0000_0000_0000_0000

  type Word = n: int | 0 <= n < 0x1_0000_0000_0000_0000

  // ---------- bit operations ----------

  function Shr(n: nat, k: nat): nat {
    if k == 0 then n else Shr(n / 2, k - 1)
  }

  // Without the limit of 64 bits; where the code shifts left, no bit is lost.
  function Shl(n: nat, k: nat): nat {
    if k == 0 then n else 2 * Shl(n, k - 1)
  }

  function And(a: nat, b: nat): nat {
    if a == 0 || b == 0 then 0 else 2 * And(a / 2, b / 2) + (if a % 2 == 1 && b % 2 == 1 then 1 else 0)
  }

  function Or(a: nat, b: nat): nat {
    if a == 0 then b else if b == 0 then a
    else 2 * Or(a / 2, b / 2) + (if a % 2 == 1 || b % 2 == 1 then 1 else 0)
  }

  // The bits below bit k.
  function Low(n: nat, k: nat): nat {
    if k == 0 then 0 else 2 * Low(n / 2, k - 1) + n % 2
  }

  lemma {:induction false} ShrAdds(n: nat, a: nat, b: nat)
    ensures Shr(Shr(n, a), b) == Shr(n, a + b)
    decreases a
  {
    if a > 0 {
      ShrAdds(n / 2, a - 1, b);
    }
  }

  lemma {:induction false} ShlAdds(n: nat, a: nat, b: nat)
    ensures Shl(Shl(n, a), b) == Shl(n, a + b)
    decreases b
  {
    if b > 0 {
      ShlAdds(n, a, b - 1);
    }
  }

  lemma {:induction false} ShlSum(m: nat, n: nat, k: nat)
    ensures Shl(m + n, k) == Shl(m, k) + Shl(n, k)
    decreases k
  {
    if k > 0 {
      ShlSum(m, n, k - 1);
    }
  }

  lemma {:induction false} ShlOrder(m: nat, n: nat, k: nat)
    ensures m < n ==> Shl(m, k) < Shl(n, k)
    decreases k
  {
    if k > 0 {
      ShlOrder(m, n, k - 1);
    }
  }

  // A word is its high part and its low part.
  lemma {:induction false} Parts(n: nat, k: nat)
    ensures n == Shl(Shr(n, k), k) + Low(n, k) && Low(n, k) < Shl(1, k)
    decreases k
  {
    if k > 0 {
      Parts(n / 2, k - 1);
    }
  }

  lemma {:induction false} ShlHalf(n: nat, k: nat)
    requires k > 0
    ensures Shl(n, k) / 2 == Shl(n, k - 1) && Shl(n, k) % 2 == 0
  {
  }

  // Two words without a bit in common: or is addition, and no carry occurs.
  lemma {:induction false} OrIsSum(high: nat, low: nat, k: nat)
    requires low < Shl(1, k)
    ensures Or(Shl(high, k), low) == Shl(high, k) + low && And(Shl(high, k), low) == 0
    decreases k
  {
    if k > 0 {
      ShlHalf(high, k);
      OrIsSum(high, low / 2, k - 1);
    }
  }

  // The mask (1 << r) - (1 << s) keeps the bits from s up to r.
  lemma {:induction false} MaskKeeps(n: nat, r: nat, s: nat)
    requires s <= r
    ensures Shl(1, s) <= Shl(1, r) && Low(n, s) <= Low(n, r)
    ensures And(n, Shl(1, r) - Shl(1, s)) == Low(n, r) - Low(n, s)
    decreases r
  {
    if r > 0 {
      if s > 0 {
        MaskKeeps(n / 2, r - 1, s - 1);
        MaskHalf(Shl(1, r - 1), Shl(1, s - 1));
      } else {
        MaskKeeps(n / 2, r - 1, 0);
        MaskOdd(Shl(1, r - 1));
      }
    }
  }

  lemma {:induction false} MaskHalf(p: nat, q: nat)
    requires q <= p
    ensures (2 * p - 2 * q) / 2 == p - q && (2 * p - 2 * q) % 2 == 0
  {
  }

  lemma {:induction false} MaskOdd(p: nat)
    requires p > 0
    ensures (2 * p - 1) / 2 == p - 1 && (2 * p - 1) % 2 == 1
  {
  }

  lemma {:induction false} ShrShl(w: nat, a: nat, b: nat)
    ensures Shr(Shl(w, a), b) == if b >= a then Shr(w, b - a) else Shl(w, a - b)
    decreases b
  {
    if a > 0 && b > 0 {
      ShlHalf(w, a);
      ShrShl(w, a - 1, b - 1);
    }
  }

  lemma {:induction false} LowShl(w: nat, d: nat, t: nat)
    requires t <= d
    ensures Low(Shl(w, d), t) == 0
    decreases t
  {
    if t > 0 {
      ShlHalf(w, d);
      LowShl(w, d - 1, t - 1);
    }
  }

  lemma {:induction false} LowLow(n: nat, r: nat, t: nat)
    requires t <= r
    ensures Low(Low(n, r), t) == Low(n, t)
    decreases t
  {
    if t > 0 {
      LowLow(n / 2, r - 1, t - 1);
    }
  }

  lemma {:induction false} LowShrLow(n: nat, r: nat, k: nat, t: nat)
    requires k + t <= r
    ensures Low(Shr(Low(n, r), k), t) == Low(Shr(n, k), t)
    decreases k
  {
    if k == 0 {
      LowLow(n, r, t);
    } else {
      LowShrLow(n / 2, r - 1, k - 1, t);
    }
  }

  lemma {:induction false} SplitAt(high: nat, low: nat, k: nat)
    requires low < Shl(1, k)
    ensures Shr(Shl(high, k) + low, k) == high && Low(Shl(high, k) + low, k) == low
    decreases k
  {
    if k > 0 {
      SplitAt(high, low / 2, k - 1);
      assert (Shl(high, k) + low) / 2 == Shl(high, k - 1) + low / 2;
      assert (Shl(high, k) + low) % 2 == low % 2;
    }
  }

  lemma {:induction false} Low5(x: nat)
    ensures And(x, 0x1F) == Low(x, 5)
  {
    Shl5(1);
    MaskKeeps(x, 5, 0);
  }

  lemma {:induction false} Low4(x: nat)
    ensures And(x, 0xF) == Low(x, 4)
  {
    Shl4(1);
    MaskKeeps(x, 4, 0);
  }

  lemma {:induction false} LowSmall(n: nat, k: nat)
    requires n < Shl(1, k)
    ensures Low(n, k) == n
    decreases k
  {
    if k > 0 {
      LowSmall(n / 2, k - 1);
    }
  }

  // ---------- characters ----------

  // Characters are numbers below 32, and 0 is a dot. Beyond the thirteenth there are only dots.
  function Char(n: nat, i: nat): nat {
    if i < 12 then Low(Shr(n, 59 - 5 * i), 5) else if i == 12 then Low(n, 4) else 0
  }

  // The first i characters as a number.
  function Head(n: nat, i: nat): nat
    requires i <= 12
  {
    Shr(n, 64 - 5 * i)
  }

  lemma {:induction false} Shl4(x: nat)
    ensures Shl(x, 4) == 16 * x
  {
    assert Shl(x, 1) == 2 * x;
    assert Shl(x, 2) == 4 * x;
    assert Shl(x, 3) == 8 * x;
  }

  lemma {:induction false} Shl5(x: nat)
    ensures Shl(x, 5) == 32 * x
  {
    Shl4(x);
  }

  lemma {:induction false} Shl16(x: nat)
    ensures Shl(x, 16) == 0x1_0000 * x
  {
    Shl4(x);
    Shl4(16 * x);
    Shl4(256 * x);
    Shl4(4096 * x);
    ShlAdds(x, 4, 4);
    ShlAdds(x, 8, 4);
    ShlAdds(x, 12, 4);
  }

  lemma {:induction false} HeadNext(n: nat, i: nat)
    requires i < 12
    ensures Head(n, i + 1) == 32 * Head(n, i) + Char(n, i) && Char(n, i) < 32
  {
    var x := Shr(n, 59 - 5 * i);
    ShrAdds(n, 59 - 5 * i, 5);
    Parts(x, 5);
    Shl5(Shr(x, 5));
    Shl5(1);
  }

  lemma {:induction false} WholeName(n: nat)
    ensures n == 16 * Head(n, 12) + Char(n, 12) && Char(n, 12) < 16
  {
    Parts(n, 4);
    Shl4(Shr(n, 4));
    Shl4(1);
  }

  lemma {:induction false} ShrSmall(n: nat, k: nat)
    requires n < Shl(1, k)
    ensures Shr(n, k) == 0
    decreases k
  {
    if k > 0 {
      ShrSmall(n / 2, k - 1);
    }
  }

  lemma {:induction false} WordLimit()
    ensures Shl(1, 64) == WORDS
  {
    Shl16(1);
    Shl16(0x1_0000);
    Shl16(0x1_0000_0000);
    Shl16(0x1_0000_0000_0000);
    ShlAdds(1, 16, 16);
    ShlAdds(1, 32, 16);
    ShlAdds(1, 48, 16);
  }

  lemma {:induction false} HeadNone(n: Word)
    ensures Head(n, 0) == 0
  {
    WordLimit();
    ShrSmall(n, 64);
  }

  // The characters make up the name.
  lemma {:induction false} SameHeads(m: Word, n: Word, i: nat)
    requires i <= 12 && forall j :: 0 <= j < i ==> Char(m, j) == Char(n, j)
    ensures Head(m, i) == Head(n, i)
    decreases i
  {
    if i == 0 {
      HeadNone(m);
      HeadNone(n);
    } else {
      SameHeads(m, n, i - 1);
      HeadNext(m, i - 1);
      HeadNext(n, i - 1);
    }
  }

  lemma {:induction false} SameChars(m: Word, n: Word)
    requires forall j :: 0 <= j < 13 ==> Char(m, j) == Char(n, j)
    ensures m == n
  {
    SameHeads(m, n, 12);
    WholeName(m);
    WholeName(n);
  }
}
