/** Names compare as numbers the way their texts compare as strings. */
module NameOrder {
  import opened Names
  import opened NameText

  // ---------- characters decide the order ----------

  // The first difference is at position k, and there m has the smaller character.
  ghost predicate FirstLess(m: nat, n: nat, k: nat) {
    k < 13 && Char(m, k) < Char(n, k) && forall i :: 0 <= i < k ==> Char(m, i) == Char(n, i)
  }

  lemma {:induction false} HeadLess(m: Word, n: Word, k: nat, i: nat)
    requires FirstLess(m, n, k) && k < i <= 12
    ensures Head(m, i) < Head(n, i)
    decreases i
  {
    HeadNext(m, i - 1);
    HeadNext(n, i - 1);
    if i == k + 1 {
      SameHeads(m, n, k);
    } else {
      HeadLess(m, n, k, i - 1);
    }
  }

  lemma {:induction false} FirstLessIsLess(m: Word, n: Word, k: nat)
    requires FirstLess(m, n, k)
    ensures m < n
  {
    WholeName(m);
    WholeName(n);
    if k < 12 {
      HeadLess(m, n, k, 12);
    } else {
      SameHeads(m, n, 12);
    }
  }

  // Different names differ first somewhere.
  lemma {:induction false} FindFirst(m: Word, n: Word, i: nat) returns (k: nat)
    requires i <= 13 && m != n && forall j :: 0 <= j < i ==> Char(m, j) == Char(n, j)
    ensures FirstLess(m, n, k) || FirstLess(n, m, k)
    decreases 13 - i
  {
    if i == 13 {
      SameChars(m, n);
      assert false;
    } else if Char(m, i) != Char(n, i) {
      k := i;
    } else {
      k := FindFirst(m, n, i + 1);
    }
  }

  // ---------- the order of texts ----------

  // std::less<string>: up to position k the texts agree, and there s ends or has the smaller character.
  ghost predicate LessAt(s: string, t: string, k: nat) {
    k <= |s| && k < |t| && s[..k] == t[..k] && (k == |s| || s[k] < t[k])
  }

  ghost predicate Less(s: string, t: string) {
    exists k: nat :: LessAt(s, t, k)
  }

  lemma {:induction false} NotBoth(s: string, t: string, k: nat, l: nat)
    requires LessAt(s, t, k)
    ensures !LessAt(t, s, l)
  {
    if k < l <= |t| && l < |s| {
      assert t[..l][k] == t[k] && s[..l][k] == s[k];
    } else if l < k {
      assert s[..k][l] == t[..k][l];
    }
  }

  lemma {:induction false} LessAsymmetric(s: string, t: string)
    requires Less(s, t)
    ensures !Less(t, s)
  {
    var k: nat :| LessAt(s, t, k);
    forall l: nat ensures !LessAt(t, s, l) {
      NotBoth(s, t, k, l);
    }
  }

  lemma {:induction false} TextLess(m: Word, n: Word, k: nat)
    requires FirstLess(m, n, k)
    ensures Less(Text(m), Text(n))
  {
    var s, t := Text(m), Text(n);
    TrimKeeps(FullText(m));
    TrimKeeps(FullText(n));
    CharBound(m, k);
    CharBound(n, k);
    GlyphSymbol(Char(n, k));
    GlyphOrder(Char(m, k), Char(n, k));
    assert FullText(n)[k] == Glyph(Char(n, k)) && FullText(m)[k] == Glyph(Char(m, k));
    assert k < |t|;
    var l := if k < |s| then k else |s|;
    forall i | 0 <= i < l ensures s[i] == t[i] {
      assert FullText(m)[i] == GlyphAt(m, i) && FullText(n)[i] == GlyphAt(n, i);
    }
    assert s[..l] == t[..l];
    assert LessAt(s, t, l);
  }

  /** The order of the 64-bit values is that of the texts. */
  lemma {:induction false} OrderIsAlphabetic(m: Word, n: Word)
    ensures m < n <==> Less(Text(m), Text(n))
  {
    if m == n {
      if Less(Text(m), Text(n)) {
        LessAsymmetric(Text(m), Text(n));
      }
    } else {
      var k := FindFirst(m, n, 0);
      if FirstLess(m, n, k) {
        FirstLessIsLess(m, n, k);
        TextLess(m, n, k);
      } else {
        FirstLessIsLess(n, m, k);
        TextLess(n, m, k);
        LessAsymmetric(Text(n), Text(m));
      }
    }
  }
}
