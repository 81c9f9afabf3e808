/** The suffix of a name given as text: what follows its last dot, a leading dot included. */
module NameDots {
  import opened Names
  import opened NameSuffix
  import opened NameText

  // Characters other than dots.
  predicate Letters(s: string) {
    forall i :: 0 <= i < |s| ==> CharToSymbol(s[i]) != 0
  }

  // A text that fits a name: no more than thirteen characters, the thirteenth one of four bits.
  predicate Fitting(s: string) {
    |s| <= 13 && (|s| == 13 ==> CharToSymbol(s[12]) < 16)
  }

  lemma {:induction false} FittingSymbol(s: string, i: nat)
    requires Fitting(s)
    ensures SymbolAt(s, i) == if i < |s| then CharToSymbol(s[i]) else 0
  {
    if i == 12 < |s| {
      Zero(4);
      Shl4(0);
      Shl4(1);
      SplitAt(0, CharToSymbol(s[12]), 4);
    }
  }

  lemma {:induction false} DotAt(head: string, tail: string, s: string, n: nat)
    requires s == head + "." + tail && Fitting(s) && Letters(tail) && tail != "" && n == NameOf(s)
    ensures LastDot(n, |head|)
  {
    var k := |head|;
    forall i: nat | k <= i < 13 ensures Char(n, i) == if k < i < |s| then CharToSymbol(tail[i - k - 1]) else 0 {
      NameOfChars(s, i);
      FittingSymbol(s, i);
      if k < i < |s| {
        assert s[i] == tail[i - k - 1];
      } else if i == k {
        assert s[i] == '.';
      }
    }
    assert Char(n, k + 1) == CharToSymbol(tail[0]);
    forall i | k < i < 12 ensures !ActualDot(n, i) {
      if i < |s| {
        assert Char(n, i) == CharToSymbol(tail[i - k - 1]);
      } else {
        assert forall j :: i < j < 13 ==> Char(n, j) == 0;
      }
    }
  }

  /** A name with a dot, and letters behind it, has the name of those letters as its suffix, whether or not
      anything is in front of the dot. */
  lemma {:induction false} SuffixOfText(head: string, tail: string, s: string)
    requires s == head + "." + tail && Fitting(s) && Letters(tail) && tail != ""
    ensures IsSuffix(NameOf(s), NameOf(tail))
  {
    var n, m, k := NameOf(s), NameOf(tail), |head|;
    DotAt(head, tail, s, n);
    forall j | 0 <= j < 13 ensures Char(m, j) == Char(n, k + 1 + j) {
      NameOfChars(tail, j);
      FittingSymbol(tail, j);
      NameOfChars(s, k + 1 + j);
      FittingSymbol(s, k + 1 + j);
      if j < |tail| {
        assert s[k + 1 + j] == tail[j];
      }
    }
    assert Behind(n, k, m);
  }

  /** A leading dot counts: the suffix of ".abc" is "abc" and not the name itself. */
  lemma {:induction false} LeadingDotCounts()
    ensures IsSuffix(NameOf(".abc"), NameOf("abc")) && NameOf(".abc") != NameOf("abc")
  {
    var s, tail := ".abc", "abc";
    assert s == "" + "." + tail;
    SuffixOfText("", tail, s);
    NameOfChars(s, 0);
    NameOfChars(tail, 0);
  }
}
