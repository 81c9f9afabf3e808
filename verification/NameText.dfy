/** Names as text: the characters dot, 1 to 5 and a to z in order, without dots at the end. Encoding
    and printing undo each other, and names are in the order of their texts. */
module NameText {
  import opened Options
  import opened Names

  // ---------- characters ----------

  function CharToSymbol(c: char): (k: nat)
    ensures k < 32
  {
    if 'a' <= c <= 'z' then (c as int - 'a' as int) + 6
    else if '1' <= c <= '5' then (c as int - '1' as int) + 1
    else 0
  }

  // The entry of ".12345abcdefghijklmnopqrstuvwxyz"
  function Glyph(k: nat): char
    requires k < 32
  {
    if k == 0 then '.'
    else if k <= 5 then ('1' as int + k - 1) as char
    else ('a' as int + k - 6) as char
  }

  predicate Known(c: char) {
    c == '.' || '1' <= c <= '5' || 'a' <= c <= 'z'
  }

  lemma {:induction false} GlyphSymbol(k: nat)
    requires k < 32
    ensures CharToSymbol(Glyph(k)) == k && Known(Glyph(k)) && (Glyph(k) == '.' <==> k == 0)
  {
  }

  lemma {:induction false} SymbolGlyph(c: char)
    ensures Glyph(CharToSymbol(c)) == c <==> Known(c)
  {
  }

  lemma {:induction false} GlyphOrder(k: nat, l: nat)
    requires k < l < 32
    ensures Glyph(k) < Glyph(l)
  {
  }

  // ---------- encoding ----------

  // The symbol at position i: five bits, four for the thirteenth, and dots beyond the end.
  function SymbolAt(s: string, i: nat): nat {
    if i >= |s| || i > 12 then 0 else if i < 12 then CharToSymbol(s[i]) else Low(CharToSymbol(s[12]), 4)
  }

  function HeadOf(s: string, i: nat): nat {
    if i == 0 then 0 else 32 * HeadOf(s, i - 1) + SymbolAt(s, i - 1)
  }

  function NameOf(s: string): nat {
    16 * HeadOf(s, 12) + SymbolAt(s, 12)
  }

  lemma {:induction false} SymbolBound(s: string, i: nat)
    ensures SymbolAt(s, i) < 32 && (i == 12 ==> SymbolAt(s, i) < 16)
  {
    if i == 12 < |s| {
      Parts(CharToSymbol(s[12]), 4);
      Shl4(1);
    }
  }

  lemma {:induction false} HeadOfBound(s: string, i: nat)
    requires i <= 12
    ensures HeadOf(s, i) < Shl(1, 5 * i)
    decreases i
  {
    if i > 0 {
      HeadOfBound(s, i - 1);
      SymbolBound(s, i - 1);
      ShlAdds(1, 5 * (i - 1), 5);
      Shl5(Shl(1, 5 * (i - 1)));
    }
  }

  lemma {:induction false} NameOfBound(s: string)
    ensures NameOf(s) < WORDS
  {
    HeadOfBound(s, 12);
    SymbolBound(s, 12);
    ShlAdds(1, 60, 4);
    Shl4(Shl(1, 60));
    WordLimit();
  }

  lemma {:induction false} NameOfHead(s: string, i: nat)
    requires i <= 12
    ensures Head(NameOf(s), i) == HeadOf(s, i)
    decreases 12 - i
  {
    if i == 12 {
      SymbolBound(s, 12);
      Shl4(HeadOf(s, 12));
      Shl4(1);
      SplitAt(HeadOf(s, 12), SymbolAt(s, 12), 4);
    } else {
      NameOfHead(s, i + 1);
      ShrAdds(NameOf(s), 64 - 5 * (i + 1), 5);
      SymbolBound(s, i);
      Shl5(HeadOf(s, i));
      Shl5(1);
      SplitAt(HeadOf(s, i), SymbolAt(s, i), 5);
    }
  }

  // The characters of the name are the symbols of the text.
  lemma {:induction false} NameOfChars(s: string, i: nat)
    ensures Char(NameOf(s), i) == SymbolAt(s, i)
  {
    SymbolBound(s, i);
    if i < 12 {
      NameOfHead(s, i);
      NameOfHead(s, i + 1);
      HeadNext(NameOf(s), i);
    } else if i == 12 {
      Shl4(HeadOf(s, 12));
      Shl4(1);
      SplitAt(HeadOf(s, 12), SymbolAt(s, 12), 4);
    }
  }

  // One more character: or-ing it in below those already there.
  lemma {:induction false} OrNext(h: nat, symbol: nat, i: nat)
    requires i < 12 && symbol < 32
    ensures Or(Shl(h, 64 - 5 * i), Shl(symbol, 59 - 5 * i)) == Shl(32 * h + symbol, 59 - 5 * i)
  {
    ShlOrder(symbol, 32, 59 - 5 * i);
    Shl5(1);
    ShlAdds(1, 5, 59 - 5 * i);
    OrIsSum(h, Shl(symbol, 59 - 5 * i), 64 - 5 * i);
    Shl5(h);
    ShlAdds(h, 5, 59 - 5 * i);
    ShlSum(32 * h, symbol, 59 - 5 * i);
  }

  lemma {:induction false} Padded(s: string, i: nat)
    requires |s| <= i <= 12
    ensures Shl(HeadOf(s, i), 64 - 5 * i) == Shl(HeadOf(s, 12), 4)
    decreases 12 - i
  {
    if i < 12 {
      Shl5(HeadOf(s, i));
      ShlAdds(HeadOf(s, i), 5, 59 - 5 * i);
      Padded(s, i + 1);
    }
  }

  // string_to_name
  method StringToName(s: string) returns (name: nat)
    ensures name == NameOf(s)
  {
    name := 0;
    var i := 0;
    assert Shl(0, 64) == 0 by { ShlSum(0, 0, 64); }
    while i < |s| && i < 12
      invariant 0 <= i <= |s| && i <= 12 && name == Shl(HeadOf(s, i), 64 - 5 * i)
    {
      var symbol := And(CharToSymbol(s[i]), 0x1F);
      SymbolKept(s[i]);
      OrNext(HeadOf(s, i), symbol, i);
      name := Or(name, Shl(symbol, 64 - 5 * (i + 1)));
      i := i + 1;
    }
    if i < 12 {
      Padded(s, i);
    }
    Shl4(HeadOf(s, 12));
    if i == 12 {
      var symbol := if i < |s| then And(CharToSymbol(s[12]), 0x0F) else 0;
      if i < |s| {
        Low4(CharToSymbol(s[12]));
      }
      SymbolBound(s, 12);
      Shl4(1);
      OrIsSum(HeadOf(s, 12), symbol, 4);
      name := Or(name, symbol);
    }
  }

  lemma {:induction false} SymbolKept(c: char)
    ensures And(CharToSymbol(c), 0x1F) == CharToSymbol(c)
  {
    Low5(CharToSymbol(c));
    LowSmall(CharToSymbol(c), 5);
    Shl5(1);
  }

  // ---------- printing ----------

  function FullText(n: nat): (s: string)
    ensures |s| == 13
  {
    seq(13, i requires 0 <= i < 13 => GlyphAt(n, i))
  }

  function GlyphAt(n: nat, i: nat): char {
    CharBound(n, i);
    Glyph(Char(n, i))
  }

  lemma {:induction false} CharBound(n: nat, i: nat)
    ensures Char(n, i) < 32 && (i == 12 ==> Char(n, i) < 16)
  {
    if i < 12 {
      HeadNext(n, i);
    } else if i == 12 {
      WholeName(n);
    }
  }

  function Trim(s: string): string {
    if s == [] || s[|s| - 1] != '.' then s else Trim(s[..|s| - 1])
  }

  function Text(n: nat): string {
    Trim(FullText(n))
  }

  lemma {:induction false} TrimKeeps(s: string)
    ensures Trim(s) <= s && (Trim(s) != [] ==> Trim(s)[|Trim(s)| - 1] != '.')
    ensures forall i :: |Trim(s)| <= i < |s| ==> s[i] == '.'
    decreases |s|
  {
    if s != [] && s[|s| - 1] == '.' {
      TrimKeeps(s[..|s| - 1]);
    }
  }

  // A text is what remains of it and dots.
  lemma {:induction false} TrimIs(s: string, t: string)
    requires t <= s && (t != [] ==> t[|t| - 1] != '.') && forall i :: |t| <= i < |s| ==> s[i] == '.'
    ensures Trim(s) == t
    decreases |s|
  {
    if |t| < |s| {
      assert s[|s| - 1] == '.';
      TrimIs(s[..|s| - 1], t);
    }
  }

  // The conversion of a name to a string
  method ToText(n: Word) returns (s: string)
    ensures s == Text(n)
  {
    s := seq(13, _ => '.');
    var tmp: nat := n;
    var i := 0;
    while i <= 12
      invariant 0 <= i <= 13 && |s| == 13 && tmp == if i == 0 then n else Shr(n, 5 * i - 1)
      invariant forall j :: 13 - i <= j < 13 ==> s[j] == GlyphAt(n, j)
    {
      var k := And(tmp, if i == 0 then 0xF else 0x1F);
      Low4(tmp);
      Low5(tmp);
      CharBound(n, 12 - i);
      assert k == Char(n, 12 - i);
      s := s[12 - i := Glyph(k)];
      if i == 0 {
        ShrAdds(tmp, 0, 4);
      } else {
        ShrAdds(n, 5 * i - 1, 5);
      }
      tmp := Shr(tmp, if i == 0 then 4 else 5);
      i := i + 1;
    }
    assert s == FullText(n);
    s := TrimRight(s);
  }

  method TrimRight(s: string) returns (t: string)
    ensures t == Trim(s)
  {
    t := s;
    while t != [] && t[|t| - 1] == '.'
      invariant Trim(t) == Trim(s)
      decreases |t|
    {
      t := t[..|t| - 1];
    }
  }

  // ---------- encoding undoes printing ----------

  lemma {:induction false} TextSymbols(n: nat, i: nat)
    requires i < 13
    ensures SymbolAt(Text(n), i) == Char(n, i)
  {
    TrimKeeps(FullText(n));
    CharBound(n, i);
    assert FullText(n)[i] == Glyph(Char(n, i));
    GlyphSymbol(Char(n, i));
    if i == 12 < |Text(n)| {
      Shl4(1);
      LowSmall(Char(n, 12), 4);
    }
  }

  /** Every 64-bit value is the encoding of its text. */
  lemma {:induction false} EncodePrinted(n: Word)
    ensures NameOf(Text(n)) == n
  {
    NameOfBound(Text(n));
    forall i | 0 <= i < 13 ensures Char(NameOf(Text(n)), i) == Char(n, i) {
      NameOfChars(Text(n), i);
      TextSymbols(n, i);
    }
    SameChars(NameOf(Text(n)), n);
  }

  // ---------- printing undoes encoding ----------

  // At most thirteen known characters, the thirteenth of them one of the first sixteen, no dot at the end.
  predicate Canonical(s: string) {
    && |s| <= 13 && (s != [] ==> s[|s| - 1] != '.')
    && (forall i :: 0 <= i < |s| ==> Known(s[i]))
    && (|s| == 13 ==> CharToSymbol(s[12]) < 16)
  }

  lemma {:induction false} SymbolsShown(s: string, i: nat)
    requires i < 13
    ensures FullText(NameOf(s))[i] == GlyphAt(NameOf(s), i) && Char(NameOf(s), i) == SymbolAt(s, i)
  {
    NameOfChars(s, i);
  }

  lemma {:induction false} CanonicalShown(s: string)
    requires Canonical(s)
    ensures Text(NameOf(s)) == s
  {
    var full := FullText(NameOf(s));
    forall i | 0 <= i < 13 ensures full[i] == if i < |s| then s[i] else '.' {
      SymbolsShown(s, i);
      if i < |s| {
        SymbolGlyph(s[i]);
        if i == 12 {
          Shl4(1);
          LowSmall(CharToSymbol(s[12]), 4);
        }
      }
    }
    assert s <= full;
    TrimIs(full, s);
  }

  lemma {:induction false} ShownCanonical(n: Word)
    ensures Canonical(Text(n))
  {
    var full := FullText(n);
    TrimKeeps(full);
    forall i | 0 <= i < |Text(n)| ensures Known(Text(n)[i]) && CharToSymbol(Text(n)[i]) == Char(n, i) {
      CharBound(n, i);
      assert full[i] == Glyph(Char(n, i));
      GlyphSymbol(Char(n, i));
    }
    CharBound(n, 12);
  }

  /** A text comes back from its encoding exactly when it is canonical, which is when it is accepted. */
  lemma {:induction false} PrintEncoded(s: string)
    ensures Text(NameOf(s)) == s <==> Canonical(s)
  {
    if Canonical(s) {
      CanonicalShown(s);
    } else {
      NameOfBound(s);
      ShownCanonical(NameOf(s));
    }
  }

  // name::set
  method SetName(s: string) returns (r: Option<Word>)
    ensures r.Some? <==> Canonical(s)
    ensures r.Some? ==> r.value == NameOf(s)
  {
    PrintEncoded(s);
    if |s| > 13 {
      return None;
    }
    NameOfBound(s);
    var name := StringToName(s);
    var shown := ToText(name);
    return if shown == s then Some(name) else None;
  }
}
