/** Consequences and limits of the round trip: the built-in types, values that come back
    unchanged, positional against keyed input, and the ABIs and values on which it fails. */
module AbiTheorems {
  import opened Options
  import opened RawPack
  import opened AbiCodec
  import opened AbiRoundTrip

  // ---------- the built-in types ----------

  function IntegerType(size: nat, signed: bool): Builtin {
    Builtin(
      (v: Value) => if v.Num? then Ok(PackLE(v.n, size)) else Err,
      (s: seq<Byte>) => if |s| < size then Err else Ok(Read(Num(UnpackLE(s[..size], signed)), s[size..])),
      (v: Value) => if v.Num? then Num(Wrap(v.n, size, signed)) else v)
  }

  function VarUnsignedType(): Builtin {
    Builtin(
      (v: Value) => if v.Num? then Ok(PackVar(v.n % TWO32)) else Err,
      (s: seq<Byte>) => var r := UnpackVar(s); if r.Err? then Err else Ok(Read(Num(r.value.item), r.value.rest)),
      (v: Value) => if v.Num? then Num(v.n % TWO32) else v)
  }

  function ToInt32(n: int): Int32 {
    var u := n % TWO32;
    if u >= 0x8000_0000 then u - TWO32 else u
  }

  function VarSignedType(): Builtin {
    Builtin(
      (v: Value) => if v.Num? then Ok(PackVar(Zigzag(ToInt32(v.n)))) else Err,
      (s: seq<Byte>) => var r := UnpackLongVar(s);
           if r.Err? || r.value.item >= TWO32 then Err else Ok(Read(Num(Unzigzag(r.value.item)), r.value.rest)),
      (v: Value) => if v.Num? then Num(Unzigzag(Zigzag(ToInt32(v.n)))) else v)
  }

  function TextType(): Builtin {
    Builtin(
      (v: Value) => if v.Str? then PackText(v.s) else Err,
      (s: seq<Byte>) => var r := UnpackText(s); if r.Err? then Err else Ok(Read(Str(r.value.item), r.value.rest)),
      (v: Value) => v)
  }

  // Integers of any width survive exactly when they are values of their type.
  lemma {:induction false} IntegerLawful(size: nat, signed: bool)
    requires size > 0
    ensures Lawful(IntegerType(size, signed))
    ensures forall n :: IntegerType(size, signed).seen(Num(n)) == Num(n) <==> Fits(n, size, signed)
  {
    var p := IntegerType(size, signed);
    forall v, rest: seq<Byte> | p.pack(v).Ok?
      ensures p.pack(v).value != [] && p.unpack(p.pack(v).value + rest) == Ok(Read(p.seen(v), rest))
    {
      var b := p.pack(v).value;
      assert |b| == size && (b + rest)[..size] == b && (b + rest)[size..] == rest;
      LERoundTrip(v.n, size, signed);
    }
    forall n ensures p.seen(Num(n)) == Num(n) <==> Fits(n, size, signed) {
      WrapFits(n, size, signed);
    }
  }

  lemma {:induction false} VarUnsignedLawful()
    ensures Lawful(VarUnsignedType())
  {
    var p := VarUnsignedType();
    forall v, rest: seq<Byte> | p.pack(v).Ok?
      ensures p.pack(v).value != [] && p.unpack(p.pack(v).value + rest) == Ok(Read(p.seen(v), rest))
    {
      VarRoundTrip(v.n % TWO32, rest);
    }
  }

  // A signed variable-length integer comes back unchanged exactly within 31 bits.
  lemma {:induction false} VarSignedLawful()
    ensures Lawful(VarSignedType())
    ensures forall n: Int32 :: VarSignedType().seen(Num(n)) == Num(n) <==> -0x4000_0000 <= n < 0x4000_0000
  {
    var p := VarSignedType();
    forall v, rest: seq<Byte> | p.pack(v).Ok?
      ensures p.pack(v).value != [] && p.unpack(p.pack(v).value + rest) == Ok(Read(p.seen(v), rest))
    {
      VarRoundTrip(Zigzag(ToInt32(v.n)), rest);
    }
    forall n: Int32 ensures p.seen(Num(n)) == Num(n) <==> -0x4000_0000 <= n < 0x4000_0000 {
      assert ToInt32(n) == n;
      ZigzagRoundTrip(n);
    }
  }

  lemma {:induction false} TextLawful()
    ensures Lawful(TextType())
  {
    var p := TextType();
    forall v, rest: seq<Byte> | p.pack(v).Ok?
      ensures p.pack(v).value != [] && p.unpack(p.pack(v).value + rest) == Ok(Read(p.seen(v), rest))
    {
      TextRoundTrip(v.s, rest);
    }
  }

  // ---------- positional and keyed input ----------

  function Keyed(fields: seq<Field>, items: seq<Value>): seq<Entry> {
    if fields == [] || items == [] then []
    else [Entry(fields[0].name, items[0])] + Keyed(fields[1..], items[1..])
  }

  ghost predicate DistinctNames(fields: seq<Field>) {
    forall i, j :: 0 <= i < j < |fields| ==> fields[i].name != fields[j].name
  }

  lemma {:induction false} FindKeyed(fields: seq<Field>, items: seq<Value>, i: nat)
    requires DistinctNames(fields) && i < |fields|
    ensures Find(Keyed(fields, items), fields[i].name) == if i < |items| then Some(items[i]) else None
    decreases |fields|
  {
    if items != [] {
      if i > 0 {
        FindKeyed(fields[1..], items[1..], i - 1);
        assert fields[0].name != fields[i].name;
      }
    }
  }

  /** Positional input packs to the same bytes as the keyed input it stands for, unless it stops
      before a field that is not an extension: the positional writer does not look that far. */
  lemma {:induction false} PositionalIsKeyed(abi: Abi, fields: seq<Field>, items: seq<Value>, ext: bool, d: nat)
    requires DistinctNames(fields)
    ensures var keyed := EncodeFields(abi, fields, Keyed(fields, items), ext, false, d);
            var positional := EncodePositional(abi, fields, items, ext, d);
            && (keyed.Ok? ==> keyed == positional)
            && (keyed.Ok? <==> positional.Ok? && (|items| < |fields| ==> AllExtensions(fields[|items|..])))
  {
    assert fields[0..] == fields && items[..] == items;
    SuffixIsKeyed(abi, fields, items, 0, ext, d);
  }

  lemma {:induction false} SuffixIsKeyed(abi: Abi, fields: seq<Field>, items: seq<Value>, i: nat, ext: bool, d: nat)
    requires DistinctNames(fields) && i <= |fields| && i <= |items|
    ensures var keyed := EncodeFields(abi, fields[i..], Keyed(fields, items), ext, false, d);
            var positional := EncodePositional(abi, fields[i..], items[i..], ext, d);
            && (keyed.Ok? ==> keyed == positional)
            && (keyed.Ok? <==> positional.Ok? && (|items| < |fields| ==> AllExtensions(fields[|items|..])))
    decreases |fields| - i
  {
    var fs, vs := fields[i..], items[i..];
    if i < |fields| {
      FindKeyed(fields, items, i);
      assert fs[0] == fields[i] && fs[1..] == fields[i + 1..];
      if i < |items| {
        assert vs[0] == items[i] && vs[1..] == items[i + 1..];
        SuffixIsKeyed(abi, fields, items, i + 1, ext, d);
      } else {
        AllOmitted(abi, fields, items, i, ext, false, d);
      }
    }
  }

  lemma {:induction false} AllOmitted(
    abi: Abi, fields: seq<Field>, items: seq<Value>, i: nat, ext: bool, skipped: bool, d: nat)
    requires DistinctNames(fields) && |items| <= i <= |fields|
    ensures EncodeFields(abi, fields[i..], Keyed(fields, items), ext, skipped, d)
         == if i < |fields| && (!ext || !AllExtensions(fields[i..])) then Err else Ok([])
    decreases |fields| - i
  {
    if i < |fields| {
      FindKeyed(fields, items, i);
      var fs := fields[i..];
      assert fs[0] == fields[i] && fs[1..] == fields[i + 1..];
      assert AllExtensions(fs) <==> fs[0].extension && AllExtensions(fs[1..]);
      AllOmitted(abi, fields, items, i + 1, ext, true, d);
    }
  }

  // ---------- values that come back unchanged ----------

  // The fields of a struct with those of its bases first.
  function AllFields(abi: Abi, t: Type, level: nat): seq<Field>
    decreases MAX_DEPTH - level
  {
    if level >= MAX_DEPTH || !IsStruct(abi, t) then []
    else
      var st := abi.structs[t.name];
      (if st.base.None? then [] else AllFields(abi, Resolve(abi, st.base.value), level + 1)) + st.fields
  }

  /** A value in the decoder's own form: built-in values of their type, no absent optional as an
      array element, objects that list a leading part of the fields in order. */
  ghost predicate Canonical(abi: Abi, typ: Type, v: Value)
    decreases v
  {
    var t := Resolve(abi, typ);
    if IsBuiltin(abi, t) then
      var p := abi.builtins[Fundamental(t).name];
      if t.ArrayOf? then v.Arr? && forall i :: 0 <= i < |v.items| ==> p.seen(v.items[i]) == v.items[i]
      else (t.OptionalOf? && v.Null?) || p.seen(v) == v
    else if t.ArrayOf? then
      v.Arr? && forall i :: 0 <= i < |v.items| ==> !v.items[i].Null? && Canonical(abi, t.elem, v.items[i])
    else if t.OptionalOf? then false
    else if t.name in abi.variants then
      && v.Arr? && |v.items| == 2 && v.items[0].Str?
      && var types := abi.variants[t.name];
         var i := IndexOf(types, v.items[0].s);
         i < |types| && Canonical(abi, types[i], v.items[1])
    else
      && v.Obj?
      && var fs := AllFields(abi, t, 0);
         && DistinctNames(fs)
         && |v.entries| <= |fs|
         && forall i :: 0 <= i < |v.entries| ==>
              v.entries[i].name == fs[i].name && Canonical(abi, fs[i].typ, v.entries[i].value)
  }

  ghost predicate Lists(abi: Abi, fs: seq<Field>, entries: seq<Entry>) {
    && DistinctNames(fs)
    && |entries| <= |fs|
    && forall i :: 0 <= i < |entries| ==> entries[i].name == fs[i].name && Canonical(abi, fs[i].typ, entries[i].value)
  }

  function Upto(entries: seq<Entry>, n: nat): seq<Entry> {
    if n <= |entries| then entries[..n] else entries
  }

  lemma {:induction false} FindListed(fs: seq<Field>, entries: seq<Entry>, i: nat)
    requires DistinctNames(fs) && |entries| <= |fs| && i < |fs|
    requires forall k :: 0 <= k < |entries| ==> entries[k].name == fs[k].name
    ensures Find(entries, fs[i].name) == if i < |entries| then Some(entries[i].value) else None
    decreases |entries|
  {
    if entries != [] {
      if i > 0 {
        FindListed(fs[1..], entries[1..], i - 1);
        assert fs[0].name != fs[i].name;
      }
    }
  }

  lemma {:induction false} PutAppends(acc: seq<Entry>, name: Name, v: Value)
    requires forall k :: 0 <= k < |acc| ==> acc[k].name != name
    ensures Put(acc, name, v) == acc + [Entry(name, v)]
    decreases |acc|
  {
    if acc != [] {
      PutAppends(acc[1..], name, v);
    }
  }

  lemma {:induction false} SeenUnchanged(abi: Abi, typ: Type, v: Value, dd: nat)
    requires Canonical(abi, typ, v) && Seen(abi, typ, v, dd).Ok?
    ensures Seen(abi, typ, v, dd) == Ok(v)
    decreases MAX_DEPTH - dd, 0, 0
  {
    var t := Resolve(abi, typ);
    if IsBuiltin(abi, t) {
      if t.ArrayOf? {
        AllUnchanged(abi.builtins[Fundamental(t).name], v.items);
      }
    } else if t.ArrayOf? {
      ItemsUnchanged(abi, t.elem, v.items, dd + 1);
    } else if t.name in abi.variants {
      var types := abi.variants[t.name];
      SeenUnchanged(abi, types[IndexOf(types, v.items[0].s)], v.items[1], dd + 1);
      assert v.items == [v.items[0], v.items[1]];
    } else {
      StructUnchanged(abi, t, v.entries, AllFields(abi, t, 0), 0, dd + 1);
      assert Upto(v.entries, |AllFields(abi, t, 0)|) == v.entries;
    }
  }

  lemma {:induction false} AllUnchanged(p: Builtin, vs: seq<Value>)
    requires forall i :: 0 <= i < |vs| ==> p.seen(vs[i]) == vs[i]
    ensures SeenAll(p, vs) == vs
    decreases |vs|
  {
    if vs != [] {
      AllUnchanged(p, vs[1..]);
    }
  }

  lemma {:induction false} ItemsUnchanged(abi: Abi, typ: Type, vs: seq<Value>, dd: nat)
    requires SeenItems(abi, typ, vs, dd).Ok? && forall i :: 0 <= i < |vs| ==> Canonical(abi, typ, vs[i])
    ensures SeenItems(abi, typ, vs, dd) == Ok(vs)
    decreases MAX_DEPTH - dd, 1, |vs|
  {
    if vs != [] {
      SeenUnchanged(abi, typ, vs[0], dd);
      ItemsUnchanged(abi, typ, vs[1..], dd);
      assert vs == [vs[0]] + vs[1..];
    }
  }

  lemma {:induction false} StructUnchanged(abi: Abi, t: Type, entries: seq<Entry>, fs: seq<Field>, level: nat, dd: nat)
    requires level < dd && AllFields(abi, t, level) <= fs && Lists(abi, fs, entries)
    requires SeenStruct(abi, t, Obj(entries), [], dd).Ok?
    ensures SeenStruct(abi, t, Obj(entries), [], dd).value == Upto(entries, |AllFields(abi, t, level)|)
    decreases MAX_DEPTH - dd, 0, 0
  {
    var st := abi.structs[t.name];
    var below := BaseFields(abi, st, level);
    PrefixParts(below, st.fields, fs);
    BaseUnchanged(abi, st, entries, fs, level, dd + 1);
    FieldsUnchanged(abi, st.fields, entries, fs, |below|, dd + 1);
  }

  function BaseFields(abi: Abi, st: Struct, level: nat): seq<Field> {
    if st.base.None? then [] else AllFields(abi, Resolve(abi, st.base.value), level + 1)
  }

  lemma {:induction false} BaseUnchanged(abi: Abi, st: Struct, entries: seq<Entry>, fs: seq<Field>, level: nat, dd: nat)
    requires level + 1 < dd < MAX_DEPTH && BaseFields(abi, st, level) <= fs && Lists(abi, fs, entries)
    requires BaseSeen(abi, st, Obj(entries), [], dd).Ok?
    ensures BaseSeen(abi, st, Obj(entries), [], dd) == Ok(Upto(entries, |BaseFields(abi, st, level)|))
    decreases MAX_DEPTH - dd, 1, 0
  {
    if st.base.Some? {
      StructUnchanged(abi, Resolve(abi, st.base.value), entries, fs, level + 1, dd);
    }
  }

  lemma {:induction false} PrefixParts<T>(a: seq<T>, b: seq<T>, s: seq<T>)
    requires a + b <= s
    ensures a <= s && |a| + |b| <= |s| && s[|a|..|a| + |b|] == b
  {
    assert a == (a + b)[..|a|];
    assert b == (a + b)[|a|..];
  }

  lemma {:induction false} FieldsUnchanged(
    abi: Abi, fields: seq<Field>, entries: seq<Entry>, fs: seq<Field>, from: nat, dd: nat)
    requires from + |fields| <= |fs| && fs[from..from + |fields|] == fields && Lists(abi, fs, entries)
    requires SeenFields(abi, fields, entries, Upto(entries, from), dd).Ok?
    ensures SeenFields(abi, fields, entries, Upto(entries, from), dd).value == Upto(entries, from + |fields|)
    decreases MAX_DEPTH - dd, 1, |fields|
  {
    if fields != [] {
      assert fields[0] == fs[from];
      assert fs[from + 1..from + 1 + |fields[1..]|] == fields[1..];
      FindListed(fs, entries, from);
      OneMore(fs, entries, from);
      if from < |entries| {
        SeenUnchanged(abi, fields[0].typ, entries[from].value, dd);
      }
      FieldsUnchanged(abi, fields[1..], entries, fs, from + 1, dd);
    }
  }

  lemma {:induction false} OneMore(fs: seq<Field>, entries: seq<Entry>, i: nat)
    requires DistinctNames(fs) && |entries| <= |fs| && i < |fs|
    requires forall k :: 0 <= k < |entries| ==> entries[k].name == fs[k].name
    ensures Upto(entries, i + 1)
         == if i < |entries| then Put(Upto(entries, i), fs[i].name, entries[i].value) else Upto(entries, i)
  {
    if i < |entries| {
      PutAppends(entries[..i], fs[i].name, entries[i].value);
      assert entries[i] == Entry(fs[i].name, entries[i].value);
      assert entries[..i + 1] == entries[..i] + [entries[i]];
    }
  }
}
