/** When the decoder accepts what was encoded: exactly if the value can be read at all and its nesting, as
    the decoder counts it, stays below the limit. */
module AbiDepth {
  import opened Options
  import opened RawPack
  import opened AbiCodec
  import opened AbiRoundTrip
  import opened AbiTheorems

  // ---------- the nesting of a value ----------

  type Need = Option<nat>

  function Deeper(n: Need): Need {
    if n.None? then None else Some(n.value + 1)
  }

  function Both(a: Need, b: Need): Need {
    if a.None? || b.None? then None else if a.value <= b.value then b else a
  }

  // An absent value as the decoder returns it.
  predicate Void(abi: Abi, typ: Type, v: Value) {
    var t := Resolve(abi, typ);
    IsBuiltin(abi, t) && SeenBuiltin(abi.builtins[Fundamental(t).name], v, t.ArrayOf?, t.OptionalOf?).Null?
  }

  lemma {:induction false} FindInside(entries: seq<Entry>, name: Name)
    requires Find(entries, name).Some?
    ensures exists i :: 0 <= i < |entries| && entries[i].value == Find(entries, name).value
    decreases |entries|
  {
    if entries[0].name != name {
      FindInside(entries[1..], name);
      var i :| 0 <= i < |entries[1..]| && entries[1..][i].value == Find(entries[1..], name).value;
      assert entries[i + 1] == entries[1..][i];
    }
  }

  /** The levels of nesting that reading the value takes: one for a built-in value, one around an array
      or a variant, two around a struct and one more around each base. There is none where an element of
      an array is absent, or where values given by position end before a field that is not an extension. */
  function Nesting(abi: Abi, typ: Type, v: Value): Need
    decreases v, 2, 0
  {
    var t := Resolve(abi, typ);
    if IsBuiltin(abi, t) then Some(1)
    else if t.ArrayOf? then if v.Arr? then Deeper(ItemsNesting(abi, t.elem, v, 0)) else None
    else if t.OptionalOf? then None
    else if t.name in abi.variants then
      if !v.Arr? || |v.items| != 2 || !v.items[0].Str? then None
      else
        var types := abi.variants[t.name];
        var i := IndexOf(types, v.items[0].s);
        if i == |types| then None else Deeper(Nesting(abi, types[i], v.items[1]))
    else Deeper(StructNesting(abi, t, v, 0))
  }

  function ItemsNesting(abi: Abi, typ: Type, v: Value, i: nat): Need
    requires v.Arr? && i <= |v.items|
    decreases v, 1, |v.items| - i
  {
    if i == |v.items| then Some(0)
    else if Void(abi, typ, v.items[i]) then None
    else Both(Nesting(abi, typ, v.items[i]), ItemsNesting(abi, typ, v, i + 1))
  }

  function StructNesting(abi: Abi, t: Type, v: Value, level: nat): Need
    decreases v, 1, MAX_DEPTH - level
  {
    if level >= MAX_DEPTH || !IsStruct(abi, t) then None
    else
      var st := abi.structs[t.name];
      var base := if st.base.None? then Some(0) else StructNesting(abi, Resolve(abi, st.base.value), v, level + 1);
      var own :=
        if v.Obj? then FieldsNesting(abi, st.fields, v)
        else if v.Arr? then PositionalNesting(abi, st.fields, v, 0)
        else None;
      Deeper(Both(base, own))
  }

  function FieldsNesting(abi: Abi, fields: seq<Field>, v: Value): Need
    requires v.Obj?
    decreases v, 0, |fields|
  {
    if fields == [] then Some(0)
    else
      var x := Find(v.entries, fields[0].name);
      var rest := FieldsNesting(abi, fields[1..], v);
      if x.None? then rest
      else
        FindInside(v.entries, fields[0].name);
        Both(Nesting(abi, fields[0].typ, x.value), rest)
  }

  function PositionalNesting(abi: Abi, fields: seq<Field>, v: Value, i: nat): Need
    requires v.Arr? && i <= |fields| && i <= |v.items|
    decreases v, 0, |fields| - i
  {
    if i == |fields| then Some(0)
    else if i == |v.items| then if AllExtensions(fields[i..]) then Some(0) else None
    else Both(Nesting(abi, fields[i].typ, v.items[i]), PositionalNesting(abi, fields, v, i + 1))
  }

  predicate Within(n: Need, depth: nat) {
    n.Some? && depth + n.value < MAX_DEPTH
  }

  lemma {:induction false} WithinBoth(a: Need, b: Need, depth: nat)
    ensures Within(Both(a, b), depth) <==> Within(a, depth) && Within(b, depth)
    ensures Within(Deeper(a), depth) <==> Within(a, depth + 1)
  {
  }

  // ---------- the decoder's count ----------

  /** The decoder sees an encodable value exactly when its nesting is within the limit. */
  lemma {:induction false} SeenIff(abi: Abi, typ: Type, v: Value, ext: bool, de: nat, dd: nat)
    requires Sane(abi) && Encode(abi, typ, v, ext, de).Ok?
    ensures Seen(abi, typ, v, dd).Ok? <==> Within(Nesting(abi, typ, v), dd)
    decreases MAX_DEPTH - de, 0, 1
  {
    var t := Resolve(abi, typ);
    if dd + 1 < MAX_DEPTH && !IsBuiltin(abi, t) {
      if t.ArrayOf? {
        ArrayIff(abi, t.elem, v, de + 1, dd);
      } else if t.name in abi.variants {
        VariantIff(abi, typ, t, v, ext, de, dd);
      } else {
        AtomIff(abi, typ, t, v, ext, de, dd);
      }
    }
  }

  lemma {:induction false} VariantIff(abi: Abi, typ: Type, t: Type, v: Value, ext: bool, de: nat, dd: nat)
    requires Sane(abi) && Encode(abi, typ, v, ext, de).Ok? && dd + 1 < MAX_DEPTH
    requires t == Resolve(abi, typ) && t.Atom? && !IsBuiltin(abi, t) && t.name in abi.variants
    ensures Seen(abi, typ, v, dd).Ok? <==> Within(Nesting(abi, typ, v), dd)
    decreases MAX_DEPTH - de, 0, 0
  {
    var types := abi.variants[t.name];
    var i := IndexOf(types, v.items[0].s);
    SeenIff(abi, types[i], v.items[1], ext, de + 1, dd + 1);
    WithinBoth(Nesting(abi, types[i], v.items[1]), None, dd);
  }

  lemma {:induction false} AtomIff(abi: Abi, typ: Type, t: Type, v: Value, ext: bool, de: nat, dd: nat)
    requires Sane(abi) && Encode(abi, typ, v, ext, de).Ok? && dd + 1 < MAX_DEPTH
    requires t == Resolve(abi, typ) && t.Atom? && !IsBuiltin(abi, t) && t.name !in abi.variants
    ensures Seen(abi, typ, v, dd).Ok? <==> Within(Nesting(abi, typ, v), dd)
    decreases MAX_DEPTH - de, 0, 0
  {
    StructIff(abi, t, v, [], ext, de + 1, dd + 1, 0);
    WithinBoth(StructNesting(abi, t, v, 0), None, dd);
  }

  lemma {:induction false} ArrayIff(abi: Abi, elem: Type, v: Value, de: nat, dd: nat)
    requires Sane(abi) && v.Arr? && EncodeItems(abi, elem, v.items, de).Ok? && dd + 1 < MAX_DEPTH
    ensures SeenItems(abi, elem, v.items, dd + 1).Ok? <==> Within(Deeper(ItemsNesting(abi, elem, v, 0)), dd)
    decreases MAX_DEPTH - de, 1, |v.items| + 1
  {
    assert v.items[0..] == v.items;
    ItemsIff(abi, elem, v, 0, de, dd + 1);
    WithinBoth(ItemsNesting(abi, elem, v, 0), None, dd);
  }

  lemma {:induction false} VoidIff(abi: Abi, typ: Type, v: Value, dd: nat)
    requires Seen(abi, typ, v, dd).Ok?
    ensures Seen(abi, typ, v, dd).value.Null? <==> Void(abi, typ, v)
  {
  }

  lemma {:induction false} ItemsIff(abi: Abi, typ: Type, v: Value, i: nat, de: nat, dd: nat)
    requires Sane(abi) && v.Arr? && i <= |v.items| && EncodeItems(abi, typ, v.items[i..], de).Ok? && dd < MAX_DEPTH
    ensures SeenItems(abi, typ, v.items[i..], dd).Ok? <==> Within(ItemsNesting(abi, typ, v, i), dd)
    decreases MAX_DEPTH - de, 1, |v.items| - i
  {
    if i < |v.items| {
      var vs := v.items[i..];
      assert vs[0] == v.items[i] && vs[1..] == v.items[i + 1..];
      SeenIff(abi, typ, vs[0], false, de, dd);
      ItemsIff(abi, typ, v, i + 1, de, dd);
      WithinBoth(Nesting(abi, typ, v.items[i]), ItemsNesting(abi, typ, v, i + 1), dd);
      if Seen(abi, typ, vs[0], dd).Ok? {
        VoidIff(abi, typ, vs[0], dd);
      }
    }
  }

  lemma {:induction false} BaseIff(abi: Abi, st: Struct, v: Value, acc: seq<Entry>, de: nat, dd: nat, level: nat)
    requires Sane(abi) && level < de < MAX_DEPTH && (st.base.Some? ==> v.Obj? && IsStruct(abi, Resolve(abi, st.base.value)))
    requires st.base.Some? ==> Encode(abi, Resolve(abi, st.base.value), v, false, de).Ok?
    requires dd < MAX_DEPTH
    ensures BaseSeen(abi, st, v, acc, dd).Ok? <==>
            Within(if st.base.None? then Some(0) else StructNesting(abi, Resolve(abi, st.base.value), v, level + 1), dd)
    decreases MAX_DEPTH - de, 1, 0
  {
    if st.base.Some? {
      BaseIsStruct(abi, Resolve(abi, st.base.value), v, v, de);
      StructIff(abi, Resolve(abi, st.base.value), v, acc, false, de + 1, dd, level + 1);
    }
  }

  lemma {:induction false} OwnIff(abi: Abi, st: Struct, v: Value, acc: seq<Entry>, ext: bool, de: nat, dd: nat)
    requires Sane(abi) && dd < MAX_DEPTH && EncodeStruct(abi, st, v, ext, de).Ok?
    ensures v.Obj? || v.Arr?
    ensures v.Obj? ==> (SeenFields(abi, st.fields, v.entries, acc, dd).Ok? <==> Within(FieldsNesting(abi, st.fields, v), dd))
    ensures v.Arr? ==>
              (SeenPositional(abi, st.fields, v.items, acc, dd).Ok? <==> Within(PositionalNesting(abi, st.fields, v, 0), dd))
    decreases MAX_DEPTH - de, 1, |st.fields| + 1
  {
    if v.Obj? {
      FieldsIff(abi, st.fields, v, acc, ext, false, de, dd);
    } else {
      assert st.fields[0..] == st.fields && v.items[0..] == v.items;
      PositionalIff(abi, st.fields, v, 0, acc, ext, de, dd);
    }
  }

  lemma {:induction false} StructIff(
    abi: Abi, t: Type, v: Value, acc: seq<Entry>, ext: bool, de: nat, dd: nat, level: nat)
    requires Sane(abi) && IsStruct(abi, t) && level < de < MAX_DEPTH
    requires EncodeStruct(abi, abi.structs[t.name], v, ext, de).Ok?
    ensures SeenStruct(abi, t, v, acc, dd).Ok? <==> Within(StructNesting(abi, t, v, level), dd)
    decreases MAX_DEPTH - de, 2, 0
  {
    assert SaneAt(abi, t.name);
    if dd + 1 < MAX_DEPTH {
      var st := abi.structs[t.name];
      BaseIff(abi, st, v, acc, de, dd + 1, level);
      var base := if st.base.None? then Some(0) else StructNesting(abi, Resolve(abi, st.base.value), v, level + 1);
      var own := if v.Obj? then FieldsNesting(abi, st.fields, v) else PositionalNesting(abi, st.fields, v, 0);
      var seen := BaseSeen(abi, st, v, acc, dd + 1);
      if seen.Ok? {
        OwnIff(abi, st, v, seen.value, ext, de, dd + 1);
      }
      WithinBoth(base, own, dd + 1);
      WithinBoth(Both(base, own), None, dd);
    }
  }

  lemma {:induction false} FieldsIff(
    abi: Abi, fields: seq<Field>, v: Value, acc: seq<Entry>, ext: bool, skipped: bool, de: nat, dd: nat)
    requires Sane(abi) && v.Obj? && EncodeFields(abi, fields, v.entries, ext, skipped, de).Ok? && dd < MAX_DEPTH
    ensures SeenFields(abi, fields, v.entries, acc, dd).Ok? <==> Within(FieldsNesting(abi, fields, v), dd)
    decreases MAX_DEPTH - de, 1, |fields|
  {
    if fields != [] {
      var f := fields[0];
      var x := Find(v.entries, f.name);
      if x.None? {
        FieldsIff(abi, fields[1..], v, acc, ext, true, de, dd);
      } else {
        SeenIff(abi, f.typ, x.value, ext && |fields| == 1, de, dd);
        var y := Seen(abi, f.typ, x.value, dd);
        FieldsIff(abi, fields[1..], v, if y.Ok? then Put(acc, f.name, y.value) else acc, ext, skipped, de, dd);
        WithinBoth(Nesting(abi, f.typ, x.value), FieldsNesting(abi, fields[1..], v), dd);
      }
    }
  }

  lemma {:induction false} PositionalIff(
    abi: Abi, fields: seq<Field>, v: Value, i: nat, acc: seq<Entry>, ext: bool, de: nat, dd: nat)
    requires Sane(abi) && v.Arr? && i <= |fields| && i <= |v.items| && dd < MAX_DEPTH
    requires EncodePositional(abi, fields[i..], v.items[i..], ext, de).Ok?
    ensures SeenPositional(abi, fields[i..], v.items[i..], acc, dd).Ok? <==> Within(PositionalNesting(abi, fields, v, i), dd)
    decreases MAX_DEPTH - de, 1, |fields| - i
  {
    if i < |fields| && i < |v.items| {
      var fs, vs := fields[i..], v.items[i..];
      assert fs[0] == fields[i] && fs[1..] == fields[i + 1..] && vs[0] == v.items[i] && vs[1..] == v.items[i + 1..];
      SeenIff(abi, fs[0].typ, vs[0], ext && |fs| == 1, de, dd);
      var y := Seen(abi, fs[0].typ, vs[0], dd);
      PositionalIff(abi, fields, v, i + 1, if y.Ok? then Put(acc, fs[0].name, y.value) else acc, ext, de, dd);
      WithinBoth(Nesting(abi, fields[i].typ, v.items[i]), PositionalNesting(abi, fields, v, i + 1), dd);
    }
  }

  // ---------- values that come back unchanged ----------

  // Canonical values can be read.
  lemma {:induction false} CanonicalNests(abi: Abi, typ: Type, v: Value, ext: bool, de: nat)
    requires Sane(abi) && Canonical(abi, typ, v) && Encode(abi, typ, v, ext, de).Ok?
    ensures Nesting(abi, typ, v).Some?
    decreases MAX_DEPTH - de, 0, 0
  {
    var t := Resolve(abi, typ);
    if !IsBuiltin(abi, t) {
      if t.ArrayOf? {
        assert v.items[0..] == v.items;
        ItemsNest(abi, t.elem, v, 0, de + 1);
      } else if t.name in abi.variants {
        var types := abi.variants[t.name];
        CanonicalNests(abi, types[IndexOf(types, v.items[0].s)], v.items[1], ext, de + 1);
      } else {
        StructNests(abi, t, v, AllFields(abi, t, 0), 0, ext, de + 1);
      }
    }
  }

  lemma {:induction false} NotVoid(abi: Abi, typ: Type, v: Value)
    requires Canonical(abi, typ, v) && !v.Null?
    ensures !Void(abi, typ, v)
  {
  }

  lemma {:induction false} ItemsNest(abi: Abi, typ: Type, v: Value, i: nat, de: nat)
    requires Sane(abi) && v.Arr? && i <= |v.items| && EncodeItems(abi, typ, v.items[i..], de).Ok?
    requires forall k :: 0 <= k < |v.items| ==> !v.items[k].Null? && Canonical(abi, typ, v.items[k])
    ensures ItemsNesting(abi, typ, v, i).Some?
    decreases MAX_DEPTH - de, 1, |v.items| - i
  {
    if i < |v.items| {
      assert v.items[i..][0] == v.items[i] && v.items[i..][1..] == v.items[i + 1..];
      NotVoid(abi, typ, v.items[i]);
      CanonicalNests(abi, typ, v.items[i], false, de);
      ItemsNest(abi, typ, v, i + 1, de);
    }
  }

  lemma {:induction false} BaseNests(abi: Abi, st: Struct, v: Value, fs: seq<Field>, level: nat, de: nat)
    requires Sane(abi) && level < de < MAX_DEPTH && v.Obj? && BaseFields(abi, st, level) <= fs && Lists(abi, fs, v.entries)
    requires st.base.Some? ==> IsStruct(abi, Resolve(abi, st.base.value))
    requires st.base.Some? ==> Encode(abi, Resolve(abi, st.base.value), v, false, de).Ok?
    ensures st.base.Some? ==> StructNesting(abi, Resolve(abi, st.base.value), v, level + 1).Some?
    decreases MAX_DEPTH - de, 1, 0
  {
    if st.base.Some? {
      BaseIsStruct(abi, Resolve(abi, st.base.value), v, v, de);
      StructNests(abi, Resolve(abi, st.base.value), v, fs, level + 1, false, de + 1);
    }
  }

  lemma {:induction false} StructNests(abi: Abi, t: Type, v: Value, fs: seq<Field>, level: nat, ext: bool, de: nat)
    requires Sane(abi) && IsStruct(abi, t) && level < de < MAX_DEPTH
    requires v.Obj? && AllFields(abi, t, level) <= fs && Lists(abi, fs, v.entries)
    requires EncodeStruct(abi, abi.structs[t.name], v, ext, de).Ok?
    ensures StructNesting(abi, t, v, level).Some?
    decreases MAX_DEPTH - de, 2, 0
  {
    var st := abi.structs[t.name];
    assert SaneAt(abi, t.name);
    var below := BaseFields(abi, st, level);
    PrefixParts(below, st.fields, fs);
    BaseNests(abi, st, v, fs, level, de);
    FieldsNest(abi, st.fields, v, fs, |below|, ext, false, de);
  }

  lemma {:induction false} FieldsNest(
    abi: Abi, fields: seq<Field>, v: Value, fs: seq<Field>, from: nat, ext: bool, skipped: bool, de: nat)
    requires Sane(abi) && v.Obj? && from + |fields| <= |fs| && fs[from..from + |fields|] == fields && Lists(abi, fs, v.entries)
    requires EncodeFields(abi, fields, v.entries, ext, skipped, de).Ok?
    ensures FieldsNesting(abi, fields, v).Some?
    decreases MAX_DEPTH - de, 1, |fields|
  {
    if fields != [] {
      assert fields[0] == fs[from];
      assert fs[from + 1..from + 1 + |fields[1..]|] == fields[1..];
      FindListed(fs, v.entries, from);
      if from < |v.entries| {
        CanonicalNests(abi, fields[0].typ, v.entries[from].value, ext && |fields| == 1, de);
        FieldsNest(abi, fields[1..], v, fs, from + 1, ext, skipped, de);
      } else {
        FieldsNest(abi, fields[1..], v, fs, from + 1, ext, true, de);
      }
    }
  }

  /** A canonical value that encodes comes back unchanged, with exactly the bytes that follow, if its
      nesting as the decoder counts it stays below the limit, and is rejected otherwise. */
  lemma {:induction false} ValueRoundTrip(abi: Abi, met: set<Type>, typ: Type, v: Value, ext: bool, de: nat, dd: nat, rest: seq<Byte>)
    requires Sane(abi) && Solid(abi, met) && typ in met && Canonical(abi, typ, v)
    requires Encode(abi, typ, v, ext, de).Ok? && (ext ==> rest == [])
    ensures Nesting(abi, typ, v).Some?
    ensures Decode(abi, typ, Encode(abi, typ, v, ext, de).value + rest, dd)
         == if dd + Nesting(abi, typ, v).value < MAX_DEPTH then Ok(Read(v, rest)) else Err
  {
    RoundTrip(abi, met, typ, v, ext, de, dd, rest);
    CanonicalNests(abi, typ, v, ext, de);
    SeenIff(abi, typ, v, ext, de, dd);
    if Seen(abi, typ, v, dd).Ok? {
      SeenUnchanged(abi, typ, v, dd);
    }
  }
}
