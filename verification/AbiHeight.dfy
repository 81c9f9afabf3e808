/** When a value encodes: exactly if it fits its type and its nesting, as the encoder counts it, stays below
    the limit. */
module AbiHeight {
  import opened Options
  import opened RawPack
  import opened AbiCodec
  import opened AbiRoundTrip
  import opened AbiTheorems
  import opened AbiDepth

  /** The levels of nesting that writing the value takes: one for a built-in value, one around an array, a
      variant or a struct, and one more around each base. There is none where the value does not fit the
      type. `ext` says whether trailing extensions may be left out. */
  function Height(abi: Abi, typ: Type, v: Value, ext: bool): Need
    decreases v, 2, 0
  {
    var t := Resolve(abi, typ);
    if IsBuiltin(abi, t) then
      if PackBuiltin(abi.builtins[Fundamental(t).name], v, t.ArrayOf?, t.OptionalOf?).Ok? then Some(1) else None
    else if t.ArrayOf? then
      if v.Arr? && |v.items| < TWO32 then Deeper(ItemsHeight(abi, t.elem, v, 0)) else None
    else if t.OptionalOf? then None
    else if t.name in abi.variants then
      if !v.Arr? || |v.items| != 2 || !v.items[0].Str? then None
      else
        var types := abi.variants[t.name];
        var i := IndexOf(types, v.items[0].s);
        if i == |types| then None else Deeper(Height(abi, types[i], v.items[1], ext))
    else Deeper(StructHeight(abi, t, v, ext, 0))
  }

  function ItemsHeight(abi: Abi, typ: Type, v: Value, i: nat): Need
    requires v.Arr? && i <= |v.items|
    decreases v, 1, |v.items| - i
  {
    if i == |v.items| then Some(0) else Both(Height(abi, typ, v.items[i], false), ItemsHeight(abi, typ, v, i + 1))
  }

  // Around the fields of the struct, those of its bases one level further down each.
  function StructHeight(abi: Abi, t: Type, v: Value, ext: bool, level: nat): Need
    decreases v, 1, MAX_DEPTH - level, 0
  {
    if level >= MAX_DEPTH || !IsStruct(abi, t) then None
    else
      var st := abi.structs[t.name];
      if v.Obj? then
        var base := if st.base.None? then Some(0) else BaseHeight(abi, Resolve(abi, st.base.value), v, level);
        Both(base, FieldsHeight(abi, st.fields, v, ext, false))
      else if v.Arr? && st.base.None? then PositionalHeight(abi, st.fields, v, 0, ext)
      else None
  }

  function BaseHeight(abi: Abi, base: Type, v: Value, level: nat): Need
    requires level < MAX_DEPTH
    decreases v, 1, MAX_DEPTH - level - 1, 1
  {
    if base.Atom? && base.name in abi.variants then None else Deeper(StructHeight(abi, base, v, false, level + 1))
  }

  function FieldsHeight(abi: Abi, fields: seq<Field>, v: Value, ext: bool, skipped: bool): Need
    requires v.Obj?
    decreases v, 0, |fields|
  {
    if fields == [] then Some(0)
    else
      var x := Find(v.entries, fields[0].name);
      if x.Some? then
        if skipped then None
        else
          FindInside(v.entries, fields[0].name);
          Both(Height(abi, fields[0].typ, x.value, ext && |fields| == 1), FieldsHeight(abi, fields[1..], v, ext, skipped))
      else if fields[0].extension && ext then FieldsHeight(abi, fields[1..], v, ext, true)
      else None
  }

  function PositionalHeight(abi: Abi, fields: seq<Field>, v: Value, i: nat, ext: bool): Need
    requires v.Arr? && i <= |fields| && i <= |v.items|
    decreases v, 0, |fields| - i
  {
    if i == |fields| then Some(0)
    else if i < |v.items| then
      Both(Height(abi, fields[i].typ, v.items[i], ext && i + 1 == |fields|), PositionalHeight(abi, fields, v, i + 1, ext))
    else if fields[i].extension && ext then Some(0)
    else None
  }

  // ---------- the encoder's count ----------

  /** Every value encodes exactly when its nesting is within the limit. */
  lemma {:induction false} EncodesIff(abi: Abi, typ: Type, v: Value, ext: bool, de: nat)
    requires Sane(abi)
    ensures Encode(abi, typ, v, ext, de).Ok? <==> Within(Height(abi, typ, v, ext), de)
    decreases MAX_DEPTH - de, 0, 1
  {
    var t := Resolve(abi, typ);
    if de + 1 < MAX_DEPTH && !IsBuiltin(abi, t) {
      if t.ArrayOf? {
        ArrayEncodes(abi, typ, t, v, ext, de);
      } else if t.Atom? && t.name in abi.variants {
        VariantEncodes(abi, typ, t, v, ext, de);
      } else if t.Atom? {
        AtomEncodes(abi, typ, t, v, ext, de);
      }
    }
  }

  lemma {:induction false} ArrayEncodes(abi: Abi, typ: Type, t: Type, v: Value, ext: bool, de: nat)
    requires Sane(abi) && de + 1 < MAX_DEPTH && t == Resolve(abi, typ) && t.ArrayOf? && !IsBuiltin(abi, t)
    ensures Encode(abi, typ, v, ext, de).Ok? <==> Within(Height(abi, typ, v, ext), de)
    decreases MAX_DEPTH - de, 0, 0
  {
    if v.Arr? {
      assert v.items[0..] == v.items;
      ItemsEncode(abi, t.elem, v, 0, de + 1);
      WithinBoth(ItemsHeight(abi, t.elem, v, 0), None, de);
    }
  }

  lemma {:induction false} VariantEncodes(abi: Abi, typ: Type, t: Type, v: Value, ext: bool, de: nat)
    requires Sane(abi) && de + 1 < MAX_DEPTH
    requires t == Resolve(abi, typ) && t.Atom? && !IsBuiltin(abi, t) && t.name in abi.variants
    ensures Encode(abi, typ, v, ext, de).Ok? <==> Within(Height(abi, typ, v, ext), de)
    decreases MAX_DEPTH - de, 0, 0
  {
    var types := abi.variants[t.name];
    if v.Arr? && |v.items| == 2 && v.items[0].Str? && IndexOf(types, v.items[0].s) < |types| {
      var i := IndexOf(types, v.items[0].s);
      EncodesIff(abi, types[i], v.items[1], ext, de + 1);
      WithinBoth(Height(abi, types[i], v.items[1], ext), None, de);
    }
  }

  lemma {:induction false} AtomEncodes(abi: Abi, typ: Type, t: Type, v: Value, ext: bool, de: nat)
    requires Sane(abi) && de + 1 < MAX_DEPTH
    requires t == Resolve(abi, typ) && t.Atom? && !IsBuiltin(abi, t) && t.name !in abi.variants
    ensures Encode(abi, typ, v, ext, de).Ok? <==> Within(Height(abi, typ, v, ext), de)
    decreases MAX_DEPTH - de, 0, 0
  {
    WithinBoth(StructHeight(abi, t, v, ext, 0), None, de);
    if t.name in abi.structs {
      StructEncodes(abi, t, v, ext, de + 1, 0);
    }
  }

  lemma {:induction false} ItemsEncode(abi: Abi, typ: Type, v: Value, i: nat, de: nat)
    requires Sane(abi) && v.Arr? && i <= |v.items| && de < MAX_DEPTH
    ensures EncodeItems(abi, typ, v.items[i..], de).Ok? <==> Within(ItemsHeight(abi, typ, v, i), de)
    decreases MAX_DEPTH - de, 1, |v.items| - i
  {
    if i < |v.items| {
      var vs := v.items[i..];
      assert vs[0] == v.items[i] && vs[1..] == v.items[i + 1..];
      EncodesIff(abi, typ, vs[0], false, de);
      ItemsEncode(abi, typ, v, i + 1, de);
      WithinBoth(Height(abi, typ, v.items[i], false), ItemsHeight(abi, typ, v, i + 1), de);
    }
  }

  lemma {:induction false} BaseEncodes(abi: Abi, base: Type, v: Value, de: nat, level: nat)
    requires Sane(abi) && IsStruct(abi, base) && Resolve(abi, base) == base && v.Obj? && level < de < MAX_DEPTH
    ensures Encode(abi, base, v, false, de).Ok? <==> Within(BaseHeight(abi, base, v, level), de)
    decreases MAX_DEPTH - de, 1, 0
  {
    assert SaneAt(abi, base.name);
    WithinBoth(StructHeight(abi, base, v, false, level + 1), None, de);
    if base.name !in abi.variants && de + 1 < MAX_DEPTH {
      StructEncodes(abi, base, v, false, de + 1, level + 1);
    }
  }

  lemma {:induction false} StructEncodes(abi: Abi, t: Type, v: Value, ext: bool, de: nat, level: nat)
    requires Sane(abi) && IsStruct(abi, t) && level < de < MAX_DEPTH
    ensures EncodeStruct(abi, abi.structs[t.name], v, ext, de).Ok? <==> Within(StructHeight(abi, t, v, ext, level), de)
    decreases MAX_DEPTH - de, 2, 0
  {
    assert SaneAt(abi, t.name);
    var st := abi.structs[t.name];
    if v.Obj? {
      var base := if st.base.None? then Some(0) else BaseHeight(abi, Resolve(abi, st.base.value), v, level);
      if st.base.Some? {
        BaseEncodes(abi, Resolve(abi, st.base.value), v, de, level);
      }
      FieldsEncode(abi, st.fields, v, ext, false, de);
      WithinBoth(base, FieldsHeight(abi, st.fields, v, ext, false), de);
    } else if v.Arr? && st.base.None? {
      assert st.fields[0..] == st.fields && v.items[0..] == v.items;
      PositionalEncodes(abi, st.fields, v, 0, ext, de);
    }
  }

  lemma {:induction false} FieldsEncode(abi: Abi, fields: seq<Field>, v: Value, ext: bool, skipped: bool, de: nat)
    requires Sane(abi) && v.Obj? && de < MAX_DEPTH
    ensures EncodeFields(abi, fields, v.entries, ext, skipped, de).Ok? <==> Within(FieldsHeight(abi, fields, v, ext, skipped), de)
    decreases MAX_DEPTH - de, 1, |fields|
  {
    if fields != [] {
      var f := fields[0];
      var x := Find(v.entries, f.name);
      if x.Some? {
        EncodesIff(abi, f.typ, x.value, ext && |fields| == 1, de);
        FieldsEncode(abi, fields[1..], v, ext, skipped, de);
        WithinBoth(Height(abi, f.typ, x.value, ext && |fields| == 1), FieldsHeight(abi, fields[1..], v, ext, skipped), de);
      } else {
        FieldsEncode(abi, fields[1..], v, ext, true, de);
      }
    }
  }

  lemma {:induction false} PositionalEncodes(abi: Abi, fields: seq<Field>, v: Value, i: nat, ext: bool, de: nat)
    requires Sane(abi) && v.Arr? && i <= |fields| && i <= |v.items| && de < MAX_DEPTH
    ensures EncodePositional(abi, fields[i..], v.items[i..], ext, de).Ok? <==> Within(PositionalHeight(abi, fields, v, i, ext), de)
    decreases MAX_DEPTH - de, 1, |fields| - i
  {
    if i < |fields| && i < |v.items| {
      var fs, vs := fields[i..], v.items[i..];
      assert fs[0] == fields[i] && fs[1..] == fields[i + 1..] && vs[0] == v.items[i] && vs[1..] == v.items[i + 1..];
      EncodesIff(abi, fs[0].typ, vs[0], ext && |fs| == 1, de);
      PositionalEncodes(abi, fields, v, i + 1, ext, de);
      WithinBoth(Height(abi, fields[i].typ, v.items[i], ext && i + 1 == |fields|), PositionalHeight(abi, fields, v, i + 1, ext), de);
    }
  }

  /** A canonical value encodes, and its bytes decode to it with what follows left, exactly when both counts
      are below the limit; where it encodes but the decoder's count is not, decoding fails. */
  lemma {:induction false} CanonicalRoundTrip(
    abi: Abi, met: set<Type>, typ: Type, v: Value, ext: bool, de: nat, dd: nat, rest: seq<Byte>)
    requires Sane(abi) && Solid(abi, met) && typ in met && Canonical(abi, typ, v) && (ext ==> rest == [])
    ensures var r := Encode(abi, typ, v, ext, de);
            && (r.Ok? <==> Within(Height(abi, typ, v, ext), de))
            && (r.Ok? ==> Decode(abi, typ, r.value + rest, dd)
                          == if Within(Nesting(abi, typ, v), dd) then Ok(Read(v, rest)) else Err)
  {
    EncodesIff(abi, typ, v, ext, de);
    if Encode(abi, typ, v, ext, de).Ok? {
      ValueRoundTrip(abi, met, typ, v, ext, de, dd, rest);
    }
  }
}
