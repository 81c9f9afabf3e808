/** Decoding undoes encoding: what the decoder returns for the bytes of any encodable value,
    followed by anything, is determined by the value alone. */
module AbiRoundTrip {
  import opened RawPack
  import opened AbiCodec

  // ---------- what the decoder sees of a value ----------

  function SeenBuiltin(p: Builtin, v: Value, isArray: bool, isOptional: bool): Value {
    if isArray && v.Arr? then Arr(SeenAll(p, v.items))
    else if isOptional && v.Null? then Null
    else p.seen(v)
  }

  function SeenAll(p: Builtin, vs: seq<Value>): seq<Value> {
    if vs == [] then [] else [p.seen(vs[0])] + SeenAll(p, vs[1..])
  }

  predicate AllExtensions(fields: seq<Field>) {
    forall i :: 0 <= i < |fields| ==> fields[i].extension
  }

  /** The decoded form of an encodable value: positional structs become keyed, entries that are not
      fields disappear. It fails where the decoder does: on an absent optional as an array element,
      on nesting beyond the limit, of which a struct takes two levels where the encoder takes one,
      and on positional input that ends before a field that is not an extension. */
  function Seen(abi: Abi, typ: Type, v: Value, depth: nat): Result<Value>
    decreases MAX_DEPTH - depth, 0, 0
  {
    var d := depth + 1;
    if d >= MAX_DEPTH then Err
    else
      var t := Resolve(abi, typ);
      if IsBuiltin(abi, t) then Ok(SeenBuiltin(abi.builtins[Fundamental(t).name], v, t.ArrayOf?, t.OptionalOf?))
      else if t.ArrayOf? then
        if !v.Arr? then Err
        else
          var r := SeenItems(abi, t.elem, v.items, d);
          if r.Err? then Err else Ok(Arr(r.value))
      else if t.OptionalOf? then Err
      else if t.name in abi.variants then
        if !v.Arr? || |v.items| != 2 || !v.items[0].Str? then Err
        else
          var types := abi.variants[t.name];
          var i := IndexOf(types, v.items[0].s);
          var r := if i == |types| then Err else Seen(abi, types[i], v.items[1], d);
          if r.Err? then Err else Ok(Arr([v.items[0], r.value]))
      else
        var r := SeenStruct(abi, t, v, [], d);
        if r.Err? then Err else Ok(Obj(r.value))
  }

  function SeenItems(abi: Abi, typ: Type, vs: seq<Value>, d: nat): Result<seq<Value>>
    decreases MAX_DEPTH - d, 1, |vs|
  {
    if vs == [] then Ok([])
    else
      var r, rs := Seen(abi, typ, vs[0], d), SeenItems(abi, typ, vs[1..], d);
      if r.Err? || rs.Err? || r.value.Null? then Err else Ok([r.value] + rs.value)
  }

  function SeenStruct(abi: Abi, t: Type, v: Value, acc: seq<Entry>, depth: nat): Result<seq<Entry>>
    decreases MAX_DEPTH - depth, 0, 0
  {
    var d := depth + 1;
    if d >= MAX_DEPTH || !t.Atom? || t.name !in abi.structs then Err
    else
      var st := abi.structs[t.name];
      var base := if st.base.None? then Ok(acc) else SeenStruct(abi, Resolve(abi, st.base.value), v, acc, d);
      if base.Err? then Err
      else if v.Obj? then SeenFields(abi, st.fields, v.entries, base.value, d)
      else if v.Arr? then SeenPositional(abi, st.fields, v.items, base.value, d)
      else Err
  }

  function SeenFields(abi: Abi, fields: seq<Field>, entries: seq<Entry>, acc: seq<Entry>, d: nat): Result<seq<Entry>>
    decreases MAX_DEPTH - d, 1, |fields|
  {
    if fields == [] then Ok(acc)
    else
      var x := Find(entries, fields[0].name);
      if x.None? then SeenFields(abi, fields[1..], entries, acc, d)
      else
        var r := Seen(abi, fields[0].typ, x.value, d);
        if r.Err? then Err else SeenFields(abi, fields[1..], entries, Put(acc, fields[0].name, r.value), d)
  }

  function SeenPositional(abi: Abi, fields: seq<Field>, items: seq<Value>, acc: seq<Entry>, d: nat): Result<seq<Entry>>
    decreases MAX_DEPTH - d, 1, |fields|
  {
    if fields == [] then Ok(acc)
    else if items == [] then if AllExtensions(fields) then Ok(acc) else Err
    else
      var r := Seen(abi, fields[0].typ, items[0], d);
      if r.Err? then Err
      else SeenPositional(abi, fields[1..], items[1..], Put(acc, fields[0].name, r.value), d)
  }

  // ---------- which ABIs ----------

  // The reader of a built-in type undoes its writer, whatever follows, and nothing packs to nothing.
  ghost predicate Lawful(p: Builtin) {
    forall v, rest :: p.pack(v).Ok? ==>
      p.pack(v).value != [] && p.unpack(p.pack(v).value + rest) == Ok(Read(p.seen(v), rest))
  }

  // A base, or a first field that is not an extension.
  predicate SolidStruct(st: Struct) {
    st.base.Some? || (st.fields != [] && !st.fields[0].extension)
  }

  ghost predicate FieldsIn(met: set<Type>, fields: seq<Field>) {
    forall i {:trigger fields[i]} :: 0 <= i < |fields| ==> fields[i].typ in met
  }

  ghost predicate StructIn(abi: Abi, met: set<Type>, st: Struct) {
    SolidStruct(st) && (st.base.Some? ==> Resolve(abi, st.base.value) in met) && FieldsIn(met, st.fields)
  }

  // The types met in values of the type are among the given ones, and if it is a struct it is solid.
  ghost predicate SolidAt(abi: Abi, met: set<Type>, typ: Type) {
    var t := Resolve(abi, typ);
    && (t.ArrayOf? && !IsBuiltin(abi, t) ==> t.elem in met)
    && (t.Atom? && !IsBuiltin(abi, t) && t.name in abi.variants ==> forall u :: u in abi.variants[t.name] ==> u in met)
    && (t.Atom? && !IsBuiltin(abi, t) && t.name !in abi.variants && t.name in abi.structs ==>
          StructIn(abi, met, abi.structs[t.name]))
  }

  /** Every struct met in values of the given types has a base or begins with a field that is not an
      extension; of the rest of the ABI nothing is asked. */
  ghost predicate Solid(abi: Abi, met: set<Type>) {
    && (forall t :: t in abi.builtins ==> Lawful(abi.builtins[t]))
    && (forall typ {:trigger SolidAt(abi, met, typ)} :: typ in met ==> SolidAt(abi, met, typ))
  }

  // A struct is not named like a built-in type, and its base is a struct.
  ghost predicate SaneAt(abi: Abi, t: Name) {
    t in abi.structs ==>
      && t !in abi.builtins
      && (abi.structs[t].base.Some? ==> IsStruct(abi, Resolve(abi, abi.structs[t].base.value)))
  }

  ghost predicate Sane(abi: Abi) {
    && (forall t {:trigger SaneAt(abi, t)} :: SaneAt(abi, t))
    && (forall t :: t in abi.variants ==> |abi.variants[t]| < TWO32)
  }

  predicate IsStruct(abi: Abi, t: Type) {
    t.Atom? && t.name in abi.structs
  }

  // ---------- built-in types ----------

  lemma {:induction false} AllRoundTrip(p: Builtin, vs: seq<Value>, rest: seq<Byte>)
    requires Lawful(p) && PackAll(p, vs).Ok?
    ensures UnpackAll(p, |vs|, PackAll(p, vs).value + rest) == Ok(Read(SeenAll(p, vs), rest))
    decreases |vs|
  {
    if vs == [] {
      assert PackAll(p, vs).value + rest == rest;
    } else {
      var b, bs := p.pack(vs[0]).value, PackAll(p, vs[1..]).value;
      assert p.unpack(b + (bs + rest)) == Ok(Read(p.seen(vs[0]), bs + rest));
      AllRoundTrip(p, vs[1..], rest);
      assert PackAll(p, vs).value + rest == b + (bs + rest);
    }
  }

  lemma {:induction false} BuiltinRoundTrip(p: Builtin, v: Value, isArray: bool, isOptional: bool, rest: seq<Byte>)
    requires Lawful(p) && PackBuiltin(p, v, isArray, isOptional).Ok?
    ensures PackBuiltin(p, v, isArray, isOptional).value != []
    ensures UnpackBuiltin(p, PackBuiltin(p, v, isArray, isOptional).value + rest, isArray, isOptional)
         == Ok(Read(SeenBuiltin(p, v, isArray, isOptional), rest))
  {
    var b := PackBuiltin(p, v, isArray, isOptional).value;
    if isArray {
      var bs := PackAll(p, v.items).value;
      VarRoundTrip(|v.items|, bs + rest);
      AllRoundTrip(p, v.items, rest);
      assert b + rest == PackVar(|v.items|) + (bs + rest);
    } else if isOptional {
      if v.Null? {
        assert (b + rest)[1..] == rest;
      } else {
        assert (b + rest)[1..] == p.pack(v).value + rest;
      }
    } else {
      assert p.unpack(p.pack(v).value + rest) == Ok(Read(p.seen(v), rest));
    }
  }

  // ---------- nothing packs to nothing ----------

  lemma {:induction false} NonEmpty(abi: Abi, met: set<Type>, typ: Type, v: Value, ext: bool, depth: nat)
    requires Sane(abi) && Solid(abi, met) && typ in met && Encode(abi, typ, v, ext, depth).Ok?
    ensures Encode(abi, typ, v, ext, depth).value != []
    decreases MAX_DEPTH - depth, 0, 0
  {
    assert SolidAt(abi, met, typ);
    var t := Resolve(abi, typ);
    if IsBuiltin(abi, t) {
      BuiltinRoundTrip(abi.builtins[Fundamental(t).name], v, t.ArrayOf?, t.OptionalOf?, []);
    } else if t.Atom? && t.name !in abi.variants {
      NonEmptyStruct(abi, met, t.name, v, ext, depth + 1);
    }
  }

  lemma {:induction false} NonEmptyStruct(abi: Abi, met: set<Type>, name: Name, v: Value, ext: bool, d: nat)
    requires Sane(abi) && Solid(abi, met) && name in abi.structs && StructIn(abi, met, abi.structs[name])
    requires EncodeStruct(abi, abi.structs[name], v, ext, d).Ok?
    ensures EncodeStruct(abi, abi.structs[name], v, ext, d).value != []
    decreases MAX_DEPTH - d, 2, 0
  {
    var st := abi.structs[name];
    if st.base.Some? {
      NonEmpty(abi, met, Resolve(abi, st.base.value), v, false, d);
    } else if v.Arr? {
      NonEmpty(abi, met, st.fields[0].typ, v.items[0], ext && |st.fields| == 1, d);
    } else {
      var x := Find(v.entries, st.fields[0].name);
      NonEmpty(abi, met, st.fields[0].typ, x.value, ext && |st.fields| == 1, d);
    }
  }

  // ---------- the round trip ----------

  function After<T>(r: Result<T>, rest: seq<Byte>): Result<Read<T>> {
    if r.Err? then Err else Ok(Read(r.value, rest))
  }

  // Once an extension field has been left out, nothing more is written.
  lemma {:induction false} SkippedIsEmpty(abi: Abi, fields: seq<Field>, entries: seq<Entry>, ext: bool, d: nat)
    requires EncodeFields(abi, fields, entries, ext, true, d).Ok?
    ensures EncodeFields(abi, fields, entries, ext, true, d).value == []
    decreases |fields|
  {
    if fields != [] {
      SkippedIsEmpty(abi, fields[1..], entries, ext, d);
    }
  }

  /** Whatever encodes decodes to its decoded form, and leaves exactly the bytes that follow; where
      the decoded form does not exist the decoder fails. Extension fields may be left out only
      when nothing follows. */
  lemma {:induction false} RoundTrip(abi: Abi, met: set<Type>, typ: Type, v: Value, ext: bool, de: nat, dd: nat, rest: seq<Byte>)
    requires Sane(abi) && Solid(abi, met) && typ in met && Encode(abi, typ, v, ext, de).Ok? && (ext ==> rest == [])
    ensures Decode(abi, typ, Encode(abi, typ, v, ext, de).value + rest, dd) == After(Seen(abi, typ, v, dd), rest)
    decreases MAX_DEPTH - de, 0, 0
  {
    assert SolidAt(abi, met, typ);
    if dd + 1 < MAX_DEPTH {
      var t := Resolve(abi, typ);
      if IsBuiltin(abi, t) {
        BuiltinRoundTrip(abi.builtins[Fundamental(t).name], v, t.ArrayOf?, t.OptionalOf?, rest);
      } else if t.ArrayOf? {
        ArrayRoundTrip(abi, met, t, v, de, dd, rest);
      } else if t.name in abi.variants {
        VariantRoundTrip(abi, met, t, v, ext, de, dd, rest);
      } else {
        StructRoundTrip(abi, met, t, v, ext, de + 1, dd + 1, [], rest);
      }
    }
  }

  lemma {:induction false} ArrayRoundTrip(abi: Abi, met: set<Type>, t: Type, v: Value, de: nat, dd: nat, rest: seq<Byte>)
    requires Sane(abi) && Solid(abi, met) && t.ArrayOf? && t.elem in met && v.Arr? && |v.items| < TWO32 && de + 1 < MAX_DEPTH
    requires EncodeItems(abi, t.elem, v.items, de + 1).Ok?
    ensures var s := PackVar(|v.items|) + EncodeItems(abi, t.elem, v.items, de + 1).value + rest;
            && UnpackVar(s).Ok? && UnpackVar(s).value.item == |v.items|
            && DecodeItems(abi, t.elem, |v.items|, UnpackVar(s).value.rest, dd + 1)
               == After(SeenItems(abi, t.elem, v.items, dd + 1), rest)
    decreases MAX_DEPTH - de - 1, 2, 0
  {
    var bs := EncodeItems(abi, t.elem, v.items, de + 1).value;
    assert PackVar(|v.items|) + bs + rest == PackVar(|v.items|) + (bs + rest);
    VarRoundTrip(|v.items|, bs + rest);
    ItemsRoundTrip(abi, met, t.elem, v.items, de + 1, dd + 1, rest);
  }

  // Reading the first item and then the others.
  lemma {:induction false} ItemsNext(
    abi: Abi, typ: Type, vs: seq<Value>, dd: nat, s: seq<Byte>, s1: seq<Byte>, rest: seq<Byte>)
    requires vs != [] && Decode(abi, typ, s, dd) == After(Seen(abi, typ, vs[0], dd), s1)
    requires DecodeItems(abi, typ, |vs| - 1, s1, dd) == After(SeenItems(abi, typ, vs[1..], dd), rest)
    ensures DecodeItems(abi, typ, |vs|, s, dd) == After(SeenItems(abi, typ, vs, dd), rest)
  {
  }

  lemma {:induction false} ItemsRoundTrip(abi: Abi, met: set<Type>, typ: Type, vs: seq<Value>, de: nat, dd: nat, rest: seq<Byte>)
    requires Sane(abi) && Solid(abi, met) && typ in met && EncodeItems(abi, typ, vs, de).Ok?
    ensures DecodeItems(abi, typ, |vs|, EncodeItems(abi, typ, vs, de).value + rest, dd)
         == After(SeenItems(abi, typ, vs, dd), rest)
    decreases MAX_DEPTH - de, 1, |vs|
  {
    if vs == [] {
      assert EncodeItems(abi, typ, vs, de).value + rest == rest;
    } else {
      var b, bs := Encode(abi, typ, vs[0], false, de).value, EncodeItems(abi, typ, vs[1..], de).value;
      assert EncodeItems(abi, typ, vs, de).value + rest == b + (bs + rest);
      RoundTrip(abi, met, typ, vs[0], false, de, dd, bs + rest);
      ItemsRoundTrip(abi, met, typ, vs[1..], de, dd, rest);
      ItemsNext(abi, typ, vs, dd, b + (bs + rest), bs + rest, rest);
    }
  }

  lemma {:induction false} VariantRoundTrip(abi: Abi, met: set<Type>, t: Type, v: Value, ext: bool, de: nat, dd: nat, rest: seq<Byte>)
    requires Sane(abi) && Solid(abi, met) && (ext ==> rest == []) && de + 1 < MAX_DEPTH
    requires t.Atom? && t.name in abi.variants && (forall u :: u in abi.variants[t.name] ==> u in met)
    requires v.Arr? && |v.items| == 2 && v.items[0].Str?
    requires var types := abi.variants[t.name];
             var i := IndexOf(types, v.items[0].s);
             i < |types| && Encode(abi, types[i], v.items[1], ext, de + 1).Ok?
    ensures var types := abi.variants[t.name];
            var i := IndexOf(types, v.items[0].s);
            var s := PackVar(i) + Encode(abi, types[i], v.items[1], ext, de + 1).value + rest;
            && UnpackVar(s).Ok? && UnpackVar(s).value.item == i
            && Decode(abi, types[i], UnpackVar(s).value.rest, dd + 1)
               == After(Seen(abi, types[i], v.items[1], dd + 1), rest)
    decreases MAX_DEPTH - de - 1, 2, 0
  {
    var types := abi.variants[t.name];
    var i := IndexOf(types, v.items[0].s);
    var b := Encode(abi, types[i], v.items[1], ext, de + 1).value;
    assert PackVar(i) + b + rest == PackVar(i) + (b + rest);
    VarRoundTrip(i, b + rest);
    RoundTrip(abi, met, types[i], v.items[1], ext, de + 1, dd + 1, rest);
  }

  lemma {:induction false} StructRoundTrip(
    abi: Abi, met: set<Type>, t: Type, v: Value, ext: bool, de: nat, dd: nat, acc: seq<Entry>, rest: seq<Byte>)
    requires Sane(abi) && Solid(abi, met) && IsStruct(abi, t) && StructIn(abi, met, abi.structs[t.name]) && (ext ==> rest == [])
    requires EncodeStruct(abi, abi.structs[t.name], v, ext, de).Ok?
    ensures DecodeStruct(abi, t, EncodeStruct(abi, abi.structs[t.name], v, ext, de).value + rest, acc, dd)
         == After(SeenStruct(abi, t, v, acc, dd), rest)
    ensures SeenStruct(abi, t, v, acc, dd).Ok? ==> SeenStruct(abi, t, v, acc, dd).value != []
    decreases MAX_DEPTH - de, 2, 0
  {
    assert SaneAt(abi, t.name);
    if dd + 1 < MAX_DEPTH {
      var st := abi.structs[t.name];
      if v.Arr? {
        PositionalRoundTrip(abi, met, st.fields, v.items, ext, de, dd + 1, acc, rest);
      } else {
        KeyedRoundTrip(abi, met, st, v, ext, de, dd + 1, acc, rest);
      }
    }
  }

  // What a struct has before its own fields are read, resp. seen.
  function BaseDecoded(abi: Abi, st: Struct, s: seq<Byte>, acc: seq<Entry>, d: nat): Result<Read<seq<Entry>>> {
    if st.base.None? then Ok(Read(acc, s)) else DecodeStruct(abi, Resolve(abi, st.base.value), s, acc, d)
  }

  function BaseSeen(abi: Abi, st: Struct, v: Value, acc: seq<Entry>, d: nat): Result<seq<Entry>> {
    if st.base.None? then Ok(acc) else SeenStruct(abi, Resolve(abi, st.base.value), v, acc, d)
  }

  lemma {:induction false} KeyedRoundTrip(
    abi: Abi, met: set<Type>, st: Struct, v: Value, ext: bool, de: nat, dd: nat, acc: seq<Entry>, rest: seq<Byte>)
    requires Sane(abi) && Solid(abi, met) && StructIn(abi, met, st) && v.Obj? && (ext ==> rest == [])
    requires st.base.Some? ==> IsStruct(abi, Resolve(abi, st.base.value))
    requires EncodeStruct(abi, st, v, ext, de).Ok?
    ensures var base := BaseDecoded(abi, st, EncodeStruct(abi, st, v, ext, de).value + rest, acc, dd);
            var seen := BaseSeen(abi, st, v, acc, dd);
            var r := if seen.Err? then Err else SeenFields(abi, st.fields, v.entries, seen.value, dd);
            && (base.Err? <==> seen.Err?)
            && (base.Ok? ==> DecodeFields(abi, st.fields, base.value.rest, base.value.item, dd) == After(r, rest))
            && (r.Ok? ==> r.value != [])
    decreases MAX_DEPTH - de, 1, |st.fields| + 1
  {
    var own := EncodeFields(abi, st.fields, v.entries, ext, false, de).value;
    var bytes := EncodeStruct(abi, st, v, ext, de).value;
    if st.base.Some? {
      var base := Resolve(abi, st.base.value);
      BaseRoundTrip(abi, met, base, v, de, dd, acc, own + rest);
      assert bytes + rest == Encode(abi, base, v, false, de).value + (own + rest);
    } else {
      assert bytes + rest == own + rest;
    }
    var seen := BaseSeen(abi, st, v, acc, dd);
    if seen.Ok? {
      FieldsRoundTrip(abi, met, st.fields, v.entries, ext, false, de, dd, seen.value, rest);
    }
  }

  // A base is written as a struct.
  lemma {:induction false} BaseIsStruct(abi: Abi, base: Type, v: Value, w: Value, d: nat)
    requires Sane(abi) && IsStruct(abi, base) && Resolve(abi, base) == base && v.Obj? && w.Obj?
    requires Encode(abi, base, v, false, d).Ok?
    ensures d + 1 < MAX_DEPTH && base.name !in abi.builtins && base.name !in abi.variants
    ensures Encode(abi, base, v, false, d) == EncodeStruct(abi, abi.structs[base.name], v, false, d + 1)
    ensures Encode(abi, base, w, false, d) == EncodeStruct(abi, abi.structs[base.name], w, false, d + 1)
  {
    assert SaneAt(abi, base.name);
  }

  // A base is encoded as a value of its own type and decoded into the object of the derived struct.
  lemma {:induction false} BaseRoundTrip(
    abi: Abi, met: set<Type>, base: Type, v: Value, de: nat, dd: nat, acc: seq<Entry>, rest: seq<Byte>)
    requires Sane(abi) && Solid(abi, met) && base in met && IsStruct(abi, base) && Resolve(abi, base) == base
    requires v.Obj? && Encode(abi, base, v, false, de).Ok?
    ensures DecodeStruct(abi, base, Encode(abi, base, v, false, de).value + rest, acc, dd)
         == After(SeenStruct(abi, base, v, acc, dd), rest)
    ensures SeenStruct(abi, base, v, acc, dd).Ok? ==> SeenStruct(abi, base, v, acc, dd).value != []
    decreases MAX_DEPTH - de, 0, 0
  {
    BaseIsStruct(abi, base, v, v, de);
    assert SaneAt(abi, base.name) && SolidAt(abi, met, base);
    StructRoundTrip(abi, met, base, v, false, de + 1, dd, acc, rest);
  }

  lemma {:induction false} FieldsRoundTrip(
    abi: Abi, met: set<Type>, fields: seq<Field>, entries: seq<Entry>, ext: bool, skipped: bool, de: nat, dd: nat, acc: seq<Entry>,
    rest: seq<Byte>)
    requires Sane(abi) && Solid(abi, met) && FieldsIn(met, fields) && (ext ==> rest == []) && (skipped ==> ext)
    requires EncodeFields(abi, fields, entries, ext, skipped, de).Ok?
    ensures DecodeFields(abi, fields, EncodeFields(abi, fields, entries, ext, skipped, de).value + rest, acc, dd)
         == After(SeenFields(abi, fields, entries, acc, dd), rest)
    ensures var r := SeenFields(abi, fields, entries, acc, dd);
            r.Ok? && (acc != [] || (fields != [] && !fields[0].extension)) ==> r.value != []
    decreases MAX_DEPTH - de, 1, |fields|
  {
    var bytes := EncodeFields(abi, fields, entries, ext, skipped, de).value;
    if fields == [] {
      assert bytes + rest == rest;
    } else {
      var f := fields[0];
      var x := Find(entries, f.name);
      if x.Some? {
        var last := ext && |fields| == 1;
        var b := Encode(abi, f.typ, x.value, last, de).value;
        var bs := EncodeFields(abi, fields[1..], entries, ext, skipped, de).value;
        NonEmpty(abi, met, f.typ, x.value, last, de);
        assert bytes + rest == b + (bs + rest);
        RoundTrip(abi, met, f.typ, x.value, last, de, dd, bs + rest);
        ResolveTwice(abi, f.typ, b + (bs + rest), dd);
        var seen := Seen(abi, f.typ, x.value, dd);
        if seen.Ok? {
          FieldsRoundTrip(abi, met, fields[1..], entries, ext, skipped, de, dd, Put(acc, f.name, seen.value), rest);
        }
      } else {
        SkippedIsEmpty(abi, fields[1..], entries, ext, de);
        FieldsRoundTrip(abi, met, fields[1..], entries, ext, true, de, dd, acc, rest);
      }
    }
  }

  lemma {:induction false} PositionalRoundTrip(
    abi: Abi, met: set<Type>, fields: seq<Field>, items: seq<Value>, ext: bool, de: nat, dd: nat, acc: seq<Entry>, rest: seq<Byte>)
    requires Sane(abi) && Solid(abi, met) && FieldsIn(met, fields) && (ext ==> rest == [])
    requires EncodePositional(abi, fields, items, ext, de).Ok?
    ensures DecodeFields(abi, fields, EncodePositional(abi, fields, items, ext, de).value + rest, acc, dd)
         == After(SeenPositional(abi, fields, items, acc, dd), rest)
    ensures var r := SeenPositional(abi, fields, items, acc, dd);
            r.Ok? && (acc != [] || (fields != [] && !fields[0].extension)) ==> r.value != []
    decreases MAX_DEPTH - de, 1, |fields|
  {
    var bytes := EncodePositional(abi, fields, items, ext, de).value;
    if fields == [] {
      assert bytes + rest == rest;
    } else if items == [] {
      AtEnd(abi, fields, acc, dd);
    } else {
      var f := fields[0];
      var last := ext && |fields| == 1;
      var b := Encode(abi, f.typ, items[0], last, de).value;
      var bs := EncodePositional(abi, fields[1..], items[1..], ext, de).value;
      NonEmpty(abi, met, f.typ, items[0], last, de);
      assert bytes + rest == b + (bs + rest);
      RoundTrip(abi, met, f.typ, items[0], last, de, dd, bs + rest);
      ResolveTwice(abi, f.typ, b + (bs + rest), dd);
      var seen := Seen(abi, f.typ, items[0], dd);
      if seen.Ok? {
        PositionalRoundTrip(abi, met, fields[1..], items[1..], ext, de, dd, Put(acc, f.name, seen.value), rest);
      }
    }
  }

  lemma {:induction false} AtEnd(abi: Abi, fields: seq<Field>, acc: seq<Entry>, dd: nat)
    ensures DecodeFields(abi, fields, [], acc, dd) == if AllExtensions(fields) then Ok(Read(acc, [])) else Err
    decreases |fields|
  {
    if fields != [] {
      AtEnd(abi, fields[1..], acc, dd);
      assert AllExtensions(fields) <==> fields[0].extension && AllExtensions(fields[1..]);
    }
  }

  lemma {:induction false} ResolveTwice(abi: Abi, typ: Type, s: seq<Byte>, dd: nat)
    ensures Decode(abi, Resolve(abi, typ), s, dd) == Decode(abi, typ, s, dd)
  {
    assert Resolve(abi, Resolve(abi, typ)) == Resolve(abi, typ);
  }
}
