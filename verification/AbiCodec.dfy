/** The ABI serializer: values as trees, types by name, and the two traversals that turn a value
    into bytes and bytes into a value (abi_serializer.cpp). Both count their nesting against the
    same limit; every error is one failure result. */
module AbiCodec {
  import opened Options
  import opened RawPack

  // C++ strings are byte strings; so are the names of types and fields.
  type Name = seq<Byte>

  // A type name split at its suffixes: "s", "s[]", "s?", "s?[]", ...
  datatype Type = Atom(name: Name) | ArrayOf(elem: Type) | OptionalOf(elem: Type)

  // `extension` is the "$" at the end of the type of a field.
  datatype Field = Field(name: Name, typ: Type, extension: bool)
  datatype Struct = Struct(base: Option<Type>, fields: seq<Field>)

  /** A built-in type is registered as a pair of functions, as in the source; `seen` is the value
      its reader returns for the bytes its writer produces. */
  datatype Builtin = Builtin(
    pack: Value -> Result<seq<Byte>>,
    unpack: seq<Byte> -> Result<Read<Value>>,
    seen: Value -> Value)

  datatype Abi = Abi(
    builtins: map<Name, Builtin>,
    typedefs: map<Name, Type>,
    structs: map<Name, Struct>,
    variants: map<Name, seq<Type>>)

  datatype Entry = Entry(name: Name, value: Value)

  datatype Value =
    | Null
    | Num(n: int)
    | Str(s: Name)
    | Arr(items: seq<Value>)
    | Obj(entries: seq<Entry>)

  const MAX_DEPTH := 32

  // ---------- type names ----------

  const BRACKETS: Name := [0x5b, 0x5d] // "[]"
  const QUESTION: Name := [0x3f] // "?"

  // The name of a type as it is written, the label of its alternative in a variant.
  function Spell(t: Type): Name {
    match t
    case Atom(name) => name
    case ArrayOf(elem) => Spell(elem) + BRACKETS
    case OptionalOf(elem) => Spell(elem) + QUESTION
  }

  // Without the outermost suffix.
  function Fundamental(t: Type): Type {
    if t.Atom? then t else t.elem
  }

  predicate IsBuiltin(abi: Abi, t: Type) {
    Fundamental(t).Atom? && Fundamental(t).name in abi.builtins
  }

  predicate IsTypedef(abi: Abi, t: Type) {
    t.Atom? && t.name in abi.typedefs
  }

  // Follows at most as many type definitions as there are.
  function Resolve(abi: Abi, t: Type): (r: Type)
    ensures r == t || !IsTypedef(abi, r)
  {
    if IsTypedef(abi, t) then Follow(abi, t, t, |abi.typedefs|) else t
  }

  function Follow(abi: Abi, start: Type, t: Type, steps: nat): (r: Type)
    requires IsTypedef(abi, t)
    ensures r == start || !IsTypedef(abi, r)
    decreases steps
  {
    if steps == 0 then start
    else
      var next := abi.typedefs[t.name];
      if !IsTypedef(abi, next) then next else Follow(abi, start, next, steps - 1)
  }

  // ---------- objects ----------

  function Find(entries: seq<Entry>, name: Name): Option<Value> {
    if entries == [] then None
    else if entries[0].name == name then Some(entries[0].value)
    else Find(entries[1..], name)
  }

  function Put(entries: seq<Entry>, name: Name, v: Value): (r: seq<Entry>)
    ensures r != []
  {
    if entries == [] then [Entry(name, v)]
    else if entries[0].name == name then [Entry(name, v)] + entries[1..]
    else [entries[0]] + Put(entries[1..], name, v)
  }

  // The first alternative with the given tag.
  function IndexOf(types: seq<Type>, tag: Name): (i: nat)
    ensures i <= |types|
    ensures i < |types| ==> Spell(types[i]) == tag
  {
    if types == [] then 0 else if Spell(types[0]) == tag then 0 else 1 + IndexOf(types[1..], tag)
  }

  // ---------- built-in types ----------

  function PackAll(p: Builtin, vs: seq<Value>): Result<seq<Byte>> {
    if vs == [] then Ok([])
    else
      var r, rs := p.pack(vs[0]), PackAll(p, vs[1..]);
      if r.Err? || rs.Err? then Err else Ok(r.value + rs.value)
  }

  function UnpackAll(p: Builtin, n: nat, s: seq<Byte>): Result<Read<seq<Value>>> {
    if n == 0 then Ok(Read([], s))
    else
      var r := p.unpack(s);
      if r.Err? then Err
      else
        var rs := UnpackAll(p, n - 1, r.value.rest);
        if rs.Err? then Err else Ok(Read([r.value.item] + rs.value.item, rs.value.rest))
  }

  function PackBuiltin(p: Builtin, v: Value, isArray: bool, isOptional: bool): Result<seq<Byte>> {
    if isArray then
      if !v.Arr? || |v.items| > MAX_ELEMENTS then Err
      else
        var r := PackAll(p, v.items);
        if r.Err? then Err else Ok(PackVar(|v.items|) + r.value)
    else if isOptional then
      if v.Null? then Ok([0])
      else
        var r := p.pack(v);
        if r.Err? then Err else Ok([1] + r.value)
    else p.pack(v)
  }

  function UnpackBuiltin(p: Builtin, s: seq<Byte>, isArray: bool, isOptional: bool): Result<Read<Value>> {
    if isArray then
      var n := UnpackVar(s);
      if n.Err? || n.value.item > MAX_ELEMENTS then Err
      else
        var r := UnpackAll(p, n.value.item, n.value.rest);
        if r.Err? then Err else Ok(Read(Arr(r.value.item), r.value.rest))
    else if isOptional then
      if s == [] || s[0] > 1 then Err
      else if s[0] == 0 then Ok(Read(Null, s[1..]))
      else p.unpack(s[1..])
    else p.unpack(s)
  }

  // ---------- value to bytes ----------

  /** `ext` says whether trailing extension fields may still be left out: only along a path of last
      fields from the outermost value, never below an array or in a base. */
  function Encode(abi: Abi, typ: Type, v: Value, ext: bool, depth: nat): Result<seq<Byte>>
    decreases MAX_DEPTH - depth, 0, 0
  {
    var d := depth + 1;
    if d >= MAX_DEPTH then Err
    else
      var t := Resolve(abi, typ);
      if IsBuiltin(abi, t) then
        PackBuiltin(abi.builtins[Fundamental(t).name], v, t.ArrayOf?, t.OptionalOf?)
      else if t.ArrayOf? then
        if !v.Arr? || |v.items| >= TWO32 then Err
        else
          var r := EncodeItems(abi, t.elem, v.items, d);
          if r.Err? then Err else Ok(PackVar(|v.items|) + r.value)
      else if t.OptionalOf? then Err
      else if t.name in abi.variants then
        if !v.Arr? || |v.items| != 2 || !v.items[0].Str? then Err
        else
          var types := abi.variants[t.name];
          var i := IndexOf(types, v.items[0].s);
          if i == |types| then Err
          else
            var r := Encode(abi, types[i], v.items[1], ext, d);
            if r.Err? then Err else Ok(PackVar(i) + r.value)
      else if t.name in abi.structs then EncodeStruct(abi, abi.structs[t.name], v, ext, d)
      else Err
  }

  function EncodeItems(abi: Abi, typ: Type, vs: seq<Value>, d: nat): Result<seq<Byte>>
    decreases MAX_DEPTH - d, 1, |vs|
  {
    if vs == [] then Ok([])
    else
      var r, rs := Encode(abi, typ, vs[0], false, d), EncodeItems(abi, typ, vs[1..], d);
      if r.Err? || rs.Err? then Err else Ok(r.value + rs.value)
  }

  function EncodeStruct(abi: Abi, st: Struct, v: Value, ext: bool, d: nat): Result<seq<Byte>>
    decreases MAX_DEPTH - d, 2, 0
  {
    if v.Obj? then
      var base := if st.base.None? then Ok([]) else Encode(abi, Resolve(abi, st.base.value), v, false, d);
      var own := EncodeFields(abi, st.fields, v.entries, ext, false, d);
      if base.Err? || own.Err? then Err else Ok(base.value + own.value)
    else if v.Arr? then
      if st.base.Some? then Err else EncodePositional(abi, st.fields, v.items, ext, d)
    else Err
  }

  // `skipped` is set once an extension field has been left out: nothing may follow.
  function EncodeFields(abi: Abi, fields: seq<Field>, entries: seq<Entry>, ext: bool, skipped: bool, d: nat)
    : Result<seq<Byte>>
    decreases MAX_DEPTH - d, 1, |fields|
  {
    if fields == [] then Ok([])
    else
      var f := fields[0];
      var x := Find(entries, f.name);
      if x.Some? then
        if skipped then Err
        else
          var r := Encode(abi, f.typ, x.value, ext && |fields| == 1, d);
          var rs := EncodeFields(abi, fields[1..], entries, ext, skipped, d);
          if r.Err? || rs.Err? then Err else Ok(r.value + rs.value)
      else if f.extension && ext then EncodeFields(abi, fields[1..], entries, ext, true, d)
      else Err
  }

  function EncodePositional(abi: Abi, fields: seq<Field>, items: seq<Value>, ext: bool, d: nat): Result<seq<Byte>>
    decreases MAX_DEPTH - d, 1, |fields|
  {
    if fields == [] then Ok([])
    else if items != [] then
      var r := Encode(abi, fields[0].typ, items[0], ext && |fields| == 1, d);
      var rs := EncodePositional(abi, fields[1..], items[1..], ext, d);
      if r.Err? || rs.Err? then Err else Ok(r.value + rs.value)
    else if fields[0].extension && ext then Ok([])
    else Err
  }

  // ---------- bytes to value ----------

  function Decode(abi: Abi, typ: Type, s: seq<Byte>, depth: nat): Result<Read<Value>>
    decreases MAX_DEPTH - depth, 0, 0
  {
    var d := depth + 1;
    if d >= MAX_DEPTH then Err
    else
      var t := Resolve(abi, typ);
      if IsBuiltin(abi, t) then
        UnpackBuiltin(abi.builtins[Fundamental(t).name], s, t.ArrayOf?, t.OptionalOf?)
      else if t.ArrayOf? then
        var n := UnpackVar(s);
        if n.Err? then Err
        else
          var r := DecodeItems(abi, t.elem, n.value.item, n.value.rest, d);
          if r.Err? then Err else Ok(Read(Arr(r.value.item), r.value.rest))
      else if t.OptionalOf? then
        if s == [] then Err
        else if s[0] != 0 then Decode(abi, t.elem, s[1..], d)
        else Ok(Read(Null, s[1..]))
      else if t.name in abi.variants then
        var types := abi.variants[t.name];
        var i := UnpackVar(s);
        if i.Err? || i.value.item >= |types| then Err
        else
          var r := Decode(abi, types[i.value.item], i.value.rest, d);
          if r.Err? then Err else Ok(Read(Arr([Str(Spell(types[i.value.item])), r.value.item]), r.value.rest))
      else
        var r := DecodeStruct(abi, t, s, [], d);
        if r.Err? || r.value.item == [] then Err else Ok(Read(Obj(r.value.item), r.value.rest))
  }

  // An absent optional may not be the element of an array.
  function DecodeItems(abi: Abi, typ: Type, n: nat, s: seq<Byte>, d: nat): Result<Read<seq<Value>>>
    decreases MAX_DEPTH - d, 1, n
  {
    if n == 0 then Ok(Read([], s))
    else
      var r := Decode(abi, typ, s, d);
      if r.Err? || r.value.item.Null? then Err
      else
        var rs := DecodeItems(abi, typ, n - 1, r.value.rest, d);
        if rs.Err? then Err else Ok(Read([r.value.item] + rs.value.item, rs.value.rest))
  }

  // Adds the fields of a struct, those of its base first, to the object read so far.
  function DecodeStruct(abi: Abi, t: Type, s: seq<Byte>, acc: seq<Entry>, depth: nat): Result<Read<seq<Entry>>>
    decreases MAX_DEPTH - depth, 0, 0
  {
    var d := depth + 1;
    if d >= MAX_DEPTH || !t.Atom? || t.name !in abi.structs then Err
    else
      var st := abi.structs[t.name];
      var base := if st.base.None? then Ok(Read(acc, s)) else DecodeStruct(abi, Resolve(abi, st.base.value), s, acc, d);
      if base.Err? then Err else DecodeFields(abi, st.fields, base.value.rest, base.value.item, d)
  }

  // At the end of the stream extension fields are skipped.
  function DecodeFields(abi: Abi, fields: seq<Field>, s: seq<Byte>, acc: seq<Entry>, d: nat): Result<Read<seq<Entry>>>
    decreases MAX_DEPTH - d, 1, |fields|
  {
    if fields == [] then Ok(Read(acc, s))
    else if s == [] then
      if fields[0].extension then DecodeFields(abi, fields[1..], s, acc, d) else Err
    else
      var r := Decode(abi, Resolve(abi, fields[0].typ), s, d);
      if r.Err? then Err
      else DecodeFields(abi, fields[1..], r.value.rest, Put(acc, fields[0].name, r.value.item), d)
  }

  // ---------- entry points ----------

  const BUFFER := 1024 * 1024

  // The outer call takes one level of nesting itself and writes into a buffer of one megabyte.
  function VariantToBinary(abi: Abi, typ: Type, v: Value): Result<seq<Byte>> {
    var r := Encode(abi, typ, v, true, 1);
    if r.Err? || |r.value| > BUFFER then Err else r
  }

  function BinaryToVariant(abi: Abi, typ: Type, bytes: seq<Byte>): Result<Value> {
    var r := Decode(abi, typ, bytes, 1);
    if r.Err? then Err else Ok(r.value.item)
  }
}
