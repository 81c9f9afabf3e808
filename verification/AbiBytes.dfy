/** When encoding what was decoded gives the same bytes, for every value that encodes, by name, by position
    or with entries that are no fields: exactly if each built-in value in it has the same bytes again. */
module AbiBytes {
  import opened Options
  import opened RawPack
  import opened AbiCodec
  import opened AbiRoundTrip
  import opened AbiTheorems
  import opened AbiDepth

  // ---------- built-in types ----------

  ghost predicate StableAt(p: Builtin, v: Value) {
    p.pack(v).Ok? ==> p.pack(p.seen(v)) == p.pack(v) && !p.seen(v).Null?
  }

  // The reader of a built-in type returns a value with the same bytes.
  ghost predicate Stable(p: Builtin) {
    forall v {:trigger StableAt(p, v)} :: StableAt(p, v)
  }

  lemma {:induction false} LowByte(r: int, w: int)
    requires 0 <= r < 256
    ensures (r + 256 * w) % 256 == r && (r + 256 * w) / 256 == w
  {
  }

  lemma {:induction false} OneByteWraps(n: int, signed: bool)
    ensures PackLE(Wrap(n, 1, signed), 1) == PackLE(n, 1)
  {
    var w := Wrap(n, 1, signed);
    assert w % 256 == n % 256;
    assert PackLE(n / 256, 0) == [] && PackLE(w / 256, 0) == [];
  }

  lemma {:induction false} WrapPacks(n: int, size: nat, signed: bool)
    ensures PackLE(Wrap(n, size, signed), size) == PackLE(n, size)
    decreases size
  {
    if size == 1 {
      OneByteWraps(n, signed);
    } else if size > 1 {
      WrapPacks(n / 256, size - 1, signed);
      LowByte(n % 256, Wrap(n / 256, size - 1, signed));
    }
  }

  lemma {:induction false} IntegerStable(size: nat, signed: bool)
    ensures Stable(IntegerType(size, signed))
  {
    var p := IntegerType(size, signed);
    forall v ensures StableAt(p, v) {
      if v.Num? {
        WrapPacks(v.n, size, signed);
      }
    }
  }

  lemma {:induction false} VarUnsignedStable()
    ensures Stable(VarUnsignedType())
  {
    var p := VarUnsignedType();
    forall v ensures StableAt(p, v) {
      if v.Num? {
        assert v.n % TWO32 % TWO32 == v.n % TWO32;
      }
    }
  }

  lemma {:induction false} TextStable()
    ensures Stable(TextType())
  {
    var p := TextType();
    forall v ensures StableAt(p, v) {
    }
  }

  lemma {:induction false} PackVarInjective(a: nat, b: nat)
    requires a < TWO32 && b < TWO32 && PackVar(a) == PackVar(b)
    ensures a == b
  {
    VarRoundTrip(a, []);
    VarRoundTrip(b, []);
  }

  /** Signed variable-length integers have the same bytes again exactly within 31 bits. */
  lemma {:induction false} VarSignedStableIff(n: int)
    ensures StableAt(VarSignedType(), Num(n)) <==> -0x4000_0000 <= ToInt32(n) < 0x4000_0000
  {
    var k := ToInt32(n);
    ZigzagRoundTrip(k);
    var m := Unzigzag(Zigzag(k));
    assert -0x8000_0000 <= m < 0x8000_0000;
    assert ToInt32(m) == m;
    if PackVar(Zigzag(m)) == PackVar(Zigzag(k)) {
      PackVarInjective(Zigzag(m), Zigzag(k));
    }
  }

  // ---------- which values ----------

  ghost predicate Repacks(p: Builtin, x: Value) {
    p.pack(p.seen(x)) == p.pack(x)
  }

  // A built-in value, or the items of an array of them, have the same bytes after they were read.
  ghost predicate LeafStable(p: Builtin, v: Value, isArray: bool, isOptional: bool) {
    if isArray then v.Arr? ==> forall i {:trigger v.items[i]} :: 0 <= i < |v.items| ==> Repacks(p, v.items[i])
    else if isOptional then v.Null? || (Repacks(p, v) && !p.seen(v).Null?)
    else Repacks(p, v)
  }

  lemma {:induction false} StableLeaf(p: Builtin, v: Value, isArray: bool, isOptional: bool)
    requires Stable(p) && PackBuiltin(p, v, isArray, isOptional).Ok?
    ensures LeafStable(p, v, isArray, isOptional)
  {
    assert StableAt(p, v);
    if isArray {
      forall i | 0 <= i < |v.items| ensures Repacks(p, v.items[i]) {
        AllPacked(p, v.items, i);
        assert StableAt(p, v.items[i]);
      }
    }
  }

  lemma {:induction false} AllPacked(p: Builtin, vs: seq<Value>, i: nat)
    requires PackAll(p, vs).Ok? && i < |vs|
    ensures p.pack(vs[i]).Ok?
    decreases |vs|
  {
    if i > 0 {
      AllPacked(p, vs[1..], i - 1);
    }
  }

  /** Every built-in value met in the value has the same bytes after it was read. */
  ghost predicate StableIn(abi: Abi, typ: Type, v: Value)
    decreases v, 2, 0
  {
    var t := Resolve(abi, typ);
    if IsBuiltin(abi, t) then LeafStable(abi.builtins[Fundamental(t).name], v, t.ArrayOf?, t.OptionalOf?)
    else if t.ArrayOf? then v.Arr? ==> ItemsStable(abi, t.elem, v, 0)
    else if t.OptionalOf? then true
    else if t.name in abi.variants then
      v.Arr? && |v.items| == 2 && v.items[0].Str? ==>
        var types := abi.variants[t.name];
        var i := IndexOf(types, v.items[0].s);
        i < |types| ==> StableIn(abi, types[i], v.items[1])
    else StructStable(abi, t, v, 0)
  }

  ghost predicate ItemsStable(abi: Abi, typ: Type, v: Value, i: nat)
    requires v.Arr? && i <= |v.items|
    decreases v, 1, |v.items| - i
  {
    i < |v.items| ==> StableIn(abi, typ, v.items[i]) && ItemsStable(abi, typ, v, i + 1)
  }

  ghost predicate StructStable(abi: Abi, t: Type, v: Value, level: nat)
    decreases v, 1, MAX_DEPTH - level
  {
    level < MAX_DEPTH && IsStruct(abi, t) ==>
      var st := abi.structs[t.name];
      && (st.base.Some? ==> StructStable(abi, Resolve(abi, st.base.value), v, level + 1))
      && (v.Obj? ==> FieldsStable(abi, st.fields, v))
      && (v.Arr? ==> PositionalStable(abi, st.fields, v, 0))
  }

  ghost predicate FieldsStable(abi: Abi, fields: seq<Field>, v: Value)
    requires v.Obj?
    decreases v, 0, |fields|
  {
    fields != [] ==>
      var x := Find(v.entries, fields[0].name);
      && (x.Some? ==> (FindInside(v.entries, fields[0].name); StableIn(abi, fields[0].typ, x.value)))
      && FieldsStable(abi, fields[1..], v)
  }

  ghost predicate PositionalStable(abi: Abi, fields: seq<Field>, v: Value, i: nat)
    requires v.Arr? && i <= |fields| && i <= |v.items|
    decreases v, 0, |fields| - i
  {
    i < |fields| && i < |v.items| ==>
      StableIn(abi, fields[i].typ, v.items[i]) && PositionalStable(abi, fields, v, i + 1)
  }

  lemma {:induction false} PositionalIsFields(abi: Abi, fields: seq<Field>, v: Value, keyed: Value, i: nat)
    requires DistinctNames(fields) && v.Arr? && i <= |fields| && i <= |v.items| && keyed == Obj(Keyed(fields, v.items))
    ensures FieldsStable(abi, fields[i..], keyed) <==> PositionalStable(abi, fields, v, i)
    decreases |fields| - i
  {
    if i < |fields| {
      FindKeyed(fields, v.items, i);
      assert fields[i..][0] == fields[i] && fields[i..][1..] == fields[i + 1..];
      if i < |v.items| {
        PositionalIsFields(abi, fields, v, keyed, i + 1);
      } else {
        NoneStable(abi, fields, v, keyed, i);
      }
    }
  }

  lemma {:induction false} NoneStable(abi: Abi, fields: seq<Field>, v: Value, keyed: Value, i: nat)
    requires DistinctNames(fields) && v.Arr? && |v.items| <= i <= |fields| && keyed == Obj(Keyed(fields, v.items))
    ensures FieldsStable(abi, fields[i..], keyed)
    decreases |fields| - i
  {
    if i < |fields| {
      FindKeyed(fields, v.items, i);
      assert fields[i..][0] == fields[i] && fields[i..][1..] == fields[i + 1..];
      NoneStable(abi, fields, v, keyed, i + 1);
    }
  }

  // ---------- what the decoder puts into an object ----------

  // The decoder, somewhere, sees v as w.
  ghost predicate SeenAs(abi: Abi, typ: Type, v: Value, w: Value) {
    exists e: nat :: Seen(abi, typ, v, e) == Ok(w)
  }

  // The second object has, under the name of the field, what the decoder sees of the first.
  ghost predicate MirrorAt(abi: Abi, f: Field, entries: seq<Entry>, es: seq<Entry>) {
    var x, y := Find(entries, f.name), Find(es, f.name);
    if x.None? then y.None? else y.Some? && SeenAs(abi, f.typ, x.value, y.value)
  }

  ghost predicate Mirrors(abi: Abi, fs: seq<Field>, entries: seq<Entry>, es: seq<Entry>) {
    forall i {:trigger fs[i]} :: 0 <= i < |fs| ==> MirrorAt(abi, fs[i], entries, es)
  }

  ghost predicate Absent(fs: seq<Field>, name: Name) {
    forall i :: 0 <= i < |fs| ==> fs[i].name != name
  }

  ghost predicate AllAbsent(fs: seq<Field>, acc: seq<Entry>) {
    forall i {:trigger fs[i]} :: 0 <= i < |fs| ==> Find(acc, fs[i].name).None?
  }

  lemma {:induction false} FindPut(acc: seq<Entry>, name: Name, v: Value, m: Name)
    ensures Find(Put(acc, name, v), m) == if m == name then Some(v) else Find(acc, m)
    decreases |acc|
  {
    if acc != [] && acc[0].name != name {
      FindPut(acc[1..], name, v, m);
      assert Put(acc, name, v)[1..] == Put(acc[1..], name, v);
    } else if acc != [] {
      assert Put(acc, name, v)[1..] == acc[1..];
    } else {
      assert Put(acc, name, v)[1..] == [];
    }
  }

  lemma {:induction false} FieldsOther(abi: Abi, fields: seq<Field>, entries: seq<Entry>, acc: seq<Entry>, dd: nat, m: Name)
    requires SeenFields(abi, fields, entries, acc, dd).Ok? && Absent(fields, m)
    ensures Find(SeenFields(abi, fields, entries, acc, dd).value, m) == Find(acc, m)
    decreases |fields|
  {
    if fields != [] {
      var x := Find(entries, fields[0].name);
      if x.None? {
        FieldsOther(abi, fields[1..], entries, acc, dd, m);
      } else {
        var y := Seen(abi, fields[0].typ, x.value, dd).value;
        FieldsOther(abi, fields[1..], entries, Put(acc, fields[0].name, y), dd, m);
        FindPut(acc, fields[0].name, y, m);
      }
    }
  }

  lemma {:induction false} FirstMirrors(abi: Abi, fields: seq<Field>, entries: seq<Entry>, acc: seq<Entry>, dd: nat, es: seq<Entry>)
    requires fields != [] && SeenFields(abi, fields, entries, acc, dd) == Ok(es)
    requires DistinctNames(fields) && AllAbsent(fields, acc)
    ensures MirrorAt(abi, fields[0], entries, es)
  {
    var f := fields[0];
    var x := Find(entries, f.name);
    assert Absent(fields[1..], f.name);
    if x.None? {
      FieldsOther(abi, fields[1..], entries, acc, dd, f.name);
    } else {
      var y := Seen(abi, f.typ, x.value, dd).value;
      FieldsOther(abi, fields[1..], entries, Put(acc, f.name, y), dd, f.name);
      FindPut(acc, f.name, y, f.name);
    }
  }

  lemma {:induction false} StillAbsent(fields: seq<Field>, acc: seq<Entry>, y: Value)
    requires fields != [] && DistinctNames(fields) && AllAbsent(fields, acc)
    ensures AllAbsent(fields[1..], Put(acc, fields[0].name, y)) && AllAbsent(fields[1..], acc) && DistinctNames(fields[1..])
  {
    var rest := fields[1..];
    forall i | 0 <= i < |rest| ensures Find(Put(acc, fields[0].name, y), rest[i].name).None? && Find(acc, rest[i].name).None? {
      assert rest[i] == fields[i + 1];
      FindPut(acc, fields[0].name, y, rest[i].name);
    }
  }

  lemma {:induction false} FieldsMirror(abi: Abi, fields: seq<Field>, entries: seq<Entry>, acc: seq<Entry>, dd: nat, es: seq<Entry>)
    requires SeenFields(abi, fields, entries, acc, dd) == Ok(es) && DistinctNames(fields) && AllAbsent(fields, acc)
    ensures Mirrors(abi, fields, entries, es)
    decreases |fields|
  {
    if fields != [] {
      FirstMirrors(abi, fields, entries, acc, dd, es);
      var x := Find(entries, fields[0].name);
      if x.None? {
        StillAbsent(fields, acc, Null);
        FieldsMirror(abi, fields[1..], entries, acc, dd, es);
      } else {
        var y := Seen(abi, fields[0].typ, x.value, dd).value;
        StillAbsent(fields, acc, y);
        FieldsMirror(abi, fields[1..], entries, Put(acc, fields[0].name, y), dd, es);
      }
      FirstAndRest(abi, fields, entries, es);
    }
  }

  lemma {:induction false} FirstAndRest(abi: Abi, fs: seq<Field>, entries: seq<Entry>, es: seq<Entry>)
    requires fs != [] && MirrorAt(abi, fs[0], entries, es) && Mirrors(abi, fs[1..], entries, es)
    ensures Mirrors(abi, fs, entries, es)
  {
    forall i | 0 <= i < |fs| ensures MirrorAt(abi, fs[i], entries, es) {
      if i > 0 {
        assert fs[i] == fs[1..][i - 1];
      }
    }
  }

  // ---------- with bases ----------

  lemma {:induction false} AbsentParts(below: seq<Field>, own: seq<Field>, fs: seq<Field>, m: Name)
    requires fs == below + own && Absent(fs, m)
    ensures Absent(below, m) && Absent(own, m)
  {
    assert forall i :: 0 <= i < |below| ==> below[i] == fs[i];
    assert forall i :: 0 <= i < |own| ==> own[i] == fs[|below| + i];
  }

  lemma {:induction false} BaseOther(abi: Abi, st: Struct, entries: seq<Entry>, acc: seq<Entry>, level: nat, dd: nat, m: Name)
    requires BaseSeen(abi, st, Obj(entries), acc, dd).Ok? && level + 1 <= dd && Absent(BaseFields(abi, st, level), m)
    ensures Find(BaseSeen(abi, st, Obj(entries), acc, dd).value, m) == Find(acc, m)
    decreases MAX_DEPTH - dd, 1
  {
    if st.base.Some? {
      StructOther(abi, Resolve(abi, st.base.value), entries, acc, level + 1, dd, m);
    }
  }

  lemma {:induction false} StructOther(abi: Abi, t: Type, entries: seq<Entry>, acc: seq<Entry>, level: nat, dd: nat, m: Name)
    requires SeenStruct(abi, t, Obj(entries), acc, dd).Ok? && level <= dd && Absent(AllFields(abi, t, level), m)
    ensures Find(SeenStruct(abi, t, Obj(entries), acc, dd).value, m) == Find(acc, m)
    decreases MAX_DEPTH - dd, 0
  {
    SeenParts(abi, t, entries, acc, dd, SeenStruct(abi, t, Obj(entries), acc, dd).value);
    var st := abi.structs[t.name];
    AbsentParts(BaseFields(abi, st, level), st.fields, AllFields(abi, t, level), m);
    BaseOther(abi, st, entries, acc, level, dd + 1, m);
    FieldsOther(abi, st.fields, entries, BaseSeen(abi, st, Obj(entries), acc, dd + 1).value, dd + 1, m);
  }

  lemma {:induction false} Parts(below: seq<Field>, own: seq<Field>, fs: seq<Field>, acc: seq<Entry>)
    requires fs == below + own && DistinctNames(fs) && AllAbsent(fs, acc)
    ensures DistinctNames(below) && DistinctNames(own) && AllAbsent(below, acc) && AllAbsent(own, acc)
    ensures forall i :: 0 <= i < |below| ==> Absent(own, below[i].name)
    ensures forall i :: 0 <= i < |own| ==> Absent(below, own[i].name)
  {
    assert forall i :: 0 <= i < |below| ==> below[i] == fs[i];
    assert forall i :: 0 <= i < |own| ==> own[i] == fs[|below| + i];
  }

  lemma {:induction false} SeenParts(abi: Abi, t: Type, entries: seq<Entry>, acc: seq<Entry>, dd: nat, es: seq<Entry>)
    requires SeenStruct(abi, t, Obj(entries), acc, dd) == Ok(es)
    ensures IsStruct(abi, t) && dd + 1 < MAX_DEPTH
    ensures var st := abi.structs[t.name];
            var base := BaseSeen(abi, st, Obj(entries), acc, dd + 1);
            base.Ok? && SeenFields(abi, st.fields, entries, base.value, dd + 1) == Ok(es)
  {
  }

  lemma {:induction false} BaseMirror(
    abi: Abi, st: Struct, entries: seq<Entry>, acc: seq<Entry>, level: nat, dd: nat, acc1: seq<Entry>)
    requires BaseSeen(abi, st, Obj(entries), acc, dd) == Ok(acc1) && level + 1 <= dd
    requires DistinctNames(BaseFields(abi, st, level)) && AllAbsent(BaseFields(abi, st, level), acc)
    ensures Mirrors(abi, BaseFields(abi, st, level), entries, acc1)
    decreases MAX_DEPTH - dd, 1
  {
    if st.base.Some? {
      StructMirror(abi, Resolve(abi, st.base.value), entries, acc, level + 1, dd, acc1);
    }
  }

  lemma {:induction false} OwnMirror(
    abi: Abi, below: seq<Field>, fields: seq<Field>, entries: seq<Entry>, acc1: seq<Entry>, dd: nat, es: seq<Entry>)
    requires SeenFields(abi, fields, entries, acc1, dd) == Ok(es) && DistinctNames(fields) && AllAbsent(fields, acc1)
    requires Mirrors(abi, below, entries, acc1) && forall i :: 0 <= i < |below| ==> Absent(fields, below[i].name)
    ensures Mirrors(abi, below + fields, entries, es)
  {
    FieldsMirror(abi, fields, entries, acc1, dd, es);
    forall i | 0 <= i < |below| ensures MirrorAt(abi, below[i], entries, es) {
      FieldsOther(abi, fields, entries, acc1, dd, below[i].name);
    }
    Joined(abi, below, fields, entries, es);
  }

  lemma {:induction false} StructMirror(
    abi: Abi, t: Type, entries: seq<Entry>, acc: seq<Entry>, level: nat, dd: nat, es: seq<Entry>)
    requires SeenStruct(abi, t, Obj(entries), acc, dd) == Ok(es) && level <= dd
    requires DistinctNames(AllFields(abi, t, level)) && AllAbsent(AllFields(abi, t, level), acc)
    ensures Mirrors(abi, AllFields(abi, t, level), entries, es)
    decreases MAX_DEPTH - dd, 0
  {
    SeenParts(abi, t, entries, acc, dd, es);
    var st := abi.structs[t.name];
    var below := BaseFields(abi, st, level);
    Parts(below, st.fields, AllFields(abi, t, level), acc);
    var acc1 := BaseSeen(abi, st, Obj(entries), acc, dd + 1).value;
    BaseMirror(abi, st, entries, acc, level, dd + 1, acc1);
    OwnAbsent(abi, st, entries, acc, level, dd + 1, acc1);
    OwnMirror(abi, below, st.fields, entries, acc1, dd + 1, es);
  }

  lemma {:induction false} OwnAbsent(
    abi: Abi, st: Struct, entries: seq<Entry>, acc: seq<Entry>, level: nat, dd: nat, acc1: seq<Entry>)
    requires BaseSeen(abi, st, Obj(entries), acc, dd) == Ok(acc1) && level + 1 <= dd && AllAbsent(st.fields, acc)
    requires forall i :: 0 <= i < |st.fields| ==> Absent(BaseFields(abi, st, level), st.fields[i].name)
    ensures AllAbsent(st.fields, acc1)
  {
    if st.base.Some? {
      forall i | 0 <= i < |st.fields| ensures Find(acc1, st.fields[i].name).None? {
        StructOther(abi, Resolve(abi, st.base.value), entries, acc, level + 1, dd, st.fields[i].name);
      }
    }
  }

  lemma {:induction false} Joined(abi: Abi, a: seq<Field>, b: seq<Field>, entries: seq<Entry>, es: seq<Entry>)
    ensures Mirrors(abi, a, entries, es) && Mirrors(abi, b, entries, es) <==> Mirrors(abi, a + b, entries, es)
  {
    var fs := a + b;
    if Mirrors(abi, fs, entries, es) {
      forall i | 0 <= i < |a| ensures MirrorAt(abi, a[i], entries, es) {
        assert a[i] == fs[i];
      }
      forall i | 0 <= i < |b| ensures MirrorAt(abi, b[i], entries, es) {
        assert b[i] == fs[|a| + i];
      }
    }
  }

  // ---------- by position ----------

  lemma {:induction false} SeenIsKeyed(abi: Abi, fields: seq<Field>, items: seq<Value>, i: nat, acc: seq<Entry>, dd: nat)
    requires DistinctNames(fields) && i <= |fields| && i <= |items|
    requires SeenPositional(abi, fields[i..], items[i..], acc, dd).Ok?
    ensures SeenFields(abi, fields[i..], Keyed(fields, items), acc, dd)
         == SeenPositional(abi, fields[i..], items[i..], acc, dd)
    ensures |items| < |fields| ==> AllExtensions(fields[|items|..])
    decreases |fields| - i
  {
    var fs, vs := fields[i..], items[i..];
    if i < |fields| {
      FindKeyed(fields, items, i);
      assert fs[0] == fields[i] && fs[1..] == fields[i + 1..];
      if i < |items| {
        assert vs[0] == items[i] && vs[1..] == items[i + 1..];
        SeenIsKeyed(abi, fields, items, i + 1, Put(acc, fs[0].name, Seen(abi, fs[0].typ, vs[0], dd).value), dd);
      } else {
        NoneSeen(abi, fields, items, i, acc, dd);
      }
    }
  }

  lemma {:induction false} NoneSeen(abi: Abi, fields: seq<Field>, items: seq<Value>, i: nat, acc: seq<Entry>, dd: nat)
    requires DistinctNames(fields) && |items| <= i <= |fields|
    ensures SeenFields(abi, fields[i..], Keyed(fields, items), acc, dd) == Ok(acc)
    decreases |fields| - i
  {
    if i < |fields| {
      FindKeyed(fields, items, i);
      assert fields[i..][0] == fields[i] && fields[i..][1..] == fields[i + 1..];
      NoneSeen(abi, fields, items, i + 1, acc, dd);
    }
  }

  // ---------- bytes that begin alike ----------

  // No struct has two fields of one name, those of its bases included.
  ghost predicate TidyAt(abi: Abi, typ: Type) {
    var t := Resolve(abi, typ);
    t.Atom? && !IsBuiltin(abi, t) && t.name !in abi.variants && t.name in abi.structs ==> DistinctNames(AllFields(abi, t, 0))
  }

  ghost predicate Tidy(abi: Abi, met: set<Type>) {
    Sane(abi) && Solid(abi, met) && forall typ {:trigger TidyAt(abi, typ)} :: typ in met ==> TidyAt(abi, typ)
  }

  lemma {:induction false} SameFront(a: seq<Byte>, b: seq<Byte>, rest: seq<Byte>)
    requires a + rest == b + rest
    ensures a == b
  {
    assert |a| == |b|;
    assert a == (a + rest)[..|a|] && b == (b + rest)[..|b|];
  }

  // The reader tells where the bytes of a value end.
  lemma {:induction false} SplitOff(
    abi: Abi, met: set<Type>, typ: Type, v: Value, w: Value, ext: bool, de: nat, dd: nat, rest: seq<Byte>, rest': seq<Byte>)
    requires Tidy(abi, met) && typ in met && Encode(abi, typ, v, ext, de).Ok? && Encode(abi, typ, w, ext, de).Ok?
    requires Seen(abi, typ, v, dd).Ok? && (ext ==> rest == [] && rest' == [])
    requires Encode(abi, typ, v, ext, de).value + rest == Encode(abi, typ, w, ext, de).value + rest'
    ensures Encode(abi, typ, v, ext, de) == Encode(abi, typ, w, ext, de) && rest == rest'
  {
    RoundTrip(abi, met, typ, v, ext, de, dd, rest);
    RoundTrip(abi, met, typ, w, ext, de, dd, rest');
    SameFront(Encode(abi, typ, v, ext, de).value, Encode(abi, typ, w, ext, de).value, rest);
  }

  lemma {:induction false} SplitBase(
    abi: Abi, met: set<Type>, base: Type, v: Value, w: Value, de: nat, dd: nat, rest: seq<Byte>, rest': seq<Byte>)
    requires Tidy(abi, met) && base in met && IsStruct(abi, base) && Resolve(abi, base) == base && v.Obj? && w.Obj?
    requires Encode(abi, base, v, false, de).Ok? && Encode(abi, base, w, false, de).Ok?
    requires SeenStruct(abi, base, v, [], dd).Ok?
    requires Encode(abi, base, v, false, de).value + rest == Encode(abi, base, w, false, de).value + rest'
    ensures Encode(abi, base, v, false, de) == Encode(abi, base, w, false, de) && rest == rest'
  {
    BaseRoundTrip(abi, met, base, v, de, dd, [], rest);
    BaseRoundTrip(abi, met, base, w, de, dd, [], rest');
    SameFront(Encode(abi, base, v, false, de).value, Encode(abi, base, w, false, de).value, rest);
  }

  lemma {:induction false} SplitPacked(p: Builtin, x: Value, y: Value, rest: seq<Byte>, rest': seq<Byte>)
    requires Lawful(p) && p.pack(x).Ok? && p.pack(y).Ok? && p.pack(x).value + rest == p.pack(y).value + rest'
    ensures p.pack(x) == p.pack(y) && rest == rest'
  {
    assert p.unpack(p.pack(x).value + rest) == Ok(Read(p.seen(x), rest));
    assert p.unpack(p.pack(y).value + rest') == Ok(Read(p.seen(y), rest'));
    SameFront(p.pack(x).value, p.pack(y).value, rest);
  }

  // ---------- the same bytes ----------

  lemma {:induction false} AllSameIff(p: Builtin, vs: seq<Value>)
    requires Lawful(p) && PackAll(p, vs).Ok?
    ensures |SeenAll(p, vs)| == |vs|
    ensures PackAll(p, SeenAll(p, vs)) == PackAll(p, vs) <==> forall i {:trigger vs[i]} :: 0 <= i < |vs| ==> Repacks(p, vs[i])
    decreases |vs|
  {
    if vs != [] {
      var ws := SeenAll(p, vs);
      assert ws[0] == p.seen(vs[0]) && ws[1..] == SeenAll(p, vs[1..]);
      AllSameIff(p, vs[1..]);
      if PackAll(p, ws) == PackAll(p, vs) {
        SplitPacked(p, ws[0], vs[0], PackAll(p, ws[1..]).value, PackAll(p, vs[1..]).value);
        forall i | 0 <= i < |vs| ensures Repacks(p, vs[i]) {
          assert i > 0 ==> vs[i] == vs[1..][i - 1];
        }
      }
      if forall i {:trigger vs[i]} :: 0 <= i < |vs| ==> Repacks(p, vs[i]) {
        assert Repacks(p, vs[0]);
        forall i | 0 <= i < |vs[1..]| ensures Repacks(p, vs[1..][i]) {
          assert vs[1..][i] == vs[i + 1];
        }
      }
    }
  }

  lemma {:induction false} LeafIff(p: Builtin, v: Value, isArray: bool, isOptional: bool)
    requires Lawful(p) && PackBuiltin(p, v, isArray, isOptional).Ok?
    ensures PackBuiltin(p, SeenBuiltin(p, v, isArray, isOptional), isArray, isOptional) == PackBuiltin(p, v, isArray, isOptional)
       <==> LeafStable(p, v, isArray, isOptional)
  {
    if isArray {
      AllSameIff(p, v.items);
      ArrayLeaf(p, v.items, SeenAll(p, v.items));
    } else if isOptional && !v.Null? {
      var a, b := p.pack(p.seen(v)), p.pack(v);
      var flagged: seq<Byte> := [1] + b.value;
      assert flagged[0] == 1 && [0 as Byte][0] == 0;
      if a.Ok? && [1] + a.value == [1] + b.value {
        SameBack([1], a.value, b.value);
      }
    }
  }

  lemma {:induction false} ArrayLeaf(p: Builtin, vs: seq<Value>, ws: seq<Value>)
    requires |ws| == |vs| && PackBuiltin(p, Arr(vs), true, false).Ok?
    ensures PackBuiltin(p, Arr(ws), true, false) == PackBuiltin(p, Arr(vs), true, false) <==> PackAll(p, ws) == PackAll(p, vs)
  {
    var a, b := PackAll(p, ws), PackAll(p, vs);
    if a.Ok? && PackVar(|vs|) + a.value == PackVar(|vs|) + b.value {
      SameBack(PackVar(|vs|), a.value, b.value);
    }
  }

  lemma {:induction false} SameBack(front: seq<Byte>, a: seq<Byte>, b: seq<Byte>)
    requires front + a == front + b
    ensures a == b
  {
    assert a == (front + a)[|front|..] && b == (front + b)[|front|..];
  }

  /** What the decoder sees of an encodable value has the same bytes exactly if every built-in value in it
      has. */
  lemma {:induction false} SameBytesIff(abi: Abi, met: set<Type>, typ: Type, v: Value, w: Value, ext: bool, de: nat, dd: nat)
    requires Tidy(abi, met) && typ in met && Encode(abi, typ, v, ext, de).Ok? && Seen(abi, typ, v, dd) == Ok(w)
    ensures Encode(abi, typ, w, ext, de) == Encode(abi, typ, v, ext, de) <==> StableIn(abi, typ, v)
    decreases MAX_DEPTH - de, 0, 1
  {
    assert SolidAt(abi, met, typ) && TidyAt(abi, typ);
    var t := Resolve(abi, typ);
    if IsBuiltin(abi, t) {
      LeafIff(abi.builtins[Fundamental(t).name], v, t.ArrayOf?, t.OptionalOf?);
    } else if t.ArrayOf? {
      ArraySame(abi, met, typ, t, v, w, ext, de, dd);
    } else if t.name in abi.variants {
      VariantSame(abi, met, typ, t, v, w, ext, de, dd);
    } else {
      StructSame(abi, met, t, v, w.entries, ext, de + 1, dd + 1);
    }
  }

  lemma {:induction false} ArraySame(abi: Abi, met: set<Type>, typ: Type, t: Type, v: Value, w: Value, ext: bool, de: nat, dd: nat)
    requires Tidy(abi, met) && typ in met && Encode(abi, typ, v, ext, de).Ok? && Seen(abi, typ, v, dd) == Ok(w)
    requires t == Resolve(abi, typ) && t.ArrayOf? && !IsBuiltin(abi, t)
    ensures Encode(abi, typ, w, ext, de) == Encode(abi, typ, v, ext, de) <==> ItemsStable(abi, t.elem, v, 0)
    decreases MAX_DEPTH - de, 0, 0
  {
    assert SolidAt(abi, met, typ);
    assert v.items[0..] == v.items && w.items[0..] == w.items;
    ItemsSame(abi, met, t.elem, v, w.items, 0, de + 1, dd + 1);
    var a, b := EncodeItems(abi, t.elem, w.items, de + 1), EncodeItems(abi, t.elem, v.items, de + 1);
    if a.Ok? && PackVar(|v.items|) + a.value == PackVar(|v.items|) + b.value {
      SameBack(PackVar(|v.items|), a.value, b.value);
    }
  }

  lemma {:induction false} ItemsSame(abi: Abi, met: set<Type>, typ: Type, v: Value, ws: seq<Value>, i: nat, de: nat, dd: nat)
    requires Tidy(abi, met) && typ in met && v.Arr? && i <= |v.items| && EncodeItems(abi, typ, v.items[i..], de).Ok?
    requires SeenItems(abi, typ, v.items[i..], dd) == Ok(ws)
    ensures |ws| == |v.items| - i
    ensures EncodeItems(abi, typ, ws, de) == EncodeItems(abi, typ, v.items[i..], de) <==> ItemsStable(abi, typ, v, i)
    decreases MAX_DEPTH - de, 1, |v.items| - i
  {
    if i < |v.items| {
      var vs := v.items[i..];
      assert vs[0] == v.items[i] && vs[1..] == v.items[i + 1..];
      SameBytesIff(abi, met, typ, vs[0], ws[0], false, de, dd);
      ItemsSame(abi, met, typ, v, ws[1..], i + 1, de, dd);
      ItemsJoin(abi, met, typ, vs, ws, de, dd);
    }
  }

  lemma {:induction false} ItemsJoin(abi: Abi, met: set<Type>, typ: Type, vs: seq<Value>, ws: seq<Value>, de: nat, dd: nat)
    requires Tidy(abi, met) && typ in met && vs != [] && ws != [] && EncodeItems(abi, typ, vs, de).Ok? && Seen(abi, typ, vs[0], dd).Ok?
    ensures EncodeItems(abi, typ, ws, de) == EncodeItems(abi, typ, vs, de)
       <==> && Encode(abi, typ, ws[0], false, de) == Encode(abi, typ, vs[0], false, de)
            && EncodeItems(abi, typ, ws[1..], de) == EncodeItems(abi, typ, vs[1..], de)
  {
    if EncodeItems(abi, typ, ws, de) == EncodeItems(abi, typ, vs, de) {
      SplitOff(abi, met, typ, vs[0], ws[0], false, de, dd,
               EncodeItems(abi, typ, vs[1..], de).value, EncodeItems(abi, typ, ws[1..], de).value);
    }
  }

  lemma {:induction false} VariantSame(abi: Abi, met: set<Type>, typ: Type, t: Type, v: Value, w: Value, ext: bool, de: nat, dd: nat)
    requires Tidy(abi, met) && typ in met && Encode(abi, typ, v, ext, de).Ok? && Seen(abi, typ, v, dd) == Ok(w)
    requires t == Resolve(abi, typ) && t.Atom? && !IsBuiltin(abi, t) && t.name in abi.variants
    ensures Encode(abi, typ, w, ext, de) == Encode(abi, typ, v, ext, de) <==> StableIn(abi, typ, v)
    decreases MAX_DEPTH - de, 0, 0
  {
    assert SolidAt(abi, met, typ);
    var types := abi.variants[t.name];
    var i := IndexOf(types, v.items[0].s);
    SameBytesIff(abi, met, types[i], v.items[1], w.items[1], ext, de + 1, dd + 1);
    var a, b := Encode(abi, types[i], w.items[1], ext, de + 1), Encode(abi, types[i], v.items[1], ext, de + 1);
    if a.Ok? && PackVar(i) + a.value == PackVar(i) + b.value {
      SameBack(PackVar(i), a.value, b.value);
    }
  }

  // ---------- structs ----------

  lemma {:induction false} StructSame(abi: Abi, met: set<Type>, t: Type, v: Value, es: seq<Entry>, ext: bool, de: nat, dd: nat)
    requires Tidy(abi, met) && IsStruct(abi, t) && StructIn(abi, met, abi.structs[t.name]) && 0 < de < MAX_DEPTH && 0 < dd
    requires DistinctNames(AllFields(abi, t, 0))
    requires EncodeStruct(abi, abi.structs[t.name], v, ext, de).Ok? && SeenStruct(abi, t, v, [], dd) == Ok(es)
    ensures EncodeStruct(abi, abi.structs[t.name], Obj(es), ext, de) == EncodeStruct(abi, abi.structs[t.name], v, ext, de)
       <==> StructStable(abi, t, v, 0)
    decreases MAX_DEPTH - de, 3, 0
  {
    assert AllAbsent(AllFields(abi, t, 0), []);
    if v.Obj? {
      StructMirror(abi, t, v.entries, [], 0, dd, es);
      KeyedSame(abi, met, t, v, es, ext, de, 0, dd);
    } else {
      var st := abi.structs[t.name];
      assert st.base.None? && AllFields(abi, t, 0) == [] + st.fields == st.fields;
      PositionalSame(abi, met, st, v, es, ext, de, dd + 1);
    }
  }

  lemma {:induction false} PositionalSame(
    abi: Abi, met: set<Type>, st: Struct, v: Value, es: seq<Entry>, ext: bool, de: nat, dd: nat)
    requires Tidy(abi, met) && FieldsIn(met, st.fields) && DistinctNames(st.fields) && st.base.None? && v.Arr?
    requires EncodePositional(abi, st.fields, v.items, ext, de).Ok? && SeenPositional(abi, st.fields, v.items, [], dd) == Ok(es)
    ensures EncodeStruct(abi, st, Obj(es), ext, de) == EncodePositional(abi, st.fields, v.items, ext, de)
       <==> PositionalStable(abi, st.fields, v, 0)
    decreases MAX_DEPTH - de, 2, 0
  {
    var keyed := Obj(Keyed(st.fields, v.items));
    ByPosition(abi, st.fields, v.items, es, ext, de, dd);
    assert AllAbsent(st.fields, []);
    FieldsMirror(abi, st.fields, keyed.entries, [], dd, es);
    FieldsSame(abi, met, st.fields, keyed, es, ext, false, de);
    assert st.fields[0..] == st.fields;
    PositionalIsFields(abi, st.fields, v, keyed, 0);
    StructParts(abi, st, es, ext, de);
    var own := EncodeFields(abi, st.fields, es, ext, false, de);
    if own.Ok? {
      assert [] + own.value == own.value;
    }
  }

  lemma {:induction false} ByPosition(
    abi: Abi, fields: seq<Field>, items: seq<Value>, es: seq<Entry>, ext: bool, de: nat, dd: nat)
    requires DistinctNames(fields) && EncodePositional(abi, fields, items, ext, de).Ok?
    requires SeenPositional(abi, fields, items, [], dd) == Ok(es)
    ensures EncodeFields(abi, fields, Keyed(fields, items), ext, false, de) == EncodePositional(abi, fields, items, ext, de)
    ensures SeenFields(abi, fields, Keyed(fields, items), [], dd) == Ok(es)
  {
    assert fields[0..] == fields && items[0..] == items;
    SeenIsKeyed(abi, fields, items, 0, [], dd);
    PositionalIsKeyed(abi, fields, items, ext, de);
  }

  function BaseEncoded(abi: Abi, st: Struct, v: Value, d: nat): Result<seq<Byte>> {
    if st.base.None? then Ok([]) else Encode(abi, Resolve(abi, st.base.value), v, false, d)
  }

  lemma {:induction false} StructParts(abi: Abi, st: Struct, entries: seq<Entry>, ext: bool, d: nat)
    ensures var base, own := BaseEncoded(abi, st, Obj(entries), d), EncodeFields(abi, st.fields, entries, ext, false, d);
            EncodeStruct(abi, st, Obj(entries), ext, d) == if base.Err? || own.Err? then Err else Ok(base.value + own.value)
  {
  }

  ghost predicate BaseStable(abi: Abi, st: Struct, v: Value, level: nat) {
    st.base.Some? ==> StructStable(abi, Resolve(abi, st.base.value), v, level + 1)
  }

  lemma {:induction false} TypeSame(
    abi: Abi, met: set<Type>, base: Type, v: Value, es: seq<Entry>, de: nat, level: nat, dd: nat)
    requires Tidy(abi, met) && base in met && IsStruct(abi, base) && Resolve(abi, base) == base
    requires v.Obj? && level <= de < MAX_DEPTH && Encode(abi, base, v, false, de).Ok?
    requires SeenStruct(abi, base, v, [], dd).Ok? && Mirrors(abi, AllFields(abi, base, level), v.entries, es)
    ensures Encode(abi, base, Obj(es), false, de) == Encode(abi, base, v, false, de) <==> StructStable(abi, base, v, level)
    decreases MAX_DEPTH - de, 0, 0
  {
    BaseIsStruct(abi, base, v, Obj(es), de);
    assert SolidAt(abi, met, base);
    KeyedSame(abi, met, base, v, es, false, de + 1, level, dd);
  }

  lemma {:induction false} BaseSame(
    abi: Abi, met: set<Type>, st: Struct, v: Value, es: seq<Entry>, de: nat, level: nat, dd: nat)
    requires Tidy(abi, met) && v.Obj? && level < de < MAX_DEPTH && BaseEncoded(abi, st, v, de).Ok?
    requires st.base.Some? ==> IsStruct(abi, Resolve(abi, st.base.value)) && Resolve(abi, st.base.value) in met
    requires BaseSeen(abi, st, v, [], dd).Ok? && Mirrors(abi, BaseFields(abi, st, level), v.entries, es)
    ensures BaseEncoded(abi, st, Obj(es), de) == BaseEncoded(abi, st, v, de) <==> BaseStable(abi, st, v, level)
    decreases MAX_DEPTH - de, 1, 0
  {
    if st.base.Some? {
      TypeSame(abi, met, Resolve(abi, st.base.value), v, es, de, level + 1, dd);
    }
  }

  // The bytes of base and fields agree exactly if both do.
  lemma {:induction false} PartsJoin(abi: Abi, met: set<Type>, st: Struct, v: Value, es: seq<Entry>, ext: bool, de: nat, dd: nat)
    requires Tidy(abi, met) && v.Obj? && EncodeStruct(abi, st, v, ext, de).Ok? && BaseSeen(abi, st, v, [], dd).Ok?
    requires st.base.Some? ==> IsStruct(abi, Resolve(abi, st.base.value)) && Resolve(abi, st.base.value) in met
    ensures EncodeStruct(abi, st, Obj(es), ext, de) == EncodeStruct(abi, st, v, ext, de)
       <==> && BaseEncoded(abi, st, Obj(es), de) == BaseEncoded(abi, st, v, de)
            && EncodeFields(abi, st.fields, es, ext, false, de) == EncodeFields(abi, st.fields, v.entries, ext, false, de)
  {
    StructParts(abi, st, v.entries, ext, de);
    StructParts(abi, st, es, ext, de);
    var a, b := EncodeFields(abi, st.fields, v.entries, ext, false, de), EncodeFields(abi, st.fields, es, ext, false, de);
    if EncodeStruct(abi, st, Obj(es), ext, de) == EncodeStruct(abi, st, v, ext, de) {
      if st.base.Some? {
        SplitBase(abi, met, Resolve(abi, st.base.value), v, Obj(es), de, dd, a.value, b.value);
      } else {
        assert [] + a.value == a.value && [] + b.value == b.value;
      }
    }
  }

  lemma {:induction false} StableParts(abi: Abi, t: Type, v: Value, level: nat)
    requires IsStruct(abi, t) && level < MAX_DEPTH && v.Obj?
    ensures StructStable(abi, t, v, level)
       <==> BaseStable(abi, abi.structs[t.name], v, level) && FieldsStable(abi, abi.structs[t.name].fields, v)
  {
  }

  lemma {:induction false} KeyedSame(
    abi: Abi, met: set<Type>, t: Type, v: Value, es: seq<Entry>, ext: bool, de: nat, level: nat, dd: nat)
    requires Tidy(abi, met) && IsStruct(abi, t) && StructIn(abi, met, abi.structs[t.name]) && v.Obj? && level < de < MAX_DEPTH
    requires EncodeStruct(abi, abi.structs[t.name], v, ext, de).Ok? && SeenStruct(abi, t, v, [], dd).Ok?
    requires Mirrors(abi, AllFields(abi, t, level), v.entries, es)
    ensures EncodeStruct(abi, abi.structs[t.name], Obj(es), ext, de) == EncodeStruct(abi, abi.structs[t.name], v, ext, de)
       <==> StructStable(abi, t, v, level)
    decreases MAX_DEPTH - de, 2, 0
  {
    var st := abi.structs[t.name];
    assert SaneAt(abi, t.name);
    Joined(abi, BaseFields(abi, st, level), st.fields, v.entries, es);
    StructParts(abi, st, v.entries, ext, de);
    BaseSame(abi, met, st, v, es, de, level, dd + 1);
    FieldsSame(abi, met, st.fields, v, es, ext, false, de);
    PartsJoin(abi, met, st, v, es, ext, de, dd + 1);
    StableParts(abi, t, v, level);
  }

  lemma {:induction false} FieldsSame(
    abi: Abi, met: set<Type>, fields: seq<Field>, v: Value, es: seq<Entry>, ext: bool, skipped: bool, de: nat)
    requires Tidy(abi, met) && FieldsIn(met, fields) && v.Obj? && Mirrors(abi, fields, v.entries, es)
    requires EncodeFields(abi, fields, v.entries, ext, skipped, de).Ok?
    ensures EncodeFields(abi, fields, es, ext, skipped, de) == EncodeFields(abi, fields, v.entries, ext, skipped, de)
       <==> FieldsStable(abi, fields, v)
    decreases MAX_DEPTH - de, 1, |fields|
  {
    if fields != [] {
      var f := fields[0];
      assert MirrorAt(abi, f, v.entries, es);
      assert Mirrors(abi, fields[1..], v.entries, es) by {
        Joined(abi, [f], fields[1..], v.entries, es);
        assert fields == [f] + fields[1..];
      }
      var x, y := Find(v.entries, f.name), Find(es, f.name);
      if x.Some? {
        var e: nat :| Seen(abi, f.typ, x.value, e) == Ok(y.value);
        SameBytesIff(abi, met, f.typ, x.value, y.value, ext && |fields| == 1, de, e);
        FieldsSame(abi, met, fields[1..], v, es, ext, skipped, de);
        FieldsJoin(abi, met, fields, v.entries, es, ext, ext && |fields| == 1, skipped, de, e);
      } else {
        FieldsSame(abi, met, fields[1..], v, es, ext, true, de);
      }
    }
  }

  lemma {:induction false} FieldsJoin(
    abi: Abi, met: set<Type>, fields: seq<Field>, entries: seq<Entry>, es: seq<Entry>, ext: bool, last: bool, skipped: bool, de: nat, e: nat)
    requires last == (ext && |fields| == 1) && Tidy(abi, met) && fields != [] && fields[0].typ in met && EncodeFields(abi, fields, entries, ext, skipped, de).Ok?
    requires Find(entries, fields[0].name).Some? && Find(es, fields[0].name).Some?
    requires Seen(abi, fields[0].typ, Find(entries, fields[0].name).value, e).Ok?
    ensures EncodeFields(abi, fields, es, ext, skipped, de) == EncodeFields(abi, fields, entries, ext, skipped, de)
       <==> && Encode(abi, fields[0].typ, Find(es, fields[0].name).value, last, de)
               == Encode(abi, fields[0].typ, Find(entries, fields[0].name).value, last, de)
            && EncodeFields(abi, fields[1..], es, ext, skipped, de) == EncodeFields(abi, fields[1..], entries, ext, skipped, de)
  {
    if EncodeFields(abi, fields, es, ext, skipped, de) == EncodeFields(abi, fields, entries, ext, skipped, de) {
      SplitOff(abi, met, fields[0].typ, Find(entries, fields[0].name).value, Find(es, fields[0].name).value,
               last, de, e, EncodeFields(abi, fields[1..], entries, ext, skipped, de).value,
               EncodeFields(abi, fields[1..], es, ext, skipped, de).value);
    }
  }

  /** The entry points: what was encoded is decoded again exactly if its nesting is within the limit, and
      then encodes to the same bytes, whichever way it was first given, exactly if every built-in value in
      it does. */
  lemma {:induction false} BytesRoundTrip(abi: Abi, met: set<Type>, typ: Type, v: Value)
    requires Tidy(abi, met) && typ in met && VariantToBinary(abi, typ, v).Ok?
    ensures var bytes := VariantToBinary(abi, typ, v).value;
            var back := BinaryToVariant(abi, typ, bytes);
            && (back.Ok? <==> Within(Nesting(abi, typ, v), 1))
            && (back.Ok? ==> (VariantToBinary(abi, typ, back.value) == Ok(bytes) <==> StableIn(abi, typ, v)))
  {
    var bytes := VariantToBinary(abi, typ, v).value;
    RoundTrip(abi, met, typ, v, true, 1, 1, []);
    assert bytes + [] == bytes;
    SeenIff(abi, typ, v, true, 1, 1);
    if Seen(abi, typ, v, 1).Ok? {
      SameBytesIff(abi, met, typ, v, Seen(abi, typ, v, 1).value, true, 1, 1);
    }
  }

  /** A varint32 by itself: its bytes come out the same exactly within 31 bits. */
  lemma {:induction false} VarintBytes(abi: Abi, met: set<Type>, name: Name, n: int)
    requires Tidy(abi, met) && Atom(name) in met && name !in abi.typedefs
    requires name in abi.builtins && abi.builtins[name] == VarSignedType() && VariantToBinary(abi, Atom(name), Num(n)).Ok?
    ensures var bytes := VariantToBinary(abi, Atom(name), Num(n)).value;
            var back := BinaryToVariant(abi, Atom(name), bytes);
            && back.Ok?
            && (VariantToBinary(abi, Atom(name), back.value) == Ok(bytes) <==> -0x4000_0000 <= ToInt32(n) < 0x4000_0000)
  {
    BytesRoundTrip(abi, met, Atom(name), Num(n));
    VarSignedStableIff(n);
  }
}
