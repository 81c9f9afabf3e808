/** The byte format on the types of the serializer's own tests: a tagged variant, and a struct that
    ends in extensions. */
module AbiScenarios {
  import opened Options
  import opened RawPack
  import opened AbiCodec
  import opened AbiTheorems

  const INT8: Name := [1]
  const INT16: Name := [2]
  const TEXT: Name := [10]
  const V1: Name := [3]
  const S: Name := [4]
  const I0: Name := [5]
  const I1: Name := [6]
  const I2: Name := [7]
  const A: Name := [8]
  const O: Name := [9]

  const FIELDS: seq<Field> := [
    Field(I0, Atom(INT8), false),
    Field(I1, Atom(INT8), false),
    Field(I2, Atom(INT8), true),
    Field(A, ArrayOf(Atom(INT8)), true),
    Field(O, OptionalOf(Atom(INT8)), true)]

  ghost predicate TestAbi(abi: Abi) {
    && abi.typedefs == map[]
    && INT8 in abi.builtins && abi.builtins[INT8] == IntegerType(1, true)
    && INT16 in abi.builtins && abi.builtins[INT16] == IntegerType(2, true)
    && V1 !in abi.builtins && S !in abi.builtins && S !in abi.variants
    && V1 in abi.variants && abi.variants[V1] == [Atom(INT8), Atom(TEXT), Atom(INT16)]
    && S in abi.structs && abi.structs[S] == Struct(None, FIELDS)
  }

  type Small = b: int | 0 <= b < 128

  lemma {:induction false} OneByte(abi: Abi, b: Small, ext: bool, d: nat)
    requires TestAbi(abi) && d + 1 < MAX_DEPTH
    ensures Encode(abi, Atom(INT8), Num(b), ext, d) == Ok([b])
    ensures Encode(abi, OptionalOf(Atom(INT8)), Num(b), ext, d) == Ok([1, b])
    ensures Encode(abi, OptionalOf(Atom(INT8)), Null, ext, d) == Ok([0])
  {
    PackOne(abi.builtins[INT8], b);
    assert [1] + [b] == [1, b];
  }

  lemma {:induction false} TwoBytes(abi: Abi, b: Small, ext: bool, d: nat)
    requires TestAbi(abi) && d + 1 < MAX_DEPTH
    ensures Encode(abi, Atom(INT16), Num(b), ext, d) == Ok([b, 0])
  {
    assert 0 % 256 == 0 && PackLE(0, 0) == [] && PackLE(0, 1) == [0];
    assert b % 256 == b && b / 256 == 0 && PackLE(b, 2) == [b] + PackLE(0, 1);
    assert [b] + [0] == [b, 0];
  }

  lemma {:induction false} PackOne(p: Builtin, b: Small)
    requires p == IntegerType(1, true)
    ensures p.pack(Num(b)) == Ok([b])
  {
    assert b % 256 == b && PackLE(b / 256, 0) == [] && PackLE(b, 1) == [b];
  }

  lemma {:induction false} PackNext(p: Builtin, b: Small, vs: seq<Value>, bs: seq<Byte>)
    requires p == IntegerType(1, true) && PackAll(p, vs) == Ok(bs)
    ensures PackAll(p, [Num(b)] + vs) == Ok([b] + bs)
  {
    PackOne(p, b);
    assert ([Num(b)] + vs)[1..] == vs;
  }

  lemma {:induction false} ThreeBytes(abi: Abi, x: Small, y: Small, z: Small, ext: bool, d: nat)
    requires TestAbi(abi) && d + 1 < MAX_DEPTH
    ensures Encode(abi, ArrayOf(Atom(INT8)), Arr([Num(x), Num(y), Num(z)]), ext, d) == Ok([3, x, y, z])
  {
    var p := abi.builtins[INT8];
    PackNext(p, z, [], []);
    PackNext(p, y, [Num(z)] + [], [z] + []);
    PackNext(p, x, [Num(y)] + ([Num(z)] + []), [y] + ([z] + []));
    assert [Num(x)] + ([Num(y)] + ([Num(z)] + [])) == [Num(x), Num(y), Num(z)];
    assert PackVar(3) == [3];
    assert [3] + ([x] + ([y] + ([z] + []))) == [3, x, y, z];
  }

  lemma {:induction false} Tags(types: seq<Type>)
    requires types == [Atom(INT8), Atom(TEXT), Atom(INT16)]
    ensures IndexOf(types, INT8) == 0 && IndexOf(types, INT16) == 2 && IndexOf(types, S) == 3
  {
    assert types[1..] == [Atom(TEXT), Atom(INT16)] && types[1..][1..] == [Atom(INT16)] && types[1..][1..][1..] == [];
    assert IndexOf(types[1..][1..], INT16) == 0 && IndexOf(types[1..], INT16) == 1;
    assert IndexOf(types[1..][1..], S) == 1 && IndexOf(types[1..], S) == 2;
  }

  /** The tag of a variant is the position of its type, in front of the value. */
  lemma {:induction false} VariantBytes(abi: Abi, b: Small)
    requires TestAbi(abi)
    ensures VariantToBinary(abi, Atom(V1), Arr([Str(INT8), Num(b)])) == Ok([0, b])
    ensures VariantToBinary(abi, Atom(V1), Arr([Str(INT16), Num(b)])) == Ok([2, b, 0])
    ensures VariantToBinary(abi, Atom(V1), Arr([Str(S), Num(b)])) == Err
  {
    OneByte(abi, b, true, 2);
    TwoBytes(abi, b, true, 2);
    Tags(abi.variants[V1]);
    assert PackVar(0) == [0] && PackVar(2) == [2];
    assert [0] + [b] == [0, b] && [2] + [b, 0] == [2, b, 0];
  }

  // One field in front of those behind it.
  lemma {:induction false} FieldFirst(abi: Abi, fields: seq<Field>, entries: seq<Entry>, v: Value, b: seq<Byte>, bs: seq<Byte>, d: nat)
    requires fields != [] && Find(entries, fields[0].name) == Some(v)
    requires Encode(abi, fields[0].typ, v, |fields| == 1, d) == Ok(b)
    requires EncodeFields(abi, fields[1..], entries, true, false, d) == Ok(bs)
    ensures EncodeFields(abi, fields, entries, true, false, d) == Ok(b + bs)
  {
  }

  lemma {:induction false} AllLeftOut(abi: Abi, fields: seq<Field>, entries: seq<Entry>, skipped: bool, d: nat)
    requires forall i :: 0 <= i < |fields| ==> fields[i].extension && Find(entries, fields[i].name).None?
    ensures EncodeFields(abi, fields, entries, true, skipped, d) == Ok([])
    decreases |fields|
  {
    if fields != [] {
      AllLeftOut(abi, fields[1..], entries, true, d);
    }
  }

  lemma {:induction false} StructIsFields(abi: Abi, entries: seq<Entry>, bytes: seq<Byte>)
    requires TestAbi(abi) && EncodeFields(abi, FIELDS, entries, true, false, 2) == Ok(bytes) && |bytes| <= BUFFER
    ensures VariantToBinary(abi, Atom(S), Obj(entries)) == Ok(bytes)
  {
    assert [] + bytes == bytes;
  }

  // The fields I0 and I1 in front of what the extensions give.
  lemma {:induction false} TwoInFront(abi: Abi, entries: seq<Entry>, a: Small, b: Small, bs: seq<Byte>)
    requires TestAbi(abi) && |bs| < 16
    requires Find(entries, I0) == Some(Num(a)) && Find(entries, I1) == Some(Num(b))
    requires EncodeFields(abi, FIELDS[2..], entries, true, false, 2) == Ok(bs)
    ensures VariantToBinary(abi, Atom(S), Obj(entries)) == Ok([a, b] + bs)
  {
    OneByte(abi, a, false, 2);
    OneByte(abi, b, false, 2);
    assert FIELDS[1..][1..] == FIELDS[2..];
    FieldFirst(abi, FIELDS[1..], entries, Num(b), [b], bs, 2);
    FieldFirst(abi, FIELDS, entries, Num(a), [a], [b] + bs, 2);
    assert [a] + ([b] + bs) == [a, b] + bs;
    StructIsFields(abi, entries, [a, b] + bs);
  }

  /** Without its extensions the struct is the bytes of its two fields. */
  lemma {:induction false} WithoutExtensions(abi: Abi, a: Small, b: Small)
    requires TestAbi(abi)
    ensures VariantToBinary(abi, Atom(S), Obj([Entry(I0, Num(a)), Entry(I1, Num(b))])) == Ok([a, b])
  {
    var entries := [Entry(I0, Num(a)), Entry(I1, Num(b))];
    assert entries[1..] == [Entry(I1, Num(b))] && entries[1..][1..] == [];
    assert Find(entries[1..], I1) == Some(Num(b));
    var rest := FIELDS[2..];
    forall i | 0 <= i < |rest| ensures rest[i].extension && Find(entries, rest[i].name).None? {
      assert Find(entries[1..][1..], rest[i].name).None?;
      assert Find(entries[1..], rest[i].name).None?;
    }
    AllLeftOut(abi, rest, entries, false, 2);
    TwoInFront(abi, entries, a, b, []);
    assert [a, b] + [] == [a, b];
  }

  lemma {:induction false} LastTwo(abi: Abi, entries: seq<Entry>, x: Small, y: Small, z: Small, o: Small)
    requires TestAbi(abi)
    requires Find(entries, A) == Some(Arr([Num(x), Num(y), Num(z)])) && Find(entries, O) == Some(Num(o))
    ensures EncodeFields(abi, FIELDS[3..], entries, true, false, 2) == Ok([3, x, y, z] + [1, o])
  {
    OneByte(abi, o, true, 2);
    assert FIELDS[4..][1..] == [] && FIELDS[3..][1..] == FIELDS[4..];
    FieldFirst(abi, FIELDS[4..], entries, Num(o), [1, o], [], 2);
    assert [1, o] + [] == [1, o];
    ThreeBytes(abi, x, y, z, false, 2);
    FieldFirst(abi, FIELDS[3..], entries, Arr([Num(x), Num(y), Num(z)]), [3, x, y, z], [1, o], 2);
  }

  lemma {:induction false} LastThree(abi: Abi, entries: seq<Entry>, c: Small, bs: seq<Byte>)
    requires TestAbi(abi) && Find(entries, I2) == Some(Num(c))
    requires EncodeFields(abi, FIELDS[3..], entries, true, false, 2) == Ok(bs)
    ensures EncodeFields(abi, FIELDS[2..], entries, true, false, 2) == Ok([c] + bs)
  {
    OneByte(abi, c, false, 2);
    assert FIELDS[2..][1..] == FIELDS[3..];
    FieldFirst(abi, FIELDS[2..], entries, Num(c), [c], bs, 2);
  }

  /** With all of them: the array is its length and its items, the optional a byte and its value. */
  lemma {:induction false} WithExtensions(
    abi: Abi, entries: seq<Entry>, a: Small, b: Small, c: Small, x: Small, y: Small, z: Small, o: Small)
    requires TestAbi(abi)
    requires Find(entries, I0) == Some(Num(a)) && Find(entries, I1) == Some(Num(b)) && Find(entries, I2) == Some(Num(c))
    requires Find(entries, A) == Some(Arr([Num(x), Num(y), Num(z)])) && Find(entries, O) == Some(Num(o))
    ensures VariantToBinary(abi, Atom(S), Obj(entries)) == Ok([a, b] + ([c] + ([3, x, y, z] + [1, o])))
  {
    LastTwo(abi, entries, x, y, z, o);
    LastThree(abi, entries, c, [3, x, y, z] + [1, o]);
    TwoInFront(abi, entries, a, b, [c] + ([3, x, y, z] + [1, o]));
  }

  lemma {:induction false} ErrorBehind(abi: Abi, fields: seq<Field>, entries: seq<Entry>, skipped: bool, d: nat)
    requires fields != [] && EncodeFields(abi, fields[1..], entries, true, false, d).Err?
    requires EncodeFields(abi, fields[1..], entries, true, true, d).Err?
    ensures EncodeFields(abi, fields, entries, true, skipped, d).Err?
  {
  }

  // A field that is not an extension may not be left out, and nothing may follow an extension that was.
  lemma {:induction false} WrongFields(abi: Abi, entries: seq<Entry>)
    requires TestAbi(abi)
    requires Find(entries, I1).None? || (Find(entries, I2).None? && Find(entries, A).Some?)
    ensures VariantToBinary(abi, Atom(S), Obj(entries)) == Err
  {
    assert FIELDS[2..][1..] == FIELDS[3..] && FIELDS[1..][1..] == FIELDS[2..];
    if Find(entries, I1).None? {
      assert FIELDS[1..][0] == FIELDS[1];
      ErrorBehind(abi, FIELDS, entries, false, 2);
    } else {
      assert FIELDS[3..][0] == FIELDS[3] && EncodeFields(abi, FIELDS[3..], entries, true, true, 2).Err?;
      assert FIELDS[2..][0] == FIELDS[2] && EncodeFields(abi, FIELDS[2..], entries, true, false, 2).Err?;
      ErrorBehind(abi, FIELDS[1..], entries, false, 2);
      ErrorBehind(abi, FIELDS[1..], entries, true, 2);
      ErrorBehind(abi, FIELDS, entries, false, 2);
    }
  }
}
