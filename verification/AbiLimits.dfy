/** Where the serializer does not round-trip: structs that can pack to nothing, nesting that only
    the encoder accepts, and optionals of types that are not built in. */
module AbiLimits {
  import opened Options
  import opened RawPack
  import opened AbiCodec
  import opened AbiRoundTrip

  predicate PlainStruct(abi: Abi, name: Name) {
    name in abi.structs && name !in abi.typedefs && name !in abi.builtins && name !in abi.variants
  }

  /** The condition on structs in the round trip is exact: a struct without a base that has no
      fields or begins with an extension packs an empty positional value to no bytes at all, and no
      bytes cannot be unpacked. */
  lemma {:induction false} HollowFails(abi: Abi, name: Name)
    requires PlainStruct(abi, name) && !SolidStruct(abi.structs[name])
    ensures VariantToBinary(abi, Atom(name), Arr([])) == Ok([])
    ensures BinaryToVariant(abi, Atom(name), []) == Err
  {
    var st := abi.structs[name];
    assert EncodePositional(abi, st.fields, [], true, 2) == Ok([]);
    AtEnd(abi, st.fields, [], 3);
    assert DecodeStruct(abi, Atom(name), [], [], 2) == DecodeFields(abi, st.fields, [], [], 3);
  }

  /** An optional of a struct can be read, but no value of it can be written. */
  lemma {:induction false} OptionalStructOneWay(abi: Abi, name: Name, v: Value)
    requires PlainStruct(abi, name)
    ensures VariantToBinary(abi, OptionalOf(Atom(name)), v) == Err
    ensures BinaryToVariant(abi, OptionalOf(Atom(name)), [0]) == Ok(Null)
  {
  }

  // ---------- nesting ----------

  // A struct with one field, an array of the struct itself.
  predicate Recursive(abi: Abi, name: Name, field: Name) {
    PlainStruct(abi, name) && abi.structs[name] == Struct(None, [Field(field, ArrayOf(Atom(name)), false)])
  }

  function Nested(field: Name, k: nat): Value {
    Holding(field, if k == 0 then [] else [Nested(field, k - 1)])
  }

  // One level: a struct holding an array of the given items.
  function Holding(field: Name, items: seq<Value>): Value {
    Obj([Entry(field, Arr(items))])
  }

  lemma {:induction false} EncodeHolding(abi: Abi, name: Name, field: Name, items: seq<Value>, ext: bool, d: nat)
    requires Recursive(abi, name, field) && |items| < TWO32
    ensures var r := EncodeItems(abi, Atom(name), items, d + 2);
            Encode(abi, Atom(name), Holding(field, items), ext, d)
            == if d + 2 >= MAX_DEPTH || r.Err? then Err else Ok(PackVar(|items|) + r.value)
  {
    if d + 1 < MAX_DEPTH {
      var v := Holding(field, items);
      var f := Field(field, ArrayOf(Atom(name)), false);
      assert Find(v.entries, field) == Some(Arr(items));
      var fs := [f];
      assert fs[1..] == [];
      var r1 := Encode(abi, f.typ, Arr(items), ext, d + 1);
      var own := EncodeFields(abi, fs, v.entries, ext, false, d + 1);
      var rs := EncodeFields(abi, fs[1..], v.entries, ext, false, d + 1);
      assert rs == Ok([]);
      assert own == if r1.Err? || rs.Err? then Err else Ok(r1.value + rs.value);
      assert Encode(abi, Atom(name), v, ext, d) == EncodeStruct(abi, abi.structs[name], v, ext, d + 1);
      if r1.Ok? {
        assert [] + (r1.value + []) == r1.value;
      }
    }
  }

  lemma {:induction false} EncodesNested(abi: Abi, name: Name, field: Name, k: nat, ext: bool, d: nat)
    requires Recursive(abi, name, field)
    ensures Encode(abi, Atom(name), Nested(field, k), ext, d).Ok? <==> d + 2 * k + 2 < MAX_DEPTH
    ensures Encode(abi, Atom(name), Nested(field, k), ext, d).Ok? ==>
              |Encode(abi, Atom(name), Nested(field, k), ext, d).value| == k + 1
    decreases k
  {
    var items := if k == 0 then [] else [Nested(field, k - 1)];
    EncodeHolding(abi, name, field, items, ext, d);
    assert PackVar(|items|) == [|items|];
    if k > 0 {
      EncodesNested(abi, name, field, k - 1, false, d + 2);
      assert items[1..] == [];
      var r := Encode(abi, Atom(name), items[0], false, d + 2);
      assert EncodeItems(abi, Atom(name), items[1..], d + 2) == Ok([]);
      assert EncodeItems(abi, Atom(name), items, d + 2) == if r.Err? then Err else Ok(r.value + []);
    }
  }

  lemma {:induction false} SeeHolding(abi: Abi, name: Name, field: Name, items: seq<Value>, d: nat)
    requires Recursive(abi, name, field)
    ensures var r := SeenItems(abi, Atom(name), items, d + 3);
            Seen(abi, Atom(name), Holding(field, items), d)
            == if d + 3 >= MAX_DEPTH || r.Err? then Err else Ok(Holding(field, r.value))
  {
    if d + 2 < MAX_DEPTH {
      var v := Holding(field, items);
      var f := Field(field, ArrayOf(Atom(name)), false);
      assert Find(v.entries, field) == Some(Arr(items));
      var fs := [f];
      assert fs[1..] == [];
      var r := Seen(abi, f.typ, Arr(items), d + 2);
      assert SeenFields(abi, fs, v.entries, [], d + 2) == if r.Err? then Err else Ok(Put([], field, r.value));
      assert SeenStruct(abi, Atom(name), v, [], d + 1) == SeenFields(abi, fs, v.entries, [], d + 2);
    }
  }

  lemma {:induction false} SeesNested(abi: Abi, name: Name, field: Name, k: nat, d: nat)
    requires Recursive(abi, name, field)
    ensures Seen(abi, Atom(name), Nested(field, k), d).Ok? <==> d + 3 * k + 3 < MAX_DEPTH
    ensures Seen(abi, Atom(name), Nested(field, k), d).Ok? ==>
              Seen(abi, Atom(name), Nested(field, k), d).value == Nested(field, k)
    decreases k
  {
    var items := if k == 0 then [] else [Nested(field, k - 1)];
    SeeHolding(abi, name, field, items, d);
    if k > 0 {
      SeesNested(abi, name, field, k - 1, d + 3);
      assert items[1..] == [];
      var r := Seen(abi, Atom(name), items[0], d + 3);
      assert SeenItems(abi, Atom(name), items[1..], d + 3) == Ok([]);
      assert SeenItems(abi, Atom(name), items, d + 3) == if r.Err? then Err else Ok([r.value] + []);
      assert r.Ok? ==> [r.value] + [] == items;
    }
  }

  /** The decoder counts two levels for a struct where the encoder counts one. A struct nested
      through an array of itself can be written up to 14 times, but read back only up to 9. */
  lemma {:induction false} DeepValuesOneWay(abi: Abi, name: Name, field: Name, k: nat)
    requires Sane(abi) && (forall t :: t in abi.builtins ==> Lawful(abi.builtins[t])) && Recursive(abi, name, field)
    ensures VariantToBinary(abi, Atom(name), Nested(field, k)).Ok? <==> k <= 14
    ensures VariantToBinary(abi, Atom(name), Nested(field, k)).Ok? ==>
              BinaryToVariant(abi, Atom(name), VariantToBinary(abi, Atom(name), Nested(field, k)).value)
              == if k <= 9 then Ok(Nested(field, k)) else Err
  {
    EncodesNested(abi, name, field, k, true, 1);
    SeesNested(abi, name, field, k, 1);
    var r := Encode(abi, Atom(name), Nested(field, k), true, 1);
    if r.Ok? {
      var met := {Atom(name), ArrayOf(Atom(name))};
      RoundTrip(abi, met, Atom(name), Nested(field, k), true, 1, 1, []);
      assert r.value + [] == r.value;
    }
  }
}
