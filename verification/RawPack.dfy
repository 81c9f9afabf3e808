/** The byte formats of fc::raw: variable-length integers, little-endian integers and
    length-prefixed byte strings. */
module RawPack {

  type Byte = b: int | 0 <= b < 256

  datatype Result<+T> = Ok(value: T) | Err

  datatype Read<+T> = Read(item: T, rest: seq<Byte>)

  const TWO32 := 0x1_0000_0000

  // ---------- variable-length integers, seven bits a byte, low bits first ----------

  function PackVar(v: nat): (bytes: seq<Byte>)
    ensures bytes != []
    decreases v
  {
    if v < 128 then [v] else [v % 128 + 128] + PackVar(v / 128)
  }

  // At most `left` bytes are taken; the last of them ends the number whatever its top bit.
  function UnpackVarN(s: seq<Byte>, left: nat): Result<Read<nat>>
    decreases |s|
  {
    if s == [] then Err
    else if s[0] >= 128 && left > 1 then
      var r := UnpackVarN(s[1..], left - 1);
      if r.Err? then Err else Ok(Read(s[0] % 128 + 128 * r.value.item, r.value.rest))
    else Ok(Read(s[0] % 128, s[1..]))
  }

  function Low32(r: Result<Read<nat>>): (low: Result<Read<nat>>)
    ensures low.Ok? ==> low.value.item < TWO32
  {
    if r.Err? then Err else Ok(Read(r.value.item % TWO32, r.value.rest))
  }

  // The unsigned reader stops once 32 bits are covered, after five bytes; higher bits are lost.
  function UnpackVar(s: seq<Byte>): Result<Read<nat>> {
    Low32(UnpackVarN(s, 5))
  }

  // The signed reader stops only on a byte below 128.
  function UnpackLongVar(s: seq<Byte>): Result<Read<nat>> {
    Low32(UnpackVarN(s, |s|))
  }

  function Pow128(k: nat): (p: nat)
    ensures p > 0
  {
    if k == 0 then 1 else 128 * Pow128(k - 1)
  }

  lemma {:induction false} VarRoundTripN(v: nat, left: nat, rest: seq<Byte>)
    requires v < Pow128(left)
    ensures UnpackVarN(PackVar(v) + rest, left) == Ok(Read(v, rest))
    decreases v
  {
    var s := PackVar(v) + rest;
    if v < 128 {
      assert s[1..] == rest;
    } else {
      assert s[1..] == PackVar(v / 128) + rest;
      assert left > 1 by {
        assert Pow128(1) == 128 * Pow128(0);
      }
      VarRoundTripN(v / 128, left - 1, rest);
    }
  }

  lemma {:induction false} PackVarLength(v: nat)
    ensures v < Pow128(|PackVar(v)|)
    decreases v
  {
    if v < 128 {
      assert Pow128(1) == 128 * Pow128(0);
    } else {
      PackVarLength(v / 128);
    }
  }

  lemma {:induction false} Pow128Grows(a: nat, b: nat)
    requires a <= b
    ensures Pow128(a) <= Pow128(b)
    decreases b
  {
    if a < b {
      Pow128Grows(a, b - 1);
    }
  }

  lemma {:induction false} VarRoundTrip(v: nat, rest: seq<Byte>)
    requires v < TWO32
    ensures UnpackVar(PackVar(v) + rest) == Ok(Read(v, rest))
    ensures UnpackLongVar(PackVar(v) + rest) == Ok(Read(v, rest))
  {
    FiveBytes();
    VarRoundTripN(v, 5, rest);
    var s := PackVar(v) + rest;
    PackVarLength(v);
    Pow128Grows(|PackVar(v)|, |s|);
    VarRoundTripN(v, |s|, rest);
  }

  lemma {:induction false} FiveBytes()
    ensures Pow128(5) == 0x8_0000_0000
  {
    assert Pow128(2) == 128 * Pow128(1) && Pow128(1) == 128 * Pow128(0);
    assert Pow128(4) == 128 * Pow128(3) && Pow128(3) == 128 * Pow128(2);
  }

  // The do-while loop that writes one byte at a time.
  method WriteVar(v: nat) returns (bytes: seq<Byte>)
    requires v < TWO32
    ensures bytes == PackVar(v)
  {
    var val := v;
    bytes := [];
    while true
      invariant bytes + PackVar(val) == PackVar(v)
      decreases val
    {
      var b := val % 128;
      val := val / 128;
      ghost var written := bytes;
      if val == 0 {
        bytes := bytes + [b];
        return;
      }
      bytes := bytes + [b + 128];
      assert bytes + PackVar(val) == written + ([b + 128] + PackVar(val));
    }
  }

  function Shifted(acc: nat, scale: nat, r: Result<Read<nat>>): Result<Read<nat>> {
    if r.Err? then Err else Ok(Read(acc + scale * r.value.item, r.value.rest))
  }

  lemma {:induction false} ShiftedStep(acc: nat, scale: nat, d: nat, r: Result<Read<nat>>)
    ensures Shifted(acc, scale, if r.Err? then Err else Ok(Read(d + 128 * r.value.item, r.value.rest)))
         == Shifted(acc + d * scale, scale * 128, r)
  {
    if r.Ok? {
      var x := r.value.item;
      assert scale * (d + 128 * x) == d * scale + scale * (128 * x);
      assert scale * (128 * x) == scale * 128 * x;
    }
  }

  lemma {:induction false} SameResidue(a: nat, b: nat, x: nat)
    requires a % TWO32 == b % TWO32
    ensures (a + x % TWO32) % TWO32 == (b + x) % TWO32
  {
  }

  lemma {:induction false} ReadNext(s: seq<Byte>, pos: nat, exact: nat, scale: nat, digit: nat)
    requires pos < |s| && pos < 5 && digit == s[pos] % 128 * scale
    ensures Shifted(exact, scale, UnpackVarN(s[pos..], 5 - pos))
         == if s[pos] >= 128 && pos < 4 then Shifted(exact + digit, scale * 128, UnpackVarN(s[pos + 1..], 4 - pos))
            else Ok(Read(exact + digit, s[pos + 1..]))
  {
    var t := s[pos..];
    assert t[0] == s[pos] && t[1..] == s[pos + 1..];
    if s[pos] >= 128 && pos < 4 {
      ShiftedStep(exact, scale, s[pos] % 128, UnpackVarN(t[1..], 4 - pos));
    } else {
      assert UnpackVarN(t, 5 - pos) == Ok(Read(s[pos] % 128, t[1..]));
    }
  }

  // The do-while loop that reads one byte at a time, each shifted left by seven more bits and
  // cut to 32; the stream position advances with it.
  method ReadVar(s: seq<Byte>) returns (r: Result<Read<nat>>)
    ensures r == UnpackVar(s)
  {
    var v: nat, scale: nat, pos := 0, 1, 0;
    ghost var exact: nat := 0;
    while true
      invariant 0 <= pos <= |s| && pos < 5
      invariant v % TWO32 == exact % TWO32
      invariant UnpackVarN(s, 5) == Shifted(exact, scale, UnpackVarN(s[pos..], 5 - pos))
      decreases |s| - pos
    {
      if pos == |s| {
        return Err;
      }
      var b := s[pos];
      var digit: nat := b % 128 * scale;
      ReadNext(s, pos, exact, scale, digit);
      SameResidue(v, exact, digit);
      v := v + digit % TWO32;
      exact := exact + digit;
      pos := pos + 1;
      if b < 128 || pos == 5 {
        return Ok(Read(v % TWO32, s[pos..]));
      }
      scale := scale * 128;
    }
  }

  // ---------- signed variable-length integers ----------

  type Int32 = n: int | -0x8000_0000 <= n < 0x8000_0000

  // (n << 1) ^ (n >> 31), as an unsigned 32-bit value
  function Zigzag(n: Int32): (v: nat)
    ensures v < TWO32
  {
    if n >= 0 then 2 * n else -2 * n - 1
  }

  function XorOne(m: nat): nat {
    if m % 2 == 0 then m + 1 else m - 1
  }

  // The reader flips by the top bit of the unsigned value, not by its sign extension.
  function Unzigzag(v: nat): int
    requires v < TWO32
  {
    var m := v / 2;
    var flipped := if v / 0x8000_0000 == 1 then XorOne(m) else m;
    if v % 2 == 1 then -(flipped + 1) else flipped
  }

  /** A signed integer survives packing exactly when it lies within 31 bits; outside that range the
      reader is off by one. */
  lemma {:induction false} ZigzagRoundTrip(n: Int32)
    ensures Unzigzag(Zigzag(n)) == n <==> -0x4000_0000 <= n < 0x4000_0000
    ensures -1 <= Unzigzag(Zigzag(n)) - n <= 1
  {
    if n >= 0 {
      assert Zigzag(n) / 2 == n;
    } else {
      assert Zigzag(n) / 2 + n == -1;
    }
  }

  // ---------- little-endian integers ----------

  // Two's complement: Euclidean division by 256 keeps the sign in the high end.
  function PackLE(n: int, size: nat): (bytes: seq<Byte>)
    ensures |bytes| == size
    decreases size
  {
    if size == 0 then [] else [n % 256] + PackLE(n / 256, size - 1)
  }

  function Signed(b: Byte): int {
    if b >= 128 then b - 256 else b
  }

  function UnpackLE(bytes: seq<Byte>, signed: bool): int {
    if bytes == [] then 0
    else if |bytes| == 1 then if signed then Signed(bytes[0]) else bytes[0]
    else bytes[0] + 256 * UnpackLE(bytes[1..], signed)
  }

  // static_cast to an integer of `size` bytes
  function Wrap(n: int, size: nat, signed: bool): int
    decreases size
  {
    if size == 0 then 0
    else if size == 1 then if signed then Signed(n % 256) else n % 256
    else n % 256 + 256 * Wrap(n / 256, size - 1, signed)
  }

  lemma {:induction false} LERoundTrip(n: int, size: nat, signed: bool)
    ensures UnpackLE(PackLE(n, size), signed) == Wrap(n, size, signed)
    decreases size
  {
    if size > 0 {
      LERoundTrip(n / 256, size - 1, signed);
      assert PackLE(n, size)[1..] == PackLE(n / 256, size - 1);
    }
  }

  function Pow256(size: nat): (p: nat)
    ensures p > 0
  {
    if size == 0 then 1 else 256 * Pow256(size - 1)
  }

  // n is a value of the type: unsigned up to 256^size, signed between half of that on either side.
  predicate Fits(n: int, size: nat, signed: bool) {
    InRange(n, Pow256(size), signed)
  }

  predicate InRange(n: int, p: int, signed: bool) {
    if signed then -p <= 2 * n < p else 0 <= n < p
  }

  lemma {:induction false} ScaleOrder(q: int, r: int, bound: int)
    requires 0 <= r < 256
    ensures q < bound <==> 256 * q + r < 256 * bound
    ensures bound <= q <==> 256 * bound <= 256 * q + r
  {
  }

  // One more byte at the low end.
  lemma {:induction false} WrapStep(n: int, q: int, r: int, w: int, half: int, signed: bool)
    requires n == 256 * q + r && 0 <= r < 256
    requires InRange(w, 2 * half, signed) && (w == q <==> InRange(q, 2 * half, signed))
    ensures InRange(r + 256 * w, 512 * half, signed)
    ensures r + 256 * w == n <==> InRange(n, 512 * half, signed)
  {
    var low, high := if signed then -half else 0, if signed then half else 2 * half;
    ScaleOrder(q, r, high);
    ScaleOrder(q, r, low);
    ScaleOrder(w, r, high);
    ScaleOrder(w, r, low);
  }

  lemma {:induction false} PowIsEven(size: nat) returns (half: nat)
    requires size > 0
    ensures Pow256(size) == 2 * half && Pow256(size + 1) == 512 * half
  {
    half := 128 * Pow256(size - 1);
  }

  // The cast keeps exactly the values of the type, and always yields one.
  lemma {:induction false} WrapFits(n: int, size: nat, signed: bool)
    requires size > 0
    ensures Fits(Wrap(n, size, signed), size, signed)
    ensures Wrap(n, size, signed) == n <==> Fits(n, size, signed)
    decreases size
  {
    if size == 1 {
      assert Pow256(1) == 256 * Pow256(0);
    } else {
      WrapFits(n / 256, size - 1, signed);
      var half := PowIsEven(size - 1);
      WrapStep(n, n / 256, n % 256, Wrap(n / 256, size - 1, signed), half, signed);
    }
  }

  // ---------- byte strings ----------

  const MAX_BYTES := 20 * 1024 * 1024
  const MAX_ELEMENTS := 1024 * 1024

  function PackText(text: seq<Byte>): Result<seq<Byte>> {
    if |text| <= MAX_BYTES then Ok(PackVar(|text|) + text) else Err
  }

  function UnpackText(s: seq<Byte>): Result<Read<seq<Byte>>> {
    var r := UnpackVar(s);
    if r.Err? || r.value.item > MAX_BYTES || |r.value.rest| < r.value.item then Err
    else Ok(Read(r.value.rest[..r.value.item], r.value.rest[r.value.item..]))
  }

  lemma {:induction false} TextRoundTrip(text: seq<Byte>, rest: seq<Byte>)
    requires |text| <= MAX_BYTES
    ensures UnpackText(PackText(text).value + rest) == Ok(Read(text, rest))
  {
    VarRoundTrip(|text|, text + rest);
    assert PackText(text).value + rest == PackVar(|text|) + (text + rest);
  }
}
