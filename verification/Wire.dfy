/** The wire primitives of the Protocol Buffers encoding: base-128 varints, field keys, length-delimited
    records, little-endian fixed-width values and the skipping of values nobody asked for.  Every reader
    reports either the value and the number of bytes it took, or why it could not read. */
module Wire {

  type Byte = x: int | 0 <= x < 0x100
  type Bytes = seq<Byte>
  type U64 = x: int | 0 <= x < 0x1_0000_0000_0000_0000

  datatype Error = Truncated | Overflow | FieldNumber | Reserved | EndGroup | RecursionDepth

  datatype Reading<+T> = Got(val: T, n: nat) | Bad(err: Error)

  const VARINT := 0
  const FIXED64 := 1
  const BYTES := 2
  const START_GROUP := 3
  const END_GROUP := 4
  const FIXED32 := 5

  const MAX_FIELD_NUMBER := 0x7fff_ffff
  const RECURSION_LIMIT := 10000

  // ---------- Base 128 varints ----------

  function Varint(v: nat): (b: Bytes)
    ensures b != []
  {
    if v < 128 then [v] else [v % 128 + 128] + Varint(v / 128)
  }

  /** One more than the largest number that `left` more bytes can spell; ten bytes spell 64 bits. */
  function VarintCap(left: nat): (cap: nat)
    requires 1 <= left <= 10
    ensures cap >= 2
  {
    if left == 1 then 2 else 128 * VarintCap(left - 1)
  }

  /** Reads a varint of at most `left` bytes.  The last byte allowed may only hold 0 or 1. */
  function ReadVarint(b: Bytes, left: nat): (r: Reading<nat>)
    requires 1 <= left <= 10
    ensures r.Got? ==> 0 < r.n <= |b| && r.val < VarintCap(left)
  {
    if b == [] then Bad(Truncated)
    else if left == 1 then (if b[0] < 2 then Got(b[0], 1) else Bad(Overflow))
    else if b[0] < 128 then Got(b[0], 1)
    else
      match ReadVarint(b[1..], left - 1)
      case Bad(e) => Bad(e)
      case Got(v, n) => Got(b[0] - 128 + 128 * v, n + 1)
  }

  lemma VarintCapIs64Bits()
    ensures VarintCap(10) == 0x1_0000_0000_0000_0000
  {
    assert VarintCap(4) == 2 * 128 * 128 * 128;
    assert VarintCap(7) == 2 * 128 * 128 * 128 * 128 * 128 * 128;
  }

  function ConsumeVarint(b: Bytes): (r: Reading<U64>)
    ensures r.Got? ==> 0 < r.n <= |b|
  {
    VarintCapIs64Bits();
    ReadVarint(b, 10)
  }

  lemma {:induction false} ReadVarintInverts(v: nat, left: nat, rest: Bytes)
    requires 1 <= left <= 10 && v < VarintCap(left)
    ensures ReadVarint(Varint(v) + rest, left) == Got(v, |Varint(v)|)
  {
    if v >= 128 {
      ReadVarintInverts(v / 128, left - 1, rest);
      assert (Varint(v) + rest)[1..] == Varint(v / 128) + rest;
    }
  }

  lemma ConsumeVarintInverts(v: U64, rest: Bytes)
    ensures ConsumeVarint(Varint(v) + rest) == Got(v, |Varint(v)|)
  {
    VarintCapIs64Bits();
    ReadVarintInverts(v, 10, rest);
  }

  lemma {:induction false} ReadVarintStable(a: Bytes, b: Bytes, left: nat)
    requires 1 <= left <= 10 && ReadVarint(a, left).Got?
    ensures ReadVarint(a + b, left) == ReadVarint(a, left)
  {
    if left > 1 && a[0] >= 128 {
      ReadVarintStable(a[1..], b, left - 1);
      assert (a + b)[1..] == a[1..] + b;
    }
  }

  // ---------- Little-endian fixed-width values ----------

  function Pow256(k: nat): nat {
    if k == 0 then 1 else 256 * Pow256(k - 1)
  }

  function LittleEndian(v: nat, k: nat): (b: Bytes)
    ensures |b| == k
  {
    if k == 0 then [] else [v % 256] + LittleEndian(v / 256, k - 1)
  }

  function FromLittleEndian(b: Bytes): (v: nat)
    ensures v < Pow256(|b|)
  {
    if b == [] then 0 else b[0] + 256 * FromLittleEndian(b[1..])
  }

  lemma {:induction false} FromLittleEndianInverts(v: nat, k: nat)
    requires v < Pow256(k)
    ensures FromLittleEndian(LittleEndian(v, k)) == v
  {
    if k > 0 {
      FromLittleEndianInverts(v / 256, k - 1);
      assert LittleEndian(v, k)[1..] == LittleEndian(v / 256, k - 1);
    }
  }

  lemma {:induction false} LittleEndianInverts(b: Bytes)
    ensures LittleEndian(FromLittleEndian(b), |b|) == b
  {
    if b != [] {
      var v := FromLittleEndian(b[1..]);
      LittleEndianInverts(b[1..]);
      assert (b[0] + 256 * v) / 256 == v && (b[0] + 256 * v) % 256 == b[0];
    }
  }

  lemma Pow256Is64Bits()
    ensures Pow256(4) == 0x1_0000_0000
    ensures Pow256(8) == 0x1_0000_0000_0000_0000
  {
    assert Pow256(4) == 0x1_0000_0000;
  }

  function Fixed64(v: U64): (b: Bytes)
    ensures |b| == 8
  {
    LittleEndian(v, 8)
  }

  function ConsumeFixed64(b: Bytes): (r: Reading<U64>)
    ensures r.Got? ==> r.n == 8 <= |b|
  {
    Pow256Is64Bits();
    if |b| < 8 then Bad(Truncated) else Got(FromLittleEndian(b[..8]), 8)
  }

  function ConsumeFixed32(b: Bytes): (r: Reading<nat>)
    ensures r.Got? ==> r.n == 4 <= |b|
  {
    if |b| < 4 then Bad(Truncated) else Got(FromLittleEndian(b[..4]), 4)
  }

  lemma ConsumeFixed64Inverts(v: U64, rest: Bytes)
    ensures ConsumeFixed64(Fixed64(v) + rest) == Got(v, 8)
  {
    Pow256Is64Bits();
    FromLittleEndianInverts(v, 8);
    assert (Fixed64(v) + rest)[..8] == Fixed64(v);
  }

  lemma Fixed64Inverts(b: Bytes)
    requires |b| == 8
    ensures ConsumeFixed64(b).Got? && Fixed64(ConsumeFixed64(b).val) == b
  {
    Pow256Is64Bits();
    LittleEndianInverts(b);
    assert b[..8] == b;
  }

  // ---------- Length-delimited records ----------

  function Delimited(s: Bytes): (b: Bytes)
    ensures b != []
  {
    Varint(|s|) + s
  }

  function ConsumeBytes(b: Bytes): (r: Reading<Bytes>)
    ensures r.Got? ==> 0 < r.n <= |b| && |r.val| < |b|
  {
    match ConsumeVarint(b)
    case Bad(e) => Bad(e)
    case Got(len, n) =>
      if len > |b| - n then Bad(Truncated) else Got(b[n..n + len], n + len)
  }

  /** Slices longer than 2^64 bytes do not exist; the length prefix has to fit its varint. */
  lemma ConsumeBytesInverts(s: Bytes, rest: Bytes)
    requires |s| < 0x1_0000_0000_0000_0000
    ensures ConsumeBytes(Delimited(s) + rest) == Got(s, |Delimited(s)|)
  {
    ConsumeVarintInverts(|s|, s + rest);
    assert Delimited(s) + rest == Varint(|s|) + (s + rest);
  }

  // ---------- Field keys ----------

  datatype Key = Key(num: nat, typ: nat)

  function Tag(num: nat, typ: nat): (b: Bytes)
    ensures b != []
  {
    Varint(num * 8 + typ)
  }

  function ConsumeTag(b: Bytes): (r: Reading<Key>)
    ensures r.Got? ==> 0 < r.n <= |b| && 1 <= r.val.num <= MAX_FIELD_NUMBER && r.val.typ < 8
  {
    match ConsumeVarint(b)
    case Bad(e) => Bad(e)
    case Got(v, n) =>
      if v / 8 > MAX_FIELD_NUMBER || v / 8 < 1 then Bad(FieldNumber) else Got(Key(v / 8, v % 8), n)
  }

  lemma ConsumeTagInverts(num: nat, typ: nat, rest: Bytes)
    requires 1 <= num <= MAX_FIELD_NUMBER && typ < 8
    ensures ConsumeTag(Tag(num, typ) + rest) == Got(Key(num, typ), |Tag(num, typ)|)
  {
    ConsumeVarintInverts(num * 8 + typ, rest);
  }

  // ---------- Whole fields ----------

  datatype Payload =
    | PVarint(v: U64)
    | PFixed64(bits: U64)
    | PBytes(bs: Bytes)
    | PGroup
    | PFixed32(word: nat)
  {
    function Type(): (t: nat)
      ensures t < 8
    {
      match this
      case PVarint(_) => VARINT
      case PFixed64(_) => FIXED64
      case PBytes(_) => BYTES
      case PGroup => START_GROUP
      case PFixed32(_) => FIXED32
    }
  }

  datatype Field = Field(num: nat, payload: Payload)

  /** Reads the value that follows a key, when it is not a group. */
  function ConsumePlain(typ: nat, b: Bytes): (r: Reading<Payload>)
    ensures r.Got? ==> r.n <= |b| && r.val.Type() == typ
    ensures r.Got? && r.val.PBytes? ==> |r.val.bs| < |b|
  {
    if typ == VARINT then
      var r := ConsumeVarint(b);
      if r.Bad? then Bad(r.err) else Got(PVarint(r.val), r.n)
    else if typ == FIXED64 then
      var r := ConsumeFixed64(b);
      if r.Bad? then Bad(r.err) else Got(PFixed64(r.val), r.n)
    else if typ == BYTES then
      var r := ConsumeBytes(b);
      if r.Bad? then Bad(r.err) else Got(PBytes(r.val), r.n)
    else if typ == FIXED32 then
      var r := ConsumeFixed32(b);
      if r.Bad? then Bad(r.err) else Got(PFixed32(r.val), r.n)
    else if typ == END_GROUP then Bad(EndGroup)
    else Bad(Reserved)
  }

  /** Reads the value that follows a key.  A group is skipped, field by field, to its matching end key. */
  function ConsumeValue(key: Key, b: Bytes, depth: int): (r: Reading<Payload>)
    ensures r.Got? ==> r.n <= |b| && r.val.Type() == key.typ
    ensures r.Got? && r.val.PBytes? ==> |r.val.bs| < |b|
    decreases |b|, 2
  {
    if key.typ != START_GROUP then ConsumePlain(key.typ, b)
    else if depth < 0 then Bad(RecursionDepth)
    else
      match SkipGroup(key.num, b, depth)
      case Bad(e) => Bad(e)
      case Got(_, n) => Got(PGroup, n)
  }

  /** Skips the fields of a group up to and including the end key that carries the group's number. */
  function SkipGroup(num: nat, b: Bytes, depth: int): (r: Reading<()>)
    ensures r.Got? ==> r.n <= |b|
    decreases |b|, 1
  {
    match ConsumeTag(b)
    case Bad(e) => Bad(e)
    case Got(key, n) =>
      if key.typ == END_GROUP then (if key.num == num then Got((), n) else Bad(EndGroup))
      else
        match NextAt(b, depth - 1)
        case Bad(e) => Bad(e)
        case Got(_, k) =>
          match SkipGroup(num, b[k..], depth)
          case Bad(e) => Bad(e)
          case Got(_, rest) => Got((), k + rest)
  }

  /** One whole field, its key and its value, with `depth` levels of groups still allowed. */
  function NextAt(b: Bytes, depth: int): (r: Reading<Field>)
    ensures r.Got? ==> 0 < r.n <= |b| && 1 <= r.val.num <= MAX_FIELD_NUMBER
    ensures r.Got? && r.val.payload.PBytes? ==> |r.val.payload.bs| < |b|
    decreases |b|, 0
  {
    match ConsumeTag(b)
    case Bad(e) => Bad(e)
    case Got(key, n) =>
      match ConsumeValue(key, b[n..], depth)
      case Bad(e) => Bad(e)
      case Got(p, k) => Got(Field(key.num, p), n + k)
  }

  function Next(b: Bytes): (r: Reading<Field>)
    ensures r.Got? ==> 0 < r.n <= |b| && 1 <= r.val.num <= MAX_FIELD_NUMBER
    ensures r.Got? && r.val.payload.PBytes? ==> |r.val.payload.bs| < |b|
  {
    NextAt(b, RECURSION_LIMIT)
  }

  // ---------- Reading never looks past what it takes ----------

  lemma ConsumeTagStable(a: Bytes, b: Bytes)
    requires ConsumeTag(a).Got?
    ensures ConsumeTag(a + b) == ConsumeTag(a)
  {
    ReadVarintStable(a, b, 10);
  }

  lemma ConsumePlainStable(typ: nat, a: Bytes, b: Bytes)
    requires ConsumePlain(typ, a).Got?
    ensures ConsumePlain(typ, a + b) == ConsumePlain(typ, a)
  {
    if typ == FIXED64 {
      assert (a + b)[..8] == a[..8];
    } else if typ == FIXED32 {
      assert (a + b)[..4] == a[..4];
    } else {
      ReadVarintStable(a, b, 10);
      var r := ConsumeVarint(a);
      if typ == BYTES {
        assert (a + b)[r.n..r.n + r.val] == a[r.n..r.n + r.val];
      }
    }
  }

  lemma {:induction false} ConsumeValueStable(key: Key, a: Bytes, b: Bytes, depth: int)
    requires ConsumeValue(key, a, depth).Got?
    ensures ConsumeValue(key, a + b, depth) == ConsumeValue(key, a, depth)
    decreases |a|, 2
  {
    if key.typ == START_GROUP {
      SkipGroupStable(key.num, a, b, depth);
    } else {
      ConsumePlainStable(key.typ, a, b);
    }
  }

  lemma {:induction false} SkipGroupStable(num: nat, a: Bytes, b: Bytes, depth: int)
    requires SkipGroup(num, a, depth).Got?
    ensures SkipGroup(num, a + b, depth) == SkipGroup(num, a, depth)
    decreases |a|, 1
  {
    ConsumeTagStable(a, b);
    if ConsumeTag(a).val.typ != END_GROUP {
      NextAtStable(a, b, depth - 1);
      var k := NextAt(a, depth - 1).n;
      SkipGroupStable(num, a[k..], b, depth);
      DropConcat(a, b, k);
    }
  }

  lemma {:induction false} NextAtStable(a: Bytes, b: Bytes, depth: int)
    requires NextAt(a, depth).Got?
    ensures NextAt(a + b, depth) == NextAt(a, depth)
    decreases |a|, 0
  {
    ConsumeTagStable(a, b);
    var t := ConsumeTag(a);
    ConsumeValueStable(t.val, a[t.n..], b, depth);
    DropConcat(a, b, t.n);
  }

  /** Whatever follows a complete field, the field reads the same. */
  lemma NextStable(a: Bytes, b: Bytes)
    requires Next(a).Got?
    ensures Next(a + b) == Next(a)
  {
    NextAtStable(a, b, RECURSION_LIMIT);
  }

  lemma DropConcat(a: Bytes, b: Bytes, k: nat)
    requires k <= |a|
    ensures (a + b)[k..] == a[k..] + b
  {
  }
}
