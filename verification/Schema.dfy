/** What the hand-written message codecs mean.  A message type is a descriptor: field numbers with the kind
    of Go field behind each.  A message value has one slot per field.  Decoding folds the fields of a byte
    string into the slots; encoding is a relation, because a Go map is iterated in any order. */
module Schema {
  import opened Base
  import opened Wire

  datatype Kind =
    | KString
    | KInt32
    | KInt64
    | KBool
    | KDouble
    | KPacked
    | KStrings
    | KMessages(sub: seq<FieldSpec>)
    | KMap

  datatype FieldSpec = FieldSpec(num: nat, kind: Kind)

  type Desc = seq<FieldSpec>

  /** A float64 is its bit pattern. */
  datatype Slot =
    | SString(s: Bytes)
    | SInt(v: int)
    | SBool(on: bool)
    | SDouble(bits: U64)
    | SPacked(ds: seq<U64>)
    | SStrings(ss: seq<Bytes>)
    | SMessages(ms: seq<seq<Slot>>)
    | SMap(m: map<Bytes, Bytes>)

  type Message = seq<Slot>

  const NEGATIVE_ZERO: U64 := 0x8000_0000_0000_0000

  // ---------- Descriptors and the messages that fit them ----------

  ghost predicate WellFormed(desc: Desc)
    decreases desc
  {
    && (forall i :: 0 <= i < |desc| ==> 1 <= desc[i].num <= MAX_FIELD_NUMBER)
    && (forall i, j :: 0 <= i < j < |desc| ==> desc[i].num != desc[j].num)
    && (forall i :: 0 <= i < |desc| && desc[i].kind.KMessages? ==>
          assert desc[i].kind < desc[i]; WellFormed(desc[i].kind.sub))
  }

  ghost predicate Typed(desc: Desc, m: Message)
    decreases desc
  {
    |m| == |desc| && forall i :: 0 <= i < |desc| ==>
      assert desc[i].kind < desc[i]; TypedSlot(desc[i].kind, m[i])
  }

  ghost predicate TypedSlot(kind: Kind, s: Slot)
    decreases kind
  {
    match kind
    case KString => s.SString?
    case KInt32 => s.SInt? && -0x8000_0000 <= s.v < 0x8000_0000
    case KInt64 => s.SInt? && -0x8000_0000_0000_0000 <= s.v < 0x8000_0000_0000_0000
    case KBool => s.SBool?
    case KDouble => s.SDouble?
    case KPacked => s.SPacked?
    case KStrings => s.SStrings?
    case KMessages(sub) => s.SMessages? && forall j :: 0 <= j < |s.ms| ==> Typed(sub, s.ms[j])
    case KMap => s.SMap?
  }

  function WireType(kind: Kind): nat {
    match kind
    case KInt32 => VARINT
    case KInt64 => VARINT
    case KBool => VARINT
    case KDouble => FIXED64
    case _ => BYTES
  }

  /** Go's zero value. */
  function Zero(kind: Kind): (s: Slot)
    ensures TypedSlot(kind, s)
  {
    match kind
    case KString => SString([])
    case KInt32 => SInt(0)
    case KInt64 => SInt(0)
    case KBool => SBool(false)
    case KDouble => SDouble(0)
    case KPacked => SPacked([])
    case KStrings => SStrings([])
    case KMessages(_) => SMessages([])
    case KMap => SMap(map[])
  }

  function Fresh(desc: Desc): (m: Message)
    ensures Typed(desc, m)
  {
    seq(|desc|, i requires 0 <= i < |desc| => Zero(desc[i].kind))
  }

  // ---------- Go's integer conversions ----------

  /** int32(v): the low 32 bits, as a two's complement number. */
  function ToInt32(v: U64): int { Wrap(v, 0x8000_0000) }

  /** int64(v) */
  function ToInt64(v: U64): int { Wrap(v, 0x8000_0000_0000_0000) }

  /** uint64(v) of a signed number: negative numbers are sign-extended to 64 bits. */
  function ToUint64(v: int): U64
    requires -0x8000_0000_0000_0000 <= v < 0x8000_0000_0000_0000
  {
    if v < 0 then v + 0x1_0000_0000_0000_0000 else v
  }

  // ---------- Packed doubles ----------

  function Pack(ds: seq<U64>): (b: Bytes)
    ensures |b| == 8 * |ds|
  {
    if ds == [] then [] else Pack(ds[..|ds| - 1]) + Fixed64(ds[|ds| - 1])
  }

  /** Whole groups of eight bytes; a shorter tail is dropped. */
  function Unpack(b: Bytes): (ds: seq<U64>)
    ensures |ds| == |b| / 8
  {
    if |b| < 8 then [] else [ConsumeFixed64(b).val] + Unpack(b[8..])
  }

  lemma {:induction false} UnpackAppend(b: Bytes, d: U64)
    requires |b| % 8 == 0
    ensures Unpack(b + Fixed64(d)) == Unpack(b) + [d]
  {
    ConsumeFixed64Inverts(d, []);
    assert Fixed64(d) + [] == Fixed64(d);
    if |b| < 8 {
      assert b + Fixed64(d) == Fixed64(d);
      assert Unpack(Fixed64(d)[8..]) == [];
    } else {
      UnpackAppend(b[8..], d);
      assert (b + Fixed64(d))[8..] == b[8..] + Fixed64(d);
      assert (b + Fixed64(d))[..8] == b[..8];
    }
  }

  lemma {:induction false} UnpackInverts(ds: seq<U64>)
    ensures Unpack(Pack(ds)) == ds
  {
    if ds != [] {
      UnpackInverts(ds[..|ds| - 1]);
      UnpackAppend(Pack(ds[..|ds| - 1]), ds[|ds| - 1]);
    }
  }

  lemma {:induction false} UnpackDropsTail(b: Bytes, tail: Bytes)
    requires |b| % 8 == 0 && |tail| < 8
    ensures Unpack(b + tail) == Unpack(b)
  {
    if b == [] {
      assert b + tail == tail;
    } else {
      UnpackDropsTail(b[8..], tail);
      assert (b + tail)[8..] == b[8..] + tail && (b + tail)[..8] == b[..8];
    }
  }

  lemma {:induction false} PackInvertsWhole(b: Bytes)
    requires |b| % 8 == 0
    ensures Pack(Unpack(b)) == b
  {
    hide ConsumeFixed64, Fixed64, Unpack;
    if b != [] {
      var n := |b| - 8;
      var init, last := b[..n], b[n..];
      Fixed64Inverts(last);
      var d := ConsumeFixed64(last).val;
      PackInvertsWhole(init);
      assert b == init + Fixed64(d);
      UnpackAppend(init, d);
      assert (Unpack(init) + [d])[..|Unpack(init)|] == Unpack(init);
    }
  }

  /** Packing what was unpacked gives back the bytes, up to a tail shorter than a double. */
  lemma PackInverts(whole: Bytes, tail: Bytes)
    requires |whole| % 8 == 0 && |tail| < 8
    ensures Pack(Unpack(whole + tail)) == whole
  {
    hide Pack, Unpack;
    UnpackDropsTail(whole, tail);
    PackInvertsWhole(whole);
  }

  // ---------- Map entries ----------

  /** Folds an entry into a key and a value.  Whatever cannot be read ends the entry without an error. */
  function StringPair(b: Bytes, k: Bytes, v: Bytes): (Bytes, Bytes)
    decreases |b|
  {
    match Next(b)
    case Bad(_) => (k, v)
    case Got(f, n) =>
      if f.payload.PBytes? && f.num == 1 then StringPair(b[n..], f.payload.bs, v)
      else if f.payload.PBytes? && f.num == 2 then StringPair(b[n..], k, f.payload.bs)
      else StringPair(b[n..], k, v)
  }

  function Entry(k: Bytes, v: Bytes): Bytes {
    FieldBytes(1, PBytes(k)) + FieldBytes(2, PBytes(v))
  }

  // ---------- Spelling one field ----------

  /** Only the three wire types the encoders emit are spelt. */
  function PayloadBytes(p: Payload): Bytes {
    match p
    case PVarint(v) => Varint(v)
    case PFixed64(bits) => Fixed64(bits)
    case PBytes(bs) => Delimited(bs)
    case _ => []
  }

  function FieldBytes(num: nat, p: Payload): (b: Bytes)
    ensures p.PBytes? ==> |p.bs| < |b|
  {
    Tag(num, p.Type()) + PayloadBytes(p)
  }

  predicate Spelt(p: Payload) {
    p.PVarint? || p.PFixed64? || (p.PBytes? && |p.bs| < 0x1_0000_0000_0000_0000)
  }

  lemma ConsumePlainInverts(p: Payload, rest: Bytes)
    requires Spelt(p)
    ensures ConsumePlain(p.Type(), PayloadBytes(p) + rest) == Got(p, |PayloadBytes(p)|)
  {
    match p
    case PVarint(v) => ConsumeVarintInverts(v, rest);
    case PFixed64(bits) => ConsumeFixed64Inverts(bits, rest);
    case PBytes(bs) => ConsumeBytesInverts(bs, rest);
  }

  lemma NextInverts(num: nat, p: Payload, rest: Bytes)
    requires 1 <= num <= MAX_FIELD_NUMBER && Spelt(p)
    ensures Next(FieldBytes(num, p) + rest) == Got(Field(num, p), |FieldBytes(num, p)|)
  {
    var t, body := Tag(num, p.Type()), PayloadBytes(p) + rest;
    ConsumeTagInverts(num, p.Type(), body);
    ConsumePlainInverts(p, rest);
    assert FieldBytes(num, p) + rest == t + body;
    assert (t + body)[|t|..] == body;
    assert ConsumeValue(Key(num, p.Type()), body, RECURSION_LIMIT) == Got(p, |PayloadBytes(p)|);
    assert NextAt(t + body, RECURSION_LIMIT) == Got(Field(num, p), |t| + |PayloadBytes(p)|);
  }

  lemma NextOnly(num: nat, p: Payload)
    requires 1 <= num <= MAX_FIELD_NUMBER && Spelt(p)
    ensures Next(FieldBytes(num, p)) == Got(Field(num, p), |FieldBytes(num, p)|)
  {
    NextInverts(num, p, []);
    assert FieldBytes(num, p) + [] == FieldBytes(num, p);
  }

  lemma EntryInverts(k: Bytes, v: Bytes)
    requires |k| < 0x1_0000_0000_0000_0000 && |v| < 0x1_0000_0000_0000_0000
    ensures StringPair(Entry(k, v), [], []) == (k, v)
  {
    var x, y := FieldBytes(1, PBytes(k)), FieldBytes(2, PBytes(v));
    NextInverts(1, PBytes(k), y);
    NextOnly(2, PBytes(v));
    assert Entry(k, v)[|x|..] == y && y[|y|..] == [];
    assert StringPair([], k, v) == (k, v);
    assert StringPair(y, k, []) == (k, v);
  }

  // ---------- Decoding ----------

  datatype Outcome = Outcome(msg: Message, err: Option<Error>)

  /** The slot that a field goes to: the one with its number, if the wire type is the expected one. */
  function Find(desc: Desc, f: Field): (r: Option<nat>)
    ensures r.Some? ==> r.value < |desc| && Matches(desc[r.value], f)
    ensures r.None? ==> forall i :: 0 <= i < |desc| ==> !Matches(desc[i], f)
  {
    if desc == [] then None
    else if Matches(desc[|desc| - 1], f) then Some(|desc| - 1)
    else Find(desc[..|desc| - 1], f)
  }

  predicate Matches(spec: FieldSpec, f: Field) {
    f.num == spec.num && f.payload.Type() == WireType(spec.kind)
  }

  lemma FindIs(desc: Desc, f: Field, i: nat)
    requires WellFormed(desc) && i < |desc| && Matches(desc[i], f)
    ensures Find(desc, f) == Some(i)
  {
  }

  /** What one field does to its slot. */
  function Absorb(kind: Kind, s: Slot, p: Payload): (r: Slot)
    requires TypedSlot(kind, s) && p.Type() == WireType(kind)
    ensures TypedSlot(kind, r)
    decreases kind, 0
  {
    match kind
    case KString => SString(p.bs)
    case KInt32 => SInt(ToInt32(p.v))
    case KInt64 => SInt(ToInt64(p.v))
    case KBool => SBool(p.v != 0)
    case KDouble => SDouble(p.bits)
    case KPacked => SPacked(Unpack(p.bs))
    case KStrings => SStrings(s.ss + [p.bs])
    case KMessages(sub) => SMessages(s.ms + [Run(sub, p.bs, Fresh(sub)).msg])
    case KMap =>
      var (k, v) := StringPair(p.bs, [], []);
      SMap(s.m[k := v])
  }

  /** Only a nested message can refuse the payload that was read for it. */
  function Refusal(kind: Kind, p: Payload): Option<Error>
    requires p.Type() == WireType(kind)
    decreases kind, 0
  {
    if kind.KMessages? then Run(kind.sub, p.bs, Fresh(kind.sub)).err else None
  }

  function Update(desc: Desc, m: Message, f: Field): (r: Message)
    requires Typed(desc, m)
    ensures Typed(desc, r)
    decreases desc, 0
  {
    match Find(desc, f)
    case None => m
    case Some(i) =>
      assert desc[i].kind < desc[i];
      m[i := Absorb(desc[i].kind, m[i], f.payload)]
  }

  function Check(desc: Desc, f: Field): Option<Error>
    decreases desc, 0
  {
    match Find(desc, f)
    case None => None
    case Some(i) =>
      assert desc[i].kind < desc[i];
      Refusal(desc[i].kind, f.payload)
  }

  /** The decode loop: it stops at the first error and keeps what it had decoded until then. */
  function Run(desc: Desc, b: Bytes, m: Message): (r: Outcome)
    requires Typed(desc, m)
    ensures Typed(desc, r.msg)
    decreases desc, 1, |b|
  {
    if b == [] then Outcome(m, None)
    else
      match Next(b)
      case Bad(e) => Outcome(m, Some(e))
      case Got(f, n) =>
        match Check(desc, f)
        case Some(e) => Outcome(m, Some(e))
        case None => Run(desc, b[n..], Update(desc, m, f))
  }
}
