/** Encoding, and why decoding undoes it for every message type. */
module RoundTrip {
  import opened Base
  import opened Wire
  import opened Schema
  import opened Decoding

  const LIMIT := 0x1_0000_0000_0000_0000

  // ---------- Encoding ----------

  /** The payloads an encoder emits for one slot.  Zero values are left out; nested messages are encoded in
      turn; a map emits its entries in an order of its own choosing. */
  ghost predicate SlotEncodes(kind: Kind, s: Slot, ps: seq<Payload>)
    requires TypedSlot(kind, s)
    decreases kind, 0
  {
    match kind
    case KString => ps == if s.s == [] then [] else [PBytes(s.s)]
    case KInt32 => ps == if s.v == 0 then [] else [PVarint(ToUint64(s.v))]
    case KInt64 => ps == if s.v == 0 then [] else [PVarint(ToUint64(s.v))]
    case KBool => ps == if s.on then [PVarint(1)] else []
    case KDouble => ps == if IsZero(s.bits) then [] else [PFixed64(s.bits)]
    case KPacked => ps == if s.ds == [] then [] else [PBytes(Pack(s.ds))]
    case KStrings => ps == seq(|s.ss|, i requires 0 <= i < |s.ss| => PBytes(s.ss[i]))
    case KMessages(sub) =>
      && |ps| == |s.ms|
      && forall i :: 0 <= i < |ps| ==> ps[i].PBytes? && Encodes(sub, s.ms[i], |sub|, ps[i].bs)
    case KMap => exists order :: Lists(order, s.m.Keys) && ps == EntryPayloads(s.m, order)
  }

  function EntryPayloads(m: map<Bytes, Bytes>, order: seq<Bytes>): (ps: seq<Payload>)
    requires forall k :: k in order ==> k in m
  {
    seq(|order|, i requires 0 <= i < |order| => PBytes(Entry(order[i], m[order[i]])))
  }

  /** `x != 0` is false of both zeros. */
  predicate IsZero(bits: U64) {
    bits == 0 || bits == NEGATIVE_ZERO
  }

  ghost predicate Lists(order: seq<Bytes>, keys: set<Bytes>) {
    && (forall i, j :: 0 <= i < j < |order| ==> order[i] != order[j])
    && (forall k :: k in order <==> k in keys)
  }

  function Records(num: nat, ps: seq<Payload>): Bytes {
    if ps == [] then [] else Records(num, ps[..|ps| - 1]) + FieldBytes(num, ps[|ps| - 1])
  }

  lemma RecordsAppend(num: nat, ps: seq<Payload>, p: Payload)
    ensures Records(num, ps + [p]) == Records(num, ps) + FieldBytes(num, p)
  {
    assert (ps + [p])[..|ps|] == ps;
  }

  ghost predicate FieldEncodes(spec: FieldSpec, s: Slot, b: Bytes)
    requires TypedSlot(spec.kind, s)
    decreases spec.kind, 1
  {
    exists ps :: SlotEncodes(spec.kind, s, ps) && b == Records(spec.num, ps)
  }

  /** b is an encoding of the first k fields; with k == |desc| it is an encoding of the message. */
  ghost predicate Encodes(desc: Desc, m: Message, k: nat, b: Bytes)
    requires Typed(desc, m) && k <= |desc|
    decreases desc, k
  {
    if k == 0 then b == []
    else
      exists p, q ::
        && b == p + q
        && Encodes(desc, m, k - 1, p)
        && (assert desc[k - 1].kind < desc[k - 1]; FieldEncodes(desc[k - 1], m[k - 1], q))
  }

  lemma Extend(desc: Desc, m: Message, k: nat, b: Bytes, ps: seq<Payload>, c: Bytes)
    requires Typed(desc, m) && k < |desc|
    requires Encodes(desc, m, k, b) && SlotEncodes(desc[k].kind, m[k], ps)
    requires c == b + Records(desc[k].num, ps)
    ensures Encodes(desc, m, k + 1, c)
  {
    assert FieldEncodes(desc[k], m[k], Records(desc[k].num, ps));
  }

  // ---------- What survives ----------

  /** A message with the sign of its zero doubles forgotten. */
  function Normal(desc: Desc, m: Message): (r: Message)
    requires Typed(desc, m)
    ensures Typed(desc, r)
    decreases desc
  {
    seq(|desc|, i requires 0 <= i < |desc| =>
      assert desc[i].kind < desc[i]; NormalSlot(desc[i].kind, m[i]))
  }

  function NormalSlot(kind: Kind, s: Slot): (r: Slot)
    requires TypedSlot(kind, s)
    ensures TypedSlot(kind, r)
    decreases kind
  {
    match kind
    case KDouble => if IsZero(s.bits) then SDouble(0) else s
    case KMessages(sub) =>
      SMessages(seq(|s.ms|, j requires 0 <= j < |s.ms| => Normal(sub, s.ms[j])))
    case _ => s
  }

  ghost predicate HasNegativeZero(desc: Desc, m: Message)
    requires Typed(desc, m)
    decreases desc
  {
    exists i :: 0 <= i < |desc| && (assert desc[i].kind < desc[i]; SlotHasNegativeZero(desc[i].kind, m[i]))
  }

  ghost predicate SlotHasNegativeZero(kind: Kind, s: Slot)
    requires TypedSlot(kind, s)
    decreases kind
  {
    match kind
    case KDouble => s.bits == NEGATIVE_ZERO
    case KMessages(sub) => exists j :: 0 <= j < |s.ms| && HasNegativeZero(sub, s.ms[j])
    case _ => false
  }

  lemma {:induction false} NormalChangesIff(desc: Desc, m: Message)
    requires Typed(desc, m)
    ensures Normal(desc, m) != m <==> HasNegativeZero(desc, m)
    decreases desc
  {
    forall i | 0 <= i < |desc|
      ensures NormalSlot(desc[i].kind, m[i]) != m[i] <==> SlotHasNegativeZero(desc[i].kind, m[i])
    {
      assert desc[i].kind < desc[i];
      NormalSlotChangesIff(desc[i].kind, m[i]);
    }
    if Normal(desc, m) != m {
      var i :| 0 <= i < |desc| && Normal(desc, m)[i] != m[i];
      assert SlotHasNegativeZero(desc[i].kind, m[i]);
    }
  }

  lemma {:induction false} NormalSlotChangesIff(kind: Kind, s: Slot)
    requires TypedSlot(kind, s)
    ensures NormalSlot(kind, s) != s <==> SlotHasNegativeZero(kind, s)
    decreases kind
  {
    if kind.KMessages? {
      var r := NormalSlot(kind, s);
      forall j | 0 <= j < |s.ms|
        ensures r.ms[j] != s.ms[j] <==> HasNegativeZero(kind.sub, s.ms[j])
      {
        NormalChangesIff(kind.sub, s.ms[j]);
      }
      if r.ms != s.ms {
        var j :| 0 <= j < |s.ms| && r.ms[j] != s.ms[j];
        assert HasNegativeZero(kind.sub, s.ms[j]);
      }
    }
  }

  // ---------- Decoding undoes encoding ----------

  ghost predicate Readable(kind: Kind, ps: seq<Payload>) {
    forall i :: 0 <= i < |ps| ==>
      Spelt(ps[i]) && ps[i].Type() == WireType(kind) && Refusal(kind, ps[i]).None?
  }

  lemma {:induction false} RunRecords(desc: Desc, i: nat, ps: seq<Payload>, m: Message)
    requires WellFormed(desc) && Typed(desc, m) && i < |desc|
    requires Readable(desc[i].kind, ps)
    ensures Run(desc, Records(desc[i].num, ps), m)
         == Outcome(m[i := AbsorbAll(desc[i].kind, m[i], ps)], None)
    decreases |ps|
  {
    hide Next, WireType, FieldBytes;
    var kind, num := desc[i].kind, desc[i].num;
    if ps == [] {
      assert m[i := m[i]] == m;
    } else {
      var init, p := ps[..|ps| - 1], ps[|ps| - 1];
      RunRecords(desc, i, init, m);
      var here := m[i := AbsorbAll(kind, m[i], init)];
      NextOnly(num, p);
      FindIs(desc, Field(num, p), i);
      RunOne(desc, FieldBytes(num, p), Field(num, p), here);
      Merge(desc, Records(num, init), FieldBytes(num, p), m);
      AbsorbAllLast(kind, m[i], ps);
      assert here[i := Absorb(kind, here[i], p)] == m[i := AbsorbAll(kind, m[i], ps)];
    }
  }

  lemma {:induction false} RecordsBound(num: nat, ps: seq<Payload>, i: nat)
    requires i < |ps| && ps[i].PBytes?
    ensures |ps[i].bs| < |Records(num, ps)|
  {
    if i < |ps| - 1 {
      RecordsBound(num, ps[..|ps| - 1], i);
    }
  }

  /** The first k slots of a message, in normal form; the others still zero. */
  function Upto(desc: Desc, m: Message, k: nat): (r: Message)
    requires Typed(desc, m) && k <= |desc|
    ensures Typed(desc, r)
  {
    seq(|desc|, i requires 0 <= i < |desc| =>
      if i < k then NormalSlot(desc[i].kind, m[i]) else Zero(desc[i].kind))
  }

  lemma RunsUpto(desc: Desc, m: Message, k: nat, p: Bytes, q: Bytes)
    requires Typed(desc, m) && 0 < k <= |desc|
    requires Run(desc, p, Fresh(desc)) == Outcome(Upto(desc, m, k - 1), None)
    requires Run(desc, q, Upto(desc, m, k - 1))
          == Outcome(Upto(desc, m, k - 1)[k - 1 := NormalSlot(desc[k - 1].kind, m[k - 1])], None)
    ensures Run(desc, p + q, Fresh(desc)) == Outcome(Upto(desc, m, k), None)
  {
    Merge(desc, p, q, Fresh(desc));
    assert Upto(desc, m, k) == Upto(desc, m, k - 1)[k - 1 := NormalSlot(desc[k - 1].kind, m[k - 1])];
  }

  lemma SplitLast(desc: Desc, m: Message, k: nat, b: Bytes) returns (p: Bytes, q: Bytes)
    requires Typed(desc, m) && 0 < k <= |desc| && Encodes(desc, m, k, b)
    ensures b == p + q && Encodes(desc, m, k - 1, p) && FieldEncodes(desc[k - 1], m[k - 1], q)
  {
    p, q :| b == p + q && Encodes(desc, m, k - 1, p) && FieldEncodes(desc[k - 1], m[k - 1], q);
  }

  lemma {:induction false} EncodesInverts(desc: Desc, m: Message, k: nat, b: Bytes)
    requires WellFormed(desc) && Typed(desc, m) && k <= |desc|
    requires Encodes(desc, m, k, b) && |b| < LIMIT
    ensures Run(desc, b, Fresh(desc)) == Outcome(Upto(desc, m, k), None)
    decreases desc, k, 1
  {
    if k == 0 {
      assert Upto(desc, m, 0) == Fresh(desc);
    } else {
      var p, q := SplitLast(desc, m, k, b);
      EncodesInverts(desc, m, k - 1, p);
      FieldInverts(desc, m, k - 1, q, Upto(desc, m, k - 1));
      RunsUpto(desc, m, k, p, q);
    }
  }

  lemma {:induction false} FieldInverts(desc: Desc, m: Message, i: nat, q: Bytes, here: Message)
    requires WellFormed(desc) && Typed(desc, m) && Typed(desc, here)
    requires i < |desc| && here[i] == Zero(desc[i].kind)
    requires FieldEncodes(desc[i], m[i], q) && |q| < LIMIT
    ensures Run(desc, q, here) == Outcome(here[i := NormalSlot(desc[i].kind, m[i])], None)
    decreases desc, i, 0
  {
    assert desc[i].kind < desc[i];
    var ps: seq<Payload> :| SlotEncodes(desc[i].kind, m[i], ps) && q == Records(desc[i].num, ps);
    forall j | 0 <= j < |ps| && ps[j].PBytes?
      ensures |ps[j].bs| < LIMIT
    {
      RecordsBound(desc[i].num, ps, j);
    }
    SlotInverts(desc[i].kind, m[i], ps);
    RunRecords(desc, i, ps, here);
  }

  ghost predicate InRange(ps: seq<Payload>) {
    forall i :: 0 <= i < |ps| && ps[i].PBytes? ==> |ps[i].bs| < LIMIT
  }

  lemma {:induction false} SlotInverts(kind: Kind, s: Slot, ps: seq<Payload>)
    requires TypedSlot(kind, s) && SlotEncodes(kind, s, ps) && InRange(ps)
    requires kind.KMessages? ==> WellFormed(kind.sub)
    ensures Readable(kind, ps)
    ensures AbsorbAll(kind, Zero(kind), ps) == NormalSlot(kind, s)
    decreases kind
  {
    match kind
    case KStrings => StringsInvert(s.ss, ps);
    case KMap => MapInverts(s.m, ps);
    case KMessages(sub) => MessagesInvert(sub, s.ms, ps);
    case _ => ReplacedInverts(kind, s, ps);
  }

  lemma IntsInvert(v: int)
    requires -0x8000_0000_0000_0000 <= v < 0x8000_0000_0000_0000
    ensures ToInt64(ToUint64(v)) == v
    ensures -0x8000_0000 <= v < 0x8000_0000 ==> ToInt32(ToUint64(v)) == v
  {
  }

  lemma ReplacedInverts(kind: Kind, s: Slot, ps: seq<Payload>)
    requires Replaces(kind) && TypedSlot(kind, s) && SlotEncodes(kind, s, ps) && InRange(ps)
    ensures Readable(kind, ps)
    ensures AbsorbAll(kind, Zero(kind), ps) == NormalSlot(kind, s)
  {
    if ps == [] {
      assert AbsorbAll(kind, Zero(kind), ps) == Zero(kind);
    } else {
      LastOneWins(kind, Zero(kind), ps);
      AbsorbInverts(kind, s, ps);
    }
  }

  lemma AbsorbInverts(kind: Kind, s: Slot, ps: seq<Payload>)
    requires Replaces(kind) && TypedSlot(kind, s) && SlotEncodes(kind, s, ps) && ps != []
    ensures |ps| == 1 && ps[0].Type() == WireType(kind)
    ensures Absorb(kind, Zero(kind), ps[0]) == NormalSlot(kind, s)
  {
    match kind
    case KPacked => UnpackInverts(s.ds);
    case KInt32 => IntsInvert(s.v);
    case KInt64 => IntsInvert(s.v);
    case _ =>
  }

  lemma StringsInvert(ss: seq<Bytes>, ps: seq<Payload>)
    requires SlotEncodes(KStrings, SStrings(ss), ps) && InRange(ps)
    ensures Readable(KStrings, ps)
    ensures AbsorbAll(KStrings, Zero(KStrings), ps) == SStrings(ss)
  {
    StringsConcatenate(Zero(KStrings), ps);
    assert [] + seq(|ps|, i requires 0 <= i < |ps| => ps[i].bs) == ss;
  }

  lemma {:induction false} MessagesInvert(sub: Desc, ms: seq<Message>, ps: seq<Payload>)
    requires WellFormed(sub) && TypedSlot(KMessages(sub), SMessages(ms))
    requires SlotEncodes(KMessages(sub), SMessages(ms), ps) && InRange(ps)
    ensures Readable(KMessages(sub), ps)
    ensures AbsorbAll(KMessages(sub), SMessages([]), ps) == NormalSlot(KMessages(sub), SMessages(ms))
    decreases sub, |sub| + 1
  {
    forall i | 0 <= i < |ps|
      ensures Run(sub, ps[i].bs, Fresh(sub)) == Outcome(Normal(sub, ms[i]), None)
    {
      EncodesInverts(sub, ms[i], |sub|, ps[i].bs);
      assert Upto(sub, ms[i], |sub|) == Normal(sub, ms[i]);
    }
    MessagesAbsorb(sub, ms, ps);
  }

  lemma MessagesAbsorb(sub: Desc, ms: seq<Message>, ps: seq<Payload>)
    requires TypedSlot(KMessages(sub), SMessages(ms)) && |ps| == |ms| && InRange(ps)
    requires forall i :: 0 <= i < |ps| ==>
      ps[i].PBytes? && Run(sub, ps[i].bs, Fresh(sub)) == Outcome(Normal(sub, ms[i]), None)
    ensures Readable(KMessages(sub), ps)
    ensures AbsorbAll(KMessages(sub), SMessages([]), ps) == NormalSlot(KMessages(sub), SMessages(ms))
  {
    MessagesConcatenate(sub, SMessages([]), ps);
    assert [] + seq(|ps|, i requires 0 <= i < |ps| => Run(sub, ps[i].bs, Fresh(sub)).msg)
        == seq(|ms|, j requires 0 <= j < |ms| => Normal(sub, ms[j]));
  }

  ghost predicate Listed(m: map<Bytes, Bytes>, order: seq<Bytes>, ps: seq<Payload>) {
    && |ps| == |order|
    && forall i :: 0 <= i < |ps| ==>
      order[i] in m && ps[i].PBytes? && StringPair(ps[i].bs, [], []) == (order[i], m[order[i]])
  }

  lemma EntriesListed(m: map<Bytes, Bytes>, order: seq<Bytes>, ps: seq<Payload>)
    requires Lists(order, m.Keys) && InRange(ps)
    requires ps == EntryPayloads(m, order)
    ensures Listed(m, order, ps)
  {
    forall i | 0 <= i < |ps|
      ensures order[i] in m && ps[i].PBytes? && StringPair(ps[i].bs, [], []) == (order[i], m[order[i]])
    {
      var k, v := order[i], m[order[i]];
      assert ps[i] == PBytes(Entry(k, v));
      EntryFits(k, v);
      EntryInverts(k, v);
    }
  }

  lemma MapInverts(m: map<Bytes, Bytes>, ps: seq<Payload>)
    requires SlotEncodes(KMap, SMap(m), ps) && InRange(ps)
    ensures Readable(KMap, ps)
    ensures AbsorbAll(KMap, SMap(map[]), ps) == SMap(m)
  {
    var order :| Lists(order, m.Keys) && ps == EntryPayloads(m, order);
    EntriesListed(m, order, ps);
    BytesReadable(KMap, ps);
    ListedAbsorb(m, order, ps);
  }

  lemma BytesReadable(kind: Kind, ps: seq<Payload>)
    requires WireType(kind) == BYTES && !kind.KMessages? && InRange(ps)
    requires forall i :: 0 <= i < |ps| ==> ps[i].PBytes?
    ensures Readable(kind, ps)
  {
  }

  lemma ListedAbsorb(m: map<Bytes, Bytes>, order: seq<Bytes>, ps: seq<Payload>)
    requires Lists(order, m.Keys) && Listed(m, order, ps)
    ensures AbsorbAll(KMap, SMap(map[]), ps) == SMap(m)
  {
    var r := AbsorbAll(KMap, SMap(map[]), ps);
    forall k
      ensures k in r.m <==> k in m
      ensures k in m ==> r.m[k] == m[k]
    {
      LastEntryWins(SMap(map[]), ps, k);
      LastEntryListed(m, order, ps, k);
    }
    assert r.m == m;
  }

  lemma EntryFits(k: Bytes, v: Bytes)
    ensures |k| < |Entry(k, v)| && |v| < |Entry(k, v)|
  {
  }

  lemma {:induction false} LastEntryListed(m: map<Bytes, Bytes>, order: seq<Bytes>, ps: seq<Payload>, k: Bytes)
    requires Listed(m, order, ps)
    ensures LastEntry(ps, k) == if k in order && k in m then Some(m[k]) else None
    decreases |ps|
  {
    if ps != [] {
      var n := |ps| - 1;
      LastEntryListed(m, order[..n], ps[..n], k);
      assert k in order <==> k in order[..n] || k == order[n];
    }
  }

  /** Decoding an encoding into a fresh message gives the message back, up to the sign of zero doubles. */
  lemma DecodeEncode(desc: Desc, m: Message, b: Bytes)
    requires WellFormed(desc) && Typed(desc, m)
    requires Encodes(desc, m, |desc|, b) && |b| < LIMIT
    ensures Run(desc, b, Fresh(desc)) == Outcome(Normal(desc, m), None)
  {
    EncodesInverts(desc, m, |desc|, b);
    assert Upto(desc, m, |desc|) == Normal(desc, m);
  }

  /** It is the very same message exactly when no scalar double in it is negative zero. */
  lemma RoundTripsIff(desc: Desc, m: Message, b: Bytes)
    requires WellFormed(desc) && Typed(desc, m)
    requires Encodes(desc, m, |desc|, b) && |b| < LIMIT
    ensures Run(desc, b, Fresh(desc)) == Outcome(m, None) <==> !HasNegativeZero(desc, m)
  {
    DecodeEncode(desc, m, b);
    NormalChangesIff(desc, m);
  }

  /** Encodings are unambiguous: one byte string never encodes two messages that differ in more than signs
      of zero. */
  lemma EncodingsAreUnambiguous(desc: Desc, m: Message, m': Message, b: Bytes)
    requires WellFormed(desc) && Typed(desc, m) && Typed(desc, m') && |b| < LIMIT
    requires Encodes(desc, m, |desc|, b) && Encodes(desc, m', |desc|, b)
    ensures Normal(desc, m) == Normal(desc, m')
  {
    DecodeEncode(desc, m, b);
    DecodeEncode(desc, m', b);
  }
}
