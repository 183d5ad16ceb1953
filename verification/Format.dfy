/** The bytes themselves.  What the codecs write and read is described here by numbers, as the encoding
    specification does: digits to the base 128 and 256, and keys that are eight times the field number plus 0, 1 or
    2.  The rest of the model is proved to agree. */
module Format {
  import opened Base
  import opened Wire
  import opened Schema
  import opened Decoding
  import opened RoundTrip

  // ---------- Numbers ----------

  /** The low seven bits of every byte, lowest digit first. */
  function Base128(b: Bytes): nat {
    if b == [] then 0 else b[0] % 128 + 128 * Base128(b[1..])
  }

  function Base256(b: Bytes): nat {
    if b == [] then 0 else b[0] + 256 * Base256(b[1..])
  }

  /** Every byte but the last has its top bit set. */
  predicate Continued(b: Bytes) {
    b != [] && b[|b| - 1] < 128 && forall i :: 0 <= i < |b| - 1 ==> b[i] >= 128
  }

  /** b spells v to the base 128, without leading zeros. */
  predicate Number(b: Bytes, v: nat) {
    Continued(b) && (|b| > 1 ==> b[|b| - 1] != 0) && Base128(b) == v
  }

  lemma {:induction false} VarintSpells(v: nat)
    ensures Number(Varint(v), v)
    decreases v
  {
    var b := Varint(v);
    if v < 128 {
      assert b[1..] == [];
    } else {
      VarintSpells(v / 128);
      assert b[1..] == Varint(v / 128);
      assert forall i :: 1 <= i < |b| ==> b[i] == b[1..][i - 1];
    }
  }

  lemma {:induction false} NumberIsVarint(b: Bytes, v: nat)
    requires Number(b, v)
    ensures b == Varint(v)
    decreases v
  {
    if |b| == 1 {
      assert b[1..] == [];
    } else {
      var rest := b[1..];
      assert forall i :: 0 <= i < |rest| ==> rest[i] == b[i + 1];
      DigitsArePositive(rest);
      NumberIsVarint(rest, v / 128);
      assert b == [b[0]] + rest;
    }
  }

  /** A number without leading zeros is not zero. */
  lemma {:induction false} DigitsArePositive(b: Bytes)
    requires Continued(b) && b[|b| - 1] != 0
    ensures Base128(b) > 0
  {
    if |b| > 1 {
      DigitsArePositive(b[1..]);
    }
  }

  lemma {:induction false} Base256IsLittleEndian(b: Bytes)
    ensures Base256(b) == FromLittleEndian(b)
  {
    if b != [] {
      Base256IsLittleEndian(b[1..]);
    }
  }

  lemma Fixed64Spells(e: Bytes, v: U64)
    ensures |e| == 8 && Base256(e) == v <==> e == Fixed64(v)
  {
    Pow256Is64Bits();
    if |e| == 8 {
      Base256IsLittleEndian(e);
      LittleEndianInverts(e);
    }
    FromLittleEndianInverts(v, 8);
    Base256IsLittleEndian(Fixed64(v));
  }

  function Power(base: nat, n: nat): nat {
    if n == 0 then 1 else base * Power(base, n - 1)
  }

  /** Byte i of a fixed-width value is its i-th digit to the base 256. */
  lemma {:induction false} LittleEndianDigit(v: nat, k: nat, i: nat)
    requires i < k
    ensures Power(256, i) > 0 && LittleEndian(v, k)[i] == v / Power(256, i) % 256
  {
    if i > 0 {
      LittleEndianDigit(v / 256, k - 1, i - 1);
      DivTwice(v, Power(256, i - 1));
    }
  }

  lemma DivTwice(v: nat, p: nat)
    requires p > 0
    ensures v / 256 / p == v / (256 * p)
  {
    var q, r := v / 256 / p, v / 256 % p;
    var s := v % 256;
    assert v == 256 * (p * q + r) + s;
    assert v == (256 * p) * q + (256 * r + s);
    assert 0 <= 256 * r + s < 256 * p;
    Quotient(v, 256 * p, q, 256 * r + s);
  }

  lemma {:induction false} Multiples(d: nat, k: nat)
    requires k > 0
    ensures d * k >= d
  {
    if k > 1 {
      Multiples(d, k - 1);
      assert d * k == d * (k - 1) + d;
    }
  }

  lemma Quotient(v: nat, d: nat, q: nat, r: nat)
    requires d > 0 && r < d && v == d * q + r
    ensures v / d == q
  {
    var k, l := v / d - q, q - v / d;
    assert v == d * (v / d) + v % d;
    assert d * k == d * (v / d) - d * q && d * l == d * q - d * (v / d);
    if k > 0 {
      Multiples(d, k);
    }
  }

  // ---------- Reading numbers ----------

  /** A varint is read exactly when one of the first ten bytes has its top bit clear; the tenth may only hold 0 or 1.
      Its value is the number the bytes up to there spell, leading zeros allowed. */
  lemma {:induction false} ReadsNumber(b: Bytes, left: nat, n: nat)
    requires 1 <= left <= 10 && 1 <= n <= |b| && Continued(b[..n])
    ensures ReadVarint(b, left)
         == if n < left || (n == left && b[n - 1] < 2) then Got(Base128(b[..n]), n) else Bad(Overflow)
  {
    if n > 1 && left > 1 {
      assert b[..n][0] == b[0] && b[0] >= 128;
      assert b[1..][..n - 1] == b[..n][1..];
      assert b[1..][n - 2] == b[n - 1];
      ReadsNumber(b[1..], left - 1, n - 1);
    } else {
      assert b[..n][0] == b[0];
      assert b[..n][1..] == b[1..n];
    }
  }

  lemma {:induction false} ReadsNoNumber(b: Bytes, left: nat)
    requires 1 <= left <= 10 && forall i :: 0 <= i < |b| ==> b[i] >= 128
    ensures ReadVarint(b, left) == Bad(if |b| < left then Truncated else Overflow)
  {
    if b != [] && left > 1 {
      ReadsNoNumber(b[1..], left - 1);
    }
  }

  // ---------- Records ----------

  /** A key and a number. */
  ghost predicate IntRecord(num: nat, v: nat, p: Bytes) {
    exists k, d :: Number(k, 8 * num) && Number(d, v) && p == k + d
  }

  /** A key and eight bytes, lowest first. */
  ghost predicate DoubleRecord(num: nat, bits: U64, p: Bytes) {
    exists k, e :: Number(k, 8 * num + 1) && |e| == 8 && Base256(e) == bits && p == k + e
  }

  /** A key, a length and that many bytes. */
  ghost predicate BytesRecord(num: nat, s: Bytes, p: Bytes) {
    exists k, l :: Number(k, 8 * num + 2) && Number(l, |s|) && p == k + l + s
  }

  lemma IntRecordIs(num: nat, v: U64, p: Bytes)
    ensures IntRecord(num, v, p) <==> p == FieldBytes(num, PVarint(v))
  {
    VarintSpells(8 * num);
    VarintSpells(v);
    if IntRecord(num, v, p) {
      var k, d :| Number(k, 8 * num) && Number(d, v) && p == k + d;
      NumberIsVarint(k, 8 * num);
      NumberIsVarint(d, v);
    }
  }

  lemma DoubleRecordIs(num: nat, bits: U64, p: Bytes)
    ensures DoubleRecord(num, bits, p) <==> p == FieldBytes(num, PFixed64(bits))
  {
    VarintSpells(8 * num + 1);
    Fixed64Spells(Fixed64(bits), bits);
    if DoubleRecord(num, bits, p) {
      var k, e :| Number(k, 8 * num + 1) && |e| == 8 && Base256(e) == bits && p == k + e;
      NumberIsVarint(k, 8 * num + 1);
      Fixed64Spells(e, bits);
    }
  }

  lemma BytesRecordIs(num: nat, s: Bytes, p: Bytes)
    ensures BytesRecord(num, s, p) <==> p == FieldBytes(num, PBytes(s))
  {
    var k, l := Varint(8 * num + 2), Varint(|s|);
    VarintSpells(8 * num + 2);
    VarintSpells(|s|);
    assert k + l + s == k + (l + s);
    if BytesRecord(num, s, p) {
      var k', l' :| Number(k', 8 * num + 2) && Number(l', |s|) && p == k' + l' + s;
      NumberIsVarint(k', 8 * num + 2);
      NumberIsVarint(l', |s|);
    }
  }

  /** Small field numbers, lengths and values take one byte each. */
  lemma SmallRecords(num: nat, s: Bytes, v: nat, bits: U64)
    requires 1 <= num <= 15 && |s| < 128 && v < 128
    ensures FieldBytes(num, PBytes(s)) == [8 * num + 2, |s|] + s
    ensures FieldBytes(num, PVarint(v)) == [8 * num, v]
    ensures FieldBytes(num, PFixed64(bits)) == [8 * num + 1] + Fixed64(bits)
    ensures forall i: nat :: i < 8 ==> Power(256, i) > 0 && Fixed64(bits)[i] == bits / Power(256, i) % 256
  {
    assert Varint(8 * num + 2) == [8 * num + 2] && Varint(8 * num) == [8 * num] && Varint(8 * num + 1) == [8 * num + 1];
    assert Varint(|s|) == [|s|] && Varint(v) == [v];
    assert [8 * num + 2] + ([|s|] + s) == [8 * num + 2, |s|] + s;
    forall i: nat | i < 8
      ensures Power(256, i) > 0 && Fixed64(bits)[i] == bits / Power(256, i) % 256
    {
      LittleEndianDigit(bits, 8, i);
    }
  }

  // ---------- Skipping ----------

  /** How the value behind a one-byte key is read or skipped, by the number of its wire type. */
  lemma SkipsByNumber(num: nat, typ: nat, b: Bytes)
    requires 1 <= num <= 15 && typ < 8
    ensures var r := Next([8 * num + typ] + b);
            && (typ == 1 && |b| < 8 ==> r == Bad(Truncated))
            && (typ == 1 && |b| >= 8 ==>
                  && r.Got? && r.n == 9 && r.val.num == num
                  && r.val.payload.PFixed64? && r.val.payload.bits == Base256(b[..8]))
            && (typ == 4 ==> r == Bad(EndGroup))
            && (typ == 5 && |b| < 4 ==> r == Bad(Truncated))
            && (typ == 5 && |b| >= 4 ==> r.Got? && r.n == 5 && r.val.num == num && r.val.payload.PFixed32?)
            && (typ >= 6 ==> r == Bad(Reserved))
  {
    hide ConsumeTag;
    SmallKey(num, typ, b);
    if typ == 1 && |b| >= 8 {
      Base256IsLittleEndian(b[..8]);
    }
    if typ != 3 {
      assert ConsumeValue(Key(num, typ), b, RECURSION_LIMIT) == ConsumePlain(typ, b);
    }
  }

  lemma SmallKey(num: nat, typ: nat, b: Bytes)
    requires 1 <= num <= 15 && typ < 8
    ensures ConsumeTag([8 * num + typ] + b) == Got(Key(num, typ), 1) && ([8 * num + typ] + b)[1..] == b
  {
    assert ConsumeVarint([8 * num + typ] + b) == Got(8 * num + typ, 1);
  }

  /** A group ends at the key of type 4 with its own number and is refused at any other. */
  lemma GroupEnds(num: nat, end: nat, b: Bytes, depth: int)
    requires 1 <= num <= 15 && 1 <= end <= 15 && depth >= 0
    ensures ConsumeValue(Key(num, 3), [8 * end + 4] + b, depth) == if end == num then Got(PGroup, 1) else Bad(EndGroup)
  {
    SmallKey(end, 4, b);
  }

  /** Before that, one complete field after the other is passed over. */
  lemma GroupPasses(num: nat, x: Bytes, b: Bytes, depth: int)
    requires depth >= 0 && NextAt(x, depth - 1).Got? && NextAt(x, depth - 1).n == |x|
    requires ConsumeTag(x).val.typ != 4
    ensures var r := ConsumeValue(Key(num, 3), b, depth);
            ConsumeValue(Key(num, 3), x + b, depth) == if r.Bad? then r else Got(PGroup, |x| + r.n)
  {
    NextAtStable(x, b, depth - 1);
    ConsumeTagStable(x, b);
    assert (x + b)[|x|..] == b;
  }

  /** Groups may be nested ten thousand deep. */
  lemma GroupsTooDeep(num: nat, b: Bytes)
    requires 1 <= num <= 15
    ensures ConsumeValue(Key(num, 3), b, -1) == Bad(RecursionDepth)
    ensures NextAt([8 * num + 3] + b, -1) == Bad(RecursionDepth)
    ensures Next(b) == NextAt(b, 10000)
  {
    SmallKey(num, 3, b);
  }

  // ---------- Whole messages ----------

  function Flat(ps: seq<Bytes>): Bytes {
    if ps == [] then [] else Flat(ps[..|ps| - 1]) + ps[|ps| - 1]
  }

  ghost predicate EntrySpells(k: Bytes, v: Bytes, e: Bytes) {
    exists a, b :: BytesRecord(1, k, a) && BytesRecord(2, v, b) && e == a + b
  }

  /** Negative numbers take all 64 bits. */
  function SignExtended(v: int): nat
    requires v >= -0x8000_0000_0000_0000
  {
    if v < 0 then v + 0x1_0000_0000_0000_0000 else v
  }

  ghost predicate BytesRecords(num: nat, ss: seq<Bytes>, ps: seq<Bytes>) {
    |ps| == |ss| && forall i :: 0 <= i < |ps| ==> BytesRecord(num, ss[i], ps[i])
  }

  /** p spells one field of a message: nothing for a zero value, else its records. */
  ghost predicate Piece(num: nat, kind: Kind, s: Slot, p: Bytes)
    requires TypedSlot(kind, s)
    decreases kind, 0
  {
    match kind
    case KString => if s.s == [] then p == [] else BytesRecord(num, s.s, p)
    case KInt32 => if s.v == 0 then p == [] else IntRecord(num, SignExtended(s.v), p)
    case KInt64 => if s.v == 0 then p == [] else IntRecord(num, SignExtended(s.v), p)
    case KBool => if s.on then IntRecord(num, 1, p) else p == []
    case KDouble => if s.bits % 0x8000_0000_0000_0000 == 0 then p == [] else DoubleRecord(num, s.bits, p)
    case KPacked =>
      if s.ds == [] then p == []
      else exists body :: PackedSpells(s.ds, body) && BytesRecord(num, body, p)
    case KStrings =>
      exists ps: seq<Bytes> :: BytesRecords(num, s.ss, ps) && p == Flat(ps)
    case KMessages(sub) =>
      exists ps: seq<Bytes>, bs: seq<Bytes> :: BytesRecords(num, bs, ps) && p == Flat(ps)
        && |bs| == |s.ms| && forall i :: 0 <= i < |bs| ==> Spells(sub, s.ms[i], bs[i])
    case KMap =>
      exists order, ps: seq<Bytes>, es: seq<Bytes> :: EntriesSpell(num, s.m, order, ps, es) && p == Flat(ps)
  }

  ghost predicate PackedSpells(ds: seq<U64>, body: Bytes) {
    |body| == 8 * |ds| && forall i :: 0 <= i < |ds| ==> Base256(body[8 * i..8 * i + 8]) == ds[i]
  }

  /** b spells a message: its fields in the order of the descriptor. */
  ghost predicate Spells(desc: Desc, m: Message, b: Bytes)
    requires Typed(desc, m)
    decreases desc, 1
  {
    exists ps: seq<Bytes> :: |ps| == |desc| && b == Flat(ps)
      && forall i :: 0 <= i < |ps| ==>
           (assert desc[i].kind < desc[i]; Piece(desc[i].num, desc[i].kind, m[i], ps[i]))
  }

  // ---------- The encoders write these bytes ----------

  lemma {:induction false} RecordsFlat(num: nat, ps: seq<Payload>, qs: seq<Bytes>)
    requires |qs| == |ps| && forall i :: 0 <= i < |ps| ==> qs[i] == FieldBytes(num, ps[i])
    ensures Flat(qs) == Records(num, ps)
  {
    if ps != [] {
      RecordsFlat(num, ps[..|ps| - 1], qs[..|qs| - 1]);
    }
  }

  ghost predicate FlatEncodes(desc: Desc, m: Message, k: nat, b: Bytes)
    requires Typed(desc, m) && k <= |desc|
  {
    exists ps: seq<Bytes> :: |ps| == k && b == Flat(ps)
      && forall i :: 0 <= i < k ==> FieldEncodes(desc[i], m[i], ps[i])
  }

  lemma {:induction false} EncodesToFlat(desc: Desc, m: Message, k: nat, b: Bytes)
    requires Typed(desc, m) && k <= |desc| && Encodes(desc, m, k, b)
    ensures FlatEncodes(desc, m, k, b)
    decreases k
  {
    if k == 0 {
      FlatNothing(desc, m);
    } else {
      hide FieldEncodes, Encodes, Flat, FlatEncodes;
      var p, q := SplitLast(desc, m, k, b);
      EncodesToFlat(desc, m, k - 1, p);
      FlatOneMore(desc, m, k, p, q);
    }
  }

  lemma FlatLast(ps: seq<Bytes>, q: Bytes)
    ensures Flat(ps + [q]) == Flat(ps) + q
  {
    assert (ps + [q])[..|ps|] == ps;
  }

  lemma FlatOneMore(desc: Desc, m: Message, k: nat, p: Bytes, q: Bytes)
    requires Typed(desc, m) && 0 < k <= |desc| && FlatEncodes(desc, m, k - 1, p)
    requires FieldEncodes(desc[k - 1], m[k - 1], q)
    ensures FlatEncodes(desc, m, k, p + q)
  {
    hide FieldEncodes, Flat;
    var ps: seq<Bytes> :| |ps| == k - 1 && p == Flat(ps)
      && forall i :: 0 <= i < k - 1 ==> FieldEncodes(desc[i], m[i], ps[i]);
    FlatLast(ps, q);
    var qs := ps + [q];
    assert |qs| == k && p + q == Flat(qs);
  }

  lemma FlatNothing(desc: Desc, m: Message)
    requires Typed(desc, m)
    ensures FlatEncodes(desc, m, 0, [])
  {
    var ps: seq<Bytes> := [];
    assert |ps| == 0 && [] == Flat(ps);
  }

  lemma {:induction false} FlatToEncodes(desc: Desc, m: Message, k: nat, ps: seq<Bytes>)
    requires Typed(desc, m) && k <= |desc| && |ps| == k
    requires forall i :: 0 <= i < k ==> FieldEncodes(desc[i], m[i], ps[i])
    ensures Encodes(desc, m, k, Flat(ps))
    decreases k
  {
    hide FieldEncodes;
    if k > 0 {
      var p := Flat(ps[..k - 1]);
      FlatToEncodes(desc, m, k - 1, ps[..k - 1]);
      assert Flat(ps) == p + ps[k - 1];
    }
  }

  /** Whatever one field may be encoded as is a piece of it, and the other way round. */
  lemma {:induction false} PieceIsEncoding(spec: FieldSpec, s: Slot, p: Bytes)
    requires TypedSlot(spec.kind, s)
    ensures Piece(spec.num, spec.kind, s, p) <==> FieldEncodes(spec, s, p)
    decreases spec.kind, 0
  {
    match spec.kind
    case KStrings => StringsPiece(spec.num, s, p);
    case KMessages(sub) => MessagesPiece(spec.num, sub, s, p);
    case KMap => MapPiece(spec.num, s, p);
    case KPacked => PackedPiece(spec.num, s, p);
    case _ => ScalarPiece(spec, s, p);
  }

  lemma NoneOrOne(num: nat, ps: seq<Payload>)
    ensures ps == [] ==> Records(num, ps) == []
    ensures |ps| == 1 ==> Records(num, ps) == FieldBytes(num, ps[0])
  {
    if |ps| == 1 {
      assert ps[..0] == [];
      assert [] + FieldBytes(num, ps[0]) == FieldBytes(num, ps[0]);
    }
  }

  lemma OnlyPayloads(spec: FieldSpec, s: Slot, ps: seq<Payload>, p: Bytes)
    requires TypedSlot(spec.kind, s) && SlotEncodes(spec.kind, s, ps)
    requires forall qs :: SlotEncodes(spec.kind, s, qs) ==> qs == ps
    ensures FieldEncodes(spec, s, p) <==> p == Records(spec.num, ps)
  {
  }

  lemma ScalarPiece(spec: FieldSpec, s: Slot, p: Bytes)
    requires TypedSlot(spec.kind, s)
    requires spec.kind.KString? || spec.kind.KInt32? || spec.kind.KInt64? || spec.kind.KBool? || spec.kind.KDouble?
    ensures Piece(spec.num, spec.kind, s, p) <==> FieldEncodes(spec, s, p)
  {
    hide Records, FieldEncodes, FieldBytes;
    var num := spec.num;
    match spec.kind
    case KString =>
      var ps := if s.s == [] then [] else [PBytes(s.s)];
      OnlyPayloads(spec, s, ps, p);
      NoneOrOne(num, ps);
      BytesRecordIs(num, s.s, p);
    case KInt32 =>
      var ps := if s.v == 0 then [] else [PVarint(ToUint64(s.v))];
      OnlyPayloads(spec, s, ps, p);
      NoneOrOne(num, ps);
      IntRecordIs(num, ToUint64(s.v), p);
    case KInt64 =>
      var ps := if s.v == 0 then [] else [PVarint(ToUint64(s.v))];
      OnlyPayloads(spec, s, ps, p);
      NoneOrOne(num, ps);
      IntRecordIs(num, ToUint64(s.v), p);
    case KBool =>
      var ps := if s.on then [PVarint(1)] else [];
      OnlyPayloads(spec, s, ps, p);
      NoneOrOne(num, ps);
      IntRecordIs(num, 1, p);
    case KDouble =>
      var ps := if IsZero(s.bits) then [] else [PFixed64(s.bits)];
      OnlyPayloads(spec, s, ps, p);
      NoneOrOne(num, ps);
      DoubleRecordIs(num, s.bits, p);
  }

  lemma {:induction false} PackSpells(ds: seq<U64>)
    ensures PackedSpells(ds, Pack(ds))
  {
    if ds != [] {
      var n := |ds| - 1;
      PackSpells(ds[..n]);
      var e := Fixed64(ds[n]);
      Fixed64Spells(e, ds[n]);
      forall i | 0 <= i < |ds|
        ensures Base256(Pack(ds)[8 * i..8 * i + 8]) == ds[i]
      {
        if i < n {
          assert Pack(ds)[8 * i..8 * i + 8] == Pack(ds[..n])[8 * i..8 * i + 8];
        } else {
          assert Pack(ds)[8 * i..8 * i + 8] == e;
        }
      }
    }
  }

  lemma {:induction false} PackedSpellsIs(ds: seq<U64>, body: Bytes)
    requires PackedSpells(ds, body)
    ensures body == Pack(ds)
  {
    if ds != [] {
      var n := |ds| - 1;
      var init, e := body[..8 * n], body[8 * n..8 * n + 8];
      forall i | 0 <= i < n
        ensures Base256(init[8 * i..8 * i + 8]) == ds[..n][i]
      {
        assert init[8 * i..8 * i + 8] == body[8 * i..8 * i + 8];
      }
      PackedSpellsIs(ds[..n], init);
      Fixed64Spells(e, ds[n]);
      assert body == init + e;
    }
  }

  lemma PackedPiece(num: nat, s: Slot, p: Bytes)
    requires s.SPacked?
    ensures Piece(num, KPacked, s, p) <==> FieldEncodes(FieldSpec(num, KPacked), s, p)
  {
    hide Records, FieldEncodes, FieldBytes, PackedSpells;
    var ps := if s.ds == [] then [] else [PBytes(Pack(s.ds))];
    OnlyPayloads(FieldSpec(num, KPacked), s, ps, p);
    NoneOrOne(num, ps);
    BytesRecordIs(num, Pack(s.ds), p);
    PackSpells(s.ds);
    if s.ds != [] && Piece(num, KPacked, s, p) {
      var body :| PackedSpells(s.ds, body) && BytesRecord(num, body, p);
      PackedSpellsIs(s.ds, body);
    }
  }

  lemma StringsPiece(num: nat, s: Slot, p: Bytes)
    requires s.SStrings?
    ensures Piece(num, KStrings, s, p) <==> FieldEncodes(FieldSpec(num, KStrings), s, p)
  {
    hide Records, FieldEncodes, FieldBytes, Flat;
    var ps := seq(|s.ss|, i requires 0 <= i < |s.ss| => PBytes(s.ss[i]));
    var qs := seq(|s.ss|, i requires 0 <= i < |s.ss| => FieldBytes(num, PBytes(s.ss[i])));
    OnlyPayloads(FieldSpec(num, KStrings), s, ps, p);
    RecordsFlat(num, ps, qs);
    forall i | 0 <= i < |qs| ensures BytesRecord(num, s.ss[i], qs[i]) {
      BytesRecordIs(num, s.ss[i], qs[i]);
    }
    if Piece(num, KStrings, s, p) {
      var rs: seq<Bytes> :| BytesRecords(num, s.ss, rs) && p == Flat(rs);
      forall i | 0 <= i < |rs| ensures rs[i] == qs[i] {
        BytesRecordIs(num, s.ss[i], rs[i]);
      }
      assert rs == qs;
    }
  }

  lemma EntrySpellsIs(k: Bytes, v: Bytes, e: Bytes)
    ensures EntrySpells(k, v, e) <==> e == Entry(k, v)
  {
    hide FieldBytes;
    var a, b := FieldBytes(1, PBytes(k)), FieldBytes(2, PBytes(v));
    BytesRecordIs(1, k, a);
    BytesRecordIs(2, v, b);
    if EntrySpells(k, v, e) {
      var a', b' :| BytesRecord(1, k, a') && BytesRecord(2, v, b') && e == a' + b';
      BytesRecordIs(1, k, a');
      BytesRecordIs(2, v, b');
    }
  }

  ghost predicate EntriesSpell(num: nat, m: map<Bytes, Bytes>, order: seq<Bytes>, ps: seq<Bytes>, es: seq<Bytes>) {
    && Lists(order, m.Keys) && |ps| == |es| == |order|
    && forall i :: 0 <= i < |ps| ==> EntrySpells(order[i], m[order[i]], es[i]) && BytesRecord(num, es[i], ps[i])
  }

  lemma EntriesSpellIs(num: nat, m: map<Bytes, Bytes>, order: seq<Bytes>, ps: seq<Bytes>, es: seq<Bytes>)
    requires EntriesSpell(num, m, order, ps, es)
    ensures Flat(ps) == Records(num, EntryPayloads(m, order))
  {
    hide Records, FieldBytes, Flat, Entry, BytesRecord, EntrySpells;
    var xs := EntryPayloads(m, order);
    forall i | 0 <= i < |ps| ensures ps[i] == FieldBytes(num, xs[i]) {
      EntrySpellsIs(order[i], m[order[i]], es[i]);
      BytesRecordIs(num, es[i], ps[i]);
    }
    RecordsFlat(num, xs, ps);
  }

  lemma EntriesAreSpelt(num: nat, m: map<Bytes, Bytes>, order: seq<Bytes>) returns (ps: seq<Bytes>, es: seq<Bytes>)
    requires Lists(order, m.Keys)
    ensures EntriesSpell(num, m, order, ps, es)
  {
    hide FieldBytes, Entry, BytesRecord, EntrySpells;
    es := seq(|order|, i requires 0 <= i < |order| => Entry(order[i], m[order[i]]));
    ps := seq(|order|, i requires 0 <= i < |order| => FieldBytes(num, PBytes(Entry(order[i], m[order[i]]))));
    forall i | 0 <= i < |ps|
      ensures EntrySpells(order[i], m[order[i]], es[i]) && BytesRecord(num, es[i], ps[i])
    {
      EntrySpellsIs(order[i], m[order[i]], es[i]);
      BytesRecordIs(num, es[i], ps[i]);
    }
  }

  lemma MapPiece(num: nat, s: Slot, p: Bytes)
    requires s.SMap?
    ensures Piece(num, KMap, s, p) <==> FieldEncodes(FieldSpec(num, KMap), s, p)
  {
    hide Records, FieldBytes, Flat, EntriesSpell, EntryPayloads;
    if FieldEncodes(FieldSpec(num, KMap), s, p) {
      var xs: seq<Payload> :| SlotEncodes(KMap, s, xs) && p == Records(num, xs);
      var order :| Lists(order, s.m.Keys) && xs == EntryPayloads(s.m, order);
      var ps, es := EntriesAreSpelt(num, s.m, order);
      EntriesSpellIs(num, s.m, order, ps, es);
    }
    if Piece(num, KMap, s, p) {
      var order, ps: seq<Bytes>, es: seq<Bytes> :| EntriesSpell(num, s.m, order, ps, es) && p == Flat(ps);
      EntriesSpellIs(num, s.m, order, ps, es);
      EntriesList(num, s.m, order, ps, es);
      assert SlotEncodes(KMap, s, EntryPayloads(s.m, order));
    }
  }

  lemma EntriesList(num: nat, m: map<Bytes, Bytes>, order: seq<Bytes>, ps: seq<Bytes>, es: seq<Bytes>)
    requires EntriesSpell(num, m, order, ps, es)
    ensures Lists(order, m.Keys) && forall k :: k in order ==> k in m
  {
  }

  lemma MessagesSpellIs(num: nat, sub: Desc, ms: seq<Message>, ps: seq<Bytes>, bs: seq<Bytes>)
    requires forall i :: 0 <= i < |ms| ==> Typed(sub, ms[i])
    requires BytesRecords(num, bs, ps) && |bs| == |ms| && forall i :: 0 <= i < |bs| ==> Spells(sub, ms[i], bs[i])
    ensures FieldEncodes(FieldSpec(num, KMessages(sub)), SMessages(ms), Flat(ps))
    decreases sub, 2
  {
    hide Records, FieldBytes, Flat, Spells, Encodes, BytesRecord;
    var xs := seq(|bs|, i requires 0 <= i < |bs| => PBytes(bs[i]));
    forall i | 0 <= i < |ps| ensures ps[i] == FieldBytes(num, xs[i]) && Encodes(sub, ms[i], |sub|, xs[i].bs) {
      SpellsIsEncoding(sub, ms[i], bs[i]);
      BytesRecordIs(num, bs[i], ps[i]);
    }
    RecordsFlat(num, xs, ps);
    assert SlotEncodes(KMessages(sub), SMessages(ms), xs);
  }

  lemma MessagesAreSpelt(num: nat, sub: Desc, ms: seq<Message>, xs: seq<Payload>)
    returns (ps: seq<Bytes>, bs: seq<Bytes>)
    requires TypedSlot(KMessages(sub), SMessages(ms)) && SlotEncodes(KMessages(sub), SMessages(ms), xs)
    ensures BytesRecords(num, bs, ps) && |bs| == |ms| && forall i :: 0 <= i < |bs| ==> Spells(sub, ms[i], bs[i])
    ensures Flat(ps) == Records(num, xs)
    decreases sub, 2
  {
    hide Records, FieldBytes, Flat, Spells, Encodes, BytesRecord;
    bs := seq(|xs|, i requires 0 <= i < |xs| => xs[i].bs);
    ps := seq(|xs|, i requires 0 <= i < |xs| => FieldBytes(num, xs[i]));
    RecordsFlat(num, xs, ps);
    forall i | 0 <= i < |ps| ensures Spells(sub, ms[i], bs[i]) && BytesRecord(num, bs[i], ps[i]) {
      SpellsIsEncoding(sub, ms[i], bs[i]);
      BytesRecordIs(num, bs[i], ps[i]);
    }
  }

  lemma MessagesPiece(num: nat, sub: Desc, s: Slot, p: Bytes)
    requires TypedSlot(KMessages(sub), s)
    ensures Piece(num, KMessages(sub), s, p) <==> FieldEncodes(FieldSpec(num, KMessages(sub)), s, p)
    decreases sub, 3
  {
    hide Records, FieldBytes, Flat;
    if FieldEncodes(FieldSpec(num, KMessages(sub)), s, p) {
      var xs: seq<Payload> :| SlotEncodes(KMessages(sub), s, xs) && p == Records(num, xs);
      var ps, bs := MessagesAreSpelt(num, sub, s.ms, xs);
    }
    if Piece(num, KMessages(sub), s, p) {
      var ps: seq<Bytes>, bs: seq<Bytes> :| BytesRecords(num, bs, ps) && p == Flat(ps)
        && |bs| == |s.ms| && forall i :: 0 <= i < |bs| ==> Spells(sub, s.ms[i], bs[i]);
      MessagesSpellIs(num, sub, s.ms, ps, bs);
    }
  }

  /** The encodings of a message are exactly the byte strings that spell it. */
  lemma {:induction false} SpellsIsEncoding(desc: Desc, m: Message, b: Bytes)
    requires Typed(desc, m)
    ensures Spells(desc, m, b) <==> Encodes(desc, m, |desc|, b)
    decreases desc, 1
  {
    hide Piece, FieldEncodes, Flat, Encodes;
    if Spells(desc, m, b) {
      var ps: seq<Bytes> :| |ps| == |desc| && b == Flat(ps)
        && forall i :: 0 <= i < |ps| ==> Piece(desc[i].num, desc[i].kind, m[i], ps[i]);
      forall i | 0 <= i < |ps| ensures FieldEncodes(desc[i], m[i], ps[i]) {
        assert desc[i].kind < desc[i];
        PieceIsEncoding(desc[i], m[i], ps[i]);
      }
      FlatToEncodes(desc, m, |desc|, ps);
    }
    if Encodes(desc, m, |desc|, b) {
      EncodesToFlat(desc, m, |desc|, b);
      var ps: seq<Bytes> :| |ps| == |desc| && b == Flat(ps)
        && forall i :: 0 <= i < |desc| ==> FieldEncodes(desc[i], m[i], ps[i]);
      forall i | 0 <= i < |ps| ensures Piece(desc[i].num, desc[i].kind, m[i], ps[i]) {
        assert desc[i].kind < desc[i];
        PieceIsEncoding(desc[i], m[i], ps[i]);
      }
    }
  }

  /** Decoding the bytes that spell a message gives the message, up to the sign of zero doubles. */
  lemma SpeltDecodes(desc: Desc, m: Message, b: Bytes)
    requires WellFormed(desc) && Typed(desc, m) && Spells(desc, m, b) && |b| < LIMIT
    ensures Run(desc, b, Fresh(desc)) == Outcome(Normal(desc, m), None)
  {
    hide Run, Spells, Encodes;
    SpellsIsEncoding(desc, m, b);
    DecodeEncode(desc, m, b);
  }

  // ---------- What the decoders make of a record ----------

  /** A number as a reader takes it, leading zeros allowed. */
  predicate Readable64(d: Bytes) {
    Continued(d) && |d| <= 10 && (|d| == 10 ==> d[9] < 2)
  }

  lemma ReadsWhole(d: Bytes, rest: Bytes)
    requires Readable64(d)
    ensures ConsumeVarint(d + rest) == Got(Base128(d), |d|)
  {
    VarintCapIs64Bits();
    assert (d + rest)[..|d|] == d;
    ReadsNumber(d + rest, 10, |d|);
  }

  lemma ReadsKey(num: nat, typ: nat, k: Bytes, rest: Bytes)
    requires 1 <= num <= MAX_FIELD_NUMBER && typ < 8 && Number(k, 8 * num + typ)
    ensures ConsumeTag(k + rest) == Got(Key(num, typ), |k|) && (k + rest)[|k|..] == rest
  {
    NumberIsVarint(k, 8 * num + typ);
    ConsumeTagInverts(num, typ, rest);
  }

  lemma ReadsField(num: nat, typ: nat, k: Bytes, rest: Bytes, p: Payload)
    requires 1 <= num <= MAX_FIELD_NUMBER && typ < 8 && typ != 3 && Number(k, 8 * num + typ)
    requires ConsumePlain(typ, rest) == Got(p, |rest|)
    ensures Next(k + rest) == Got(Field(num, p), |k + rest|)
  {
    hide ConsumePlain, ConsumeTag;
    ReadsKey(num, typ, k, rest);
    assert ConsumeValue(Key(num, typ), rest, RECURSION_LIMIT) == Got(p, |rest|);
  }

  lemma DecodesField(desc: Desc, i: nat, x: Bytes, p: Payload, m: Message)
    requires WellFormed(desc) && Typed(desc, m) && i < |desc| && !desc[i].kind.KMessages?
    requires p.Type() == WireType(desc[i].kind) && Next(x) == Got(Field(desc[i].num, p), |x|)
    ensures Run(desc, x, m) == Outcome(m[i := Absorb(desc[i].kind, m[i], p)], None)
  {
    hide Run, Next;
    FindIs(desc, Field(desc[i].num, p), i);
    RunOne(desc, x, Field(desc[i].num, p), m);
  }

  predicate HoldsInt(kind: Kind, s: Slot, v: nat) {
    match kind
    case KInt32 => s.SInt? && -0x8000_0000 <= s.v < 0x8000_0000 && (s.v - v) % 0x1_0000_0000 == 0
    case KInt64 =>
      && s.SInt? && -0x8000_0000_0000_0000 <= s.v < 0x8000_0000_0000_0000
      && (s.v - v) % 0x1_0000_0000_0000_0000 == 0
    case KBool => s == SBool(v != 0)
    case _ => false
  }

  predicate HoldsBytes(kind: Kind, before: Slot, s: Slot, bs: Bytes) {
    match kind
    case KString => s == SString(bs)
    case KStrings => before.SStrings? && s == SStrings(before.ss + [bs])
    case KPacked =>
      && s.SPacked? && |s.ds| == |bs| / 8
      && forall j :: 0 <= j < |bs| / 8 ==> s.ds[j] == Base256(bs[8 * j..8 * j + 8])
    case _ => false
  }

  /** Any 64-bit number in the field of an integer is taken to 32 or 64 bits, two's complement, and in the field of a
      boolean as whether it is not zero. */
  lemma DecodesInt(desc: Desc, i: nat, k: Bytes, d: Bytes, m: Message)
    requires WellFormed(desc) && Typed(desc, m) && i < |desc| && 1 <= desc[i].num <= MAX_FIELD_NUMBER
    requires desc[i].kind.KInt32? || desc[i].kind.KInt64? || desc[i].kind.KBool?
    requires Number(k, 8 * desc[i].num) && Readable64(d)
    ensures var r, v := Run(desc, k + d, m), Base128(d);
            && r.err == None && r.msg == m[i := r.msg[i]]
            && HoldsInt(desc[i].kind, r.msg[i], v)
  {
    hide Run, Next, Number, Continued, Readable64, Base128;
    ReadsWhole(d, []);
    assert d + [] == d;
    var v := ConsumeVarint(d).val;
    ReadsField(desc[i].num, 0, k, d, PVarint(v));
    DecodesField(desc, i, k + d, PVarint(v), m);
    WrapIsCongruent(v, 0x8000_0000);
    WrapIsCongruent(v, 0x8000_0000_0000_0000);
  }

  lemma WrapIsCongruent(v: nat, half: nat)
    requires half == 0x8000_0000 || half == 0x8000_0000_0000_0000
    ensures -(half as int) <= Wrap(v, half) < half && (Wrap(v, half) - v) % (2 * half) == 0
  {
  }

  lemma DecodesDouble(desc: Desc, i: nat, k: Bytes, e: Bytes, m: Message)
    requires WellFormed(desc) && Typed(desc, m) && i < |desc| && 1 <= desc[i].num <= MAX_FIELD_NUMBER
    requires desc[i].kind.KDouble? && Number(k, 8 * desc[i].num + 1) && |e| == 8
    ensures var r := Run(desc, k + e, m);
            r.err == None && r.msg == m[i := r.msg[i]] && r.msg[i].SDouble? && r.msg[i].bits == Base256(e)
  {
    hide Run, Next, Number;
    Base256IsLittleEndian(e);
    assert e[..8] == e;
    var v := ConsumeFixed64(e).val;
    ReadsField(desc[i].num, 1, k, e, PFixed64(v));
    DecodesField(desc, i, k + e, PFixed64(v), m);
  }

  lemma {:induction false} UnpackByNumber(b: Bytes, j: nat)
    requires j < |b| / 8
    ensures Unpack(b)[j] == Base256(b[8 * j..8 * j + 8])
  {
    if j == 0 {
      FirstOfUnpack(b);
    } else {
      UnpackByNumber(b[8..], j - 1);
      SliceOfRest(b, j);
      hide ConsumeFixed64;
      assert Unpack(b) == [Unpack(b)[0]] + Unpack(b[8..]);
    }
  }

  lemma FirstOfUnpack(b: Bytes)
    requires |b| >= 8
    ensures Unpack(b)[0] == Base256(b[0..8])
  {
    assert b[0..8] == b[..8];
    Base256IsLittleEndian(b[..8]);
  }

  lemma SliceOfRest(b: Bytes, j: nat)
    requires 0 < j < |b| / 8
    ensures j - 1 < |b[8..]| / 8
    ensures b[8..][8 * (j - 1)..8 * (j - 1) + 8] == b[8 * j..8 * j + 8]
  {
  }

  /** A record of bytes is a string, one more string, or a list of doubles that replaces the one before. */
  lemma DecodesBytes(desc: Desc, i: nat, k: Bytes, l: Bytes, s: Bytes, m: Message)
    requires WellFormed(desc) && Typed(desc, m) && i < |desc| && 1 <= desc[i].num <= MAX_FIELD_NUMBER
    requires desc[i].kind.KString? || desc[i].kind.KStrings? || desc[i].kind.KPacked?
    requires Number(k, 8 * desc[i].num + 2) && Readable64(l) && Base128(l) == |s|
    ensures var r := Run(desc, k + (l + s), m);
            && r.err == None && r.msg == m[i := r.msg[i]]
            && HoldsBytes(desc[i].kind, m[i], r.msg[i], s)
  {
    hide Run, Next, Number, Continued, Readable64, Base128, Unpack;
    ReadsWhole(l, s);
    assert (l + s)[|l|..|l| + |s|] == s;
    ReadsField(desc[i].num, 2, k, l + s, PBytes(s));
    DecodesField(desc, i, k + (l + s), PBytes(s), m);
    forall j | 0 <= j < |s| / 8 ensures Unpack(s)[j] == Base256(s[8 * j..8 * j + 8]) {
      UnpackByNumber(s, j);
    }
  }

  /** A nested message is appended if its own bytes decode; otherwise their error ends the decoding. */
  lemma DecodesMessage(desc: Desc, i: nat, k: Bytes, l: Bytes, s: Bytes, m: Message)
    requires WellFormed(desc) && Typed(desc, m) && i < |desc| && 1 <= desc[i].num <= MAX_FIELD_NUMBER
    requires desc[i].kind.KMessages? && Number(k, 8 * desc[i].num + 2) && Readable64(l) && Base128(l) == |s|
    ensures var sub := desc[i].kind.sub;
            var nested, r := Run(sub, s, Fresh(sub)), Run(desc, k + (l + s), m);
            if nested.err.Some? then r == Outcome(m, nested.err)
            else m[i].SMessages? && r == Outcome(m[i := SMessages(m[i].ms + [nested.msg])], None)
  {
    assert TypedSlot(desc[i].kind, m[i]);
    hide Next, Number, Continued, Readable64, Base128;
    ReadsWhole(l, s);
    assert (l + s)[|l|..|l| + |s|] == s;
    ReadsField(desc[i].num, 2, k, l + s, PBytes(s));
    var f := Field(desc[i].num, PBytes(s));
    FindIs(desc, f, i);
    hide Run;
    RunLast(desc, k + (l + s), f, m);
  }

  lemma RunLast(desc: Desc, x: Bytes, f: Field, m: Message)
    requires Typed(desc, m) && Next(x) == Got(f, |x|) && x != []
    ensures Run(desc, x, m)
         == if Check(desc, f).Some? then Outcome(m, Check(desc, f)) else Outcome(Update(desc, m, f), None)
  {
    hide Next, Check, Update;
    if Check(desc, f).None? {
      RunOne(desc, x, f, m);
    }
  }

  /** A map entry keeps what was read of it before the first thing that cannot be read. */
  lemma EntryKeepsWhatWasRead(k: Bytes, v: Bytes, a: Bytes, b: Bytes, junk: Bytes)
    requires |k| < 0x1_0000_0000_0000_0000 && |v| < 0x1_0000_0000_0000_0000
    requires BytesRecord(1, k, a) && BytesRecord(2, v, b) && Next(junk).Bad?
    ensures StringPair(junk, [], []) == ([], [])
    ensures StringPair(a + junk, [], []) == (k, [])
    ensures StringPair(b + junk, [], []) == ([], v)
    ensures StringPair(a + (b + junk), [], []) == StringPair(b + (a + junk), [], []) == (k, v)
  {
    hide Next, FieldBytes, BytesRecord;
    BytesRecordIs(1, k, a);
    BytesRecordIs(2, v, b);
    NextInverts(1, PBytes(k), junk);
    NextInverts(2, PBytes(v), junk);
    NextInverts(1, PBytes(k), b + junk);
    NextInverts(2, PBytes(v), a + junk);
    assert (a + junk)[|a|..] == junk && (b + junk)[|b|..] == junk;
    assert (a + (b + junk))[|a|..] == b + junk && (b + (a + junk))[|b|..] == a + junk;
    assert StringPair(junk, k, v) == (k, v) && StringPair(junk, k, []) == (k, []) && StringPair(junk, [], v) == ([], v);
    assert StringPair(b + junk, k, []) == (k, v) && StringPair(a + junk, [], v) == (k, v);
  }
}
