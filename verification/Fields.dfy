/** The steps the message codecs are made of: how one Go field is appended to a buffer, and what one turn of
    a decode loop amounts to. */
module Fields {
  import opened Base
  import opened Wire
  import opened Schema
  import opened Decoding
  import opened RoundTrip

  function AppendTag(b: Bytes, num: nat, typ: nat): Bytes { b + Tag(num, typ) }
  function AppendVarint(b: Bytes, v: U64): Bytes { b + Varint(v) }
  function AppendFixed64(b: Bytes, v: U64): Bytes { b + Fixed64(v) }
  function AppendBytes(b: Bytes, s: Bytes): Bytes { b + Delimited(s) }

  /** b holds the first k fields of m, and desc[k] is the field to append next. */
  ghost predicate Ready(desc: Desc, m: Message, k: nat, b: Bytes, num: nat, kind: Kind) {
    && Typed(desc, m)
    && k < |desc|
    && desc[k] == FieldSpec(num, kind)
    && Encodes(desc, m, k, b)
  }

  lemma NoRecords(b: Bytes, num: nat)
    ensures b == b + Records(num, [])
  {
  }

  lemma RecordsOne(num: nat, p: Payload)
    ensures Records(num, [p]) == FieldBytes(num, p)
  {
    RecordsAppend(num, [], p);
    assert [] + [p] == [p];
  }

  lemma EncodesNothing(desc: Desc, m: Message)
    requires Typed(desc, m)
    ensures Encodes(desc, m, 0, [])
  {
  }

  lemma ExtendNone(desc: Desc, m: Message, k: nat, b: Bytes, num: nat, kind: Kind)
    requires Ready(desc, m, k, b, num, kind) && SlotEncodes(kind, m[k], [])
    ensures Encodes(desc, m, k + 1, b)
  {
    NoRecords(b, num);
    Extend(desc, m, k, b, [], b);
  }

  lemma ExtendOne(desc: Desc, m: Message, k: nat, b: Bytes, num: nat, kind: Kind, p: Payload, c: Bytes)
    requires Ready(desc, m, k, b, num, kind) && SlotEncodes(kind, m[k], [p])
    requires c == b + Tag(num, p.Type()) + PayloadBytes(p)
    ensures Encodes(desc, m, k + 1, c)
  {
    RecordsOne(num, p);
    AppendField(b, num, p);
    Extend(desc, m, k, b, [p], c);
  }

  lemma AppendField(b: Bytes, num: nat, p: Payload)
    ensures b + Tag(num, p.Type()) + PayloadBytes(p) == b + FieldBytes(num, p)
  {
  }

  /** The four kinds of scalar field: nothing is appended for Go's zero value. */
  function AppendStringField(b: Bytes, num: nat, s: Bytes, ghost desc: Desc, ghost m: Message, ghost k: nat): (c: Bytes)
    requires Ready(desc, m, k, b, num, KString) && m[k] == SString(s)
    ensures Encodes(desc, m, k + 1, c)
  {
    if s != [] then
      var c := AppendBytes(AppendTag(b, num, BYTES), s);
      ExtendOne(desc, m, k, b, num, KString, PBytes(s), c);
      c
    else
      ExtendNone(desc, m, k, b, num, KString);
      b
  }

  function AppendIntField(b: Bytes, num: nat, v: int, ghost desc: Desc, ghost m: Message, ghost k: nat): (c: Bytes)
    requires Ready(desc, m, k, b, num, KInt32) || Ready(desc, m, k, b, num, KInt64)
    requires m[k] == SInt(v) && -0x8000_0000_0000_0000 <= v < 0x8000_0000_0000_0000
    ensures Encodes(desc, m, k + 1, c)
  {
    if v != 0 then
      var c := AppendVarint(AppendTag(b, num, VARINT), ToUint64(v));
      ExtendOne(desc, m, k, b, num, desc[k].kind, PVarint(ToUint64(v)), c);
      c
    else
      ExtendNone(desc, m, k, b, num, desc[k].kind);
      b
  }

  function AppendBoolField(b: Bytes, num: nat, on: bool, ghost desc: Desc, ghost m: Message, ghost k: nat): (c: Bytes)
    requires Ready(desc, m, k, b, num, KBool) && m[k] == SBool(on)
    ensures Encodes(desc, m, k + 1, c)
  {
    if on then
      var c := AppendVarint(AppendTag(b, num, VARINT), 1);
      ExtendOne(desc, m, k, b, num, KBool, PVarint(1), c);
      c
    else
      ExtendNone(desc, m, k, b, num, KBool);
      b
  }

  function AppendDoubleField(b: Bytes, num: nat, bits: U64, ghost desc: Desc, ghost m: Message, ghost k: nat)
    : (c: Bytes)
    requires Ready(desc, m, k, b, num, KDouble) && m[k] == SDouble(bits)
    ensures Encodes(desc, m, k + 1, c)
  {
    if !IsZero(bits) then
      var c := AppendFixed64(AppendTag(b, num, FIXED64), bits);
      ExtendOne(desc, m, k, b, num, KDouble, PFixed64(bits), c);
      c
    else
      ExtendNone(desc, m, k, b, num, KDouble);
      b
  }

  method AppendPackedField(b: Bytes, num: nat, ds: seq<U64>, ghost desc: Desc, ghost m: Message, ghost k: nat)
    returns (c: Bytes)
    requires Ready(desc, m, k, b, num, KPacked) && m[k] == SPacked(ds)
    ensures Encodes(desc, m, k + 1, c)
  {
    c := b;
    if |ds| > 0 {
      var packed := [];
      for i := 0 to |ds|
        invariant packed == Pack(ds[..i])
      {
        assert ds[..i + 1][..i] == ds[..i];
        packed := AppendFixed64(packed, ds[i]);
      }
      assert ds[..|ds|] == ds;
      c := AppendTag(c, num, BYTES);
      c := AppendBytes(c, packed);
      ExtendOne(desc, m, k, b, num, KPacked, PBytes(packed), c);
    } else {
      ExtendNone(desc, m, k, b, num, KPacked);
    }
  }

  function StringPayloads(ss: seq<Bytes>): (ps: seq<Payload>)
    ensures |ps| == |ss|
  {
    seq(|ss|, i requires 0 <= i < |ss| => PBytes(ss[i]))
  }

  lemma StringPayloadsStep(ss: seq<Bytes>, i: nat)
    requires i < |ss|
    ensures StringPayloads(ss[..i + 1]) == StringPayloads(ss[..i]) + [PBytes(ss[i])]
  {
  }

  /** One more delimited record at the end of a repeated field. */
  method AppendRecord(b: Bytes, num: nat, s: Bytes, ghost base: Bytes, ghost ps: seq<Payload>) returns (c: Bytes)
    requires b == base + Records(num, ps)
    ensures c == base + Records(num, ps + [PBytes(s)])
  {
    c := AppendTag(b, num, BYTES);
    c := AppendBytes(c, s);
    RecordsGrow(base, num, ps, s);
  }

  lemma RecordsGrow(base: Bytes, num: nat, ps: seq<Payload>, s: Bytes)
    ensures base + Records(num, ps) + Tag(num, BYTES) + Delimited(s) == base + Records(num, ps + [PBytes(s)])
  {
    var f := FieldBytes(num, PBytes(s));
    RecordsAppend(num, ps, PBytes(s));
    Regroup(base, Records(num, ps), Tag(num, BYTES), Delimited(s));
    Regroup(base, Records(num, ps), f, []);
    assert base + Records(num, ps) + f + [] == base + Records(num, ps) + f;
    assert Tag(num, BYTES) + Delimited(s) == f;
  }

  method AppendStringsField(b: Bytes, num: nat, ss: seq<Bytes>, ghost desc: Desc, ghost m: Message, ghost k: nat)
    returns (c: Bytes)
    requires Ready(desc, m, k, b, num, KStrings) && m[k] == SStrings(ss)
    ensures Encodes(desc, m, k + 1, c)
  {
    c := AppendStrings(b, num, ss);
    Extend(desc, m, k, b, StringPayloads(ss), c);
  }

  method AppendStrings(b: Bytes, num: nat, ss: seq<Bytes>) returns (c: Bytes)
    ensures c == b + Records(num, StringPayloads(ss))
  {
    c := b;
    NoRecords(b, num);
    for i := 0 to |ss|
      invariant c == b + Records(num, StringPayloads(ss[..i]))
    {
      StringPayloadsStep(ss, i);
      c := AppendRecord(c, num, ss[i], b, StringPayloads(ss[..i]));
    }
    assert ss[..|ss|] == ss;
  }

  method AppendMapField(b: Bytes, num: nat, entries: map<Bytes, Bytes>,
                        ghost desc: Desc, ghost m: Message, ghost k: nat)
    returns (c: Bytes)
    requires Ready(desc, m, k, b, num, KMap) && m[k] == SMap(entries)
    ensures Encodes(desc, m, k + 1, c)
  {
    ghost var order;
    c, order := AppendEntries(b, num, entries);
    Extend(desc, m, k, b, EntryPayloads(entries, order), c);
  }

  /** The loop visits the keys in an order nothing is known about. */
  method AppendEntries(b: Bytes, num: nat, entries: map<Bytes, Bytes>)
    returns (c: Bytes, ghost order: seq<Bytes>)
    ensures Lists(order, entries.Keys) && c == b + Records(num, EntryPayloads(entries, order))
  {
    hide Records, EntryPayloads, Delimited, Tag, Lists;
    c, order := b, [];
    var left := entries.Keys;
    NoEntries(b, num, entries);
    while left != {}
      invariant left <= entries.Keys && Lists(order, entries.Keys - left)
      invariant forall k :: k in order ==> k in entries
      invariant c == b + Records(num, EntryPayloads(entries, order))
    {
      var key :| key in left;
      var entry := AppendTag([], 1, BYTES);
      entry := AppendBytes(entry, key);
      entry := AppendTag(entry, 2, BYTES);
      entry := AppendBytes(entry, entries[key]);
      EntryIs(entry, key, entries[key]);
      c := AppendRecord(c, num, entry, b, EntryPayloads(entries, order));
      NextEntry(entries, order, left, key);
      order := order + [key];
      left := left - {key};
    }
    assert entries.Keys - left == entries.Keys;
  }

  lemma NoEntries(b: Bytes, num: nat, entries: map<Bytes, Bytes>)
    ensures Lists([], entries.Keys - entries.Keys)
    ensures b == b + Records(num, EntryPayloads(entries, []))
  {
  }

  lemma NextEntry(entries: map<Bytes, Bytes>, order: seq<Bytes>, left: set<Bytes>, key: Bytes)
    requires key in left && left <= entries.Keys && Lists(order, entries.Keys - left)
    ensures Lists(order + [key], entries.Keys - (left - {key}))
    ensures EntryPayloads(entries, order + [key])
         == EntryPayloads(entries, order) + [PBytes(Entry(key, entries[key]))]
  {
  }

  lemma EntryIs(entry: Bytes, k: Bytes, v: Bytes)
    requires entry == [] + Tag(1, BYTES) + Delimited(k) + Tag(2, BYTES) + Delimited(v)
    ensures entry == Entry(k, v)
  {
    assert entry == (Tag(1, BYTES) + Delimited(k)) + (Tag(2, BYTES) + Delimited(v));
  }

  // ---------- One turn of a decode loop ----------

  lemma NoMoreTurns(desc: Desc, m: Message)
    requires Typed(desc, m)
    ensures Run(desc, [], m) == Outcome(m, None)
  {
  }

  lemma TurnWithoutKey(desc: Desc, b: Bytes, m: Message)
    requires Typed(desc, m) && b != [] && ConsumeTag(b).Bad?
    ensures Run(desc, b, m) == Outcome(m, Some(ConsumeTag(b).err))
  {
  }

  /** Slot i is the one for fields with this key. */
  ghost predicate Known(desc: Desc, i: nat, key: Key) {
    i < |desc| && key == Key(desc[i].num, WireType(desc[i].kind))
  }

  ghost function Refused(desc: Desc, i: nat, num: nat, p: Payload): Option<Error>
    requires Known(desc, i, Key(num, p.Type()))
  {
    Refusal(desc[i].kind, p)
  }

  ghost function Taken(desc: Desc, i: nat, num: nat, p: Payload, m: Message): (r: Message)
    requires Known(desc, i, Key(num, p.Type())) && Typed(desc, m)
    ensures Typed(desc, r)
  {
    m[i := Absorb(desc[i].kind, m[i], p)]
  }

  /** Every message here numbers its fields 1, 2, 3, ... */
  ghost predicate Numbered(desc: Desc) {
    forall i :: 0 <= i < |desc| ==> desc[i].num == i + 1
  }

  lemma NumberedIsWellFormed(desc: Desc)
    requires Numbered(desc) && |desc| <= MAX_FIELD_NUMBER
    requires forall i :: 0 <= i < |desc| && desc[i].kind.KMessages? ==> WellFormed(desc[i].kind.sub)
    ensures WellFormed(desc)
  {
  }

  lemma KnownByNumber(desc: Desc, key: Key)
    requires Numbered(desc)
    ensures forall i: nat :: Known(desc, i, key) <==>
      i == key.num - 1 && i < |desc| && key.typ == WireType(desc[i].kind)
  {
  }

  lemma TurnUnread(desc: Desc, i: nat, b: Bytes, m: Message, t: Reading<Key>)
    requires Typed(desc, m) && b != [] && t == ConsumeTag(b) && t.Got? && Known(desc, i, t.val)
    requires ConsumePlain(t.val.typ, b[t.n..]).Bad?
    ensures Run(desc, b, m) == Outcome(m, Some(ConsumePlain(t.val.typ, b[t.n..]).err))
  {
    ReadsPlain(b, t);
  }

  /** The value after the key of a known field may be refused; otherwise it changes its slot. */
  lemma TurnKnown(desc: Desc, i: nat, b: Bytes, m: Message, t: Reading<Key>, p: Payload, n: nat)
    requires WellFormed(desc) && Typed(desc, m) && b != []
    requires t == ConsumeTag(b) && t.Got? && Known(desc, i, t.val)
    requires ConsumePlain(t.val.typ, b[t.n..]) == Got(p, n)
    ensures Run(desc, b, m)
         == if Refused(desc, i, t.val.num, p).Some? then Outcome(m, Refused(desc, i, t.val.num, p))
            else Run(desc, b[t.n..][n..], Taken(desc, i, t.val.num, p, m))
  {
    hide ConsumeTag;
    hide ConsumePlain;
    hide Typed;
    hide WellFormed;
    ReadsPlain(b, t);
    FindIs(desc, Field(desc[i].num, p), i);
    DropTwice(b, t.n, n);
  }

  lemma ReadsPlain(b: Bytes, t: Reading<Key>)
    requires t == ConsumeTag(b) && t.Got? && t.val.typ != START_GROUP
    ensures var v := ConsumePlain(t.val.typ, b[t.n..]);
            Next(b) == if v.Bad? then Bad(v.err) else Got(Field(t.val.num, v.val), t.n + v.n)
  {
    assert ConsumeValue(t.val, b[t.n..], RECURSION_LIMIT) == ConsumePlain(t.val.typ, b[t.n..]);
  }

  lemma DropTwice(b: Bytes, j: nat, k: nat)
    requires j + k <= |b|
    ensures b[j..][k..] == b[j + k..]
  {
  }

  /** After any other key the value is skipped. */
  lemma TurnUnknown(desc: Desc, b: Bytes, m: Message, t: Reading<Key>)
    requires Typed(desc, m) && b != [] && t == ConsumeTag(b) && t.Got?
    requires forall i: nat :: !Known(desc, i, t.val)
    ensures var v := ConsumeValue(t.val, b[t.n..], RECURSION_LIMIT);
            Run(desc, b, m) == if v.Bad? then Outcome(m, Some(v.err)) else Run(desc, b[t.n..][v.n..], m)
  {
    hide ConsumeTag;
    hide ConsumeValue;
    hide Typed;
    var v := ConsumeValue(t.val, b[t.n..], RECURSION_LIMIT);
    if v.Got? {
      var f := Field(t.val.num, v.val);
      forall i | 0 <= i < |desc|
        ensures !Matches(desc[i], f)
      {
        assert !Known(desc, i, t.val);
      }
      DropTwice(b, t.n, v.n);
    }
  }
}
