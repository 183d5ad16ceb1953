/** What decoding promises about any message type: concatenation merges, fields nobody knows are invisible,
    and only the order of fields with the same number matters. */
module Decoding {
  import opened Base
  import opened Wire
  import opened Schema

  // ---------- Merge ----------

  /** Decoding a ++ b is decoding b into the result of decoding a. */
  lemma {:induction false} Merge(desc: Desc, a: Bytes, b: Bytes, m: Message)
    requires Typed(desc, m) && Run(desc, a, m).err.None?
    ensures Run(desc, a + b, m) == Run(desc, b, Run(desc, a, m).msg)
    decreases |a|
  {
    if a == [] {
      assert a + b == b;
    } else {
      var r := Next(a);
      NextStable(a, b);
      DropConcat(a, b, r.n);
      Merge(desc, a[r.n..], b, Update(desc, m, r.val));
    }
  }

  // ---------- Forward compatibility ----------

  lemma RunOne(desc: Desc, x: Bytes, f: Field, m: Message)
    requires Typed(desc, m) && Next(x) == Got(f, |x|) && Check(desc, f).None?
    ensures Run(desc, x, m) == Outcome(Update(desc, m, f), None)
  {
    assert x[|x|..] == [];
    assert Run(desc, [], Update(desc, m, f)) == Outcome(Update(desc, m, f), None);
  }

  lemma UnmatchedChangesNothing(desc: Desc, f: Field, m: Message)
    requires Typed(desc, m) && forall i :: 0 <= i < |desc| ==> !Matches(desc[i], f)
    ensures Check(desc, f).None? && Update(desc, m, f) == m
  {
  }

  /** A complete field with a number the message does not have, or with the wrong wire type for it, changes
      nothing, neither the message nor a later error, wherever it stands between two fields. */
  lemma UnknownFieldInvisible(desc: Desc, a: Bytes, x: Bytes, b: Bytes, m: Message)
    requires Typed(desc, m) && Run(desc, a, m).err.None?
    requires Next(x).Got? && Next(x).n == |x|
    requires forall i :: 0 <= i < |desc| ==> !Matches(desc[i], Next(x).val)
    ensures Run(desc, a + x + b, m) == Run(desc, a + b, m)
  {
    hide Run, Next, Check, Update, Typed;
    var here := Run(desc, a, m).msg;
    UnmatchedChangesNothing(desc, Next(x).val, here);
    RunOne(desc, x, Next(x).val, here);
    assert a + x + b == a + (x + b);
    Merge(desc, a, x + b, m);
    Merge(desc, x, b, here);
    Merge(desc, a, b, m);
  }

  // ---------- Decoding as a fold over fields ----------

  function Tokenize(b: Bytes): Option<seq<Field>>
    decreases |b|
  {
    if b == [] then Some([])
    else
      match Next(b)
      case Bad(_) => None
      case Got(f, n) =>
        match Tokenize(b[n..])
        case None => None
        case Some(fs) => Some([f] + fs)
  }

  ghost predicate Accepts(desc: Desc, fs: seq<Field>) {
    forall f :: f in fs ==> Check(desc, f).None?
  }

  function Fold(desc: Desc, fs: seq<Field>, m: Message): (r: Message)
    requires Typed(desc, m)
    ensures Typed(desc, r)
    decreases |fs|
  {
    if fs == [] then m else Fold(desc, fs[1..], Update(desc, m, fs[0]))
  }

  /** A byte string decodes exactly when it splits into fields and every nested message among them decodes. */
  lemma {:induction false} RunIsFold(desc: Desc, b: Bytes, m: Message)
    requires Typed(desc, m)
    ensures Run(desc, b, m).err.None? <==> Tokenize(b).Some? && Accepts(desc, Tokenize(b).value)
    ensures Run(desc, b, m).err.None? ==> Run(desc, b, m).msg == Fold(desc, Tokenize(b).value, m)
    decreases |b|
  {
    if b != [] && Next(b).Got? {
      var f, rest := Next(b).val, b[Next(b).n..];
      var t := Tokenize(rest);
      if t.Some? {
        assert forall g :: g in [f] + t.value <==> g == f || g in t.value;
        assert ([f] + t.value)[1..] == t.value;
        assert f in [f] + t.value;
      }
      if Check(desc, f).None? {
        RunIsFold(desc, rest, Update(desc, m, f));
      }
    }
  }

  /** The payloads that reach one slot, in order. */
  function Payloads(spec: FieldSpec, fs: seq<Field>): (ps: seq<Payload>)
    ensures forall i :: 0 <= i < |ps| ==> ps[i].Type() == WireType(spec.kind)
  {
    if fs == [] then []
    else if Matches(spec, fs[0]) then [fs[0].payload] + Payloads(spec, fs[1..])
    else Payloads(spec, fs[1..])
  }

  function AbsorbAll(kind: Kind, s: Slot, ps: seq<Payload>): (r: Slot)
    requires TypedSlot(kind, s)
    requires forall i :: 0 <= i < |ps| ==> ps[i].Type() == WireType(kind)
    ensures TypedSlot(kind, r)
    decreases |ps|
  {
    if ps == [] then s else AbsorbAll(kind, Absorb(kind, s, ps[0]), ps[1..])
  }

  /** Each slot is a function of its own payloads alone. */
  lemma {:induction false} FoldBySlot(desc: Desc, fs: seq<Field>, m: Message, i: nat)
    requires WellFormed(desc) && Typed(desc, m) && i < |desc|
    ensures Fold(desc, fs, m)[i] == AbsorbAll(desc[i].kind, m[i], Payloads(desc[i], fs))
    decreases |fs|
  {
    if fs != [] {
      FoldBySlot(desc, fs[1..], Update(desc, m, fs[0]), i);
      if Matches(desc[i], fs[0]) {
        FindIs(desc, fs[0], i);
        var ps := Payloads(desc[i], fs);
        assert ps[0] == fs[0].payload && ps[1..] == Payloads(desc[i], fs[1..]);
      }
    }
  }

  // ---------- What a slot's payloads add up to ----------

  predicate Replaces(kind: Kind) {
    !kind.KStrings? && !kind.KMessages? && !kind.KMap?
  }

  /** Scalars and packed lists: the last one wins; an earlier packed chunk is dropped, not extended. */
  lemma {:induction false} LastOneWins(kind: Kind, s: Slot, ps: seq<Payload>)
    requires Replaces(kind) && TypedSlot(kind, s) && ps != []
    requires forall i :: 0 <= i < |ps| ==> ps[i].Type() == WireType(kind)
    ensures AbsorbAll(kind, s, ps) == Absorb(kind, Zero(kind), ps[|ps| - 1])
    decreases |ps|
  {
    if |ps| > 1 {
      LastOneWins(kind, Absorb(kind, s, ps[0]), ps[1..]);
    }
  }

  lemma {:induction false} StringsConcatenate(s: Slot, ps: seq<Payload>)
    requires s.SStrings? && forall i :: 0 <= i < |ps| ==> ps[i].PBytes?
    ensures AbsorbAll(KStrings, s, ps) == SStrings(s.ss + seq(|ps|, i requires 0 <= i < |ps| => ps[i].bs))
    decreases |ps|
  {
    if ps != [] {
      StringsConcatenate(Absorb(KStrings, s, ps[0]), ps[1..]);
      assert s.ss + [ps[0].bs] + seq(|ps| - 1, i requires 0 <= i < |ps| - 1 => ps[1..][i].bs)
          == s.ss + seq(|ps|, i requires 0 <= i < |ps| => ps[i].bs);
    }
  }

  lemma {:induction false} MessagesConcatenate(sub: Desc, s: Slot, ps: seq<Payload>)
    requires TypedSlot(KMessages(sub), s) && forall i :: 0 <= i < |ps| ==> ps[i].PBytes?
    ensures AbsorbAll(KMessages(sub), s, ps)
         == SMessages(s.ms + seq(|ps|, i requires 0 <= i < |ps| => Run(sub, ps[i].bs, Fresh(sub)).msg))
    decreases |ps|
  {
    if ps != [] {
      var t := Absorb(KMessages(sub), s, ps[0]);
      MessagesConcatenate(sub, t, ps[1..]);
      assert t.ms + seq(|ps| - 1, i requires 0 <= i < |ps| - 1 => Run(sub, ps[1..][i].bs, Fresh(sub)).msg)
          == s.ms + seq(|ps|, i requires 0 <= i < |ps| => Run(sub, ps[i].bs, Fresh(sub)).msg);
    }
  }

  /** The value of the last entry that spells this key. */
  function LastEntry(ps: seq<Payload>, k: Bytes): Option<Bytes>
    requires forall i :: 0 <= i < |ps| ==> ps[i].PBytes?
  {
    if ps == [] then None
    else
      var (key, v) := StringPair(ps[|ps| - 1].bs, [], []);
      if key == k then Some(v) else LastEntry(ps[..|ps| - 1], k)
  }

  lemma {:induction false} AbsorbAllLast(kind: Kind, s: Slot, ps: seq<Payload>)
    requires TypedSlot(kind, s) && ps != []
    requires forall i :: 0 <= i < |ps| ==> ps[i].Type() == WireType(kind)
    ensures AbsorbAll(kind, s, ps) == Absorb(kind, AbsorbAll(kind, s, ps[..|ps| - 1]), ps[|ps| - 1])
    decreases |ps|
  {
    if |ps| > 1 {
      var init := ps[..|ps| - 1];
      AbsorbAllLast(kind, Absorb(kind, s, ps[0]), ps[1..]);
      assert ps[1..][..|ps| - 2] == init[1..] && init[0] == ps[0];
    }
  }

  /** Map fields: per key, the last entry wins; keys no entry spells keep their value. */
  lemma {:induction false} LastEntryWins(s: Slot, ps: seq<Payload>, k: Bytes)
    requires s.SMap? && forall i :: 0 <= i < |ps| ==> ps[i].PBytes?
    ensures var r := AbsorbAll(KMap, s, ps);
            var e := LastEntry(ps, k);
            && (k in r.m <==> k in s.m || e.Some?)
            && (k in r.m ==> r.m[k] == if e.Some? then e.value else s.m[k])
    decreases |ps|
  {
    if ps != [] {
      AbsorbAllLast(KMap, s, ps);
      LastEntryWins(s, ps[..|ps| - 1], k);
    }
  }

  // ---------- Field order ----------

  function Project(fs: seq<Field>, num: nat): (gs: seq<Field>)
    ensures forall f :: f in gs <==> f in fs && f.num == num
  {
    if fs == [] then []
    else if fs[0].num == num then [fs[0]] + Project(fs[1..], num)
    else Project(fs[1..], num)
  }

  lemma {:induction false} PayloadsOfProject(spec: FieldSpec, fs: seq<Field>)
    ensures Payloads(spec, Project(fs, spec.num)) == Payloads(spec, fs)
  {
    if fs != [] {
      PayloadsOfProject(spec, fs[1..]);
      if fs[0].num == spec.num {
        assert Project(fs, spec.num)[1..] == Project(fs[1..], spec.num);
      }
    }
  }

  ghost predicate SamePerNumber(fs: seq<Field>, gs: seq<Field>) {
    forall num: nat :: Project(fs, num) == Project(gs, num)
  }

  /** Two byte strings whose fields agree number by number decode alike, however the numbers interleave. */
  lemma FieldOrderIrrelevant(desc: Desc, b: Bytes, c: Bytes, m: Message)
    requires WellFormed(desc) && Typed(desc, m)
    requires Tokenize(b).Some? && Tokenize(c).Some?
    requires SamePerNumber(Tokenize(b).value, Tokenize(c).value)
    ensures Run(desc, b, m).err.None? <==> Run(desc, c, m).err.None?
    ensures Run(desc, b, m).err.None? ==> Run(desc, b, m).msg == Run(desc, c, m).msg
  {
    var fs, gs := Tokenize(b).value, Tokenize(c).value;
    forall f: Field
      ensures f in fs <==> f in gs
    {
      assert f in Project(fs, f.num) <==> f in Project(gs, f.num);
    }
    RunIsFold(desc, b, m);
    RunIsFold(desc, c, m);
    forall i | 0 <= i < |desc|
      ensures Fold(desc, fs, m)[i] == Fold(desc, gs, m)[i]
    {
      FoldBySlot(desc, fs, m, i);
      FoldBySlot(desc, gs, m, i);
      PayloadsOfProject(desc[i], fs);
      PayloadsOfProject(desc[i], gs);
    }
  }

  lemma TokenizeOne(x: Bytes, b: Bytes)
    requires Next(x).Got? && Next(x).n == |x|
    ensures Tokenize(x + b) == if Tokenize(b).Some? then Some([Next(x).val] + Tokenize(b).value) else None
  {
    NextStable(x, b);
    assert (x + b)[|x|..] == b;
  }

  lemma SwapIsSamePerNumber(f: Field, g: Field, rest: seq<Field>)
    requires f.num != g.num
    ensures SamePerNumber([f] + ([g] + rest), [g] + ([f] + rest))
  {
    forall num: nat
      ensures Project([f] + ([g] + rest), num) == Project([g] + ([f] + rest), num)
    {
      ProjectFirst(f, [g] + rest, num);
      ProjectFirst(g, rest, num);
      ProjectFirst(g, [f] + rest, num);
      ProjectFirst(f, rest, num);
    }
  }

  lemma ProjectFirst(f: Field, fs: seq<Field>, num: nat)
    ensures Project([f] + fs, num) == (if f.num == num then [f] else []) + Project(fs, num)
  {
    assert ([f] + fs)[1..] == fs;
  }

  lemma TokenizeTwo(x: Bytes, y: Bytes, b: Bytes)
    requires Next(x).Got? && Next(x).n == |x| && Next(y).Got? && Next(y).n == |y|
    ensures Tokenize(x + (y + b))
         == if Tokenize(b).Some? then Some([Next(x).val] + ([Next(y).val] + Tokenize(b).value)) else None
  {
    TokenizeOne(x, y + b);
    TokenizeOne(y, b);
  }

  lemma SwapFirstTwo(desc: Desc, x: Bytes, y: Bytes, b: Bytes, m: Message)
    requires WellFormed(desc) && Typed(desc, m)
    requires Next(x).Got? && Next(x).n == |x| && Next(y).Got? && Next(y).n == |y|
    requires Next(x).val.num != Next(y).val.num
    ensures Run(desc, x + (y + b), m).err.None? ==> Run(desc, y + (x + b), m) == Run(desc, x + (y + b), m)
  {
    var p, q := x + (y + b), y + (x + b);
    TokenizeTwo(x, y, b);
    TokenizeTwo(y, x, b);
    if Tokenize(b).Some? {
      SwapIsSamePerNumber(Next(x).val, Next(y).val, Tokenize(b).value);
      FieldOrderIrrelevant(desc, p, q, m);
    } else {
      RunIsFold(desc, p, m);
    }
  }

  lemma Regroup(a: Bytes, x: Bytes, y: Bytes, b: Bytes)
    ensures a + x + y + b == a + (x + (y + b))
  {
  }

  /** Adjacent fields with different numbers may trade places. */
  lemma AdjacentFieldsCommute(desc: Desc, a: Bytes, x: Bytes, y: Bytes, b: Bytes, m: Message)
    requires WellFormed(desc) && Typed(desc, m)
    requires Run(desc, a, m).err.None? && Run(desc, a + x + y + b, m).err.None?
    requires Next(x).Got? && Next(x).n == |x| && Next(y).Got? && Next(y).n == |y|
    requires Next(x).val.num != Next(y).val.num
    ensures Run(desc, a + y + x + b, m) == Run(desc, a + x + y + b, m)
  {
    Regroup(a, x, y, b);
    Regroup(a, y, x, b);
    var p, q := x + (y + b), y + (x + b);
    Merge(desc, a, p, m);
    Merge(desc, a, q, m);
    SwapFirstTwo(desc, x, y, b, Run(desc, a, m).msg);
  }
}
