/** Repeated doubles as the codecs read them and as the encoding specification would. */
module PackedLists {
  import opened Wire
  import opened Schema
  import opened Decoding

  /** What the specification makes of a repeated double field: chunks and single doubles all extend the list. */
  function Extended(num: nat, fs: seq<Field>, ds: seq<U64>): seq<U64>
    decreases |fs|
  {
    if fs == [] then ds
    else if fs[0].num == num && fs[0].payload.PBytes? then Extended(num, fs[1..], ds + Unpack(fs[0].payload.bs))
    else if fs[0].num == num && fs[0].payload.PFixed64? then Extended(num, fs[1..], ds + [fs[0].payload.bits])
    else Extended(num, fs[1..], ds)
  }

  predicate IsChunk(f: Field, num: nat) { f.num == num && f.payload.PBytes? }

  predicate IsDouble(f: Field, num: nat) { f.num == num && f.payload.PFixed64? }

  ghost predicate HasChunk(num: nat, fs: seq<Field>) {
    exists i :: 0 <= i < |fs| && IsChunk(fs[i], num)
  }

  /** No double comes unpacked, and what a chunk finds is empty: the message's list, and every chunk before it. */
  ghost predicate OneChunkOnly(num: nat, fs: seq<Field>, ds: seq<U64>) {
    && (forall i :: 0 <= i < |fs| ==> !IsDouble(fs[i], num))
    && (HasChunk(num, fs) ==> ds == [])
    && (forall i, j :: 0 <= i < j < |fs| && IsChunk(fs[i], num) && IsChunk(fs[j], num) ==> |fs[i].payload.bs| < 8)
  }

  /** What the code makes of it. */
  function Kept(num: nat, fs: seq<Field>, ds: seq<U64>): seq<U64>
    decreases |fs|
  {
    if fs == [] then ds
    else Kept(num, fs[1..], if IsChunk(fs[0], num) then Unpack(fs[0].payload.bs) else ds)
  }

  lemma {:induction false} KeptIsAbsorbed(num: nat, fs: seq<Field>, ds: seq<U64>)
    ensures AbsorbAll(KPacked, SPacked(ds), Payloads(FieldSpec(num, KPacked), fs)) == SPacked(Kept(num, fs, ds))
    decreases |fs|
  {
    if fs != [] {
      var ps := Payloads(FieldSpec(num, KPacked), fs[1..]);
      if IsChunk(fs[0], num) {
        assert ([fs[0].payload] + ps)[1..] == ps;
      }
      KeptIsAbsorbed(num, fs[1..], if IsChunk(fs[0], num) then Unpack(fs[0].payload.bs) else ds);
    }
  }

  lemma HasChunkStep(num: nat, fs: seq<Field>)
    requires fs != []
    ensures HasChunk(num, fs) <==> IsChunk(fs[0], num) || HasChunk(num, fs[1..])
  {
    if HasChunk(num, fs[1..]) {
      var i :| 0 <= i < |fs[1..]| && IsChunk(fs[1..][i], num);
      assert IsChunk(fs[i + 1], num);
    }
    if HasChunk(num, fs) {
      var i :| 0 <= i < |fs| && IsChunk(fs[i], num);
      assert i > 0 ==> IsChunk(fs[1..][i - 1], num);
    }
  }

  lemma {:induction false} KeptFrom(num: nat, fs: seq<Field>, ds: seq<U64>, es: seq<U64>)
    ensures HasChunk(num, fs) ==> Kept(num, fs, ds) == Kept(num, fs, es)
    ensures !HasChunk(num, fs) ==> Kept(num, fs, ds) == ds
    decreases |fs|
  {
    hide HasChunk;
    if fs == [] {
      NoChunk(num);
    } else {
      HasChunkStep(num, fs);
      if !IsChunk(fs[0], num) {
        KeptFrom(num, fs[1..], ds, es);
      } else {
        KeptFrom(num, fs[1..], Unpack(fs[0].payload.bs), es);
      }
    }
  }

  lemma NoChunk(num: nat)
    ensures !HasChunk(num, [])
  {
  }

  /** The specification's list is at least as long as the code's, and by the length of what the code dropped. */
  lemma {:induction false} ExtendedLength(num: nat, fs: seq<Field>, ds: seq<U64>)
    ensures |Extended(num, fs, ds)| >= |ds| + if HasChunk(num, fs) then |Kept(num, fs, ds)| else 0
    decreases |fs|
  {
    hide HasChunk, Unpack;
    if fs == [] {
      NoChunk(num);
    } else {
      HasChunkStep(num, fs);
      var next := if IsChunk(fs[0], num) then ds + Unpack(fs[0].payload.bs)
                  else if IsDouble(fs[0], num) then ds + [fs[0].payload.bits] else ds;
      ExtendedLength(num, fs[1..], next);
      KeptFrom(num, fs[1..], if IsChunk(fs[0], num) then Unpack(fs[0].payload.bs) else ds, next);
    }
  }

  lemma OneChunkStep(num: nat, fs: seq<Field>, ds: seq<U64>)
    requires fs != []
    ensures var rest := fs[1..];
            OneChunkOnly(num, fs, ds) <==>
              if IsDouble(fs[0], num) then false
              else if IsChunk(fs[0], num) then
                ds == [] && (HasChunk(num, rest) ==> |fs[0].payload.bs| < 8) && OneChunkOnly(num, rest, [])
              else OneChunkOnly(num, rest, ds)
  {
    var rest := fs[1..];
    HasChunkStep(num, fs);
    assert forall i :: 0 <= i < |rest| ==> rest[i] == fs[i + 1];
    assert forall i :: 0 < i < |fs| ==> fs[i] == rest[i - 1];
    if OneChunkOnly(num, fs, ds) && IsChunk(fs[0], num) && HasChunk(num, rest) {
      var j :| 0 <= j < |rest| && IsChunk(rest[j], num);
      assert IsChunk(fs[j + 1], num);
    }
  }

  lemma {:induction false} KeptIsExtendedIff(num: nat, fs: seq<Field>, ds: seq<U64>)
    ensures Kept(num, fs, ds) == Extended(num, fs, ds) <==> OneChunkOnly(num, fs, ds)
    decreases |fs|
  {
    hide HasChunk, OneChunkOnly;
    if fs == [] {
      NothingToExtend(num, ds);
    } else {
      var f, rest := fs[0], fs[1..];
      OneChunkStep(num, fs, ds);
      if IsDouble(f, num) {
        ExtendedLength(num, rest, ds + [f.payload.bits]);
        KeptFrom(num, rest, ds, ds + [f.payload.bits]);
      } else if IsChunk(f, num) {
        var u := Unpack(f.payload.bs);
        KeptIsExtendedIff(num, rest, ds + u);
        KeptFrom(num, rest, u, ds + u);
        ExtendedLength(num, rest, ds + u);
        FirstChunkOnly(num, rest, ds + u);
        assert ds == [] ==> ds + u == u;
      } else {
        KeptIsExtendedIff(num, rest, ds);
      }
    }
  }

  lemma NothingToExtend(num: nat, ds: seq<U64>)
    ensures OneChunkOnly(num, [], ds)
  {
  }

  lemma FirstChunkOnly(num: nat, fs: seq<Field>, ds: seq<U64>)
    ensures OneChunkOnly(num, fs, ds) <==> OneChunkOnly(num, fs, []) && (HasChunk(num, fs) ==> ds == [])
  {
  }

  /** The code decodes a packed field as the specification says if and only if no double comes unpacked and no list
      is non-empty when a chunk arrives: neither the message's own nor an earlier chunk's. */
  lemma PackedAsSpecifiedIff(num: nat, fs: seq<Field>, ds: seq<U64>)
    ensures AbsorbAll(KPacked, SPacked(ds), Payloads(FieldSpec(num, KPacked), fs)) == SPacked(Extended(num, fs, ds))
            <==> OneChunkOnly(num, fs, ds)
  {
    hide Kept, Extended, OneChunkOnly;
    KeptIsAbsorbed(num, fs, ds);
    KeptIsExtendedIff(num, fs, ds);
  }
}
