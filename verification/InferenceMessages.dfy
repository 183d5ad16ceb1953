/** The messages of the inference service: their descriptors, and the classes whose methods marshal and
    unmarshal them.  The methods hide the definitions they only pass along, to keep their proofs small. */
module InferenceMessages {
  import opened Base
  import opened Wire
  import opened Schema
  import opened RoundTrip
  import opened Fields
  import Format

  type Int32 = x: int | -0x8000_0000 <= x < 0x8000_0000
  type Int64 = x: int | -0x8000_0000_0000_0000 <= x < 0x8000_0000_0000_0000

  const CHAT_MESSAGE: Desc := [
    FieldSpec(1, KString),
    FieldSpec(2, KString)
  ]

  /** A string of less than 128 bytes behind a one-byte key; nothing for the empty one. */
  function ShortString(key: Byte, s: Bytes): Bytes
    requires |s| < 128
  {
    if s == [] then [] else [key, |s|] + s
  }

  lemma ShortPiece(num: nat, s: Bytes, p: Bytes)
    requires 1 <= num <= 15 && |s| < 128
    ensures Format.Piece(num, KString, SString(s), p) <==> p == ShortString(8 * num + 2, s)
  {
    hide FieldBytes, Format.BytesRecord;
    Format.SmallRecords(num, s, 0, 0);
    Format.BytesRecordIs(num, s, p);
  }

  lemma ShortChatSpells(m: Message, role: Bytes, content: Bytes, b: Bytes)
    requires m == [SString(role), SString(content)] && |role| < 128 && |content| < 128
    ensures Typed(CHAT_MESSAGE, m)
    ensures Format.Spells(CHAT_MESSAGE, m, b) <==> b == ShortString(0x0a, role) + ShortString(0x12, content)
  {
    hide Format.Piece, Format.Flat, ShortString;
    var p, q := ShortString(0x0a, role), ShortString(0x12, content);
    ShortPiece(1, role, p);
    ShortPiece(2, content, q);
    FlatTwo(p, q);
    if b == p + q {
      var ps := [p, q];
      assert Format.Piece(1, KString, m[0], ps[0]) && Format.Piece(2, KString, m[1], ps[1]);
    }
    if Format.Spells(CHAT_MESSAGE, m, b) {
      var ps: seq<Bytes> :| |ps| == |CHAT_MESSAGE| && b == Format.Flat(ps)
        && forall i :: 0 <= i < |ps| ==> Format.Piece(CHAT_MESSAGE[i].num, CHAT_MESSAGE[i].kind, m[i], ps[i]);
      ShortPiece(1, role, ps[0]);
      ShortPiece(2, content, ps[1]);
      assert ps == [p, q];
    }
  }

  lemma FlatTwo(p: Bytes, q: Bytes)
    ensures Format.Flat([p, q]) == p + q
  {
    assert [p, q][..1] == [p] && [p][..0] == [];
    assert Format.Flat([p]) == p;
  }

  class ChatMessage {
    var role: Bytes
    var content: Bytes

    ghost function SlotAt(i: nat): Slot
      reads this
    {
      match i
      case 0 => SString(role)
      case _ => SString(content)
    }

    ghost function View(): (m: Message)
      reads this
      ensures |m| == |CHAT_MESSAGE|
    {
      seq(2, i requires 0 <= i reads this => SlotAt(i))
    }

    lemma ViewTyped()
      ensures Typed(CHAT_MESSAGE, View())
    {
      hide View, SlotAt, CHAT_MESSAGE;
      Slots();
      Fields();
    }

    lemma ZeroIsFresh()
      requires role == [] && content == []
      ensures View() == Fresh(CHAT_MESSAGE)
    {
      hide View, SlotAt, CHAT_MESSAGE;
      Slots();
      Fields();
    }

    constructor ()
      ensures View() == Fresh(CHAT_MESSAGE)
    {
      hide View, SlotAt, Fresh;
      role := [];
      content := [];
      new;
      ZeroIsFresh();
    }

    static lemma Fields()
      ensures |CHAT_MESSAGE| == 2
      ensures CHAT_MESSAGE[0] == FieldSpec(1, KString)
      ensures CHAT_MESSAGE[1] == FieldSpec(2, KString)
    {
    }

    lemma Slots()
      ensures |View()| == 2
      ensures View()[0] == SString(role)
      ensures View()[1] == SString(content)
    {
    }

    /** A change of one field is a change of one slot. */
    twostate lemma OnlySlot(k: nat)
      requires k < 2
      requires k != 0 ==> role == old(role)
      requires k != 1 ==> content == old(content)
      ensures View() == old(View())[k := SlotAt(k)]
    {
    }

    /** Any result is an encoding of the message: byte for byte, it spells its fields in their order. */
    method MarshalProto() returns (b: Bytes)
      ensures Typed(CHAT_MESSAGE, View())
      ensures Encodes(CHAT_MESSAGE, View(), |CHAT_MESSAGE|, b) && Format.Spells(CHAT_MESSAGE, View(), b)
      ensures |role| < 128 && |content| < 128 ==> b == ShortString(0x0a, role) + ShortString(0x12, content)
    {
      hide Format.Spells;
      hide Encodes, SlotEncodes, FieldEncodes, Typed, TypedSlot, View, SlotAt, CHAT_MESSAGE;
      ViewTyped();
      Fields();
      Slots();
      ghost var m := View();
      b := [];
      EncodesNothing(CHAT_MESSAGE, m);
      b := AppendStringField(b, 1, role, CHAT_MESSAGE, m, 0);
      b := AppendStringField(b, 2, content, CHAT_MESSAGE, m, 1);
      Format.SpellsIsEncoding(CHAT_MESSAGE, m, b);
      if |role| < 128 && |content| < 128 {
        ShortChatSpells(m, role, content, b);
      }
    }

    static lemma DescriptorOk()
      ensures Numbered(CHAT_MESSAGE) && WellFormed(CHAT_MESSAGE)
    {
      NumberedIsWellFormed(CHAT_MESSAGE);
    }

    /** The cases of the decode switch are the descriptor's keys. */
    static lemma Switch(num: nat, typ: nat)
      requires num > 0
      ensures if (num in {1, 2} && typ == BYTES)
              then Known(CHAT_MESSAGE, num - 1, Key(num, typ))
              else forall i: nat :: !Known(CHAT_MESSAGE, i, Key(num, typ))
    {
      DescriptorOk();
      KnownByNumber(CHAT_MESSAGE, Key(num, typ));
    }

    /** The strings among the cases of the decode switch. */
    method TakeBytes(num: nat, v: Bytes)
      requires num in {1, 2} && Known(CHAT_MESSAGE, num - 1, Key(num, BYTES))
      requires Typed(CHAT_MESSAGE, View())
      modifies this
      ensures Refused(CHAT_MESSAGE, num - 1, num, PBytes(v)).None?
      ensures View() == Taken(CHAT_MESSAGE, num - 1, num, PBytes(v), old(View()))
    {
      hide Typed, TypedSlot, Run, Known, View, CHAT_MESSAGE;
      Fields();
      if num == 1 {
        role := v;
      } else if num == 2 {
        content := v;
      }
      OnlySlot(num - 1);
    }

    /** The decode loop changes the message as the descriptor says, up to the first error. */
    method UnmarshalProto(input: Bytes) returns (err: Option<Error>)
      modifies this
      ensures Typed(CHAT_MESSAGE, old(View()))
      ensures Outcome(View(), err) == Run(CHAT_MESSAGE, input, old(View()))
    {
      hide Run, Typed, WellFormed, Absorb, View, SlotAt, Check, Update, Taken;
      hide Refused, Known, ConsumeTag, ConsumeValue, ConsumeBytes, ConsumeVarint, ConsumeFixed64, Numbered;
      DescriptorOk();
      ViewTyped();
      var b := input;
      while b != []
        invariant Typed(CHAT_MESSAGE, View())
        invariant Run(CHAT_MESSAGE, b, View()) == Run(CHAT_MESSAGE, input, old(View()))
        decreases |b|
      {
        ghost var m := View();
        var t := ConsumeTag(b);
        if t.Bad? {
          TurnWithoutKey(CHAT_MESSAGE, b, m);
          return Some(t.err);
        }
        var num, typ, rest := t.val.num, t.val.typ, b[t.n..];
        Switch(num, typ);
        if num in {1, 2} && typ == BYTES {
          var v := ConsumeBytes(rest);
          if v.Bad? {
            TurnUnread(CHAT_MESSAGE, num - 1, b, m, t);
            return Some(v.err);
          }
          TurnKnown(CHAT_MESSAGE, num - 1, b, m, t, PBytes(v.val), v.n);
          TakeBytes(num, v.val);
          b := rest[v.n..];
        } else {
          TurnUnknown(CHAT_MESSAGE, b, m, t);
          var v := ConsumeValue(t.val, rest, RECURSION_LIMIT);
          if v.Bad? { return Some(v.err); }
          b := rest[v.n..];
        }
        ViewTyped();
      }
      NoMoreTurns(CHAT_MESSAGE, View());
      return None;
    }
  }

  ghost function Views(ms: seq<ChatMessage>): (r: seq<Message>)
    reads ms
    ensures |r| == |ms|
  {
    seq(|ms|, i requires 0 <= i < |ms| reads ms => ms[i].View())
  }

  lemma ViewsAppend(ms: seq<ChatMessage>, msg: ChatMessage)
    ensures Views(ms + [msg]) == Views(ms) + [msg.View()]
  {
  }

  lemma ViewsAt(ms: seq<ChatMessage>, i: nat, b: Bytes)
    requires i < |ms| && EncodesChat(ms[i].View(), b)
    ensures EncodesChat(Views(ms)[i], b)
  {
  }

  method AppendMessages(b: Bytes, num: nat, ms: seq<ChatMessage>, ghost desc: Desc, ghost m: Message, ghost k: nat)
    returns (c: Bytes)
    requires Ready(desc, m, k, b, num, KMessages(CHAT_MESSAGE)) && m[k] == SMessages(Views(ms))
    ensures Encodes(desc, m, k + 1, c)
  {
    hide Encodes, SlotEncodes, Typed, Views, Records;
    ghost var ps: seq<Payload> := [];
    c := b;
    NoRecords(b, num);
    for i := 0 to |ms|
      invariant |ps| == i && c == b + Records(num, ps)
      invariant forall j :: 0 <= j < i ==> ps[j].PBytes? && EncodesChat(Views(ms)[j], ps[j].bs)
    {
      var mb := ms[i].MarshalProto();
      ViewsAt(ms, i, mb);
      c := AppendRecord(c, num, mb, b, ps);
      ps := ps + [PBytes(mb)];
    }
    MessagesEncode(Views(ms), ps);
    Extend(desc, m, k, b, ps, c);
  }

  ghost predicate EncodesChat(m: Message, b: Bytes) {
    Typed(CHAT_MESSAGE, m) && Encodes(CHAT_MESSAGE, m, |CHAT_MESSAGE|, b)
  }

  lemma MessagesEncode(ms: seq<Message>, ps: seq<Payload>)
    requires |ps| == |ms| && forall j :: 0 <= j < |ps| ==> ps[j].PBytes? && EncodesChat(ms[j], ps[j].bs)
    ensures TypedSlot(KMessages(CHAT_MESSAGE), SMessages(ms))
    ensures SlotEncodes(KMessages(CHAT_MESSAGE), SMessages(ms), ps)
  {
  }

  /** A nil map has no entries. */
  function Entries(m: Option<map<Bytes, Bytes>>): map<Bytes, Bytes> {
    if m.Some? then m.value else map[]
  }

  method UnpackFixed64(input: Bytes) returns (out: seq<U64>)
    ensures out == Unpack(input)
  {
    var b := input;
    out := [];
    while |b| >= 8
      invariant out + Unpack(b) == Unpack(input)
    {
      out := out + [ConsumeFixed64(b).val];
      b := b[8..];
    }
  }

  const INFERENCE_REQUEST: Desc := [
    FieldSpec(1, KString),
    FieldSpec(2, KString),
    FieldSpec(3, KInt32),
    FieldSpec(4, KString),
    FieldSpec(5, KMessages(CHAT_MESSAGE)),
    FieldSpec(6, KStrings),
    FieldSpec(7, KString),
    FieldSpec(8, KInt32),
    FieldSpec(9, KBool),
    FieldSpec(10, KInt32),
    FieldSpec(11, KString),
    FieldSpec(12, KInt32),
    FieldSpec(13, KString),
    FieldSpec(14, KString),
    FieldSpec(15, KMap),
    FieldSpec(16, KInt64),
    FieldSpec(17, KInt64)
  ]

  class InferenceRequest {
    var requestId: Bytes
    var idempotencyKey: Bytes
    var taskType: Int32
    var prompt: Bytes
    var messages: seq<ChatMessage>
    var documents: seq<Bytes>
    var query: Bytes
    var maxTokens: Int32
    var stream: bool
    var priority: Int32
    var costBudget: Bytes
    var latencyTargetMs: Int32
    var tenantId: Bytes
    var apiKeyId: Bytes
    var metadata: Option<map<Bytes, Bytes>>
    var deadlineUnixMs: Int64
    var receivedAtMs: Int64

    ghost function SlotAt(i: nat): Slot
      reads this, messages
    {
      match i
      case 0 => SString(requestId)
      case 1 => SString(idempotencyKey)
      case 2 => SInt(taskType)
      case 3 => SString(prompt)
      case 4 => SMessages(Views(messages))
      case 5 => SStrings(documents)
      case 6 => SString(query)
      case 7 => SInt(maxTokens)
      case 8 => SBool(stream)
      case 9 => SInt(priority)
      case 10 => SString(costBudget)
      case 11 => SInt(latencyTargetMs)
      case 12 => SString(tenantId)
      case 13 => SString(apiKeyId)
      case 14 => SMap(Entries(metadata))
      case 15 => SInt(deadlineUnixMs)
      case _ => SInt(receivedAtMs)
    }

    ghost function View(): (m: Message)
      reads this, messages
      ensures |m| == |INFERENCE_REQUEST|
    {
      seq(17, i requires 0 <= i reads this, messages => SlotAt(i))
    }

    lemma ViewTyped()
      ensures Typed(INFERENCE_REQUEST, View())
    {
      hide View, SlotAt, INFERENCE_REQUEST;
      Slots();
      Fields();
    }

    lemma ZeroIsFresh()
      requires requestId == [] && idempotencyKey == [] && taskType == 0 && prompt == [] && messages == []
      requires documents == [] && query == [] && maxTokens == 0 && !stream && priority == 0
      requires costBudget == [] && latencyTargetMs == 0 && tenantId == [] && apiKeyId == [] && metadata == None
      requires deadlineUnixMs == 0 && receivedAtMs == 0
      ensures View() == Fresh(INFERENCE_REQUEST)
    {
      hide View, SlotAt, INFERENCE_REQUEST;
      Slots();
      Fields();
    }

    constructor ()
      ensures View() == Fresh(INFERENCE_REQUEST)
    {
      hide View, SlotAt, Fresh;
      requestId := [];
      idempotencyKey := [];
      taskType := 0;
      prompt := [];
      messages := [];
      documents := [];
      query := [];
      maxTokens := 0;
      stream := false;
      priority := 0;
      costBudget := [];
      latencyTargetMs := 0;
      tenantId := [];
      apiKeyId := [];
      metadata := None;
      deadlineUnixMs := 0;
      receivedAtMs := 0;
      new;
      ZeroIsFresh();
    }

    static lemma Fields()
      ensures |INFERENCE_REQUEST| == 17
      ensures INFERENCE_REQUEST[0] == FieldSpec(1, KString)
      ensures INFERENCE_REQUEST[1] == FieldSpec(2, KString)
      ensures INFERENCE_REQUEST[2] == FieldSpec(3, KInt32)
      ensures INFERENCE_REQUEST[3] == FieldSpec(4, KString)
      ensures INFERENCE_REQUEST[4] == FieldSpec(5, KMessages(CHAT_MESSAGE))
      ensures INFERENCE_REQUEST[5] == FieldSpec(6, KStrings)
      ensures INFERENCE_REQUEST[6] == FieldSpec(7, KString)
      ensures INFERENCE_REQUEST[7] == FieldSpec(8, KInt32)
      ensures INFERENCE_REQUEST[8] == FieldSpec(9, KBool)
      ensures INFERENCE_REQUEST[9] == FieldSpec(10, KInt32)
      ensures INFERENCE_REQUEST[10] == FieldSpec(11, KString)
      ensures INFERENCE_REQUEST[11] == FieldSpec(12, KInt32)
      ensures INFERENCE_REQUEST[12] == FieldSpec(13, KString)
      ensures INFERENCE_REQUEST[13] == FieldSpec(14, KString)
      ensures INFERENCE_REQUEST[14] == FieldSpec(15, KMap)
      ensures INFERENCE_REQUEST[15] == FieldSpec(16, KInt64)
      ensures INFERENCE_REQUEST[16] == FieldSpec(17, KInt64)
    {
    }

    lemma Slots()
      ensures |View()| == 17
      ensures View()[0] == SString(requestId)
      ensures View()[1] == SString(idempotencyKey)
      ensures View()[2] == SInt(taskType)
      ensures View()[3] == SString(prompt)
      ensures View()[4] == SMessages(Views(messages))
      ensures View()[5] == SStrings(documents)
      ensures View()[6] == SString(query)
      ensures View()[7] == SInt(maxTokens)
      ensures View()[8] == SBool(stream)
      ensures View()[9] == SInt(priority)
      ensures View()[10] == SString(costBudget)
      ensures View()[11] == SInt(latencyTargetMs)
      ensures View()[12] == SString(tenantId)
      ensures View()[13] == SString(apiKeyId)
      ensures View()[14] == SMap(Entries(metadata))
      ensures View()[15] == SInt(deadlineUnixMs)
      ensures View()[16] == SInt(receivedAtMs)
    {
    }

    /** A change of one field is a change of one slot. */
    twostate lemma OnlySlot(k: nat)
      requires k < 17
      requires k != 0 ==> requestId == old(requestId)
      requires k != 1 ==> idempotencyKey == old(idempotencyKey)
      requires k != 2 ==> taskType == old(taskType)
      requires k != 3 ==> prompt == old(prompt)
      requires k != 4 ==> messages == old(messages) && Views(messages) == old(Views(messages))
      requires k != 5 ==> documents == old(documents)
      requires k != 6 ==> query == old(query)
      requires k != 7 ==> maxTokens == old(maxTokens)
      requires k != 8 ==> stream == old(stream)
      requires k != 9 ==> priority == old(priority)
      requires k != 10 ==> costBudget == old(costBudget)
      requires k != 11 ==> latencyTargetMs == old(latencyTargetMs)
      requires k != 12 ==> tenantId == old(tenantId)
      requires k != 13 ==> apiKeyId == old(apiKeyId)
      requires k != 14 ==> metadata == old(metadata)
      requires k != 15 ==> deadlineUnixMs == old(deadlineUnixMs)
      requires k != 16 ==> receivedAtMs == old(receivedAtMs)
      ensures View() == old(View())[k := SlotAt(k)]
    {
    }

    /** Any result is an encoding of the message: byte for byte, it spells its fields in their order. */
    method MarshalProto() returns (b: Bytes)
      ensures Typed(INFERENCE_REQUEST, View())
      ensures Encodes(INFERENCE_REQUEST, View(), |INFERENCE_REQUEST|, b) && Format.Spells(INFERENCE_REQUEST, View(), b)
    {
      hide Format.Spells;
      hide Encodes, SlotEncodes, FieldEncodes, Typed, TypedSlot, Views, View, SlotAt, INFERENCE_REQUEST;
      ViewTyped();
      Fields();
      Slots();
      ghost var m := View();
      b := [];
      EncodesNothing(INFERENCE_REQUEST, m);
      b := AppendStringField(b, 1, requestId, INFERENCE_REQUEST, m, 0);
      b := AppendStringField(b, 2, idempotencyKey, INFERENCE_REQUEST, m, 1);
      b := AppendIntField(b, 3, taskType, INFERENCE_REQUEST, m, 2);
      b := AppendStringField(b, 4, prompt, INFERENCE_REQUEST, m, 3);
      b := AppendMessages(b, 5, messages, INFERENCE_REQUEST, m, 4);
      b := AppendStringsField(b, 6, documents, INFERENCE_REQUEST, m, 5);
      b := AppendStringField(b, 7, query, INFERENCE_REQUEST, m, 6);
      b := AppendIntField(b, 8, maxTokens, INFERENCE_REQUEST, m, 7);
      b := AppendBoolField(b, 9, stream, INFERENCE_REQUEST, m, 8);
      b := AppendIntField(b, 10, priority, INFERENCE_REQUEST, m, 9);
      b := AppendStringField(b, 11, costBudget, INFERENCE_REQUEST, m, 10);
      b := AppendIntField(b, 12, latencyTargetMs, INFERENCE_REQUEST, m, 11);
      b := AppendStringField(b, 13, tenantId, INFERENCE_REQUEST, m, 12);
      b := AppendStringField(b, 14, apiKeyId, INFERENCE_REQUEST, m, 13);
      b := AppendMapField(b, 15, Entries(metadata), INFERENCE_REQUEST, m, 14);
      b := AppendIntField(b, 16, deadlineUnixMs, INFERENCE_REQUEST, m, 15);
      b := AppendIntField(b, 17, receivedAtMs, INFERENCE_REQUEST, m, 16);
      Format.SpellsIsEncoding(INFERENCE_REQUEST, m, b);
    }

    static lemma DescriptorOk()
      ensures Numbered(INFERENCE_REQUEST) && WellFormed(INFERENCE_REQUEST)
    {
      ChatMessage.DescriptorOk();
      assert forall i :: 0 <= i < |INFERENCE_REQUEST| && INFERENCE_REQUEST[i].kind.KMessages? ==>
        INFERENCE_REQUEST[i].kind.sub == CHAT_MESSAGE;
      NumberedIsWellFormed(INFERENCE_REQUEST);
    }

    /** The cases of the decode switch are the descriptor's keys. */
    static lemma Switch(num: nat, typ: nat)
      requires num > 0
      ensures if
                || (num in {1, 2, 4, 6, 7, 11, 13, 14} && typ == BYTES)
                || (num == 5 && typ == BYTES)
                || (num == 15 && typ == BYTES)
                || (num in {3, 8, 9, 10, 12, 16, 17} && typ == VARINT)
              then Known(INFERENCE_REQUEST, num - 1, Key(num, typ))
              else forall i: nat :: !Known(INFERENCE_REQUEST, i, Key(num, typ))
    {
      DescriptorOk();
      KnownByNumber(INFERENCE_REQUEST, Key(num, typ));
    }

    /** The strings among the cases of the decode switch. */
    method TakeBytes(num: nat, v: Bytes)
      requires num in {1, 2, 4, 7, 11, 13, 14} && Known(INFERENCE_REQUEST, num - 1, Key(num, BYTES))
      requires Typed(INFERENCE_REQUEST, View())
      modifies this
      ensures Refused(INFERENCE_REQUEST, num - 1, num, PBytes(v)).None?
      ensures View() == Taken(INFERENCE_REQUEST, num - 1, num, PBytes(v), old(View()))
      ensures metadata.Some? == old(metadata.Some?)
    {
      hide Typed, TypedSlot, Run, Known, Views, View, INFERENCE_REQUEST;
      Fields();
      if num == 1 {
        requestId := v;
      } else if num == 2 {
        idempotencyKey := v;
      } else if num == 4 {
        prompt := v;
      } else if num == 7 {
        query := v;
      } else if num == 11 {
        costBudget := v;
      } else if num == 13 {
        tenantId := v;
      } else if num == 14 {
        apiKeyId := v;
      }
      OnlySlot(num - 1);
    }

    /** The repeated strings among the cases of the decode switch. */
    method TakeDocument(num: nat, v: Bytes)
      requires num == 6 && Known(INFERENCE_REQUEST, num - 1, Key(num, BYTES))
      requires Typed(INFERENCE_REQUEST, View())
      modifies this
      ensures Refused(INFERENCE_REQUEST, num - 1, num, PBytes(v)).None?
      ensures View() == Taken(INFERENCE_REQUEST, num - 1, num, PBytes(v), old(View()))
      ensures metadata.Some? == old(metadata.Some?)
    {
      hide Typed, TypedSlot, Run, Known, Views, View, INFERENCE_REQUEST;
      Slots();
      Fields();
      documents := documents + [v];
      OnlySlot(num - 1);
    }

    /** The nested messages among the cases of the decode switch. */
    method TakeMessage(num: nat, v: Bytes) returns (err: Option<Error>)
      requires num == 5 && Known(INFERENCE_REQUEST, num - 1, Key(num, BYTES))
      requires Typed(INFERENCE_REQUEST, View())
      modifies this
      ensures err == Refused(INFERENCE_REQUEST, num - 1, num, PBytes(v))
      ensures err.Some? ==> View() == old(View())
      ensures err.None? ==> View() == Taken(INFERENCE_REQUEST, num - 1, num, PBytes(v), old(View()))
      ensures metadata.Some? == old(metadata.Some?)
    {
      hide Typed, TypedSlot, Run, Known, Views, View, INFERENCE_REQUEST;
      Slots();
      Fields();
      err := None;
      var msg := new ChatMessage();
      err := msg.UnmarshalProto(v);
      if err.Some? { return; }
      messages := messages + [msg];
      ViewsAppend(old(messages), msg);
      OnlySlot(num - 1);
    }

    /** The map entries among the cases of the decode switch. */
    method TakeEntry(num: nat, v: Bytes)
      requires num == 15 && Known(INFERENCE_REQUEST, num - 1, Key(num, BYTES))
      requires Typed(INFERENCE_REQUEST, View())
      requires metadata.Some?
      modifies this
      ensures Refused(INFERENCE_REQUEST, num - 1, num, PBytes(v)).None?
      ensures View() == Taken(INFERENCE_REQUEST, num - 1, num, PBytes(v), old(View()))
      ensures metadata.Some? == old(metadata.Some?)
    {
      hide Typed, TypedSlot, Run, Known, Views, View, INFERENCE_REQUEST;
      Slots();
      Fields();
      var (key, value) := StringPair(v, [], []);
      metadata := Some(metadata.value[key := value]);
      OnlySlot(num - 1);
    }

    /** The integers, enums and booleans among the cases of the decode switch. */
    method TakeVarint(num: nat, v: U64)
      requires num in {3, 8, 9, 10, 12, 16, 17} && Known(INFERENCE_REQUEST, num - 1, Key(num, VARINT))
      requires Typed(INFERENCE_REQUEST, View())
      modifies this
      ensures Refused(INFERENCE_REQUEST, num - 1, num, PVarint(v)).None?
      ensures View() == Taken(INFERENCE_REQUEST, num - 1, num, PVarint(v), old(View()))
      ensures metadata.Some? == old(metadata.Some?)
    {
      hide Typed, TypedSlot, Run, Known, Views, View, INFERENCE_REQUEST;
      Fields();
      if num == 3 {
        taskType := ToInt32(v);
      } else if num == 8 {
        maxTokens := ToInt32(v);
      } else if num == 9 {
        stream := v != 0;
      } else if num == 10 {
        priority := ToInt32(v);
      } else if num == 12 {
        latencyTargetMs := ToInt32(v);
      } else if num == 16 {
        deadlineUnixMs := ToInt64(v);
      } else if num == 17 {
        receivedAtMs := ToInt64(v);
      }
      OnlySlot(num - 1);
    }

    method MakeMetadata()
      modifies this
      ensures View() == old(View()) && metadata.Some?
    {
      if metadata.None? {
        metadata := Some(map[]);
      }
      assert forall i: nat :: SlotAt(i) == old(SlotAt(i));
    }

    /** The decode loop changes the message as the descriptor says, up to the first error. */
    method UnmarshalProto(input: Bytes) returns (err: Option<Error>)
      modifies this
      ensures Typed(INFERENCE_REQUEST, old(View()))
      ensures Outcome(View(), err) == Run(INFERENCE_REQUEST, input, old(View()))
      ensures metadata.Some?
    {
      hide Run, Typed, WellFormed, Absorb, View, SlotAt, Check, Update, Taken;
      hide Refused, Known, ConsumeTag, ConsumeValue, ConsumeBytes, ConsumeVarint, ConsumeFixed64, Numbered;
      DescriptorOk();
      ViewTyped();
      MakeMetadata();
      var b := input;
      while b != []
        invariant Typed(INFERENCE_REQUEST, View())
        invariant Run(INFERENCE_REQUEST, b, View()) == Run(INFERENCE_REQUEST, input, old(View()))
        invariant metadata.Some?
        decreases |b|
      {
        ghost var m := View();
        var t := ConsumeTag(b);
        if t.Bad? {
          TurnWithoutKey(INFERENCE_REQUEST, b, m);
          return Some(t.err);
        }
        var num, typ, rest := t.val.num, t.val.typ, b[t.n..];
        Switch(num, typ);
        if num in {1, 2, 4, 6, 7, 11, 13, 14} && typ == BYTES {
          var v := ConsumeBytes(rest);
          if v.Bad? {
            TurnUnread(INFERENCE_REQUEST, num - 1, b, m, t);
            return Some(v.err);
          }
          TurnKnown(INFERENCE_REQUEST, num - 1, b, m, t, PBytes(v.val), v.n);
          if num == 6 {
            TakeDocument(num, v.val);
          } else {
            TakeBytes(num, v.val);
          }
          b := rest[v.n..];
        } else if num == 5 && typ == BYTES {
          var v := ConsumeBytes(rest);
          if v.Bad? {
            TurnUnread(INFERENCE_REQUEST, num - 1, b, m, t);
            return Some(v.err);
          }
          TurnKnown(INFERENCE_REQUEST, num - 1, b, m, t, PBytes(v.val), v.n);
          err := TakeMessage(num, v.val);
          if err.Some? { return; }
          b := rest[v.n..];
        } else if num == 15 && typ == BYTES {
          var v := ConsumeBytes(rest);
          if v.Bad? {
            TurnUnread(INFERENCE_REQUEST, num - 1, b, m, t);
            return Some(v.err);
          }
          TurnKnown(INFERENCE_REQUEST, num - 1, b, m, t, PBytes(v.val), v.n);
          TakeEntry(num, v.val);
          b := rest[v.n..];
        } else if num in {3, 8, 9, 10, 12, 16, 17} && typ == VARINT {
          var v := ConsumeVarint(rest);
          if v.Bad? {
            TurnUnread(INFERENCE_REQUEST, num - 1, b, m, t);
            return Some(v.err);
          }
          TurnKnown(INFERENCE_REQUEST, num - 1, b, m, t, PVarint(v.val), v.n);
          TakeVarint(num, v.val);
          b := rest[v.n..];
        } else {
          TurnUnknown(INFERENCE_REQUEST, b, m, t);
          var v := ConsumeValue(t.val, rest, RECURSION_LIMIT);
          if v.Bad? { return Some(v.err); }
          b := rest[v.n..];
        }
        ViewTyped();
      }
      NoMoreTurns(INFERENCE_REQUEST, View());
      return None;
    }
  }

  const INFERENCE_RESPONSE: Desc := [
    FieldSpec(1, KString),
    FieldSpec(2, KString),
    FieldSpec(3, KInt32),
    FieldSpec(4, KString),
    FieldSpec(5, KString),
    FieldSpec(6, KInt32),
    FieldSpec(7, KString),
    FieldSpec(8, KPacked),
    FieldSpec(9, KPacked),
    FieldSpec(10, KInt32),
    FieldSpec(11, KInt32),
    FieldSpec(12, KDouble),
    FieldSpec(13, KDouble),
    FieldSpec(14, KBool),
    FieldSpec(15, KBool),
    FieldSpec(16, KBool),
    FieldSpec(17, KDouble),
    FieldSpec(18, KString)
  ]

  class InferenceResponse {
    var requestId: Bytes
    var traceId: Bytes
    var taskType: Int32
    var modelId: Bytes
    var modelVersion: Bytes
    var modelTier: Int32
    var content: Bytes
    var embedding: seq<U64>
    var scores: seq<U64>
    var tokensInput: Int32
    var tokensOutput: Int32
    var latencyMs: U64
    var queueWaitMs: U64
    var cached: bool
    var fallbackUsed: bool
    var isCanary: bool
    var costUsd: U64
    var executorId: Bytes

    ghost function SlotAt(i: nat): Slot
      reads this
    {
      match i
      case 0 => SString(requestId)
      case 1 => SString(traceId)
      case 2 => SInt(taskType)
      case 3 => SString(modelId)
      case 4 => SString(modelVersion)
      case 5 => SInt(modelTier)
      case 6 => SString(content)
      case 7 => SPacked(embedding)
      case 8 => SPacked(scores)
      case 9 => SInt(tokensInput)
      case 10 => SInt(tokensOutput)
      case 11 => SDouble(latencyMs)
      case 12 => SDouble(queueWaitMs)
      case 13 => SBool(cached)
      case 14 => SBool(fallbackUsed)
      case 15 => SBool(isCanary)
      case 16 => SDouble(costUsd)
      case _ => SString(executorId)
    }

    ghost function View(): (m: Message)
      reads this
      ensures |m| == |INFERENCE_RESPONSE|
    {
      seq(18, i requires 0 <= i reads this => SlotAt(i))
    }

    lemma ViewTyped()
      ensures Typed(INFERENCE_RESPONSE, View())
    {
      hide View, SlotAt, INFERENCE_RESPONSE;
      Slots();
      Fields();
    }

    lemma ZeroIsFresh()
      requires requestId == [] && traceId == [] && taskType == 0 && modelId == [] && modelVersion == []
      requires modelTier == 0 && content == [] && embedding == [] && scores == [] && tokensInput == 0
      requires tokensOutput == 0 && latencyMs == 0 && queueWaitMs == 0 && !cached
      requires !fallbackUsed && !isCanary && costUsd == 0 && executorId == []
      ensures View() == Fresh(INFERENCE_RESPONSE)
    {
      hide View, SlotAt, INFERENCE_RESPONSE;
      Slots();
      Fields();
    }

    constructor ()
      ensures View() == Fresh(INFERENCE_RESPONSE)
    {
      hide View, SlotAt, Fresh;
      requestId := [];
      traceId := [];
      taskType := 0;
      modelId := [];
      modelVersion := [];
      modelTier := 0;
      content := [];
      embedding := [];
      scores := [];
      tokensInput := 0;
      tokensOutput := 0;
      latencyMs := 0;
      queueWaitMs := 0;
      cached := false;
      fallbackUsed := false;
      isCanary := false;
      costUsd := 0;
      executorId := [];
      new;
      ZeroIsFresh();
    }

    static lemma Fields()
      ensures |INFERENCE_RESPONSE| == 18
      ensures INFERENCE_RESPONSE[0] == FieldSpec(1, KString)
      ensures INFERENCE_RESPONSE[1] == FieldSpec(2, KString)
      ensures INFERENCE_RESPONSE[2] == FieldSpec(3, KInt32)
      ensures INFERENCE_RESPONSE[3] == FieldSpec(4, KString)
      ensures INFERENCE_RESPONSE[4] == FieldSpec(5, KString)
      ensures INFERENCE_RESPONSE[5] == FieldSpec(6, KInt32)
      ensures INFERENCE_RESPONSE[6] == FieldSpec(7, KString)
      ensures INFERENCE_RESPONSE[7] == FieldSpec(8, KPacked)
      ensures INFERENCE_RESPONSE[8] == FieldSpec(9, KPacked)
      ensures INFERENCE_RESPONSE[9] == FieldSpec(10, KInt32)
      ensures INFERENCE_RESPONSE[10] == FieldSpec(11, KInt32)
      ensures INFERENCE_RESPONSE[11] == FieldSpec(12, KDouble)
      ensures INFERENCE_RESPONSE[12] == FieldSpec(13, KDouble)
      ensures INFERENCE_RESPONSE[13] == FieldSpec(14, KBool)
      ensures INFERENCE_RESPONSE[14] == FieldSpec(15, KBool)
      ensures INFERENCE_RESPONSE[15] == FieldSpec(16, KBool)
      ensures INFERENCE_RESPONSE[16] == FieldSpec(17, KDouble)
      ensures INFERENCE_RESPONSE[17] == FieldSpec(18, KString)
    {
    }

    lemma Slots()
      ensures |View()| == 18
      ensures View()[0] == SString(requestId)
      ensures View()[1] == SString(traceId)
      ensures View()[2] == SInt(taskType)
      ensures View()[3] == SString(modelId)
      ensures View()[4] == SString(modelVersion)
      ensures View()[5] == SInt(modelTier)
      ensures View()[6] == SString(content)
      ensures View()[7] == SPacked(embedding)
      ensures View()[8] == SPacked(scores)
      ensures View()[9] == SInt(tokensInput)
      ensures View()[10] == SInt(tokensOutput)
      ensures View()[11] == SDouble(latencyMs)
      ensures View()[12] == SDouble(queueWaitMs)
      ensures View()[13] == SBool(cached)
      ensures View()[14] == SBool(fallbackUsed)
      ensures View()[15] == SBool(isCanary)
      ensures View()[16] == SDouble(costUsd)
      ensures View()[17] == SString(executorId)
    {
    }

    /** A change of one field is a change of one slot. */
    twostate lemma OnlySlot(k: nat)
      requires k < 18
      requires k != 0 ==> requestId == old(requestId)
      requires k != 1 ==> traceId == old(traceId)
      requires k != 2 ==> taskType == old(taskType)
      requires k != 3 ==> modelId == old(modelId)
      requires k != 4 ==> modelVersion == old(modelVersion)
      requires k != 5 ==> modelTier == old(modelTier)
      requires k != 6 ==> content == old(content)
      requires k != 7 ==> embedding == old(embedding)
      requires k != 8 ==> scores == old(scores)
      requires k != 9 ==> tokensInput == old(tokensInput)
      requires k != 10 ==> tokensOutput == old(tokensOutput)
      requires k != 11 ==> latencyMs == old(latencyMs)
      requires k != 12 ==> queueWaitMs == old(queueWaitMs)
      requires k != 13 ==> cached == old(cached)
      requires k != 14 ==> fallbackUsed == old(fallbackUsed)
      requires k != 15 ==> isCanary == old(isCanary)
      requires k != 16 ==> costUsd == old(costUsd)
      requires k != 17 ==> executorId == old(executorId)
      ensures View() == old(View())[k := SlotAt(k)]
    {
    }

    /** Any result is an encoding of the message: byte for byte, it spells its fields in their order. */
    method MarshalProto() returns (b: Bytes)
      ensures Typed(INFERENCE_RESPONSE, View())
      ensures Encodes(INFERENCE_RESPONSE, View(), |INFERENCE_RESPONSE|, b)
      ensures Format.Spells(INFERENCE_RESPONSE, View(), b)
    {
      hide Format.Spells;
      hide Encodes, SlotEncodes, FieldEncodes, Typed, TypedSlot, View, SlotAt, INFERENCE_RESPONSE;
      ViewTyped();
      Fields();
      Slots();
      ghost var m := View();
      b := [];
      EncodesNothing(INFERENCE_RESPONSE, m);
      b := AppendStringField(b, 1, requestId, INFERENCE_RESPONSE, m, 0);
      b := AppendStringField(b, 2, traceId, INFERENCE_RESPONSE, m, 1);
      b := AppendIntField(b, 3, taskType, INFERENCE_RESPONSE, m, 2);
      b := AppendStringField(b, 4, modelId, INFERENCE_RESPONSE, m, 3);
      b := AppendStringField(b, 5, modelVersion, INFERENCE_RESPONSE, m, 4);
      b := AppendIntField(b, 6, modelTier, INFERENCE_RESPONSE, m, 5);
      b := AppendStringField(b, 7, content, INFERENCE_RESPONSE, m, 6);
      b := AppendPackedField(b, 8, embedding, INFERENCE_RESPONSE, m, 7);
      b := AppendPackedField(b, 9, scores, INFERENCE_RESPONSE, m, 8);
      b := AppendIntField(b, 10, tokensInput, INFERENCE_RESPONSE, m, 9);
      b := AppendIntField(b, 11, tokensOutput, INFERENCE_RESPONSE, m, 10);
      b := AppendDoubleField(b, 12, latencyMs, INFERENCE_RESPONSE, m, 11);
      b := AppendDoubleField(b, 13, queueWaitMs, INFERENCE_RESPONSE, m, 12);
      b := AppendBoolField(b, 14, cached, INFERENCE_RESPONSE, m, 13);
      b := AppendBoolField(b, 15, fallbackUsed, INFERENCE_RESPONSE, m, 14);
      b := AppendBoolField(b, 16, isCanary, INFERENCE_RESPONSE, m, 15);
      b := AppendDoubleField(b, 17, costUsd, INFERENCE_RESPONSE, m, 16);
      b := AppendStringField(b, 18, executorId, INFERENCE_RESPONSE, m, 17);
      Format.SpellsIsEncoding(INFERENCE_RESPONSE, m, b);
    }

    static lemma DescriptorOk()
      ensures Numbered(INFERENCE_RESPONSE) && WellFormed(INFERENCE_RESPONSE)
    {
      NumberedIsWellFormed(INFERENCE_RESPONSE);
    }

    /** The cases of the decode switch are the descriptor's keys. */
    static lemma Switch(num: nat, typ: nat)
      requires num > 0
      ensures if
                || (num in {1, 2, 4, 5, 7, 8, 9, 18} && typ == BYTES)
                || (num in {3, 6, 10, 11, 14, 15, 16} && typ == VARINT)
                || (num in {12, 13, 17} && typ == FIXED64)
              then Known(INFERENCE_RESPONSE, num - 1, Key(num, typ))
              else forall i: nat :: !Known(INFERENCE_RESPONSE, i, Key(num, typ))
    {
      DescriptorOk();
      KnownByNumber(INFERENCE_RESPONSE, Key(num, typ));
    }

    /** The strings among the cases of the decode switch. */
    method TakeBytes(num: nat, v: Bytes)
      requires num in {1, 2, 4, 5, 7, 18} && Known(INFERENCE_RESPONSE, num - 1, Key(num, BYTES))
      requires Typed(INFERENCE_RESPONSE, View())
      modifies this
      ensures Refused(INFERENCE_RESPONSE, num - 1, num, PBytes(v)).None?
      ensures View() == Taken(INFERENCE_RESPONSE, num - 1, num, PBytes(v), old(View()))
    {
      hide Typed, TypedSlot, Run, Known, View, INFERENCE_RESPONSE;
      Fields();
      if num == 1 {
        requestId := v;
      } else if num == 2 {
        traceId := v;
      } else if num == 4 {
        modelId := v;
      } else if num == 5 {
        modelVersion := v;
      } else if num == 7 {
        content := v;
      } else if num == 18 {
        executorId := v;
      }
      OnlySlot(num - 1);
    }

    /** The packed lists among the cases of the decode switch. */
    method TakePacked(num: nat, v: Bytes)
      requires num in {8, 9} && Known(INFERENCE_RESPONSE, num - 1, Key(num, BYTES))
      requires Typed(INFERENCE_RESPONSE, View())
      modifies this
      ensures Refused(INFERENCE_RESPONSE, num - 1, num, PBytes(v)).None?
      ensures View() == Taken(INFERENCE_RESPONSE, num - 1, num, PBytes(v), old(View()))
    {
      hide Typed, TypedSlot, Run, Known, View, INFERENCE_RESPONSE;
      Fields();
      var list := UnpackFixed64(v);
      if num == 8 {
        embedding := list;
      } else {
        scores := list;
      }
      OnlySlot(num - 1);
    }

    /** The integers, enums and booleans among the cases of the decode switch. */
    method TakeVarint(num: nat, v: U64)
      requires num in {3, 6, 10, 11, 14, 15, 16} && Known(INFERENCE_RESPONSE, num - 1, Key(num, VARINT))
      requires Typed(INFERENCE_RESPONSE, View())
      modifies this
      ensures Refused(INFERENCE_RESPONSE, num - 1, num, PVarint(v)).None?
      ensures View() == Taken(INFERENCE_RESPONSE, num - 1, num, PVarint(v), old(View()))
    {
      hide Typed, TypedSlot, Run, Known, View, INFERENCE_RESPONSE;
      Fields();
      if num == 3 {
        taskType := ToInt32(v);
      } else if num == 6 {
        modelTier := ToInt32(v);
      } else if num == 10 {
        tokensInput := ToInt32(v);
      } else if num == 11 {
        tokensOutput := ToInt32(v);
      } else if num == 14 {
        cached := v != 0;
      } else if num == 15 {
        fallbackUsed := v != 0;
      } else if num == 16 {
        isCanary := v != 0;
      }
      OnlySlot(num - 1);
    }

    /** The doubles among the cases of the decode switch. */
    method TakeFixed64(num: nat, v: U64)
      requires num in {12, 13, 17} && Known(INFERENCE_RESPONSE, num - 1, Key(num, FIXED64))
      requires Typed(INFERENCE_RESPONSE, View())
      modifies this
      ensures Refused(INFERENCE_RESPONSE, num - 1, num, PFixed64(v)).None?
      ensures View() == Taken(INFERENCE_RESPONSE, num - 1, num, PFixed64(v), old(View()))
    {
      hide Typed, TypedSlot, Run, Known, View, INFERENCE_RESPONSE;
      Fields();
      if num == 12 {
        latencyMs := v;
      } else if num == 13 {
        queueWaitMs := v;
      } else if num == 17 {
        costUsd := v;
      }
      OnlySlot(num - 1);
    }

    /** The decode loop changes the message as the descriptor says, up to the first error. */
    method UnmarshalProto(input: Bytes) returns (err: Option<Error>)
      modifies this
      ensures Typed(INFERENCE_RESPONSE, old(View()))
      ensures Outcome(View(), err) == Run(INFERENCE_RESPONSE, input, old(View()))
    {
      hide Run, Typed, WellFormed, Absorb, View, SlotAt, Check, Update, Taken;
      hide Refused, Known, ConsumeTag, ConsumeValue, ConsumeBytes, ConsumeVarint, ConsumeFixed64, Numbered;
      DescriptorOk();
      ViewTyped();
      var b := input;
      while b != []
        invariant Typed(INFERENCE_RESPONSE, View())
        invariant Run(INFERENCE_RESPONSE, b, View()) == Run(INFERENCE_RESPONSE, input, old(View()))
        decreases |b|
      {
        ghost var m := View();
        var t := ConsumeTag(b);
        if t.Bad? {
          TurnWithoutKey(INFERENCE_RESPONSE, b, m);
          return Some(t.err);
        }
        var num, typ, rest := t.val.num, t.val.typ, b[t.n..];
        Switch(num, typ);
        if num in {1, 2, 4, 5, 7, 8, 9, 18} && typ == BYTES {
          var v := ConsumeBytes(rest);
          if v.Bad? {
            TurnUnread(INFERENCE_RESPONSE, num - 1, b, m, t);
            return Some(v.err);
          }
          TurnKnown(INFERENCE_RESPONSE, num - 1, b, m, t, PBytes(v.val), v.n);
          if num in {8, 9} {
            TakePacked(num, v.val);
          } else {
            TakeBytes(num, v.val);
          }
          b := rest[v.n..];
        } else if num in {3, 6, 10, 11, 14, 15, 16} && typ == VARINT {
          var v := ConsumeVarint(rest);
          if v.Bad? {
            TurnUnread(INFERENCE_RESPONSE, num - 1, b, m, t);
            return Some(v.err);
          }
          TurnKnown(INFERENCE_RESPONSE, num - 1, b, m, t, PVarint(v.val), v.n);
          TakeVarint(num, v.val);
          b := rest[v.n..];
        } else if num in {12, 13, 17} && typ == FIXED64 {
          var v := ConsumeFixed64(rest);
          if v.Bad? {
            TurnUnread(INFERENCE_RESPONSE, num - 1, b, m, t);
            return Some(v.err);
          }
          TurnKnown(INFERENCE_RESPONSE, num - 1, b, m, t, PFixed64(v.val), v.n);
          TakeFixed64(num, v.val);
          b := rest[v.n..];
        } else {
          TurnUnknown(INFERENCE_RESPONSE, b, m, t);
          var v := ConsumeValue(t.val, rest, RECURSION_LIMIT);
          if v.Bad? { return Some(v.err); }
          b := rest[v.n..];
        }
        ViewTyped();
      }
      NoMoreTurns(INFERENCE_RESPONSE, View());
      return None;
    }
  }
}
