/** The messages between router, scheduler and executor. */
module ExecutionMessages {
  import opened Base
  import opened Wire
  import opened Schema
  import opened RoundTrip
  import opened Fields
  import Format
  import opened InferenceMessages

  const EXECUTE_REQUEST: Desc := [
    FieldSpec(1, KString),
    FieldSpec(2, KString),
    FieldSpec(3, KString),
    FieldSpec(4, KInt32),
    FieldSpec(5, KString),
    FieldSpec(6, KMessages(CHAT_MESSAGE)),
    FieldSpec(7, KStrings),
    FieldSpec(8, KString),
    FieldSpec(9, KInt32),
    FieldSpec(10, KInt64)
  ]

  class ExecuteRequest {
    var requestId: Bytes
    var modelId: Bytes
    var modelVersion: Bytes
    var taskType: Int32
    var prompt: Bytes
    var messages: seq<ChatMessage>
    var documents: seq<Bytes>
    var query: Bytes
    var maxTokens: Int32
    var deadlineMs: Int64

    ghost function SlotAt(i: nat): Slot
      reads this, messages
    {
      match i
      case 0 => SString(requestId)
      case 1 => SString(modelId)
      case 2 => SString(modelVersion)
      case 3 => SInt(taskType)
      case 4 => SString(prompt)
      case 5 => SMessages(Views(messages))
      case 6 => SStrings(documents)
      case 7 => SString(query)
      case 8 => SInt(maxTokens)
      case _ => SInt(deadlineMs)
    }

    ghost function View(): (m: Message)
      reads this, messages
      ensures |m| == |EXECUTE_REQUEST|
    {
      seq(10, i requires 0 <= i reads this, messages => SlotAt(i))
    }

    lemma ViewTyped()
      ensures Typed(EXECUTE_REQUEST, View())
    {
      hide View, SlotAt, EXECUTE_REQUEST;
      Slots();
      Fields();
    }

    lemma ZeroIsFresh()
      requires requestId == [] && modelId == [] && modelVersion == [] && taskType == 0 && prompt == []
      requires messages == [] && documents == [] && query == [] && maxTokens == 0 && deadlineMs == 0
      ensures View() == Fresh(EXECUTE_REQUEST)
    {
      hide View, SlotAt, EXECUTE_REQUEST;
      Slots();
      Fields();
    }

    constructor ()
      ensures View() == Fresh(EXECUTE_REQUEST)
    {
      hide View, SlotAt, Fresh;
      requestId := [];
      modelId := [];
      modelVersion := [];
      taskType := 0;
      prompt := [];
      messages := [];
      documents := [];
      query := [];
      maxTokens := 0;
      deadlineMs := 0;
      new;
      ZeroIsFresh();
    }

    static lemma Fields()
      ensures |EXECUTE_REQUEST| == 10
      ensures EXECUTE_REQUEST[0] == FieldSpec(1, KString)
      ensures EXECUTE_REQUEST[1] == FieldSpec(2, KString)
      ensures EXECUTE_REQUEST[2] == FieldSpec(3, KString)
      ensures EXECUTE_REQUEST[3] == FieldSpec(4, KInt32)
      ensures EXECUTE_REQUEST[4] == FieldSpec(5, KString)
      ensures EXECUTE_REQUEST[5] == FieldSpec(6, KMessages(CHAT_MESSAGE))
      ensures EXECUTE_REQUEST[6] == FieldSpec(7, KStrings)
      ensures EXECUTE_REQUEST[7] == FieldSpec(8, KString)
      ensures EXECUTE_REQUEST[8] == FieldSpec(9, KInt32)
      ensures EXECUTE_REQUEST[9] == FieldSpec(10, KInt64)
    {
    }

    lemma Slots()
      ensures |View()| == 10
      ensures View()[0] == SString(requestId)
      ensures View()[1] == SString(modelId)
      ensures View()[2] == SString(modelVersion)
      ensures View()[3] == SInt(taskType)
      ensures View()[4] == SString(prompt)
      ensures View()[5] == SMessages(Views(messages))
      ensures View()[6] == SStrings(documents)
      ensures View()[7] == SString(query)
      ensures View()[8] == SInt(maxTokens)
      ensures View()[9] == SInt(deadlineMs)
    {
    }

    /** A change of one field is a change of one slot. */
    twostate lemma OnlySlot(k: nat)
      requires k < 10
      requires k != 0 ==> requestId == old(requestId)
      requires k != 1 ==> modelId == old(modelId)
      requires k != 2 ==> modelVersion == old(modelVersion)
      requires k != 3 ==> taskType == old(taskType)
      requires k != 4 ==> prompt == old(prompt)
      requires k != 5 ==> messages == old(messages) && Views(messages) == old(Views(messages))
      requires k != 6 ==> documents == old(documents)
      requires k != 7 ==> query == old(query)
      requires k != 8 ==> maxTokens == old(maxTokens)
      requires k != 9 ==> deadlineMs == old(deadlineMs)
      ensures View() == old(View())[k := SlotAt(k)]
    {
    }

    /** Any result is an encoding of the message: byte for byte, it spells its fields in their order. */
    method MarshalProto() returns (b: Bytes)
      ensures Typed(EXECUTE_REQUEST, View())
      ensures Encodes(EXECUTE_REQUEST, View(), |EXECUTE_REQUEST|, b) && Format.Spells(EXECUTE_REQUEST, View(), b)
    {
      hide Format.Spells;
      hide Encodes, SlotEncodes, FieldEncodes, Typed, TypedSlot, Views, View, SlotAt, EXECUTE_REQUEST;
      ViewTyped();
      Fields();
      Slots();
      ghost var m := View();
      b := [];
      EncodesNothing(EXECUTE_REQUEST, m);
      b := AppendStringField(b, 1, requestId, EXECUTE_REQUEST, m, 0);
      b := AppendStringField(b, 2, modelId, EXECUTE_REQUEST, m, 1);
      b := AppendStringField(b, 3, modelVersion, EXECUTE_REQUEST, m, 2);
      b := AppendIntField(b, 4, taskType, EXECUTE_REQUEST, m, 3);
      b := AppendStringField(b, 5, prompt, EXECUTE_REQUEST, m, 4);
      b := AppendMessages(b, 6, messages, EXECUTE_REQUEST, m, 5);
      b := AppendStringsField(b, 7, documents, EXECUTE_REQUEST, m, 6);
      b := AppendStringField(b, 8, query, EXECUTE_REQUEST, m, 7);
      b := AppendIntField(b, 9, maxTokens, EXECUTE_REQUEST, m, 8);
      b := AppendIntField(b, 10, deadlineMs, EXECUTE_REQUEST, m, 9);
      Format.SpellsIsEncoding(EXECUTE_REQUEST, m, b);
    }

    static lemma DescriptorOk()
      ensures Numbered(EXECUTE_REQUEST) && WellFormed(EXECUTE_REQUEST)
    {
      ChatMessage.DescriptorOk();
      assert forall i :: 0 <= i < |EXECUTE_REQUEST| && EXECUTE_REQUEST[i].kind.KMessages? ==>
        EXECUTE_REQUEST[i].kind.sub == CHAT_MESSAGE;
      NumberedIsWellFormed(EXECUTE_REQUEST);
    }

    /** The cases of the decode switch are the descriptor's keys. */
    static lemma Switch(num: nat, typ: nat)
      requires num > 0
      ensures if
                || (num in {1, 2, 3, 5, 7, 8} && typ == BYTES)
                || (num == 6 && typ == BYTES)
                || (num in {4, 9, 10} && typ == VARINT)
              then Known(EXECUTE_REQUEST, num - 1, Key(num, typ))
              else forall i: nat :: !Known(EXECUTE_REQUEST, i, Key(num, typ))
    {
      DescriptorOk();
      KnownByNumber(EXECUTE_REQUEST, Key(num, typ));
    }

    /** The strings among the cases of the decode switch. */
    method TakeBytes(num: nat, v: Bytes)
      requires num in {1, 2, 3, 5, 8} && Known(EXECUTE_REQUEST, num - 1, Key(num, BYTES))
      requires Typed(EXECUTE_REQUEST, View())
      modifies this
      ensures Refused(EXECUTE_REQUEST, num - 1, num, PBytes(v)).None?
      ensures View() == Taken(EXECUTE_REQUEST, num - 1, num, PBytes(v), old(View()))
    {
      hide Typed, TypedSlot, Run, Known, Views, View, EXECUTE_REQUEST;
      Fields();
      if num == 1 {
        requestId := v;
      } else if num == 2 {
        modelId := v;
      } else if num == 3 {
        modelVersion := v;
      } else if num == 5 {
        prompt := v;
      } else if num == 8 {
        query := v;
      }
      OnlySlot(num - 1);
    }

    /** The repeated strings among the cases of the decode switch. */
    method TakeDocument(num: nat, v: Bytes)
      requires num == 7 && Known(EXECUTE_REQUEST, num - 1, Key(num, BYTES))
      requires Typed(EXECUTE_REQUEST, View())
      modifies this
      ensures Refused(EXECUTE_REQUEST, num - 1, num, PBytes(v)).None?
      ensures View() == Taken(EXECUTE_REQUEST, num - 1, num, PBytes(v), old(View()))
    {
      hide Typed, TypedSlot, Run, Known, Views, View, EXECUTE_REQUEST;
      Slots();
      Fields();
      documents := documents + [v];
      OnlySlot(num - 1);
    }

    /** The nested messages among the cases of the decode switch. */
    method TakeMessage(num: nat, v: Bytes) returns (err: Option<Error>)
      requires num == 6 && Known(EXECUTE_REQUEST, num - 1, Key(num, BYTES))
      requires Typed(EXECUTE_REQUEST, View())
      modifies this
      ensures err == Refused(EXECUTE_REQUEST, num - 1, num, PBytes(v))
      ensures err.Some? ==> View() == old(View())
      ensures err.None? ==> View() == Taken(EXECUTE_REQUEST, num - 1, num, PBytes(v), old(View()))
    {
      hide Typed, TypedSlot, Run, Known, Views, View, EXECUTE_REQUEST;
      Slots();
      Fields();
      err := None;
      var msg := new ChatMessage();
      err := msg.UnmarshalProto(v);
      if err.Some? { return; }
      messages := messages + [msg];
      ViewsAppend(old(messages), msg);
      OnlySlot(num - 1);
    }

    /** The integers, enums and booleans among the cases of the decode switch. */
    method TakeVarint(num: nat, v: U64)
      requires num in {4, 9, 10} && Known(EXECUTE_REQUEST, num - 1, Key(num, VARINT))
      requires Typed(EXECUTE_REQUEST, View())
      modifies this
      ensures Refused(EXECUTE_REQUEST, num - 1, num, PVarint(v)).None?
      ensures View() == Taken(EXECUTE_REQUEST, num - 1, num, PVarint(v), old(View()))
    {
      hide Typed, TypedSlot, Run, Known, Views, View, EXECUTE_REQUEST;
      Fields();
      if num == 4 {
        taskType := ToInt32(v);
      } else if num == 9 {
        maxTokens := ToInt32(v);
      } else if num == 10 {
        deadlineMs := ToInt64(v);
      }
      OnlySlot(num - 1);
    }

    /** The decode loop changes the message as the descriptor says, up to the first error. */
    method UnmarshalProto(input: Bytes) returns (err: Option<Error>)
      modifies this
      ensures Typed(EXECUTE_REQUEST, old(View()))
      ensures Outcome(View(), err) == Run(EXECUTE_REQUEST, input, old(View()))
    {
      hide Run, Typed, WellFormed, Absorb, View, SlotAt, Check, Update, Taken;
      hide Refused, Known, ConsumeTag, ConsumeValue, ConsumeBytes, ConsumeVarint, ConsumeFixed64, Numbered;
      DescriptorOk();
      ViewTyped();
      var b := input;
      while b != []
        invariant Typed(EXECUTE_REQUEST, View())
        invariant Run(EXECUTE_REQUEST, b, View()) == Run(EXECUTE_REQUEST, input, old(View()))
        decreases |b|
      {
        ghost var m := View();
        var t := ConsumeTag(b);
        if t.Bad? {
          TurnWithoutKey(EXECUTE_REQUEST, b, m);
          return Some(t.err);
        }
        var num, typ, rest := t.val.num, t.val.typ, b[t.n..];
        Switch(num, typ);
        if num in {1, 2, 3, 5, 7, 8} && typ == BYTES {
          var v := ConsumeBytes(rest);
          if v.Bad? {
            TurnUnread(EXECUTE_REQUEST, num - 1, b, m, t);
            return Some(v.err);
          }
          TurnKnown(EXECUTE_REQUEST, num - 1, b, m, t, PBytes(v.val), v.n);
          if num == 7 {
            TakeDocument(num, v.val);
          } else {
            TakeBytes(num, v.val);
          }
          b := rest[v.n..];
        } else if num == 6 && typ == BYTES {
          var v := ConsumeBytes(rest);
          if v.Bad? {
            TurnUnread(EXECUTE_REQUEST, num - 1, b, m, t);
            return Some(v.err);
          }
          TurnKnown(EXECUTE_REQUEST, num - 1, b, m, t, PBytes(v.val), v.n);
          err := TakeMessage(num, v.val);
          if err.Some? { return; }
          b := rest[v.n..];
        } else if num in {4, 9, 10} && typ == VARINT {
          var v := ConsumeVarint(rest);
          if v.Bad? {
            TurnUnread(EXECUTE_REQUEST, num - 1, b, m, t);
            return Some(v.err);
          }
          TurnKnown(EXECUTE_REQUEST, num - 1, b, m, t, PVarint(v.val), v.n);
          TakeVarint(num, v.val);
          b := rest[v.n..];
        } else {
          TurnUnknown(EXECUTE_REQUEST, b, m, t);
          var v := ConsumeValue(t.val, rest, RECURSION_LIMIT);
          if v.Bad? { return Some(v.err); }
          b := rest[v.n..];
        }
        ViewTyped();
      }
      NoMoreTurns(EXECUTE_REQUEST, View());
      return None;
    }
  }

  const EXECUTE_RESPONSE: Desc := [
    FieldSpec(1, KString),
    FieldSpec(2, KString),
    FieldSpec(3, KString),
    FieldSpec(4, KPacked),
    FieldSpec(5, KPacked),
    FieldSpec(6, KInt32),
    FieldSpec(7, KInt32),
    FieldSpec(8, KDouble)
  ]

  class ExecuteResponse {
    var requestId: Bytes
    var modelId: Bytes
    var content: Bytes
    var embedding: seq<U64>
    var scores: seq<U64>
    var tokensInput: Int32
    var tokensOutput: Int32
    var latencyMs: U64

    ghost function SlotAt(i: nat): Slot
      reads this
    {
      match i
      case 0 => SString(requestId)
      case 1 => SString(modelId)
      case 2 => SString(content)
      case 3 => SPacked(embedding)
      case 4 => SPacked(scores)
      case 5 => SInt(tokensInput)
      case 6 => SInt(tokensOutput)
      case _ => SDouble(latencyMs)
    }

    ghost function View(): (m: Message)
      reads this
      ensures |m| == |EXECUTE_RESPONSE|
    {
      seq(8, i requires 0 <= i reads this => SlotAt(i))
    }

    lemma ViewTyped()
      ensures Typed(EXECUTE_RESPONSE, View())
    {
      hide View, SlotAt, EXECUTE_RESPONSE;
      Slots();
      Fields();
    }

    lemma ZeroIsFresh()
      requires requestId == [] && modelId == [] && content == [] && embedding == [] && scores == []
      requires tokensInput == 0 && tokensOutput == 0 && latencyMs == 0
      ensures View() == Fresh(EXECUTE_RESPONSE)
    {
      hide View, SlotAt, EXECUTE_RESPONSE;
      Slots();
      Fields();
    }

    constructor ()
      ensures View() == Fresh(EXECUTE_RESPONSE)
    {
      hide View, SlotAt, Fresh;
      requestId := [];
      modelId := [];
      content := [];
      embedding := [];
      scores := [];
      tokensInput := 0;
      tokensOutput := 0;
      latencyMs := 0;
      new;
      ZeroIsFresh();
    }

    static lemma Fields()
      ensures |EXECUTE_RESPONSE| == 8
      ensures EXECUTE_RESPONSE[0] == FieldSpec(1, KString)
      ensures EXECUTE_RESPONSE[1] == FieldSpec(2, KString)
      ensures EXECUTE_RESPONSE[2] == FieldSpec(3, KString)
      ensures EXECUTE_RESPONSE[3] == FieldSpec(4, KPacked)
      ensures EXECUTE_RESPONSE[4] == FieldSpec(5, KPacked)
      ensures EXECUTE_RESPONSE[5] == FieldSpec(6, KInt32)
      ensures EXECUTE_RESPONSE[6] == FieldSpec(7, KInt32)
      ensures EXECUTE_RESPONSE[7] == FieldSpec(8, KDouble)
    {
    }

    lemma Slots()
      ensures |View()| == 8
      ensures View()[0] == SString(requestId)
      ensures View()[1] == SString(modelId)
      ensures View()[2] == SString(content)
      ensures View()[3] == SPacked(embedding)
      ensures View()[4] == SPacked(scores)
      ensures View()[5] == SInt(tokensInput)
      ensures View()[6] == SInt(tokensOutput)
      ensures View()[7] == SDouble(latencyMs)
    {
    }

    /** A change of one field is a change of one slot. */
    twostate lemma OnlySlot(k: nat)
      requires k < 8
      requires k != 0 ==> requestId == old(requestId)
      requires k != 1 ==> modelId == old(modelId)
      requires k != 2 ==> content == old(content)
      requires k != 3 ==> embedding == old(embedding)
      requires k != 4 ==> scores == old(scores)
      requires k != 5 ==> tokensInput == old(tokensInput)
      requires k != 6 ==> tokensOutput == old(tokensOutput)
      requires k != 7 ==> latencyMs == old(latencyMs)
      ensures View() == old(View())[k := SlotAt(k)]
    {
    }

    /** Any result is an encoding of the message: byte for byte, it spells its fields in their order. */
    method MarshalProto() returns (b: Bytes)
      ensures Typed(EXECUTE_RESPONSE, View())
      ensures Encodes(EXECUTE_RESPONSE, View(), |EXECUTE_RESPONSE|, b) && Format.Spells(EXECUTE_RESPONSE, View(), b)
    {
      hide Format.Spells;
      hide Encodes, SlotEncodes, FieldEncodes, Typed, TypedSlot, View, SlotAt, EXECUTE_RESPONSE;
      ViewTyped();
      Fields();
      Slots();
      ghost var m := View();
      b := [];
      EncodesNothing(EXECUTE_RESPONSE, m);
      b := AppendStringField(b, 1, requestId, EXECUTE_RESPONSE, m, 0);
      b := AppendStringField(b, 2, modelId, EXECUTE_RESPONSE, m, 1);
      b := AppendStringField(b, 3, content, EXECUTE_RESPONSE, m, 2);
      b := AppendPackedField(b, 4, embedding, EXECUTE_RESPONSE, m, 3);
      b := AppendPackedField(b, 5, scores, EXECUTE_RESPONSE, m, 4);
      b := AppendIntField(b, 6, tokensInput, EXECUTE_RESPONSE, m, 5);
      b := AppendIntField(b, 7, tokensOutput, EXECUTE_RESPONSE, m, 6);
      b := AppendDoubleField(b, 8, latencyMs, EXECUTE_RESPONSE, m, 7);
      Format.SpellsIsEncoding(EXECUTE_RESPONSE, m, b);
    }

    static lemma DescriptorOk()
      ensures Numbered(EXECUTE_RESPONSE) && WellFormed(EXECUTE_RESPONSE)
    {
      NumberedIsWellFormed(EXECUTE_RESPONSE);
    }

    /** The cases of the decode switch are the descriptor's keys. */
    static lemma Switch(num: nat, typ: nat)
      requires num > 0
      ensures if
                || (num in {1, 2, 3, 4, 5} && typ == BYTES)
                || (num in {6, 7} && typ == VARINT)
                || (num == 8 && typ == FIXED64)
              then Known(EXECUTE_RESPONSE, num - 1, Key(num, typ))
              else forall i: nat :: !Known(EXECUTE_RESPONSE, i, Key(num, typ))
    {
      DescriptorOk();
      KnownByNumber(EXECUTE_RESPONSE, Key(num, typ));
    }

    /** The strings among the cases of the decode switch. */
    method TakeBytes(num: nat, v: Bytes)
      requires num in {1, 2, 3} && Known(EXECUTE_RESPONSE, num - 1, Key(num, BYTES))
      requires Typed(EXECUTE_RESPONSE, View())
      modifies this
      ensures Refused(EXECUTE_RESPONSE, num - 1, num, PBytes(v)).None?
      ensures View() == Taken(EXECUTE_RESPONSE, num - 1, num, PBytes(v), old(View()))
    {
      hide Typed, TypedSlot, Run, Known, View, EXECUTE_RESPONSE;
      Fields();
      if num == 1 {
        requestId := v;
      } else if num == 2 {
        modelId := v;
      } else if num == 3 {
        content := v;
      }
      OnlySlot(num - 1);
    }

    /** The packed lists among the cases of the decode switch. */
    method TakePacked(num: nat, v: Bytes)
      requires num in {4, 5} && Known(EXECUTE_RESPONSE, num - 1, Key(num, BYTES))
      requires Typed(EXECUTE_RESPONSE, View())
      modifies this
      ensures Refused(EXECUTE_RESPONSE, num - 1, num, PBytes(v)).None?
      ensures View() == Taken(EXECUTE_RESPONSE, num - 1, num, PBytes(v), old(View()))
    {
      hide Typed, TypedSlot, Run, Known, View, EXECUTE_RESPONSE;
      Fields();
      var list := UnpackFixed64(v);
      if num == 4 {
        embedding := list;
      } else {
        scores := list;
      }
      OnlySlot(num - 1);
    }

    /** The integers, enums and booleans among the cases of the decode switch. */
    method TakeVarint(num: nat, v: U64)
      requires num in {6, 7} && Known(EXECUTE_RESPONSE, num - 1, Key(num, VARINT))
      requires Typed(EXECUTE_RESPONSE, View())
      modifies this
      ensures Refused(EXECUTE_RESPONSE, num - 1, num, PVarint(v)).None?
      ensures View() == Taken(EXECUTE_RESPONSE, num - 1, num, PVarint(v), old(View()))
    {
      hide Typed, TypedSlot, Run, Known, View, EXECUTE_RESPONSE;
      Fields();
      if num == 6 {
        tokensInput := ToInt32(v);
      } else if num == 7 {
        tokensOutput := ToInt32(v);
      }
      OnlySlot(num - 1);
    }

    /** The doubles among the cases of the decode switch. */
    method TakeFixed64(num: nat, v: U64)
      requires num == 8 && Known(EXECUTE_RESPONSE, num - 1, Key(num, FIXED64))
      requires Typed(EXECUTE_RESPONSE, View())
      modifies this
      ensures Refused(EXECUTE_RESPONSE, num - 1, num, PFixed64(v)).None?
      ensures View() == Taken(EXECUTE_RESPONSE, num - 1, num, PFixed64(v), old(View()))
    {
      hide Typed, TypedSlot, Run, Known, View, EXECUTE_RESPONSE;
      Fields();
      latencyMs := v;
      OnlySlot(num - 1);
    }

    /** The decode loop changes the message as the descriptor says, up to the first error. */
    method UnmarshalProto(input: Bytes) returns (err: Option<Error>)
      modifies this
      ensures Typed(EXECUTE_RESPONSE, old(View()))
      ensures Outcome(View(), err) == Run(EXECUTE_RESPONSE, input, old(View()))
    {
      hide Run, Typed, WellFormed, Absorb, View, SlotAt, Check, Update, Taken;
      hide Refused, Known, ConsumeTag, ConsumeValue, ConsumeBytes, ConsumeVarint, ConsumeFixed64, Numbered;
      DescriptorOk();
      ViewTyped();
      var b := input;
      while b != []
        invariant Typed(EXECUTE_RESPONSE, View())
        invariant Run(EXECUTE_RESPONSE, b, View()) == Run(EXECUTE_RESPONSE, input, old(View()))
        decreases |b|
      {
        ghost var m := View();
        var t := ConsumeTag(b);
        if t.Bad? {
          TurnWithoutKey(EXECUTE_RESPONSE, b, m);
          return Some(t.err);
        }
        var num, typ, rest := t.val.num, t.val.typ, b[t.n..];
        Switch(num, typ);
        if num in {1, 2, 3, 4, 5} && typ == BYTES {
          var v := ConsumeBytes(rest);
          if v.Bad? {
            TurnUnread(EXECUTE_RESPONSE, num - 1, b, m, t);
            return Some(v.err);
          }
          TurnKnown(EXECUTE_RESPONSE, num - 1, b, m, t, PBytes(v.val), v.n);
          if num in {4, 5} {
            TakePacked(num, v.val);
          } else {
            TakeBytes(num, v.val);
          }
          b := rest[v.n..];
        } else if num in {6, 7} && typ == VARINT {
          var v := ConsumeVarint(rest);
          if v.Bad? {
            TurnUnread(EXECUTE_RESPONSE, num - 1, b, m, t);
            return Some(v.err);
          }
          TurnKnown(EXECUTE_RESPONSE, num - 1, b, m, t, PVarint(v.val), v.n);
          TakeVarint(num, v.val);
          b := rest[v.n..];
        } else if num == 8 && typ == FIXED64 {
          var v := ConsumeFixed64(rest);
          if v.Bad? {
            TurnUnread(EXECUTE_RESPONSE, num - 1, b, m, t);
            return Some(v.err);
          }
          TurnKnown(EXECUTE_RESPONSE, num - 1, b, m, t, PFixed64(v.val), v.n);
          TakeFixed64(num, v.val);
          b := rest[v.n..];
        } else {
          TurnUnknown(EXECUTE_RESPONSE, b, m, t);
          var v := ConsumeValue(t.val, rest, RECURSION_LIMIT);
          if v.Bad? { return Some(v.err); }
          b := rest[v.n..];
        }
        ViewTyped();
      }
      NoMoreTurns(EXECUTE_RESPONSE, View());
      return None;
    }
  }
}
