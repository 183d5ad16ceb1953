/** The general codec theorems at the message types of the services. */
module MessageTypes {
  import opened Base
  import opened Wire
  import opened Schema
  import opened RoundTrip
  import opened InferenceMessages
  import opened ExecutionMessages
  import Format

  /** Requests hold no doubles, so they survive the trip as they are. */
  lemma RequestsRoundTrip(desc: Desc, m: Message, b: Bytes)
    requires desc == INFERENCE_REQUEST || desc == EXECUTE_REQUEST
    requires Typed(desc, m) && Encodes(desc, m, |desc|, b) && |b| < LIMIT
    ensures Run(desc, b, Fresh(desc)) == Outcome(m, None)
  {
    hide Run, Encodes, INFERENCE_REQUEST, EXECUTE_REQUEST;
    InferenceRequest.DescriptorOk();
    ExecuteRequest.DescriptorOk();
    forall i | 0 <= i < |desc|
      ensures !desc[i].kind.KDouble?
      ensures desc[i].kind.KMessages? ==> desc[i].kind.sub == CHAT_MESSAGE
    {
      NoDoubles(desc, i);
    }
    RoundTripsIff(desc, m, b);
  }

  lemma NoDoubles(desc: Desc, i: nat)
    requires desc == INFERENCE_REQUEST || desc == EXECUTE_REQUEST
    requires i < |desc|
    ensures !desc[i].kind.KDouble?
    ensures desc[i].kind.KMessages? ==> desc[i].kind.sub == CHAT_MESSAGE
  {
  }

  predicate NegativeZeroAt(m: Message, i: nat) {
    i < |m| && m[i] == SDouble(NEGATIVE_ZERO)
  }

  /** Responses survive it exactly when none of their scalar doubles is negative zero. */
  lemma ResponsesRoundTripIff(m: Message, b: Bytes)
    requires Typed(INFERENCE_RESPONSE, m) && |b| < LIMIT
    requires Encodes(INFERENCE_RESPONSE, m, |INFERENCE_RESPONSE|, b)
    ensures Run(INFERENCE_RESPONSE, b, Fresh(INFERENCE_RESPONSE)) == Outcome(m, None)
        <==> !NegativeZeroAt(m, 11) && !NegativeZeroAt(m, 12) && !NegativeZeroAt(m, 16)
  {
    hide Run, Encodes, INFERENCE_RESPONSE;
    InferenceResponse.DescriptorOk();
    ResponseLength();
    RoundTripsIff(INFERENCE_RESPONSE, m, b);
    forall i | 0 <= i < |INFERENCE_RESPONSE|
      ensures SlotHasNegativeZero(INFERENCE_RESPONSE[i].kind, m[i])
         <==> i in RESPONSE_DOUBLES && NegativeZeroAt(m, i)
    {
      ResponseDoubles(i);
    }
  }

  /** The slots of latency_ms, queue_wait_ms and cost_usd. */
  const RESPONSE_DOUBLES := {11, 12, 16}

  lemma ResponseLength()
    ensures |INFERENCE_RESPONSE| == 18
  {
  }

  lemma ResponseDoubles(i: nat)
    requires i < |INFERENCE_RESPONSE|
    ensures INFERENCE_RESPONSE[i].kind.KDouble? <==> i in RESPONSE_DOUBLES
    ensures !INFERENCE_RESPONSE[i].kind.KMessages?
  {
  }

  lemma ExecuteResponsesRoundTripIff(m: Message, b: Bytes)
    requires Typed(EXECUTE_RESPONSE, m) && |b| < LIMIT
    requires Encodes(EXECUTE_RESPONSE, m, |EXECUTE_RESPONSE|, b)
    ensures Run(EXECUTE_RESPONSE, b, Fresh(EXECUTE_RESPONSE)) == Outcome(m, None) <==> !NegativeZeroAt(m, 7)
  {
    hide Run, Encodes, EXECUTE_RESPONSE;
    ExecuteResponse.DescriptorOk();
    ExecuteResponse.Fields();
    RoundTripsIff(EXECUTE_RESPONSE, m, b);
    forall i | 0 <= i < |EXECUTE_RESPONSE|
      ensures SlotHasNegativeZero(EXECUTE_RESPONSE[i].kind, m[i]) <==> i == 7 && NegativeZeroAt(m, i)
    {
      ExecuteResponseDoubles(i);
    }
  }

  lemma ExecuteResponseDoubles(i: nat)
    requires i < |EXECUTE_RESPONSE|
    ensures EXECUTE_RESPONSE[i].kind.KDouble? <==> i == 7
    ensures !EXECUTE_RESPONSE[i].kind.KMessages?
  {
  }

  // ---------- Marshal, then unmarshal into a new message ----------

  /** The bytes of a chat message, read into a new one. */
  method ReadChat(b: Bytes, ghost role: Bytes, ghost content: Bytes) returns (m: ChatMessage, err: Option<Error>)
    requires |role| < 128 && |content| < 128 && b == ShortString(0x0a, role) + ShortString(0x12, content)
    ensures fresh(m) && err.None? && m.role == role && m.content == content
  {
    hide Run, Typed, Format.Spells, Normal;
    m := new ChatMessage();
    err := m.UnmarshalProto(b);
    ghost var said := [SString(role), SString(content)];
    ShortChatSpells(said, role, content, b);
    ChatMessage.DescriptorOk();
    Format.SpeltDecodes(CHAT_MESSAGE, said, b);
    ChatIsNormal(said);
    m.Slots();
  }

  lemma ChatIsNormal(m: Message)
    requires Typed(CHAT_MESSAGE, m)
    ensures Normal(CHAT_MESSAGE, m) == m
  {
  }

  ghost predicate SameRequest(a: InferenceRequest, b: InferenceRequest)
    reads a, a.messages, b, b.messages
  {
    && a.requestId == b.requestId && a.idempotencyKey == b.idempotencyKey && a.taskType == b.taskType
    && a.prompt == b.prompt && SameChats(a.messages, b.messages) && a.documents == b.documents
    && a.query == b.query && a.maxTokens == b.maxTokens && a.stream == b.stream && a.priority == b.priority
    && a.costBudget == b.costBudget && a.latencyTargetMs == b.latencyTargetMs && a.tenantId == b.tenantId
    && a.apiKeyId == b.apiKeyId && Entries(a.metadata) == Entries(b.metadata)
    && a.deadlineUnixMs == b.deadlineUnixMs && a.receivedAtMs == b.receivedAtMs
  }

  ghost predicate SameChats(a: seq<ChatMessage>, b: seq<ChatMessage>)
    reads a, b
  {
    |a| == |b| && forall i :: 0 <= i < |a| ==> a[i].role == b[i].role && a[i].content == b[i].content
  }

  /** Doubles that differ at most in the sign of zero. */
  predicate SameDouble(x: U64, y: U64) {
    x == y || (x == 0 && y == NEGATIVE_ZERO)
  }

  ghost predicate SameResponse(a: InferenceResponse, b: InferenceResponse)
    reads a, b
  {
    && a.requestId == b.requestId && a.traceId == b.traceId && a.taskType == b.taskType && a.modelId == b.modelId
    && a.modelVersion == b.modelVersion && a.modelTier == b.modelTier && a.content == b.content
    && a.embedding == b.embedding && a.scores == b.scores && a.tokensInput == b.tokensInput
    && a.tokensOutput == b.tokensOutput && SameDouble(a.latencyMs, b.latencyMs)
    && SameDouble(a.queueWaitMs, b.queueWaitMs) && a.cached == b.cached && a.fallbackUsed == b.fallbackUsed
    && a.isCanary == b.isCanary && SameDouble(a.costUsd, b.costUsd) && a.executorId == b.executorId
  }

  ghost predicate SameExecuteRequest(a: ExecuteRequest, b: ExecuteRequest)
    reads a, a.messages, b, b.messages
  {
    && a.requestId == b.requestId && a.modelId == b.modelId && a.modelVersion == b.modelVersion
    && a.taskType == b.taskType && a.prompt == b.prompt && SameChats(a.messages, b.messages)
    && a.documents == b.documents && a.query == b.query && a.maxTokens == b.maxTokens && a.deadlineMs == b.deadlineMs
  }

  ghost predicate SameExecuteResponse(a: ExecuteResponse, b: ExecuteResponse)
    reads a, b
  {
    && a.requestId == b.requestId && a.modelId == b.modelId && a.content == b.content && a.embedding == b.embedding
    && a.scores == b.scores && a.tokensInput == b.tokensInput && a.tokensOutput == b.tokensOutput
    && SameDouble(a.latencyMs, b.latencyMs)
  }

  lemma ViewsShowChats(a: seq<ChatMessage>, b: seq<ChatMessage>)
    requires Views(a) == Views(b)
    ensures SameChats(a, b)
  {
    forall i | 0 <= i < |a| ensures a[i].role == b[i].role && a[i].content == b[i].content {
      assert Views(a)[i] == Views(b)[i];
      a[i].Slots();
      b[i].Slots();
    }
  }

  lemma ViewShowsRequest(a: InferenceRequest, b: InferenceRequest)
    requires a.View() == b.View()
    ensures SameRequest(a, b)
  {
    hide InferenceRequest.View, InferenceRequest.SlotAt, Views;
    a.Slots();
    b.Slots();
    ViewsShowChats(a.messages, b.messages);
  }

  lemma ViewShowsExecuteRequest(a: ExecuteRequest, b: ExecuteRequest)
    requires a.View() == b.View()
    ensures SameExecuteRequest(a, b)
  {
    hide ExecuteRequest.View, ExecuteRequest.SlotAt, Views;
    a.Slots();
    b.Slots();
    ViewsShowChats(a.messages, b.messages);
  }

  lemma ViewShowsResponse(a: InferenceResponse, b: InferenceResponse)
    requires Typed(INFERENCE_RESPONSE, b.View()) && a.View() == Normal(INFERENCE_RESPONSE, b.View())
    ensures SameResponse(a, b)
  {
    hide InferenceResponse.View, InferenceResponse.SlotAt, INFERENCE_RESPONSE, Typed;
    a.Slots();
    b.Slots();
    InferenceResponse.Fields();
  }

  lemma ViewShowsExecuteResponse(a: ExecuteResponse, b: ExecuteResponse)
    requires Typed(EXECUTE_RESPONSE, b.View()) && a.View() == Normal(EXECUTE_RESPONSE, b.View())
    ensures SameExecuteResponse(a, b)
  {
    hide ExecuteResponse.View, ExecuteResponse.SlotAt, EXECUTE_RESPONSE, Typed;
    a.Slots();
    b.Slots();
    ExecuteResponse.Fields();
  }

  method CopyRequest(r: InferenceRequest) returns (copy: InferenceRequest, err: Option<Error>, b: Bytes)
    ensures fresh(copy)
    ensures Typed(INFERENCE_REQUEST, r.View()) && Encodes(INFERENCE_REQUEST, r.View(), |INFERENCE_REQUEST|, b)
    ensures |b| < LIMIT ==> err.None? && copy.View() == r.View() && copy.metadata == Some(Entries(r.metadata))
    ensures |b| < LIMIT ==> SameRequest(copy, r)
  {
    hide Run, Encodes, Typed, Normal, NegativeZeroAt, INFERENCE_REQUEST;
    b := r.MarshalProto();
    copy := new InferenceRequest();
    err := copy.UnmarshalProto(b);
    if |b| < LIMIT {
      RequestsRoundTrip(INFERENCE_REQUEST, r.View(), b);
      r.Slots();
      copy.Slots();
      ViewShowsRequest(copy, r);
    }
  }

  method CopyResponse(r: InferenceResponse) returns (copy: InferenceResponse, err: Option<Error>, b: Bytes)
    ensures fresh(copy)
    ensures Typed(INFERENCE_RESPONSE, r.View()) && Encodes(INFERENCE_RESPONSE, r.View(), |INFERENCE_RESPONSE|, b)
    ensures |b| < LIMIT ==> err.None? && copy.View() == Normal(INFERENCE_RESPONSE, r.View())
    ensures |b| < LIMIT ==> SameResponse(copy, r)
    ensures |b| < LIMIT ==> (copy.View() == r.View() <==>
              !NegativeZeroAt(r.View(), 11) && !NegativeZeroAt(r.View(), 12) && !NegativeZeroAt(r.View(), 16))
  {
    hide Run, Encodes, Typed, Normal, NegativeZeroAt, INFERENCE_RESPONSE;
    b := r.MarshalProto();
    copy := new InferenceResponse();
    err := copy.UnmarshalProto(b);
    if |b| < LIMIT {
      InferenceResponse.DescriptorOk();
      DecodeEncode(INFERENCE_RESPONSE, r.View(), b);
      ViewShowsResponse(copy, r);
      ResponsesRoundTripIff(r.View(), b);
    }
  }

  method CopyExecuteRequest(r: ExecuteRequest) returns (copy: ExecuteRequest, err: Option<Error>, b: Bytes)
    ensures fresh(copy)
    ensures Typed(EXECUTE_REQUEST, r.View()) && Encodes(EXECUTE_REQUEST, r.View(), |EXECUTE_REQUEST|, b)
    ensures |b| < LIMIT ==> err.None? && copy.View() == r.View() && SameExecuteRequest(copy, r)
  {
    hide Run, Encodes, Typed, Normal, NegativeZeroAt, EXECUTE_REQUEST;
    b := r.MarshalProto();
    copy := new ExecuteRequest();
    err := copy.UnmarshalProto(b);
    if |b| < LIMIT {
      RequestsRoundTrip(EXECUTE_REQUEST, r.View(), b);
      ViewShowsExecuteRequest(copy, r);
    }
  }

  method CopyExecuteResponse(r: ExecuteResponse) returns (copy: ExecuteResponse, err: Option<Error>, b: Bytes)
    ensures fresh(copy)
    ensures Typed(EXECUTE_RESPONSE, r.View()) && Encodes(EXECUTE_RESPONSE, r.View(), |EXECUTE_RESPONSE|, b)
    ensures |b| < LIMIT ==> err.None? && copy.View() == Normal(EXECUTE_RESPONSE, r.View())
    ensures |b| < LIMIT ==> SameExecuteResponse(copy, r)
    ensures |b| < LIMIT ==> (copy.View() == r.View() <==>
              !NegativeZeroAt(r.View(), 7))
  {
    hide Run, Encodes, Typed, Normal, NegativeZeroAt, EXECUTE_RESPONSE;
    b := r.MarshalProto();
    copy := new ExecuteResponse();
    err := copy.UnmarshalProto(b);
    if |b| < LIMIT {
      ExecuteResponse.DescriptorOk();
      DecodeEncode(EXECUTE_RESPONSE, r.View(), b);
      ViewShowsExecuteResponse(copy, r);
      ExecuteResponsesRoundTripIff(r.View(), b);
    }
  }
}
