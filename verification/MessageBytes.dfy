/** Which field of a message goes out under which number, and as what bytes. */
module MessageBytes {
  import opened Base
  import opened Wire
  import opened Schema
  import opened Format
  import opened InferenceMessages
  import opened ExecutionMessages

  // ---------- Nothing for a zero value, else a record ----------

  ghost predicate Text(num: nat, s: Bytes, p: Bytes) {
    if s == [] then p == [] else BytesRecord(num, s, p)
  }

  ghost predicate Whole(num: nat, v: Int64, p: Bytes) {
    if v == 0 then p == [] else IntRecord(num, if v < 0 then v + 0x1_0000_0000_0000_0000 else v, p)
  }

  ghost predicate Flag(num: nat, on: bool, p: Bytes) {
    if on then IntRecord(num, 1, p) else p == []
  }

  /** Both zeros count as zero. */
  ghost predicate Double(num: nat, bits: U64, p: Bytes) {
    if bits == 0 || bits == 0x8000_0000_0000_0000 then p == [] else DoubleRecord(num, bits, p)
  }

  /** One record of eight bytes for each double. */
  ghost predicate Packed(num: nat, ds: seq<U64>, p: Bytes) {
    if ds == [] then p == []
    else exists body: Bytes :: BytesRecord(num, body, p) && |body| == 8 * |ds|
           && forall i :: 0 <= i < |ds| ==> Base256(body[8 * i..8 * i + 8]) == ds[i]
  }

  /** One record for each string, empty ones included. */
  ghost predicate Texts(num: nat, ss: seq<Bytes>, p: Bytes) {
    exists ps: seq<Bytes> :: |ps| == |ss| && p == Flat(ps)
      && forall i :: 0 <= i < |ss| ==> BytesRecord(num, ss[i], ps[i])
  }

  /** One record for each entry, in any order: its key is field 1 in it and its value field 2. */
  ghost predicate Pairs(num: nat, m: map<Bytes, Bytes>, p: Bytes) {
    exists order: seq<Bytes>, ps: seq<Bytes>, es: seq<Bytes> ::
      && EntriesSpell(num, m, order, ps, es) && p == Flat(ps)
  }

  ghost predicate ChatBytes(c: ChatMessage, b: Bytes)
    reads c
  {
    exists p: Bytes, q: Bytes :: Text(1, c.role, p) && Text(2, c.content, q) && b == p + q
  }

  ghost predicate Chats(num: nat, ms: seq<ChatMessage>, p: Bytes)
    reads ms
  {
    exists ps: seq<Bytes>, bs: seq<Bytes> :: |bs| == |ms| && |ps| == |ms| && p == Flat(ps)
      && forall i :: 0 <= i < |ms| ==> ChatBytes(ms[i], bs[i]) && BytesRecord(num, bs[i], ps[i])
  }

  ghost predicate RequestBytes(r: InferenceRequest, b: Bytes)
    reads r, r.messages
  {
    exists ps: seq<Bytes> :: |ps| == 17 && b == Flat(ps)
      && Text(1, r.requestId, ps[0]) && Text(2, r.idempotencyKey, ps[1]) && Whole(3, r.taskType, ps[2])
      && Text(4, r.prompt, ps[3]) && Chats(5, r.messages, ps[4]) && Texts(6, r.documents, ps[5])
      && Text(7, r.query, ps[6]) && Whole(8, r.maxTokens, ps[7]) && Flag(9, r.stream, ps[8])
      && Whole(10, r.priority, ps[9]) && Text(11, r.costBudget, ps[10]) && Whole(12, r.latencyTargetMs, ps[11])
      && Text(13, r.tenantId, ps[12]) && Text(14, r.apiKeyId, ps[13]) && Pairs(15, Entries(r.metadata), ps[14])
      && Whole(16, r.deadlineUnixMs, ps[15]) && Whole(17, r.receivedAtMs, ps[16])
  }

  ghost predicate ResponseBytes(r: InferenceResponse, b: Bytes)
    reads r
  {
    exists ps: seq<Bytes> :: |ps| == 18 && b == Flat(ps)
      && Text(1, r.requestId, ps[0]) && Text(2, r.traceId, ps[1]) && Whole(3, r.taskType, ps[2])
      && Text(4, r.modelId, ps[3]) && Text(5, r.modelVersion, ps[4]) && Whole(6, r.modelTier, ps[5])
      && Text(7, r.content, ps[6]) && Packed(8, r.embedding, ps[7]) && Packed(9, r.scores, ps[8])
      && Whole(10, r.tokensInput, ps[9]) && Whole(11, r.tokensOutput, ps[10]) && Double(12, r.latencyMs, ps[11])
      && Double(13, r.queueWaitMs, ps[12]) && Flag(14, r.cached, ps[13]) && Flag(15, r.fallbackUsed, ps[14])
      && Flag(16, r.isCanary, ps[15]) && Double(17, r.costUsd, ps[16]) && Text(18, r.executorId, ps[17])
  }

  ghost predicate ExecuteRequestBytes(r: ExecuteRequest, b: Bytes)
    reads r, r.messages
  {
    exists ps: seq<Bytes> :: |ps| == 10 && b == Flat(ps)
      && Text(1, r.requestId, ps[0]) && Text(2, r.modelId, ps[1]) && Text(3, r.modelVersion, ps[2])
      && Whole(4, r.taskType, ps[3]) && Text(5, r.prompt, ps[4]) && Chats(6, r.messages, ps[5])
      && Texts(7, r.documents, ps[6]) && Text(8, r.query, ps[7]) && Whole(9, r.maxTokens, ps[8])
      && Whole(10, r.deadlineMs, ps[9])
  }

  ghost predicate ExecuteResponseBytes(r: ExecuteResponse, b: Bytes)
    reads r
  {
    exists ps: seq<Bytes> :: |ps| == 8 && b == Flat(ps)
      && Text(1, r.requestId, ps[0]) && Text(2, r.modelId, ps[1]) && Text(3, r.content, ps[2])
      && Packed(4, r.embedding, ps[3]) && Packed(5, r.scores, ps[4]) && Whole(6, r.tokensInput, ps[5])
      && Whole(7, r.tokensOutput, ps[6]) && Double(8, r.latencyMs, ps[7])
  }

  // ---------- What the encoders write ----------

  ghost predicate PieceMeans(num: nat, kind: Kind, s: Slot, p: Bytes)
    requires TypedSlot(kind, s)
  {
    match kind
    case KString => Text(num, s.s, p)
    case KInt32 => Whole(num, s.v, p)
    case KInt64 => Whole(num, s.v, p)
    case KBool => Flag(num, s.on, p)
    case KDouble => Double(num, s.bits, p)
    case KPacked => Packed(num, s.ds, p)
    case KStrings => Texts(num, s.ss, p)
    case KMessages(_) => true
    case KMap => Pairs(num, s.m, p)
  }

  lemma PiecesOf(desc: Desc, m: Message, b: Bytes) returns (ps: seq<Bytes>)
    requires Typed(desc, m) && Spells(desc, m, b)
    ensures |ps| == |desc| == |m| && b == Flat(ps)
    ensures forall i :: 0 <= i < |ps| ==>
              TypedSlot(desc[i].kind, m[i]) && Piece(desc[i].num, desc[i].kind, m[i], ps[i])
  {
    hide Piece, Flat, TypedSlot;
    ps :| |ps| == |desc| && b == Flat(ps)
      && forall i :: 0 <= i < |ps| ==> Piece(desc[i].num, desc[i].kind, m[i], ps[i]);
  }

  lemma PieceIs(kind: Kind, s: Slot, num: nat, p: Bytes)
    requires TypedSlot(kind, s) && Piece(num, kind, s, p)
    ensures PieceMeans(num, kind, s, p)
  {
    hide IntRecord, DoubleRecord, BytesRecord, EntriesSpell;
  }

  lemma ChatOnWire(c: ChatMessage, b: Bytes)
    requires Typed(CHAT_MESSAGE, c.View()) && Spells(CHAT_MESSAGE, c.View(), b)
    ensures ChatBytes(c, b)
  {
    hide Piece, Flat, Text, ChatMessage.View, CHAT_MESSAGE;
    var m := c.View();
    c.Slots();
    ChatMessage.Fields();
    var ps: seq<Bytes> :| |ps| == |CHAT_MESSAGE| && b == Flat(ps)
      && forall i :: 0 <= i < |ps| ==> Piece(CHAT_MESSAGE[i].num, CHAT_MESSAGE[i].kind, m[i], ps[i]);
    PieceIs(KString, m[0], 1, ps[0]);
    PieceIs(KString, m[1], 2, ps[1]);
    FlatTwo(ps[0], ps[1]);
    assert ps == [ps[0], ps[1]];
  }

  lemma ChatsOnWire(ms: seq<ChatMessage>, num: nat, p: Bytes)
    requires TypedSlot(KMessages(CHAT_MESSAGE), SMessages(Views(ms)))
    requires Piece(num, KMessages(CHAT_MESSAGE), SMessages(Views(ms)), p)
    ensures Chats(num, ms, p)
  {
    hide Flat, BytesRecord, Spells, Typed, ChatBytes, CHAT_MESSAGE;
    var vs := Views(ms);
    var ps: seq<Bytes>, bs: seq<Bytes> :| BytesRecords(num, bs, ps) && p == Flat(ps)
      && |bs| == |vs| && forall i :: 0 <= i < |bs| ==> Spells(CHAT_MESSAGE, vs[i], bs[i]);
    forall i | 0 <= i < |ms| ensures ChatBytes(ms[i], bs[i]) && BytesRecord(num, bs[i], ps[i]) {
      ChatOnWire(ms[i], bs[i]);
    }
  }

  lemma RequestOnWire(r: InferenceRequest, b: Bytes)
    requires Typed(INFERENCE_REQUEST, r.View()) && Spells(INFERENCE_REQUEST, r.View(), b)
    ensures RequestBytes(r, b)
  {
    hide Piece, Flat, Typed, TypedSlot, Text, Whole, Flag, Double, Packed, Texts, Pairs, Chats, Views;
    hide InferenceRequest.View, INFERENCE_REQUEST;
    var m := r.View();
    r.Slots();
    InferenceRequest.Fields();
    var ps := PiecesOf(INFERENCE_REQUEST, m, b);
    forall i | 0 <= i < |ps| && !INFERENCE_REQUEST[i].kind.KMessages?
      ensures PieceMeans(INFERENCE_REQUEST[i].num, INFERENCE_REQUEST[i].kind, m[i], ps[i])
    {
      PieceIs(INFERENCE_REQUEST[i].kind, m[i], INFERENCE_REQUEST[i].num, ps[i]);
    }
    ChatsOnWire(r.messages, 5, ps[4]);
  }

  lemma ResponseOnWire(r: InferenceResponse, b: Bytes)
    requires Typed(INFERENCE_RESPONSE, r.View()) && Spells(INFERENCE_RESPONSE, r.View(), b)
    ensures ResponseBytes(r, b)
  {
    hide Piece, Flat, Typed, TypedSlot, Text, Whole, Flag, Double, Packed, Texts, Pairs, Chats, Views;
    hide InferenceResponse.View, INFERENCE_RESPONSE;
    var m := r.View();
    r.Slots();
    InferenceResponse.Fields();
    var ps := PiecesOf(INFERENCE_RESPONSE, m, b);
    forall i | 0 <= i < |ps| && !INFERENCE_RESPONSE[i].kind.KMessages?
      ensures PieceMeans(INFERENCE_RESPONSE[i].num, INFERENCE_RESPONSE[i].kind, m[i], ps[i])
    {
      PieceIs(INFERENCE_RESPONSE[i].kind, m[i], INFERENCE_RESPONSE[i].num, ps[i]);
    }
  }

  lemma ExecuteRequestOnWire(r: ExecuteRequest, b: Bytes)
    requires Typed(EXECUTE_REQUEST, r.View()) && Spells(EXECUTE_REQUEST, r.View(), b)
    ensures ExecuteRequestBytes(r, b)
  {
    hide Piece, Flat, Typed, TypedSlot, Text, Whole, Flag, Double, Packed, Texts, Pairs, Chats, Views;
    hide ExecuteRequest.View, EXECUTE_REQUEST;
    var m := r.View();
    r.Slots();
    ExecuteRequest.Fields();
    var ps := PiecesOf(EXECUTE_REQUEST, m, b);
    forall i | 0 <= i < |ps| && !EXECUTE_REQUEST[i].kind.KMessages?
      ensures PieceMeans(EXECUTE_REQUEST[i].num, EXECUTE_REQUEST[i].kind, m[i], ps[i])
    {
      PieceIs(EXECUTE_REQUEST[i].kind, m[i], EXECUTE_REQUEST[i].num, ps[i]);
    }
    ChatsOnWire(r.messages, 6, ps[5]);
  }

  lemma ExecuteResponseOnWire(r: ExecuteResponse, b: Bytes)
    requires Typed(EXECUTE_RESPONSE, r.View()) && Spells(EXECUTE_RESPONSE, r.View(), b)
    ensures ExecuteResponseBytes(r, b)
  {
    hide Piece, Flat, Typed, TypedSlot, Text, Whole, Flag, Double, Packed, Texts, Pairs, Chats, Views;
    hide ExecuteResponse.View, EXECUTE_RESPONSE;
    var m := r.View();
    r.Slots();
    ExecuteResponse.Fields();
    var ps := PiecesOf(EXECUTE_RESPONSE, m, b);
    forall i | 0 <= i < |ps| && !EXECUTE_RESPONSE[i].kind.KMessages?
      ensures PieceMeans(EXECUTE_RESPONSE[i].num, EXECUTE_RESPONSE[i].kind, m[i], ps[i])
    {
      PieceIs(EXECUTE_RESPONSE[i].kind, m[i], EXECUTE_RESPONSE[i].num, ps[i]);
    }
  }
}
