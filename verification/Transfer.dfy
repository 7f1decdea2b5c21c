/** Protocol messages on the wire: what a replica sends is what its peer handles, as long as
    it fits in a frame, and how long a log can be to fit. */
module Transfer {
  import opened Types
  import opened LittleEndian
  import opened LogCodec
  import opened Payloads
  import opened VsrMessage
  import opened Framer
  import H = Handlers

  function CommandByte(c: Command): Byte {
    match c
    case Reserved => 0
    case Ping => 1
    case Pong => 2
    case Request => 3
    case Prepare => 4
    case PrepareOk => 5
    case Reply => 6
    case Commit => 7
    case StartViewChange => 8
    case DoViewChange => 9
    case StartView => 10
    case RecoveryRequest => 11
    case RecoveryResponse => 12
  }

  /** A byte that names no command is handled like the reserved one: not at all. */
  function CommandOf(b: Byte): (c: Command)
    ensures b <= 12 ==> CommandByte(c) == b
  {
    match b
    case 1 => Ping
    case 2 => Pong
    case 3 => Request
    case 4 => Prepare
    case 5 => PrepareOk
    case 6 => Reply
    case 7 => Commit
    case 8 => StartViewChange
    case 9 => DoViewChange
    case 10 => StartView
    case 11 => RecoveryRequest
    case 12 => RecoveryResponse
    case _ => Reserved
  }

  predicate Structured(c: Command) {
    c == DoViewChange || c == StartView || c == RecoveryRequest || c == RecoveryResponse
  }

  function EncodeBody(c: Command, body: Body): seq<Byte>
    requires Structured(c)
  {
    match c
    case DoViewChange => EncodeDoViewChange(body.lastNormalView, body.log)
    case StartView => EncodeStartView(body.log)
    case RecoveryRequest => EncodeRecoveryRequest(body.nonce)
    case RecoveryResponse => EncodeRecoveryResponse(body.nonce, body.log)
  }

  function DecodeBody(c: Command, payload: seq<Byte>): Body {
    match c
    case DoViewChange => DecodeDoViewChange(payload)
    case StartView => DecodeStartView(payload)
    case RecoveryRequest => DecodeRecoveryRequest(payload)
    case RecoveryResponse => DecodeRecoveryResponse(payload)
    case _ => NO_BODY
  }

  function WirePayload(m: Message): seq<Byte> {
    if Structured(m.command) then EncodeBody(m.command, m.body) else m.payload
  }

  /** The header fields that replicas fill in. */
  function ToWire(m: Message): WireMessage
    requires m.replica < 256
  {
    WireMessage(BLANK_HEADER.(client := m.client, request := m.request, view := m.view, op := m.op,
                              commit := m.commit, replica := m.replica, command := CommandByte(m.command),
                              operation := m.opType),
                WirePayload(m))
  }

  /** The message as the handlers see it. */
  function FromWire(w: WireMessage): Message {
    var c := CommandOf(w.header.command);
    Message(c, w.header.view, w.header.op, w.header.commit, w.header.replica, w.header.client, w.header.request,
            w.header.operation, if Structured(c) then [] else w.payload, DecodeBody(c, w.payload))
  }

  /** A body as its command's deserializer leaves it: the fields it does not carry are blank. */
  predicate BodyFits(c: Command, b: Body) {
    && b.ok && Fits128(b.nonce) && b.lastNormalView < Range(4) && LogFits(b.log) && EraseAcks(b.log) == b.log
    && (c != DoViewChange ==> b.lastNormalView == 0)
    && (c != RecoveryRequest && c != RecoveryResponse ==> b.nonce == ZERO128)
    && (c == RecoveryRequest ==> b.log == map[])
  }

  /** The values that a message's fields can hold. */
  predicate MessageFits(m: Message) {
    && m.view < Range(4) && m.op < Range(8) && m.commit < Range(8) && m.replica < 256
    && Fits128(m.client) && m.request < Range(4)
    && if Structured(m.command) then m.payload == [] && BodyFits(m.command, m.body) else m.body == NO_BODY
  }

  lemma {:induction false} CommandRoundTrip(c: Command)
    ensures CommandOf(CommandByte(c)) == c
  {
  }

  /** `b` survives the trip in a message with command c. */
  ghost predicate Survives(c: Command, b: Body)
    requires Structured(c)
  {
    DecodeBody(c, EncodeBody(c, b)) == b
  }

  lemma {:induction false} DoViewChangeSurvives(b: Body)
    requires BodyFits(DoViewChange, b)
    ensures Survives(DoViewChange, b)
  {
    DoViewChangeRoundTrip(b.lastNormalView, b.log);
  }

  lemma {:induction false} StartViewSurvives(b: Body)
    requires BodyFits(StartView, b)
    ensures Survives(StartView, b)
  {
    StartViewRoundTrip(b.log);
  }

  lemma {:induction false} RecoveryRequestSurvives(b: Body)
    requires BodyFits(RecoveryRequest, b)
    ensures Survives(RecoveryRequest, b)
  {
    RecoveryRequestRoundTrip(b.nonce);
  }

  lemma {:induction false} RecoveryResponseSurvives(b: Body)
    requires BodyFits(RecoveryResponse, b)
    ensures Survives(RecoveryResponse, b)
  {
    RecoveryResponseRoundTrip(b.nonce, b.log);
  }

  lemma {:induction false} BodySurvives(c: Command, b: Body)
    requires Structured(c) && BodyFits(c, b)
    ensures Survives(c, b)
  {
    if c == DoViewChange {
      DoViewChangeSurvives(b);
    } else if c == StartView {
      StartViewSurvives(b);
    } else if c == RecoveryRequest {
      RecoveryRequestSurvives(b);
    } else {
      RecoveryResponseSurvives(b);
    }
  }

  /** What the receiver makes of a message it has been sent. */
  lemma {:induction false} WireRoundTrip(m: Message, hash: Hash)
    requires MessageFits(m)
    ensures FromWire(Sealed(ToWire(m), hash)) == m
  {
    CommandRoundTrip(m.command);
    if Structured(m.command) {
      BodySurvives(m.command, m.body);
    }
  }

  /** Where a message's fields are in the bytes that are sent, and the number of its command. */
  lemma {:induction false} FrameLayout(m: Message, hash: Hash)
    requires MessageFits(m) && FrameLength(m) < 0x1_0000_0000
    ensures var b := Encode(ToWire(m), hash);
      && |b| == 128 + |WirePayload(m)| && b[128..] == WirePayload(m) && Value(b[80..84]) == |b|
      && Value(b[48..56]) == m.client.high && Value(b[56..64]) == m.client.low && Value(b[84..88]) == m.request
      && Value(b[96..100]) == m.view && Value(b[100..108]) == m.op && Value(b[108..116]) == m.commit
      && b[124] == m.replica && b[126] == m.opType
      && b[125] == match m.command
                   case Reserved => 0 case Ping => 1 case Pong => 2 case Request => 3 case Prepare => 4
                   case PrepareOk => 5 case Reply => 6 case Commit => 7 case StartViewChange => 8
                   case DoViewChange => 9 case StartView => 10 case RecoveryRequest => 11 case RecoveryResponse => 12
  {
    var w := ToWire(m);
    var b := Encode(w, hash);
    Ranges();
    SentIsIntact(w, hash);
    MessageRoundTrip(w, hash);
    AcceptedExactly(b, hash);
    HeaderLayout(b[..128]);
    assert Sealed(w, hash).header == DecodeHeader(b[..128]);
    SlicesOfHead(b);
  }

  lemma {:induction false} SlicesOfHead(b: seq<Byte>)
    requires |b| >= 128
    ensures var h := b[..128];
      && h[48..56] == b[48..56] && h[56..64] == b[56..64] && h[84..88] == b[84..88] && h[96..100] == b[96..100]
      && h[100..108] == b[100..108] && h[108..116] == b[108..116]
  {
  }

  /** The length of the frame that carries a message. */
  function FrameLength(m: Message): nat {
    HEADER_SIZE + |WirePayload(m)|
  }

  /** A message arrives as it was sent exactly when its frame is at most 65536 bytes; the
      frame of a longer one closes the connection. */
  lemma {:induction false} ArrivesIffShort(m: Message, hash: Hash)
    requires MessageFits(m) && FrameLength(m) < 0x1_0000_0000
    ensures var r := Pump(Encode(ToWire(m), hash), hash);
      if FrameLength(m) <= MAX_FRAME
      then r.stream == Open([]) && |r.messages| == 1 && FromWire(r.messages[0]) == m
      else r == Delivery([], Closed)
  {
    Ranges();
    DeliveredIffShort(ToWire(m), hash);
    WireRoundTrip(m, hash);
  }

  // The messages that carry a whole log

  /** The fields of a replica's state are within the widths the code gives them. */
  predicate StateFits(s: State) {
    && s.id < 256 && s.view < Range(4) && s.lastNormalView < Range(4) && s.op < Range(8) && s.commit < Range(8)
    && LogFits(s.log)
  }

  lemma {:induction false} ErasedFits(log: Log)
    requires LogFits(log)
    ensures LogFits(EraseAcks(log)) && EraseAcks(EraseAcks(log)) == EraseAcks(log)
    ensures EncodeLog(EraseAcks(log)) == EncodeLog(log)
  {
    var bare := EraseAcks(log);
    assert |bare| == |bare.Keys| == |log.Keys| == |log|;
    assert EraseAcks(bare) == bare;
    EncodingIsInjective(bare, log);
  }

  /** The message a replica sends with its log carries the encoding of that log, with its
      acknowledgements still on, and fits the fields of the wire. */
  lemma {:induction false} LogMessagesFit(s: State, nonce: U128)
    requires StateFits(s) && Fits128(nonce)
    ensures var m := H.DoViewChangeMessage(s); MessageFits(m) && WirePayload(m) == EncodeDoViewChange(s.lastNormalView, s.log)
    ensures var m := H.StartViewMessage(s); MessageFits(m) && WirePayload(m) == EncodeStartView(s.log)
    ensures var m := H.RecoveryResponseMessage(s, nonce); MessageFits(m) && WirePayload(m) == EncodeRecoveryResponse(nonce, s.log)
  {
    DoViewChangeFits(s);
    StartViewFits(s);
    RecoveryResponseFits(s, nonce);
  }

  lemma {:induction false} DoViewChangeFits(s: State)
    requires StateFits(s)
    ensures var m := H.DoViewChangeMessage(s); MessageFits(m) && WirePayload(m) == EncodeDoViewChange(s.lastNormalView, s.log)
  {
    ErasedFits(s.log);
    Ranges();
  }

  lemma {:induction false} StartViewFits(s: State)
    requires StateFits(s)
    ensures var m := H.StartViewMessage(s); MessageFits(m) && WirePayload(m) == EncodeStartView(s.log)
  {
    ErasedFits(s.log);
    Ranges();
  }

  lemma {:induction false} RecoveryResponseFits(s: State, nonce: U128)
    requires StateFits(s) && Fits128(nonce)
    ensures var m := H.RecoveryResponseMessage(s, nonce); MessageFits(m) && WirePayload(m) == EncodeRecoveryResponse(nonce, s.log)
  {
    ErasedFits(s.log);
    Ranges();
  }

  lemma {:induction false} LogFrameLengths(s: State, nonce: U128)
    requires StateFits(s) && Fits128(nonce)
    ensures FrameLength(H.DoViewChangeMessage(s)) == 128 + 4 + WireSize(s.log)
    ensures FrameLength(H.StartViewMessage(s)) == 128 + WireSize(s.log)
    ensures FrameLength(H.RecoveryResponseMessage(s, nonce)) == 128 + 16 + WireSize(s.log)
  {
    LogMessagesFit(s, nonce);
    EncodedSize(s.log);
  }

  /** A DoViewChange reaches the new primary, unchanged, exactly when 128 + 4 + 8 and, for
      each entry, 41 and its payload come to at most 65536. */
  lemma {:induction false} DoViewChangeTransfer(s: State, hash: Hash)
    requires StateFits(s) && 132 + WireSize(s.log) < 0x1_0000_0000
    ensures var m := H.DoViewChangeMessage(s);
      var r := Pump(Encode(ToWire(m), hash), hash);
      if 132 + WireSize(s.log) <= MAX_FRAME
      then r.stream == Open([]) && |r.messages| == 1 && FromWire(r.messages[0]) == m
      else r == Delivery([], Closed)
    ensures |s.log| > 1595 ==> 132 + WireSize(s.log) > MAX_FRAME
  {
    Ranges();
    LogMessagesFit(s, ZERO128);
    LogFrameLengths(s, ZERO128);
    ArrivesIffShort(H.DoViewChangeMessage(s), hash);
    EncodedSize(s.log);
  }

  lemma {:induction false} StartViewTransfer(s: State, hash: Hash)
    requires StateFits(s) && 128 + WireSize(s.log) < 0x1_0000_0000
    ensures var m := H.StartViewMessage(s);
      var r := Pump(Encode(ToWire(m), hash), hash);
      if 128 + WireSize(s.log) <= MAX_FRAME
      then r.stream == Open([]) && |r.messages| == 1 && FromWire(r.messages[0]) == m
      else r == Delivery([], Closed)
    ensures |s.log| > 1595 ==> 128 + WireSize(s.log) > MAX_FRAME
  {
    Ranges();
    LogMessagesFit(s, ZERO128);
    LogFrameLengths(s, ZERO128);
    ArrivesIffShort(H.StartViewMessage(s), hash);
    EncodedSize(s.log);
  }

  lemma {:induction false} RecoveryResponseTransfer(s: State, nonce: U128, hash: Hash)
    requires StateFits(s) && Fits128(nonce) && 144 + WireSize(s.log) < 0x1_0000_0000
    ensures var m := H.RecoveryResponseMessage(s, nonce);
      var r := Pump(Encode(ToWire(m), hash), hash);
      if 144 + WireSize(s.log) <= MAX_FRAME
      then r.stream == Open([]) && |r.messages| == 1 && FromWire(r.messages[0]) == m
      else r == Delivery([], Closed)
    ensures |s.log| > 1594 ==> 144 + WireSize(s.log) > MAX_FRAME
  {
    LogMessagesFit(s, nonce);
    LogFrameLengths(s, nonce);
    ArrivesIffShort(H.RecoveryResponseMessage(s, nonce), hash);
    EncodedSize(s.log);
  }

  lemma {:induction false} BareEntriesSize(log: Log, keys: seq<nat>)
    requires forall k :: k in keys ==> k in log && log[k].payload == []
    ensures EntriesSize(log, keys) == ENTRY_HEADER * |keys|
  {
    if keys != [] {
      BareEntriesSize(log, keys[1..]);
    }
  }

  /** The bounds are exact: with empty payloads, logs of 1595 entries (1594 for a recovery
      response) still pass. */
  lemma {:induction false} BoundsAreExact(log: Log)
    requires forall k :: k in log ==> log[k].payload == []
    ensures 132 + WireSize(log) <= MAX_FRAME <==> |log| <= 1595
    ensures 128 + WireSize(log) <= MAX_FRAME <==> |log| <= 1595
    ensures 144 + WireSize(log) <= MAX_FRAME <==> |log| <= 1594
  {
    BareEntriesSize(log, Ascending(log.Keys));
    assert |log.Keys| == |log|;
  }
}
