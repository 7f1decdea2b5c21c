/** Cutting the byte stream of a connection into messages. */
module Framer {
  import opened Types
  import opened LittleEndian
  import opened VsrMessage

  const MAX_FRAME: nat := 65536

  /** A connection: open with the bytes not yet used, or closed for a protocol error. */
  datatype Stream = Open(buffer: seq<Byte>) | Closed

  /** The messages delivered, and what becomes of the connection. */
  datatype Delivery = Delivery(messages: seq<WireMessage>, stream: Stream)

  function FrameSize(b: seq<Byte>): nat
    requires |b| >= HEADER_SIZE
  {
    DecodeHeader(b[..HEADER_SIZE]).size
  }

  predicate BadSize(size: nat) {
    size == 0 || size > MAX_FRAME
  }

  /** What the front of a buffer calls for. */
  datatype Front = Wait | Reject | Frame(message: WireMessage, size: nat)

  function FrontOf(b: seq<Byte>, hash: Hash): (r: Front)
    ensures r.Frame? ==> 0 < r.size <= |b|
  {
    if |b| < HEADER_SIZE then Wait else
    var size := FrameSize(b);
    if BadSize(size) then Reject
    else if |b| < size then Wait
    else
      match Decode(b[..size], hash)
      case Nothing => Reject
      case Just(m) => Frame(m, size)
  }

  function Then(first: Delivery, second: Delivery): Delivery {
    Delivery(first.messages + second.messages, second.stream)
  }

  /** Take every complete message off the front of a buffer. */
  function Pump(b: seq<Byte>, hash: Hash): Delivery
    decreases |b|
  {
    match FrontOf(b, hash)
    case Wait => Delivery([], Open(b))
    case Reject => Delivery([], Closed)
    case Frame(m, size) =>
      Then(Delivery([m], Open(b[size..])), Pump(b[size..], hash))
  }

  /** New bytes arrive on a connection. */
  function Feed(stream: Stream, data: seq<Byte>, hash: Hash): Delivery {
    match stream
    case Closed => Delivery([], Closed)
    case Open(b) => Pump(b + data, hash)
  }

  function FeedAll(stream: Stream, chunks: seq<seq<Byte>>, hash: Hash): Delivery {
    if chunks == [] then Delivery([], stream) else
    var before := FeedAll(stream, chunks[..|chunks| - 1], hash);
    Then(before, Feed(before.stream, chunks[|chunks| - 1], hash))
  }

  function Join(chunks: seq<seq<Byte>>): seq<Byte> {
    if chunks == [] then [] else Join(chunks[..|chunks| - 1]) + chunks[|chunks| - 1]
  }

  // How a stream is split does not matter

  /** Once the front calls for something, more bytes behind it do not change what. */
  lemma {:induction false} FrontIsStable(b: seq<Byte>, more: seq<Byte>, hash: Hash)
    requires !FrontOf(b, hash).Wait?
    ensures FrontOf(b + more, hash) == FrontOf(b, hash)
  {
    assert (b + more)[..HEADER_SIZE] == b[..HEADER_SIZE];
    var size := FrameSize(b);
    if !BadSize(size) {
      assert (b + more)[..size] == b[..size];
    }
  }

  lemma {:induction false} ThenAssociative(a: Delivery, b: Delivery, c: Delivery)
    ensures Then(Then(a, b), c) == Then(a, Then(b, c))
  {
    Regroup(a.messages, b.messages, c.messages);
  }

  lemma {:induction false} ThenFromNothing(stream: Stream, d: Delivery)
    ensures Then(Delivery([], stream), d) == d
  {
    assert [] + d.messages == d.messages;
  }

  lemma {:induction false} PumpInTwo(b: seq<Byte>, more: seq<Byte>, hash: Hash)
    ensures var first := Pump(b, hash);
      Pump(b + more, hash) == Then(first, Feed(first.stream, more, hash))
    decreases |b|
  {
    var front := FrontOf(b, hash);
    if front.Wait? {
      ThenFromNothing(Open(b), Pump(b + more, hash));
    } else {
      FrontIsStable(b, more, hash);
      if front.Frame? {
        var left := b[front.size..];
        PumpInTwo(left, more, hash);
        Dropped(b, more, front.size);
        var rest := Pump(left, hash);
        ThenAssociative(Delivery([front.message], Open(left)), rest, Feed(rest.stream, more, hash));
      }
    }
  }

  lemma {:induction false} Dropped(b: seq<Byte>, more: seq<Byte>, size: nat)
    requires size <= |b|
    ensures (b + more)[size..] == b[size..] + more
  {
  }

  lemma {:induction false} FeedInTwo(stream: Stream, data: seq<Byte>, more: seq<Byte>, hash: Hash)
    ensures var first := Feed(stream, data, hash);
      Feed(stream, data + more, hash) == Then(first, Feed(first.stream, more, hash))
  {
    if stream.Open? {
      PumpInTwo(stream.buffer + data, more, hash);
      Regroup(stream.buffer, data, more);
    }
  }

  /** The buffer of an open connection never holds a whole message. */
  predicate Settled(stream: Stream, hash: Hash) {
    stream.Open? ==> FrontOf(stream.buffer, hash) == Wait
  }

  lemma {:induction false} PumpSettles(b: seq<Byte>, hash: Hash)
    ensures Settled(Pump(b, hash).stream, hash)
    decreases |b|
  {
    var front := FrontOf(b, hash);
    if front.Frame? {
      PumpSettles(b[front.size..], hash);
    }
  }

  /** However a stream is cut into chunks, the messages delivered, their order, whether the
      connection is closed and what is left in its buffer are those of a single chunk. */
  lemma {:induction false} ChunkingDoesNotMatter(stream: Stream, chunks: seq<seq<Byte>>, hash: Hash)
    requires Settled(stream, hash)
    ensures FeedAll(stream, chunks, hash) == Feed(stream, Join(chunks), hash)
  {
    if chunks == [] {
      assert stream.Open? ==> stream.buffer + [] == stream.buffer;
    } else {
      var k := |chunks| - 1;
      ChunkingDoesNotMatter(stream, chunks[..k], hash);
      FeedInTwo(stream, Join(chunks[..k]), chunks[k], hash);
    }
  }

  // Messages in, messages out

  function EncodeAll(ms: seq<WireMessage>, hash: Hash): seq<Byte> {
    if ms == [] then [] else Encode(ms[0], hash) + EncodeAll(ms[1..], hash)
  }

  function SealedAll(ms: seq<WireMessage>, hash: Hash): seq<WireMessage> {
    seq(|ms|, i requires 0 <= i < |ms| => Sealed(ms[i], hash))
  }

  /** What the receiver lets through. */
  predicate Passes(m: WireMessage) {
    HeaderFits(m.header) && HEADER_SIZE + |m.payload| <= MAX_FRAME
  }

  lemma {:induction false} EncodedFront(m: WireMessage, tail: seq<Byte>, hash: Hash)
    requires Sendable(m)
    ensures FrontOf(Encode(m, hash) + tail, hash) ==
      if Passes(m) then Frame(Sealed(m, hash), HEADER_SIZE + |m.payload|) else Reject
  {
    var data := Encode(m, hash);
    SealedFits(m, hash);
    HeaderRoundTrip(Sealed(m, hash).header);
    MessageRoundTrip(m, hash);
    assert (data + tail)[..HEADER_SIZE] == EncodeHeader(Sealed(m, hash).header);
    assert (data + tail)[..|data|] == data;
  }

  /** A message is delivered if its frame is at most 65536 bytes; a longer one closes the
      connection instead. */
  lemma {:induction false} DeliveredIffShort(m: WireMessage, hash: Hash)
    requires Sendable(m)
    ensures Pump(Encode(m, hash), hash) ==
      if HEADER_SIZE + |m.payload| <= MAX_FRAME then Delivery([Sealed(m, hash)], Open([])) else Delivery([], Closed)
  {
    var data := Encode(m, hash);
    EncodedFront(m, [], hash);
    assert data + [] == data;
    if Passes(m) {
      assert data[|data|..] == [];
      assert [Sealed(m, hash)] + [] == [Sealed(m, hash)];
    }
  }

  /** The frames of any messages that fit are delivered as those messages, in order, and
      what follows them is then taken as if it came alone. */
  lemma {:induction false} AllDelivered(ms: seq<WireMessage>, tail: seq<Byte>, hash: Hash)
    requires forall m :: m in ms ==> Passes(m)
    ensures Pump(EncodeAll(ms, hash) + tail, hash) == Then(Delivery(SealedAll(ms, hash), Open(tail)), Pump(tail, hash))
  {
    if ms == [] {
      assert [] + tail == tail;
      ThenFromNothing(Open(tail), Pump(tail, hash));
    } else {
      assert ms[0] in ms;
      var data, rest := Encode(ms[0], hash), EncodeAll(ms[1..], hash);
      AllDelivered(ms[1..], tail, hash);
      EncodedFront(ms[0], rest + tail, hash);
      Regroup(data, rest, tail);
      assert (data + (rest + tail))[|data|..] == rest + tail;
      SealedFirst(ms, hash);
      ThenAssociative(Delivery([Sealed(ms[0], hash)], Open(rest + tail)),
                      Delivery(SealedAll(ms[1..], hash), Open(tail)), Pump(tail, hash));
    }
  }

  lemma {:induction false} SealedFirst(ms: seq<WireMessage>, hash: Hash)
    requires ms != []
    ensures SealedAll(ms, hash) == [Sealed(ms[0], hash)] + SealedAll(ms[1..], hash)
  {
  }

  /** A stream of frames delivers exactly their messages, however it is cut. */
  lemma {:induction false} FramesDelivered(ms: seq<WireMessage>, chunks: seq<seq<Byte>>, hash: Hash)
    requires forall m :: m in ms ==> Passes(m)
    requires Join(chunks) == EncodeAll(ms, hash)
    ensures FeedAll(Open([]), chunks, hash) == Delivery(SealedAll(ms, hash), Open([]))
  {
    ChunkingDoesNotMatter(Open([]), chunks, hash);
    AllDelivered(ms, [], hash);
    var data := EncodeAll(ms, hash);
    assert [] + data == data && data + [] == data;
    assert SealedAll(ms, hash) + [] == SealedAll(ms, hash);
  }

  /** What the front of a buffer calls for, in its bytes: fewer than 128, or fewer than a
      size field between 1 and 65536 announces, wait; any other size, and a frame that is not
      intact, close the connection; and an intact frame is delivered. */
  lemma {:induction false} FrontExactly(b: seq<Byte>, hash: Hash)
    ensures |b| < 128 ==> FrontOf(b, hash) == Wait
    ensures |b| >= 128 ==> var size := Value(b[80..84]);
      FrontOf(b, hash) ==
        if size < 1 || size > 65536 then Reject
        else if |b| < size then Wait
        else if Intact(b[..size], hash) then Frame(WireMessage(DecodeHeader(b[..128]), b[128..size]), size)
        else Reject
  {
    if |b| >= 128 {
      var size := Value(b[80..84]);
      CountersLayout(b[..128]);
      SliceOfStart(b, 80, 84, 128);
      if 1 <= size <= |b| && size <= 65536 {
        AcceptedExactly(b[..size], hash);
        if size >= 128 {
          assert b[..size][..128] == b[..128] && b[..size][128..] == b[128..size];
        }
      }
    }
  }

  /** A damaged frame closes the connection, whatever follows it, and after the messages of all
      frames before it have been delivered. */
  lemma {:induction false} DamagedFrameCloses(ms: seq<WireMessage>, damaged: seq<Byte>, more: seq<Byte>, hash: Hash)
    requires forall m :: m in ms ==> Passes(m)
    requires |damaged| >= 128 && Value(damaged[80..84]) == |damaged| <= 65536 && !Intact(damaged, hash)
    ensures Pump(EncodeAll(ms, hash) + (damaged + more), hash) == Delivery(SealedAll(ms, hash), Closed)
  {
    FrontExactly(damaged, hash);
    assert damaged[..|damaged|] == damaged;
    FrontIsStable(damaged, more, hash);
    AllDelivered(ms, damaged + more, hash);
    assert SealedAll(ms, hash) + [] == SealedAll(ms, hash);
  }

  /** Conservation: while the connection stays open, the bytes received are exactly the
      frames of the messages delivered followed by the buffer. */
  lemma {:induction false} NothingLostOrInvented(b: seq<Byte>, hash: Hash)
    requires Pump(b, hash).stream.Open?
    ensures var r := Pump(b, hash); b == EncodeAll(r.messages, hash) + r.stream.buffer
    ensures forall m :: m in Pump(b, hash).messages ==> Passes(m) && Sealed(m, hash) == m
    decreases |b|
  {
    var front := FrontOf(b, hash);
    if front.Frame? {
      NothingLostOrInvented(b[front.size..], hash);
      FrameWasSent(b, hash);
      var rest := Pump(b[front.size..], hash);
      EncodedFirst(front.message, rest.messages, hash);
      Rejoined(b, front.size, EncodeAll(rest.messages, hash), rest.stream.buffer);
    }
  }

  /** The frame at the front of a buffer is the serialization of the message it delivers. */
  lemma {:induction false} FrameWasSent(b: seq<Byte>, hash: Hash)
    requires FrontOf(b, hash).Frame?
    ensures var m, size := FrontOf(b, hash).message, FrontOf(b, hash).size;
      b[..size] == Encode(m, hash) && Passes(m) && Sealed(m, hash) == m
  {
    var m, size := FrontOf(b, hash).message, FrontOf(b, hash).size;
    AcceptedIffSent(b[..size], m, hash);
  }

  lemma {:induction false} EncodedFirst(m: WireMessage, ms: seq<WireMessage>, hash: Hash)
    ensures EncodeAll([m] + ms, hash) == Encode(m, hash) + EncodeAll(ms, hash)
  {
    assert ([m] + ms)[1..] == ms;
  }

  lemma {:induction false} Rejoined(b: seq<Byte>, size: nat, middle: seq<Byte>, end: seq<Byte>)
    requires size <= |b| && b[size..] == middle + end
    ensures b == b[..size] + middle + end
  {
  }

  // The handler

  /** What is still to be delivered after `done`. */
  ghost predicate PumpsOn(goal: Delivery, done: seq<WireMessage>, b: seq<Byte>, hash: Hash) {
    goal == Then(Delivery(done, Open(b)), Pump(b, hash))
  }

  lemma {:induction false} PumpsToEnd(goal: Delivery, done: seq<WireMessage>, b: seq<Byte>, hash: Hash)
    requires PumpsOn(goal, done, b, hash) && !FrontOf(b, hash).Frame?
    ensures goal == Delivery(done, if FrontOf(b, hash).Wait? then Open(b) else Closed)
  {
    assert done + [] == done;
  }

  lemma {:induction false} PumpsAfterFrame(goal: Delivery, done: seq<WireMessage>, b: seq<Byte>, hash: Hash)
    requires PumpsOn(goal, done, b, hash) && FrontOf(b, hash).Frame?
    ensures var front := FrontOf(b, hash); PumpsOn(goal, done + [front.message], b[front.size..], hash)
  {
    var front := FrontOf(b, hash);
    var left := b[front.size..];
    ThenAssociative(Delivery(done, Open(b)), Delivery([front.message], Open(left)), Pump(left, hash));
  }

  /** Look at the front of a buffer: is a whole message there, and is it sound? */
  method Inspect(buffer: seq<Byte>, hash: Hash) returns (front: Front)
    ensures front == FrontOf(buffer, hash)
  {
    if |buffer| < HEADER_SIZE {
      return Wait;
    }
    var header := DecodeHeader(buffer[..HEADER_SIZE]);
    if header.size == 0 || header.size > 65536 {
      return Reject;
    }
    if |buffer| < header.size {
      return Wait;
    }
    var ok, m := Deserialize(buffer[..header.size], hash);
    if !ok {
      return Reject;
    }
    return Frame(m, header.size);
  }

  class Connection {
    var socket: int

    constructor (socket: int)
      ensures this.socket == socket
    {
      this.socket := socket;
    }

    method CloseSocket()
      modifies this
      ensures socket == -1
    {
      if socket != -1 {
        socket := -1;
      }
    }
  }

  class ProtocolHandler {
    const hash: Hash
    var buffers: map<int, seq<Byte>>
    var delivered: seq<(Connection, WireMessage)>

    /** No buffer holds a whole message, so what it holds is an open stream that how the
        bytes arrive next cannot matter to. */
    ghost predicate Valid()
      reads this
    {
      forall socket :: socket in buffers ==> Settled(Open(buffers[socket]), hash)
    }

    constructor (hash: Hash)
      ensures Valid() && this.hash == hash && buffers == map[] && delivered == []
    {
      this.hash := hash;
      buffers, delivered := map[], [];
    }

    method OnDisconnect(connection: Connection)
      requires Valid()
      modifies this
      ensures Valid()
      ensures buffers == old(buffers) - {connection.socket} && delivered == old(delivered)
    {
      buffers := buffers - {connection.socket};
    }

    /** Each of ms, as delivered from a connection. */
    static ghost function From(connection: Connection, ms: seq<WireMessage>): seq<(Connection, WireMessage)> {
      if ms == [] then [] else From(connection, ms[..|ms| - 1]) + [(connection, ms[|ms| - 1])]
    }

    static lemma {:induction false} FromOneMore(connection: Connection, ms: seq<WireMessage>, m: WireMessage)
      ensures From(connection, ms + [m]) == From(connection, ms) + [(connection, m)]
    {
      assert (ms + [m])[..|ms|] == ms;
    }

    method HandleRawData(connection: Connection, data: seq<Byte>)
      requires Valid()
      modifies this, connection
      ensures Valid()
      ensures old(connection.socket) == -1 ==>
        buffers == old(buffers) && delivered == old(delivered) && connection.socket == -1
      ensures var socket := old(connection.socket);
        var held := if socket in old(buffers) then old(buffers)[socket] else [];
        var r := Feed(Open(held), data, hash);
        socket != -1 ==>
          && delivered == old(delivered) + From(connection, r.messages)
          && match r.stream
             case Open(rest) => buffers == old(buffers)[socket := rest] && connection.socket == socket
             case Closed => buffers == old(buffers) - {socket} && connection.socket == -1
    {
      var socket := connection.socket;
      if socket == -1 {
        return;
      }
      var buffer := (if socket in buffers then buffers[socket] else []) + data;
      buffers := buffers[socket := buffer];
      ghost var goal := Pump(buffer, hash);
      PumpSettles(buffer, hash);
      ghost var done: seq<WireMessage> := [];
      ThenFromNothing(Open(buffer), goal);
      while true
        invariant connection.socket == socket && buffers == old(buffers)[socket := buffer]
        invariant delivered == old(delivered) + From(connection, done)
        invariant PumpsOn(goal, done, buffer, hash)
        decreases |buffer|
      {
        var front := Inspect(buffer, hash);
        match front
        case Wait =>
          PumpsToEnd(goal, done, buffer, hash);
          break;
        case Reject =>
          PumpsToEnd(goal, done, buffer, hash);
          PutAndDropped(old(buffers), socket, buffer);
          buffers := buffers - {socket};
          connection.CloseSocket();
          return;
        case Frame(m, size) =>
          PumpsAfterFrame(goal, done, buffer, hash);
          FromOneMore(connection, done, m);
          Regroup(old(delivered), From(connection, done), [(connection, m)]);
          PutTwice(old(buffers), socket, buffer, buffer[size..]);
          delivered := delivered + [(connection, m)];
          done := done + [m];
          buffer := buffer[size..];
          buffers := buffers[socket := buffer];
      }
    }
  }

  lemma {:induction false} PutTwice<K, V>(m: map<K, V>, k: K, v: V, w: V)
    ensures m[k := v][k := w] == m[k := w]
  {
  }

  lemma {:induction false} PutAndDropped<K, V>(m: map<K, V>, k: K, v: V)
    ensures m[k := v] - {k} == m - {k}
  {
  }
}
