/** The message envelope: a packed 128-byte header, the payload behind it, and the two
    checksums. The hash is any function from bytes to 128 bits. */
module VsrMessage {
  import opened Types
  import opened LittleEndian

  const HEADER_SIZE: nat := 128

  type Digest = d: U128 | Fits128(d) witness ZERO128

  type Hash = seq<Byte> -> Digest

  datatype Header = Header(
    checksum: U128, checksumBody: U128, parent: U128, client: U128, context: U128,
    size: nat, request: nat, cluster: nat, epoch: nat, view: nat,
    op: nat, commit: nat, offset: nat,
    replica: Byte, command: Byte, operation: Byte, version: Byte)

  datatype WireMessage = WireMessage(header: Header, payload: seq<Byte>)

  datatype Received = Nothing | Just(message: WireMessage)

  const BLANK_HEADER := Header(ZERO128, ZERO128, ZERO128, ZERO128, ZERO128, 0, 0, 0, 0, 0, 0, 0, 0, 0, 0, 0, 0)

  /** The values that the header's fields can hold. */
  predicate HeaderFits(h: Header) {
    && Fits128(h.checksum) && Fits128(h.checksumBody) && Fits128(h.parent)
    && Fits128(h.client) && Fits128(h.context)
    && h.size < Range(4) && h.request < Range(4) && h.cluster < Range(4) && h.epoch < Range(4) && h.view < Range(4)
    && h.op < Range(8) && h.commit < Range(8) && h.offset < Range(8)
  }

  // Layout: five 128-bit words, eight counters, four single bytes

  function EncodeWords(h: Header): (s: seq<Byte>)
    ensures |s| == 80
  {
    Bytes128(h.checksum) + Bytes128(h.checksumBody) + Bytes128(h.parent) + Bytes128(h.client) + Bytes128(h.context)
  }

  function EncodeCounters(h: Header): (s: seq<Byte>)
    ensures |s| == 44
  {
    Bytes(h.size, 4) + Bytes(h.request, 4) + Bytes(h.cluster, 4) + Bytes(h.epoch, 4) + Bytes(h.view, 4) +
    Bytes(h.op, 8) + Bytes(h.commit, 8) + Bytes(h.offset, 8)
  }

  function EncodeHeader(h: Header): (s: seq<Byte>)
    ensures |s| == HEADER_SIZE
  {
    EncodeWords(h) + EncodeCounters(h) + [h.replica, h.command, h.operation, h.version]
  }

  function WordAt(s: seq<Byte>, k: nat): U128
    requires k + 16 <= |s|
  {
    U128(Value(s[k..k + 8]), Value(s[k + 8..k + 16]))
  }

  /** `h` with its words taken from w. */
  function DecodeWords(w: seq<Byte>, h: Header): Header
    requires |w| == 80
  {
    h.(checksum := WordAt(w, 0), checksumBody := WordAt(w, 16), parent := WordAt(w, 32),
       client := WordAt(w, 48), context := WordAt(w, 64))
  }

  /** `h` with its counters taken from c. */
  function DecodeCounters(c: seq<Byte>, h: Header): Header
    requires |c| == 44
  {
    h.(size := Value(c[..4]), request := Value(c[4..8]), cluster := Value(c[8..12]), epoch := Value(c[12..16]),
       view := Value(c[16..20]), op := Value(c[20..28]), commit := Value(c[28..36]), offset := Value(c[36..44]))
  }

  function DecodeHeader(s: seq<Byte>): Header
    requires |s| == HEADER_SIZE
  {
    DecodeWords(s[..80], DecodeCounters(s[80..124],
      BLANK_HEADER.(replica := s[124], command := s[125], operation := s[126], version := s[127])))
  }

  lemma {:induction false} WordRoundTrip(before: seq<Byte>, u: U128, after: seq<Byte>)
    requires Fits128(u)
    ensures WordAt(before + Bytes128(u) + after, |before|) == u
  {
    var s, high, low := before + Bytes128(u) + after, Bytes(u.high, 8), Bytes(u.low, 8);
    ValueOfBytes(u.high, 8);
    ValueOfBytes(u.low, 8);
    FourPieces(before, high, low, after);
    MiddlePiece(before, high, low + after);
    MiddlePiece(before + high, low, after);
  }

  lemma {:induction false} FourPieces(a: seq<Byte>, b: seq<Byte>, c: seq<Byte>, d: seq<Byte>)
    ensures a + (b + c) + d == a + b + (c + d) && a + (b + c) + d == (a + b) + c + d
  {
  }

  lemma {:induction false} MiddlePiece(a: seq<Byte>, b: seq<Byte>, c: seq<Byte>)
    ensures (a + b + c)[|a|..|a| + |b|] == b
  {
  }

  lemma {:induction false} WordsRoundTrip(h: Header, g: Header)
    requires HeaderFits(h)
    ensures DecodeWords(EncodeWords(h), g) ==
      g.(checksum := h.checksum, checksumBody := h.checksumBody, parent := h.parent, client := h.client, context := h.context)
  {
    var a, b, c, d, e := Bytes128(h.checksum), Bytes128(h.checksumBody), Bytes128(h.parent), Bytes128(h.client), Bytes128(h.context);
    var s := EncodeWords(h);
    assert s == [] + a + (b + c + d + e) && s == a + b + (c + d + e) && s == (a + b) + c + (d + e);
    assert s == (a + b + c) + d + e && s == (a + b + c + d) + e + [];
    WordRoundTrip([], h.checksum, b + c + d + e);
    WordRoundTrip(a, h.checksumBody, c + d + e);
    WordRoundTrip(a + b, h.parent, d + e);
    WordRoundTrip(a + b + c, h.client, e);
    WordRoundTrip(a + b + c + d, h.context, []);
  }

  lemma {:induction false} LastPiece(head: seq<Byte>, tail: seq<Byte>)
    ensures (head + tail)[|head|..|head| + |tail|] == tail
  {
  }

  lemma {:induction false} CountersRoundTrip(h: Header, g: Header)
    requires HeaderFits(h)
    ensures DecodeCounters(EncodeCounters(h), g) ==
      g.(size := h.size, request := h.request, cluster := h.cluster, epoch := h.epoch, view := h.view,
         op := h.op, commit := h.commit, offset := h.offset)
  {
    var s := EncodeCounters(h);
    assert s[..4] == Bytes(h.size, 4) && s[4..8] == Bytes(h.request, 4) && s[8..12] == Bytes(h.cluster, 4);
    assert s[12..16] == Bytes(h.epoch, 4) && s[16..20] == Bytes(h.view, 4);
    assert s[20..28] == Bytes(h.op, 8) && s[28..36] == Bytes(h.commit, 8);
    var head := Bytes(h.size, 4) + Bytes(h.request, 4) + Bytes(h.cluster, 4) + Bytes(h.epoch, 4) + Bytes(h.view, 4) +
                Bytes(h.op, 8) + Bytes(h.commit, 8);
    LastPiece(head, Bytes(h.offset, 8));
    assert s == head + Bytes(h.offset, 8) && |head| == 36;
    assert s[36..44] == Bytes(h.offset, 8);
    ValueOfBytes(h.size, 4);
    ValueOfBytes(h.request, 4);
    ValueOfBytes(h.cluster, 4);
    ValueOfBytes(h.epoch, 4);
    ValueOfBytes(h.view, 4);
    ValueOfBytes(h.op, 8);
    ValueOfBytes(h.commit, 8);
    ValueOfBytes(h.offset, 8);
  }

  lemma {:induction false} HeaderRoundTrip(h: Header)
    requires HeaderFits(h)
    ensures DecodeHeader(EncodeHeader(h)) == h
  {
    var s := EncodeHeader(h);
    assert s[..80] == EncodeWords(h) && s[80..124] == EncodeCounters(h);
    var g := BLANK_HEADER.(replica := h.replica, command := h.command, operation := h.operation, version := h.version);
    CountersRoundTrip(h, g);
    WordsRoundTrip(h, DecodeCounters(EncodeCounters(h), g));
  }

  lemma {:induction false} WordBytes(s: seq<Byte>, k: nat)
    requires k + 16 <= |s|
    ensures Fits128(WordAt(s, k)) && Bytes128(WordAt(s, k)) == s[k..k + 16]
  {
    BytesOfValue(s[k..k + 8]);
    BytesOfValue(s[k + 8..k + 16]);
    assert s[k..k + 16] == s[k..k + 8] + s[k + 8..k + 16];
  }

  lemma {:induction false} FivePieces(w: seq<Byte>, a: seq<Byte>, b: seq<Byte>, c: seq<Byte>, d: seq<Byte>, e: seq<Byte>)
    requires |w| == 80 && a == w[0..16] && b == w[16..32] && c == w[32..48] && d == w[48..64] && e == w[64..80]
    ensures a + b + c + d + e == w
  {
  }

  lemma {:induction false} WordsBytes(w: seq<Byte>, g: Header)
    requires |w| == 80
    ensures EncodeWords(DecodeWords(w, g)) == w
    ensures var h := DecodeWords(w, g);
      Fits128(h.checksum) && Fits128(h.checksumBody) && Fits128(h.parent) && Fits128(h.client) && Fits128(h.context)
  {
    WordBytes(w, 0);
    WordBytes(w, 16);
    WordBytes(w, 32);
    WordBytes(w, 48);
    WordBytes(w, 64);
    FivePieces(w, Bytes128(WordAt(w, 0)), Bytes128(WordAt(w, 16)), Bytes128(WordAt(w, 32)), Bytes128(WordAt(w, 48)), Bytes128(WordAt(w, 64)));
  }

  lemma {:induction false} CountersBytes(c: seq<Byte>, g: Header)
    requires |c| == 44
    ensures EncodeCounters(DecodeCounters(c, g)) == c
    ensures var h := DecodeCounters(c, g);
      && h.size < Range(4) && h.request < Range(4) && h.cluster < Range(4) && h.epoch < Range(4) && h.view < Range(4)
      && h.op < Range(8) && h.commit < Range(8) && h.offset < Range(8)
  {
    BytesOfValue(c[..4]);
    BytesOfValue(c[4..8]);
    BytesOfValue(c[8..12]);
    BytesOfValue(c[12..16]);
    BytesOfValue(c[16..20]);
    BytesOfValue(c[20..28]);
    BytesOfValue(c[28..36]);
    BytesOfValue(c[36..44]);
    EightPieces(c);
  }

  lemma {:induction false} EightPieces(c: seq<Byte>)
    requires |c| == 44
    ensures c == c[..4] + c[4..8] + c[8..12] + c[12..16] + c[16..20] + c[20..28] + c[28..36] + c[36..44]
  {
  }

  lemma {:induction false} ThreePieces(s: seq<Byte>)
    requires |s| == HEADER_SIZE
    ensures s == s[..80] + s[80..124] + [s[124], s[125], s[126], s[127]]
  {
  }

  /** Every 128 bytes are the header they decode to. */
  lemma {:induction false} HeaderBytes(s: seq<Byte>)
    requires |s| == HEADER_SIZE
    ensures HeaderFits(DecodeHeader(s)) && EncodeHeader(DecodeHeader(s)) == s
  {
    var g := BLANK_HEADER.(replica := s[124], command := s[125], operation := s[126], version := s[127]);
    var counted := DecodeCounters(s[80..124], g);
    CountersBytes(s[80..124], g);
    WordsBytes(s[..80], counted);
    assert EncodeCounters(DecodeHeader(s)) == EncodeCounters(counted);
    ThreePieces(s);
  }

  // Checksums

  function BodyChecksum(payload: seq<Byte>, hash: Hash): Digest {
    if payload == [] then ZERO128 else hash(payload)
  }

  function HeaderChecksum(h: Header, hash: Hash): Digest {
    hash(EncodeHeader(h.(checksum := ZERO128)))
  }

  /** The message as it is sent: its size and checksums filled in, the size in 32 bits. */
  function Sealed(m: WireMessage, hash: Hash): (r: WireMessage)
    ensures r == m.(header := m.header.(checksum := r.header.checksum, checksumBody := r.header.checksumBody,
                                        size := r.header.size))
  {
    var h := m.header.(checksumBody := BodyChecksum(m.payload, hash),
                       size := (HEADER_SIZE + |m.payload|) % 0x1_0000_0000);
    m.(header := h.(checksum := HeaderChecksum(h, hash)))
  }

  function Encode(m: WireMessage, hash: Hash): seq<Byte> {
    EncodeHeader(Sealed(m, hash).header) + m.payload
  }

  function Decode(data: seq<Byte>, hash: Hash): Received {
    if |data| < HEADER_SIZE then Nothing else
    var h := DecodeHeader(data[..HEADER_SIZE]);
    var payload := data[HEADER_SIZE..];
    if h.size != |data| || HeaderChecksum(h, hash) != h.checksum || BodyChecksum(payload, hash) != h.checksumBody
    then Nothing else Just(WireMessage(h, payload))
  }

  /** The header of a message can be sent, and its size fits the size field. */
  predicate Sendable(m: WireMessage) {
    HeaderFits(m.header) && HEADER_SIZE + |m.payload| < 0x1_0000_0000
  }

  lemma {:induction false} SealedFits(m: WireMessage, hash: Hash)
    requires Sendable(m)
    ensures HeaderFits(Sealed(m, hash).header) && Sealed(m, hash).header.size == HEADER_SIZE + |m.payload|
  {
    Ranges();
  }

  /** What arrives is what was sent, with only the size and the checksums replaced; and
      sending it again gives the same bytes. */
  lemma {:induction false} MessageRoundTrip(m: WireMessage, hash: Hash)
    requires Sendable(m)
    ensures Decode(Encode(m, hash), hash) == Just(Sealed(m, hash))
    ensures Encode(Sealed(m, hash), hash) == Encode(m, hash)
  {
    var sealed := Sealed(m, hash);
    var data := Encode(m, hash);
    SealedFits(m, hash);
    HeaderRoundTrip(sealed.header);
    assert data[..HEADER_SIZE] == EncodeHeader(sealed.header) && data[HEADER_SIZE..] == m.payload;
    var unsummed := m.header.(checksumBody := BodyChecksum(m.payload, hash), size := sealed.header.size);
    assert sealed.header.(checksum := ZERO128) == unsummed.(checksum := ZERO128);
  }

  /** A message that carries its own size and checksums is as it would be sent. */
  lemma {:induction false} SealedIsFixed(m: WireMessage, hash: Hash)
    requires HEADER_SIZE + |m.payload| < 0x1_0000_0000
    ensures Sealed(m, hash) == m <==>
      && m.header.size == HEADER_SIZE + |m.payload|
      && m.header.checksum == HeaderChecksum(m.header, hash)
      && m.header.checksumBody == BodyChecksum(m.payload, hash)
  {
    var h := m.header.(checksumBody := BodyChecksum(m.payload, hash), size := HEADER_SIZE + |m.payload|);
    assert Sealed(m, hash).header == h.(checksum := HeaderChecksum(h, hash));
    if m.header.size == h.size && m.header.checksumBody == h.checksumBody {
      assert m.header.(checksum := ZERO128) == h.(checksum := ZERO128);
    }
  }

  lemma {:induction false} AcceptedIsSent(data: seq<Byte>, hash: Hash)
    requires Decode(data, hash).Just? && |data| < 0x1_0000_0000
    ensures var m := Decode(data, hash).message;
      Sendable(m) && Sealed(m, hash) == m && data == Encode(m, hash)
  {
    var m := Decode(data, hash).message;
    HeaderBytes(data[..HEADER_SIZE]);
    SealedIsFixed(m, hash);
    TwoPieces(data);
  }

  lemma {:induction false} TwoPieces(data: seq<Byte>)
    requires |data| >= HEADER_SIZE
    ensures data == data[..HEADER_SIZE] + data[HEADER_SIZE..]
  {
  }

  /** Only what was sent is accepted: bytes decode to m exactly when they are the encoding of
      m and m carries its own size and checksums. */
  lemma {:induction false} AcceptedIffSent(data: seq<Byte>, m: WireMessage, hash: Hash)
    ensures Decode(data, hash) == Just(m) <==> Sendable(m) && Sealed(m, hash) == m && data == Encode(m, hash)
  {
    if Decode(data, hash) == Just(m) {
      AcceptedSize(data, hash);
      AcceptedIsSent(data, hash);
    } else if Sendable(m) && Sealed(m, hash) == m {
      MessageRoundTrip(m, hash);
    }
  }

  /** Accepted bytes are always short enough for the size field. */
  lemma {:induction false} AcceptedSize(data: seq<Byte>, hash: Hash)
    requires Decode(data, hash).Just?
    ensures HEADER_SIZE <= |data| < 0x1_0000_0000
  {
    HeaderBytes(data[..HEADER_SIZE]);
    Ranges();
  }

  // What the checksums protect

  const ZEROS: seq<Byte> := [0, 0, 0, 0, 0, 0, 0, 0, 0, 0, 0, 0, 0, 0, 0, 0]

  /** Where each field is, in bytes from the start of the header. */
  lemma {:induction false} HeaderLayout(s: seq<Byte>)
    requires |s| == 128
    ensures DecodeHeader(s) == Header(
      U128(Value(s[0..8]), Value(s[8..16])), U128(Value(s[16..24]), Value(s[24..32])),
      U128(Value(s[32..40]), Value(s[40..48])), U128(Value(s[48..56]), Value(s[56..64])),
      U128(Value(s[64..72]), Value(s[72..80])),
      Value(s[80..84]), Value(s[84..88]), Value(s[88..92]), Value(s[92..96]), Value(s[96..100]),
      Value(s[100..108]), Value(s[108..116]), Value(s[116..124]), s[124], s[125], s[126], s[127])
  {
    CountersLayout(s);
    WordsLayout(s);
  }

  lemma {:induction false} CountersLayout(s: seq<Byte>)
    requires |s| == 128
    ensures var h := DecodeHeader(s);
      && h.size == Value(s[80..84]) && h.request == Value(s[84..88]) && h.cluster == Value(s[88..92])
      && h.epoch == Value(s[92..96]) && h.view == Value(s[96..100])
      && h.op == Value(s[100..108]) && h.commit == Value(s[108..116]) && h.offset == Value(s[116..124])
  {
    SliceOfSlice(s, 80, 124, 0, 4);
    SliceOfSlice(s, 80, 124, 4, 8);
    SliceOfSlice(s, 80, 124, 8, 12);
    SliceOfSlice(s, 80, 124, 12, 16);
    SliceOfSlice(s, 80, 124, 16, 20);
    SliceOfSlice(s, 80, 124, 20, 28);
    SliceOfSlice(s, 80, 124, 28, 36);
    SliceOfSlice(s, 80, 124, 36, 44);
  }

  lemma {:induction false} SliceOfSlice(s: seq<Byte>, lo: nat, hi: nat, a: nat, b: nat)
    requires lo <= hi <= |s| && a <= b <= hi - lo
    ensures s[lo..hi][a..b] == s[lo + a..lo + b]
  {
    var part := s[lo..hi];
    var x, y := part[a..b], s[lo + a..lo + b];
    assert |x| == |y|;
    forall i | 0 <= i < |x| ensures x[i] == y[i] {
      assert x[i] == part[a + i];
    }
  }

  lemma {:induction false} SliceOfStart(s: seq<Byte>, a: nat, b: nat, end: nat)
    requires a <= b <= end <= |s|
    ensures s[..end][a..b] == s[a..b]
  {
    var part := s[..end];
    var x, y := part[a..b], s[a..b];
    assert |x| == |y|;
    forall i | 0 <= i < |x| ensures x[i] == y[i] {
      assert x[i] == part[a + i];
    }
  }

  lemma {:induction false} WordOfStart(s: seq<Byte>, k: nat, end: nat)
    requires k + 16 <= end <= |s|
    ensures WordAt(s[..end], k) == WordAt(s, k)
  {
    SliceOfStart(s, k, k + 8, end);
    SliceOfStart(s, k + 8, k + 16, end);
  }

  lemma {:induction false} WordsLayout(s: seq<Byte>)
    requires |s| == 128
    ensures var h := DecodeHeader(s);
      && h.checksum == WordAt(s, 0) && h.checksumBody == WordAt(s, 16) && h.parent == WordAt(s, 32)
      && h.client == WordAt(s, 48) && h.context == WordAt(s, 64)
  {
    WordOfStart(s, 0, 80);
    WordOfStart(s, 16, 80);
    WordOfStart(s, 32, 80);
    WordOfStart(s, 48, 80);
    WordOfStart(s, 64, 80);
  }

  lemma {:induction false} SameBehindChecksum(h: Header, c: U128)
    ensures EncodeHeader(h)[16..] == EncodeHeader(h.(checksum := c))[16..]
    ensures EncodeHeader(h)[..16] == Bytes128(h.checksum)
  {
    var g := h.(checksum := c);
    var rest := Bytes128(h.checksumBody) + Bytes128(h.parent) + Bytes128(h.client) + Bytes128(h.context);
    assert EncodeWords(h) == Bytes128(h.checksum) + rest && EncodeWords(g) == Bytes128(c) + rest;
    var tail := EncodeCounters(h) + [h.replica, h.command, h.operation, h.version];
    assert EncodeHeader(h) == Bytes128(h.checksum) + (rest + tail) && EncodeHeader(g) == Bytes128(c) + (rest + tail);
  }

  lemma {:induction false} ZeroWord()
    ensures Bytes128(ZERO128) == ZEROS
  {
    assert Bytes(0, 4) == [0, 0, 0, 0] by {
      assert Bytes(0, 2) == [0, 0];
    }
    assert Bytes(0, 8) == [0, 0, 0, 0, 0, 0, 0, 0] by {
      assert Bytes(0, 6) == [0, 0, 0, 0, 0, 0];
    }
  }

  /** What the header checksum is taken over: the header as it lies on the wire, with the
      checksum's own sixteen bytes zeroed. */
  lemma {:induction false} ZeroedHeader(s: seq<Byte>)
    requires |s| == 128
    ensures EncodeHeader(DecodeHeader(s).(checksum := ZERO128)) == ZEROS + s[16..]
  {
    var h := DecodeHeader(s);
    var z := EncodeHeader(h.(checksum := ZERO128));
    HeaderBytes(s);
    SameBehindChecksum(h, ZERO128);
    SameBehindChecksum(h.(checksum := ZERO128), ZERO128);
    ZeroWord();
    assert z == z[..16] + z[16..];
  }

  /** Which bytes are accepted: 128 or more, whose size field is their number, whose first
      field is the hash of the header with that field zeroed, and whose second is the hash of
      the payload, or zero if there is none. */
  ghost predicate Intact(data: seq<Byte>, hash: Hash) {
    && |data| >= 128 && Value(data[80..84]) == |data|
    && WordAt(data, 0) == hash(ZEROS + data[16..128])
    && WordAt(data, 16) == if |data| == 128 then U128(0, 0) else hash(data[128..])
  }

  lemma {:induction false} AcceptedExactly(data: seq<Byte>, hash: Hash)
    ensures Decode(data, hash).Just? <==> Intact(data, hash)
    ensures Decode(data, hash).Just? ==> Decode(data, hash).message == WireMessage(DecodeHeader(data[..128]), data[128..])
  {
    if |data| >= 128 {
      var head := data[..128];
      ZeroedHeader(head);
      CountersLayout(head);
      WordsLayout(head);
      WordOfStart(data, 0, 128);
      WordOfStart(data, 16, 128);
      SliceOfStart(data, 80, 84, 128);
      SliceOfStart(data, 16, 128, 128);
      assert data[128..] == [] <==> |data| == 128;
      assert head[16..] == data[16..128];
    }
  }

  /** Whatever is accepted with a payload carries that payload's hash. */
  lemma {:induction false} AcceptedBody(data: seq<Byte>, hash: Hash)
    requires Decode(data, hash).Just?
    ensures var m := Decode(data, hash).message;
      m.header.checksumBody == if m.payload == [] then U128(0, 0) else hash(m.payload)
  {
    AcceptedExactly(data, hash);
    WordsLayout(data[..128]);
    WordOfStart(data, 16, 128);
  }

  /** Whatever is sent is intact, and carries its payload unchanged behind the header. */
  lemma {:induction false} SentIsIntact(m: WireMessage, hash: Hash)
    requires Sendable(m)
    ensures var data := Encode(m, hash); Intact(data, hash) && |data| == 128 + |m.payload| && data[128..] == m.payload
  {
    MessageRoundTrip(m, hash);
    AcceptedExactly(Encode(m, hash), hash);
  }

  lemma {:induction false} SameHead(a: seq<Byte>, b: seq<Byte>)
    requires |a| >= 128 && |b| >= 128 && a[..128] == b[..128]
    ensures WordAt(a, 0) == WordAt(b, 0) && WordAt(a, 16) == WordAt(b, 16)
    ensures a[80..84] == b[80..84] && a[16..128] == b[16..128]
  {
    WordOfStart(a, 0, 128);
    WordOfStart(b, 0, 128);
    WordOfStart(a, 16, 128);
    WordOfStart(b, 16, 128);
    SliceOfStart(a, 80, 84, 128);
    SliceOfStart(b, 80, 84, 128);
    SliceOfStart(a, 16, 128, 128);
    SliceOfStart(b, 16, 128, 128);
  }

  /** A payload changed on the way is accepted exactly when it is as long and has the same hash. */
  lemma {:induction false} ChangedPayload(m: WireMessage, payload: seq<Byte>, hash: Hash)
    requires Sendable(m)
    ensures Decode(Encode(m, hash)[..128] + payload, hash).Just? <==>
      |payload| == |m.payload| && (payload == [] || hash(payload) == hash(m.payload))
  {
    var sent := Encode(m, hash);
    var data := sent[..128] + payload;
    SentIsIntact(m, hash);
    AcceptedExactly(data, hash);
    assert data[..128] == sent[..128] && data[128..] == payload;
    SameHead(sent, data);
  }

  /** A header changed on the way, but for its checksum, is rejected if its hash has changed. */
  lemma {:induction false} ChangedHeader(m: WireMessage, header: seq<Byte>, hash: Hash)
    requires Sendable(m) && |header| == 128 && header[..16] == Encode(m, hash)[..16]
    requires hash(ZEROS + header[16..]) != hash(ZEROS + Encode(m, hash)[16..128])
    ensures Decode(header + m.payload, hash) == Nothing
  {
    var sent, data := Encode(m, hash), header + m.payload;
    SentIsIntact(m, hash);
    AcceptedExactly(data, hash);
    assert data[16..128] == header[16..];
    assert data[..16] == header[..16] == sent[..16];
    WordOfStart(data, 0, 16);
    WordOfStart(sent, 0, 16);
  }

  // Step by step

  method Serialize(m: WireMessage, hash: Hash) returns (buffer: seq<Byte>)
    requires Sendable(m)
    ensures buffer == Encode(m, hash) && Intact(buffer, hash) && |buffer| == 128 + |m.payload| && buffer[128..] == m.payload
  {
    SentIsIntact(m, hash);
    var copy := m;
    if copy.payload == [] {
      copy := copy.(header := copy.header.(checksumBody := ZERO128));
    } else {
      copy := copy.(header := copy.header.(checksumBody := hash(copy.payload)));
    }
    copy := copy.(header := copy.header.(size := (HEADER_SIZE + |copy.payload|) % 0x1_0000_0000));
    copy := copy.(header := copy.header.(checksum := ZERO128));
    copy := copy.(header := copy.header.(checksum := hash(EncodeHeader(copy.header))));
    buffer := EncodeHeader(copy.header);
    if copy.payload != [] {
      buffer := buffer + copy.payload;
    }
    assert copy == Sealed(m, hash) by {
      var h := m.header.(checksumBody := BodyChecksum(m.payload, hash), size := copy.header.size);
      assert h.(checksum := ZERO128) == copy.header.(checksum := ZERO128);
    }
    assert EncodeHeader(copy.header) + [] == EncodeHeader(copy.header);
  }

  /** Deserialize into a fresh message. */
  method Deserialize(data: seq<Byte>, hash: Hash) returns (ok: bool, m: WireMessage)
    ensures ok <==> Decode(data, hash).Just?
    ensures ok <==> Intact(data, hash)
    ensures ok ==> Decode(data, hash) == Just(m)
  {
    AcceptedExactly(data, hash);
    m := WireMessage(BLANK_HEADER, []);
    if |data| < HEADER_SIZE {
      return false, m;
    }
    m := m.(header := DecodeHeader(data[..HEADER_SIZE]));
    if m.header.size != |data| {
      return false, m;
    }
    var payloadSize := m.header.size - HEADER_SIZE;
    if payloadSize > 0 {
      m := m.(payload := data[HEADER_SIZE..]);
    }
    var copy := m.header.(checksum := ZERO128);
    if hash(EncodeHeader(copy)) != m.header.checksum {
      return false, m;
    }
    if m.payload == [] {
      ok := m.header.checksumBody.high == 0 && m.header.checksumBody.low == 0;
    } else {
      ok := hash(m.payload) == m.header.checksumBody;
    }
  }
}
