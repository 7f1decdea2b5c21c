/** The binary form in which a log crosses the wire. Acknowledgements are not part of it. */
module LogCodec {
  import opened Types
  import opened LittleEndian

  /** The fixed part of an entry: key, view, operation, client, request and payload length. */
  const ENTRY_HEADER: nat := 41

  /** The values that the fields of an entry can hold. */
  predicate EntryFits(k: nat, e: LogEntry) {
    && k < Range(8) && e.view < Range(4) && Fits128(e.client) && e.request < Range(4)
    && |e.payload| < Range(8)
  }

  predicate LogFits(log: Log) {
    |log| < Range(8) && forall k :: k in log ==> EntryFits(k, log[k])
  }

  // Writing

  function EncodeFixed(k: nat, e: LogEntry): (s: seq<Byte>)
    ensures |s| == ENTRY_HEADER
  {
    Bytes(k, 8) + Bytes(e.view, 4) + [e.opType] + Bytes128(e.client) + Bytes(e.request, 4) + Bytes(|e.payload|, 8)
  }

  function EncodeEntry(k: nat, e: LogEntry): seq<Byte> {
    EncodeFixed(k, e) + e.payload
  }

  function EncodeEntries(log: Log, keys: seq<nat>): seq<Byte>
    requires forall k :: k in keys ==> k in log
  {
    if keys == [] then [] else EncodeEntry(keys[0], log[keys[0]]) + EncodeEntries(log, keys[1..])
  }

  function EncodeLog(log: Log): seq<Byte> {
    Bytes(|log|, 8) + EncodeEntries(log, Ascending(log.Keys))
  }

  /** What the entries of a log take on the wire. */
  function EntriesSize(log: Log, keys: seq<nat>): nat
    requires forall k :: k in keys ==> k in log
  {
    if keys == [] then 0 else ENTRY_HEADER + |log[keys[0]].payload| + EntriesSize(log, keys[1..])
  }

  function WireSize(log: Log): nat {
    8 + EntriesSize(log, Ascending(log.Keys))
  }

  // Reading

  datatype Entry = NoEntry | Entry(key: nat, entry: LogEntry, rest: seq<Byte>)

  /** The fixed part of an entry, laid out as it is written. */
  function Fixed(s: seq<Byte>): LogEntry
    requires |s| == ENTRY_HEADER
  {
    LogEntry(Value(s[8..12]), s[12], U128(Value(s[13..21]), Value(s[21..29])), Value(s[29..33]), [], {})
  }

  function ReadEntry(s: seq<Byte>): Entry {
    if |s| < ENTRY_HEADER then NoEntry else
    var size := Value(s[33..41]);
    if |s| < ENTRY_HEADER + size then NoEntry else
    Entry(Value(s[..8]), Fixed(s[..41]).(payload := s[41..41 + size]), s[41 + size..])
  }

  /** A reader's verdict, the log it has filled in, and the bytes behind its cursor on success. */
  datatype Parsed = Parsed(ok: bool, log: Log, rest: seq<Byte>)

  function ReadEntries(s: seq<Byte>, count: nat, log: Log): Parsed {
    if count == 0 then Parsed(true, log, s) else
    match ReadEntry(s)
    case NoEntry => Parsed(false, log, [])
    case Entry(key, entry, rest) => ReadEntries(rest, count - 1, log[key := entry])
  }

  function ReadLog(s: seq<Byte>, log: Log): Parsed {
    match ReadPod(s, 8)
    case NoPod => Parsed(false, log, [])
    case Pod(count, rest) => ReadEntries(rest, count, log)
  }

  // Round trip

  lemma {:induction false} FixedRoundTrip(k: nat, e: LogEntry)
    requires EntryFits(k, e)
    ensures var s := EncodeFixed(k, e);
      Value(s[..8]) == k && Fixed(s) == e.(payload := [], acks := {}) && Value(s[33..41]) == |e.payload|
  {
    var s := EncodeFixed(k, e);
    ValueOfBytes(k, 8);
    ValueOfBytes(e.view, 4);
    ValueOfBytes(e.client.high, 8);
    ValueOfBytes(e.client.low, 8);
    ValueOfBytes(e.request, 4);
    ValueOfBytes(|e.payload|, 8);
    assert s[..8] == Bytes(k, 8) && s[8..12] == Bytes(e.view, 4) && s[12] == e.opType;
    assert s[13..21] == Bytes(e.client.high, 8) && s[21..29] == Bytes(e.client.low, 8);
    assert s[29..33] == Bytes(e.request, 4) && s[33..41] == Bytes(|e.payload|, 8);
  }

  /** Where each field of an entry is, in bytes from its start. */
  lemma {:induction false} EntryLayout(k: nat, e: LogEntry)
    requires EntryFits(k, e)
    ensures var s := EncodeEntry(k, e);
      && |s| == 41 + |e.payload| && Value(s[0..8]) == k && Value(s[8..12]) == e.view && s[12] == e.opType
      && Value(s[13..21]) == e.client.high && Value(s[21..29]) == e.client.low && Value(s[29..33]) == e.request
      && Value(s[33..41]) == |e.payload| && s[41..] == e.payload
  {
    var s, f := EncodeEntry(k, e), EncodeFixed(k, e);
    FixedRoundTrip(k, e);
    assert s[0..8] == f[..8] && s[8..12] == f[8..12] && s[13..21] == f[13..21] && s[21..29] == f[21..29];
    assert s[29..33] == f[29..33] && s[33..41] == f[33..41];
  }

  lemma {:induction false} EntryRoundTrip(k: nat, e: LogEntry, tail: seq<Byte>)
    requires EntryFits(k, e)
    ensures ReadEntry(EncodeEntry(k, e) + tail) == Entry(k, e.Bare(), tail)
  {
    var fixed := EncodeFixed(k, e);
    FixedRoundTrip(k, e);
    var s := fixed + e.payload + tail;
    assert s[..41] == fixed && s[..8] == fixed[..8] && s[33..41] == fixed[33..41];
    assert s[41..41 + |e.payload|] == e.payload && s[41 + |e.payload|..] == tail;
  }

  /** `log` with the entries at `keys` put in, as they look after a trip over the wire. */
  function With(log: Log, source: Log, keys: seq<nat>): Log
    requires forall k :: k in keys ==> k in source
    decreases |keys|
  {
    if keys == [] then log else With(log[keys[0] := source[keys[0]].Bare()], source, keys[1..])
  }

  lemma {:induction false} EntriesRoundTrip(source: Log, keys: seq<nat>, log: Log, tail: seq<Byte>)
    requires forall k :: k in keys ==> k in source && EntryFits(k, source[k])
    ensures ReadEntries(EncodeEntries(source, keys) + tail, |keys|, log) == Parsed(true, With(log, source, keys), tail)
  {
    if keys != [] {
      var k := keys[0];
      var rest := EncodeEntries(source, keys[1..]);
      Regroup(EncodeEntry(k, source[k]), rest, tail);
      EntryRoundTrip(k, source[k], rest + tail);
      EntriesRoundTrip(source, keys[1..], log[k := source[k].Bare()], tail);
    }
  }

  lemma {:induction false} WithAt(log: Log, source: Log, keys: seq<nat>, k: nat)
    requires forall j :: j in keys ==> j in source
    ensures k in With(log, source, keys) <==> k in log || k in keys
    ensures k in keys ==> With(log, source, keys)[k] == source[k].Bare()
    ensures k in log && k !in keys ==> With(log, source, keys)[k] == log[k]
    decreases |keys|
  {
    if keys != [] {
      WithAt(log[keys[0] := source[keys[0]].Bare()], source, keys[1..], k);
      assert k in keys <==> k == keys[0] || k in keys[1..];
    }
  }

  lemma {:induction false} WithAll(source: Log, keys: seq<nat>)
    requires forall k :: k in keys <==> k in source
    ensures With(map[], source, keys) == EraseAcks(source)
  {
    forall k ensures k in With(map[], source, keys) <==> k in source {
      WithAt(map[], source, keys, k);
    }
    forall k | k in source ensures With(map[], source, keys)[k] == source[k].Bare() {
      WithAt(map[], source, keys, k);
    }
  }

  /** Reading an encoded log, with any bytes behind it, gives the log without its
      acknowledgements and leaves the cursor at those bytes. */
  lemma {:induction false} RoundTrip(log: Log, tail: seq<Byte>)
    requires LogFits(log)
    ensures ReadLog(EncodeLog(log) + tail, map[]) == Parsed(true, EraseAcks(log), tail)
  {
    var keys := Ascending(log.Keys);
    assert |keys| == |log.Keys| == |log|;
    ListedRoundTrip(log, keys, tail);
  }

  lemma {:induction false} ListedRoundTrip(log: Log, keys: seq<nat>, tail: seq<Byte>)
    requires LogFits(log) && |keys| == |log| && forall k :: k in keys <==> k in log
    ensures ReadLog(Bytes(|log|, 8) + EncodeEntries(log, keys) + tail, map[]) == Parsed(true, EraseAcks(log), tail)
  {
    var entries := EncodeEntries(log, keys);
    Regroup(Bytes(|log|, 8), entries, tail);
    ReadWritten(|log|, 8, entries + tail);
    EntriesRoundTrip(log, keys, map[], tail);
    WithAll(log, keys);
  }

  /** Two logs have the same encoding only if they differ in acknowledgements alone. */
  lemma {:induction false} EncodingIsInjective(a: Log, b: Log)
    requires LogFits(a) && LogFits(b)
    ensures EncodeLog(a) == EncodeLog(b) <==> EraseAcks(a) == EraseAcks(b)
  {
    RoundTrip(a, []);
    RoundTrip(b, []);
    assert EncodeLog(a) + [] == EncodeLog(a) && EncodeLog(b) + [] == EncodeLog(b);
    if EraseAcks(a) == EraseAcks(b) {
      assert a.Keys == EraseAcks(a).Keys == EraseAcks(b).Keys == b.Keys;
      assert |a| == |a.Keys| && |b| == |b.Keys|;
      SameEntries(a, b, Ascending(a.Keys));
    }
  }

  lemma {:induction false} SameEntries(a: Log, b: Log, keys: seq<nat>)
    requires EraseAcks(a) == EraseAcks(b) && forall k :: k in keys ==> k in a && k in b
    ensures EncodeEntries(a, keys) == EncodeEntries(b, keys)
  {
    if keys != [] {
      var k := keys[0];
      assert a[k].Bare() == EraseAcks(a)[k] == EraseAcks(b)[k] == b[k].Bare();
      SameEntries(a, b, keys[1..]);
    }
  }

  // Truncation

  lemma {:induction false} EntryExtended(s: seq<Byte>, more: seq<Byte>)
    requires ReadEntry(s).Entry?
    ensures var r := ReadEntry(s); ReadEntry(s + more) == Entry(r.key, r.entry, r.rest + more)
  {
    var t, size := s + more, Value(s[33..41]);
    assert t[..8] == s[..8] && t[..41] == s[..41] && t[33..41] == s[33..41];
    assert t[41..41 + size] == s[41..41 + size] && t[41 + size..] == s[41 + size..] + more;
  }

  lemma {:induction false} EntriesExtended(s: seq<Byte>, count: nat, log: Log, more: seq<Byte>)
    requires ReadEntries(s, count, log).ok
    ensures var r := ReadEntries(s, count, log); ReadEntries(s + more, count, log) == Parsed(true, r.log, r.rest + more)
    decreases count
  {
    if count > 0 {
      var e := ReadEntry(s);
      EntryExtended(s, more);
      EntriesExtended(e.rest, count - 1, log[e.key := e.entry], more);
    }
  }

  lemma {:induction false} LogExtended(s: seq<Byte>, log: Log, more: seq<Byte>)
    requires ReadLog(s, log).ok
    ensures var r := ReadLog(s, log); ReadLog(s + more, log) == Parsed(true, r.log, r.rest + more)
  {
    ReadExtended(s, 8, more);
    var r := ReadPod(s, 8);
    EntriesExtended(r.rest, r.value, log, more);
  }

  /** No strict prefix of an encoded log can be read as a log. */
  lemma {:induction false} TruncationRejected(log: Log, k: nat)
    requires LogFits(log) && k < |EncodeLog(log)|
    ensures !ReadLog(EncodeLog(log)[..k], map[]).ok
  {
    var whole := EncodeLog(log);
    RoundTrip(log, []);
    assert whole + [] == whole && whole == whole[..k] + whole[k..];
    NoShorterRead(whole[..k], whole[k..]);
  }

  /** What reads to its very end does not read with its end cut off. */
  lemma {:induction false} NoShorterRead(s: seq<Byte>, more: seq<Byte>)
    requires more != [] && ReadLog(s + more, map[]).rest == []
    ensures !ReadLog(s, map[]).ok
  {
    if ReadLog(s, map[]).ok {
      LogExtended(s, map[], more);
    }
  }

  // Sizes

  lemma {:induction false} EntriesConsume(s: seq<Byte>, count: nat, log: Log)
    requires ReadEntries(s, count, log).ok
    ensures |s| - |ReadEntries(s, count, log).rest| >= ENTRY_HEADER * count
    decreases count
  {
    if count > 0 {
      var e := ReadEntry(s);
      EntriesConsume(e.rest, count - 1, log[e.key := e.entry]);
    }
  }

  /** A successful read of any bytes has consumed at least 8 + 41 times the declared count,
      so a declared count that the bytes cannot hold is always rejected. */
  lemma {:induction false} ReadConsumes(s: seq<Byte>, log: Log)
    requires ReadLog(s, log).ok
    ensures |s| - |ReadLog(s, log).rest| >= 8 + ENTRY_HEADER * Value(s[..8])
  {
    EntriesConsume(s[8..], Value(s[..8]), log);
  }

  lemma {:induction false} EncodedEntriesSize(log: Log, keys: seq<nat>)
    requires forall k :: k in keys ==> k in log
    ensures |EncodeEntries(log, keys)| == EntriesSize(log, keys)
    ensures EntriesSize(log, keys) >= ENTRY_HEADER * |keys|
  {
    if keys != [] {
      EncodedEntriesSize(log, keys[1..]);
    }
  }

  /** The encoding takes 8 bytes and, for each entry, 41 and its payload. */
  lemma {:induction false} EncodedSize(log: Log)
    ensures |EncodeLog(log)| == WireSize(log) >= 8 + ENTRY_HEADER * |log|
  {
    EncodedEntriesSize(log, Ascending(log.Keys));
    assert |log.Keys| == |log|;
  }

  // The loops

  lemma {:induction false} EncodeOneMore(log: Log, keys: seq<nat>, k: nat)
    requires k in log && forall j :: j in keys ==> j in log
    ensures EncodeEntries(log, keys + [k]) == EncodeEntries(log, keys) + EncodeEntry(k, log[k])
  {
    if keys == [] {
      assert keys + [k] == [k];
      assert [k][1..] == [];
    } else {
      assert (keys + [k])[1..] == keys[1..] + [k];
      EncodeOneMore(log, keys[1..], k);
      var first, rest := EncodeEntry(keys[0], log[keys[0]]), EncodeEntries(log, keys[1..]);
      assert first + (rest + EncodeEntry(k, log[k])) == (first + rest) + EncodeEntry(k, log[k]);
    }
  }

  method WriteEntry(buffer: seq<Byte>, k: nat, e: LogEntry) returns (out: seq<Byte>)
    ensures out == buffer + EncodeEntry(k, e)
  {
    out := Bytes(k, 8);
    out := out + Bytes(e.view, 4);
    out := out + [e.opType];
    out := out + Bytes128(e.client);
    out := out + Bytes(e.request, 4);
    out := out + Bytes(|e.payload|, 8);
    out := buffer + (out + e.payload);
  }

  method WriteEntries(buffer: seq<Byte>, log: Log, keys: seq<nat>) returns (out: seq<Byte>)
    requires forall k :: k in keys ==> k in log
    ensures out == buffer + EncodeEntries(log, keys)
  {
    out := buffer;
    for i := 0 to |keys|
      invariant out == buffer + EncodeEntries(log, keys[..i])
    {
      EncodeOneMore(log, keys[..i], keys[i]);
      assert keys[..i + 1] == keys[..i] + [keys[i]];
      Regroup(buffer, EncodeEntries(log, keys[..i]), EncodeEntry(keys[i], log[keys[i]]));
      out := WriteEntry(out, keys[i], log[keys[i]]);
    }
    assert keys[..|keys|] == keys;
  }

  /** Append the encoding of a log to a buffer. */
  method WriteLog(buffer: seq<Byte>, log: Log) returns (out: seq<Byte>)
    ensures out == buffer + EncodeLog(log)
  {
    var keys := Ascending(log.Keys);
    out := buffer + Bytes(|log|, 8);
    Regroup(buffer, Bytes(|log|, 8), EncodeEntries(log, keys));
    out := WriteEntries(out, log, keys);
  }

  /** Read one integer at a cursor, which moves behind it on success. */
  method TakePod(data: seq<Byte>, ptr: nat, w: nat) returns (ok: bool, value: nat, next: nat)
    requires ptr <= |data|
    ensures ok <==> ptr + w <= |data|
    ensures ok ==> value == Value(data[ptr..ptr + w])
    ensures next == if ok then ptr + w else ptr
  {
    if ptr + w > |data| {
      return false, 0, ptr;
    }
    return true, Value(data[ptr..ptr + w]), ptr + w;
  }

  lemma {:induction false} ReadPodAt(data: seq<Byte>, p: nat, w: nat)
    requires p + w <= |data|
    ensures ReadPod(data[p..], w) == Pod(Value(data[p..p + w]), data[p + w..])
  {
    assert data[p..][..w] == data[p..p + w] && data[p..][w..] == data[p + w..];
  }

  /** Reading an entry at a cursor, in terms of the whole buffer. */
  lemma {:induction false} ReadEntryAt(data: seq<Byte>, p: nat)
    requires p <= |data|
    ensures p + 41 > |data| ==> ReadEntry(data[p..]) == NoEntry
    ensures p + 41 <= |data| ==>
      var size := Value(data[p + 33..p + 41]);
      ReadEntry(data[p..]) ==
        if p + 41 + size > |data| then NoEntry else
        Entry(Value(data[p..p + 8]),
              LogEntry(Value(data[p + 8..p + 12]), data[p + 12],
                       U128(Value(data[p + 13..p + 21]), Value(data[p + 21..p + 29])),
                       Value(data[p + 29..p + 33]), data[p + 41..p + 41 + size], {}),
              data[p + 41 + size..])
  {
    var s := data[p..];
    if p + 41 <= |data| {
      assert s[..8] == data[p..p + 8] && s[..41][8..12] == data[p + 8..p + 12];
      assert s[..41][13..21] == data[p + 13..p + 21] && s[..41][21..29] == data[p + 21..p + 29];
      assert s[..41][29..33] == data[p + 29..p + 33] && s[33..41] == data[p + 33..p + 41];
      var size := Value(s[33..41]);
      if p + 41 + size <= |data| {
        assert s[41..41 + size] == data[p + 41..p + 41 + size] && s[41 + size..] == data[p + 41 + size..];
      }
    }
  }

  /** Read the fixed part of an entry at a cursor, and the size of its payload. */
  method TakeFixed(data: seq<Byte>, ptr: nat) returns (ok: bool, key: nat, entry: LogEntry, size: nat, next: nat)
    requires ptr <= |data|
    ensures ptr <= next <= |data| && (ok <==> ptr + 41 <= |data|)
    ensures ok ==>
      && key == Value(data[ptr..ptr + 8]) && size == Value(data[ptr + 33..ptr + 41]) && next == ptr + 41
      && entry == LogEntry(Value(data[ptr + 8..ptr + 12]), data[ptr + 12],
                           U128(Value(data[ptr + 13..ptr + 21]), Value(data[ptr + 21..ptr + 29])),
                           Value(data[ptr + 29..ptr + 33]), [], {})
  {
    entry, size := LogEntry(0, 0, ZERO128, 0, [], {}), 0;
    var view, request;
    ok, key, next := TakePod(data, ptr, 8);
    if !ok { return; }
    ok, view, next := TakePod(data, next, 4);
    if !ok { return; }
    if next + 1 > |data| { return false, key, entry, size, next; }
    var opType := data[next];
    next := next + 1;
    if next + 16 > |data| { return false, key, entry, size, next; }
    var client := U128(Value(data[next..next + 8]), Value(data[next + 8..next + 16]));
    next := next + 16;
    ok, request, next := TakePod(data, next, 4);
    if !ok { return; }
    ok, size, next := TakePod(data, next, 8);
    if !ok { return; }
    entry := LogEntry(view, opType, client, request, [], {});
  }

  method TakeEntry(data: seq<Byte>, ptr: nat) returns (ok: bool, key: nat, entry: LogEntry, next: nat)
    requires ptr <= |data|
    ensures ptr <= next <= |data|
    ensures ok <==> ReadEntry(data[ptr..]).Entry?
    ensures ok ==> ReadEntry(data[ptr..]) == Entry(key, entry, data[next..])
  {
    var size;
    ok, key, entry, size, next := TakeFixed(data, ptr);
    ReadEntryAt(data, ptr);
    if !ok { return; }
    if next + size > |data| { return false, key, entry, next; }
    entry := entry.(payload := data[next..next + size]);
    next := next + size;
  }

  method TakeEntries(data: seq<Byte>, ptr: nat, count: nat, initial: Log) returns (ok: bool, log: Log, next: nat)
    requires ptr <= |data|
    ensures ptr <= next <= |data|
    ensures var r := ReadEntries(data[ptr..], count, initial);
      ok == r.ok && log == r.log && (ok ==> r.rest == data[next..])
  {
    ok, log, next := true, initial, ptr;
    ghost var goal := ReadEntries(data[ptr..], count, initial);
    var i := 0;
    while i < count
      invariant i <= count && ptr <= next <= |data| && ok
      invariant ReadsOn(goal, data[next..], count - i, log)
    {
      var key, entry;
      ghost var s := data[next..];
      ReadsOneMore(goal, s, count - i, log);
      ok, key, entry, next := TakeEntry(data, next);
      if !ok { return; }
      log := log[key := entry];
      i := i + 1;
    }
  }

  /** Read a log at a cursor into a map; on failure the map keeps the entries read so far. */
  method TakeLog(data: seq<Byte>, ptr: nat, initial: Log) returns (ok: bool, log: Log, next: nat)
    requires ptr <= |data|
    ensures ptr <= next <= |data|
    ensures var r := ReadLog(data[ptr..], initial);
      ok == r.ok && log == r.log && (ok ==> r.rest == data[next..])
  {
    log := initial;
    var count;
    ok, count, next := TakePod(data, ptr, 8);
    if !ok { return; }
    ReadPodAt(data, ptr, 8);
    ok, log, next := TakeEntries(data, next, count, initial);
  }

  /** Reading `count` more entries from s into `log` leads to `goal`. */
  ghost predicate ReadsOn(goal: Parsed, s: seq<Byte>, count: nat, log: Log) {
    goal == ReadEntries(s, count, log)
  }

  lemma {:induction false} ReadsOneMore(goal: Parsed, s: seq<Byte>, count: nat, log: Log)
    requires ReadsOn(goal, s, count, log) && count > 0
    ensures ReadEntry(s).NoEntry? ==> goal == Parsed(false, log, [])
    ensures ReadEntry(s).Entry? ==>
      var e := ReadEntry(s); ReadsOn(goal, e.rest, count - 1, log[e.key := e.entry])
  {
  }
}
