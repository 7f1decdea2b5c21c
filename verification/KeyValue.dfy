/** What executing operations means to the clients of the key-value store: which word of a
    payload is the key and which the value, what an operation stores and answers, and that
    a key holds the value of its last write. */
module KeyValue {
  import opened Types
  import opened Execution
  import opened Handlers
  import opened Replays

  // Words

  predicate Blank(b: Byte) {
    b == 9 || b == 10 || b == 11 || b == 12 || b == 13 || b == 32
  }

  predicate AllBlank(s: seq<Byte>) {
    forall i :: 0 <= i < |s| ==> Blank(s[i])
  }

  predicate Wordlike(s: seq<Byte>) {
    forall i :: 0 <= i < |s| ==> !Blank(s[i])
  }

  /** s is a gap of blanks, then a word, as long as it can be, then the rest; the word is
      empty only if nothing but blanks is left. */
  predicate Splits(s: seq<Byte>, gap: seq<Byte>, word: seq<Byte>, rest: seq<Byte>) {
    && s == gap + word + rest && AllBlank(gap) && Wordlike(word)
    && (rest != [] ==> Blank(rest[0])) && (word == [] ==> rest == [])
  }

  ghost predicate FirstWord(s: seq<Byte>, word: seq<Byte>, rest: seq<Byte>) {
    exists gap :: Splits(s, gap, word, rest)
  }

  lemma {:induction false} WordLengthEnds(s: seq<Byte>)
    ensures var k := WordLength(s); Wordlike(s[..k]) && (k < |s| ==> Blank(s[k])) && (s != [] && !Blank(s[0]) ==> k > 0)
  {
    if s != [] && !IsSpace(s[0]) {
      WordLengthEnds(s[1..]);
      var k := WordLength(s[1..]);
      assert s[..1 + k] == [s[0]] + s[1..][..k];
    }
  }

  lemma {:induction false} SplitsAfter(s: seq<Byte>, gap: seq<Byte>, word: seq<Byte>, rest: seq<Byte>)
    requires s != [] && Blank(s[0]) && Splits(s[1..], gap, word, rest)
    ensures Splits(s, [s[0]] + gap, word, rest)
  {
    assert s == [s[0]] + s[1..];
    assert [s[0]] + gap + word + rest == [s[0]] + (gap + word + rest);
  }

  lemma {:induction false} NextWordSplits(s: seq<Byte>) returns (gap: seq<Byte>)
    ensures Splits(s, gap, NextWord(s).0, NextWord(s).1)
  {
    if s != [] && IsSpace(s[0]) {
      gap := NextWordSplits(s[1..]);
      SplitsAfter(s, gap, NextWord(s).0, NextWord(s).1);
      gap := [s[0]] + gap;
    } else {
      gap := [];
      WordLengthEnds(s);
    }
  }

  lemma {:induction false} WordLengthOf(word: seq<Byte>, rest: seq<Byte>)
    requires Wordlike(word) && (rest != [] ==> Blank(rest[0]))
    ensures WordLength(word + rest) == |word|
  {
    if word == [] {
      assert word + rest == rest;
    } else {
      assert (word + rest)[1..] == word[1..] + rest;
      WordLengthOf(word[1..], rest);
    }
  }

  lemma {:induction false} SplitIsNextWord(s: seq<Byte>, gap: seq<Byte>, word: seq<Byte>, rest: seq<Byte>)
    requires Splits(s, gap, word, rest)
    ensures NextWord(s) == (word, rest)
    decreases |gap|
  {
    if gap != [] {
      assert s[1..] == gap[1..] + word + rest;
      SplitIsNextWord(s[1..], gap[1..], word, rest);
    } else {
      assert s == word + rest;
      WordLengthOf(word, rest);
    }
  }

  /** The code's reader finds the first word, and there is only one. */
  lemma {:induction false} FirstWordExactly(s: seq<Byte>, word: seq<Byte>, rest: seq<Byte>)
    ensures FirstWord(s, word, rest) <==> NextWord(s) == (word, rest)
  {
    if FirstWord(s, word, rest) {
      var gap :| Splits(s, gap, word, rest);
      SplitIsNextWord(s, gap, word, rest);
    }
    var gap := NextWordSplits(s);
  }

  // Operations

  /** e is a SET, operation byte 1, whose first word is the key and whose second is the value. */
  ghost predicate SetsTo(e: LogEntry, key: seq<Byte>, value: seq<Byte>) {
    e.opType == 1 && exists rest, end :: FirstWord(e.payload, key, rest) && FirstWord(rest, value, end)
  }

  ghost predicate SetsKey(e: LogEntry, key: seq<Byte>) {
    exists value :: SetsTo(e, key, value)
  }

  /** e is a GET, operation byte 3, whose first word is the key. */
  ghost predicate Gets(e: LogEntry, key: seq<Byte>) {
    e.opType == 3 && exists rest :: FirstWord(e.payload, key, rest)
  }

  lemma {:induction false} SetsToExactly(e: LogEntry, key: seq<Byte>, value: seq<Byte>)
    ensures SetsTo(e, key, value) <==>
      e.opType == 1 && NextWord(e.payload).0 == key && NextWord(NextWord(e.payload).1).0 == value
  {
    var (k, rest) := NextWord(e.payload);
    var (v, end) := NextWord(rest);
    FirstWordExactly(e.payload, k, rest);
    FirstWordExactly(rest, v, end);
    if SetsTo(e, key, value) {
      var r, q :| FirstWord(e.payload, key, r) && FirstWord(r, value, q);
      FirstWordExactly(e.payload, key, r);
      FirstWordExactly(r, value, q);
    }
  }

  lemma {:induction false} GetsExactly(e: LogEntry, key: seq<Byte>)
    ensures Gets(e, key) <==> e.opType == 3 && NextWord(e.payload).0 == key
  {
    var (k, rest) := NextWord(e.payload);
    FirstWordExactly(e.payload, k, rest);
    if Gets(e, key) {
      var r :| FirstWord(e.payload, key, r);
      FirstWordExactly(e.payload, key, r);
    }
  }

  lemma {:induction false} SetsKeyExactly(e: LogEntry, key: seq<Byte>)
    ensures SetsKey(e, key) <==> e.opType == 1 && NextWord(e.payload).0 == key
  {
    SetsToExactly(e, key, NextWord(NextWord(e.payload).1).0);
    if SetsKey(e, key) {
      var value :| SetsTo(e, key, value);
      SetsToExactly(e, key, value);
    }
  }

  /** The effect of operation e on the map `kv`: the map it leaves and the answer it gets,
      "SET key=value", the value, or "NOT_FOUND". */
  ghost predicate Meaning(e: LogEntry, kv: KvMap, kv': KvMap, answer: seq<Byte>) {
    && (forall key, value :: SetsTo(e, key, value) ==>
          kv' == kv[key := value] && answer == [83, 69, 84, 32] + key + [61] + value)
    && (forall key :: Gets(e, key) ==>
          kv' == kv && answer == if key in kv then kv[key] else [78, 79, 84, 95, 70, 79, 85, 78, 68])
    && (e.opType != 1 && e.opType != 3 ==> kv' == kv && answer == [])
  }

  lemma {:induction false} SetApplies(e: LogEntry, kv: KvMap, key: seq<Byte>, value: seq<Byte>)
    requires SetsTo(e, key, value)
    ensures Apply(e, kv) == (kv[key := value], [83, 69, 84, 32] + key + [61] + value)
  {
    SetsToExactly(e, key, value);
  }

  lemma {:induction false} SetMeaning(e: LogEntry, kv: KvMap, kv': KvMap, answer: seq<Byte>)
    requires e.opType == 1
    ensures Apply(e, kv) == (kv', answer) <==> Meaning(e, kv, kv', answer)
  {
    var k := NextWord(e.payload).0;
    var v := NextWord(NextWord(e.payload).1).0;
    SetsToExactly(e, k, v);
    SetApplies(e, kv, k, v);
    if Apply(e, kv) == (kv', answer) {
      forall key, value | SetsTo(e, key, value)
        ensures kv' == kv[key := value] && answer == [83, 69, 84, 32] + key + [61] + value
      {
        SetApplies(e, kv, key, value);
      }
    }
  }

  lemma {:induction false} GetMeaning(e: LogEntry, kv: KvMap, kv': KvMap, answer: seq<Byte>)
    requires e.opType == 3
    ensures Apply(e, kv) == (kv', answer) <==> Meaning(e, kv, kv', answer)
  {
    var k := NextWord(e.payload).0;
    GetsExactly(e, k);
    forall key | Gets(e, key) ensures key == k {
      GetsExactly(e, key);
    }
  }

  /** Applying an operation is its meaning, which leaves no choice. */
  lemma {:induction false} ApplyExactly(e: LogEntry, kv: KvMap, kv': KvMap, answer: seq<Byte>)
    ensures Apply(e, kv) == (kv', answer) <==> Meaning(e, kv, kv', answer)
  {
    if e.opType == 1 {
      SetMeaning(e, kv, kv', answer);
    } else if e.opType == 3 {
      GetMeaning(e, kv, kv', answer);
    }
  }

  // One step of execution

  /** The reply to operation e goes to its client, from a primary that has its connection. */
  function ReplyWith(s: State, e: LogEntry, answer: seq<Byte>): seq<Output> {
    if s.id == s.view % (2 * ((s.n - 1) / 2) + 1) && e.client in s.connections && s.connections[e.client] != NoConnection
    then [Send(s.connections[e.client], Message(Reply, s.view, 0, 0, 0, e.client, e.request, 0, answer, NO_BODY))]
    else []
  }

  lemma {:induction false} ReplyToExactly(s: State, e: LogEntry, answer: seq<Byte>)
    ensures ReplyTo(s, e, answer) == ReplyWith(s, e, answer)
  {
    RemainderIsModulo(s.view, 2 * ((s.n - 1) / 2) + 1);
  }

  /** One turn of the execution loop, exactly: an operation whose client is marked executed for
      it only advances the counter; any other changes the map as it means to, is remembered
      with its answer, and is answered. */
  lemma {:induction false} ExecuteOneExactly(s: State) returns (kv: KvMap, answer: seq<Byte>)
    requires s.lastExecuted < s.commit && s.lastExecuted + 1 in s.log
    ensures var e := s.log[s.lastExecuted + 1];
      && Meaning(e, s.kv, kv, answer)
      && ExecuteOne(s) ==
           if e.client in s.clients && s.clients[e.client].request == e.request && s.clients[e.client].executed
           then Effect(s.(lastExecuted := s.lastExecuted + 1), [])
           else Effect(s.(kv := kv, lastExecuted := s.lastExecuted + 1,
                          clients := s.clients[e.client := ClientEntry(e.request, true, answer)]),
                       ReplyWith(s, e, answer))
  {
    var e := s.log[s.lastExecuted + 1];
    kv, answer := Apply(e, s.kv).0, Apply(e, s.kv).1;
    ApplyExactly(e, s.kv, kv, answer);
    ReplyToExactly(s, e, answer);
    if e.client in s.clients {
      assert s.clients[e.client := s.clients[e.client]] == s.clients;
    }
  }

  lemma {:induction false} PlainWords(key: seq<Byte>, value: seq<Byte>)
    requires key != [] && value != [] && Wordlike(key) && Wordlike(value)
    ensures FirstWord(key, key, []) && FirstWord(key + [32] + value, key, [32] + value) && FirstWord([32] + value, value, [])
  {
    var blank: seq<Byte> := [32];
    assert key == [] + key + [] && key + blank + value == [] + key + (blank + value);
    assert blank + value == blank + value + [];
    assert Splits(key, [], key, []) && Splits(key + blank + value, [], key, blank + value);
    assert Splits(blank + value, blank, value, []);
  }

  /** "SET key value": the key gets the value, every other key stays as it was, and the
      answer is "SET key=value". */
  lemma {:induction false} SetStores(s: State, key: seq<Byte>, value: seq<Byte>)
    requires key != [] && value != [] && Wordlike(key) && Wordlike(value)
    requires CanExecute(s) && !AlreadyExecuted(s, s.log[s.lastExecuted + 1])
    requires var e := s.log[s.lastExecuted + 1]; e.opType == 1 && e.payload == key + [32] + value
    ensures var e, r := s.log[s.lastExecuted + 1], ExecuteOne(s);
      && key in r.state.kv && r.state.kv[key] == value
      && (forall k :: k != key ==> (k in r.state.kv <==> k in s.kv) && (k in s.kv ==> r.state.kv[k] == s.kv[k]))
      && r.sent == ReplyWith(s, e, [83, 69, 84, 32] + key + [61] + value)
      && r.state.clients == s.clients[e.client := ClientEntry(e.request, true, [83, 69, 84, 32] + key + [61] + value)]
  {
    PlainWords(key, value);
    assert SetsTo(s.log[s.lastExecuted + 1], key, value);
    var kv, answer := ExecuteOneExactly(s);
  }

  /** "GET key": the map stays as it was, and the answer is the key's value or "NOT_FOUND". */
  lemma {:induction false} GetAnswers(s: State, key: seq<Byte>)
    requires key != [] && Wordlike(key)
    requires CanExecute(s) && !AlreadyExecuted(s, s.log[s.lastExecuted + 1])
    requires var e := s.log[s.lastExecuted + 1]; e.opType == 3 && e.payload == key
    ensures var e, r := s.log[s.lastExecuted + 1], ExecuteOne(s);
      var answer := if key in s.kv then s.kv[key] else [78, 79, 84, 95, 70, 79, 85, 78, 68];
      && r.state.kv == s.kv && r.sent == ReplyWith(s, e, answer)
      && r.state.clients == s.clients[e.client := ClientEntry(e.request, true, answer)]
  {
    PlainWords(key, key);
    assert Gets(s.log[s.lastExecuted + 1], key);
    var kv, answer := ExecuteOneExactly(s);
  }

  // Whole logs

  predicate Holds(kv: KvMap, key: seq<Byte>, value: seq<Byte>) {
    key in kv && kv[key] == value
  }

  /** Operation j is the last of the first k to set the key, and sets it to the value. */
  ghost predicate LastWrite(log: Log, k: nat, j: nat, key: seq<Byte>, value: seq<Byte>) {
    1 <= j <= k && j in log && SetsTo(log[j], key, value) && forall i :: j < i <= k && i in log ==> !SetsKey(log[i], key)
  }

  ghost predicate Written(log: Log, k: nat, key: seq<Byte>) {
    exists i :: 1 <= i <= k && i in log && SetsKey(log[i], key)
  }

  /** The map holds, of every key, what the last of the first k operations to set it did. */
  ghost predicate LastWrites(log: Log, k: nat, kv: KvMap) {
    && (forall key, value, j: nat :: LastWrite(log, k, j, key, value) ==> Holds(kv, key, value))
    && (forall key :: key in kv <==> Written(log, k, key))
  }

  lemma {:induction false} WriteHere(log: Log, k: nat, kv: KvMap, kv': KvMap)
    requires k >= 1 && k in log && LastWrites(log, k - 1, kv) && kv' == Apply(log[k], kv).0
    ensures forall key, value, j: nat :: LastWrite(log, k, j, key, value) ==> Holds(kv', key, value)
  {
    forall key, value, j: nat | LastWrite(log, k, j, key, value) ensures Holds(kv', key, value) {
      SetsKeyExactly(log[k], key);
      SetsToExactly(log[k], key, value);
      if j < k {
        assert LastWrite(log, k - 1, j, key, value);
        assert Holds(kv, key, value);
        assert !SetsKey(log[k], key);
      }
    }
  }

  lemma {:induction false} WrittenHere(log: Log, k: nat, key: seq<Byte>)
    requires k >= 1 && k in log
    ensures Written(log, k, key) <==> Written(log, k - 1, key) || SetsKey(log[k], key)
  {
  }

  lemma {:induction false} OneMoreWrite(log: Log, k: nat, kv: KvMap)
    requires k >= 1 && k in log && LastWrites(log, k - 1, kv)
    ensures LastWrites(log, k, Apply(log[k], kv).0)
  {
    var kv' := Apply(log[k], kv).0;
    WriteHere(log, k, kv, kv');
    forall key ensures key in kv' <==> Written(log, k, key) {
      WrittenHere(log, k, key);
      SetsKeyExactly(log[k], key);
      assert key in kv <==> Written(log, k - 1, key);
    }
  }

  /** Last write wins: replaying the first k operations of a log from the empty map leaves
      each key with the value of the last of them to set it, and no key that none of them sets. */
  lemma {:induction false} LastWriteWins(log: Log, k: nat)
    requires forall j :: 1 <= j <= k ==> j in log
    ensures LastWrites(log, k, Replay(Prefix(log, k), map[]))
  {
    if k > 0 {
      LastWriteWins(log, k - 1);
      ReplayOneMore(log, k, map[]);
      OneMoreWrite(log, k, Replay(Prefix(log, k - 1), map[]));
    }
  }

  /** The last write is there to be found. */
  lemma {:induction false} LastWriteExists(log: Log, k: nat, key: seq<Byte>) returns (j: nat, value: seq<Byte>)
    requires Written(log, k, key)
    ensures LastWrite(log, k, j, key, value)
  {
    if k in log && SetsKey(log[k], key) && k >= 1 {
      j := k;
      value :| SetsTo(log[k], key, value);
    } else {
      var i :| 1 <= i <= k && i in log && SetsKey(log[i], key);
      assert i <= k - 1;
      j, value := LastWriteExists(log, k - 1, key);
    }
  }

  ghost predicate LastBefore(log: Log, k: nat, j: nat, key: seq<Byte>, value: seq<Byte>) {
    k >= 1 && LastWrite(log, k - 1, j, key, value)
  }

  /** The answer that operation k of a log is to get: a SET its key and value, a GET the value
      of the last earlier SET of its key. */
  ghost predicate Right(log: Log, k: nat, answer: seq<Byte>) {
    && k >= 1 && k in log
    && (forall key, value :: SetsTo(log[k], key, value) ==> answer == [83, 69, 84, 32] + key + [61] + value)
    && (forall key, value, j: nat :: Gets(log[k], key) && LastBefore(log, k, j, key, value) ==> answer == value)
    && (forall key :: Gets(log[k], key) && !Written(log, k - 1, key) ==> answer == [78, 79, 84, 95, 70, 79, 85, 78, 68])
    && (log[k].opType != 1 && log[k].opType != 3 ==> answer == [])
  }

  lemma {:induction false} MeaningIsRight(log: Log, k: nat, kv: KvMap, kv': KvMap, answer: seq<Byte>)
    requires k >= 1 && k in log && LastWrites(log, k - 1, kv) && Meaning(log[k], kv, kv', answer)
    ensures Right(log, k, answer)
  {
    forall key, value, j: nat | Gets(log[k], key) && LastBefore(log, k, j, key, value) ensures answer == value {
      assert Holds(kv, key, value);
    }
  }

  /** The sequential result of an operation is the right answer to it. */
  lemma {:induction false} SequentialIsRight(log: Log, k: nat)
    requires k >= 1 && forall j :: 1 <= j <= k ==> j in log
    ensures Right(log, k, SequentialResult(log, k, map[]))
  {
    var kv := Replay(Prefix(log, k - 1), map[]);
    LastWriteWins(log, k - 1);
    ApplyExactly(log[k], kv, Apply(log[k], kv).0, Apply(log[k], kv).1);
    MeaningIsRight(log, k, kv, Apply(log[k], kv).0, Apply(log[k], kv).1);
  }

  /** And there is no other. */
  lemma {:induction false} RightIsUnique(log: Log, k: nat, a: seq<Byte>, b: seq<Byte>)
    requires Right(log, k, a) && Right(log, k, b)
    ensures a == b
  {
    var (key, rest) := NextWord(log[k].payload);
    if log[k].opType == 1 {
      SetsToExactly(log[k], key, NextWord(rest).0);
    } else if log[k].opType == 3 {
      GetsExactly(log[k], key);
      if Written(log, k - 1, key) {
        var j, value := LastWriteExists(log, k - 1, key);
        assert LastBefore(log, k, j, key, value);
      }
    }
  }

  lemma {:induction false} WrittenExactly(log: Log, k: nat, key: seq<Byte>)
    requires forall j :: 1 <= j <= k ==> j in log
    ensures Written(log, k, key) <==> Writes(Prefix(log, k), key)
  {
    var ops := Prefix(log, k);
    if Written(log, k, key) {
      var i :| 1 <= i <= k && i in log && SetsKey(log[i], key);
      SetsKeyExactly(log[i], key);
      assert Sets(ops[i - 1], key);
    }
    if Writes(ops, key) {
      var j :| 0 <= j < |ops| && Sets(ops[j], key);
      SetsKeyExactly(log[j + 1], key);
    }
  }

  lemma {:induction false} GetOver(log: Log, k: nat, base: KvMap, key: seq<Byte>)
    requires k >= 1 && (forall j :: 1 <= j <= k ==> j in log) && Gets(log[k], key)
    ensures Written(log, k - 1, key) ==> SequentialResult(log, k, base) == SequentialResult(log, k, map[])
    ensures !Written(log, k - 1, key) ==>
      SequentialResult(log, k, base) == if key in base then base[key] else [78, 79, 84, 95, 70, 79, 85, 78, 68]
  {
    var ops := Prefix(log, k - 1);
    GetsExactly(log[k], key);
    WrittenExactly(log, k - 1, key);
    if Writes(ops, key) {
      ReplayWritesTheSame(ops, base, map[], key);
    } else {
      ReplayLeavesUnwritten(ops, base, key);
    }
  }

  /** Executing a log over a map that is not empty, as after a recovery, gives operation k its
      right answer if and only if it is not a GET of a key that no earlier operation sets and
      the map holds: that one is answered with what the map holds. */
  lemma {:induction false} RightOverExactly(log: Log, k: nat, base: KvMap)
    requires k >= 1 && forall j :: 1 <= j <= k ==> j in log
    ensures Right(log, k, SequentialResult(log, k, base)) <==>
      forall key :: Gets(log[k], key) && !Written(log, k - 1, key) && key in base ==>
        base[key] == [78, 79, 84, 95, 70, 79, 85, 78, 68]
  {
    SequentialIsRight(log, k);
    if log[k].opType == 3 {
      var key := NextWord(log[k].payload).0;
      GetsExactly(log[k], key);
      GetOver(log, k, base, key);
      forall other | Gets(log[k], other) ensures other == key {
        GetsExactly(log[k], other);
      }
      if Right(log, k, SequentialResult(log, k, base)) {
        RightIsUnique(log, k, SequentialResult(log, k, base), SequentialResult(log, k, map[]));
      }
    } else {
      assert SequentialResult(log, k, base) == SequentialResult(log, k, map[]);
    }
  }

  // Repeated requests

  /** A request repeated right after its execution is answered from the client table with the
      answer that execution gave. */
  lemma {:induction false} RepeatedAfterExecution(s: State, inb: Inbound)
    requires CanExecute(s) && !AlreadyExecuted(s, s.log[s.lastExecuted + 1])
    requires var e := s.log[s.lastExecuted + 1]; inb.message.client == e.client && inb.message.request == e.request
    ensures var e, t := s.log[s.lastExecuted + 1], ExecuteOne(s).state;
      exists kv, answer :: Meaning(e, s.kv, kv, answer) && ExecuteOne(s).sent == ReplyWith(s, e, answer) &&
        HandleRequest(t, inb) ==
          Effect(t, [Send(inb.connection, Message(Reply, 0, 0, 0, 0, e.client, e.request, 0, answer, NO_BODY))])
  {
    var kv, answer := ExecuteOneExactly(s);
    var e, t := s.log[s.lastExecuted + 1], ExecuteOne(s).state;
    assert t.clients[e.client := t.clients[e.client]] == t.clients;
    assert Meaning(e, s.kv, kv, answer);
  }

  /** Wherever a replica keeps the results of what it has executed, a repetition of an executed
      request is answered, at once and without any change, with the right answer. */
  lemma {:induction false} RepetitionAnswered(s: State, inb: Inbound) returns (j: nat, answer: seq<Byte>)
    requires Faithful(s) && inb.message.client in s.clients
    requires var c := s.clients[inb.message.client]; c.request == inb.message.request && c.executed
    ensures var m := inb.message;
      && 1 <= j <= s.lastExecuted && j in s.log && s.log[j].client == m.client && s.log[j].request == m.request
      && Right(s.log, j, answer)
      && HandleRequest(s, inb) ==
           Effect(s, [Send(inb.connection, Message(Reply, 0, 0, 0, 0, m.client, m.request, 0, answer, NO_BODY))])
  {
    var m := inb.message;
    var c := s.clients[m.client];
    assert MarkOk(s.log, s.lastExecuted, m.client, c, map[]);
    j :| 1 <= j <= s.lastExecuted && Keeps(s.log, j, m.client, c, map[]);
    answer := c.result;
    SequentialIsRight(s.log, j);
    assert s.clients[m.client := c] == s.clients;
  }
}
