/** Executing committed operations against the key-value map, and the sequential
    meaning of a log that execution must reproduce. */
module Execution {
  import opened Types

  // Reading whitespace-separated words from a payload

  predicate IsSpace(b: Byte) {
    b == 32 || 9 <= b <= 13
  }

  function SkipSpace(s: seq<Byte>): seq<Byte> {
    if s != [] && IsSpace(s[0]) then SkipSpace(s[1..]) else s
  }

  function WordLength(s: seq<Byte>): (k: nat)
    ensures k <= |s|
  {
    if s == [] || IsSpace(s[0]) then 0 else 1 + WordLength(s[1..])
  }

  /** The next word of a stream, and what is left of the stream. */
  function NextWord(s: seq<Byte>): (seq<Byte>, seq<Byte>) {
    var t := SkipSpace(s);
    var k := WordLength(t);
    (t[..k], t[k..])
  }

  // The state machine

  const SET_PREFIX: seq<Byte> := [83, 69, 84, 32]                     // "SET "
  const EQUALS_SIGN: seq<Byte> := [61]                                // "="
  const NOT_FOUND: seq<Byte> := [78, 79, 84, 95, 70, 79, 85, 78, 68]  // "NOT_FOUND"

  /** One operation applied to the map: the new map and the client's result. */
  function Apply(e: LogEntry, kv: KvMap): (KvMap, seq<Byte>) {
    if e.opType == OPERATION_SET then
      var (key, rest) := NextWord(e.payload);
      var (value, _) := NextWord(rest);
      (kv[key := value], SET_PREFIX + key + EQUALS_SIGN + value)
    else if e.opType == OPERATION_GET then
      var (key, _) := NextWord(e.payload);
      (kv, if key in kv then kv[key] else NOT_FOUND)
    else
      (kv, [])
  }

  /** The map after applying `ops` in order: the sequential meaning of a log. */
  function Replay(ops: seq<LogEntry>, kv: KvMap): KvMap {
    if ops == [] then kv else Replay(ops[1..], Apply(ops[0], kv).0)
  }

  lemma {:induction false} ReplayAppend(ops: seq<LogEntry>, e: LogEntry, kv: KvMap)
    ensures Replay(ops + [e], kv) == Apply(e, Replay(ops, kv)).0
  {
    if ops == [] {
      assert ops + [e] == [e];
    } else {
      assert (ops + [e])[1..] == ops[1..] + [e];
      ReplayAppend(ops[1..], e, Apply(ops[0], kv).0);
    }
  }

  // The execution loop

  function ReplyMessage(s: State, e: LogEntry, result: seq<Byte>): Message {
    BLANK.(command := Reply, view := s.view, client := e.client, request := e.request, payload := result)
  }

  /** The test that keeps an operation from being applied twice. */
  predicate AlreadyExecuted(s: State, e: LogEntry) {
    var c := Lookup(s.clients, e.client);
    c.request == e.request && c.executed
  }

  function ReplyTo(s: State, e: LogEntry, result: seq<Byte>): seq<Output> {
    if s.IsPrimary() && e.client in s.connections && s.connections[e.client] != NoConnection
    then [Send(s.connections[e.client], ReplyMessage(s, e, result))]
    else []
  }

  predicate CanExecute(s: State) {
    s.lastExecuted < s.commit && s.lastExecuted + 1 in s.log
  }

  function ExecuteOne(s: State): Effect
    requires CanExecute(s)
  {
    var e := s.log[s.lastExecuted + 1];
    if AlreadyExecuted(s, e) then
      Effect(s.(clients := s.clients[e.client := Lookup(s.clients, e.client)],
                lastExecuted := s.lastExecuted + 1), [])
    else
      var (kv, result) := Apply(e, s.kv);
      Effect(s.(kv := kv, clients := s.clients[e.client := ClientEntry(e.request, true, result)],
                lastExecuted := s.lastExecuted + 1),
             ReplyTo(s, e, result))
  }

  /** `t` differs from `s` only in what execution may change. */
  ghost predicate SameButExecution(s: State, t: State) {
    t == s.(lastExecuted := t.lastExecuted, clients := t.clients, kv := t.kv)
  }

  /** What callers may rely on: only execution state moves, it moves over operations
      that are committed and present until none is left, and only replies are sent. */
  ghost predicate ExecutesTo(s: State, e: Effect) {
    var t := e.state;
    && SameButExecution(s, t)
    && s.lastExecuted <= t.lastExecuted
    && (t.lastExecuted == s.lastExecuted || t.lastExecuted <= s.commit)
    && (forall k :: s.lastExecuted < k <= t.lastExecuted ==> k in s.log)
    && !CanExecute(t)
    && (forall o :: o in e.sent ==> o.Send? && o.msg.command == Reply && o.msg.view == s.view)
  }

  /** Run every operation that is committed and present. */
  function Execute(s: State): (r: Effect)
    ensures ExecutesTo(s, r)
    decreases s.commit - s.lastExecuted
  {
    if CanExecute(s) then
      var first := ExecuteOne(s);
      var rest := Execute(first.state);
      Effect(rest.state, first.sent + rest.sent)
    else
      Effect(s, [])
  }
}
