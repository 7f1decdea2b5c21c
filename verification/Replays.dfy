/** Executing a log whose operations are all different is the same as replaying it. */
module Replays {
  import opened Types
  import opened Execution
  import opened Handlers

  /** The first k operations of a log, in order. */
  function Prefix(log: Log, k: nat): (r: seq<LogEntry>)
    requires forall j :: 1 <= j <= k ==> j in log
    ensures |r| == k && forall j :: 0 <= j < k ==> r[j] == log[j + 1].Bare()
  {
    if k == 0 then [] else Prefix(log, k - 1) + [log[k].Bare()]
  }

  /** No two slots hold the same request of the same client. */
  ghost predicate Distinct(log: Log) {
    forall a, b :: a in log && b in log && log[a].client == log[b].client && log[a].request == log[b].request ==> a == b
  }

  /** Operation j is the one the client's entry speaks of, and the entry keeps the result
      that j has when the log is replayed over `base`. */
  ghost predicate Keeps(log: Log, j: nat, client: U128, c: ClientEntry, base: KvMap) {
    && 1 <= j && (forall i :: 1 <= i <= j ==> i in log)
    && log[j].client == client && log[j].request == c.request && c.result == SequentialResult(log, j, base)
  }

  /** A client that is marked executed is so for one of the first k operations. */
  ghost predicate MarkOk(log: Log, k: nat, client: U128, c: ClientEntry, base: KvMap) {
    c.executed ==> exists j :: 1 <= j <= k && Keeps(log, j, client, c, base)
  }

  ghost predicate MarksOk(s: State, base: KvMap) {
    forall client :: client in s.clients ==> MarkOk(s.log, s.lastExecuted, client, s.clients[client], base)
  }

  /** The map is the replay, over `base`, of what has been executed, and no client is
      marked executed for anything else or keeps another result. */
  ghost predicate FaithfulOver(s: State, base: KvMap) {
    && (forall j :: 1 <= j <= s.lastExecuted ==> j in s.log)
    && s.kv == Replay(Prefix(s.log, s.lastExecuted), base)
    && MarksOk(s, base)
  }

  ghost predicate Faithful(s: State) {
    FaithfulOver(s, map[])
  }

  /** The result that operation k has when the log is replayed over `base`. */
  ghost function SequentialResult(log: Log, k: nat, base: KvMap): seq<Byte>
    requires k >= 1 && forall j :: 1 <= j <= k ==> j in log
  {
    Apply(log[k], Replay(Prefix(log, k - 1), base)).1
  }

  /** `o` answers operation k of the log with its sequential result. */
  ghost predicate ReplyOver(s: State, o: Output, k: nat, base: KvMap) {
    && k >= 1 && (forall j :: 1 <= j <= k ==> j in s.log)
    && o.Send? && o.msg == ReplyMessage(s, s.log[k], SequentialResult(s.log, k, base))
  }

  /** The skip test never drops an operation. */
  lemma {:induction false} NeverSkipped(s: State, base: KvMap)
    requires MarksOk(s, base) && Distinct(s.log) && CanExecute(s)
    ensures !AlreadyExecuted(s, s.log[s.lastExecuted + 1])
  {
    var e := s.log[s.lastExecuted + 1];
    if e.client in s.clients {
      assert MarkOk(s.log, s.lastExecuted, e.client, s.clients[e.client], base);
    }
  }

  lemma {:induction false} ExecuteOneMarks(s: State, base: KvMap)
    requires FaithfulOver(s, base) && Distinct(s.log) && CanExecute(s)
    ensures MarksOk(ExecuteOne(s).state, base)
  {
    NeverSkipped(s, base);
    var k := s.lastExecuted + 1;
    var t := ExecuteOne(s).state;
    forall client | client in t.clients ensures MarkOk(t.log, k, client, t.clients[client], base) {
      if client == s.log[k].client {
        assert Keeps(t.log, k, client, t.clients[client], base);
      } else {
        assert MarkOk(s.log, k - 1, client, s.clients[client], base);
      }
    }
  }

  lemma {:induction false} ApplyBare(e: LogEntry, kv: KvMap)
    ensures Apply(e.Bare(), kv) == Apply(e, kv)
  {
  }

  lemma {:induction false} ReplayOneMore(log: Log, k: nat, base: KvMap)
    requires k >= 1 && forall j :: 1 <= j <= k ==> j in log
    ensures Replay(Prefix(log, k), base) == Apply(log[k], Replay(Prefix(log, k - 1), base)).0
  {
    ReplayAppend(Prefix(log, k - 1), log[k].Bare(), base);
    ApplyBare(log[k], Replay(Prefix(log, k - 1), base));
  }

  lemma {:induction false} ExecuteOneApplies(s: State, base: KvMap)
    requires MarksOk(s, base) && Distinct(s.log) && CanExecute(s)
    ensures var t := ExecuteOne(s).state;
      t.kv == Apply(s.log[s.lastExecuted + 1], s.kv).0 && t.log == s.log && t.lastExecuted == s.lastExecuted + 1
  {
    NeverSkipped(s, base);
  }

  lemma {:induction false} ExecuteOneFaithful(s: State, base: KvMap)
    requires FaithfulOver(s, base) && Distinct(s.log) && CanExecute(s)
    ensures FaithfulOver(ExecuteOne(s).state, base)
  {
    ExecuteOneApplies(s, base);
    ExecuteOneMarks(s, base);
    ReplayOneMore(s.log, s.lastExecuted + 1, base);
  }

  lemma {:induction false} ExecuteOneReplies(s: State, base: KvMap, o: Output)
    requires FaithfulOver(s, base) && Distinct(s.log) && CanExecute(s) && o in ExecuteOne(s).sent
    ensures ReplyOver(s, o, s.lastExecuted + 1, base)
  {
    ExecuteOneSends(s, base);
    var k := s.lastExecuted + 1;
    assert SequentialResult(s.log, k, base) == Apply(s.log[k], s.kv).1;
  }

  lemma {:induction false} ExecuteOneSends(s: State, base: KvMap)
    requires MarksOk(s, base) && Distinct(s.log) && CanExecute(s)
    ensures var e := s.log[s.lastExecuted + 1]; ExecuteOne(s).sent == ReplyTo(s, e, Apply(e, s.kv).1)
  {
    NeverSkipped(s, base);
  }

  /** Execution keeps the map equal to the replay. */
  lemma {:induction false} ExecuteFaithful(s: State, base: KvMap)
    requires FaithfulOver(s, base) && Distinct(s.log)
    ensures FaithfulOver(Execute(s).state, base)
    decreases s.commit - s.lastExecuted
  {
    if CanExecute(s) {
      ExecuteOneFaithful(s, base);
      ExecuteFaithful(ExecuteOne(s).state, base);
    }
  }

  /** Every reply sent on execution carries the sequential result of its operation. */
  lemma {:induction false} ExecuteReplies(s: State, base: KvMap, o: Output)
    requires FaithfulOver(s, base) && Distinct(s.log) && o in Execute(s).sent
    ensures exists k :: s.lastExecuted < k <= Execute(s).state.lastExecuted && ReplyOver(s, o, k, base)
    decreases s.commit - s.lastExecuted
  {
    var first := ExecuteOne(s);
    if o in first.sent {
      ExecuteOneReplies(s, base, o);
    } else {
      ExecuteOneFaithful(s, base);
      ExecuteReplies(first.state, base, o);
      var k :| first.state.lastExecuted < k <= Execute(s).state.lastExecuted && ReplyOver(first.state, o, k, base);
      ReplyOverKept(s, o, k, base);
    }
  }

  lemma {:induction false} ReplyOverKept(s: State, o: Output, k: nat, base: KvMap)
    requires CanExecute(s)
    ensures ReplyOver(s, o, k, base) <==> ReplyOver(ExecuteOne(s).state, o, k, base)
  {
    var t := ExecuteOne(s).state;
    assert t.log == s.log && t.view == s.view;
  }

  /** The replica is the primary and has a connection to the client of operation k. */
  predicate Connected(s: State, k: nat) {
    s.IsPrimary() && k in s.log && s.log[k].client in s.connections && s.connections[s.log[k].client] != NoConnection
  }

  /** Operation k is answered over its client's connection with its sequential result. */
  ghost predicate Answered(s: State, sent: seq<Output>, k: nat, base: KvMap) {
    exists o :: o in sent && ReplyOver(s, o, k, base) && Connected(s, k) && o.to == s.connections[s.log[k].client]
  }

  lemma {:induction false} ExecuteOneAnswers(s: State, base: KvMap)
    requires FaithfulOver(s, base) && Distinct(s.log) && CanExecute(s) && Connected(s, s.lastExecuted + 1)
    ensures Answered(s, ExecuteOne(s).sent, s.lastExecuted + 1, base)
  {
    ExecuteOneSends(s, base);
    var o := ExecuteOne(s).sent[0];
    ExecuteOneReplies(s, base, o);
    assert o in ExecuteOne(s).sent;
  }

  lemma {:induction false} AnsweredKept(s: State, a: seq<Output>, b: seq<Output>, k: nat, base: KvMap)
    requires CanExecute(s) && Answered(ExecuteOne(s).state, b, k, base)
    ensures Answered(s, a + b, k, base)
  {
    var t := ExecuteOne(s).state;
    var o :| o in b && ReplyOver(t, o, k, base) && Connected(t, k) && o.to == t.connections[t.log[k].client];
    ReplyOverKept(s, o, k, base);
    assert o in a + b;
  }

  lemma {:induction false} ConnectedKept(s: State, k: nat)
    requires CanExecute(s)
    ensures var t := ExecuteOne(s).state;
      t.log == s.log && t.commit == s.commit && t.lastExecuted == s.lastExecuted + 1 && (Connected(t, k) <==> Connected(s, k))
  {
  }

  lemma {:induction false} AnsweredHere(s: State, a: seq<Output>, b: seq<Output>, k: nat, base: KvMap)
    requires Answered(s, a, k, base)
    ensures Answered(s, a + b, k, base)
  {
    var o :| o in a && ReplyOver(s, o, k, base) && Connected(s, k) && o.to == s.connections[s.log[k].client];
    assert o in a + b;
  }

  /** And every operation executed by a primary connected to its client is answered. */
  lemma {:induction false} ExecuteAnswers(s: State, base: KvMap, k: nat)
    requires FaithfulOver(s, base) && Distinct(s.log)
    requires s.lastExecuted < k <= Execute(s).state.lastExecuted && Connected(s, k)
    ensures Answered(s, Execute(s).sent, k, base)
    decreases s.commit - s.lastExecuted
  {
    var first := ExecuteOne(s);
    ConnectedKept(s, k);
    if k == s.lastExecuted + 1 {
      ExecuteOneAnswers(s, base);
      AnsweredHere(s, first.sent, Execute(first.state).sent, k, base);
    } else {
      ExecuteOneFaithful(s, base);
      ExecuteAnswers(first.state, base, k);
      AnsweredKept(s, first.sent, Execute(first.state).sent, k, base);
    }
  }

  // What a handler leaves for execution to start from

  /** b has executed what s has, and keeps the entry of every client it marks executed. */
  ghost predicate Based(s: State, b: State) {
    && b.kv == s.kv && b.lastExecuted == s.lastExecuted
    && forall client :: client in b.clients && b.clients[client].executed ==>
         client in s.clients && s.clients[client] == b.clients[client]
  }

  lemma {:induction false} KeepsElsewhere(a: Log, b: Log, j: nat, client: U128, c: ClientEntry, base: KvMap)
    requires Keeps(a, j, client, c, base) && forall i :: 1 <= i <= j ==> i in b && b[i].Bare() == a[i].Bare()
    ensures Keeps(b, j, client, c, base)
  {
    assert Prefix(a, j - 1) == Prefix(b, j - 1);
    assert a[j].Bare() == b[j].Bare();
    ApplyBare(a[j], Replay(Prefix(a, j - 1), base));
    ApplyBare(b[j], Replay(Prefix(a, j - 1), base));
  }

  lemma {:induction false} BasedFaithful(s: State, b: State, base: KvMap)
    requires FaithfulOver(s, base) && Based(s, b)
    requires forall j :: 1 <= j <= s.lastExecuted ==> j in b.log && b.log[j].Bare() == s.log[j].Bare()
    ensures FaithfulOver(b, base)
  {
    assert Prefix(b.log, s.lastExecuted) == Prefix(s.log, s.lastExecuted);
    forall client | client in b.clients ensures MarkOk(b.log, b.lastExecuted, client, b.clients[client], base) {
      if b.clients[client].executed {
        assert MarkOk(s.log, s.lastExecuted, client, s.clients[client], base);
        var j :| 1 <= j <= s.lastExecuted && Keeps(s.log, j, client, s.clients[client], base);
        KeepsElsewhere(s.log, b.log, j, client, s.clients[client], base);
      }
    }
  }

  /** e is what executing from b does, apart from messages other than replies. */
  ghost predicate RunsFrom(b: State, e: Effect) {
    (e.state == b || (e.state == Execute(b).state && forall o :: o in Execute(b).sent ==> o in e.sent))
    && forall o :: o in e.sent && o.msg.command == Reply ==> e.state == Execute(b).state && o in Execute(b).sent
  }

  lemma {:induction false} NoteLogMarks(table: ClientTable, log: Log, keys: seq<nat>, client: U128)
    requires forall k :: k in keys ==> k in log
    ensures var r := NoteLog(table, log, keys);
      client in r && r[client].executed ==> client in table && table[client] == r[client]
  {
    if keys != [] {
      NoteLogMarks(table, log, keys[..|keys| - 1], client);
    }
  }

  lemma {:induction false} DoViewChangeBase(s: State, m: Message) returns (b: State)
    ensures Based(s, b) && RunsFrom(b, HandleDoViewChange(s, m)) && HandleDoViewChange(s, m).state.log == b.log
  {
    var ms := s.doViewChanges + [m];
    b := if |ms| >= s.F() + 1 then BecomePrimary(s, ms) else s.(doViewChanges := ms);
  }

  lemma {:induction false} StartViewBase(s: State, m: Message) returns (b: State)
    ensures Based(s, b) && RunsFrom(b, HandleStartView(s, m)) && HandleStartView(s, m).state.log == b.log
  {
    b := s;
    if m.body.ok {
      b := AdoptStartView(s, m);
      forall client | client in b.clients && b.clients[client].executed
        ensures client in s.clients && s.clients[client] == b.clients[client]
      {
        NoteLogMarks(s.clients, m.body.log, Ascending(m.body.log.Keys), client);
      }
    }
  }

  lemma {:induction false} PrepareBase(s: State, inb: Inbound) returns (b: State)
    ensures Based(s, b) && RunsFrom(b, HandlePrepare(s, inb)) && HandlePrepare(s, inb).state.log == b.log
  {
    b := AppendPrepare(s, inb.message);
    if inb.message.commit > b.commit {
      b := b.(commit := inb.message.commit);
    }
  }

  lemma {:induction false} StartViewChangeBase(s: State, m: Message) returns (b: State)
    ensures Based(s, b) && RunsFrom(b, HandleStartViewChange(s, m)) && HandleStartViewChange(s, m).state.log == b.log
  {
    var received := s.startViewChanges + {m.replica};
    if |received| >= s.F() + 1 {
      var s' := s.(startViewChanges := {});
      if s.PrimaryIdForView(s.view) == s.id {
        b := DoViewChangeBase(s', DoViewChangeMessage(s'));
      } else {
        b := s';
      }
    } else {
      b := s.(startViewChanges := received);
    }
  }

  lemma {:induction false} PrepareOkBase(s: State, m: Message) returns (b: State)
    ensures Based(s, b) && RunsFrom(b, HandlePrepareOk(s, m)) && HandlePrepareOk(s, m).state.log == b.log
  {
    b := s;
    if m.op in s.log {
      b := s.(log := AddAck(s.log, m.op, m.replica));
      if s.IsPrimary() {
        b := AdvanceCommit(b);
        RunsByExecuting(b);
      }
    }
  }

  lemma {:induction false} RunsByExecuting(b: State)
    ensures RunsFrom(b, Execute(b)) && Execute(b).state.log == b.log
  {
  }

  /** Every message but a request, and but the response that completes a recovery, is
      handled by preparing a base state and executing from it. */
  lemma {:induction false} HandlerBase(s: State, inb: Inbound) returns (b: State)
    requires CanProcess(s, inb.message) && inb.message.command != Request
    requires inb.message.command == RecoveryResponse ==> !CompletesRecovery(s, inb.message)
    ensures Based(s, b) && RunsFrom(b, Dispatch(s, inb)) && Dispatch(s, inb).state.log == b.log
  {
    var m := inb.message;
    b := s;
    match m.command
    case Prepare => b := PrepareBase(s, inb);
    case PrepareOk => b := PrepareOkBase(s, m);
    case Commit => b := if m.commit > s.commit then s.(commit := m.commit) else s;
    case StartViewChange => b := StartViewChangeBase(s, m);
    case DoViewChange => b := DoViewChangeBase(s, m);
    case StartView => b := StartViewBase(s, m);
    case RecoveryResponse => b := HandleRecoveryResponse(s, m).state;
    case _ =>
  }

  lemma {:induction false} RequestBase(s: State, inb: Inbound)
    ensures Based(s, HandleRequest(s, inb).state)
  {
  }

  // Replay after recovery

  predicate Sets(e: LogEntry, key: seq<Byte>) {
    e.opType == OPERATION_SET && NextWord(e.payload).0 == key
  }

  ghost predicate Writes(ops: seq<LogEntry>, key: seq<Byte>) {
    exists j :: 0 <= j < |ops| && Sets(ops[j], key)
  }

  lemma {:induction false} WritesFirst(ops: seq<LogEntry>, key: seq<Byte>)
    requires ops != []
    ensures Writes(ops, key) <==> Sets(ops[0], key) || Writes(ops[1..], key)
  {
    if Writes(ops, key) {
      var j :| 0 <= j < |ops| && Sets(ops[j], key);
      assert j == 0 || ops[1..][j - 1] == ops[j];
    }
    if Writes(ops[1..], key) {
      var j :| 0 <= j < |ops[1..]| && Sets(ops[1..][j], key);
      assert ops[j + 1] == ops[1..][j];
    }
  }

  lemma {:induction false} OnlyWrittenKeys(ops: seq<LogEntry>, kv: KvMap, key: seq<Byte>)
    requires key in Replay(ops, kv)
    ensures key in kv || Writes(ops, key)
  {
    if ops != [] {
      OnlyWrittenKeys(ops[1..], Apply(ops[0], kv).0, key);
      WritesFirst(ops, key);
    }
  }

  /** The maps are the same but for keys that the operations overwrite. */
  ghost predicate SameUnlessWritten(ops: seq<LogEntry>, a: KvMap, b: KvMap, key: seq<Byte>) {
    Writes(ops, key) || ((key in a <==> key in b) && (key in a ==> a[key] == b[key]))
  }

  /** Maps that differ only on keys that the operations overwrite replay to the same map. */
  lemma {:induction false} ReplayForgets(ops: seq<LogEntry>, a: KvMap, b: KvMap)
    requires forall key :: SameUnlessWritten(ops, a, b, key)
    ensures Replay(ops, a) == Replay(ops, b)
  {
    if ops == [] {
      forall key ensures (key in a <==> key in b) && (key in a ==> a[key] == b[key]) {
        assert SameUnlessWritten(ops, a, b, key);
      }
      assert a == b;
    } else {
      var a', b' := Apply(ops[0], a).0, Apply(ops[0], b).0;
      forall key ensures SameUnlessWritten(ops[1..], a', b', key) {
        assert SameUnlessWritten(ops, a, b, key);
        WritesFirst(ops, key);
      }
      ReplayForgets(ops[1..], a', b');
    }
  }

  lemma {:induction false} ReplayLeavesUnwritten(ops: seq<LogEntry>, kv: KvMap, key: seq<Byte>)
    requires !Writes(ops, key)
    ensures key in Replay(ops, kv) <==> key in kv
    ensures key in kv ==> Replay(ops, kv)[key] == kv[key]
  {
    if ops != [] {
      WritesFirst(ops, key);
      ReplayLeavesUnwritten(ops[1..], Apply(ops[0], kv).0, key);
    }
  }

  /** What operations write does not depend on what was there. */
  lemma {:induction false} ReplayWritesTheSame(ops: seq<LogEntry>, a: KvMap, b: KvMap, key: seq<Byte>)
    requires Writes(ops, key)
    ensures key in Replay(ops, a) && key in Replay(ops, b) && Replay(ops, a)[key] == Replay(ops, b)[key]
  {
    var a', b' := Apply(ops[0], a).0, Apply(ops[0], b).0;
    WritesFirst(ops, key);
    if Writes(ops[1..], key) {
      ReplayWritesTheSame(ops[1..], a', b', key);
    } else {
      ReplayLeavesUnwritten(ops[1..], a', key);
      ReplayLeavesUnwritten(ops[1..], b', key);
    }
  }

  lemma {:induction false} PrefixWrites(done: seq<LogEntry>, ops: seq<LogEntry>, key: seq<Byte>)
    requires done <= ops && Writes(done, key)
    ensures Writes(ops, key)
  {
    var j :| 0 <= j < |done| && Sets(done[j], key);
    assert ops[j] == done[j];
  }

  lemma {:induction false} ReplayKeepsKeys(ops: seq<LogEntry>, kv: KvMap, key: seq<Byte>)
    requires key in kv
    ensures key in Replay(ops, kv)
  {
    if ops != [] {
      ReplayKeepsKeys(ops[1..], Apply(ops[0], kv).0, key);
    }
  }

  /** Replaying over a map is the same as replaying from empty exactly when the operations
      write every key of the map. */
  lemma {:induction false} ReplayOverMap(ops: seq<LogEntry>, kv: KvMap)
    ensures Replay(ops, kv) == Replay(ops, map[]) <==> forall key :: key in kv ==> Writes(ops, key)
  {
    if forall key :: key in kv ==> Writes(ops, key) {
      forall key ensures SameUnlessWritten(ops, kv, map[], key) {
      }
      ReplayForgets(ops, kv, map[]);
    }
    if Replay(ops, kv) == Replay(ops, map[]) {
      forall key | key in kv ensures Writes(ops, key) {
        ReplayKeepsKeys(ops, kv, key);
        OnlyWrittenKeys(ops, map[], key);
      }
    }
  }

  /** Replaying a log over the replay of one of its prefixes changes nothing. */
  lemma {:induction false} ReplayOverPrefix(done: seq<LogEntry>, ops: seq<LogEntry>)
    requires done <= ops
    ensures Replay(ops, Replay(done, map[])) == Replay(ops, map[])
  {
    var kv := Replay(done, map[]);
    forall key | key in kv ensures Writes(ops, key) {
      OnlyWrittenKeys(done, map[], key);
      PrefixWrites(done, ops, key);
    }
    ReplayOverMap(ops, kv);
  }

  lemma {:induction false} AdoptedFaithful(s: State, best: Message)
    ensures FaithfulOver(AdoptResponse(s, best), s.kv)
  {
    var r := AdoptResponse(s, best);
    forall client | client in r.clients ensures MarkOk(r.log, 0, client, r.clients[client], s.kv) {
      NoteLogMarks(map[], best.body.log, Ascending(best.body.log.Keys), client);
    }
    assert Prefix(r.log, 0) == [];
  }

  lemma {:induction false} PrefixExtends(log: Log, a: nat, b: nat)
    requires a <= b && forall j :: 1 <= j <= b ==> j in log
    ensures Prefix(log, a) <= Prefix(log, b)
  {
  }

  /** How far execution goes from k: over all that is committed and present. */
  function Reach(log: Log, k: nat, commit: nat): (r: nat)
    requires forall j :: 1 <= j <= k ==> j in log
    ensures k <= r && forall j :: 1 <= j <= r ==> j in log
    decreases commit - k
  {
    if k < commit && k + 1 in log then Reach(log, k + 1, commit) else k
  }

  lemma {:induction false} ExecuteReaches(s: State)
    requires forall j :: 1 <= j <= s.lastExecuted ==> j in s.log
    ensures Execute(s).state.lastExecuted == Reach(s.log, s.lastExecuted, s.commit)
    decreases s.commit - s.lastExecuted
  {
    if CanExecute(s) {
      ExecuteReaches(ExecuteOne(s).state);
    }
  }

  lemma {:induction false} ReachesAtLeast(log: Log, k: nat, commit: nat, end: nat)
    requires k <= end <= commit && forall j :: 1 <= j <= end ==> j in log
    ensures end <= Reach(log, k, commit)
    decreases end - k
  {
    if k < end {
      ReachesAtLeast(log, k + 1, commit, end);
    }
  }

  /** Recovery replay, exactly: re-executing the recovered log from its first operation,
      over the map that was never cleared, gives the map of a replay from empty if and only
      if what the response lets the replica execute writes every key it already had. */
  lemma {:induction false} RecoveryReplayExact(s: State, best: Message)
    requires Distinct(best.body.log)
    ensures var t, k := Execute(AdoptResponse(s, best)).state, Reach(best.body.log, 0, best.commit);
      && t.lastExecuted == k && t.kv == Replay(Prefix(best.body.log, k), s.kv)
      && (t.kv == Replay(Prefix(best.body.log, k), map[]) <==>
          forall key :: key in s.kv ==> Writes(Prefix(best.body.log, k), key))
  {
    var r := AdoptResponse(s, best);
    AdoptedFaithful(s, best);
    ExecuteFaithful(r, s.kv);
    ExecuteReaches(r);
    ReplayOverMap(Prefix(best.body.log, Reach(best.body.log, 0, best.commit)), s.kv);
  }

  /** It is so when the recovered log extends what was executed and the recovered commit
      number covers it. */
  lemma {:induction false} RecoveryReplay(s: State, best: Message)
    requires forall j :: 1 <= j <= s.lastExecuted ==> j in s.log && j in best.body.log
    requires forall j :: 1 <= j <= s.lastExecuted ==> best.body.log[j].Bare() == s.log[j].Bare()
    requires s.kv == Replay(Prefix(s.log, s.lastExecuted), map[]) && Distinct(best.body.log)
    requires s.lastExecuted <= best.commit
    ensures var t := Execute(AdoptResponse(s, best)).state;
      && s.lastExecuted <= t.lastExecuted && (forall j :: 1 <= j <= t.lastExecuted ==> j in best.body.log)
      && t.kv == Replay(Prefix(best.body.log, t.lastExecuted), map[])
  {
    var log, k := best.body.log, Reach(best.body.log, 0, best.commit);
    ReachesAtLeast(log, 0, best.commit, s.lastExecuted);
    forall key | key in s.kv ensures Writes(Prefix(log, k), key) {
      OnlyWrittenKeys(Prefix(s.log, s.lastExecuted), map[], key);
      assert Prefix(s.log, s.lastExecuted) == Prefix(log, s.lastExecuted);
      PrefixExtends(log, s.lastExecuted, k);
      PrefixWrites(Prefix(log, s.lastExecuted), Prefix(log, k), key);
    }
    RecoveryReplayExact(s, best);
  }

  /** An operation that sets the one-letter key `letter` to nothing. */
  function SetLetter(letter: Byte, request: nat): LogEntry {
    LogEntry(0, OPERATION_SET, ZERO128, request, [letter], {})
  }

  /** Two operations on two keys. */
  const TWO_SETS: Log := map[1 := SetLetter(97, 1), 2 := SetLetter(98, 2)]

  lemma {:induction false} SetLetterApplies(letter: Byte, request: nat, kv: KvMap)
    requires !IsSpace(letter)
    ensures Apply(SetLetter(letter, request), kv).0 == kv[[letter] := []]
  {
    var p: seq<Byte> := [letter];
    assert SkipSpace(p) == p;
    assert WordLength(p[1..]) == 0;
    assert p[..1] == p && p[1..] == [];
    assert SkipSpace([]) == [] && WordLength([]) == 0;
  }

  lemma {:induction false} ReplayTwoSets()
    ensures Replay(Prefix(TWO_SETS, 1), map[]) == map[[97] := []]
    ensures Replay(Prefix(TWO_SETS, 2), map[]) == map[[97] := [], [98] := []]
  {
    ReplayAppend([], SetLetter(97, 1), map[]);
    ReplayAppend([SetLetter(97, 1)], SetLetter(98, 2), map[]);
    SetLetterApplies(97, 1, map[]);
    SetLetterApplies(98, 2, map[[97] := []]);
    TwoSetsInOrder();
  }

  lemma {:induction false} TwoSetsInOrder()
    ensures Prefix(TWO_SETS, 1) == [] + [SetLetter(97, 1)]
    ensures Prefix(TWO_SETS, 2) == [SetLetter(97, 1)] + [SetLetter(98, 2)]
  {
  }

  lemma {:induction false} FallsShort(s: State, best: Message, key: seq<Byte>)
    requires Distinct(best.body.log) && key in s.kv && !Writes(Prefix(best.body.log, Reach(best.body.log, 0, best.commit)), key)
    ensures var t, k := Execute(AdoptResponse(s, best)).state, Reach(best.body.log, 0, best.commit);
      t.lastExecuted == k && t.kv != Replay(Prefix(best.body.log, k), map[])
  {
    RecoveryReplayExact(s, best);
  }

  lemma {:induction false} TwoSetsFacts()
    ensures Distinct(TWO_SETS) && Reach(TWO_SETS, 0, 1) == 1 && !Writes(Prefix(TWO_SETS, 1), [98])
    ensures [98] in Replay(Prefix(TWO_SETS, 2), map[])
  {
    assert Reach(TWO_SETS, 0, 1) == Reach(TWO_SETS, 1, 1) == 1;
    ReplayTwoSets();
    if Writes(Prefix(TWO_SETS, 1), [98]) {
      ReplayWritesTheSame(Prefix(TWO_SETS, 1), map[], map[], [98]);
    }
  }

  /** A recovered commit number below what was executed falls short: of two executed
      operations one counts as executed afterwards, but the map holds both. */
  lemma {:induction false} RecoveryFallsShort()
    ensures var s := InitialState(1, 3).(op := 2, commit := 2, lastExecuted := 2, log := TWO_SETS,
                                         kv := Replay(Prefix(TWO_SETS, 2), map[]));
      var best := BLANK.(op := 2, commit := 1, body := NO_BODY.(log := TWO_SETS));
      var t := Execute(AdoptResponse(s, best)).state;
      && Distinct(best.body.log) && t.lastExecuted == 1 && t.kv != Replay(Prefix(TWO_SETS, 1), map[])
  {
    var s := InitialState(1, 3).(op := 2, commit := 2, lastExecuted := 2, log := TWO_SETS,
                                 kv := Replay(Prefix(TWO_SETS, 2), map[]));
    var best := BLANK.(op := 2, commit := 1, body := NO_BODY.(log := TWO_SETS));
    TwoSetsFacts();
    FallsShort(s, best, [98]);
  }
}
