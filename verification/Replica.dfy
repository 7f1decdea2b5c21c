/** One replica as an object: handlers that update its fields in place, the queue they are
    fed from, and the list of what has been sent. Every method is tied to the pure step
    that the cluster takes. */
module Replica {
  import opened Types
  import opened Execution
  import H = Handlers
  import opened Queue
  import KeyValue
  import Laws

  class Replica {
    var state: State
    var queue: seq<Inbound>
    var sent: seq<Output>

    constructor (id: nat, n: ClusterSize)
      ensures state == InitialState(id, n) && queue == [] && sent == []
    {
      state, queue, sent := InitialState(id, n), [], [];
    }

    method Emit(o: Output)
      modifies `sent
      ensures sent == old(sent) + [o]
    {
      sent := sent + [o];
    }

    // Execution and commitment

    /** Apply one entry to the key-value map. */
    method ApplyEntry(entry: LogEntry) returns (result: seq<Byte>)
      modifies `state
      ensures state == old(state).(kv := Apply(entry, old(state).kv).0) && result == Apply(entry, old(state).kv).1
      ensures KeyValue.Meaning(entry, old(state).kv, state.kv, result)
    {
      KeyValue.ApplyExactly(entry, state.kv, Apply(entry, state.kv).0, Apply(entry, state.kv).1);
      result := [];
      if entry.opType == OPERATION_SET {
        var (key, rest) := NextWord(entry.payload);
        var (value, _) := NextWord(rest);
        state := state.(kv := state.kv[key := value]);
        result := SET_PREFIX + key + EQUALS_SIGN + value;
      } else if entry.opType == OPERATION_GET {
        var (key, _) := NextWord(entry.payload);
        result := if key in state.kv then state.kv[key] else NOT_FOUND;
      }
    }

    method SendReply(entry: LogEntry, result: seq<Byte>)
      modifies `sent
      ensures sent == old(sent) + ReplyTo(state, entry, result)
    {
      if state.IsPrimary() {
        if entry.client in state.connections && state.connections[entry.client] != NoConnection {
          Emit(Send(state.connections[entry.client],
                    BLANK.(command := Reply, view := state.view, client := entry.client,
                           request := entry.request, payload := result)));
        }
      }
    }

    /** Apply an entry, record its result and reply. */
    method RunEntry(entry: LogEntry)
      modifies `state, `sent
      ensures var (kv, result) := Apply(entry, old(state).kv);
        && state == old(state).(kv := kv, clients := old(state).clients[entry.client := ClientEntry(entry.request, true, result)])
        && sent == old(sent) + ReplyTo(old(state), entry, result)
    {
      var result := ApplyEntry(entry);
      state := state.(clients := state.clients[entry.client := ClientEntry(entry.request, true, result)]);
      SendReply(entry, result);
    }

    method ExecuteNext()
      requires CanExecute(state)
      modifies `state, `sent
      ensures var e := ExecuteOne(old(state));
        state == e.state && sent == old(sent) + e.sent
    {
      var entry := state.log[state.lastExecuted + 1];
      var client := Lookup(state.clients, entry.client);
      if client.request != entry.request || !client.executed {
        RunEntry(entry);
      } else {
        state := state.(clients := state.clients[entry.client := client]);
      }
      state := state.(lastExecuted := state.lastExecuted + 1);
    }

    method ExecuteCommittedOps()
      modifies `state, `sent
      ensures var e := Execute(old(state));
        state == e.state && sent == old(sent) + e.sent
    {
      ghost var out: seq<Output> := [];
      ResumesFromStart(state);
      while state.lastExecuted < state.commit
        invariant sent == old(sent) + out && Resumes(old(state), state, out)
        decreases state.commit - state.lastExecuted
      {
        if state.lastExecuted + 1 !in state.log {
          break;
        }
        ResumesAfterOne(old(state), state, out);
        Regroup(old(sent), out, ExecuteOne(state).sent);
        out := out + ExecuteOne(state).sent;
        ExecuteNext();
      }
      ResumesToEnd(old(state), state, out);
    }

    method AdvancePrimaryCommitNumber()
      modifies `state, `sent
      ensures var e := H.AdvancePrimary(old(state));
        state == e.state && sent == old(sent) + e.sent
    {
      if !state.IsPrimary() {
        return;
      }
      while true
        invariant sent == old(sent)
        invariant state == old(state).(commit := state.commit)
        invariant H.AdvanceCommit(old(state)) == H.AdvanceCommit(state)
        decreases H.Above(state)
      {
        if state.commit + 1 !in state.log {
          break;
        }
        if |state.log[state.commit + 1].acks| < state.F() + 1 {
          break;
        }
        assert state.commit + 1 in H.Above(state);
        state := state.(commit := state.commit + 1);
      }
      ExecuteCommittedOps();
    }

    // Normal operation

    method HandlePing(inb: Inbound)
      modifies `state, `sent
      ensures var e := Effect(old(state), [Send(inb.connection, H.PongMessage(old(state), inb.message))]);
        state == e.state && sent == old(sent) + e.sent
    {
      Emit(Send(inb.connection, BLANK.(command := Pong, view := state.view, replica := state.id,
                                       client := inb.message.client, request := inb.message.request)));
    }

    method AppendRequest(inb: Inbound)
      modifies `state
      ensures state == H.AppendRequest(old(state), inb)
    {
      var m := inb.message;
      state := state.(connections := state.connections[m.client := inb.connection]);
      state := state.(op := state.op + 1);
      state := state.(log := state.log[state.op := LogEntry(state.view, m.opType, m.client, m.request, m.payload, {state.id})]);
      state := state.(clients := state.clients[m.client := ClientEntry(m.request, false, [])]);
    }

    method HandleRequest(inb: Inbound)
      modifies `state, `sent
      ensures var e := H.HandleRequest(old(state), inb);
        state == e.state && sent == old(sent) + e.sent
    {
      var m := inb.message;
      var client := Lookup(state.clients, m.client);
      if client.request > m.request {
        state := state.(clients := state.clients[m.client := client]);
        return;
      }
      if client.request == m.request {
        state := state.(clients := state.clients[m.client := client]);
        Emit(Send(inb.connection, BLANK.(command := Reply, client := m.client, request := m.request,
                                         payload := client.result)));
        return;
      }
      AppendRequest(inb);
      Emit(Broadcast(BLANK.(command := Prepare, opType := m.opType, replica := state.id, client := m.client,
                            request := m.request, view := state.view, op := state.op, commit := state.commit,
                            payload := m.payload)));
    }

    method AppendPrepare(m: Message)
      modifies `state
      ensures state == H.AppendPrepare(old(state), m)
    {
      state := state.(op := state.op + 1);
      state := state.(log := state.log[state.op := LogEntry(state.view, m.opType, m.client, m.request, m.payload, {})]);
      state := state.(clients := state.clients[m.client := ClientEntry(m.request, false, [])]);
    }

    method LearnCommit(commit: nat)
      modifies `state, `sent
      ensures var e := H.LearnCommit(old(state), commit);
        state == e.state && sent == old(sent) + e.sent
    {
      if commit > state.commit {
        state := state.(commit := commit);
        ExecuteCommittedOps();
      }
    }

    method HandlePrepare(inb: Inbound)
      modifies `state, `sent
      ensures var e := H.HandlePrepare(old(state), inb);
        state == e.state && sent == old(sent) + e.sent
    {
      AppendPrepare(inb.message);
      Emit(Send(inb.connection, BLANK.(command := PrepareOk, view := state.view, op := state.op, replica := state.id)));
      LearnCommit(inb.message.commit);
    }

    method HandlePrepareOk(m: Message)
      modifies `state, `sent
      ensures var e := H.HandlePrepareOk(old(state), m);
        state == e.state && sent == old(sent) + e.sent
    {
      if m.op !in state.log {
        return;
      }
      state := state.(log := state.log[m.op := state.log[m.op].(acks := state.log[m.op].acks + {m.replica})]);
      AdvancePrimaryCommitNumber();
    }

    method HandleCommit(m: Message)
      modifies `state, `sent
      ensures var e := H.HandleCommit(old(state), m);
        state == e.state && sent == old(sent) + e.sent
    {
      LearnCommit(m.commit);
    }

    method SendCommitMessageIfNeeded()
      modifies `state, `sent
      ensures var e := H.SendCommit(old(state));
        state == e.state && sent == old(sent) + e.sent
    {
      if !state.IsPrimary() || state.status != Normal {
        return;
      }
      Emit(Broadcast(BLANK.(command := Commit, view := state.view, commit := state.commit)));
    }

    // View changes

    method EnterNewView(newView: nat)
      modifies `state, `sent
      ensures var e := Effect(H.EnterNewView(old(state), newView), []);
        state == e.state && sent == old(sent) + e.sent
    {
      if state.status == Normal {
        state := state.(lastNormalView := state.view);
      }
      state := state.(view := newView);
      state := state.(status := ViewChange);
      state := state.(startViewChanges := {});
      state := state.(doViewChanges := []);
      state := state.(startViewChanges := state.startViewChanges + {state.id});
    }

    method InitiateViewChange()
      modifies `state, `sent
      ensures var e := H.InitiateViewChange(old(state));
        state == e.state && sent == old(sent) + e.sent
    {
      EnterNewView(state.view + 1);
      Emit(Broadcast(BLANK.(command := StartViewChange, view := state.view, replica := state.id)));
    }

    /** The liveness timer of a backup; `expired` is whether the primary has been silent too long. */
    method CheckPrimaryLiveness(expired: bool)
      modifies `state, `sent
      ensures var s := old(state);
        var e := if !s.IsPrimary() && s.status == Normal && expired then H.InitiateViewChange(s) else Effect(s, []);
        state == e.state && sent == old(sent) + e.sent
    {
      if !state.IsPrimary() && state.status == Normal {
        if expired {
          InitiateViewChange();
        }
      }
    }

    method HandleStartViewChange(m: Message)
      modifies `state, `sent
      ensures var e := H.HandleStartViewChange(old(state), m);
        state == e.state && sent == old(sent) + e.sent
    {
      state := state.(startViewChanges := state.startViewChanges + {m.replica});
      if |state.startViewChanges| >= state.F() + 1 {
        state := state.(startViewChanges := {});
        var dvc := BLANK.(command := DoViewChange, view := state.view, op := state.op, commit := state.commit, replica := state.id,
                          body := Body(true, ZERO128, state.lastNormalView, EraseAcks(state.log)));
        var newPrimary := state.PrimaryIdForView(state.view);
        if newPrimary == state.id {
          HandleDoViewChange(dvc);
        } else {
          Emit(Send(PeerEnd(newPrimary), dvc));
        }
      }
    }

    /** The log to adopt, its op number and the commit number to start from. */
    method SelectLog(ms: seq<Message>) returns (bestBody: Body, bestOp: nat, maxCommit: nat)
      requires ms != []
      ensures bestBody == H.BestOf(ms).body && bestOp == H.BestOf(ms).op
      ensures maxCommit == H.MaxCommit(state.commit, ms)
      ensures exists k: nat :: Laws.LatestLog(ms, k) && bestBody == ms[k].body && bestOp == ms[k].op
      ensures Laws.HighestCommit(ms, state.commit, maxCommit)
    {
      ghost var latest := Laws.BestIsLatest(ms);
      Laws.MaxIsHighest(state.commit, ms);
      bestBody := ms[0].body;
      bestOp := ms[0].op;
      maxCommit := H.Max(state.commit, ms[0].commit);
      for i := 1 to |ms|
        invariant bestBody == H.BestOf(ms[..i]).body && bestOp == H.BestOf(ms[..i]).op
        invariant maxCommit == H.MaxCommit(state.commit, ms[..i])
      {
        assert ms[..i + 1][..i] == ms[..i];
        var current := ms[i];
        if current.body.ok {
          if current.body.lastNormalView > bestBody.lastNormalView {
            bestBody, bestOp := current.body, current.op;
          } else if current.body.lastNormalView == bestBody.lastNormalView && current.op > bestOp {
            bestBody, bestOp := current.body, current.op;
          }
          maxCommit := H.Max(maxCommit, current.commit);
        }
      }
      assert ms[..|ms|] == ms;
    }

    method HandleDoViewChange(m: Message)
      modifies `state, `sent
      ensures var e := H.HandleDoViewChange(old(state), m);
        state == e.state && sent == old(sent) + e.sent
    {
      state := state.(doViewChanges := state.doViewChanges + [m]);
      if |state.doViewChanges| >= state.F() + 1 {
        var received := state.doViewChanges;
        state := state.(doViewChanges := []);
        var bestBody, bestOp, maxCommit := SelectLog(received);
        state := state.(log := bestBody.log);
        state := state.(op := bestOp);
        state := state.(commit := maxCommit);
        state := state.(status := Normal);
        assert state == H.BecomePrimary(old(state), received);
        Regroup(old(sent), [Broadcast(H.StartViewMessage(state))], Execute(state).sent);
        Emit(Broadcast(BLANK.(command := StartView, view := state.view, op := state.op, commit := state.commit, replica := state.id,
                              body := Body(true, ZERO128, 0, EraseAcks(state.log)))));
        ExecuteCommittedOps();
      }
    }

    /** Bring the client table up to the log, visiting `keys` in order. */
    method NoteEntries(keys: seq<nat>)
      requires forall k :: k in keys ==> k in state.log
      modifies `state
      ensures state == old(state).(clients := H.NoteLog(old(state).clients, old(state).log, keys))
    {
      var log := state.log;
      for i := 0 to |keys|
        invariant state == old(state).(clients := H.NoteLog(old(state).clients, log, keys[..i]))
      {
        NotedOneMore(state.clients, old(state).clients, log, keys, i);
        var entry := log[keys[i]];
        var client := Lookup(state.clients, entry.client);
        if entry.request > client.request {
          client := client.(request := entry.request, executed := false);
        }
        state := state.(clients := state.clients[entry.client := client]);
      }
      assert keys[..|keys|] == keys;
    }

    method NoteLog()
      modifies `state
      ensures state == old(state).(clients := H.NoteLog(old(state).clients, old(state).log, Ascending(old(state).log.Keys)))
      ensures Laws.TableFor(old(state).clients, old(state).log, state.clients)
    {
      Laws.NoteLogExactly(state.clients, state.log);
      NoteEntries(Ascending(state.log.Keys));
    }

    /** Acknowledge to the primary every logged operation above `lo`. */
    method AcknowledgeAbove(lo: nat)
      modifies `state, `sent
      ensures var e := Effect(old(state), H.RetroactiveOks(old(state), lo, state.op));
        state == e.state && sent == old(sent) + e.sent
    {
      var primary := state.PrimaryId();
      var k := lo + 1;
      while k <= state.op
        invariant lo < k && (k == lo + 1 || k <= state.op + 1)
        invariant state == old(state)
        invariant sent == old(sent) + H.RetroactiveOks(state, lo, k - 1)
        decreases state.op + 1 - k
      {
        if k in state.log {
          Emit(Send(PeerEnd(primary), BLANK.(command := PrepareOk, view := state.view, op := k, replica := state.id)));
        }
        k := k + 1;
      }
    }

    method AdoptStartView(m: Message)
      modifies `state
      ensures state == H.AdoptStartView(old(state), m)
    {
      state := state.(view := m.view);
      state := state.(op := m.op);
      state := state.(commit := m.commit);
      state := state.(log := m.body.log);
      state := state.(status := Normal);
      NoteLog();
    }

    method HandleStartView(m: Message)
      modifies `state, `sent
      ensures var e := H.HandleStartView(old(state), m);
        state == e.state && sent == old(sent) + e.sent
    {
      if !m.body.ok {
        return;
      }
      AdoptStartView(m);
      ghost var executed := Execute(state);
      ExecuteCommittedOps();
      Regroup(old(sent), executed.sent, H.RetroactiveOks(state, m.commit, state.op));
      AcknowledgeAbove(m.commit);
    }

    // Recovery

    method InitiateRecovery(newNonce: U128)
      modifies `state, `sent
      ensures var e := H.InitiateRecovery(old(state), newNonce);
        state == e.state && sent == old(sent) + e.sent
    {
      if state.status == Recovery {
        return;
      }
      state := state.(status := Recovery);
      state := state.(nonce := newNonce);
      state := state.(responses := []);
      Emit(Broadcast(BLANK.(command := RecoveryRequest, replica := state.id, body := Body(true, state.nonce, 0, map[]))));
    }

    method HandleRecoveryRequest(m: Message)
      modifies `state, `sent
      ensures var e := H.HandleRecoveryRequest(old(state), m);
        state == e.state && sent == old(sent) + e.sent
    {
      if !m.body.ok {
        return;
      }
      Emit(Send(PeerEnd(m.replica),
                BLANK.(command := RecoveryResponse, replica := state.id, view := state.view, op := state.op, commit := state.commit,
                       body := Body(true, m.body.nonce, 0, EraseAcks(state.log)))));
    }

    method SelectResponse(ms: seq<Message>) returns (best: Message)
      requires ms != []
      ensures best == H.MostRecent(ms)
      ensures exists k: nat :: Laws.LatestState(ms, k) && best == ms[k]
    {
      ghost var latest := Laws.MostRecentIsLatest(ms);
      best := ms[0];
      for i := 1 to |ms|
        invariant best == H.MostRecent(ms[..i])
      {
        assert ms[..i + 1][..i] == ms[..i];
        if ms[i].view > best.view {
          best := ms[i];
        } else if ms[i].view == best.view && ms[i].op > best.op {
          best := ms[i];
        }
      }
      assert ms[..|ms|] == ms;
    }

    method AdoptResponse(best: Message)
      modifies `state
      ensures state == H.AdoptResponse(old(state), best)
    {
      state := state.(view := best.view);
      state := state.(op := best.op);
      state := state.(commit := best.commit);
      state := state.(log := best.body.log);
      state := state.(lastExecuted := 0);
      state := state.(status := Normal);
      state := state.(clients := map[]);
      NoteLog();
    }

    method HandleRecoveryResponse(m: Message)
      modifies `state, `sent
      ensures var e := H.HandleRecoveryResponse(old(state), m);
        state == e.state && sent == old(sent) + e.sent
    {
      if !m.body.ok {
        return;
      }
      if m.body.nonce != state.nonce {
        return;
      }
      state := state.(responses := state.responses + [m]);
      if |state.responses| >= state.F() + 1 {
        var best := SelectResponse(state.responses);
        ghost var adopted := H.AdoptResponse(old(state), best);
        ExecuteIgnoresResponses(adopted, state.responses);
        AdoptResponse(best);
        assert state == adopted.(responses := state.responses);
        ExecuteCommittedOps();
        state := state.(nonce := ZERO128);
        state := state.(responses := []);
      }
    }

    // The queue

    method EnqueueMessage(connection: Endpoint, m: Message)
      modifies `queue
      ensures queue == old(queue) + [Inbound(connection, m)]
    {
      queue := queue + [Inbound(connection, m)];
    }

    /** A message arrives: it is queued, and the queue is processed. */
    method Receive(connection: Endpoint, m: Message, newNonce: U128)
      modifies this
      ensures var r := ProcessQueue(old(state), old(queue) + [Inbound(connection, m)], newNonce);
        state == r.state && queue == r.queue && sent == old(sent) + r.sent
    {
      EnqueueMessage(connection, m);
      ProcessMessageQueue(newNonce);
    }

    method Handle(inb: Inbound)
      modifies `state, `sent
      ensures var e := H.Dispatch(old(state), inb);
        state == e.state && sent == old(sent) + e.sent
    {
      match inb.message.command
      case Ping => HandlePing(inb);
      case Request => HandleRequest(inb);
      case Prepare => HandlePrepare(inb);
      case PrepareOk => HandlePrepareOk(inb.message);
      case Commit => HandleCommit(inb.message);
      case StartViewChange => HandleStartViewChange(inb.message);
      case DoViewChange => HandleDoViewChange(inb.message);
      case StartView => HandleStartView(inb.message);
      case RecoveryRequest => HandleRecoveryRequest(inb.message);
      case RecoveryResponse => HandleRecoveryResponse(inb.message);
      case _ =>
    }

    /** One pass over the queue; the result says whether anything was taken off it. */
    method DrainQueue() returns (processed: bool)
      modifies this
      ensures var r := Drain(old(state), old(queue));
        && state == r.state && queue == r.queue && sent == old(sent) + r.sent
        && (processed <==> r.events != [])
    {
      processed := false;
      ghost var out: seq<Output> := [];
      ghost var events: seq<Event> := [];
      ghost var goal := Drain(state, queue);
      DrainsFromStart(state, queue);
      while queue != []
        invariant sent == old(sent) + out && (processed <==> events != [])
        invariant DrainsOn(goal, out, events, state, queue)
        decreases |queue|
      {
        var inb := queue[0];
        if H.Stale(state, inb.message) {
          DrainsAfterDiscard(goal, out, events, state, queue);
          events := events + [Discarded(inb)];
          queue := queue[1..];
          processed := true;
        } else if H.CanProcess(state, inb.message) {
          DrainsAfterHandle(goal, out, events, state, queue);
          Regroup(old(sent), out, H.Dispatch(state, inb).sent);
          out, events := out + H.Dispatch(state, inb).sent, events + [Handled(inb)];
          queue := queue[1..];
          processed := true;
          Handle(inb);
        } else {
          break;
        }
      }
      DrainsToEnd(goal, out, events, state, queue);
    }

    method React(newNonce: U128)
      modifies this
      ensures var r := Unstick(old(state), old(queue), newNonce);
        state == r.state && queue == r.queue && sent == old(sent) + r.sent
    {
      if queue != [] && state.status == Normal {
        match H.StuckAction(state, queue[0].message)
        case StartRecovery =>
          InitiateRecovery(newNonce);
          queue := [];
        case StartChange =>
          InitiateViewChange();
        case ProcessNormally =>
      }
    }

    /** `newNonce` is the nonce a recovery would draw; processing a queue begins at most one. */
    method ProcessMessageQueue(newNonce: U128)
      modifies this
      ensures var r := ProcessQueue(old(state), old(queue), newNonce);
        state == r.state && queue == r.queue && sent == old(sent) + r.sent
    {
      ghost var out: seq<Output> := [];
      ghost var events: seq<Event> := [];
      ghost var goal := ProcessQueue(state, queue, newNonce);
      ProcessesFromStart(state, queue, newNonce);
      var processed := true;
      while processed
        invariant sent == old(sent) + out
        invariant ProcessesOn(goal, out, events, state, queue, newNonce, processed)
        decreases |queue|, processed
      {
        ProcessesAfterPass(goal, out, events, state, queue, newNonce);
        ghost var pass := Pass(state, queue, newNonce);
        Regroup(old(sent), out, pass.sent);
        Regroup(sent, Drain(state, queue).sent, Unstick(Drain(state, queue).state, Drain(state, queue).queue, newNonce).sent);
        out, events := out + pass.sent, events + pass.events;
        processed := DrainQueue();
        React(newNonce);
      }
    }
  }

  // What the loops keep

  lemma {:induction false} NotedOneMore(table: ClientTable, table0: ClientTable, log: Log, keys: seq<nat>, i: nat)
    requires i < |keys| && forall k :: k in keys ==> k in log
    requires table == H.NoteLog(table0, log, keys[..i])
    ensures H.NoteLog(table0, log, keys[..i + 1]) == H.NoteRequest(table, log[keys[i]])
  {
    assert keys[..i + 1][..i] == keys[..i];
  }

  /** Execution from s0 has reached s, having sent `out`. */
  ghost predicate Resumes(s0: State, s: State, out: seq<Output>) {
    Execute(s0) == Effect(Execute(s).state, out + Execute(s).sent)
  }

  lemma {:induction false} ResumesFromStart(s: State)
    ensures Resumes(s, s, [])
  {
    assert [] + Execute(s).sent == Execute(s).sent;
  }

  lemma {:induction false} ResumesToEnd(s0: State, s: State, out: seq<Output>)
    requires Resumes(s0, s, out) && !CanExecute(s)
    ensures Execute(s0) == Effect(s, out)
  {
    assert out + [] == out;
  }

  lemma {:induction false} ResumesAfterOne(s0: State, s: State, out: seq<Output>)
    requires CanExecute(s) && Resumes(s0, s, out)
    ensures Resumes(s0, ExecuteOne(s).state, out + ExecuteOne(s).sent)
  {
    var first := ExecuteOne(s);
    var rest := Execute(first.state);
    assert out + (first.sent + rest.sent) == (out + first.sent) + rest.sent;
  }

  lemma {:induction false} ExecuteIgnoresResponses(s: State, responses: seq<Message>)
    ensures var e := Execute(s);
      Execute(s.(responses := responses)) == Effect(e.state.(responses := responses), e.sent)
    decreases s.commit - s.lastExecuted
  {
    var t := s.(responses := responses);
    if CanExecute(s) {
      ExecuteOneIgnoresResponses(s, responses);
      ExecuteIgnoresResponses(ExecuteOne(s).state, responses);
    }
  }

  lemma {:induction false} ExecuteOneIgnoresResponses(s: State, responses: seq<Message>)
    requires CanExecute(s)
    ensures var e := ExecuteOne(s);
      ExecuteOne(s.(responses := responses)) == Effect(e.state.(responses := responses), e.sent)
  {
  }

  ghost predicate DrainsOn(goal: Outcome, out: seq<Output>, events: seq<Event>, s: State, q: seq<Inbound>) {
    goal == After(out, events, Drain(s, q))
  }

  lemma {:induction false} DrainsFromStart(s: State, q: seq<Inbound>)
    ensures DrainsOn(Drain(s, q), [], [], s, q)
  {
    var r := Drain(s, q);
    assert [] + r.sent == r.sent && [] + r.events == r.events;
  }

  lemma {:induction false} DrainsToEnd(goal: Outcome, out: seq<Output>, events: seq<Event>, s: State, q: seq<Inbound>)
    requires DrainsOn(goal, out, events, s, q)
    requires q != [] ==> !H.Stale(s, q[0].message) && !H.CanProcess(s, q[0].message)
    ensures goal == Outcome(s, q, out, events)
  {
    assert out + [] == out && events + [] == events;
  }

  lemma {:induction false} DrainsAfterDiscard(goal: Outcome, out: seq<Output>, events: seq<Event>, s: State, q: seq<Inbound>)
    requires DrainsOn(goal, out, events, s, q) && q != [] && H.Stale(s, q[0].message)
    ensures DrainsOn(goal, out, events + [Discarded(q[0])], s, q[1..])
  {
    AfterAfter(out, events, [], [Discarded(q[0])], Drain(s, q[1..]));
    assert out + [] == out;
  }

  lemma {:induction false} DrainsAfterHandle(goal: Outcome, out: seq<Output>, events: seq<Event>, s: State, q: seq<Inbound>)
    requires DrainsOn(goal, out, events, s, q)
    requires q != [] && !H.Stale(s, q[0].message) && H.CanProcess(s, q[0].message)
    ensures var e := H.Dispatch(s, q[0]);
      DrainsOn(goal, out + e.sent, events + [Handled(q[0])], e.state, q[1..])
  {
    var e := H.Dispatch(s, q[0]);
    AfterAfter(out, events, e.sent, [Handled(q[0])], Drain(e.state, q[1..]));
  }

  ghost predicate ProcessesOn(goal: Outcome, out: seq<Output>, events: seq<Event>, s: State, q: seq<Inbound>,
                              nonce: U128, more: bool) {
    goal == if more then After(out, events, ProcessQueue(s, q, nonce)) else Outcome(s, q, out, events)
  }

  lemma {:induction false} ProcessesFromStart(s: State, q: seq<Inbound>, nonce: U128)
    ensures ProcessesOn(ProcessQueue(s, q, nonce), [], [], s, q, nonce, true)
  {
    var r := ProcessQueue(s, q, nonce);
    assert [] + r.sent == r.sent && [] + r.events == r.events;
  }

  lemma {:induction false} ProcessesAfterPass(goal: Outcome, out: seq<Output>, events: seq<Event>, s: State, q: seq<Inbound>, nonce: U128)
    requires ProcessesOn(goal, out, events, s, q, nonce, true)
    ensures var pass := Pass(s, q, nonce);
      ProcessesOn(goal, out + pass.sent, events + pass.events, pass.state, pass.queue, nonce, Drain(s, q).events != [])
  {
    var pass := Pass(s, q, nonce);
    AfterAfter(out, events, pass.sent, pass.events, ProcessQueue(pass.state, pass.queue, nonce));
  }

  lemma {:induction false} AfterAfter(sent: seq<Output>, events: seq<Event>, sent': seq<Output>, events': seq<Event>, r: Outcome)
    ensures After(sent, events, After(sent', events', r)) == After(sent + sent', events + events', r)
  {
    assert sent + (sent' + r.sent) == (sent + sent') + r.sent;
    assert events + (events' + r.events) == (events + events') + r.events;
  }
}
