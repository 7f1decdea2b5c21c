/** What the clients of a running cluster see: the maps of the replicas hold the last writes,
    replies are the right answers, and a repeated request gets the answer of its execution. */
module ClientView {
  import opened Types
  import opened Execution
  import opened Handlers
  import opened Cluster
  import opened Safety
  import opened Replays
  import opened ClusterReplay
  import opened RecoveredState
  import ThreeReplicas
  import KV = KeyValue

  /** Last write wins at every replica: at every moment of a run without recoveries and
      resubmissions, every key has the value of the last executed SET of it, and there are
      no other keys. */
  lemma {:induction false} ReplicasHoldLastWrites(n: ClusterSize, run: seq<Cluster>, steps: seq<Step>, t: nat, i: nat)
    requires PlainRun(n, run, steps) && InRun(run, t, i)
    ensures var s := run[t].replicas[i]; KV.LastWrites(s.log, s.lastExecuted, s.kv)
  {
    PlainFaithful(n, run, steps, t, i);
    KV.LastWriteWins(run[t].replicas[i].log, run[t].replicas[i].lastExecuted);
  }

  /** With recoveries: at every moment of every safe run each key that an executed operation
      sets has the value of the last one to set it; and when the replica has executed as much
      as it ever had, there are no other keys. */
  lemma {:induction false} RecoveredHoldLastWrites(n: ClusterSize, run: seq<Cluster>, steps: seq<Step>, t: nat, i: nat)
    requires SubmittedOnce(n, run, steps) && InRun(run, t, i)
    ensures var s := run[t].replicas[i];
      && (forall key, value, j: nat :: KV.LastWrite(s.log, s.lastExecuted, j, key, value) ==> KV.Holds(s.kv, key, value))
      && (CaughtUp(run, t, i) ==> KV.LastWrites(s.log, s.lastExecuted, s.kv))
  {
    var s := run[t].replicas[i];
    RecoveredStateIsReplay(n, run, steps, t, i);
    KV.LastWriteWins(s.log, s.lastExecuted);
    var ops := Prefix(s.log, s.lastExecuted);
    forall key, value, j: nat | KV.LastWrite(s.log, s.lastExecuted, j, key, value) ensures KV.Holds(s.kv, key, value) {
      assert KV.SetsKey(s.log[j], key);
      assert KV.Written(s.log, s.lastExecuted, key);
      KV.WrittenExactly(s.log, s.lastExecuted, key);
      assert KV.Holds(Replay(ops, map[]), key, value);
    }
  }

  /** The same for every run of three replicas. */
  lemma {:induction false} ThreeHoldLastWrites(run: seq<Cluster>, steps: seq<Step>, t: nat, i: nat)
    requires IsRun(3, run, steps) && OneSubmissionEach(steps) && InRun(run, t, i)
    ensures var s := run[t].replicas[i];
      && (forall key, value, j: nat :: KV.LastWrite(s.log, s.lastExecuted, j, key, value) ==> KV.Holds(s.kv, key, value))
      && (CaughtUp(run, t, i) ==> KV.LastWrites(s.log, s.lastExecuted, s.kv))
  {
    ThreeReplicas.EveryRunIsSafe(3, run, steps);
    RecoveredHoldLastWrites(3, run, steps, t, i);
  }

  /** o replies to operation k of the log of s with the right answer. */
  ghost predicate RightReply(s: State, o: Output, k: nat) {
    && k in s.log && o.Send? && KV.Right(s.log, k, o.msg.payload)
    && o.msg == Message(Reply, s.view, 0, 0, 0, s.log[k].client, s.log[k].request, 0, o.msg.payload, NO_BODY)
  }

  lemma {:induction false} ReplyIsRight(s: State, o: Output, k: nat)
    requires ReplyOver(s, o, k, map[])
    ensures RightReply(s, o, k)
  {
    KV.SequentialIsRight(s.log, k);
  }

  /** Between s and what e leaves, every reply is right, and each newly executed operation of
      a client that this primary is connected to gets one, over that connection. */
  ghost predicate RepliesRight(s: State, e: Effect) {
    var t := e.state;
    && (forall o :: o in e.sent && o.msg.command == Reply ==>
          exists k :: s.lastExecuted < k <= t.lastExecuted && RightReply(t, o, k))
    && (forall k :: s.lastExecuted < k <= t.lastExecuted && Connected(t, k) ==>
          exists o :: o in e.sent && RightReply(t, o, k) && o.to == t.connections[t.log[k].client])
  }

  lemma {:induction false} ExactIsRight(s: State, e: Effect)
    requires AnswersExactly(s, e, map[])
    ensures RepliesRight(s, e)
  {
    var t := e.state;
    forall o | o in e.sent && o.msg.command == Reply
      ensures exists k :: s.lastExecuted < k <= t.lastExecuted && RightReply(t, o, k)
    {
      var k :| s.lastExecuted < k <= t.lastExecuted && ReplyOver(t, o, k, map[]);
      ReplyIsRight(t, o, k);
    }
    forall k | s.lastExecuted < k <= t.lastExecuted && Connected(t, k)
      ensures exists o :: o in e.sent && RightReply(t, o, k) && o.to == t.connections[t.log[k].client]
    {
      assert Answered(t, e.sent, k, map[]);
      var o :| o in e.sent && ReplyOver(t, o, k, map[]) && Connected(t, k) && o.to == t.connections[t.log[k].client];
      ReplyIsRight(t, o, k);
    }
  }

  /** Replies are right: in every run without recoveries and resubmissions, what a step
      executes it answers, a SET with its key and value, a GET with the value of the last SET
      before it in the log or with "NOT_FOUND", and it sends no other reply. */
  lemma {:induction false} RepliesAreRight(n: ClusterSize, run: seq<Cluster>, steps: seq<Step>, t: nat)
    requires PlainRun(n, run, steps) && t < |steps| && !steps[t].Lose? && !steps[t].ClientRequest?
    ensures Acting(run[t], steps[t]).0 < |run[t].replicas|
    ensures RepliesRight(run[t].replicas[Acting(run[t], steps[t]).0], Acting(run[t], steps[t]).1)
  {
    RepliesAreSequential(n, run, steps, t);
    ExactIsRight(run[t].replicas[Acting(run[t], steps[t]).0], Acting(run[t], steps[t]).1);
  }

  /** A repetition, at any moment of such a run, of a request that the client table of a
      replica has as executed is answered with what its execution answered. */
  lemma {:induction false} RepetitionsAreAnswered(n: ClusterSize, run: seq<Cluster>, steps: seq<Step>, t: nat, i: nat, inb: Inbound)
    requires PlainRun(n, run, steps) && InRun(run, t, i) && inb.message.command == Request
    requires var s, m := run[t].replicas[i], inb.message;
      m.client in s.clients && s.clients[m.client].request == m.request && s.clients[m.client].executed
    ensures var s, m := run[t].replicas[i], inb.message;
      exists j, answer :: 1 <= j <= s.lastExecuted && j in s.log && s.log[j].client == m.client && s.log[j].request == m.request
        && KV.Right(s.log, j, answer)
        && Dispatch(s, inb) ==
             Effect(s, [Send(inb.connection, Message(Reply, 0, 0, 0, 0, m.client, m.request, 0, answer, NO_BODY))])
  {
    PlainFaithful(n, run, steps, t, i);
    var j, answer := KV.RepetitionAnswered(run[t].replicas[i], inb);
    assert KV.Right(run[t].replicas[i].log, j, answer);
  }
}
