/** Replies in runs with recoveries: whatever a replica executes for the first time it answers
    rightly, although it executes over a map that a recovery did not clear. */
module RecoveredReplies {
  import opened Types
  import opened Execution
  import opened Handlers
  import opened Cluster
  import opened History
  import opened Invariant
  import opened Preservation
  import opened Steps
  import opened Progress
  import opened Safety
  import opened Replays
  import opened ClusterReplay
  import opened RecoveredState
  import ThreeReplicas
  import KV = KeyValue
  import opened ClientView

  /** o answers an operation that t has executed, with its result over `base`. */
  ghost predicate ResultOver(t: State, o: Output, base: KvMap) {
    exists k :: 1 <= k <= t.lastExecuted && ReplyOver(t, o, k, base)
  }

  /** The replies of a replica that completes its recovery and executes again. */
  lemma {:induction false} RecovererReplies(s: State, m: Message, o: Output)
    requires CompletesRecovery(s, m) && Distinct(HandleRecoveryResponse(s, m).state.log) && o in HandleRecoveryResponse(s, m).sent
    ensures ResultOver(HandleRecoveryResponse(s, m).state, o, s.kv)
  {
    var u := RecoversFrom(s, m);
    RepliesAfter(u, s.kv, o, HandleRecoveryResponse(s, m).state);
  }

  lemma {:induction false} RecoversFrom(s: State, m: Message) returns (u: State)
    requires CompletesRecovery(s, m)
    ensures FaithfulOver(u, s.kv) && u.lastExecuted == 0 && HandleRecoveryResponse(s, m).state.log == u.log
    ensures HandleRecoveryResponse(s, m) == Effect(Execute(u).state.(nonce := ZERO128, responses := []), Execute(u).sent)
  {
    u := AdoptResponse(s, MostRecent(s.responses + [m]));
    AdoptedFaithful(s, MostRecent(s.responses + [m]));
  }

  lemma {:induction false} RepliesAfter(u: State, kv: KvMap, o: Output, t: State)
    requires FaithfulOver(u, kv) && Distinct(u.log) && u.lastExecuted == 0 && o in Execute(u).sent
    requires t == Execute(u).state.(nonce := ZERO128, responses := [])
    ensures ResultOver(t, o, kv)
  {
    ExecuteReplies(u, kv, o);
    var k :| u.lastExecuted < k <= Execute(u).state.lastExecuted && ReplyOver(u, o, k, kv);
    SameReplies(u, t, o, k, kv);
  }

  lemma {:induction false} SameReplies(u: State, t: State, o: Output, k: nat, kv: KvMap)
    requires ReplyOver(u, o, k, kv) && t.log == u.log && t.view == u.view
    ensures ReplyOver(t, o, k, kv)
  {
  }

  lemma {:induction false} MoverReplies(c: Cluster, step: Step, c': Cluster, g: History, h: History, base: KvMap, o: Output)
    requires Inv(c, g) && Enabled(c, step) && !step.Lose? && !step.ClientRequest? && !CompletesIn(c, step)
    requires Inv(c', h) && Extends(g, h) && forall v :: 0 <= v < |h.views| ==> LogDiffers(h.views[v].log)
    requires var i := Acting(c, step).0;
      i < |c'.replicas| && FaithfulOver(c.replicas[i], base) && c'.replicas[i] == Acting(c, step).1.state
    requires o in Acting(c, step).1.sent && o.msg.command == Reply
    ensures ResultOver(Acting(c, step).1.state, o, base)
  {
    var (i, e, net) := Acting(c, step);
    NoRequestInFlight(c, g);
    var b := ActorBase(c, step);
    MovedFaithfully(c, c', g, h, i, b, e, base);
    assert NewResult(c.replicas[i], e.state, o, base);
  }

  lemma {:induction false} CompletingEffect(c: Cluster, step: Step)
    requires Enabled(c, step) && CompletesIn(c, step)
    ensures Acting(c, step).0 == step.p.dst
    ensures Acting(c, step).1 == HandleRecoveryResponse(c.replicas[step.p.dst], step.p.msg)
  {
  }

  /** One step: every reply carries a result over the map that the execution goes over. */
  lemma {:induction false} StepReplies(c: Cluster, step: Step, g: History, h: History, base: KvMap, o: Output)
    requires Inv(c, g) && Enabled(c, step) && StepOk(c, step, Next(c, step), g, h) && !step.Lose? && !step.ClientRequest?
    requires forall v :: 0 <= v < |h.views| ==> LogDiffers(h.views[v].log)
    requires ValidId(c, Acting(c, step).0) && FaithfulOver(c.replicas[Acting(c, step).0], base)
    requires o in Acting(c, step).1.sent && o.msg.command == Reply
    ensures ResultOver(Acting(c, step).1.state, o, NextBase(c, step, Acting(c, step).0, base))
  {
    var c', i := Next(c, step), Acting(c, step).0;
    WhoMoves(c, step, i);
    if CompletesIn(c, step) {
      CompletingEffect(c, step);
      LogIsDistinct(c', h, i);
      RecovererReplies(c.replicas[i], step.p.msg, o);
    } else {
      MoverReplies(c, step, c', g, h, base, o);
    }
  }

  /** A map whose keys the first `top` operations of s write holds none that the operations of
      a later log before a new one do not write. */
  lemma {:induction false} WrittenBefore(g: History, h: History, s: State, t: State, i: nat, kv: KvMap, top: nat, k: nat, key: seq<Byte>)
    requires Shaped(g) && HistoryOk(h) && Extends(g, h) && i < h.n && LogOk(h, t, i)
    requires LogView(s) <= LogView(t) < |h.views| && Committed(g, top, LogView(s)) && Written(g, LogView(s), top, kv)
    requires top < k <= t.lastExecuted <= t.op && key in kv
    ensures (forall j :: 1 <= j <= k ==> j in t.log) && KV.Written(t.log, k - 1, key)
  {
    CommittedGrows(g, h, top, LogView(s));
    CommittedLess(h, top, top, LogView(s), LogView(t));
    WrittenLater(g, h, LogView(s), LogView(t), top, top, kv);
    WrittenInPrefix(t, h.views[LogView(t)].log, top, k, key);
  }

  lemma {:induction false} WrittenInPrefix(t: State, l: seq<LogEntry>, top: nat, k: nat, key: seq<Byte>)
    requires HoldsPrefix(t.log, t.op, l) && top < k <= t.op && top <= |l| && Writes(l[..top], key)
    ensures (forall j :: 1 <= j <= k ==> j in t.log) && KV.Written(t.log, k - 1, key)
  {
    assert Prefix(t.log, k - 1) == l[..k - 1] && l[..top] <= l[..k - 1];
    PrefixWrites(l[..top], l[..k - 1], key);
    KV.WrittenExactly(t.log, k - 1, key);
  }

  lemma {:induction false} NewReplyIsRight(g: History, h: History, s: State, t: State, i: nat, kv: KvMap, top: nat, o: Output, k: nat)
    requires Shaped(g) && HistoryOk(h) && Extends(g, h) && i < h.n && LogOk(h, t, i)
    requires LogView(s) <= LogView(t) < |h.views| && Committed(g, top, LogView(s)) && Written(g, LogView(s), top, kv)
    requires top < k <= t.lastExecuted <= t.op && ReplyOver(t, o, k, kv)
    ensures RightReply(t, o, k)
  {
    forall key | KV.Gets(t.log[k], key) && !KV.Written(t.log, k - 1, key) && key in kv ensures false {
      WrittenBefore(g, h, s, t, i, kv, top, k, key);
    }
    KV.RightOverExactly(t.log, k, kv);
  }

  /** Operation k reads no key that nothing before it in the log sets. */
  ghost predicate ReadsWritten(log: Log, k: nat)
    requires k >= 1 && k in log
  {
    forall key :: KV.Gets(log[k], key) ==> KV.Written(log, k - 1, key)
  }

  /** Every reply in e answers an executed operation of its client, and rightly if the replica
      had not executed as far before or the operation reads only what the log sets. */
  ghost predicate NewRepliesRight(e: Effect, top: nat) {
    forall o :: o in e.sent && o.msg.command == Reply ==> ReplyRightIfNew(e.state, o, top)
  }

  ghost predicate ReplyRightIfNew(t: State, o: Output, top: nat) {
    exists k :: 1 <= k <= t.lastExecuted && k in t.log && o.msg.client == t.log[k].client && o.msg.request == t.log[k].request
                && (k > top || ReadsWritten(t.log, k) ==> RightReply(t, o, k))
  }

  lemma {:induction false} ReplyRight(g: History, h: History, s: State, t: State, i: nat, base: KvMap, top: nat, kv: KvMap, o: Output)
    requires HistoryOk(g) && HistoryOk(h) && Extends(g, h) && i < g.n == h.n && LogOk(h, t, i) && LogOk(g, s, i)
    requires s.lastExecuted <= s.op && t.lastExecuted <= t.op && LogView(s) <= LogView(t) < |h.views|
    requires Tidy(g, s, base, top) && (kv == base || kv == s.kv) && ResultOver(t, o, kv)
    ensures ReplyRightIfNew(t, o, top)
  {
    var k :| 1 <= k <= t.lastExecuted && ReplyOver(t, o, k, kv);
    if k > top {
      MapWritten(g, s, i, base, top);
      NewReplyIsRight(g, h, s, t, i, kv, top, o, k);
    } else if ReadsWritten(t.log, k) {
      ReReadIsRight(t, o, k, kv);
    }
  }

  lemma {:induction false} ReReadIsRight(t: State, o: Output, k: nat, kv: KvMap)
    requires ReplyOver(t, o, k, kv) && ReadsWritten(t.log, k)
    ensures RightReply(t, o, k)
  {
    KV.RightOverExactly(t.log, k, kv);
  }

  lemma {:induction false} StepRepliesRight(c: Cluster, step: Step, g: History, h: History, base: KvMap, top: nat)
    requires Inv(c, g) && Enabled(c, step) && StepOk(c, step, Next(c, step), g, h) && !step.Lose? && !step.ClientRequest?
    requires forall v :: 0 <= v < |h.views| ==> LogDiffers(h.views[v].log)
    requires ValidId(c, Acting(c, step).0) && Shaped(g) && Tidy(g, c.replicas[Acting(c, step).0], base, top)
    ensures NewRepliesRight(Acting(c, step).1, top)
  {
    var i, e := Acting(c, step).0, Acting(c, step).1;
    WhoMoves(c, step, i);
    var c', kv := Next(c, step), NextBase(c, step, i, base);
    assert kv == base || kv == c.replicas[i].kv;
    forall o | o in e.sent && o.msg.command == Reply ensures ResultOver(c'.replicas[i], o, kv) {
      StepReplies(c, step, g, h, base, o);
    }
    MovedRepliesRight(c, c', g, h, i, base, top, kv, e);
  }

  lemma {:induction false} MovedRepliesRight(c: Cluster, c': Cluster, g: History, h: History, i: nat, base: KvMap, top: nat, kv: KvMap, e: Effect)
    requires Inv(c, g) && Inv(c', h) && Extends(g, h) && ValidId(c, i) && i < |c'.replicas| && e.state == c'.replicas[i]
    requires Shaped(g) && Tidy(g, c.replicas[i], base, top) && (kv == base || kv == c.replicas[i].kv)
    requires forall o :: o in e.sent && o.msg.command == Reply ==> ResultOver(c'.replicas[i], o, kv)
    ensures NewRepliesRight(e, top)
  {
    forall o | o in e.sent && o.msg.command == Reply ensures ReplyRightIfNew(e.state, o, top) {
      MovedReplyRight(c, c', g, h, i, base, top, kv, o);
    }
  }

  lemma {:induction false} MovedReplyRight(c: Cluster, c': Cluster, g: History, h: History, i: nat, base: KvMap, top: nat, kv: KvMap, o: Output)
    requires Inv(c, g) && Inv(c', h) && Extends(g, h) && ValidId(c, i) && i < |c'.replicas|
    requires Shaped(g) && Tidy(g, c.replicas[i], base, top) && (kv == base || kv == c.replicas[i].kv)
    requires ResultOver(c'.replicas[i], o, kv)
    ensures ReplyRightIfNew(c'.replicas[i], o, top)
  {
    ViewsOrdered(c, c', g, h, i);
    assert ReplicaOk(g, c.replicas[i], i) && ReplicaOk(h, c'.replicas[i], i);
    ReplyRight(g, h, c.replicas[i], c'.replicas[i], i, base, top, kv, o);
  }

  /** Replies with recoveries: in every safe run without resubmissions, every reply that a step
      sends on executing answers an executed operation, and it is the right answer unless the
      replica had executed that far before and the operation is a GET of a key that nothing
      before it in the log sets. */
  lemma {:induction false} NewRepliesAreRight(n: ClusterSize, run: seq<Cluster>, steps: seq<Step>, t: nat) returns (top: nat)
    requires SubmittedOnce(n, run, steps) && t < |steps| && !steps[t].Lose? && !steps[t].ClientRequest?
    ensures Highest(run, t, Acting(run[t], steps[t]).0, top) && NewRepliesRight(Acting(run[t], steps[t]).1, top)
  {
    var gs := RunHistories(n, run, steps);
    var c, step, i := run[t], steps[t], Acting(run[t], steps[t]).0;
    assert MomentOk(run, t, gs[t]) && MomentOk(run, 0, gs[0]) && Extends(gs[0], gs[t]);
    assert StepOk(c, step, run[t + 1], gs[t], gs[t + 1]);
    LogsDifferInRun(n, run, steps, gs, t + 1);
    var base;
    base, top := TidyInRun(n, run, steps, gs, t, i);
    StepRepliesRight(c, step, gs[t], gs[t + 1], base, top);
  }

  /** The same for every run of three replicas. */
  lemma {:induction false} RepliesOfThreeAreRight(run: seq<Cluster>, steps: seq<Step>, t: nat) returns (top: nat)
    requires IsRun(3, run, steps) && OneSubmissionEach(steps) && t < |steps| && !steps[t].Lose? && !steps[t].ClientRequest?
    ensures Highest(run, t, Acting(run[t], steps[t]).0, top) && NewRepliesRight(Acting(run[t], steps[t]).1, top)
  {
    ThreeReplicas.EveryRunIsSafe(3, run, steps);
    top := NewRepliesAreRight(3, run, steps, t);
  }
}
