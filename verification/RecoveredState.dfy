/** The state of every replica in runs with recoveries: what re-execution has reached is
    right, and once it has caught up with all the replica ever executed the whole map is. */
module RecoveredState {
  import opened Types
  import opened Execution
  import opened Handlers
  import opened Cluster
  import opened History
  import opened Invariant
  import opened Preservation
  import opened Steps
  import opened Progress
  import opened Safety
  import opened Replays
  import opened ClusterReplay
  import ThreeReplicas

  /** The first `top` operations of view v write every key of the map. */
  ghost predicate Written(g: History, v: nat, top: nat, kv: KvMap) {
    && v < |g.views| && top <= |g.views[v].log|
    && forall key :: key in kv ==> Writes(g.views[v].log[..top], key)
  }

  /** The replica has executed over `base`, which holds nothing but keys that its first
      `top` operations write, and it has executed no more than those. */
  ghost predicate Tidy(g: History, s: State, base: KvMap, top: nat)
    requires Shaped(g)
  {
    && FaithfulOver(s, base) && s.lastExecuted <= top
    && Committed(g, top, LogView(s)) && Written(g, LogView(s), top, base)
  }

  lemma {:induction false} WrittenLater(g: History, h: History, v: nat, w: nat, top: nat, top': nat, kv: KvMap)
    requires Shaped(g) && HistoryOk(h) && Extends(g, h) && Written(g, v, top, kv) && Committed(g, top, v)
    requires v <= w < |h.views| && top <= top' && Committed(h, top', w)
    ensures Written(h, w, top', kv)
  {
    CommittedGrows(g, h, top, v);
    CommittedAgree(h, top, v, w);
    CommittedAgree(h, top', w, w);
    forall key | key in kv ensures Writes(h.views[w].log[..top'], key) {
      assert g.views[v].log[..top] == h.views[v].log[..top] == h.views[w].log[..top];
      assert h.views[w].log[..top] <= h.views[w].log[..top'];
      PrefixWrites(h.views[w].log[..top], h.views[w].log[..top'], key);
    }
  }

  /** Whatever a replica has moved to, from a map that was written. */
  lemma {:induction false} TidyMoves(g: History, h: History, s: State, t: State, base: KvMap, top: nat, base': KvMap)
    requires Shaped(g) && HistoryOk(h) && Extends(g, h) && Tidy(g, s, base, top)
    requires LogView(s) <= LogView(t) < |h.views| && Committed(h, t.lastExecuted, LogView(t))
    requires Written(g, LogView(s), top, base') && FaithfulOver(t, base')
    ensures Tidy(h, t, base', Max(top, t.lastExecuted))
  {
    var top' := Max(top, t.lastExecuted);
    CommittedGrows(g, h, top, LogView(s));
    CommittedLess(h, top, top, LogView(s), LogView(t));
    WrittenLater(g, h, LogView(s), LogView(t), top, top', base');
  }

  /** Everything in the map of a replica was written by what it has executed at most. */
  lemma {:induction false} MapWritten(g: History, s: State, i: nat, base: KvMap, top: nat)
    requires HistoryOk(g) && i < g.n && LogOk(g, s, i) && s.lastExecuted <= s.op && Tidy(g, s, base, top)
    ensures Written(g, LogView(s), top, s.kv)
  {
    var l, k := g.views[LogView(s)].log, s.lastExecuted;
    assert Prefix(s.log, k) == l[..k];
    forall key | key in s.kv ensures Writes(l[..top], key) {
      OnlyWrittenKeys(Prefix(s.log, k), base, key);
      if Writes(l[..k], key) {
        assert l[..k] <= l[..top];
        PrefixWrites(l[..k], l[..top], key);
      }
    }
  }

  lemma {:induction false} RecoveredFaithful(s: State, m: Message)
    requires CompletesRecovery(s, m) && Distinct(HandleRecoveryResponse(s, m).state.log)
    ensures FaithfulOver(HandleRecoveryResponse(s, m).state, s.kv)
  {
    var best := MostRecent(s.responses + [m]);
    AdoptedFaithful(s, best);
    ExecuteFaithful(AdoptResponse(s, best), s.kv);
  }

  lemma {:induction false} LogIsDistinct(c: Cluster, g: History, i: nat)
    requires Inv(c, g) && i < c.n && forall v :: 0 <= v < |g.views| ==> LogDiffers(g.views[v].log)
    ensures Distinct(c.replicas[i].log)
  {
    assert ReplicaOk(g, c.replicas[i], i);
    HeldLogDiffers(c.replicas[i], g.views[LogView(c.replicas[i])].log);
  }

  /** The map that the acting replica's execution goes over after its step. */
  function NextBase(c: Cluster, step: Step, i: nat, base: KvMap): KvMap
    requires ValidId(c, i)
  {
    if CompletesIn(c, step) && step.p.dst == i then c.replicas[i].kv else base
  }

  lemma {:induction false} ActorStaysFaithful(c: Cluster, step: Step, c': Cluster, g: History, h: History, base: KvMap)
    requires Inv(c, g) && Enabled(c, step) && !step.Lose? && !CompletesIn(c, step)
    requires Inv(c', h) && Extends(g, h) && forall v :: 0 <= v < |h.views| ==> LogDiffers(h.views[v].log)
    requires var i := Acting(c, step).0;
      i < |c'.replicas| && FaithfulOver(c.replicas[i], base) && c'.replicas[i] == Acting(c, step).1.state
    ensures FaithfulOver(Acting(c, step).1.state, base)
  {
    var (i, e, net) := Acting(c, step);
    NoRequestInFlight(c, g);
    var b := ActorBase(c, step);
    MovedFaithfully(c, c', g, h, i, b, Replied(step, e), base);
  }

  lemma {:induction false} RecovererFaithful(c: Cluster, step: Step, c': Cluster, h: History)
    requires CompletesIn(c, step) && Inv(c', h)
    requires forall v :: 0 <= v < |h.views| ==> LogDiffers(h.views[v].log)
    requires var i := step.p.dst;
      i < c'.n && i < |c'.replicas| && c'.replicas[i] == HandleRecoveryResponse(c.replicas[i], step.p.msg).state
    ensures FaithfulOver(c'.replicas[step.p.dst], c.replicas[step.p.dst].kv)
  {
    LogIsDistinct(c', h, step.p.dst);
    RecoveredFaithful(c.replicas[step.p.dst], step.p.msg);
  }

  lemma {:induction false} CompletesEffect(c: Cluster, step: Step)
    requires Enabled(c, step) && CompletesIn(c, step)
    ensures Acting(c, step).0 == step.p.dst
    ensures Acting(c, step).1.state == HandleRecoveryResponse(c.replicas[step.p.dst], step.p.msg).state
  {
  }

  /** One step, seen from any replica. */
  lemma {:induction false} StepFaithful(c: Cluster, step: Step, g: History, h: History, i: nat, base: KvMap)
    requires Inv(c, g) && Enabled(c, step) && StepOk(c, step, Next(c, step), g, h) && i < c.n
    requires forall v :: 0 <= v < |h.views| ==> LogDiffers(h.views[v].log)
    requires FaithfulOver(c.replicas[i], base)
    ensures |Next(c, step).replicas| == c.n && FaithfulOver(Next(c, step).replicas[i], NextBase(c, step, i, base))
  {
    var c' := Next(c, step);
    WhoMoves(c, step, i);
    if CompletesIn(c, step) && step.p.dst == i {
      CompletesEffect(c, step);
      RecovererFaithful(c, step, c', h);
    } else if !step.Lose? && Acting(c, step).0 == i {
      assert !CompletesIn(c, step);
      ActorStaysFaithful(c, step, c', g, h, base);
    }
  }

  lemma {:induction false} StepTidy(c: Cluster, step: Step, c': Cluster, g: History, h: History, i: nat, base: KvMap, top: nat)
    requires Inv(c, g) && ValidId(c, i) && Inv(c', h) && Extends(g, h) && Tidy(g, c.replicas[i], base, top)
    requires |c'.replicas| == c.n && FaithfulOver(c'.replicas[i], NextBase(c, step, i, base))
    ensures Tidy(h, c'.replicas[i], NextBase(c, step, i, base), Max(top, c'.replicas[i].lastExecuted))
  {
    ViewsOrdered(c, c', g, h, i);
    assert ReplicaOk(g, c.replicas[i], i) && ReplicaOk(h, c'.replicas[i], i);
    MapWritten(g, c.replicas[i], i, base, top);
    TidyMoves(g, h, c.replicas[i], c'.replicas[i], base, top, NextBase(c, step, i, base));
  }

  /** A safe run in which no request is submitted twice; recoveries are allowed. */
  ghost predicate SubmittedOnce(n: ClusterSize, run: seq<Cluster>, steps: seq<Step>) {
    SafeRun(n, run, steps) && OneSubmissionEach(steps)
  }

  lemma {:induction false} LogsDifferUpTo(steps: seq<Step>, gs: seq<History>, t: nat)
    requires OneSubmissionEach(steps) && t < |gs| <= |steps| + 1 && LogsDiffer(steps, 0, gs[0])
    requires forall k, u :: 0 <= k < t && u == k + 1 ==> LogsMove(steps[k], gs[k], gs[u])
    ensures LogsDiffer(steps, t, gs[t])
  {
    if t > 0 {
      LogsDifferUpTo(steps, gs, t - 1);
      LogsDifferStep(steps, t - 1, gs[t - 1], gs[t]);
    }
  }

  lemma {:induction false} LogsMoveInRun(run: seq<Cluster>, steps: seq<Step>, gs: seq<History>, k: nat)
    requires Histories(run, steps, gs) && k + 1 < |gs|
    ensures LogsMove(steps[k], gs[k], gs[k + 1])
  {
    assert StepOk(run[k], steps[k], run[k + 1], gs[k], gs[k + 1]);
  }

  lemma {:induction false} LogsDifferInRun(n: ClusterSize, run: seq<Cluster>, steps: seq<Step>, gs: seq<History>, t: nat)
    requires OneSubmissionEach(steps) && Histories(run, steps, gs) && t < |gs| && gs[0] == InitialHistory(n)
    ensures LogsDiffer(steps, t, gs[t])
  {
    forall k, u | 0 <= k < t && u == k + 1 ensures LogsMove(steps[k], gs[k], gs[u]) {
      LogsMoveInRun(run, steps, gs, k);
    }
    LogsDifferUpTo(steps, gs, t);
  }

  /** `top` is the most that replica i has had executed up to moment t. */
  ghost predicate Highest(run: seq<Cluster>, t: nat, i: nat, top: nat) {
    && t < |run| && (forall u :: 0 <= u <= t ==> i < |run[u].replicas| && run[u].replicas[i].lastExecuted <= top)
    && exists u :: 0 <= u <= t && run[u].replicas[i].lastExecuted == top
  }

  ghost predicate TidyAt(run: seq<Cluster>, gs: seq<History>, t: nat, i: nat, base: KvMap, top: nat) {
    && t < |run| && t < |gs| && Shaped(gs[t]) && i < |run[t].replicas|
    && Tidy(gs[t], run[t].replicas[i], base, top) && Highest(run, t, i, top)
  }

  lemma {:induction false} TidyFirst(n: ClusterSize, run: seq<Cluster>, steps: seq<Step>, gs: seq<History>, i: nat)
    requires SubmittedOnce(n, run, steps) && |gs| > 0 && gs[0] == InitialHistory(n) && i < n
    ensures TidyAt(run, gs, 0, i, map[], 0)
  {
    assert run[0].replicas[i] == InitialState(i, n);
  }

  lemma {:induction false} TidyNext(n: ClusterSize, run: seq<Cluster>, steps: seq<Step>, gs: seq<History>, t: nat, i: nat,
                                    base: KvMap, top: nat) returns (base': KvMap, top': nat)
    requires SubmittedOnce(n, run, steps) && Histories(run, steps, gs) && t + 1 < |gs| == |run| && gs[0] == InitialHistory(n)
    requires i < n && TidyAt(run, gs, t, i, base, top)
    ensures TidyAt(run, gs, t + 1, i, base', top')
  {
    var c, c', g, h := run[t], run[t + 1], gs[t], gs[t + 1];
    assert MomentOk(run, t, g) && StepOk(c, steps[t], c', g, h) && Extends(gs[0], g);
    LogsDifferInRun(n, run, steps, gs, t + 1);
    StepFaithful(c, steps[t], g, h, i, base);
    StepTidy(c, steps[t], c', g, h, i, base, top);
    base', top' := NextBase(c, steps[t], i, base), Max(top, c'.replicas[i].lastExecuted);
    HighestNext(run, t, i, top);
  }

  lemma {:induction false} HighestNext(run: seq<Cluster>, t: nat, i: nat, top: nat)
    requires Highest(run, t, i, top) && t + 1 < |run| && i < |run[t + 1].replicas|
    ensures Highest(run, t + 1, i, Max(top, run[t + 1].replicas[i].lastExecuted))
  {
    var u :| 0 <= u <= t && run[u].replicas[i].lastExecuted == top;
    var u' := if run[t + 1].replicas[i].lastExecuted > top then t + 1 else u;
    assert run[u'].replicas[i].lastExecuted == Max(top, run[t + 1].replicas[i].lastExecuted);
  }

  lemma {:induction false} TidyInRun(n: ClusterSize, run: seq<Cluster>, steps: seq<Step>, gs: seq<History>, t: nat, i: nat)
    returns (base: KvMap, top: nat)
    requires SubmittedOnce(n, run, steps) && Histories(run, steps, gs) && t < |gs| == |run| && gs[0] == InitialHistory(n) && i < n
    ensures TidyAt(run, gs, t, i, base, top)
  {
    TidyFirst(n, run, steps, gs, i);
    base, top := map[], 0;
    var k: nat := 0;
    while k < t
      invariant k <= t && TidyAt(run, gs, k, i, base, top)
    {
      base, top := TidyNext(n, run, steps, gs, k, i, base, top);
      k := k + 1;
    }
  }

  /** At moment t replica i has executed as much as it ever had. */
  ghost predicate CaughtUp(run: seq<Cluster>, t: nat, i: nat) {
    t < |run| && forall u :: 0 <= u <= t && i < |run[u].replicas| && i < |run[t].replicas| ==>
      run[u].replicas[i].lastExecuted <= run[t].replicas[i].lastExecuted
  }

  /** Replicated state with recoveries: at every moment, every key that a replica's executed
      operations write has the value of their sequential replay, even while the replica is
      re-executing after a recovery; and whenever it has caught up with the most it ever had
      executed, its whole map is that replay. */
  lemma {:induction false} RecoveredStateIsReplay(n: ClusterSize, run: seq<Cluster>, steps: seq<Step>, t: nat, i: nat)
    requires SubmittedOnce(n, run, steps) && InRun(run, t, i)
    ensures var s := run[t].replicas[i];
      && (forall j :: 1 <= j <= s.lastExecuted ==> j in s.log)
      && var ops := Prefix(s.log, s.lastExecuted);
      && (forall key :: Writes(ops, key) ==>
            key in s.kv && key in Replay(ops, map[]) && s.kv[key] == Replay(ops, map[])[key])
      && (CaughtUp(run, t, i) ==> s.kv == Replay(ops, map[]))
  {
    var gs := RunHistories(n, run, steps);
    var g, s := gs[t], run[t].replicas[i];
    assert MomentOk(run, t, g) && MomentOk(run, 0, gs[0]) && Extends(gs[0], g);
    var base, top := TidyInRun(n, run, steps, gs, t, i);
    var ops := Prefix(s.log, s.lastExecuted);
    forall key | Writes(ops, key)
      ensures key in s.kv && key in Replay(ops, map[]) && s.kv[key] == Replay(ops, map[])[key]
    {
      ReplayWritesTheSame(ops, base, map[], key);
    }
    if CaughtUp(run, t, i) {
      assert s.lastExecuted == top;
      assert ReplicaOk(g, s, i);
      TidyAndCaughtUp(g, s, i, base);
    }
  }

  lemma {:induction false} TidyAndCaughtUp(g: History, s: State, i: nat, base: KvMap)
    requires Shaped(g) && i < g.n && LogOk(g, s, i) && s.lastExecuted <= s.op && Tidy(g, s, base, s.lastExecuted)
    ensures s.kv == Replay(Prefix(s.log, s.lastExecuted), map[])
  {
    var ops := Prefix(s.log, s.lastExecuted);
    assert ops == g.views[LogView(s)].log[..s.lastExecuted];
    ReplayOverMap(ops, base);
  }

  /** The same for every run of three replicas, the cluster that the server runs. */
  lemma {:induction false} StateOfThreeIsReplay(run: seq<Cluster>, steps: seq<Step>, t: nat, i: nat)
    requires IsRun(3, run, steps) && OneSubmissionEach(steps) && InRun(run, t, i) && CaughtUp(run, t, i)
    ensures var s := run[t].replicas[i];
      (forall j :: 1 <= j <= s.lastExecuted ==> j in s.log) && s.kv == Replay(Prefix(s.log, s.lastExecuted), map[])
  {
    ThreeReplicas.EveryRunIsSafe(3, run, steps);
    RecoveredStateIsReplay(3, run, steps, t, i);
  }
}
