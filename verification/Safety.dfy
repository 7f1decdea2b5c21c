/** What holds over whole runs of a cluster of 2f+1 replicas: one log per view,
    leader completeness, commit soundness and agreement of executed operations. */
module Safety {
  import opened Types
  import opened Handlers
  import opened Cluster
  import opened Quorums
  import opened History
  import opened Invariant
  import opened Preservation
  import opened Steps
  import opened Progress

  /** A run of an odd-sized cluster in which no recovery falls back. */
  ghost predicate SafeRun(n: ClusterSize, run: seq<Cluster>, steps: seq<Step>) {
    && n % 2 == 1 && IsRun(n, run, steps)
    && forall k :: 0 <= k < |steps| ==> RecoversForward(run[k], steps[k])
  }

  ghost function InitialHistory(n: ClusterSize): History {
    History(n, [ViewRecord(0, [], {})], seq(n, _ => map[0 := 0]), seq(n, _ => 0), seq(n, _ => {}), seq(n, _ => {}))
  }

  lemma {:induction false} InitialOk(n: ClusterSize)
    requires n % 2 == 1
    ensures Inv(InitialCluster(n), InitialHistory(n))
  {
    var c, g := InitialCluster(n), InitialHistory(n);
    assert Remainder(0, n) == 0;
    assert ViewOk(g, 0);
    forall j, v | 0 <= j < g.n && v in g.reach[j] ensures ReachOk(g, j, v) {
    }
    forall i | 0 <= i < n ensures ReplicaOk(g, c.replicas[i], i) {
      assert c.replicas[i] == InitialState(i, n);
    }
  }

  /** What replica j has reached in view v, it held in view v at some moment. */
  ghost predicate Witnessed(run: seq<Cluster>, t: nat, g: History)
    requires Shaped(g) && t < |run|
  {
    forall j, v :: 0 <= j < g.n && v in g.reach[j] ==> exists t' :: 0 <= t' <= t && HeldAt(run, t', j, v, g.reach[j][v])
  }

  ghost predicate HeldAt(run: seq<Cluster>, t: nat, j: nat, v: nat, k: nat)
    requires t < |run|
  {
    j < |run[t].replicas| && LogView(run[t].replicas[j]) == v && run[t].replicas[j].op == k
  }

  lemma {:induction false} WitnessedStep(run: seq<Cluster>, t: nat, g: History, h: History)
    requires t + 1 < |run| && Shaped(g) && Witnessed(run, t, g) && Inv(run[t + 1], h)
    requires Extends(g, h) && OnlyTopChanges(g, h)
    ensures Witnessed(run, t + 1, h)
  {
    forall j, v | 0 <= j < h.n && v in h.reach[j]
      ensures exists t' :: 0 <= t' <= t + 1 && HeldAt(run, t', j, v, h.reach[j][v])
    {
      assert ReplicaOk(h, run[t + 1].replicas[j], j) && TopChange(g, h, j);
      if v in g.reach[j] && g.reach[j][v] == h.reach[j][v] {
        var t' :| 0 <= t' <= t && HeldAt(run, t', j, v, g.reach[j][v]);
      } else {
        assert HeldAt(run, t + 1, j, v, h.reach[j][v]);
      }
    }
  }

  lemma {:induction false} ExtendsTrans(a: History, b: History, c: History)
    requires Extends(a, b) && Extends(b, c)
    ensures Extends(a, c)
  {
  }

  ghost predicate MomentOk(run: seq<Cluster>, t: nat, g: History)
    requires t < |run|
  {
    Inv(run[t], g) && Witnessed(run, t, g)
  }

  ghost predicate Extending(gs: seq<History>) {
    forall t, u :: 0 <= t <= u < |gs| ==> Extends(gs[t], gs[u])
  }

  ghost predicate Stepping(run: seq<Cluster>, steps: seq<Step>, gs: seq<History>)
    requires |gs| <= |run| == |steps| + 1
  {
    forall t, u :: 0 <= t < |gs| && u == t + 1 < |gs| ==> StepOk(run[t], steps[t], run[u], gs[t], gs[u])
  }

  /** The history of a run: one per moment so far, each extending the ones before. */
  ghost predicate Histories(run: seq<Cluster>, steps: seq<Step>, gs: seq<History>) {
    && 0 < |gs| <= |run| == |steps| + 1
    && (forall t :: 0 <= t < |gs| ==> MomentOk(run, t, gs[t]))
    && Extending(gs) && Stepping(run, steps, gs)
  }

  lemma {:induction false} ExtendingGrows(gs: seq<History>, h: History)
    requires gs != [] && Extending(gs) && Extends(gs[|gs| - 1], h)
    ensures Extending(gs + [h])
  {
    var k := |gs|;
    GrowsRefl(h, 0);
    GrowsExtends(h, h, 0);
    forall t | 0 <= t < k ensures Extends(gs[t], h) {
      ExtendsTrans(gs[t], gs[k - 1], h);
    }
  }

  lemma {:induction false} SteppingGrows(run: seq<Cluster>, steps: seq<Step>, gs: seq<History>, h: History)
    requires 0 < |gs| < |run| == |steps| + 1 && Stepping(run, steps, gs)
    requires StepOk(run[|gs| - 1], steps[|gs| - 1], run[|gs|], gs[|gs| - 1], h)
    ensures Stepping(run, steps, gs + [h])
  {
    var hs := gs + [h];
    forall t, u | 0 <= t < |hs| && u == t + 1 < |hs| ensures StepOk(run[t], steps[t], run[u], hs[t], hs[u]) {
      assert u < |gs| ==> StepOk(run[t], steps[t], run[u], gs[t], gs[u]);
    }
  }

  lemma {:induction false} HistoriesGrow(run: seq<Cluster>, steps: seq<Step>, gs: seq<History>, h: History)
    requires Histories(run, steps, gs) && |gs| < |run|
    requires StepOk(run[|gs| - 1], steps[|gs| - 1], run[|gs|], gs[|gs| - 1], h)
    ensures Histories(run, steps, gs + [h])
  {
    var k := |gs|;
    assert MomentOk(run, k - 1, gs[k - 1]);
    WitnessedStep(run, k - 1, gs[k - 1], h);
    ExtendingGrows(gs, h);
    SteppingGrows(run, steps, gs, h);
  }

  lemma {:induction false} FirstMoment(n: ClusterSize, run: seq<Cluster>, steps: seq<Step>)
    requires SafeRun(n, run, steps)
    ensures Histories(run, steps, [InitialHistory(n)])
  {
    var g := InitialHistory(n);
    InitialOk(n);
    GrowsRefl(g, 0);
    GrowsExtends(g, g, 0);
    forall j, v | 0 <= j < g.n && v in g.reach[j]
      ensures exists t' :: 0 <= t' <= 0 && HeldAt(run, t', j, v, g.reach[j][v])
    {
      assert HeldAt(run, 0, j, v, g.reach[j][v]);
    }
  }

  ghost predicate CarriesOver(c: Cluster, step: Step, c': Cluster, g: History) {
    exists h :: StepOk(c, step, c', g, h)
  }

  /** The invariant can be carried over step k. */
  ghost predicate Steppable(run: seq<Cluster>, steps: seq<Step>, k: nat)
    requires k < |steps| && |run| == |steps| + 1
  {
    forall g :: Inv(run[k], g) ==> CarriesOver(run[k], steps[k], run[k + 1], g)
  }

  lemma {:induction false} EveryStepSteppable(n: ClusterSize, run: seq<Cluster>, steps: seq<Step>, k: nat)
    requires SafeRun(n, run, steps) && k < |steps|
    ensures Steppable(run, steps, k)
  {
    var c, step := run[k], steps[k];
    assert Enabled(c, step) && run[k + 1] == Next(c, step) && RecoversForward(c, step);
    forall g | Inv(c, g) ensures CarriesOver(c, step, run[k + 1], g) {
      var h := AnyStep(c, step, g);
    }
  }

  lemma {:induction false} PickNext(run: seq<Cluster>, steps: seq<Step>, k: nat, u: nat, g: History) returns (h: History)
    requires |run| == |steps| + 1 && u == k + 1 < |run| && Steppable(run, steps, k) && Inv(run[k], g)
    ensures StepOk(run[k], steps[k], run[u], g, h)
  {
    assert CarriesOver(run[k], steps[k], run[k + 1], g);
    h :| StepOk(run[k], steps[k], run[k + 1], g, h);
  }

  lemma {:induction false} LastInv(run: seq<Cluster>, steps: seq<Step>, gs: seq<History>)
    requires Histories(run, steps, gs)
    ensures Inv(run[|gs| - 1], gs[|gs| - 1])
  {
    assert MomentOk(run, |gs| - 1, gs[|gs| - 1]);
  }

  lemma {:induction false} NextHistory(run: seq<Cluster>, steps: seq<Step>, gs: seq<History>) returns (h: History)
    requires Histories(run, steps, gs) && |gs| < |run| && Steppable(run, steps, |gs| - 1)
    ensures Histories(run, steps, gs + [h])
  {
    LastInv(run, steps, gs);
    h := PickNext(run, steps, |gs| - 1, |gs|, gs[|gs| - 1]);
    HistoriesGrow(run, steps, gs, h);
  }

  /** Histories of a run, by induction on its moments. */
  lemma {:induction false} AllHistories(run: seq<Cluster>, steps: seq<Step>, g: History) returns (gs: seq<History>)
    requires Histories(run, steps, [g]) && forall k :: 0 <= k < |steps| ==> Steppable(run, steps, k)
    ensures Histories(run, steps, gs) && |gs| == |run| && gs[0] == g
  {
    gs := [g];
    while |gs| < |run|
      invariant Histories(run, steps, gs) && gs[0] == g
      decreases |run| - |gs|
    {
      assert Steppable(run, steps, |gs| - 1);
      var h := NextHistory(run, steps, gs);
      gs := gs + [h];
    }
  }

  /** Every run has its histories. */
  lemma {:induction false} RunHistories(n: ClusterSize, run: seq<Cluster>, steps: seq<Step>) returns (gs: seq<History>)
    requires SafeRun(n, run, steps)
    ensures Histories(run, steps, gs) && |gs| == |run| && gs[0] == InitialHistory(n)
  {
    FirstMoment(n, run, steps);
    forall k | 0 <= k < |steps| ensures Steppable(run, steps, k) {
      EveryStepSteppable(n, run, steps, k);
    }
    gs := AllHistories(run, steps, InitialHistory(n));
  }

  // Theorems

  /** Replica i at moment t of a run. */
  ghost predicate InRun(run: seq<Cluster>, t: nat, i: nat) {
    t < |run| && i < |run[t].replicas|
  }

  /** What a replica's log, commit and execution numbers are in terms of a history. */
  ghost predicate Placed(s: State, g: History)
    requires Shaped(g)
  {
    var v := LogView(s);
    && v < |g.views| && HoldsPrefix(s.log, s.op, g.views[v].log) && g.views[v].start <= s.op
    && s.lastExecuted <= s.op && Committed(g, s.lastExecuted, v) && Committed(g, s.commit, v)
  }

  lemma {:induction false} PlacedNow(c: Cluster, g: History, i: nat)
    requires Inv(c, g) && i < c.n
    ensures Placed(c.replicas[i], g)
  {
    assert ReplicaOk(g, c.replicas[i], i);
    assert ReachOk(g, i, LogView(c.replicas[i]));
  }

  lemma {:induction false} PlacedLater(s: State, g: History, h: History)
    requires Shaped(g) && Placed(s, g) && Extends(g, h)
    ensures Placed(s, h)
  {
    CommittedGrows(g, h, s.lastExecuted, LogView(s));
    CommittedGrows(g, h, s.commit, LogView(s));
  }

  /** A replica's state at one moment, in terms of the history at any later moment. */
  lemma {:induction false} PlacedInRun(run: seq<Cluster>, steps: seq<Step>, gs: seq<History>, t: nat, i: nat, u: nat)
    requires Histories(run, steps, gs) && InRun(run, t, i) && t <= u < |gs|
    ensures HistoryOk(gs[u]) && Placed(run[t].replicas[i], gs[u])
  {
    assert MomentOk(run, t, gs[t]) && MomentOk(run, u, gs[u]);
    PlacedNow(run[t], gs[t], i);
    PlacedLater(run[t].replicas[i], gs[t], gs[u]);
  }

  /** Agreement: whatever two replicas have executed at two moments of a run, they
      have executed the same operations, over any number of view changes. */
  lemma {:induction false} Agreement(n: ClusterSize, run: seq<Cluster>, steps: seq<Step>, t: nat, a: nat, u: nat, b: nat, k: nat)
    requires SafeRun(n, run, steps) && InRun(run, t, a) && InRun(run, u, b)
    requires 1 <= k <= run[t].replicas[a].lastExecuted && k <= run[u].replicas[b].lastExecuted
    ensures k in run[t].replicas[a].log && k in run[u].replicas[b].log
    ensures run[t].replicas[a].log[k].Bare() == run[u].replicas[b].log[k].Bare()
  {
    var gs := RunHistories(n, run, steps);
    var last := |run| - 1;
    var g := gs[last];
    PlacedInRun(run, steps, gs, t, a, last);
    PlacedInRun(run, steps, gs, u, b, last);
    var x, y := run[t].replicas[a], run[u].replicas[b];
    if LogView(x) <= LogView(y) {
      SameCommitted(g, x.lastExecuted, LogView(x), LogView(y), k);
    } else {
      SameCommitted(g, y.lastExecuted, LogView(y), LogView(x), k);
    }
  }

  lemma {:induction false} SameCommitted(g: History, c: nat, v: nat, w: nat, k: nat)
    requires HistoryOk(g) && Committed(g, c, v) && v <= w < |g.views| && 1 <= k <= c
    ensures k <= |g.views[v].log| && k <= |g.views[w].log| && g.views[v].log[k - 1] == g.views[w].log[k - 1]
  {
    CommittedAgree(g, c, v, w);
    assert g.views[w].log[..c][k - 1] == g.views[v].log[..c][k - 1];
  }

  /** Executed prefixes are stable: a step that does not complete a recovery neither
      lowers what a replica has executed nor changes any of it, even when it replaces
      the whole log or lowers the commit number. */
  lemma {:induction false} ExecutedPrefixStable(n: ClusterSize, run: seq<Cluster>, steps: seq<Step>, t: nat, i: nat, k: nat)
    requires SafeRun(n, run, steps) && t < |steps| && i < |run[t].replicas|
    requires !(steps[t].Deliver? && steps[t].p.dst == i && steps[t].p.msg.command == RecoveryResponse
               && CompletesRecovery(run[t].replicas[i], steps[t].p.msg))
    requires 1 <= k <= run[t].replicas[i].lastExecuted
    ensures i < |run[t + 1].replicas| && k <= run[t + 1].replicas[i].lastExecuted
    ensures k in run[t].replicas[i].log && k in run[t + 1].replicas[i].log
    ensures run[t].replicas[i].log[k].Bare() == run[t + 1].replicas[i].log[k].Bare()
  {
    ExecutedGrows(run[t], steps[t], i);
    Agreement(n, run, steps, t, i, t + 1, i, k);
  }

  /** One log per view: at any two moments, two replicas whose logs are of the same
      view have the same operation at every number that both have. */
  lemma {:induction false} OneLogPerView(n: ClusterSize, run: seq<Cluster>, steps: seq<Step>, t: nat, a: nat, u: nat, b: nat, k: nat)
    requires SafeRun(n, run, steps) && InRun(run, t, a) && InRun(run, u, b)
    requires LogView(run[t].replicas[a]) == LogView(run[u].replicas[b])
    requires 1 <= k <= run[t].replicas[a].op && k <= run[u].replicas[b].op
    ensures k in run[t].replicas[a].log && k in run[u].replicas[b].log
    ensures run[t].replicas[a].log[k].Bare() == run[u].replicas[b].log[k].Bare()
  {
    var gs := RunHistories(n, run, steps);
    PlacedInRun(run, steps, gs, t, a, |run| - 1);
    PlacedInRun(run, steps, gs, u, b, |run| - 1);
  }

  /** The view's primary has all of the view's log: no replica is ahead of it. */
  lemma {:induction false} PrimaryIsLongest(n: ClusterSize, run: seq<Cluster>, steps: seq<Step>, t: nat, a: nat, b: nat)
    requires SafeRun(n, run, steps) && InRun(run, t, a) && InRun(run, t, b)
    requires LogView(run[t].replicas[a]) == LogView(run[t].replicas[b])
    requires a == run[t].replicas[a].PrimaryIdForView(LogView(run[t].replicas[a]))
    ensures run[t].replicas[b].op <= run[t].replicas[a].op
  {
    var gs := RunHistories(n, run, steps);
    assert MomentOk(run, t, gs[t]);
    assert ReplicaOk(gs[t], run[t].replicas[a], a) && ReplicaOk(gs[t], run[t].replicas[b], b);
  }

  /** Every log of a view extends the log that the view's StartView announced. */
  lemma {:induction false} ExtendsStartView(n: ClusterSize, run: seq<Cluster>, steps: seq<Step>, t: nat, p: Packet, u: nat, b: nat, k: nat)
    requires SafeRun(n, run, steps) && t < |run| && p in run[t].net && p.msg.command == StartView
    requires InRun(run, u, b) && LogView(run[u].replicas[b]) == p.msg.view && 1 <= k <= p.msg.op
    ensures k <= run[u].replicas[b].op && k in run[u].replicas[b].log && k in p.msg.body.log
    ensures run[u].replicas[b].log[k].Bare() == p.msg.body.log[k].Bare()
  {
    var gs := RunHistories(n, run, steps);
    StartViewExtended(run, steps, gs, t, p, u, b, k);
  }

  lemma {:induction false} StartViewExtended(run: seq<Cluster>, steps: seq<Step>, gs: seq<History>, t: nat, p: Packet, u: nat, b: nat, k: nat)
    requires Histories(run, steps, gs) && |gs| == |run| && t < |run| && p in run[t].net && p.msg.command == StartView
    requires InRun(run, u, b) && LogView(run[u].replicas[b]) == p.msg.view && 1 <= k <= p.msg.op
    ensures k <= run[u].replicas[b].op && k in run[u].replicas[b].log && k in p.msg.body.log
    ensures run[u].replicas[b].log[k].Bare() == p.msg.body.log[k].Bare()
  {
    var last := |run| - 1;
    assert MomentOk(run, t, gs[t]) && Extends(gs[t], gs[last]);
    assert PacketOk(gs[t], p);
    PlacedInRun(run, steps, gs, u, b, last);
  }

  /** f+1 replicas have, at some moments up to t, held the first k operations of view v. */
  ghost predicate Acknowledged(n: ClusterSize, run: seq<Cluster>, t: nat, v: nat, k: nat, q: set<nat>)
    requires t < |run|
  {
    && Within(q, n) && |q| >= F(n) + 1
    && forall j :: j in q ==> exists t' :: 0 <= t' <= t && HeldAtLeast(run, t', j, v, k)
  }

  ghost predicate HeldAtLeast(run: seq<Cluster>, t: nat, j: nat, v: nat, k: nat)
    requires t < |run|
  {
    j < |run[t].replicas| && LogView(run[t].replicas[j]) == v && k <= run[t].replicas[j].op
  }

  lemma {:induction false} HeldIsReached(run: seq<Cluster>, steps: seq<Step>, gs: seq<History>, t: nat, j: nat, v: nat, k: nat, u: nat)
    requires Histories(run, steps, gs) && t <= u < |gs| && HeldAtLeast(run, t, j, v, k)
    ensures Shaped(gs[u]) && Acked(gs[u], j, v, k)
  {
    assert MomentOk(run, t, gs[t]) && Extends(gs[t], gs[u]);
    assert ReplicaOk(gs[t], run[t].replicas[j], j);
  }

  lemma {:induction false} AcknowledgedIsChosen(n: ClusterSize, run: seq<Cluster>, steps: seq<Step>, gs: seq<History>,
                             t: nat, v: nat, k: nat, q: set<nat>)
    requires Histories(run, steps, gs) && t < |gs| == |run| && run[0].n == n
    requires Acknowledged(n, run, t, v, k, q)
    ensures Shaped(gs[t]) && Chosen(gs[t], v, k)
  {
    assert MomentOk(run, t, gs[t]) && MomentOk(run, 0, gs[0]) && Extends(gs[0], gs[t]);
    var g := gs[t];
    forall j | j in q ensures j in Holders(g, v, k) {
      var t' :| 0 <= t' <= t && HeldAtLeast(run, t', j, v, k);
      HeldIsReached(run, steps, gs, t', j, v, k, t);
    }
    SubsetSize(q, Holders(g, v, k));
    var j :| j in q;
    assert j in Holders(g, v, k) && ReachOk(g, j, v);
  }

  lemma {:induction false} ChosenInLater(g: History, x: State, y: State, k: nat)
    requires HistoryOk(g) && Placed(x, g) && Placed(y, g) && 1 <= k <= x.op
    requires Chosen(g, LogView(x), k) && LogView(x) < LogView(y)
    ensures k <= y.op && k in y.log && k in x.log && y.log[k].Bare() == x.log[k].Bare()
  {
    var v, w := LogView(x), LogView(y);
    ChosenPersists(g, v, k, w);
    assert g.views[w].log[..k][k - 1] == g.views[v].log[..k][k - 1];
  }

  /** Leader completeness: an operation that f+1 replicas have held in one view, at
      whatever moments, is in every log of every later view, the same operation. */
  lemma {:induction false} LeaderCompleteness(n: ClusterSize, run: seq<Cluster>, steps: seq<Step>,
                           v: nat, k: nat, q: set<nat>, u: nat, b: nat, t: nat, j: nat)
    requires SafeRun(n, run, steps) && k >= 1 && Acknowledged(n, run, |run| - 1, v, k, q)
    requires InRun(run, u, b) && v < LogView(run[u].replicas[b])
    requires t < |run| && HeldAtLeast(run, t, j, v, k)
    ensures k <= run[u].replicas[b].op && k in run[u].replicas[b].log && k in run[t].replicas[j].log
    ensures run[u].replicas[b].log[k].Bare() == run[t].replicas[j].log[k].Bare()
  {
    var gs := RunHistories(n, run, steps);
    var last := |run| - 1;
    AcknowledgedIsChosen(n, run, steps, gs, last, v, k, q);
    PlacedInRun(run, steps, gs, u, b, last);
    PlacedInRun(run, steps, gs, t, j, last);
    ChosenInLater(gs[last], run[t].replicas[j], run[u].replicas[b], k);
  }

  /** What the history calls committed was really acknowledged. */
  lemma {:induction false} CommittedWasAcknowledged(run: seq<Cluster>, t: nat, g: History, k: nat, w: nat) returns (v: nat, q: set<nat>)
    requires t < |run| && MomentOk(run, t, g) && Committed(g, k, w) && k >= 1
    ensures v <= w && Acknowledged(g.n, run, t, v, k, q)
  {
    v :| 0 <= v <= w && Chosen(g, v, k);
    q := Holders(g, v, k);
    forall j | j in q ensures exists t' :: 0 <= t' <= t && HeldAtLeast(run, t', j, v, k) {
      var t' :| 0 <= t' <= t && HeldAt(run, t', j, v, g.reach[j][v]);
      assert HeldAtLeast(run, t', j, v, k);
    }
  }

  /** Commit soundness: every operation at or below a replica's commit number, or below
      what it has executed, was held in one view, no later than the replica's own, by
      f+1 replicas. */
  lemma {:induction false} CommitSoundness(n: ClusterSize, run: seq<Cluster>, steps: seq<Step>, t: nat, i: nat, k: nat)
    returns (v: nat, q: set<nat>)
    requires SafeRun(n, run, steps) && InRun(run, t, i)
    requires 1 <= k <= Max(run[t].replicas[i].commit, run[t].replicas[i].lastExecuted)
    ensures v <= LogView(run[t].replicas[i]) && Acknowledged(n, run, t, v, k, q)
  {
    var gs := RunHistories(n, run, steps);
    var s, g := run[t].replicas[i], gs[t];
    assert MomentOk(run, t, g) && MomentOk(run, 0, gs[0]) && Extends(gs[0], g);
    PlacedInRun(run, steps, gs, t, i, t);
    CommittedLess(g, Max(s.commit, s.lastExecuted), k, LogView(s), LogView(s));
    v, q := CommittedWasAcknowledged(run, t, g, k, LogView(s));
  }

  /** And it was that very operation they held: every replica that ever held operation k in
      the view where it was acknowledged held the one that replica i has under that number. */
  lemma {:induction false} SameEntryHeld(n: ClusterSize, run: seq<Cluster>, steps: seq<Step>, t: nat, i: nat, k: nat,
                                         v: nat, q: set<nat>, t': nat, j: nat)
    requires SafeRun(n, run, steps) && InRun(run, t, i) && 1 <= k <= run[t].replicas[i].op
    requires v <= LogView(run[t].replicas[i]) && Acknowledged(n, run, t, v, k, q)
    requires t' < |run| && HeldAtLeast(run, t', j, v, k)
    ensures k in run[t].replicas[i].log && k in run[t'].replicas[j].log
    ensures run[t].replicas[i].log[k].Bare() == run[t'].replicas[j].log[k].Bare()
  {
    if v == LogView(run[t].replicas[i]) {
      OneLogPerView(n, run, steps, t, i, t', j, k);
    } else {
      AcknowledgedLater(n, run, t, |run| - 1, v, k, q);
      LeaderCompleteness(n, run, steps, v, k, q, t, i, t', j);
    }
  }

  lemma {:induction false} AcknowledgedLater(n: ClusterSize, run: seq<Cluster>, t: nat, u: nat, v: nat, k: nat, q: set<nat>)
    requires t <= u < |run| && Acknowledged(n, run, t, v, k, q)
    ensures Acknowledged(n, run, u, v, k, q)
  {
    forall j | j in q ensures exists t' :: 0 <= t' <= u && HeldAtLeast(run, t', j, v, k) {
      var t' :| 0 <= t' <= t && HeldAtLeast(run, t', j, v, k);
    }
  }

  predicate CarriesCommit(m: Message) {
    m.command == Prepare || m.command == Commit || m.command == DoViewChange || m.command == StartView
    || m.command == RecoveryResponse
  }

  /** The same of every commit number in flight. */
  lemma {:induction false} MessageCommitSoundness(n: ClusterSize, run: seq<Cluster>, steps: seq<Step>, t: nat, p: Packet, k: nat)
    returns (v: nat, q: set<nat>)
    requires SafeRun(n, run, steps) && t < |run| && p in run[t].net && CarriesCommit(p.msg)
    requires 1 <= k <= p.msg.commit
    ensures v <= p.msg.view && Acknowledged(n, run, t, v, k, q)
  {
    var gs := RunHistories(n, run, steps);
    assert MomentOk(run, t, gs[t]) && MomentOk(run, 0, gs[0]) && Extends(gs[0], gs[t]);
    v, q := MessageCommitted(run, t, gs[t], p, k);
  }

  lemma {:induction false} MessageCommitted(run: seq<Cluster>, t: nat, g: History, p: Packet, k: nat) returns (v: nat, q: set<nat>)
    requires t < |run| && MomentOk(run, t, g) && p in run[t].net && CarriesCommit(p.msg) && 1 <= k <= p.msg.commit
    ensures v <= p.msg.view && Acknowledged(g.n, run, t, v, k, q)
  {
    var m := p.msg;
    assert PacketOk(g, p);
    var w := if m.command == DoViewChange then m.view - 1 else m.view;
    assert Committed(g, m.commit, w);
    CommittedLess(g, m.commit, k, w, w);
    v, q := CommittedWasAcknowledged(run, t, g, k, w);
  }

  /** Acknowledgements never outlive their view: one that a replica has on record for
      operation k was given by a replica that held k in the very view of this log. */
  lemma {:induction false} AcksAreOfThisView(n: ClusterSize, run: seq<Cluster>, steps: seq<Step>, t: nat, i: nat, k: nat, j: nat)
    requires SafeRun(n, run, steps) && InRun(run, t, i)
    requires k in run[t].replicas[i].log && j in run[t].replicas[i].log[k].acks
    ensures exists t' :: 0 <= t' <= t && HeldAtLeast(run, t', j, LogView(run[t].replicas[i]), k)
  {
    var gs := RunHistories(n, run, steps);
    var s, g := run[t].replicas[i], gs[t];
    assert MomentOk(run, t, g) && ReplicaOk(g, s, i);
    assert Acked(g, j, LogView(s), k);
    var t' :| 0 <= t' <= t && HeldAt(run, t', j, LogView(s), g.reach[j][LogView(s)]);
    assert HeldAtLeast(run, t', j, LogView(s), k);
  }

  // View-change quorums

  /** A replica issues at most one DoViewChange for a view, although it forgets the
      StartViewChange messages it has counted. */
  lemma {:induction false} DoViewChangeIssuedOnce(n: ClusterSize, run: seq<Cluster>, steps: seq<Step>, t: nat, u: nat)
    requires SafeRun(n, run, steps) && t < u < |steps|
    requires IssuesDoViewChange(run[t], steps[t]) && IssuesDoViewChange(run[u], steps[u])
    ensures !(steps[t].p.dst == steps[u].p.dst && steps[t].p.msg.view == steps[u].p.msg.view)
  {
    var gs := RunHistories(n, run, steps);
    assert StepOk(run[t], steps[t], run[t + 1], gs[t], gs[t + 1]);
    assert StepOk(run[u], steps[u], run[u + 1], gs[u], gs[u + 1]);
    assert Extends(gs[t + 1], gs[u]);
  }

  /** The DoViewChange messages that a replica has collected are all for the view it
      waits to lead and come from different replicas, though nothing checks that. */
  lemma {:induction false} CollectedAreDistinct(n: ClusterSize, run: seq<Cluster>, steps: seq<Step>, t: nat, i: nat, a: nat, b: nat)
    requires SafeRun(n, run, steps) && InRun(run, t, i) && run[t].replicas[i].status == ViewChange
    requires a < b < |run[t].replicas[i].doViewChanges|
    ensures var s := run[t].replicas[i];
      && s.doViewChanges[a].view == s.doViewChanges[b].view == s.view
      && s.doViewChanges[a].replica != s.doViewChanges[b].replica
      && s.doViewChanges[a].replica < n && s.doViewChanges[b].replica < n
  {
    var gs := RunHistories(n, run, steps);
    assert MomentOk(run, t, gs[t]) && MomentOk(run, 0, gs[0]) && Extends(gs[0], gs[t]);
    assert ReplicaOk(gs[t], run[t].replicas[i], i);
  }
}
