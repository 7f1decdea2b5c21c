/** The history of a cluster that its safety argument needs, kept beside the
    cluster: what every view's primary built, and how far each replica followed. */
module History {
  import opened Types
  import opened Quorums

  /** One activated view: the length of the log it started from, the log its
      primary has built so far, and the replicas whose logs it was chosen from. */
  datatype ViewRecord = ViewRecord(start: nat, log: seq<LogEntry>, quorum: set<nat>)

  /** `reach[j][v]` is how much of view v's log replica j came to hold while v was
      its view, `cur[j]` its present view, `sent[j]` the views for which it has
      issued a DoViewChange and `used[j]` the quorum that made it issue the last. */
  datatype History = History(
    n: ClusterSize, views: seq<ViewRecord>, reach: seq<map<nat, nat>>, cur: seq<nat>,
    sent: seq<set<nat>>, used: seq<set<nat>>)

  function F(n: ClusterSize): nat {
    (n - 1) / 2
  }

  function Primary(n: ClusterSize, v: nat): nat {
    Remainder(v, n)
  }

  ghost predicate Shaped(g: History) {
    && |g.reach| == |g.cur| == |g.sent| == |g.used| == g.n
    && g.n % 2 == 1
    && |g.views| > 0
  }

  /** View v took over the log of view v-1 from a quorum that had left v-1. */
  ghost predicate ChainOk(g: History, v: nat)
    requires Shaped(g) && 0 < v < |g.views|
  {
    var r := g.views[v];
    && g.views[v - 1].start <= r.start <= |g.views[v - 1].log| && r.start <= |r.log|
    && r.log[..r.start] == g.views[v - 1].log[..r.start]
    && Within(r.quorum, g.n) && |r.quorum| >= F(g.n) + 1
    && forall j :: j in r.quorum ==> QuorumMemberOk(g, v, j)
  }

  ghost predicate QuorumMemberOk(g: History, v: nat, j: nat)
    requires Shaped(g) && 0 < v < |g.views|
  {
    j < g.n && v - 1 in g.reach[j] && g.reach[j][v - 1] <= g.views[v].start && v <= g.cur[j]
  }

  ghost predicate ViewOk(g: History, v: nat)
    requires Shaped(g) && v < |g.views|
  {
    && g.views[v].start <= |g.views[v].log|
    && v in g.reach[Primary(g.n, v)]
    && (v > 0 ==> ChainOk(g, v))
  }

  ghost predicate ReachOk(g: History, j: nat, v: nat)
    requires Shaped(g) && j < g.n && v in g.reach[j]
  {
    v < |g.views| && v <= g.cur[j] && g.views[v].start <= g.reach[j][v] <= |g.views[v].log|
  }

  ghost predicate HistoryOk(g: History) {
    && Shaped(g)
    && (forall v :: 0 <= v < |g.views| ==> ViewOk(g, v))
    && (forall j, v :: 0 <= j < g.n && v in g.reach[j] ==> ReachOk(g, j, v))
  }

  // Commitment

  /** The replicas that have held the first k entries of view u's log in view u. */
  ghost function Holders(g: History, u: nat, k: nat): (r: set<nat>)
    requires Shaped(g)
    ensures Within(r, g.n)
  {
    set j: nat | j < g.n && u in g.reach[j] && k <= g.reach[j][u]
  }

  ghost predicate Chosen(g: History, u: nat, k: nat)
    requires Shaped(g)
  {
    u < |g.views| && |Holders(g, u, k)| >= F(g.n) + 1
  }

  /** The first k operations were chosen in one view no later than w. */
  ghost predicate Committed(g: History, k: nat, w: nat)
    requires Shaped(g)
  {
    k == 0 || exists u :: 0 <= u <= w && Chosen(g, u, k)
  }

  lemma {:induction false} CommittedLess(g: History, k: nat, k': nat, w: nat, w': nat)
    requires Shaped(g) && Committed(g, k, w) && k' <= k && w <= w'
    ensures Committed(g, k', w')
  {
    if k' > 0 {
      var u :| 0 <= u <= w && Chosen(g, u, k);
      SubsetSize(Holders(g, u, k), Holders(g, u, k'));
      assert Chosen(g, u, k');
    }
  }

  /** What is chosen in one view is in the log that the next view starts from. */
  lemma {:induction false} ChosenCarriesOver(g: History, u: nat, k: nat)
    requires HistoryOk(g) && Chosen(g, u, k) && u + 1 < |g.views|
    ensures k <= g.views[u + 1].start
  {
    assert ViewOk(g, u + 1);
    var holders, quorum := Holders(g, u, k), g.views[u + 1].quorum;
    assert |holders| + |quorum| > g.n;
    var j := QuorumsMeet(g.n, holders, quorum);
    assert QuorumMemberOk(g, u + 1, j);
  }

  lemma {:induction false} ChosenFits(g: History, u: nat, k: nat)
    requires HistoryOk(g) && Chosen(g, u, k)
    ensures k <= |g.views[u].log|
  {
    var j :| j in Holders(g, u, k);
    assert ReachOk(g, j, u);
  }

  /** Leader completeness: what is chosen in view u is a prefix of the log of every
      later view, and of the log that view started from. */
  lemma {:induction false} ChosenPersists(g: History, u: nat, k: nat, w: nat)
    requires HistoryOk(g) && Chosen(g, u, k) && u <= w < |g.views|
    ensures k <= |g.views[u].log| && k <= |g.views[w].log|
    ensures g.views[w].log[..k] == g.views[u].log[..k]
    ensures u < w ==> k <= g.views[w].start
  {
    ChosenFits(g, u, k);
    if u < w {
      ChosenPersists(g, u, k, w - 1);
      if u == w - 1 {
        ChosenCarriesOver(g, u, k);
      }
      assert ViewOk(g, w);
      var r := g.views[w];
      assert r.log[..k] == r.log[..r.start][..k];
      assert g.views[w - 1].log[..k] == g.views[w - 1].log[..r.start][..k];
    }
  }

  /** Committed prefixes are the same in every view from the committing one on. */
  lemma {:induction false} CommittedAgree(g: History, k: nat, w: nat, w': nat)
    requires HistoryOk(g) && Committed(g, k, w) && w <= w' < |g.views|
    ensures k <= |g.views[w].log| && k <= |g.views[w'].log|
    ensures g.views[w'].log[..k] == g.views[w].log[..k]
    ensures w < w' ==> k <= g.views[w'].start
  {
    if k > 0 {
      var u :| 0 <= u <= w && Chosen(g, u, k);
      ChosenPersists(g, u, k, w);
      ChosenPersists(g, u, k, w');
    }
  }

  // How a step of replica i extends the history

  ghost predicate Grows(g: History, h: History, i: nat) {
    && Shaped(g) && Shaped(h) && g.n == h.n && i < g.n
    && |g.views| <= |h.views|
    && (forall v :: 0 <= v < |g.views| ==> ViewGrows(g, h, i, v))
    && (forall j :: 0 <= j < g.n && j != i ==>
          h.reach[j] == g.reach[j] && h.cur[j] == g.cur[j] && h.sent[j] == g.sent[j] && h.used[j] == g.used[j])
    && g.cur[i] <= h.cur[i] && g.sent[i] <= h.sent[i]
    && (forall v :: v in g.reach[i] ==> v in h.reach[i] && g.reach[i][v] <= h.reach[i][v])
    && (forall v :: v in g.reach[i] && v < g.cur[i] ==> h.reach[i][v] == g.reach[i][v])
    && TopChange(g, h, i)
  }

  /** Only the latest view that replica j has a log in can have changed for it. */
  ghost predicate TopChange(g: History, h: History, j: nat)
    requires Shaped(g) && Shaped(h) && g.n == h.n && j < g.n
  {
    forall v, w :: v in h.reach[j] && w in h.reach[j] ==>
      (v in g.reach[j] && g.reach[j][v] == h.reach[j][v]) || w <= v
  }

  ghost predicate ViewGrows(g: History, h: History, i: nat, v: nat)
    requires Shaped(g) && Shaped(h) && g.n == h.n && v < |g.views| <= |h.views|
  {
    && h.views[v].start == g.views[v].start && h.views[v].quorum == g.views[v].quorum
    && g.views[v].log <= h.views[v].log
    && (Primary(g.n, v) != i ==> h.views[v].log == g.views[v].log)
  }

  lemma {:induction false} GrowsTrans(a: History, b: History, c: History, i: nat)
    requires Grows(a, b, i) && Grows(b, c, i) && a.reach == b.reach
    ensures Grows(a, c, i)
  {
    forall v | 0 <= v < |a.views| ensures ViewGrows(a, c, i, v) {
      assert ViewGrows(a, b, i, v) && ViewGrows(b, c, i, v);
    }
  }

  /** The part of growth that composes over steps of different replicas. */
  ghost predicate Extends(g: History, h: History) {
    && Shaped(g) && Shaped(h) && g.n == h.n
    && |g.views| <= |h.views|
    && (forall v :: 0 <= v < |g.views| ==>
          h.views[v].start == g.views[v].start && g.views[v].log <= h.views[v].log)
    && (forall j, v :: 0 <= j < g.n && v in g.reach[j] ==> v in h.reach[j] && g.reach[j][v] <= h.reach[j][v])
    && (forall j :: 0 <= j < g.n ==> g.sent[j] <= h.sent[j])
  }

  lemma {:induction false} GrowsExtends(g: History, h: History, i: nat)
    requires Grows(g, h, i)
    ensures Extends(g, h)
  {
    forall v | 0 <= v < |g.views|
      ensures h.views[v].start == g.views[v].start && g.views[v].log <= h.views[v].log
    {
      assert ViewGrows(g, h, i, v);
    }
  }

  lemma {:induction false} CommittedGrows(g: History, h: History, k: nat, w: nat)
    requires Extends(g, h) && Committed(g, k, w)
    ensures Committed(h, k, w)
  {
    if k > 0 {
      var u :| 0 <= u <= w && Chosen(g, u, k);
      SubsetSize(Holders(g, u, k), Holders(h, u, k));
      assert Chosen(h, u, k);
    }
  }

  /** No primary has appended anything: at most a new view has taken over a prefix. */
  ghost predicate SameLogs(g: History, h: History) {
    && 0 < |g.views| <= |h.views| <= |g.views| + 1
    && (forall v :: 0 <= v < |g.views| ==> h.views[v].log == g.views[v].log)
    && (|h.views| > |g.views| ==> h.views[|g.views|].log <= g.views[|g.views| - 1].log)
  }

  /** The primary of view v has appended e, and no log has changed otherwise. */
  ghost predicate LogAppended(g: History, h: History, v: nat, e: LogEntry) {
    && v < |g.views| == |h.views|
    && h.views[v].log == g.views[v].log + [e]
    && forall w :: 0 <= w < |g.views| && w != v ==> h.views[w].log == g.views[w].log
  }

  // The ways history grows

  ghost function Put(m: map<nat, nat>, v: nat, k: nat): map<nat, nat> {
    m[v := k]
  }

  /** Replica i now holds k entries in view v. */
  ghost function Reached(g: History, i: nat, v: nat, k: nat): History
    requires Shaped(g) && i < g.n
  {
    g.(reach := g.reach[i := Put(g.reach[i], v, k)], cur := g.cur[i := v])
  }

  lemma {:induction false} ReachedOk(g: History, i: nat, v: nat, k: nat)
    requires HistoryOk(g) && i < g.n && g.cur[i] <= v < |g.views|
    requires g.views[v].start <= k <= |g.views[v].log|
    requires v in g.reach[i] ==> g.reach[i][v] <= k
    ensures HistoryOk(Reached(g, i, v, k)) && Grows(g, Reached(g, i, v, k), i)
  {
    var h := Reached(g, i, v, k);
    forall w | w in g.reach[i] ensures w <= v {
      assert ReachOk(g, i, w);
    }
    forall w | 0 <= w < |g.views| ensures ViewOk(h, w) && ViewGrows(g, h, i, w) {
      assert ViewOk(g, w);
      if w > 0 {
        forall j | j in h.views[w].quorum ensures QuorumMemberOk(h, w, j) {
          assert QuorumMemberOk(g, w, j);
        }
      }
    }
    forall j, w | 0 <= j < h.n && w in h.reach[j] ensures ReachOk(h, j, w) {
      if j != i || w != v {
        assert ReachOk(g, j, w);
      }
    }
  }

  /** The primary i of view v appends e. */
  ghost function Appended(g: History, i: nat, v: nat, e: LogEntry): History
    requires Shaped(g) && i < g.n && v < |g.views|
  {
    var r := g.views[v];
    g.(views := g.views[v := r.(log := r.log + [e])], reach := g.reach[i := Put(g.reach[i], v, |r.log| + 1)])
  }

  lemma {:induction false} AppendedOk(g: History, i: nat, v: nat, e: LogEntry)
    requires HistoryOk(g) && i < g.n && v < |g.views| && Primary(g.n, v) == i && g.cur[i] == v
    requires v in g.reach[i]
    ensures HistoryOk(Appended(g, i, v, e)) && Grows(g, Appended(g, i, v, e), i)
  {
    var h := Appended(g, i, v, e);
    forall w | w in g.reach[i] ensures w <= v {
      assert ReachOk(g, i, w);
    }
    assert ReachOk(g, i, v);
    forall w | 0 <= w < |g.views| ensures ViewOk(h, w) && ViewGrows(g, h, i, w) {
      assert ViewOk(g, w);
      if w > 0 {
        var r := h.views[w];
        assert r.log[..r.start] == g.views[w].log[..r.start];
        assert h.views[w - 1].log[..r.start] == g.views[w - 1].log[..r.start];
        forall j | j in h.views[w].quorum ensures QuorumMemberOk(h, w, j) {
          assert QuorumMemberOk(g, w, j);
        }
      }
    }
    forall j, w | 0 <= j < h.n && w in h.reach[j] ensures ReachOk(h, j, w) {
      if j != i || w != v {
        assert ReachOk(g, j, w);
      }
    }
  }

  /** Replica i activates the next view with the first `start` entries of the last. */
  ghost function Activated(g: History, i: nat, start: nat, quorum: set<nat>): History
    requires Shaped(g) && i < g.n && start <= |g.views[|g.views| - 1].log|
  {
    var v := |g.views|;
    g.(views := g.views + [ViewRecord(start, g.views[v - 1].log[..start], quorum)],
       reach := g.reach[i := Put(g.reach[i], v, start)])
  }

  lemma {:induction false} ActivatedOk(g: History, i: nat, start: nat, quorum: set<nat>)
    requires HistoryOk(g) && i < g.n && Primary(g.n, |g.views|) == i && g.cur[i] == |g.views|
    requires g.views[|g.views| - 1].start <= start <= |g.views[|g.views| - 1].log|
    requires Within(quorum, g.n) && |quorum| >= F(g.n) + 1
    requires forall j :: j in quorum ==>
      |g.views| - 1 in g.reach[j] && g.reach[j][|g.views| - 1] <= start && |g.views| <= g.cur[j]
    ensures HistoryOk(Activated(g, i, start, quorum)) && Grows(g, Activated(g, i, start, quorum), i)
  {
    var h := Activated(g, i, start, quorum);
    forall w | w in g.reach[i] ensures w <= |g.views| {
      assert ReachOk(g, i, w);
    }
    forall w | 0 <= w < |h.views| ensures ViewOk(h, w) && (w < |g.views| ==> ViewGrows(g, h, i, w)) {
      if w < |g.views| {
        assert ViewOk(g, w);
      }
      if w > 0 {
        forall j | j in h.views[w].quorum ensures QuorumMemberOk(h, w, j) {
          assert w < |g.views| ==> QuorumMemberOk(g, w, j);
        }
      }
    }
    forall j, w | 0 <= j < h.n && w in h.reach[j] ensures ReachOk(h, j, w) {
      if w in g.reach[j] {
        assert ReachOk(g, j, w);
      }
    }
  }

  lemma {:induction false} ActivatedLogs(g: History, i: nat, start: nat, quorum: set<nat>)
    requires Shaped(g) && i < g.n && start <= |g.views[|g.views| - 1].log|
    ensures SameLogs(g, Activated(g, i, start, quorum))
    ensures Activated(g, i, start, quorum).views[|g.views|].start == start
  {
  }

  /** Replica i has moved its present view to v without a log of its own there. */
  ghost function Entered(g: History, i: nat, v: nat): History
    requires Shaped(g) && i < g.n
  {
    g.(cur := g.cur[i := v])
  }

  lemma {:induction false} EnteredOk(g: History, i: nat, v: nat)
    requires HistoryOk(g) && i < g.n && g.cur[i] <= v
    ensures HistoryOk(Entered(g, i, v)) && Grows(g, Entered(g, i, v), i)
  {
    var h := Entered(g, i, v);
    forall w | 0 <= w < |g.views| ensures ViewOk(h, w) && ViewGrows(g, h, i, w) {
      assert ViewOk(g, w);
      if w > 0 {
        forall j | j in h.views[w].quorum ensures QuorumMemberOk(h, w, j) {
          assert QuorumMemberOk(g, w, j);
        }
      }
    }
    forall j, w | 0 <= j < h.n && w in h.reach[j] ensures ReachOk(h, j, w) {
      assert ReachOk(g, j, w);
    }
  }

  /** Replica i issues its DoViewChange for view v, moved by `quorum`. */
  ghost function Issued(g: History, i: nat, v: nat, quorum: set<nat>): History
    requires Shaped(g) && i < g.n
  {
    g.(sent := g.sent[i := g.sent[i] + {v}], used := g.used[i := quorum])
  }

  lemma {:induction false} IssuedOk(g: History, i: nat, v: nat, quorum: set<nat>)
    requires HistoryOk(g) && i < g.n
    ensures HistoryOk(Issued(g, i, v, quorum)) && Grows(g, Issued(g, i, v, quorum), i)
  {
    var h := Issued(g, i, v, quorum);
    forall w | 0 <= w < |g.views| ensures ViewOk(h, w) && ViewGrows(g, h, i, w) {
      assert ViewOk(g, w);
      if w > 0 {
        forall j | j in h.views[w].quorum ensures QuorumMemberOk(h, w, j) {
          assert QuorumMemberOk(g, w, j);
        }
      }
    }
    forall j, w | 0 <= j < h.n && w in h.reach[j] ensures ReachOk(h, j, w) {
      assert ReachOk(g, j, w);
    }
  }
}
