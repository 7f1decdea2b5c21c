/** The records that replicas keep and exchange: log entries, client-table
    entries, messages and the state of one replica. */
module Types {

  type Byte = b: int | 0 <= b < 256

  /** A cluster has at least the replica itself. */
  type ClusterSize = n: int | 1 <= n witness 1

  /** A 128-bit identifier: two 64-bit halves. */
  datatype U128 = U128(high: nat, low: nat)

  const ZERO128 := U128(0, 0)

  // The operation codes that execution looks at; every other byte is a no-op.
  const OPERATION_SET: Byte := 1
  const OPERATION_GET: Byte := 3

  /** One slot of the replicated log. `acks` is the set of replicas that have
      acknowledged the slot to this replica; it never leaves the replica. */
  datatype LogEntry = LogEntry(
    view: nat, opType: Byte, client: U128, request: nat, payload: seq<Byte>, acks: set<nat>)
  {
    /** The part of an entry that replicas must agree on. */
    function Bare(): LogEntry {
      this.(acks := {})
    }
  }

  type Log = map<nat, LogEntry>

  /** What a log looks like after it has crossed the wire. */
  function EraseAcks(log: Log): (r: Log)
    ensures r.Keys == log.Keys
    ensures forall k :: k in r ==> r[k] == log[k].Bare()
  {
    map k | k in log :: log[k].Bare()
  }

  datatype ClientEntry = ClientEntry(request: nat, executed: bool, result: seq<Byte>)

  type ClientTable = map<U128, ClientEntry>

  const NEW_CLIENT := ClientEntry(0, false, [])

  function Lookup(table: ClientTable, client: U128): ClientEntry {
    if client in table then table[client] else NEW_CLIENT
  }

  type KvMap = map<seq<Byte>, seq<Byte>>

  datatype Status = Normal | ViewChange | Recovery

  datatype Command =
    | Reserved | Ping | Pong | Request | Prepare | PrepareOk | Reply | Commit
    | StartViewChange | DoViewChange | StartView | RecoveryRequest | RecoveryResponse

  /** The structured payload of a view-change or recovery message, as the
      receiver's deserializer leaves it: `ok` is the deserializer's verdict. */
  datatype Body = Body(ok: bool, nonce: U128, lastNormalView: nat, log: Log)

  const NO_BODY := Body(true, ZERO128, 0, map[])

  /** A message: the header fields the protocol reads, the raw payload of client
      operations and replies, and the structured payload of the other kinds. */
  datatype Message = Message(
    command: Command, view: nat, op: nat, commit: nat, replica: nat,
    client: U128, request: nat, opType: Byte, payload: seq<Byte>, body: Body)

  const BLANK := Message(Reserved, 0, 0, 0, 0, ZERO128, 0, 0, [], NO_BODY)

  /** Where a message came from, or where a reply goes. */
  datatype Endpoint = NoConnection | PeerEnd(id: nat) | ClientEnd(socket: nat)

  datatype Inbound = Inbound(connection: Endpoint, message: Message)

  datatype Output = Send(to: Endpoint, msg: Message) | Broadcast(msg: Message)

  /** The unsigned remainder, by repeated subtraction so that proofs stay linear. */
  function Remainder(a: nat, m: ClusterSize): (r: nat)
    ensures r < m
  {
    if a < m then a else Remainder(a - m, m)
  }

  lemma {:induction false} RemainderIsModulo(a: nat, m: ClusterSize)
    ensures Remainder(a, m) == a % m
  {
    if a >= m {
      RemainderIsModulo(a - m, m);
      ModuloShift(a - m, m);
    }
  }

  lemma {:induction false} ModuloShift(a: nat, m: ClusterSize)
    ensures (a + m) % m == a % m
  {
    var d := a / m + 1 - (a + m) / m;
    assert d * m == (a + m) % m - a % m;
    assert d >= 1 ==> d * m >= m;
    assert d <= -1 ==> d * m <= 0 - m;
  }

  lemma {:induction false} Regroup<T>(a: seq<T>, b: seq<T>, c: seq<T>)
    ensures a + b + c == a + (b + c)
  {
  }

  /** The state of one replica. */
  datatype State = State(
    id: nat, n: ClusterSize,
    status: Status, view: nat, op: nat, commit: nat, lastExecuted: nat,
    log: Log, clients: ClientTable, kv: KvMap,
    nonce: U128, responses: seq<Message>,
    lastNormalView: nat, startViewChanges: set<nat>, doViewChanges: seq<Message>,
    connections: map<U128, Endpoint>)
  {
    /** The number of faults tolerated. */
    function F(): nat {
      (n - 1) / 2
    }

    function PrimaryId(): nat {
      Remainder(view, 2 * F() + 1)
    }

    predicate IsPrimary() {
      id == PrimaryId()
    }

    function PrimaryIdForView(v: nat): nat {
      Remainder(v, n)
    }
  }

  /** The effect of one handler: the new state and what it sent, in order. */
  datatype Effect = Effect(state: State, sent: seq<Output>)

  function InitialState(id: nat, n: ClusterSize): State {
    State(id, n, Normal, 0, 0, 0, 0, map[], map[], map[], ZERO128, [], 0, {}, [], map[])
  }

  /** The two ways the code computes a primary use different moduli: they agree
      in every view exactly when the cluster size is odd. */
  lemma {:induction false} PrimaryFunctionsAgree(n: ClusterSize)
    ensures (forall s: State :: s.n == n ==> s.PrimaryId() == s.PrimaryIdForView(s.view)) <==> n % 2 == 1
  {
    if n % 2 == 1 {
      forall s: State | s.n == n ensures s.PrimaryId() == s.PrimaryIdForView(s.view) {
        assert 2 * s.F() + 1 == n;
      }
    } else {
      var s := InitialState(0, n).(view := n - 1);
      assert 2 * s.F() + 1 == n - 1;
      assert Remainder(n - 1, n) == n - 1 && Remainder(n - 1, n - 1) == Remainder(0, n - 1) == 0;
      assert s.PrimaryId() != s.PrimaryIdForView(s.view);
    }
  }

  // Ordered iteration over a log

  function Smallest(keys: set<nat>): (k: nat)
    requires keys != {}
    ensures k in keys && forall j :: j in keys ==> k <= j
  {
    SmallestExists(keys);
    var k :| k in keys && forall j :: j in keys ==> k <= j;
    k
  }

  lemma {:induction false} SmallestExists(keys: set<nat>)
    requires keys != {}
    ensures exists k :: k in keys && forall j :: j in keys ==> k <= j
  {
    var x :| x in keys;
    SmallestBelow(keys, x);
  }

  lemma {:induction false} SmallestBelow(keys: set<nat>, x: nat)
    requires x in keys
    ensures exists k :: k in keys && forall j :: j in keys ==> k <= j
  {
    if !forall j :: j in keys ==> x <= j {
      var y :| y in keys && y < x;
      SmallestBelow(keys, y);
    }
  }

  /** r lists exactly the keys, in increasing order. */
  ghost predicate Lists(r: seq<nat>, keys: set<nat>) {
    && (forall k :: k in r <==> k in keys) && |r| == |keys|
    && (forall a, b :: 0 <= a < b < |r| ==> r[a] < r[b])
  }

  lemma {:induction false} ListsMore(keys: set<nat>, k: nat, r: seq<nat>)
    requires k in keys && (forall j :: j in keys ==> k <= j) && Lists(r, keys - {k})
    ensures Lists([k] + r, keys)
  {
    var s := [k] + r;
    forall j ensures j in s <==> j in keys {
      assert j in s <==> j == k || j in r;
    }
    forall a, b | 0 <= a < b < |s| ensures s[a] < s[b] {
      assert s[b] == r[b - 1] && r[b - 1] in r;
      assert a > 0 ==> s[a] == r[a - 1];
    }
  }

  /** The keys of a log in the order in which an ordered map visits them. */
  function Ascending(keys: set<nat>): (r: seq<nat>)
    ensures Lists(r, keys)
  {
    if keys == {} then [] else
    var k := Smallest(keys);
    var r := Ascending(keys - {k});
    ListsMore(keys, k, r);
    [k] + r
  }
}
