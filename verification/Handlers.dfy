/** What one replica does with each kind of message: the guard that admits the
    message and the state and output that handling it produces. */
module Handlers {
  import opened Types
  import opened Execution

  function Max(a: nat, b: nat): nat {
    if a < b then b else a
  }

  // Normal operation

  predicate CanProcessRequest(s: State) {
    s.status == Normal && s.IsPrimary()
  }

  function CachedReply(m: Message, result: seq<Byte>): Message {
    BLANK.(command := Reply, client := m.client, request := m.request, payload := result)
  }

  function PrepareMessage(s: State, m: Message): Message {
    BLANK.(command := Prepare, opType := m.opType, replica := s.id, client := m.client,
           request := m.request, view := s.view, op := s.op, commit := s.commit, payload := m.payload)
  }

  /** The log entry made from a request or a prepare. */
  function EntryFor(view: nat, m: Message, acks: set<nat>): LogEntry {
    LogEntry(view, m.opType, m.client, m.request, m.payload, acks)
  }

  /** The state after a request has been appended at the primary. */
  function AppendRequest(s: State, inb: Inbound): State {
    var m := inb.message;
    s.(op := s.op + 1,
       log := s.log[s.op + 1 := EntryFor(s.view, m, {s.id})],
       clients := s.clients[m.client := ClientEntry(m.request, false, [])],
       connections := s.connections[m.client := inb.connection])
  }

  function HandleRequest(s: State, inb: Inbound): Effect {
    var m := inb.message;
    var entry := Lookup(s.clients, m.client);
    var known := s.(clients := s.clients[m.client := entry]);
    if entry.request > m.request then
      Effect(known, [])
    else if entry.request == m.request then
      Effect(known, [Send(inb.connection, CachedReply(m, entry.result))])
    else
      var s' := AppendRequest(s, inb);
      Effect(s', [Broadcast(PrepareMessage(s', m))])
  }

  predicate CanProcessPrepare(s: State, m: Message) {
    s.status == Normal && !s.IsPrimary() && m.view == s.view && m.op == s.op + 1
  }

  function PrepareOkMessage(s: State, op: nat): Message {
    BLANK.(command := PrepareOk, view := s.view, op := op, replica := s.id)
  }

  /** The state after a backup has appended a prepared operation. */
  function AppendPrepare(s: State, m: Message): State {
    s.(op := s.op + 1,
       log := s.log[s.op + 1 := EntryFor(s.view, m, {})],
       clients := s.clients[m.client := ClientEntry(m.request, false, [])])
  }

  /** Learn a commit number from the primary, and execute what it allows. */
  function LearnCommit(s: State, commit: nat): Effect {
    if commit > s.commit then Execute(s.(commit := commit)) else Effect(s, [])
  }

  function HandlePrepare(s: State, inb: Inbound): Effect {
    var s' := AppendPrepare(s, inb.message);
    var learned := LearnCommit(s', inb.message.commit);
    Effect(learned.state, [Send(inb.connection, PrepareOkMessage(s', s'.op))] + learned.sent)
  }

  predicate CanProcessPrepareOk(s: State, m: Message) {
    s.status == Normal && s.IsPrimary() && m.view == s.view
  }

  predicate NextIsAcknowledged(s: State) {
    s.commit + 1 in s.log && |s.log[s.commit + 1].acks| >= s.F() + 1
  }

  function Above(s: State): set<nat> {
    set k | k in s.log && k > s.commit
  }

  /** Raise the commit number over every acknowledged operation. */
  function AdvanceCommit(s: State): (t: State)
    ensures t == s.(commit := t.commit) && s.commit <= t.commit
    ensures forall k :: s.commit < k <= t.commit ==> k in s.log && |s.log[k].acks| >= s.F() + 1
    ensures !NextIsAcknowledged(t)
    decreases Above(s)
  {
    if NextIsAcknowledged(s) then
      var next := s.(commit := s.commit + 1);
      assert Above(next) == Above(s) - {s.commit + 1};
      AdvanceCommit(next)
    else
      s
  }

  function AdvancePrimary(s: State): Effect {
    if s.IsPrimary() then Execute(AdvanceCommit(s)) else Effect(s, [])
  }

  function AddAck(log: Log, op: nat, replica: nat): Log
    requires op in log
  {
    log[op := log[op].(acks := log[op].acks + {replica})]
  }

  function HandlePrepareOk(s: State, m: Message): Effect {
    if m.op !in s.log then Effect(s, [])
    else AdvancePrimary(s.(log := AddAck(s.log, m.op, m.replica)))
  }

  predicate CanProcessCommit(s: State, m: Message) {
    s.status == Normal && !s.IsPrimary() && m.view == s.view
  }

  function HandleCommit(s: State, m: Message): Effect {
    LearnCommit(s, m.commit)
  }

  function CommitMessage(s: State): Message {
    BLANK.(command := Commit, view := s.view, commit := s.commit)
  }

  /** The heartbeat timer of a primary. */
  function SendCommit(s: State): Effect {
    Effect(s, if s.IsPrimary() && s.status == Normal then [Broadcast(CommitMessage(s))] else [])
  }

  // View changes

  function EnterNewView(s: State, view: nat): State {
    s.(lastNormalView := if s.status == Normal then s.view else s.lastNormalView,
       view := view, status := ViewChange, startViewChanges := {s.id}, doViewChanges := [])
  }

  function StartViewChangeMessage(s: State): Message {
    BLANK.(command := StartViewChange, view := s.view, replica := s.id)
  }

  function InitiateViewChange(s: State): Effect {
    var s' := EnterNewView(s, s.view + 1);
    Effect(s', [Broadcast(StartViewChangeMessage(s'))])
  }

  predicate CanProcessStartViewChange(s: State, m: Message) {
    m.view == s.view && s.status == ViewChange
  }

  function DoViewChangeMessage(s: State): Message {
    BLANK.(command := DoViewChange, view := s.view, op := s.op, commit := s.commit, replica := s.id,
           body := Body(true, ZERO128, s.lastNormalView, EraseAcks(s.log)))
  }

  function HandleStartViewChange(s: State, m: Message): Effect {
    var received := s.startViewChanges + {m.replica};
    if |received| >= s.F() + 1 then
      var s' := s.(startViewChanges := {});
      var dvc := DoViewChangeMessage(s');
      if s.PrimaryIdForView(s.view) == s.id then HandleDoViewChange(s', dvc)
      else Effect(s', [Send(PeerEnd(s.PrimaryIdForView(s.view)), dvc)])
    else
      Effect(s.(startViewChanges := received), [])
  }

  predicate CanProcessDoViewChange(s: State, m: Message) {
    m.view == s.view && s.status == ViewChange && s.PrimaryIdForView(s.view) == s.id
  }

  /** Whether `m` displaces `best`: a later normal view, or as late and longer. */
  predicate Better(m: Message, best: Message) {
    m.body.ok &&
    (m.body.lastNormalView > best.body.lastNormalView ||
     (m.body.lastNormalView == best.body.lastNormalView && m.op > best.op))
  }

  /** The message whose log the new primary adopts. */
  function BestOf(ms: seq<Message>): Message
    requires ms != []
  {
    var k := |ms| - 1;
    if k == 0 then ms[0] else
    var best := BestOf(ms[..k]);
    if Better(ms[k], best) then ms[k] else best
  }

  /** The commit number the new primary starts from. */
  function MaxCommit(own: nat, ms: seq<Message>): nat
    requires ms != []
  {
    var k := |ms| - 1;
    if k == 0 then Max(own, ms[0].commit) else
    var best := MaxCommit(own, ms[..k]);
    if ms[k].body.ok then Max(best, ms[k].commit) else best
  }

  function StartViewMessage(s: State): Message {
    BLANK.(command := StartView, view := s.view, op := s.op, commit := s.commit, replica := s.id,
           body := Body(true, ZERO128, 0, EraseAcks(s.log)))
  }

  /** The state of a new primary that has adopted the best of `ms`. */
  function BecomePrimary(s: State, ms: seq<Message>): State
    requires ms != []
  {
    var best := BestOf(ms);
    s.(doViewChanges := [], log := best.body.log, op := best.op,
       commit := MaxCommit(s.commit, ms), status := Normal)
  }

  function HandleDoViewChange(s: State, m: Message): Effect {
    var received := s.doViewChanges + [m];
    if |received| >= s.F() + 1 then
      var s' := BecomePrimary(s, received);
      var executed := Execute(s');
      Effect(executed.state, [Broadcast(StartViewMessage(s'))] + executed.sent)
    else
      Effect(s.(doViewChanges := received), [])
  }

  predicate CanProcessStartView(s: State, m: Message) {
    m.view == s.view && s.status == ViewChange && m.replica == s.PrimaryIdForView(s.view)
  }

  /** Raise a client's request number to that of a logged operation. */
  function NoteRequest(table: ClientTable, e: LogEntry): ClientTable {
    var c := Lookup(table, e.client);
    table[e.client := if e.request > c.request then c.(request := e.request, executed := false) else c]
  }

  /** Bring the client table up to an adopted log, visiting it in order. */
  function NoteLog(table: ClientTable, log: Log, keys: seq<nat>): ClientTable
    requires forall k :: k in keys ==> k in log
  {
    if keys == [] then table
    else NoteRequest(NoteLog(table, log, keys[..|keys| - 1]), log[keys[|keys| - 1]])
  }

  function AdoptStartView(s: State, m: Message): State {
    s.(view := m.view, op := m.op, commit := m.commit, log := m.body.log, status := Normal,
       clients := NoteLog(s.clients, m.body.log, Ascending(m.body.log.Keys)))
  }

  /** Acknowledgements to the new primary for the operations lo+1..hi. */
  function RetroactiveOks(s: State, lo: nat, hi: nat): (r: seq<Output>)
    ensures forall o :: o in r ==> exists k :: lo < k <= hi && k in s.log
                                              && o == Send(PeerEnd(s.PrimaryId()), PrepareOkMessage(s, k))
    decreases hi - lo
  {
    if lo >= hi then [] else
    RetroactiveOks(s, lo, hi - 1) +
    if hi in s.log then [Send(PeerEnd(s.PrimaryId()), PrepareOkMessage(s, hi))] else []
  }

  function OkFor(s: State, k: nat): Output {
    Send(PeerEnd(s.PrimaryId()), PrepareOkMessage(s, k))
  }

  /** Exactly the logged operations among lo+1..hi are acknowledged. */
  lemma {:induction false} OksComplete(s: State, lo: nat, hi: nat, k: nat)
    ensures lo < k <= hi && k in s.log <==> OkFor(s, k) in RetroactiveOks(s, lo, hi)
    decreases hi
  {
    if lo < hi {
      OksComplete(s, lo, hi - 1, k);
      assert OkFor(s, k) == OkFor(s, hi) ==> OkFor(s, k).msg.op == OkFor(s, hi).msg.op;
    }
  }

  /** And they are acknowledged once each, in their order. */
  lemma {:induction false} OksInOrder(s: State, lo: nat, hi: nat)
    ensures var r := RetroactiveOks(s, lo, hi);
      && (forall a :: 0 <= a < |r| ==> lo < r[a].msg.op <= hi && r[a] == OkFor(s, r[a].msg.op))
      && (forall a, b :: 0 <= a < b < |r| ==> r[a].msg.op < r[b].msg.op)
      && (forall k: nat :: lo < k <= hi && k in s.log <==> OkFor(s, k) in r)
    decreases hi
  {
    if lo < hi {
      OksInOrder(s, lo, hi - 1);
    }
    forall k: nat ensures lo < k <= hi && k in s.log <==> OkFor(s, k) in RetroactiveOks(s, lo, hi) {
      OksComplete(s, lo, hi, k);
    }
  }

  function HandleStartView(s: State, m: Message): Effect {
    if !m.body.ok then Effect(s, []) else
    var executed := Execute(AdoptStartView(s, m));
    Effect(executed.state, executed.sent + RetroactiveOks(executed.state, m.commit, m.op))
  }

  // Recovery

  function RecoveryRequestMessage(s: State): Message {
    BLANK.(command := RecoveryRequest, replica := s.id, body := Body(true, s.nonce, 0, map[]))
  }

  function InitiateRecovery(s: State, nonce: U128): Effect {
    if s.status == Recovery then Effect(s, []) else
    var s' := s.(status := Recovery, nonce := nonce, responses := []);
    Effect(s', [Broadcast(RecoveryRequestMessage(s'))])
  }

  predicate CanProcessRecoveryRequest(s: State) {
    s.status == Normal
  }

  function RecoveryResponseMessage(s: State, nonce: U128): Message {
    BLANK.(command := RecoveryResponse, replica := s.id, view := s.view, op := s.op, commit := s.commit,
           body := Body(true, nonce, 0, EraseAcks(s.log)))
  }

  function HandleRecoveryRequest(s: State, m: Message): Effect {
    Effect(s, if m.body.ok then [Send(PeerEnd(m.replica), RecoveryResponseMessage(s, m.body.nonce))] else [])
  }

  predicate CanProcessRecoveryResponse(s: State) {
    s.status == Recovery
  }

  predicate MoreRecent(m: Message, best: Message) {
    m.view > best.view || (m.view == best.view && m.op > best.op)
  }

  /** The response whose state a recovering replica adopts. */
  function MostRecent(ms: seq<Message>): Message
    requires ms != []
  {
    var k := |ms| - 1;
    if k == 0 then ms[0] else
    var best := MostRecent(ms[..k]);
    if MoreRecent(ms[k], best) then ms[k] else best
  }

  function AdoptResponse(s: State, best: Message): State {
    s.(view := best.view, op := best.op, commit := best.commit, log := best.body.log, lastExecuted := 0,
       status := Normal, clients := NoteLog(map[], best.body.log, Ascending(best.body.log.Keys)))
  }

  /** Whether a response completes the recovery of `s`. */
  predicate CompletesRecovery(s: State, m: Message) {
    m.body.ok && m.body.nonce == s.nonce && |s.responses| + 1 >= s.F() + 1
  }

  function HandleRecoveryResponse(s: State, m: Message): Effect {
    if !m.body.ok || m.body.nonce != s.nonce then Effect(s, []) else
    var received := s.responses + [m];
    if |received| >= s.F() + 1 then
      var executed := Execute(AdoptResponse(s, MostRecent(received)));
      Effect(executed.state.(nonce := ZERO128, responses := []), executed.sent)
    else
      Effect(s.(responses := received), [])
  }

  // Dispatch

  function PongMessage(s: State, m: Message): Message {
    BLANK.(command := Pong, view := s.view, replica := s.id, client := m.client, request := m.request)
  }

  predicate CanProcess(s: State, m: Message) {
    match m.command
    case Ping | Pong => true
    case Request => CanProcessRequest(s)
    case Prepare => CanProcessPrepare(s, m)
    case PrepareOk => CanProcessPrepareOk(s, m)
    case Commit => CanProcessCommit(s, m)
    case StartViewChange => CanProcessStartViewChange(s, m)
    case DoViewChange => CanProcessDoViewChange(s, m)
    case StartView => CanProcessStartView(s, m)
    case RecoveryRequest => CanProcessRecoveryRequest(s)
    case RecoveryResponse => CanProcessRecoveryResponse(s)
    case _ => false
  }

  /** Messages between replicas that come from a view this replica has left. */
  predicate Stale(s: State, m: Message) {
    m.command != Request && m.command != RecoveryRequest && m.view < s.view
  }

  function Dispatch(s: State, inb: Inbound): Effect {
    var m := inb.message;
    match m.command
    case Ping => Effect(s, [Send(inb.connection, PongMessage(s, m))])
    case Request => HandleRequest(s, inb)
    case Prepare => HandlePrepare(s, inb)
    case PrepareOk => HandlePrepareOk(s, m)
    case Commit => HandleCommit(s, m)
    case StartViewChange => HandleStartViewChange(s, m)
    case DoViewChange => HandleDoViewChange(s, m)
    case StartView => HandleStartView(s, m)
    case RecoveryRequest => HandleRecoveryRequest(s, m)
    case RecoveryResponse => HandleRecoveryResponse(s, m)
    case _ => Effect(s, [])
  }

  datatype Action = ProcessNormally | StartChange | StartRecovery

  /** What a replica in the normal state does about a message it cannot process. */
  function StuckAction(s: State, m: Message): Action {
    if m.view > s.view then
      if m.view == s.view + 1 && (m.command == StartViewChange || m.command == DoViewChange)
      then StartChange else StartRecovery
    else if !s.IsPrimary() && m.command == Prepare && m.view == s.view && m.op > s.op + 1
    then StartRecovery
    else ProcessNormally
  }
}
