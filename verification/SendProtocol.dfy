/**
 The sender loop of one P rank as a state machine. Each step is one stretch of code between two awaits. Handlers
 serve one D rank each; a TE write is started by one step and completed by a later one, in any order.
 `SendBlockMeta` objects are numbered in order of creation, so that the number is the object's identity.
 */
module SendProtocol {
  import opened Common

  datatype SendMeta = SendMeta(requestId: string, transferId: string, blocks: seq<seq<int>>, ready: bool,
                               deadline: Option<int>, needSend: nat, sent: nat, sending: nat)

  datatype Status = FINISH | CONTINUE | ERROR

  datatype Response = Response(status: Status, ok: seq<string>, err: seq<string>)

  /** A D request and the source metadata it waits for or reads. */
  datatype Entry = Entry(request: string, meta: nat)

  /**
   Where a handler stands: waiting for ready sources, inside a TE write that reads the sources of `ready`, or done.
   `failed` are the requests of `ready` that could not be planned; `last` tells that nobody is left waiting.
   */
  datatype Phase =
    | Waiting
    | Writing(ready: seq<Entry>, failed: set<string>, expired: seq<string>, last: bool)
    | Closed

  /** `pulled` are the requests of the pull message; `waiting` those not yet taken up; `out` the responses sent. */
  datatype Handler = Handler(rank: int, pulled: set<string>, waiting: map<string, nat>, phase: Phase,
                             out: seq<Response>)

  /** A D request with its transfer id, as listed in the pull message. */
  datatype Pull = Pull(request: string, transferId: string)

  /** The one pull of a transfer id by a D rank. */
  datatype Turn = Turn(transferId: string, rank: int)

  /** The handler and request of a pull. */
  datatype Origin = Origin(handler: nat, request: string)

  /** The source object and handler that served a pull. */
  datatype Reading = Reading(meta: nat, handler: nat)

  /** A D rank acknowledged a source. */
  datatype Ack = Ack(meta: nat, rank: int)

  /**
   `peers` are the D ranks paired with this P rank. The last four fields are history: who pulled what, what it
   was served, which ranks acknowledged which sources, and the sources that were reported as released.
   */
  datatype State = State(table: map<string, nat>, metas: seq<SendMeta>, finished: set<string>,
                         handlers: seq<Handler>, draining: Option<nat>, peers: set<int>,
                         used: map<Turn, Origin>, served: map<Turn, Reading>, acked: set<Ack>, released: set<nat>)

  function Fresh(requestId: string, transferId: string): SendMeta {
    SendMeta(requestId, transferId, [], false, None, 0, 0, 0)
  }

  function Init(peers: set<int>): State {
    State(map[], [], {}, [], None, peers, map[], map[], {}, {})
  }

  // ---------------------------------------------------------------- steps of the worker thread

  /** `reqs_need_send.setdefault`. */
  function SetDefault(s: State, requestId: string, transferId: string): State {
    if transferId in s.table then s
    else s.(table := s.table[transferId := |s.metas|], metas := s.metas + [Fresh(requestId, transferId)])
  }

  function Prepare(s: State, requestId: string, transferId: string): State
    requires TableValid(s)
  {
    var s1 := SetDefault(s, requestId, transferId);
    var m := s1.table[transferId];
    s1.(metas := s1.metas[m := s1.metas[m].(requestId := requestId)])
  }

  function Publish(s: State, requestId: string, transferId: string, blocks: seq<seq<int>>, deadline: int): State
    requires TableValid(s)
  {
    var s1 := Prepare(s, requestId, transferId);
    var m := s1.table[transferId];
    s1.(metas := s1.metas[m := s1.metas[m].(blocks := blocks, deadline := Some(deadline), ready := true)])
  }

  /** `cancel`, up to its drain loop: removal prevents new reads. */
  function CancelBegin(s: State, requestId: string, transferId: string): State
    requires TableValid(s)
  {
    if transferId !in s.table then s.(finished := s.finished - {requestId})
    else
      var m := s.table[transferId];
      s.(table := s.table - {transferId}, metas := s.metas[m := s.metas[m].(ready := true)], draining := Some(m))
  }

  /** `cancel` returns: the drain loop has seen no write in flight. */
  function CancelEnd(s: State, requestId: string): State
    requires s.draining.Some?
  {
    s.(finished := s.finished - {requestId}, draining := None, released := s.released + {s.draining.value})
  }

  /** Entries that `fetch_finished_sending_reqs` reports as timed out. */
  predicate Expired(s: State, now: int, transferId: string)
    requires TableValid(s) && transferId in s.table
  {
    var meta := s.metas[s.table[transferId]];
    meta.requestId != "" && meta.deadline.Some? && meta.deadline.value < now && meta.sending == 0
  }

  function ExpiredIds(s: State, now: int): set<string>
    requires TableValid(s)
  {
    set t | t in s.table && Expired(s, now, t)
  }

  function Poll(s: State, now: int): State
    requires TableValid(s)
  {
    var gone := ExpiredIds(s, now);
    s.(finished := {}, table := s.table - gone, released := s.released + set t | t in gone :: s.table[t])
  }

  // ---------------------------------------------------------------- steps of the handlers

  /** Placeholders for the pulled transfers, and what the new handler waits for. */
  function OpenTable(s: State, rank: int, pulls: seq<Pull>): (State, map<string, nat>)
  {
    if pulls == [] then (s, map[])
    else
      var n := |pulls| - 1;
      var (s1, waiting) := OpenTable(s, rank, pulls[..n]);
      var s2 := SetDefault(s1, "", pulls[n].transferId);
      (s2.(used := s2.used[Turn(pulls[n].transferId, rank) := Origin(|s.handlers|, pulls[n].request)]),
       waiting[pulls[n].request := s2.table[pulls[n].transferId]])
  }

  function Open(s: State, rank: int, pulls: seq<Pull>): State {
    var (s1, waiting) := OpenTable(s, rank, pulls);
    s1.(handlers := s1.handlers + [Handler(rank, set p | p in pulls :: p.request, waiting, Waiting, [])])
  }

  /** The identity check: the table still maps the transfer id to this very object. */
  predicate Live(s: State, m: nat) {
    m < |s.metas| && s.metas[m].transferId in s.table && s.table[s.metas[m].transferId] == m
  }

  function LiveEntries(s: State, done: seq<Entry>): seq<Entry> {
    if done == [] then []
    else
      var n := |done| - 1;
      LiveEntries(s, done[..n]) + if Live(s, done[n].meta) then [done[n]] else []
  }

  function DeadIds(s: State, done: seq<Entry>): seq<string> {
    if done == [] then []
    else
      var n := |done| - 1;
      DeadIds(s, done[..n]) + if Live(s, done[n].meta) then [] else [done[n].request]
  }

  function IdsOf(entries: seq<Entry>): set<string> {
    set e | e in entries :: e.request
  }

  function MetasOf(entries: seq<Entry>): set<nat> {
    set e | e in entries :: e.meta
  }

  /** A handler starts to read a source; the first one resolves how many ranks must acknowledge it. */
  function StartMeta(meta: SendMeta, need: nat): SendMeta {
    meta.(sending := meta.sending + 1, needSend := if meta.needSend == 0 then need else meta.needSend)
  }

  function StartSending(metas: seq<SendMeta>, ms: set<nat>, need: nat): (r: seq<SendMeta>)
    ensures |r| == |metas|
    ensures forall m :: 0 <= m < |metas| ==> r[m] == if m in ms then StartMeta(metas[m], need) else metas[m]
  {
    seq(|metas|, m requires 0 <= m < |metas| => if m in ms then StartMeta(metas[m], need) else metas[m])
  }

  /** Handler `h` of rank `rank` was handed the sources `ms`. */
  function AddReadings(served: map<Turn, Reading>, table: map<string, nat>, ms: set<nat>, rank: int, h: nat)
    : (r: map<Turn, Reading>)
    ensures forall k :: k in r <==>
              k in served || (k.rank == rank && k.transferId in table && table[k.transferId] in ms)
    ensures forall k :: k in r ==>
              r[k] == if k.rank == rank && k.transferId in table && table[k.transferId] in ms
                      then Reading(table[k.transferId], h) else served[k]
  {
    served + map t | t in table && table[t] in ms :: Turn(t, rank) := Reading(table[t], h)
  }

  /** Some waiters woke up: the live ones are planned and a write starts, the others are expired. */
  function Wake(s: State, h: nat, done: seq<Entry>, failed: set<string>): State
    requires h < |s.handlers|
  {
    var handler := s.handlers[h];
    var ready := LiveEntries(s, done);
    var waiting := handler.waiting - IdsOf(done);
    s.(metas := StartSending(s.metas, MetasOf(ready), |s.peers|),
       handlers := s.handlers[h := handler.(waiting := waiting,
                                            phase := Writing(ready, failed, DeadIds(s, done), waiting == map[]))],
       served := AddReadings(s.served, s.table, MetasOf(ready), handler.rank, h))
  }

  /** The requests of `entries` whose membership in `ids` is `wanted`. */
  function Select(entries: seq<Entry>, ids: set<string>, wanted: bool): seq<Entry> {
    if entries == [] then []
    else
      var n := |entries| - 1;
      Select(entries[..n], ids, wanted) + if (entries[n].request in ids) == wanted then [entries[n]] else []
  }

  function Requests(entries: seq<Entry>): (r: seq<string>)
    ensures |r| == |entries|
  {
    seq(|entries|, i requires 0 <= i < |entries| => entries[i].request)
  }

  /** A handler stops reading a source, having acknowledged it or not. */
  function EndMeta(meta: SendMeta, acknowledged: bool, read: bool): SendMeta {
    meta.(sent := if acknowledged then meta.sent + 1 else meta.sent,
          sending := if read && meta.sending > 0 then meta.sending - 1 else meta.sending)
  }

  function EndSending(metas: seq<SendMeta>, oks: set<nat>, read: set<nat>): (r: seq<SendMeta>)
    ensures |r| == |metas|
    ensures forall m :: 0 <= m < |metas| ==> r[m] == EndMeta(metas[m], m in oks, m in read)
  {
    seq(|metas|, m requires 0 <= m < |metas| => EndMeta(metas[m], m in oks, m in read))
  }

  /** Sources all paired ranks have acknowledged with `oks`, and whose name is in the table. */
  function Completed(table: map<string, nat>, metas: seq<SendMeta>, oks: set<nat>): set<nat> {
    set m | m in oks && m < |metas| && metas[m].sent + 1 == metas[m].needSend && metas[m].transferId in table
  }

  /** Pops the names of the sources `gone`. */
  function Pop(table: map<string, nat>, metas: seq<SendMeta>, gone: set<nat>): (r: map<string, nat>)
    requires forall m :: m in gone ==> m < |metas|
    ensures forall t :: t in r ==> t in table && r[t] == table[t]
    ensures forall t :: t in table ==> (t in r <==> forall m :: m in gone ==> metas[m].transferId != t)
  {
    table - set m | m in gone :: metas[m].transferId
  }

  function AddAcks(acked: set<Ack>, oks: set<nat>, rank: int): (r: set<Ack>)
    ensures forall a :: a in r <==> a in acked || (a.meta in oks && a.rank == rank)
  {
    acked + set m | m in oks :: Ack(m, rank)
  }

  /** The planned requests, if the write succeeded. */
  function Succeeded(phase: Phase, success: bool): seq<Entry>
    requires phase.Writing?
  {
    if success then Select(phase.ready, phase.failed, false) else []
  }

  /** Unplanned requests fail, all of them if the write did; requests whose source is gone are errors as well. */
  function Answer(phase: Phase, success: bool): Response
    requires phase.Writing?
  {
    Response(if phase.last then FINISH else CONTINUE,
             Requests(Succeeded(phase, success)),
             Requests(Select(phase.ready, phase.failed, true))
             + (if success then [] else Requests(Select(phase.ready, phase.failed, false)))
             + phase.expired)
  }

  /** The write returned; on success the planned requests are acknowledged. A response goes out. */
  function Finish(s: State, h: nat, success: bool): State
    requires h < |s.handlers| && s.handlers[h].phase.Writing?
  {
    var handler := s.handlers[h];
    var oks := MetasOf(Succeeded(handler.phase, success));
    var gone := Completed(s.table, s.metas, oks);
    s.(metas := EndSending(s.metas, oks, MetasOf(handler.phase.ready)),
       table := Pop(s.table, s.metas, gone),
       finished := s.finished + set m | m in gone :: s.metas[m].requestId,
       handlers := s.handlers[h := handler.(phase := if handler.phase.last then Closed else Waiting,
                                            out := handler.out + [Answer(handler.phase, success)])],
       acked := AddAcks(s.acked, oks, handler.rank),
       released := s.released + gone)
  }

  /** The executor raised: the counters are restored and the handler dies without a response. */
  function WriteRaises(s: State, h: nat): State
    requires h < |s.handlers| && s.handlers[h].phase.Writing?
  {
    var handler := s.handlers[h];
    s.(metas := EndSending(s.metas, {}, MetasOf(handler.phase.ready)),
       handlers := s.handlers[h := handler.(waiting := map[], phase := Closed)])
  }

  /** The identifiers of a map in some order, without repetition. */
  ghost predicate Enumerates(ids: seq<string>, keys: set<string>) {
    multiset(ids) == multiset(keys)
  }

  /** Nobody became ready in time: everything still waiting is answered with an error. */
  function TimeOut(s: State, h: nat, pending: seq<string>): State
    requires h < |s.handlers|
  {
    var handler := s.handlers[h];
    s.(handlers := s.handlers[h := handler.(waiting := map[], phase := Closed,
                                            out := handler.out + [Response(FINISH, [], pending)])])
  }

  // ---------------------------------------------------------------- guards and runs

  predicate TableValid(s: State) {
    forall t :: t in s.table ==> s.table[t] < |s.metas| && s.metas[s.table[t]].transferId == t
  }

  ghost predicate DistinctPulls(pulls: seq<Pull>) {
    forall i, j :: 0 <= i < j < |pulls| ==>
      pulls[i].request != pulls[j].request && pulls[i].transferId != pulls[j].transferId
  }

  /** A paired D rank pulls each transfer id at most once; pull messages name requests and transfers once. */
  ghost predicate CanOpen(s: State, rank: int, pulls: seq<Pull>) {
    && rank in s.peers && pulls != [] && DistinctPulls(pulls)
    && forall p :: p in pulls ==> Turn(p.transferId, rank) !in s.used
  }

  ghost predicate DistinctEntries(entries: seq<Entry>) {
    forall i, j :: 0 <= i < j < |entries| ==> entries[i].request != entries[j].request
  }

  /** A non-empty set of waiters whose event is set. */
  ghost predicate CanWake(s: State, h: nat, done: seq<Entry>, failed: set<string>) {
    && h < |s.handlers| && s.handlers[h].phase.Waiting? && done != [] && DistinctEntries(done)
    && forall e :: e in done ==>
      && e.request in s.handlers[h].waiting && s.handlers[h].waiting[e.request] == e.meta
      && e.meta < |s.metas| && s.metas[e.meta].ready
  }

  datatype Step =
    | DoPrepare(requestId: string, transferId: string)
    | DoPublish(requestId: string, transferId: string, blocks: seq<seq<int>>, deadline: int)
    | DoCancelBegin(requestId: string, transferId: string)
    | DoCancelEnd(requestId: string)
    | DoPoll(now: int)
    | DoOpen(rank: int, pulls: seq<Pull>)
    | DoWake(h: nat, done: seq<Entry>, failed: set<string>)
    | DoFinish(h: nat, success: bool)
    | DoRaise(h: nat)
    | DoTimeOut(h: nat, pending: seq<string>)

  /** The worker thread blocks inside `cancel` until it returns. */
  ghost predicate Enabled(s: State, step: Step) {
    match step
    case DoPrepare(_, _) => s.draining.None? && TableValid(s)
    case DoPublish(requestId, _, _, _) => s.draining.None? && requestId != "" && TableValid(s)
    case DoCancelBegin(_, _) => s.draining.None? && TableValid(s)
    case DoCancelEnd(_) => s.draining.Some? && s.draining.value < |s.metas| && s.metas[s.draining.value].sending == 0
    case DoPoll(_) => s.draining.None? && TableValid(s)
    case DoOpen(rank, pulls) => CanOpen(s, rank, pulls)
    case DoWake(h, done, failed) => CanWake(s, h, done, failed)
    case DoFinish(h, _) => h < |s.handlers| && s.handlers[h].phase.Writing?
    case DoRaise(h) => h < |s.handlers| && s.handlers[h].phase.Writing?
    case DoTimeOut(h, pending) =>
      h < |s.handlers| && s.handlers[h].phase.Waiting? && s.handlers[h].waiting != map[]
      && Enumerates(pending, s.handlers[h].waiting.Keys)
  }

  ghost function Apply(s: State, step: Step): State
    requires Enabled(s, step)
  {
    match step
    case DoPrepare(requestId, transferId) => Prepare(s, requestId, transferId)
    case DoPublish(requestId, transferId, blocks, deadline) => Publish(s, requestId, transferId, blocks, deadline)
    case DoCancelBegin(requestId, transferId) => CancelBegin(s, requestId, transferId)
    case DoCancelEnd(requestId) => CancelEnd(s, requestId)
    case DoPoll(now) => Poll(s, now)
    case DoOpen(rank, pulls) => Open(s, rank, pulls)
    case DoWake(h, done, failed) => Wake(s, h, done, failed)
    case DoFinish(h, success) => Finish(s, h, success)
    case DoRaise(h) => WriteRaises(s, h)
    case DoTimeOut(h, pending) => TimeOut(s, h, pending)
  }

  /** Every finite interleaving of the sender loop of a P rank with paired D ranks. */
  ghost predicate IsRun(run: seq<State>, steps: seq<Step>) {
    && |run| == |steps| + 1 && run[0].peers != {} && run[0] == Init(run[0].peers)
    && forall i :: 0 <= i < |steps| ==> Enabled(run[i], steps[i]) && run[i + 1] == Apply(run[i], steps[i])
  }
}
