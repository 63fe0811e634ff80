/**
 The receiver loop of one D rank as a state machine. Each step is one stretch of code between two awaits. A group is
 the set of requests pulled together from one P engine; each of its peers is the task that talks to one P rank.
 */
module ReceiveProtocol {
  import opened Common
  import opened SendProtocol
  import opened SendResponses
  import T = Topology

  datatype RecvEvent = RecvEvent(request: string, transferId: string, blocks: seq<seq<int>>, engine: string)

  /** A receive that is not collected yet, and the group that pulls it. */
  datatype Event = Event(transferId: string, blocks: seq<seq<int>>, group: nat)

  /**
   One P rank: whether it may have seen the destination addresses, and the requests it has not answered. The history
   is what it was heard to say and which requests it answered with success and with an error.
   */
  datatype Peer = Peer(published: bool, open: bool, remaining: set<string>,
                       heard: seq<Response>, oks: set<string>, errs: set<string>)

  /**
   How far a group is: its engine is being looked up, the code that was to pull it has raised or was never reached, the
   bootstrap does not know the engine, or it is pulled from P ranks, of which the engine has `remoteSize`.
   */
  datatype Progress = Discovering | Stuck | Missing | Pulling(remoteSize: int)

  /** `members` are the transfer ids of the requests and `counts` their `pull_tasks_count`. */
  datatype Group = Group(members: map<string, string>, progress: Progress, counts: map<string, int>, peers: seq<Peer>)

  /**
   `rank` of `size` TP ranks. `futures` tells which receive futures are done; `fencing` the requests the worker thread
   waits for.
   */
  datatype Receiver = Receiver(rank: nat, size: int, events: map<string, Event>, futures: map<string, bool>,
                               failed: set<string>, finished: set<string>, invalid: map<string, set<int>>,
                               retired: set<string>, error: bool, groups: seq<Group>, fencing: Option<set<string>>)

  function Empty(rank: nat, size: int): Receiver {
    Receiver(rank, size, map[], map[], {}, {}, map[], {}, false, [], None)
  }

  // ---------------------------------------------------------------- starting receives

  function TransferIds(s: Receiver): set<string> {
    set r | r in s.events :: s.events[r].transferId
  }

  /** The request and transfer ids of event `i` are new and not repeated. */
  predicate IsNew(s: Receiver, events: seq<RecvEvent>, i: nat)
    requires i < |events|
  {
    && events[i].request !in s.events && events[i].request !in s.invalid
    && events[i].transferId !in s.retired && events[i].transferId !in TransferIds(s)
    && forall j :: 0 <= j < i ==>
      events[j].request != events[i].request && events[j].transferId != events[i].transferId
  }

  /** The validation loop of `_start_receive`. */
  predicate CanRegister(s: Receiver, events: seq<RecvEvent>) {
    forall i :: 0 <= i < |events| ==> IsNew(s, events, i)
  }

  /** One event joins the group `g`, which is a new one if `g` is the number of groups. */
  function AddEvent(s: Receiver, e: RecvEvent, g: nat): Receiver
    requires g <= |s.groups|
  {
    var group := if g < |s.groups| then s.groups[g] else Group(map[], Discovering, map[], []);
    var group1 := group.(members := group.members[e.request := e.transferId]);
    s.(events := s.events[e.request := Event(e.transferId, e.blocks, g)],
       futures := s.futures[e.request := false],
       groups := if g < |s.groups| then s.groups[g := group1] else s.groups + [group1])
  }

  /** Registers the events in turn, one group per engine; also tells the group of each engine. */
  function Register(s: Receiver, events: seq<RecvEvent>): (r: (Receiver, map<string, nat>))
    ensures forall e :: e in r.1 ==> r.1[e] < |r.0.groups|
    ensures r.0.rank == s.rank && r.0.size == s.size
  {
    if events == [] then (s, map[])
    else
      var e := events[|events| - 1];
      var (s1, of) := Register(s, events[..|events| - 1]);
      var g := if e.engine in of then of[e.engine] else |s1.groups|;
      var s2 := AddEvent(s1, e, g);
      assert |s1.groups| <= |s2.groups| && g < |s2.groups|;
      (s2, of[e.engine := g])
  }

  /** `_start_receive`; rejected events and a lost fence raise and change nothing. */
  function Start(s: Receiver, events: seq<RecvEvent>): Receiver {
    if s.error || !CanRegister(s, events) then s else Register(s, events).0
  }

  // ---------------------------------------------------------------- finishing receives

  /** `_finish_receive` for every request of `done`. */
  function MarkDone(futures: map<string, bool>, done: set<string>): (r: map<string, bool>)
    ensures r.Keys == futures.Keys
    ensures forall q :: q in futures ==> r[q] == (futures[q] || q in done)
  {
    map q | q in futures :: futures[q] || q in done
  }

  /** The bootstrap does not know the engine: its requests fail. */
  function EngineMissing(s: Receiver, g: nat): Receiver
    requires g < |s.groups|
  {
    var group := s.groups[g];
    s.(failed := s.failed + group.members.Keys, finished := s.finished + group.members.Keys,
       futures := MarkDone(s.futures, group.members.Keys),
       groups := s.groups[g := group.(progress := Missing)])
  }

  function NewPeer(members: set<string>): Peer {
    Peer(false, true, members, [], {}, {})
  }

  /** One task for each of the `n` paired P ranks. */
  function Spawn(s: Receiver, g: nat, remoteSize: int, n: nat): Receiver
    requires g < |s.groups|
  {
    var group := s.groups[g];
    s.(groups := s.groups[g := group.(progress := Pulling(remoteSize),
                                      counts := map q | q in group.members :: n as int,
                                      peers := seq(n, _ => NewPeer(group.members.Keys)))])
  }

  /** Nobody will pull the group. */
  function Abandon(s: Receiver, g: nat): Receiver
    requires g < |s.groups|
  {
    s.(groups := s.groups[g := s.groups[g].(progress := Stuck)])
  }

  /** `receive_kv` for an engine of `remoteSize` TP ranks; it raises if the sizes have no integer ratio. */
  function Resolve(s: Receiver, g: nat, remoteSize: int): Receiver
    requires g < |s.groups| && s.rank < s.size && remoteSize > 0
  {
    match T.TargetRanks(s.rank, s.size, remoteSize)
    case Success(targets) => Spawn(s, g, remoteSize, |targets|)
    case Failure(_) => Abandon(s, g)
  }

  /** The engines of the events in the order of their first event, which is the order of their groups. */
  function Engines(events: seq<RecvEvent>): seq<string> {
    if events == [] then []
    else
      var before, e := Engines(events[..|events| - 1]), events[|events| - 1];
      if e.engine in before then before else before + [e.engine]
  }

  /** The TP sizes of the engines that D has talked to before. */
  function KnownSizes(engines: seq<string>, known: map<string, int>): (sizes: seq<Option<int>>)
    ensures |sizes| == |engines|
    ensures forall k :: 0 <= k < |sizes| ==>
              sizes[k] == if engines[k] in known then Some(known[engines[k]]) else None
  {
    seq(|engines|, k requires 0 <= k < |engines| => if engines[k] in known then Some(known[engines[k]]) else None)
  }

  predicate SizesValid(s: Receiver, sizes: seq<Option<int>>) {
    s.rank < s.size && forall k :: 0 <= k < |sizes| && sizes[k].Some? ==> sizes[k].value > 0
  }

  /** `receive_kv` raises for an engine of this size. */
  predicate Raises(size: int, remoteSize: Option<int>) {
    size > 0 && remoteSize.Some? && remoteSize.value > 0 && !T.IntegerRatio(size, remoteSize.value)
  }

  /** Nobody will pull the `n` groups from `g` on. */
  function AbandonFrom(s: Receiver, g: nat, n: nat): (r: Receiver)
    requires g + n <= |s.groups|
    ensures |r.groups| == |s.groups| && r.rank == s.rank && r.size == s.size
    decreases n
  {
    if n == 0 then s else AbandonFrom(Abandon(s, g), g + 1, n - 1)
  }

  /**
   `_start_load_kv` for the groups from `g` on: unknown engines are looked up by a task, known ones are pulled at once,
   and an exception leaves the rest of the groups alone.
   */
  function Launch(s: Receiver, g: nat, sizes: seq<Option<int>>): (r: Receiver)
    requires g + |sizes| <= |s.groups| && SizesValid(s, sizes)
    ensures |r.groups| == |s.groups| && r.rank == s.rank && r.size == s.size
    decreases |sizes|
  {
    if sizes == [] then s
    else if sizes[0].None? then Launch(s, g + 1, sizes[1..])
    else if Raises(s.size, sizes[0]) then AbandonFrom(s, g, |sizes|)
    else Launch(Resolve(s, g, sizes[0].value), g + 1, sizes[1..])
  }

  predicate LaunchRaises(size: int, sizes: seq<Option<int>>) {
    exists k :: 0 <= k < |sizes| && Raises(size, sizes[k])
  }

  /** From here on the P rank may write to the destination. */
  function Connect(s: Receiver, g: nat, p: nat): Receiver
    requires g < |s.groups| && p < |s.groups[g].peers|
  {
    var group := s.groups[g];
    s.(groups := s.groups[g := group.(peers := group.peers[p := group.peers[p].(published := true)])])
  }

  function Elements(ids: seq<string>): set<string> {
    set q | q in ids
  }

  predicate Terminal(response: Response) {
    response.status == FINISH || response.status == ERROR
  }

  /** A terminal response fails whatever it does not name as successful. */
  function Errors(response: Response, remaining: set<string>): set<string> {
    if Terminal(response) then remaining - Elements(response.ok) else Elements(response.err)
  }

  function Heard(peer: Peer, response: Response): Peer {
    var errs := Errors(response, peer.remaining);
    peer.(remaining := peer.remaining - Elements(response.ok) - errs, open := !Terminal(response),
          heard := peer.heard + [response],
          oks := peer.oks + Elements(response.ok), errs := peer.errs + errs)
  }

  function CountDown(counts: map<string, int>, answered: set<string>): (r: map<string, int>)
    ensures r.Keys == counts.Keys
    ensures forall q :: q in counts ==> r[q] == if q in answered then counts[q] - 1 else counts[q]
  {
    map q | q in counts :: if q in answered then counts[q] - 1 else counts[q]
  }

  /** Requests that wait for no other peer. */
  function Completed(counts: map<string, int>, answered: set<string>): set<string> {
    set q | q in answered && q in counts && counts[q] == 1
  }

  /** The requests that a response answers. */
  function AnsweredBy(response: Response, peer: Peer): set<string> {
    Elements(response.ok) + Errors(response, peer.remaining)
  }

  /** `process_pulling_result`. */
  function Process(s: Receiver, g: nat, p: nat, response: Response): Receiver
    requires g < |s.groups| && p < |s.groups[g].peers|
  {
    var group := s.groups[g];
    var answered := AnsweredBy(response, group.peers[p]);
    var done := Completed(group.counts, answered);
    s.(failed := s.failed + Errors(response, group.peers[p].remaining),
       finished := s.finished + done,
       futures := MarkDone(s.futures, done),
       groups := s.groups[g := group.(counts := CountDown(group.counts, answered),
                                      peers := group.peers[p := Heard(group.peers[p], response)])])
  }

  /** The connection to a P rank fails: fatal if that rank may still be writing. */
  function Lose(s: Receiver, g: nat, p: nat): Receiver
    requires g < |s.groups| && p < |s.groups[g].peers|
  {
    var group := s.groups[g];
    var peer := group.peers[p];
    if peer.published && peer.remaining != {} then
      s.(error := true, futures := MarkDone(s.futures, s.futures.Keys),
         groups := s.groups[g := group.(peers := group.peers[p := peer.(open := false)])])
    else
      Process(s, g, p, Response(ERROR, [], []))
  }

  // ---------------------------------------------------------------- the worker's calls

  /** The destination blocks of a receive. */
  function Destination(event: Event): set<int> {
    set ids, b | ids in event.blocks && b in ids && b >= 0 :: b
  }

  function FailedBlocks(s: Receiver): (r: map<string, set<int>>)
    ensures forall q :: q in r <==> q in s.finished && q in s.failed && q in s.events
    ensures forall q :: q in r ==> r[q] == Destination(s.events[q])
  {
    map q | q in s.finished && q in s.failed && q in s.events :: Destination(s.events[q])
  }

  /** Drops requests whose receive is over; their transfer ids never come back. */
  function Retire(s: Receiver, gone: set<string>): Receiver {
    s.(events := s.events - gone, futures := s.futures - gone, failed := s.failed - gone, finished := s.finished - gone,
       retired := s.retired + set q | q in gone && q in s.events :: s.events[q].transferId)
  }

  /** `fetch_finished_recving_reqs`; raises and changes nothing once a fence was lost. */
  function Fetch(s: Receiver): Receiver {
    if s.error then s else Retire(s, s.finished).(invalid := s.invalid + FailedBlocks(s))
  }

  function TakeErrors(s: Receiver): Receiver {
    if s.error then s else s.(invalid := map[])
  }

  function FenceBegin(s: Receiver, ids: set<string>): Receiver {
    if s.error then s else s.(fencing := Some(ids))
  }

  /** The awaited futures are done. The fence raises if a P rank was lost meanwhile, else it discards. */
  function FenceEnd(s: Receiver): Receiver
    requires s.fencing.Some?
  {
    var ids := s.fencing.value;
    if s.error then s.(fencing := None)
    else Retire(s, ids).(fencing := None, invalid := s.invalid - ids)
  }

  // ---------------------------------------------------------------- guards and runs

  ghost predicate OpenPeer(s: Receiver, g: nat, p: nat) {
    g < |s.groups| && s.groups[g].progress.Pulling? && p < |s.groups[g].peers| && s.groups[g].peers[p].open
  }

  /**
   What a P rank sends: a stream that `SendResponses.ResponseStreams` promises, or one refusal of the whole request.
   */
  ghost predicate Acceptable(group: Group, peer: Peer, response: Response) {
    || ValidStream(peer.heard + [response], group.members.Keys)
    || (response.status == ERROR && response.ok == [])
  }

  /** `DoAbandon`: an exception ended the call that was to start pulling the group before the group's turn came. */
  datatype Step =
    | DoStart(events: seq<RecvEvent>)
    | DoEngineMissing(g: nat)
    | DoResolve(g: nat, remoteSize: int)
    | DoAbandon(g: nat)
    | DoConnect(g: nat, p: nat)
    | DoProcess(g: nat, p: nat, response: Response)
    | DoLose(g: nat, p: nat)
    | DoFetch
    | DoTakeErrors
    | DoFenceBegin(ids: set<string>)
    | DoFenceEnd

  /** The worker thread is blocked while it waits for a fence. */
  ghost predicate Enabled(s: Receiver, step: Step) {
    match step
    case DoStart(_) => s.fencing.None?
    case DoEngineMissing(g) => g < |s.groups| && s.groups[g].progress.Discovering?
    case DoResolve(g, remoteSize) =>
      g < |s.groups| && s.groups[g].progress.Discovering? && s.rank < s.size && remoteSize > 0
    case DoAbandon(g) => g < |s.groups| && s.groups[g].progress.Discovering?
    case DoConnect(g, p) => OpenPeer(s, g, p) && !s.groups[g].peers[p].published
    case DoProcess(g, p, response) =>
      && OpenPeer(s, g, p) && s.groups[g].peers[p].published
      && Acceptable(s.groups[g], s.groups[g].peers[p], response)
    case DoLose(g, p) => OpenPeer(s, g, p)
    case DoFetch => s.fencing.None?
    case DoTakeErrors => s.fencing.None?
    case DoFenceBegin(_) => s.fencing.None?
    case DoFenceEnd => s.fencing.Some? && forall q :: q in s.fencing.value && q in s.futures ==> s.futures[q]
  }

  ghost function Apply(s: Receiver, step: Step): Receiver
    requires Enabled(s, step)
  {
    match step
    case DoStart(events) => Start(s, events)
    case DoEngineMissing(g) => EngineMissing(s, g)
    case DoResolve(g, remoteSize) => Resolve(s, g, remoteSize)
    case DoAbandon(g) => Abandon(s, g)
    case DoConnect(g, p) => Connect(s, g, p)
    case DoProcess(g, p, response) => Process(s, g, p, response)
    case DoLose(g, p) => Lose(s, g, p)
    case DoFetch => Fetch(s)
    case DoTakeErrors => TakeErrors(s)
    case DoFenceBegin(ids) => FenceBegin(s, ids)
    case DoFenceEnd => FenceEnd(s)
  }

  /** Every finite interleaving of the receiver loop of a D rank. */
  ghost predicate IsRun(run: seq<Receiver>, steps: seq<Step>) {
    && |run| == |steps| + 1 && run[0] == Empty(run[0].rank, run[0].size)
    && forall i :: 0 <= i < |steps| ==> Enabled(run[i], steps[i]) && run[i + 1] == Apply(run[i], steps[i])
  }
}
