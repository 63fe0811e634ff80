/**
 Which receives can finish at all: exactly those from an engine whose TP size has an integer ratio to D's.
 */
module ReceiveResolution {
  import opened Common
  import opened SendProtocol
  import SR = SendResponses
  import R = ReceiveProtocol
  import F = ReceiveFence
  import T = Topology

  // ---------------------------------------------------------------- peers are target ranks

  /** A group that is pulled has one peer for each P rank that is paired with the D rank. */
  ghost predicate PulledFromTargets(s: R.Receiver, g: nat)
    requires g < |s.groups|
  {
    s.groups[g].progress.Pulling? ==>
      var n := s.groups[g].progress.remoteSize;
      && s.rank < s.size && n > 0 && T.IntegerRatio(s.size, n)
      && |s.groups[g].peers| == |T.Targets(s.rank, s.size, n)|
  }

  lemma {:induction false} NewGroupsDiscover(s: R.Receiver, events: seq<R.RecvEvent>, g: nat)
    requires g >= |s.groups|
    ensures var s1 := R.Register(s, events).0; g < |s1.groups| ==> s1.groups[g].progress.Discovering?
  {
    if events != [] {
      NewGroupsDiscover(s, events[..|events| - 1], g);
    }
  }

  /** A registration leaves the groups alone, and new ones wait for their engine. */
  lemma StartKeepsGroups(s: R.Receiver, events: seq<R.RecvEvent>, g: nat)
    requires F.Inv(s)
    ensures var s1 := R.Start(s, events);
            && s1.rank == s.rank && s1.size == s.size
            && (g < |s.groups| ==> g < |s1.groups| && s1.groups[g] == s.groups[g])
            && (|s.groups| <= g < |s1.groups| ==> s1.groups[g].progress.Discovering?)
  {
    if !s.error && R.CanRegister(s, events) {
      F.RegisterInv(s, events);
      if g >= |s.groups| {
        NewGroupsDiscover(s, events, g);
      }
    }
  }

  /** The group is where it was and has as many peers as before. */
  ghost predicate SameShape(s: R.Receiver, s1: R.Receiver, g: nat) {
    && s1.rank == s.rank && s1.size == s.size && |s1.groups| == |s.groups|
    && (g < |s.groups| ==>
         && s1.groups[g].progress == s.groups[g].progress && s1.groups[g].members == s.groups[g].members
         && |s1.groups[g].peers| == |s.groups[g].peers|)
  }

  lemma ProcessShape(s: R.Receiver, h: nat, p: nat, response: Response, g: nat)
    requires R.OpenPeer(s, h, p)
    ensures SameShape(s, R.Process(s, h, p, response), g)
  {
  }

  lemma LoseShape(s: R.Receiver, h: nat, p: nat, g: nat)
    requires R.OpenPeer(s, h, p)
    ensures SameShape(s, R.Lose(s, h, p), g)
  {
  }

  /** Only a step that resolves or gives up the engine changes how far a group is. */
  lemma StepShape(s: R.Receiver, step: R.Step, g: nat)
    requires R.Enabled(s, step) && !step.DoStart?
    requires !((step.DoResolve? || step.DoAbandon? || step.DoEngineMissing?) && step.g == g)
    ensures SameShape(s, R.Apply(s, step), g)
  {
    match step
    case DoProcess(h, p, response) => ProcessShape(s, h, p, response, g);
    case DoLose(h, p) => LoseShape(s, h, p, g);
    case _ =>
  }

  lemma StepTargets(s: R.Receiver, step: R.Step, g: nat)
    requires F.Inv(s) && R.Enabled(s, step) && g < |R.Apply(s, step).groups|
    requires g < |s.groups| ==> PulledFromTargets(s, g)
    ensures PulledFromTargets(R.Apply(s, step), g)
  {
    if step.DoStart? {
      StartKeepsGroups(s, step.events, g);
    } else if (step.DoResolve? || step.DoAbandon? || step.DoEngineMissing?) && step.g == g {
      assert R.Apply(s, step).rank == s.rank && R.Apply(s, step).size == s.size;
    } else {
      StepShape(s, step, g);
    }
  }

  /** Main result. In every run, a group that is pulled waits for exactly the P ranks paired with the D rank. */
  lemma {:induction false} PeersAreTargets(run: seq<R.Receiver>, steps: seq<R.Step>, i: nat, g: nat)
    requires R.IsRun(run, steps) && i < |run| && g < |run[i].groups|
    ensures PulledFromTargets(run[i], g)
  {
    if i > 0 {
      F.RunInv(run, steps, i - 1);
      if g < |run[i - 1].groups| {
        PeersAreTargets(run, steps, i - 1, g);
      }
      StepTargets(run[i - 1], steps[i - 1], g);
    }
  }

  // ---------------------------------------------------------------- no ratio: the receive hangs

  /** What happens to the group agrees with the engine having `remoteSize` TP ranks. */
  ghost predicate SizedStep(step: R.Step, g: nat, remoteSize: int) {
    && (step.DoResolve? && step.g == g ==> step.remoteSize == remoteSize)
    && !(step.DoEngineMissing? && step.g == g)
  }

  ghost predicate Sized(steps: seq<R.Step>, i: nat, g: nat, remoteSize: int) {
    forall m: nat :: i <= m < |steps| ==> SizedStep(steps[m], g, remoteSize)
  }

  /** Nobody pulls the group, or not yet. */
  ghost predicate Unpulled(s: R.Receiver, g: nat) {
    g < |s.groups| && (s.groups[g].progress.Discovering? || s.groups[g].progress.Stuck?)
  }

  /** The sizes are positive and neither divides the other. */
  predicate NoRatio(size: int, remoteSize: int) {
    size > 0 && remoteSize > 0 && !T.IntegerRatio(size, remoteSize)
  }

  lemma UnpulledStep(s: R.Receiver, step: R.Step, g: nat, remoteSize: int)
    requires F.Inv(s) && R.Enabled(s, step) && Unpulled(s, g)
    requires NoRatio(s.size, remoteSize) && SizedStep(step, g, remoteSize)
    ensures var s1 := R.Apply(s, step);
            Unpulled(s1, g) && s1.groups[g].members == s.groups[g].members && s1.size == s.size
  {
    if step.DoStart? {
      StartKeepsGroups(s, step.events, g);
    } else if (step.DoResolve? || step.DoAbandon?) && step.g == g {
      assert R.Apply(s, step) == R.Abandon(s, g);
    } else {
      StepShape(s, step, g);
    }
  }

  lemma {:induction false} StillUnpulled(run: seq<R.Receiver>, steps: seq<R.Step>, i: nat, j: nat, g: nat,
                                         remoteSize: int)
    requires R.IsRun(run, steps) && i <= j < |run| && Unpulled(run[i], g)
    requires NoRatio(run[i].size, remoteSize) && Sized(steps, i, g, remoteSize)
    ensures Unpulled(run[j], g) && run[j].groups[g].members == run[i].groups[g].members && run[j].size == run[i].size
  {
    if i < j {
      StillUnpulled(run, steps, i, j - 1, g, remoteSize);
      F.RunInv(run, steps, j - 1);
      var s, step := run[j - 1], steps[j - 1];
      assert SizedStep(step, g, remoteSize) && run[j] == R.Apply(s, step);
      UnpulledStep(s, step, g, remoteSize);
    }
  }

  lemma UnpulledIsOpen(s: R.Receiver, g: nat, q: string)
    requires F.Inv(s) && Unpulled(s, g) && q in s.groups[g].members
    ensures q in s.events && q !in s.finished
    ensures forall step :: R.Enabled(s, step) ==> !F.GivesBack(s, step, q)
    ensures s.fencing.Some? && q in s.fencing.value && !s.error ==> !R.Enabled(s, R.DoFenceEnd)
  {
    assert F.MemberValid(s, g, q) && F.EventValid(s, q);
  }

  /**
   Main result. Without an integer ratio of the sizes a registered receive never finishes, its blocks are never given
   back, and a fence that waits for it does not return unless some other connection is lost.
   */
  lemma NoRatioNeverFinishes(run: seq<R.Receiver>, steps: seq<R.Step>, i: nat, j: nat, g: nat, q: string,
                             remoteSize: int)
    requires R.IsRun(run, steps) && i <= j < |run| && Unpulled(run[i], g) && q in run[i].groups[g].members
    requires NoRatio(run[i].size, remoteSize) && Sized(steps, i, g, remoteSize)
    ensures q in run[j].events && q !in run[j].finished
    ensures forall step :: R.Enabled(run[j], step) ==> !F.GivesBack(run[j], step, q)
    ensures run[j].fencing.Some? && q in run[j].fencing.value && !run[j].error ==> !R.Enabled(run[j], R.DoFenceEnd)
  {
    StillUnpulled(run, steps, i, j, g, remoteSize);
    F.RunInv(run, steps, j);
    UnpulledIsOpen(run[j], g, q);
  }

  lemma StuckStep(s: R.Receiver, step: R.Step, g: nat)
    requires F.Inv(s) && R.Enabled(s, step) && g < |s.groups| && s.groups[g].progress.Stuck?
    ensures var s1 := R.Apply(s, step);
            && g < |s1.groups| && s1.groups[g].progress.Stuck? && s1.groups[g].members == s.groups[g].members
  {
    if step.DoStart? {
      StartKeepsGroups(s, step.events, g);
    } else {
      StepShape(s, step, g);
    }
  }

  lemma {:induction false} StillStuck(run: seq<R.Receiver>, steps: seq<R.Step>, i: nat, j: nat, g: nat)
    requires R.IsRun(run, steps) && i <= j < |run| && g < |run[i].groups| && run[i].groups[g].progress.Stuck?
    ensures g < |run[j].groups| && run[j].groups[g].progress.Stuck?
    ensures run[j].groups[g].members == run[i].groups[g].members
  {
    if i < j {
      StillStuck(run, steps, i, j - 1, g);
      F.RunInv(run, steps, j - 1);
      StuckStep(run[j - 1], steps[j - 1], g);
    }
  }

  /** The exception also strands the receives of the engines whose turn had not come, whatever their size. */
  lemma StuckNeverFinishes(run: seq<R.Receiver>, steps: seq<R.Step>, i: nat, j: nat, g: nat, q: string)
    requires R.IsRun(run, steps) && i <= j < |run| && g < |run[i].groups| && run[i].groups[g].progress.Stuck?
    requires q in run[i].groups[g].members
    ensures q in run[j].events && q !in run[j].finished
    ensures forall step :: R.Enabled(run[j], step) ==> !F.GivesBack(run[j], step, q)
  {
    StillStuck(run, steps, i, j, g);
    F.RunInv(run, steps, j);
    UnpulledIsOpen(run[j], g, q);
  }

  // ---------------------------------------------------------------- starting is a sequence of steps

  ghost predicate IsPath(states: seq<R.Receiver>, moves: seq<R.Step>) {
    && |states| == |moves| + 1
    && forall i :: 0 <= i < |moves| ==> R.Enabled(states[i], moves[i]) && states[i + 1] == R.Apply(states[i], moves[i])
  }

  lemma PathBefore(s: R.Receiver, move: R.Step, states: seq<R.Receiver>, moves: seq<R.Step>)
    requires IsPath(states, moves) && R.Enabled(s, move) && states[0] == R.Apply(s, move)
    ensures IsPath([s] + states, [move] + moves)
  {
    var states1, moves1 := [s] + states, [move] + moves;
    forall i | 0 <= i < |moves1|
      ensures R.Enabled(states1[i], moves1[i]) && states1[i + 1] == R.Apply(states1[i], moves1[i])
    {
      assert i > 0 ==> states1[i] == states[i - 1] && states1[i + 1] == states[i] && moves1[i] == moves[i - 1];
    }
  }

  ghost predicate Waiting(s: R.Receiver, g: nat, n: nat) {
    g + n <= |s.groups| && forall k :: g <= k < g + n ==> s.groups[k].progress.Discovering?
  }

  lemma {:induction false} AbandonIsPath(s: R.Receiver, g: nat, n: nat)
    returns (states: seq<R.Receiver>, moves: seq<R.Step>)
    requires Waiting(s, g, n)
    ensures IsPath(states, moves) && states[0] == s && states[|moves|] == R.AbandonFrom(s, g, n)
    decreases n
  {
    if n == 0 {
      states, moves := [s], [];
    } else {
      var rest, more := AbandonIsPath(R.Abandon(s, g), g + 1, n - 1);
      PathBefore(s, R.DoAbandon(g), rest, more);
      states, moves := [s] + rest, [R.DoAbandon(g)] + more;
    }
  }

  /** What `recv` does after registering is a sequence of steps of the receiver, so that all results hold for it. */
  lemma {:induction false} LaunchIsPath(s: R.Receiver, g: nat, sizes: seq<Option<int>>)
    returns (states: seq<R.Receiver>, moves: seq<R.Step>)
    requires Waiting(s, g, |sizes|) && R.SizesValid(s, sizes)
    ensures IsPath(states, moves) && states[0] == s && states[|moves|] == R.Launch(s, g, sizes)
    decreases |sizes|
  {
    if sizes == [] {
      states, moves := [s], [];
    } else if sizes[0].None? {
      states, moves := LaunchIsPath(s, g + 1, sizes[1..]);
    } else if R.Raises(s.size, sizes[0]) {
      states, moves := AbandonIsPath(s, g, |sizes|);
    } else {
      var step := R.DoResolve(g, sizes[0].value);
      var rest, more := LaunchIsPath(R.Resolve(s, g, sizes[0].value), g + 1, sizes[1..]);
      PathBefore(s, step, rest, more);
      states, moves := [s] + rest, [step] + more;
    }
  }

  // ---------------------------------------------------------------- a ratio: the receive can succeed

  lemma Extend(run: seq<R.Receiver>, steps: seq<R.Step>, step: R.Step)
    requires R.IsRun(run, steps) && R.Enabled(run[|steps|], step)
    ensures R.IsRun(run + [R.Apply(run[|steps|], step)], steps + [step])
  {
    var run1, steps1 := run + [R.Apply(run[|steps|], step)], steps + [step];
    forall i | 0 <= i < |steps1|
      ensures R.Enabled(run1[i], steps1[i]) && run1[i + 1] == R.Apply(run1[i], steps1[i])
    {
      assert i < |steps| ==> run1[i] == run[i] && run1[i + 1] == run[i + 1] && steps1[i] == steps[i];
    }
  }

  lemma {:induction false} Listing(names: set<string>) returns (ids: seq<string>)
    ensures multiset(ids) == multiset(names)
  {
    if names == {} {
      ids := [];
    } else {
      var x :| x in names;
      var rest := Listing(names - {x});
      ids := rest + [x];
      assert names == (names - {x}) + {x};
    }
  }

  /** The first `k` peers have said that every request of the group succeeded, the others are new. */
  ghost predicate AnsweredTo(s: R.Receiver, g: nat, k: nat) {
    && g < |s.groups| && s.groups[g].progress.Pulling? && !s.error && k <= |s.groups[g].peers|
    && forall p :: 0 <= p < |s.groups[g].peers| ==> PeerUpTo(s.groups[g], p, k)
  }

  ghost predicate PeerUpTo(group: R.Group, p: nat, k: nat)
    requires p < |group.peers|
  {
    if p < k then !group.peers[p].open && group.members.Keys <= group.peers[p].oks
    else group.peers[p] == R.NewPeer(group.members.Keys)
  }

  ghost predicate AllAnswered(s: R.Receiver, g: nat) {
    g < |s.groups| && AnsweredTo(s, g, |s.groups[g].peers|)
  }

  /** The answer of a P rank that has written everything. */
  function AllOk(ids: seq<string>): Response {
    Response(FINISH, ids, [])
  }

  lemma ElementsAre(ids: seq<string>, names: set<string>)
    requires multiset(ids) == multiset(names)
    ensures R.Elements(ids) == names
  {
    forall q
      ensures q in R.Elements(ids) <==> q in names
    {
      assert q in R.Elements(ids) <==> q in multiset(ids);
    }
  }

  lemma AllOkIsValid(ids: seq<string>, names: set<string>)
    requires multiset(ids) == multiset(names)
    ensures SR.ValidStream([] + [AllOk(ids)], names)
  {
    var out := [] + [AllOk(ids)];
    assert out[..0] == [];
    assert SR.Answered(out) == ids;
  }

  /** A new peer that hears that everything succeeded. */
  lemma HearsAllOk(names: set<string>, ids: seq<string>)
    requires multiset(ids) == multiset(names)
    ensures var peer := R.Heard(R.NewPeer(names).(published := true), AllOk(ids)); !peer.open && names <= peer.oks
  {
    ElementsAre(ids, names);
  }

  /** The next peer is connected. */
  lemma ConnectPeer(s: R.Receiver, g: nat, k: nat, ids: seq<string>)
    requires AnsweredTo(s, g, k) && k < |s.groups[g].peers| && multiset(ids) == multiset(s.groups[g].members.Keys)
    ensures R.Enabled(s, R.DoConnect(g, k))
    ensures R.Enabled(R.Connect(s, g, k), R.DoProcess(g, k, AllOk(ids)))
  {
    assert PeerUpTo(s.groups[g], k, k);
    AllOkIsValid(ids, s.groups[g].members.Keys);
  }

  /** The next peer is connected and answers. */
  lemma AnswerPeer(s: R.Receiver, g: nat, k: nat, ids: seq<string>)
    requires AnsweredTo(s, g, k) && k < |s.groups[g].peers| && multiset(ids) == multiset(s.groups[g].members.Keys)
    ensures var s2 := R.Process(R.Connect(s, g, k), g, k, AllOk(ids));
            && AnsweredTo(s2, g, k + 1) && s2.events == s.events && s2.retired == s.retired
            && s2.groups[g].members == s.groups[g].members && |s2.groups[g].peers| == |s.groups[g].peers|
  {
    var group, s2 := s.groups[g], R.Process(R.Connect(s, g, k), g, k, AllOk(ids));
    assert PeerUpTo(group, k, k);
    HearsAllOk(group.members.Keys, ids);
    var peers2, next := s2.groups[g].peers, k + 1;
    assert |peers2| == |group.peers| && forall p :: 0 <= p < |peers2| && p != k ==> peers2[p] == group.peers[p];
    forall p: nat | p < |peers2|
      ensures PeerUpTo(s2.groups[g], p, next)
    {
      assert PeerUpTo(group, p, k);
    }
  }

  /** `run1` goes on from `run`, in agreement with the size of the engine. */
  ghost predicate Continues(run: seq<R.Receiver>, steps: seq<R.Step>, run1: seq<R.Receiver>, steps1: seq<R.Step>,
                            g: nat, remoteSize: int)
  {
    R.IsRun(run1, steps1) && run <= run1 && steps <= steps1 && Sized(steps1, |steps|, g, remoteSize)
  }

  lemma ContinuesOn(run: seq<R.Receiver>, steps: seq<R.Step>, run1: seq<R.Receiver>, steps1: seq<R.Step>, g: nat,
                    remoteSize: int, step: R.Step)
    requires Continues(run, steps, run1, steps1, g, remoteSize)
    requires R.Enabled(run1[|steps1|], step) && SizedStep(step, g, remoteSize)
    ensures Continues(run, steps, run1 + [R.Apply(run1[|steps1|], step)], steps1 + [step], g, remoteSize)
  {
    Extend(run1, steps1, step);
    forall m: nat | |steps| <= m < |steps1 + [step]|
      ensures SizedStep((steps1 + [step])[m], g, remoteSize)
    {
      assert m < |steps1| ==> SizedStep(steps1[m], g, remoteSize);
    }
  }

  /** All peers answer, one after the other. */
  lemma {:induction false} AnswerAll(run: seq<R.Receiver>, steps: seq<R.Step>, run1: seq<R.Receiver>,
                                     steps1: seq<R.Step>, g: nat, remoteSize: int, k: nat, ids: seq<string>)
    returns (run2: seq<R.Receiver>, steps2: seq<R.Step>)
    requires Continues(run, steps, run1, steps1, g, remoteSize)
    requires AnsweredTo(run1[|steps1|], g, k)
    requires multiset(ids) == multiset(run1[|steps1|].groups[g].members.Keys)
    ensures Continues(run, steps, run2, steps2, g, remoteSize)
    ensures var s, s2 := run1[|steps1|], run2[|steps2|];
            && AllAnswered(s2, g) && s2.events == s.events && s2.retired == s.retired
            && s2.groups[g].members == s.groups[g].members
    decreases |run1[|steps1|].groups[g].peers| - k
  {
    var s := run1[|steps1|];
    if k == |s.groups[g].peers| {
      run2, steps2 := run1, steps1;
    } else {
      ConnectPeer(s, g, k, ids);
      AnswerPeer(s, g, k, ids);
      var connect, answer := R.DoConnect(g, k), R.DoProcess(g, k, AllOk(ids));
      ContinuesOn(run, steps, run1, steps1, g, remoteSize, connect);
      var runC, stepsC := run1 + [R.Apply(s, connect)], steps1 + [connect];
      ContinuesOn(run, steps, runC, stepsC, g, remoteSize, answer);
      run2, steps2 := AnswerAll(run, steps, runC + [R.Apply(runC[|stepsC|], answer)], stepsC + [answer], g, remoteSize,
                                k + 1, ids);
    }
  }

  lemma AllAnsweredFinishes(run: seq<R.Receiver>, steps: seq<R.Step>, g: nat, q: string)
    requires R.IsRun(run, steps)
    requires var s := run[|steps|];
             && AllAnswered(s, g) && q in s.groups[g].members
             && s.groups[g].members[q] !in s.retired
    ensures q in run[|steps|].finished && q !in run[|steps|].failed
  {
    var s := run[|steps|];
    forall p | 0 <= p < |s.groups[g].peers|
      ensures !s.groups[g].peers[p].open && q in s.groups[g].peers[p].oks
    {
      assert PeerUpTo(s.groups[g], p, |s.groups[g].peers|);
    }
    F.NoLostCompletion(run, steps, |steps|, g, q);
    F.ReportedAsAnswered(run, steps, |steps|, q);
  }

  /** Main result. With an integer ratio, every run in which the engine is not resolved yet can go on to a success. */
  lemma RatioCanSucceed(run: seq<R.Receiver>, steps: seq<R.Step>, g: nat, q: string, remoteSize: int)
    returns (run1: seq<R.Receiver>, steps1: seq<R.Step>)
    requires R.IsRun(run, steps) && !run[|steps|].error && g < |run[|steps|].groups|
    requires run[|steps|].groups[g].progress.Discovering? && q in run[|steps|].groups[g].members
    requires run[|steps|].rank < run[|steps|].size && remoteSize > 0 && T.IntegerRatio(run[|steps|].size, remoteSize)
    ensures Continues(run, steps, run1, steps1, g, remoteSize)
    ensures q in run1[|steps1|].finished && q !in run1[|steps1|].failed
  {
    var s, step := run[|steps|], R.DoResolve(g, remoteSize);
    F.RunInv(run, steps, |steps|);
    UnpulledIsOpen(s, g, q);
    NotRetired(s, g, q);
    ResolvedIsNew(s, g, remoteSize);
    ContinuesOn(run, steps, run, steps, g, remoteSize, step);
    var s1 := R.Apply(s, step);
    var ids := Listing(s1.groups[g].members.Keys);
    run1, steps1 := AnswerAll(run, steps, run + [s1], steps + [step], g, remoteSize, 0, ids);
    AllAnsweredFinishes(run1, steps1, g, q);
  }

  lemma NotRetired(s: R.Receiver, g: nat, q: string)
    requires F.Inv(s) && Unpulled(s, g) && q in s.groups[g].members
    ensures s.groups[g].members[q] !in s.retired
  {
    assert F.MemberValid(s, g, q) && F.EventValid(s, q);
  }

  lemma ResolvedIsNew(s: R.Receiver, g: nat, remoteSize: int)
    requires R.Enabled(s, R.DoResolve(g, remoteSize)) && T.IntegerRatio(s.size, remoteSize) && !s.error
    ensures var s1 := R.Resolve(s, g, remoteSize);
            AnsweredTo(s1, g, 0) && s1.groups[g].members == s.groups[g].members && s1.retired == s.retired
  {
    var s1 := R.Resolve(s, g, remoteSize);
    forall p: nat | p < |s1.groups[g].peers|
      ensures PeerUpTo(s1.groups[g], p, 0)
    {
    }
  }

  // ---------------------------------------------------------------- exactly when

  ghost predicate CanFinish(run: seq<R.Receiver>, steps: seq<R.Step>, g: nat, q: string, remoteSize: int) {
    exists run1: seq<R.Receiver>, steps1: seq<R.Step> ::
      Continues(run, steps, run1, steps1, g, remoteSize) && q in run1[|steps1|].finished
  }

  /**
   Main result. A receive that is registered and whose engine turns out to have `remoteSize` TP ranks can finish if and
   only if `remoteSize` and D's TP size have an integer ratio.
   */
  lemma FinishesIffRatio(run: seq<R.Receiver>, steps: seq<R.Step>, g: nat, q: string, remoteSize: int)
    requires R.IsRun(run, steps) && !run[|steps|].error && g < |run[|steps|].groups|
    requires run[|steps|].groups[g].progress.Discovering? && q in run[|steps|].groups[g].members
    requires run[|steps|].rank < run[|steps|].size && remoteSize > 0
    ensures CanFinish(run, steps, g, q, remoteSize) <==> T.IntegerRatio(run[|steps|].size, remoteSize)
  {
    if T.IntegerRatio(run[|steps|].size, remoteSize) {
      var run1, steps1 := RatioCanSucceed(run, steps, g, q, remoteSize);
    } else {
      forall run1: seq<R.Receiver>, steps1: seq<R.Step> | Continues(run, steps, run1, steps1, g, remoteSize)
        ensures q !in run1[|steps1|].finished
      {
        assert run1[|steps|] == run[|steps|];
        NoRatioNeverFinishes(run1, steps1, |steps|, |steps1|, g, q, remoteSize);
      }
    }
  }

  /** Three D ranks and an engine of two P ranks: request "r" is accepted and can never finish. */
  lemma ThreeAndTwoHang() returns (run: seq<R.Receiver>, steps: seq<R.Step>)
    ensures R.IsRun(run, steps) && run[|steps|].size == 3 && !run[|steps|].error
    ensures "r" in run[|steps|].events && !CanFinish(run, steps, 0, "r", 2)
  {
    var e := R.RecvEvent("r", "t", [], "e");
    var s := R.Empty(0, 3);
    steps := [R.DoStart([e])];
    assert R.CanRegister(s, [e]) by {
      assert R.IsNew(s, [e], 0);
    }
    run := [s, R.Start(s, [e])];
    assert [e][..0] == [];
    assert R.Register(s, []).0 == s;
    assert run[1] == R.AddEvent(s, e, 0);
    FinishesIffRatio(run, steps, 0, "r", 2);
  }
}
