/**
 Destination fence of the receiver loop: over every interleaving, the blocks of a receive are given back only when no
 P rank that knows their addresses can still write to them, and each receive finishes once, with the right outcome.
 */
module ReceiveFence {
  import opened Common
  import opened SendProtocol
  import opened SendResponses
  import R = ReceiveProtocol
  import T = Topology

  /** The P ranks that have not answered request `q`. */
  ghost function Pending(group: R.Group, q: string): set<nat> {
    set p: nat | p < |group.peers| && q in group.peers[p].remaining
  }

  ghost predicate Settled(group: R.Group, q: string) {
    && !group.progress.Discovering? && !group.progress.Stuck?
    && forall p :: 0 <= p < |group.peers| ==> q !in group.peers[p].remaining
  }

  /** The engine is unknown, or some P rank answered with an error. */
  ghost predicate Faulty(group: R.Group, q: string) {
    group.progress.Missing? || exists p :: 0 <= p < |group.peers| && q in group.peers[p].errs
  }

  // ---------------------------------------------------------------- invariant

  /** The requests of a peer are answered well, answered badly or outstanding; only a lost peer leaves some behind. */
  ghost predicate PeerValid(members: set<string>, peer: R.Peer, error: bool) {
    && peer.oks + peer.errs + peer.remaining == members
    && peer.oks * peer.errs == {} && (peer.oks + peer.errs) * peer.remaining == {}
    && (peer.open ==> OnlyContinue(peer.heard)
                      && multiset(Answered(peer.heard)) + multiset(peer.remaining) == multiset(members))
    && (!peer.open && peer.remaining != {} ==> error)
  }

  /** `pull_tasks_count` is the number of P ranks yet to be heard. */
  ghost predicate GroupValid(group: R.Group, error: bool) {
    && (!group.progress.Pulling? ==> group.peers == [])
    && (group.progress.Pulling? ==> group.peers != [] && group.counts.Keys == group.members.Keys)
    && (group.progress.Pulling? ==> forall q :: q in group.members ==> group.counts[q] == |Pending(group, q)|)
    && forall p :: 0 <= p < |group.peers| ==> PeerValid(group.members.Keys, group.peers[p], error)
  }

  /** An uncollected receive is finished exactly when no P rank is left, and failed exactly when something failed. */
  ghost predicate EventValid(s: R.Receiver, q: string)
    requires q in s.events && q in s.futures
  {
    var e := s.events[q];
    && e.group < |s.groups| && q in s.groups[e.group].members && s.groups[e.group].members[q] == e.transferId
    && e.transferId !in s.retired
    && (q in s.finished <==> Settled(s.groups[e.group], q))
    && (s.futures[q] <==> q in s.finished || s.error)
    && (q in s.failed <==> Faulty(s.groups[e.group], q))
  }

  ghost predicate Current(s: R.Receiver, g: nat, q: string) {
    q in s.events && s.events[q].group == g
  }

  /** What a group pulled is still uncollected, or nobody writes to it any more. */
  ghost predicate MemberValid(s: R.Receiver, g: nat, q: string)
    requires g < |s.groups| && q in s.groups[g].members
  {
    Current(s, g, q) || (s.groups[g].members[q] in s.retired && Settled(s.groups[g], q))
  }

  ghost predicate DistinctTransfers(events: map<string, R.Event>) {
    forall q, r :: q in events && r in events && events[q].transferId == events[r].transferId ==> q == r
  }

  ghost predicate EventsValid(s: R.Receiver) {
    && s.futures.Keys == s.events.Keys && s.finished <= s.events.Keys && s.failed <= s.events.Keys
    && (forall q :: q in s.events ==> EventValid(s, q))
    && DistinctTransfers(s.events)
  }

  ghost predicate MembersValid(s: R.Receiver) {
    forall g: nat, q {:trigger MemberValid(s, g, q)} {:trigger q in s.groups[g].members} ::
      g < |s.groups| && q in s.groups[g].members ==> MemberValid(s, g, q)
  }

  ghost predicate GroupsValid(s: R.Receiver) {
    forall g :: 0 <= g < |s.groups| ==> GroupValid(s.groups[g], s.error)
  }

  ghost predicate Inv(s: R.Receiver) {
    EventsValid(s) && MembersValid(s) && GroupsValid(s)
  }

  // ---------------------------------------------------------------- a group moves on

  /** A group goes from `group` to `group1`: the requests `done` get settled and `errs` get faulty. */
  ghost predicate GroupAdvances(group: R.Group, group1: R.Group, done: set<string>, errs: set<string>) {
    && group1.members == group.members
    && done <= group.members.Keys && errs <= group.members.Keys
    && (forall q :: q in group.members ==> (Settled(group1, q) <==> Settled(group, q) || q in done))
    && (forall q :: q in done || q in errs ==> !Settled(group, q))
    && (forall q :: q in group.members ==> (Faulty(group1, q) <==> Faulty(group, q) || q in errs))
  }

  function Advance(s: R.Receiver, g: nat, group1: R.Group, done: set<string>, errs: set<string>): R.Receiver
    requires g < |s.groups|
  {
    s.(failed := s.failed + errs, finished := s.finished + done, futures := R.MarkDone(s.futures, done),
       groups := s.groups[g := group1])
  }

  lemma AdvanceEvent(s: R.Receiver, g: nat, group1: R.Group, done: set<string>, errs: set<string>, q: string)
    requires q in s.events && q in s.futures && EventValid(s, q)
    requires g < |s.groups| && GroupAdvances(s.groups[g], group1, done, errs)
    requires q in done || q in errs ==> Current(s, g, q)
    ensures EventValid(Advance(s, g, group1, done, errs), q)
  {
  }

  lemma AdvanceEvents(s: R.Receiver, g: nat, group1: R.Group, done: set<string>, errs: set<string>)
    requires EventsValid(s) && MembersValid(s) && g < |s.groups| && GroupAdvances(s.groups[g], group1, done, errs)
    ensures EventsValid(Advance(s, g, group1, done, errs))
  {
    forall q | q in done || q in errs
      ensures Current(s, g, q)
    {
      assert MemberValid(s, g, q);
    }
    forall q | q in s.events
      ensures EventValid(Advance(s, g, group1, done, errs), q)
    {
      AdvanceEvent(s, g, group1, done, errs, q);
    }
  }

  lemma AdvanceInv(s: R.Receiver, g: nat, group1: R.Group, done: set<string>, errs: set<string>)
    requires Inv(s) && g < |s.groups| && GroupAdvances(s.groups[g], group1, done, errs) && GroupValid(group1, s.error)
    ensures Inv(Advance(s, g, group1, done, errs))
  {
    var s1 := Advance(s, g, group1, done, errs);
    AdvanceEvents(s, g, group1, done, errs);
    forall h: nat, q | h < |s1.groups| && q in s1.groups[h].members
      ensures MemberValid(s1, h, q)
    {
      assert MemberValid(s, h, q);
    }
  }

  lemma EngineMissingInv(s: R.Receiver, g: nat)
    requires Inv(s) && R.Enabled(s, R.DoEngineMissing(g))
    ensures Inv(R.EngineMissing(s, g))
  {
    var group := s.groups[g];
    AdvanceInv(s, g, group.(progress := R.Missing), group.members.Keys, group.members.Keys);
  }

  lemma SpawnGroup(group: R.Group, group1: R.Group, remoteSize: int, n: nat, error: bool)
    requires GroupValid(group, error) && group.progress.Discovering? && n > 0
    requires group1 == group.(progress := R.Pulling(remoteSize), counts := map q | q in group.members :: n as int,
                              peers := seq(n, _ => R.NewPeer(group.members.Keys)))
    ensures GroupValid(group1, error) && GroupAdvances(group, group1, {}, {})
  {
    forall q | q in group.members
      ensures group1.counts[q] == |Pending(group1, q)|
    {
      AllPending(group1, q);
    }
    forall q | q in group.members
      ensures !Settled(group1, q) && !Faulty(group1, q) && !Faulty(group, q)
    {
      assert q in group1.peers[0].remaining;
    }
  }

  lemma SpawnInv(s: R.Receiver, g: nat, remoteSize: int, n: nat)
    requires Inv(s) && g < |s.groups| && s.groups[g].progress.Discovering? && n > 0
    ensures Inv(R.Spawn(s, g, remoteSize, n))
  {
    var group1 := R.Spawn(s, g, remoteSize, n).groups[g];
    assert GroupValid(s.groups[g], s.error);
    SpawnGroup(s.groups[g], group1, remoteSize, n, s.error);
    QuietAdvance(s, g, group1);
  }

  lemma AbandonInv(s: R.Receiver, g: nat)
    requires Inv(s) && g < |s.groups| && s.groups[g].progress.Discovering?
    ensures Inv(R.Abandon(s, g))
  {
    assert GroupValid(s.groups[g], s.error);
    QuietAdvance(s, g, s.groups[g].(progress := R.Stuck));
  }

  lemma ResolveInv(s: R.Receiver, g: nat, remoteSize: int)
    requires Inv(s) && R.Enabled(s, R.DoResolve(g, remoteSize))
    ensures Inv(R.Resolve(s, g, remoteSize))
  {
    if T.IntegerRatio(s.size, remoteSize) {
      T.TargetsInRange(s.rank, s.size, remoteSize);
      SpawnInv(s, g, remoteSize, |T.Targets(s.rank, s.size, remoteSize)|);
    } else {
      AbandonInv(s, g);
    }
  }

  /** A group moves on without settling anything. */
  lemma QuietAdvance(s: R.Receiver, g: nat, group1: R.Group)
    requires Inv(s) && g < |s.groups| && GroupAdvances(s.groups[g], group1, {}, {}) && GroupValid(group1, s.error)
    ensures Inv(s.(groups := s.groups[g := group1]))
  {
    NoneDone(s.futures);
    AdvanceInv(s, g, group1, {}, {});
    assert s.(groups := s.groups[g := group1]) == Advance(s, g, group1, {}, {});
  }

  lemma {:induction false} AllPending(group: R.Group, q: string)
    requires forall p :: 0 <= p < |group.peers| ==> q in group.peers[p].remaining
    ensures |Pending(group, q)| == |group.peers|
    decreases |group.peers|
  {
    if group.peers != [] {
      var n := |group.peers| - 1;
      var shorter := group.(peers := group.peers[..n]);
      AllPending(shorter, q);
      assert Pending(group, q) == Pending(shorter, q) + {n};
    }
  }

  lemma NoneDone(futures: map<string, bool>)
    ensures R.MarkDone(futures, {}) == futures
  {
  }

  // ---------------------------------------------------------------- one peer answers

  lemma MultisetCancel(a: multiset<string>, b: multiset<string>, rest: multiset<string>, all: multiset<string>)
    requires a + b <= all && a + rest == all
    ensures b <= rest
  {
    forall x
      ensures b[x] <= rest[x]
    {
      assert (a + b)[x] <= all[x] && (a + rest)[x] == all[x];
    }
  }

  /** In a valid stream, the next message names outstanding requests, each at most once. */
  lemma NextMessage(members: set<string>, peer: R.Peer, response: Response)
    requires multiset(Answered(peer.heard)) + multiset(peer.remaining) == multiset(members)
    requires ValidStream(peer.heard + [response], members)
    ensures multiset(response.ok) + multiset(response.err) <= multiset(peer.remaining)
  {
    var a, b := multiset(Answered(peer.heard)), multiset(response.ok) + multiset(response.err);
    assert a + b == multiset(Answered(peer.heard + [response]));
    MultisetCancel(a, b, multiset(peer.remaining), multiset(members));
  }

  /** Lists that together name elements of a set, each at most once. */
  lemma ListsInSet(ids: seq<string>, more: seq<string>, all: set<string>)
    requires multiset(ids) + multiset(more) <= multiset(all)
    ensures R.Elements(ids) <= all && R.Elements(more) <= all && R.Elements(ids) * R.Elements(more) == {}
    ensures multiset(all) == multiset(ids) + multiset(more) + multiset(all - R.Elements(ids) - R.Elements(more))
  {
    var rest := all - R.Elements(ids) - R.Elements(more);
    forall q
      ensures q in ids ==> q in all && q !in more
      ensures q in more ==> q in all
      ensures multiset(all)[q] == (multiset(ids) + multiset(more) + multiset(rest))[q]
    {
      assert (multiset(ids) + multiset(more))[q] <= multiset(all)[q] <= 1;
      assert q in ids <==> multiset(ids)[q] > 0;
      assert q in more <==> multiset(more)[q] > 0;
    }
  }

  /** What is acceptable names outstanding requests, once each, and a terminal response settles all of them. */
  lemma AcceptableSplit(group: R.Group, peer: R.Peer, response: Response, error: bool)
    requires PeerValid(group.members.Keys, peer, error) && peer.open && R.Acceptable(group, peer, response)
    ensures R.Elements(response.ok) + R.Errors(response, peer.remaining) <= peer.remaining
    ensures R.Elements(response.ok) * R.Errors(response, peer.remaining) == {}
    ensures R.Terminal(response) ==> R.Elements(response.ok) + R.Errors(response, peer.remaining) == peer.remaining
    ensures !R.Terminal(response) ==> ValidStream(peer.heard + [response], group.members.Keys)
  {
    if ValidStream(peer.heard + [response], group.members.Keys) {
      NextMessage(group.members.Keys, peer, response);
      ListsInSet(response.ok, response.err, peer.remaining);
    }
  }

  lemma HeardContinue(members: set<string>, peer: R.Peer, response: Response)
    requires OnlyContinue(peer.heard) && !R.Terminal(response) && ValidStream(peer.heard + [response], members)
    requires multiset(Answered(peer.heard)) + multiset(peer.remaining) == multiset(members)
    ensures var peer1 := R.Heard(peer, response);
            && OnlyContinue(peer1.heard)
            && multiset(Answered(peer1.heard)) + multiset(peer1.remaining) == multiset(members)
  {
    NextMessage(members, peer, response);
    ListsInSet(response.ok, response.err, peer.remaining);
    assert (peer.heard + [response])[|peer.heard|] == response;
    assert R.Heard(peer, response).remaining
        == peer.remaining - R.Elements(response.ok) - R.Elements(response.err);
  }

  /** The sets of a peer after a response. */
  lemma HeardSets(peer: R.Peer, response: Response, members: set<string>)
    requires peer.oks + peer.errs + peer.remaining == members
    requires peer.oks * peer.errs == {} && (peer.oks + peer.errs) * peer.remaining == {}
    requires R.Elements(response.ok) + R.Errors(response, peer.remaining) <= peer.remaining
    requires R.Elements(response.ok) * R.Errors(response, peer.remaining) == {}
    ensures var peer1 := R.Heard(peer, response);
            && peer1.oks + peer1.errs + peer1.remaining == members
            && peer1.oks * peer1.errs == {} && (peer1.oks + peer1.errs) * peer1.remaining == {}
  {
    var ok, err := R.Elements(response.ok), R.Errors(response, peer.remaining);
    var peer1 := R.Heard(peer, response);
    assert peer1.oks == peer.oks + ok && peer1.errs == peer.errs + err && peer1.remaining == peer.remaining - ok - err;
    forall q
      ensures q in peer1.oks || q in peer1.errs || q in peer1.remaining <==> q in members
      ensures !(q in peer1.oks && q in peer1.errs)
      ensures !(q in peer1.oks && q in peer1.remaining) && !(q in peer1.errs && q in peer1.remaining)
    {
      assert q in members <==> q in peer.oks + peer.errs + peer.remaining;
      assert q !in peer.oks * peer.errs && q !in (peer.oks + peer.errs) * peer.remaining && q !in ok * err;
    }
  }

  lemma HeardPeer(group: R.Group, peer: R.Peer, response: Response, error: bool)
    requires PeerValid(group.members.Keys, peer, error) && peer.open && R.Acceptable(group, peer, response)
    ensures PeerValid(group.members.Keys, R.Heard(peer, response), error)
  {
    AcceptableSplit(group, peer, response, error);
    HeardSets(peer, response, group.members.Keys);
    if R.Terminal(response) {
      assert R.Heard(peer, response).remaining == {};
    } else {
      HeardContinue(group.members.Keys, peer, response);
    }
  }

  /** Peer `p` takes the requests `answered` off its list; nothing else changes. */
  ghost predicate Answers(group: R.Group, group1: R.Group, p: nat, answered: set<string>) {
    && p < |group.peers| && |group1.peers| == |group.peers|
    && group1.members == group.members && group1.progress == group.progress
    && answered <= group.peers[p].remaining
    && group1.peers[p].remaining == group.peers[p].remaining - answered
    && forall i :: 0 <= i < |group.peers| && i != p ==> group1.peers[i] == group.peers[i]
  }

  lemma AnsweredPending(group: R.Group, group1: R.Group, p: nat, answered: set<string>, q: string)
    requires Answers(group, group1, p, answered)
    ensures Pending(group1, q) == Pending(group, q) - (if q in answered then {p} else {})
    ensures q in answered ==> p in Pending(group, q)
  {
  }

  lemma SettledPending(group: R.Group, q: string)
    ensures Settled(group, q) <==>
              !group.progress.Discovering? && !group.progress.Stuck? && Pending(group, q) == {}
  {
    if Pending(group, q) == {} {
      forall p | 0 <= p < |group.peers|
        ensures q !in group.peers[p].remaining
      {
        assert p !in Pending(group, q);
      }
    }
  }

  /** A request is settled by the last answer: the count of outstanding P ranks goes from one to zero. */
  lemma AnsweredSettles(group: R.Group, group1: R.Group, p: nat, answered: set<string>, q: string)
    requires Answers(group, group1, p, answered) && group.progress.Pulling?
    ensures Settled(group1, q) <==> Settled(group, q) || (q in answered && |Pending(group, q)| == 1)
    ensures q in answered ==> !Settled(group, q)
  {
    AnsweredPending(group, group1, p, answered, q);
    SettledPending(group, q);
    SettledPending(group1, q);
    if q in answered && |Pending(group, q)| == 1 {
      assert |Pending(group1, q)| == 0;
    }
  }

  lemma ProcessCounts(group: R.Group, group1: R.Group, p: nat, answered: set<string>, q: string)
    requires Answers(group, group1, p, answered) && q in group.counts && q in group1.counts
    requires group.counts[q] == |Pending(group, q)| && group1.counts == R.CountDown(group.counts, answered)
    ensures group1.counts[q] == |Pending(group1, q)|
  {
    AnsweredPending(group, group1, p, answered, q);
  }

  lemma ProcessAnswers(group: R.Group, group1: R.Group, p: nat, response: Response, error: bool)
    requires p < |group.peers| && group.peers[p].open && PeerValid(group.members.Keys, group.peers[p], error)
    requires R.Acceptable(group, group.peers[p], response)
    requires group1 == group.(counts := R.CountDown(group.counts, R.AnsweredBy(response, group.peers[p])),
                              peers := group.peers[p := R.Heard(group.peers[p], response)])
    ensures Answers(group, group1, p, R.AnsweredBy(response, group.peers[p]))
  {
    AcceptableSplit(group, group.peers[p], response, error);
    assert group1.peers[p].remaining == group.peers[p].remaining - R.AnsweredBy(response, group.peers[p]);
  }

  lemma ProcessGroup(group: R.Group, group1: R.Group, p: nat, response: Response, error: bool)
    requires GroupValid(group, error) && group.progress.Pulling? && p < |group.peers| && group.peers[p].open
    requires R.Acceptable(group, group.peers[p], response)
    requires group1 == group.(counts := R.CountDown(group.counts, R.AnsweredBy(response, group.peers[p])),
                              peers := group.peers[p := R.Heard(group.peers[p], response)])
    ensures GroupValid(group1, error)
    ensures Answers(group, group1, p, R.AnsweredBy(response, group.peers[p]))
  {
    var answered := R.AnsweredBy(response, group.peers[p]);
    HeardPeer(group, group.peers[p], response, error);
    ProcessAnswers(group, group1, p, response, error);
    forall q | q in group1.members
      ensures group1.counts[q] == |Pending(group1, q)|
    {
      ProcessCounts(group, group1, p, answered, q);
    }
  }

  lemma ProcessFaults(group: R.Group, group1: R.Group, p: nat, errs: set<string>, q: string)
    requires p < |group.peers| && |group1.peers| == |group.peers| && group1.progress == group.progress
    requires group1.peers[p].errs == group.peers[p].errs + errs
    requires forall i :: 0 <= i < |group.peers| && i != p ==> group1.peers[i] == group.peers[i]
    ensures Faulty(group1, q) <==> Faulty(group, q) || q in errs
  {
    if q in errs {
      assert q in group1.peers[p].errs;
    }
    if i :| 0 <= i < |group.peers| && q in group.peers[i].errs {
      assert q in group1.peers[i].errs;
    }
  }

  lemma ProcessInv(s: R.Receiver, g: nat, p: nat, response: Response)
    requires Inv(s) && R.OpenPeer(s, g, p) && R.Acceptable(s.groups[g], s.groups[g].peers[p], response)
    ensures Inv(R.Process(s, g, p, response))
    ensures var group := s.groups[g];
            GroupAdvances(group, R.Process(s, g, p, response).groups[g],
                          R.Completed(group.counts, R.AnsweredBy(response, group.peers[p])),
                          R.Errors(response, group.peers[p].remaining))
  {
    var group, group1 := s.groups[g], R.Process(s, g, p, response).groups[g];
    var answered := R.AnsweredBy(response, group.peers[p]);
    var done, errs := R.Completed(group.counts, answered), R.Errors(response, group.peers[p].remaining);
    ProcessGroup(group, group1, p, response, s.error);
    assert PeerValid(group.members.Keys, group.peers[p], s.error);
    forall q
      ensures q in group.members ==> (Settled(group1, q) <==> Settled(group, q) || q in done)
      ensures q in done || q in errs ==> !Settled(group, q)
      ensures Faulty(group1, q) <==> Faulty(group, q) || q in errs
    {
      AnsweredSettles(group, group1, p, answered, q);
      ProcessFaults(group, group1, p, errs, q);
    }
    AdvanceInv(s, g, group1, done, errs);
    assert R.Process(s, g, p, response) == Advance(s, g, group1, done, errs);
  }

  /** The peer still answers for the same requests, and as badly. */
  lemma SamePeerRequest(group: R.Group, group1: R.Group, p: nat, peer: R.Peer, q: string)
    requires group.progress.Pulling? && p < |group.peers|
    requires peer.remaining == group.peers[p].remaining && peer.errs == group.peers[p].errs
    requires group1 == group.(peers := group.peers[p := peer])
    ensures Settled(group1, q) <==> Settled(group, q)
    ensures Faulty(group1, q) <==> Faulty(group, q)
    ensures Pending(group1, q) == Pending(group, q)
  {
    AnsweredPending(group, group1, p, {}, q);
    AnsweredSettles(group, group1, p, {}, q);
    ProcessFaults(group, group1, p, {}, q);
  }

  /** Changes of a peer that no other part looks at. */
  lemma SamePeerGroup(group: R.Group, group1: R.Group, p: nat, peer: R.Peer, error: bool)
    requires GroupValid(group, error) && group.progress.Pulling? && p < |group.peers|
    requires PeerValid(group.members.Keys, peer, error)
    requires peer.remaining == group.peers[p].remaining && peer.errs == group.peers[p].errs
    requires group1 == group.(peers := group.peers[p := peer])
    ensures GroupValid(group1, error) && GroupAdvances(group, group1, {}, {})
  {
    forall q
      ensures Settled(group1, q) <==> Settled(group, q)
      ensures Faulty(group1, q) <==> Faulty(group, q)
      ensures Pending(group1, q) == Pending(group, q)
    {
      SamePeerRequest(group, group1, p, peer, q);
    }
    forall k | 0 <= k < |group1.peers|
      ensures PeerValid(group1.members.Keys, group1.peers[k], error)
    {
      assert k != p ==> PeerValid(group.members.Keys, group.peers[k], error);
    }
  }

  lemma SamePeerInv(s: R.Receiver, g: nat, p: nat, peer: R.Peer)
    requires Inv(s) && R.OpenPeer(s, g, p) && PeerValid(s.groups[g].members.Keys, peer, s.error)
    requires peer.remaining == s.groups[g].peers[p].remaining && peer.errs == s.groups[g].peers[p].errs
    ensures Inv(s.(groups := s.groups[g := s.groups[g].(peers := s.groups[g].peers[p := peer])]))
  {
    var group1 := s.groups[g].(peers := s.groups[g].peers[p := peer]);
    SamePeerGroup(s.groups[g], group1, p, peer, s.error);
    QuietAdvance(s, g, group1);
  }

  lemma ConnectInv(s: R.Receiver, g: nat, p: nat)
    requires Inv(s) && R.OpenPeer(s, g, p)
    ensures Inv(R.Connect(s, g, p))
  {
    assert GroupValid(s.groups[g], s.error);
    SamePeerInv(s, g, p, s.groups[g].peers[p].(published := true));
  }

  /** Raising the fatal error marks every future as done. */
  function Fail(s: R.Receiver): R.Receiver {
    s.(error := true, futures := R.MarkDone(s.futures, s.futures.Keys))
  }

  lemma FailInv(s: R.Receiver)
    requires Inv(s)
    ensures Inv(Fail(s))
  {
    var s1 := Fail(s);
    forall q | q in s1.events
      ensures EventValid(s1, q)
    {
      assert EventValid(s, q);
    }
    forall g: nat, q | g < |s1.groups| && q in s1.groups[g].members
      ensures MemberValid(s1, g, q)
    {
      assert MemberValid(s, g, q);
    }
    forall g | 0 <= g < |s1.groups|
      ensures GroupValid(s1.groups[g], true)
    {
      assert GroupValid(s.groups[g], s.error);
    }
  }

  lemma LoseInv(s: R.Receiver, g: nat, p: nat)
    requires Inv(s) && R.OpenPeer(s, g, p)
    ensures Inv(R.Lose(s, g, p))
  {
    var peer := s.groups[g].peers[p];
    if peer.published && peer.remaining != {} {
      FailInv(s);
      assert GroupValid(s.groups[g], s.error);
      SamePeerInv(Fail(s), g, p, peer.(open := false));
    } else {
      ProcessInv(s, g, p, Response(ERROR, [], []));
    }
  }

  // ---------------------------------------------------------------- starting

  lemma AddEventKeeps(s: R.Receiver, e: R.RecvEvent, g: nat, q: string)
    requires g <= |s.groups| && e.request !in s.events && q in s.events && q in s.futures && EventValid(s, q)
    requires g < |s.groups| ==> s.groups[g].progress.Discovering?
    ensures q in R.AddEvent(s, e, g).futures && EventValid(R.AddEvent(s, e, g), q)
  {
    var s1 := R.AddEvent(s, e, g);
    assert s1.groups[s.events[q].group].peers == s.groups[s.events[q].group].peers;
  }

  lemma AddEventNew(s: R.Receiver, e: R.RecvEvent, g: nat)
    requires g <= |s.groups| && e.request !in s.finished && e.request !in s.failed && !s.error
    requires g < |s.groups| ==> s.groups[g].progress.Discovering? && s.groups[g].peers == []
    requires e.transferId !in s.retired
    ensures EventValid(R.AddEvent(s, e, g), e.request)
  {
  }

  lemma AddEventDistinct(s: R.Receiver, e: R.RecvEvent, g: nat)
    requires DistinctTransfers(s.events) && g <= |s.groups| && e.transferId !in R.TransferIds(s)
    ensures DistinctTransfers(R.AddEvent(s, e, g).events)
  {
    assert forall q :: q in s.events ==> s.events[q].transferId in R.TransferIds(s);
  }

  lemma AddEventEvents(s: R.Receiver, e: R.RecvEvent, g: nat)
    requires EventsValid(s) && !s.error && g <= |s.groups|
    requires g < |s.groups| ==> s.groups[g].progress.Discovering? && s.groups[g].peers == []
    requires e.request !in s.events && e.transferId !in s.retired && e.transferId !in R.TransferIds(s)
    ensures EventsValid(R.AddEvent(s, e, g))
  {
    var s1 := R.AddEvent(s, e, g);
    AddEventDistinct(s, e, g);
    assert s1.futures.Keys == s1.events.Keys;
    forall q | q in s1.events
      ensures EventValid(s1, q)
    {
      if q == e.request {
        AddEventNew(s, e, g);
      } else {
        AddEventKeeps(s, e, g, q);
      }
    }
  }

  lemma AddEventMembers(s: R.Receiver, e: R.RecvEvent, g: nat)
    requires MembersValid(s) && g <= |s.groups|
    requires g < |s.groups| ==> s.groups[g].progress.Discovering?
    requires e.request !in s.events
    ensures MembersValid(R.AddEvent(s, e, g))
  {
    var s1 := R.AddEvent(s, e, g);
    forall h: nat, q | h < |s1.groups| && q in s1.groups[h].members
      ensures MemberValid(s1, h, q)
    {
      if h < |s.groups| && q in s.groups[h].members {
        assert MemberValid(s, h, q);
      }
    }
  }

  lemma AddEventInv(s: R.Receiver, e: R.RecvEvent, g: nat)
    requires Inv(s) && !s.error && g <= |s.groups| && (g < |s.groups| ==> s.groups[g].progress.Discovering?)
    requires e.request !in s.events && e.transferId !in s.retired && e.transferId !in R.TransferIds(s)
    ensures Inv(R.AddEvent(s, e, g))
  {
    AddEventGroups(s, e, g);
    assert g < |s.groups| ==> GroupValid(s.groups[g], s.error);
    AddEventEvents(s, e, g);
    AddEventMembers(s, e, g);
  }

  lemma AddEventGroups(s: R.Receiver, e: R.RecvEvent, g: nat)
    requires GroupsValid(s) && g <= |s.groups| && (g < |s.groups| ==> s.groups[g].progress.Discovering?)
    ensures GroupsValid(R.AddEvent(s, e, g))
    ensures R.AddEvent(s, e, g).groups[g].progress.Discovering? && R.AddEvent(s, e, g).groups[g].peers == []
    ensures forall h :: 0 <= h < |s.groups| && h != g ==> R.AddEvent(s, e, g).groups[h] == s.groups[h]
  {
    if g < |s.groups| {
      assert GroupValid(s.groups[g], s.error);
    }
  }

  /** What registering one event after the other keeps. */
  ghost predicate Registered(s: R.Receiver, s1: R.Receiver, of: map<string, nat>) {
    && Inv(s1) && !s1.error && s1.retired == s.retired && s.groups <= s1.groups
    && forall n :: n in of ==> |s.groups| <= of[n] < |s1.groups| && s1.groups[of[n]].progress.Discovering?
  }

  lemma RegisterOne(s: R.Receiver, s1: R.Receiver, of: map<string, nat>, e: R.RecvEvent)
    requires Registered(s, s1, of)
    requires e.request !in s1.events && e.transferId !in s.retired && e.transferId !in R.TransferIds(s1)
    ensures var g := if e.engine in of then of[e.engine] else |s1.groups|;
            Registered(s, R.AddEvent(s1, e, g), of[e.engine := g])
  {
    var g := if e.engine in of then of[e.engine] else |s1.groups|;
    AddEventInv(s1, e, g);
    AddEventGroups(s1, e, g);
  }

  function RequestsOf(events: seq<R.RecvEvent>): set<string> {
    set e | e in events :: e.request
  }

  function TransfersOf(events: seq<R.RecvEvent>): set<string> {
    set e | e in events :: e.transferId
  }

  lemma NamesSnoc(events: seq<R.RecvEvent>)
    requires events != []
    ensures var n := |events| - 1;
            && RequestsOf(events) == RequestsOf(events[..n]) + {events[n].request}
            && TransfersOf(events) == TransfersOf(events[..n]) + {events[n].transferId}
  {
    var n := |events| - 1;
    assert forall x :: x in events <==> x in events[..n] || x == events[n];
  }

  lemma CanRegisterPrefix(s: R.Receiver, events: seq<R.RecvEvent>, n: nat)
    requires R.CanRegister(s, events) && n <= |events|
    ensures R.CanRegister(s, events[..n])
  {
    forall i: nat | i < n
      ensures R.IsNew(s, events[..n], i)
    {
      assert R.IsNew(s, events, i);
    }
  }

  lemma {:induction false} RegisterIds(s: R.Receiver, events: seq<R.RecvEvent>)
    requires R.CanRegister(s, events)
    ensures R.Register(s, events).0.events.Keys == s.events.Keys + RequestsOf(events)
    ensures R.TransferIds(R.Register(s, events).0) == R.TransferIds(s) + TransfersOf(events)
  {
    if events != [] {
      var n := |events| - 1;
      var e := events[n];
      CanRegisterPrefix(s, events, n);
      RegisterIds(s, events[..n]);
      NamesSnoc(events);
      NotRepeated(s, events);
      var (s1, of) := R.Register(s, events[..n]);
      AddEventIds(s1, e, if e.engine in of then of[e.engine] else |s1.groups|);
    }
  }

  /** The last event is new and repeats none before it. */
  lemma NotRepeated(s: R.Receiver, events: seq<R.RecvEvent>)
    requires R.CanRegister(s, events) && events != []
    ensures var n := |events| - 1;
            && events[n].request !in s.events.Keys + RequestsOf(events[..n])
            && events[n].transferId !in s.retired
            && events[n].transferId !in R.TransferIds(s) + TransfersOf(events[..n])
  {
    assert R.IsNew(s, events, |events| - 1);
  }

  /** The events accepted so far are registered; their groups are new and wait for their engine. */
  lemma {:induction false} RegisterInv(s: R.Receiver, events: seq<R.RecvEvent>)
    requires Inv(s) && !s.error && R.CanRegister(s, events)
    ensures Registered(s, R.Register(s, events).0, R.Register(s, events).1)
  {
    if events != [] {
      var n := |events| - 1;
      CanRegisterPrefix(s, events, n);
      RegisterInv(s, events[..n]);
      RegisterIds(s, events[..n]);
      NotRepeated(s, events);
      var (s1, of) := R.Register(s, events[..n]);
      RegisterOne(s, s1, of, events[n]);
    }
  }

  lemma AddEventIds(s: R.Receiver, e: R.RecvEvent, g: nat)
    requires g <= |s.groups| && e.request !in s.events
    ensures R.TransferIds(R.AddEvent(s, e, g)) == R.TransferIds(s) + {e.transferId}
  {
    var s1 := R.AddEvent(s, e, g);
    forall t
      ensures t in R.TransferIds(s1) <==> t in R.TransferIds(s) || t == e.transferId
    {
      assert e.request in s1.events && s1.events[e.request].transferId == e.transferId;
      if t in R.TransferIds(s) {
        var q :| q in s.events && s.events[q].transferId == t;
        assert q in s1.events && s1.events[q].transferId == t;
      }
    }
  }

  // ---------------------------------------------------------------- collecting

  lemma RetireEvents(s: R.Receiver, gone: set<string>)
    requires EventsValid(s)
    ensures EventsValid(R.Retire(s, gone))
  {
    forall q | q in R.Retire(s, gone).events
      ensures EventValid(R.Retire(s, gone), q)
    {
      assert EventValid(s, q);
    }
  }

  lemma RetireInv(s: R.Receiver, gone: set<string>)
    requires Inv(s) && forall q :: q in gone && q in s.events ==> q in s.finished
    ensures Inv(R.Retire(s, gone))
  {
    RetireEvents(s, gone);
  }

  lemma InvIgnoresReports(s: R.Receiver, invalid: map<string, set<int>>, fencing: Option<set<string>>)
    requires Inv(s)
    ensures Inv(s.(invalid := invalid, fencing := fencing))
  {
    var s1 := s.(invalid := invalid, fencing := fencing);
    forall q | q in s1.events
      ensures EventValid(s1, q)
    {
      assert EventValid(s, q);
    }
    forall g: nat, q | g < |s1.groups| && q in s1.groups[g].members
      ensures MemberValid(s1, g, q)
    {
      assert MemberValid(s, g, q);
    }
  }

  lemma FetchInv(s: R.Receiver)
    requires Inv(s)
    ensures Inv(R.Fetch(s))
  {
    if !s.error {
      RetireInv(s, s.finished);
      var s1 := R.Retire(s, s.finished);
      InvIgnoresReports(s1, R.Fetch(s).invalid, s1.fencing);
    }
  }

  /** When a fence returns normally, everything it waited for is finished. */
  lemma FencedIsFinished(s: R.Receiver)
    requires Inv(s) && R.Enabled(s, R.DoFenceEnd) && !s.error
    ensures forall q :: q in s.fencing.value && q in s.events ==> q in s.finished
  {
    forall q | q in s.fencing.value && q in s.events
      ensures q in s.finished
    {
      assert EventValid(s, q);
    }
  }

  lemma FenceEndInv(s: R.Receiver)
    requires Inv(s) && R.Enabled(s, R.DoFenceEnd)
    ensures Inv(R.FenceEnd(s))
  {
    if s.error {
      InvIgnoresReports(s, s.invalid, None);
    } else {
      FencedIsFinished(s);
      RetireInv(s, s.fencing.value);
      var s1 := R.Retire(s, s.fencing.value);
      InvIgnoresReports(s1, R.FenceEnd(s).invalid, None);
    }
  }

  // ---------------------------------------------------------------- whole runs

  lemma StepInv(s: R.Receiver, step: R.Step)
    requires Inv(s) && R.Enabled(s, step)
    ensures Inv(R.Apply(s, step))
  {
    match step
    case DoStart(events) => if !s.error && R.CanRegister(s, events) { RegisterInv(s, events); }
    case DoEngineMissing(g) => EngineMissingInv(s, g);
    case DoResolve(g, remoteSize) => ResolveInv(s, g, remoteSize);
    case DoAbandon(g) => AbandonInv(s, g);
    case DoConnect(g, p) => ConnectInv(s, g, p);
    case DoProcess(g, p, response) => ProcessInv(s, g, p, response);
    case DoLose(g, p) => LoseInv(s, g, p);
    case DoFetch => FetchInv(s);
    case DoTakeErrors => InvIgnoresReports(s, map[], s.fencing);
    case DoFenceBegin(ids) => InvIgnoresReports(s, s.invalid, Some(ids));
    case DoFenceEnd => FenceEndInv(s);
  }

  lemma {:induction false} RunInv(run: seq<R.Receiver>, steps: seq<R.Step>, i: nat)
    requires R.IsRun(run, steps) && i < |run|
    ensures Inv(run[i])
  {
    if i > 0 {
      RunInv(run, steps, i - 1);
      StepInv(run[i - 1], steps[i - 1]);
    }
  }

  // ---------------------------------------------------------------- each receive finishes once

  /** The requests of group `g` that a response of peer `p` of group `h` finishes. */
  function FinishedBy(s: R.Receiver, h: nat, p: nat, response: Response, g: nat): set<string>
    requires g < |s.groups|
  {
    if g == h && p < |s.groups[g].peers| then
      R.Completed(s.groups[g].counts, R.AnsweredBy(response, s.groups[g].peers[p]))
    else {}
  }

  /** A connection fails while its P rank may be writing. */
  predicate Fatal(s: R.Receiver, h: nat, p: nat) {
    h < |s.groups| && p < |s.groups[h].peers| && s.groups[h].peers[p].published && s.groups[h].peers[p].remaining != {}
  }

  const REFUSAL := Response(ERROR, [], [])

  /** The requests of group `g` that a step finishes. */
  function Finishes(s: R.Receiver, step: R.Step, g: nat): set<string>
    requires g < |s.groups|
  {
    match step
    case DoEngineMissing(h) => if g == h then s.groups[g].members.Keys else {}
    case DoProcess(h, p, response) => FinishedBy(s, h, p, response, g)
    case DoLose(h, p) => if Fatal(s, h, p) then {} else FinishedBy(s, h, p, REFUSAL, g)
    case _ => {}
  }

  ghost predicate SettlesExactly(s: R.Receiver, s1: R.Receiver, g: nat, q: string, finishes: set<string>)
    requires g < |s.groups| && q in s.groups[g].members
  {
    && g < |s1.groups| && q in s1.groups[g].members
    && (Settled(s1.groups[g], q) <==> Settled(s.groups[g], q) || q in finishes)
    && (q in finishes ==> !Settled(s.groups[g], q))
  }

  /** A step finishes exactly the receives that it settles, those whose last P rank answers in it. */
  lemma FinishesSettles(s: R.Receiver, step: R.Step, g: nat, q: string)
    requires Inv(s) && R.Enabled(s, step) && g < |s.groups| && q in s.groups[g].members
    ensures SettlesExactly(s, R.Apply(s, step), g, q, Finishes(s, step, g))
  {
    match step
    case DoStart(events) => StartFinishes(s, events, g, q);
    case DoProcess(h, p, response) => ProcessFinishes(s, h, p, response, g, q);
    case DoLose(h, p) => if Fatal(s, h, p) { FatalFinishes(s, h, p, g, q); } else { HarmlessFinishes(s, h, p, g, q); }
    case DoResolve(h, remoteSize) => ResolveFinishes(s, h, remoteSize, g, q);
    case DoAbandon(h) => AbandonFinishes(s, h, g, q);
    case DoConnect(h, p) => ConnectFinishes(s, h, p, g, q);
    case DoEngineMissing(h) => MissingFinishes(s, h, g, q);
    case _ => assert R.Apply(s, step).groups == s.groups;
  }

  lemma StartFinishes(s: R.Receiver, events: seq<R.RecvEvent>, g: nat, q: string)
    requires Inv(s) && g < |s.groups| && q in s.groups[g].members
    ensures SettlesExactly(s, R.Start(s, events), g, q, {})
  {
    if !s.error && R.CanRegister(s, events) {
      RegisterInv(s, events);
    }
  }

  lemma ResolveFinishes(s: R.Receiver, h: nat, remoteSize: int, g: nat, q: string)
    requires Inv(s) && R.Enabled(s, R.DoResolve(h, remoteSize)) && g < |s.groups| && q in s.groups[g].members
    ensures SettlesExactly(s, R.Resolve(s, h, remoteSize), g, q, {})
  {
    if T.IntegerRatio(s.size, remoteSize) {
      assert GroupValid(s.groups[h], s.error);
      var n := |T.Targets(s.rank, s.size, remoteSize)|;
      T.TargetsInRange(s.rank, s.size, remoteSize);
      SpawnGroup(s.groups[h], R.Spawn(s, h, remoteSize, n).groups[h], remoteSize, n, s.error);
    } else {
      AbandonFinishes(s, h, g, q);
    }
  }

  lemma AbandonFinishes(s: R.Receiver, h: nat, g: nat, q: string)
    requires Inv(s) && h < |s.groups| && s.groups[h].progress.Discovering? && g < |s.groups| && q in s.groups[g].members
    ensures SettlesExactly(s, R.Abandon(s, h), g, q, {})
  {
  }

  lemma ProcessFinishes(s: R.Receiver, h: nat, p: nat, response: Response, g: nat, q: string)
    requires Inv(s) && R.OpenPeer(s, h, p) && R.Acceptable(s.groups[h], s.groups[h].peers[p], response)
    requires g < |s.groups| && q in s.groups[g].members
    ensures SettlesExactly(s, R.Process(s, h, p, response), g, q, FinishedBy(s, h, p, response, g))
  {
    ProcessInv(s, h, p, response);
  }

  lemma MissingFinishes(s: R.Receiver, h: nat, g: nat, q: string)
    requires GroupsValid(s) && R.Enabled(s, R.DoEngineMissing(h)) && g < |s.groups| && q in s.groups[g].members
    ensures SettlesExactly(s, R.EngineMissing(s, h), g, q, Finishes(s, R.DoEngineMissing(h), g))
  {
    assert GroupValid(s.groups[h], s.error);
  }

  lemma ConnectFinishes(s: R.Receiver, h: nat, p: nat, g: nat, q: string)
    requires R.OpenPeer(s, h, p) && g < |s.groups| && q in s.groups[g].members
    ensures SettlesExactly(s, R.Connect(s, h, p), g, q, {})
  {
    if g == h {
      AnsweredSettles(s.groups[g], R.Connect(s, h, p).groups[g], p, {}, q);
    }
  }

  lemma FatalFinishes(s: R.Receiver, h: nat, p: nat, g: nat, q: string)
    requires R.OpenPeer(s, h, p) && Fatal(s, h, p) && g < |s.groups| && q in s.groups[g].members
    ensures SettlesExactly(s, R.Lose(s, h, p), g, q, {})
  {
    if g == h {
      AnsweredSettles(s.groups[g], R.Lose(s, h, p).groups[g], p, {}, q);
    }
  }

  lemma HarmlessIsRefusal(s: R.Receiver, h: nat, p: nat, g: nat)
    requires R.OpenPeer(s, h, p) && !Fatal(s, h, p) && g < |s.groups|
    ensures R.Acceptable(s.groups[h], s.groups[h].peers[p], REFUSAL)
    ensures R.Lose(s, h, p) == R.Process(s, h, p, REFUSAL)
    ensures Finishes(s, R.DoLose(h, p), g) == FinishedBy(s, h, p, REFUSAL, g)
  {
  }

  lemma HarmlessFinishes(s: R.Receiver, h: nat, p: nat, g: nat, q: string)
    requires Inv(s) && R.OpenPeer(s, h, p) && !Fatal(s, h, p) && g < |s.groups| && q in s.groups[g].members
    ensures SettlesExactly(s, R.Lose(s, h, p), g, q, Finishes(s, R.DoLose(h, p), g))
  {
    HarmlessIsRefusal(s, h, p, g);
    ProcessFinishes(s, h, p, REFUSAL, g, q);
  }

  lemma FinishesKeepsEvents(s: R.Receiver, step: R.Step, g: nat)
    requires R.Enabled(s, step) && g < |s.groups| && Finishes(s, step, g) != {}
    ensures R.Apply(s, step).events == s.events
  {
  }

  /**
   Composition with the sender. Whatever a handler of the sender loop sends, in any of its runs, is acceptable to the
   peer that pulled from it and has received the messages before.
   */
  lemma SenderIsAcceptable(run: seq<State>, steps: seq<Step>, i: nat, h: nat, k: nat, group: R.Group, peer: R.Peer)
    requires IsRun(run, steps) && i < |run| && h < |run[i].handlers| && k < |run[i].handlers[h].out|
    requires run[i].handlers[h].pulled == group.members.Keys && peer.heard == run[i].handlers[h].out[..k]
    ensures R.Acceptable(group, peer, run[i].handlers[h].out[k])
  {
    var out := run[i].handlers[h].out;
    ResponseStreams(run, steps, i, h);
    StreamPrefix(out, group.members.Keys, k + 1);
    assert out[..k + 1] == out[..k] + [out[k]];
  }

  // ---------------------------------------------------------------- what is settled stays settled

  lemma StepSettled(s: R.Receiver, step: R.Step, g: nat, q: string)
    requires Inv(s) && R.Enabled(s, step) && g < |s.groups| && q in s.groups[g].members && Settled(s.groups[g], q)
    ensures var s1 := R.Apply(s, step);
            g < |s1.groups| && q in s1.groups[g].members && Settled(s1.groups[g], q)
  {
    FinishesSettles(s, step, g, q);
  }

  lemma {:induction false} SettledForever(run: seq<R.Receiver>, steps: seq<R.Step>, i: nat, j: nat, g: nat, q: string)
    requires R.IsRun(run, steps) && i <= j < |run|
    requires g < |run[i].groups| && q in run[i].groups[g].members && Settled(run[i].groups[g], q)
    ensures g < |run[j].groups| && q in run[j].groups[g].members && Settled(run[j].groups[g], q)
  {
    if i < j {
      SettledForever(run, steps, i, j - 1, g, q);
      RunInv(run, steps, j - 1);
      StepSettled(run[j - 1], steps[j - 1], g, q);
    }
  }

  /** Main result. In every run, a receive is finished at most once. */
  lemma FinishedOnce(run: seq<R.Receiver>, steps: seq<R.Step>, i: nat, j: nat, g: nat, q: string)
    requires R.IsRun(run, steps) && i < j < |steps| && g < |run[i].groups| && q in run[i].groups[g].members
    requires q in Finishes(run[i], steps[i], g)
    ensures g < |run[j].groups| && q !in Finishes(run[j], steps[j], g)
  {
    RunInv(run, steps, i);
    FinishesSettles(run[i], steps[i], g, q);
    SettledForever(run, steps, i + 1, j, g, q);
    RunInv(run, steps, j);
    FinishesSettles(run[j], steps[j], g, q);
  }

  /**
   A step of a run that finishes a receive leaves it to be collected, as failed exactly when the engine is unknown or
   some P rank answered with an error.
   */
  lemma FinishedReport(run: seq<R.Receiver>, steps: seq<R.Step>, i: nat, g: nat, q: string)
    requires R.IsRun(run, steps) && i < |steps| && g < |run[i].groups| && q in run[i].groups[g].members
    requires q in Finishes(run[i], steps[i], g)
    ensures var s1 := run[i + 1];
            && g < |s1.groups| && q in s1.finished && Current(s1, g, q)
            && (q in s1.failed <==> Faulty(s1.groups[g], q))
  {
    RunInv(run, steps, i);
    RunInv(run, steps, i + 1);
    FinishesSettles(run[i], steps[i], g, q);
    FinishesKeepsEvents(run[i], steps[i], g);
    assert MemberValid(run[i], g, q);
    assert EventValid(run[i + 1], q);
  }

  /** Every P rank of the group has answered for `q`. */
  ghost predicate AllAnswered(group: R.Group, q: string) {
    forall p :: 0 <= p < |group.peers| ==> q in group.peers[p].oks || q in group.peers[p].errs
  }

  lemma FinishedIsAnswered(s: R.Receiver, q: string)
    requires Inv(s) && q in s.finished
    ensures q in s.events && s.events[q].group < |s.groups|
    ensures AllAnswered(s.groups[s.events[q].group], q)
    ensures forall p :: 0 <= p < |s.groups[s.events[q].group].peers| ==>
              (q in s.groups[s.events[q].group].peers[p].oks <==> q !in s.groups[s.events[q].group].peers[p].errs)
  {
    assert EventValid(s, q);
    var group := s.groups[s.events[q].group];
    assert GroupValid(group, s.error);
    forall p | 0 <= p < |group.peers|
      ensures q in group.peers[p].oks <==> q !in group.peers[p].errs
    {
      assert PeerValid(group.members.Keys, group.peers[p], s.error);
      assert q in group.peers[p].oks + group.peers[p].errs + group.peers[p].remaining;
      assert q !in group.peers[p].oks * group.peers[p].errs;
    }
  }

  /**
   Main result. What `Fetch` reports is finished because all paired P ranks answered, and it is reported as a success
   exactly when the engine was known and every one of them said ok.
   */
  lemma ReportedAsAnswered(run: seq<R.Receiver>, steps: seq<R.Step>, i: nat, q: string)
    requires R.IsRun(run, steps) && i < |run| && q in run[i].finished
    ensures q in run[i].events && run[i].events[q].group < |run[i].groups|
    ensures var group := run[i].groups[run[i].events[q].group];
            && AllAnswered(group, q)
            && (q !in run[i].failed <==>
                group.progress.Pulling? && forall p :: 0 <= p < |group.peers| ==> q in group.peers[p].oks)
  {
    RunInv(run, steps, i);
    FinishedIsAnswered(run[i], q);
    assert EventValid(run[i], q);
  }

  /** No completion is lost: when every connection of a group has ended without a loss, all its receives are settled. */
  lemma NoLostCompletion(run: seq<R.Receiver>, steps: seq<R.Step>, i: nat, g: nat, q: string)
    requires R.IsRun(run, steps) && i < |run| && !run[i].error && g < |run[i].groups|
    requires run[i].groups[g].progress.Pulling? && q in run[i].groups[g].members
    requires forall p :: 0 <= p < |run[i].groups[g].peers| ==> !run[i].groups[g].peers[p].open
    ensures run[i].groups[g].members[q] in run[i].retired || (Current(run[i], g, q) && q in run[i].finished)
  {
    RunInv(run, steps, i);
  }

  // ---------------------------------------------------------------- destination fence

  /** P rank `p` knows the destination of `q` and has not answered for it. */
  ghost predicate InFlight(s: R.Receiver, g: nat, p: nat, q: string) {
    g < |s.groups| && p < |s.groups[g].peers| && s.groups[g].peers[p].published && q in s.groups[g].peers[p].remaining
  }

  /** A step after which the worker may reuse the blocks of `q`: its result is collected, or its fence returns. */
  ghost predicate GivesBack(s: R.Receiver, step: R.Step, q: string) {
    || (step.DoFetch? && !s.error && q in s.finished)
    || (step.DoFenceEnd? && !s.error && s.fencing.Some? && q in s.fencing.value)
  }

  /** What is given back is settled. */
  lemma GivenBackIsSettled(s: R.Receiver, step: R.Step, g: nat, q: string)
    requires Inv(s) && R.Enabled(s, step) && GivesBack(s, step, q) && g < |s.groups| && q in s.groups[g].members
    ensures Settled(s.groups[g], q)
  {
    if step.DoFenceEnd? {
      FencedIsFinished(s);
    }
    assert MemberValid(s, g, q);
    if Current(s, g, q) {
      assert EventValid(s, q);
    }
  }

  /**
   Main result. Once the blocks of a request are given back, every P rank that was ever told their addresses has
   answered for it, in any later state of any run. `TransferFence` says what the answer means for the P rank's writes.
   */
  lemma DestinationFence(run: seq<R.Receiver>, steps: seq<R.Step>, i: nat, j: nat, g: nat, p: nat, q: string)
    requires R.IsRun(run, steps) && i < |steps| && i <= j < |run| && GivesBack(run[i], steps[i], q)
    requires g < |run[i].groups| && q in run[i].groups[g].members
    ensures !InFlight(run[j], g, p, q)
  {
    RunInv(run, steps, i);
    GivenBackIsSettled(run[i], steps[i], g, q);
    SettledForever(run, steps, i, j, g, q);
  }

  lemma StepAbsorbs(s: R.Receiver, step: R.Step)
    requires R.Enabled(s, step) && s.error
    ensures var s1 := R.Apply(s, step);
            s1.error && s1.events == s.events && s1.invalid == s.invalid && s1.retired == s.retired
  {
  }

  /**
   A lost fence is absorbing: the error stays, every receive future is done so that no waiter blocks, and nothing is
   accepted, reported or given back any more.
   */
  lemma {:induction false} ErrorAbsorbs(run: seq<R.Receiver>, steps: seq<R.Step>, i: nat, j: nat)
    requires R.IsRun(run, steps) && i <= j < |run| && run[i].error
    ensures run[j].error && forall q :: q in run[j].futures ==> run[j].futures[q]
    ensures run[j].fencing.Some? ==> R.Enabled(run[j], R.DoFenceEnd)
    ensures run[j].events == run[i].events && run[j].invalid == run[i].invalid && run[j].retired == run[i].retired
    ensures forall step, q :: !GivesBack(run[j], step, q)
  {
    if i < j {
      ErrorAbsorbs(run, steps, i, j - 1);
      StepAbsorbs(run[j - 1], steps[j - 1]);
    }
    RunInv(run, steps, j);
  }
}
