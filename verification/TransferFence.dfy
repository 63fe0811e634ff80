/**
 A D rank and one of its P ranks run together: blocks that D gives back are no longer written by P.
 */
module TransferFence {
  import S = SendProtocol
  import SR = SendResponses
  import R = ReceiveProtocol
  import F = ReceiveFence

  /** What became of the pull message of a peer: not yet read by P, refused, or served by handler `h`. */
  datatype Link = Unread | Refused | Served(h: nat)

  /** A D rank and a P rank; `link` belongs to peer `k` of group `g`, the task that talks to this P rank. */
  datatype Joint = Joint(d: R.Receiver, p: S.State, link: Link)

  datatype Step = OnD(d: R.Step) | OnP(p: S.Step, serves: bool)

  ghost predicate IsPeer(d: R.Receiver, g: nat, k: nat) {
    g < |d.groups| && k < |d.groups[g].peers|
  }

  /** Responses arrive in order; a P rank that cannot read the message refuses it once and opens no handler. */
  ghost predicate Arrives(j: Joint, g: nat, k: nat, response: S.Response)
    requires IsPeer(j.d, g, k)
  {
    match j.link
    case Unread => response.status == S.ERROR && response.ok == []
    case Refused => false
    case Served(h) =>
      var heard := j.d.groups[g].peers[k].heard;
      h < |j.p.handlers| && |heard| < |j.p.handlers[h].out| && response == j.p.handlers[h].out[|heard|]
  }

  /** The P rank reads the pull message of the peer, which names the requests of its group. */
  ghost predicate Reads(j: Joint, g: nat, k: nat, step: S.Step) {
    && j.link.Unread? && IsPeer(j.d, g, k) && j.d.groups[g].peers[k].published && j.d.groups[g].peers[k].open
    && step.DoOpen? && j.d.groups[g].members.Keys == set x | x in step.pulls :: x.request
  }

  /** Everything else on both sides is arbitrary: other requests, other peers and other D ranks. */
  ghost predicate Enabled(j: Joint, g: nat, k: nat, step: Step) {
    match step
    case OnD(d) =>
      R.Enabled(j.d, d) && (d.DoProcess? && d.g == g && d.p == k ==> Arrives(j, g, k, d.response))
    case OnP(p, serves) => S.Enabled(j.p, p) && (serves ==> Reads(j, g, k, p))
  }

  ghost function Apply(j: Joint, g: nat, k: nat, step: Step): Joint
    requires Enabled(j, g, k, step)
  {
    match step
    case OnD(d) =>
      var refused := d.DoProcess? && d.g == g && d.p == k && j.link.Unread?;
      Joint(R.Apply(j.d, d), j.p, if refused then Refused else j.link)
    case OnP(p, serves) => Joint(j.d, S.Apply(j.p, p), if serves then Served(|j.p.handlers|) else j.link)
  }

  ghost predicate IsRun(g: nat, k: nat, run: seq<Joint>, steps: seq<Step>) {
    && |run| == |steps| + 1 && run[0].p.peers != {}
    && run[0] == Joint(R.Empty(run[0].d.rank, run[0].d.size), S.Init(run[0].p.peers), Unread)
    && forall i :: 0 <= i < |steps| ==> Enabled(run[i], g, k, steps[i]) && run[i + 1] == Apply(run[i], g, k, steps[i])
  }

  // ---------------------------------------------------------------- invariant

  /** Nothing was heard before P has read the message; afterwards D has heard a part of what the handler sent. */
  ghost predicate LinkValid(members: set<string>, peer: R.Peer, p: S.State, link: Link) {
    match link
    case Unread => (peer.open || peer.published ==> peer.remaining == members) && (peer.open ==> peer.heard == [])
    case Refused => true
    case Served(h) =>
      && peer.published && h < |p.handlers| && p.handlers[h].pulled == members
      && (peer.open ==> peer.heard <= p.handlers[h].out)
      && forall q :: q in members && q !in peer.remaining ==> q in SR.Answered(p.handlers[h].out)
  }

  ghost predicate LinkInv(j: Joint, g: nat, k: nat) {
    if IsPeer(j.d, g, k) then
      LinkValid(j.d.groups[g].members.Keys, j.d.groups[g].peers[k], j.p, j.link)
    else j.link.Unread?
  }

  ghost predicate Inv(j: Joint, g: nat, k: nat) {
    F.Inv(j.d) && SR.AllStreams(j.p) && LinkInv(j, g, k)
  }

  // ---------------------------------------------------------------- steps of P

  /** The handler goes on. */
  lemma SenderKeepsLink(members: set<string>, peer: R.Peer, p: S.State, step: S.Step, link: Link)
    requires S.Enabled(p, step) && LinkValid(members, peer, p, link)
    ensures LinkValid(members, peer, S.Apply(p, step), link)
  {
    if link.Served? {
      SR.StepGoesOn(p, step, link.h);
      forall q | q in SR.Answered(p.handlers[link.h].out)
        ensures q in SR.Answered(S.Apply(p, step).handlers[link.h].out)
      {
        SR.AnsweredGrows(p.handlers[link.h].out, S.Apply(p, step).handlers[link.h].out, q);
      }
    }
  }

  lemma ReadLinks(j: Joint, g: nat, k: nat, step: S.Step)
    requires Inv(j, g, k) && S.Enabled(j.p, step) && Reads(j, g, k, step)
    ensures LinkValid(j.d.groups[g].members.Keys, j.d.groups[g].peers[k], S.Apply(j.p, step), Served(|j.p.handlers|))
  {
    SR.OpenTableKeepsHandlers(j.p, step.rank, step.pulls);
  }

  // ---------------------------------------------------------------- steps of D

  /** A response that the peer hears adds what it answers to what the handler answered. */
  lemma HeardAnswers(members: set<string>, peer: R.Peer, p: S.State, h: nat)
    requires LinkValid(members, peer, p, Served(h)) && SR.AllStreams(p)
    requires peer.open && |peer.heard| < |p.handlers[h].out|
    ensures LinkValid(members, R.Heard(peer, p.handlers[h].out[|peer.heard|]), p, Served(h))
  {
    var out, n := p.handlers[h].out, |peer.heard|;
    SR.StreamInvValid(p.handlers[h]);
    assert out[..n + 1] == peer.heard + [out[n]];
    forall q | q in members && q !in R.Heard(peer, out[n]).remaining
      ensures q in SR.Answered(out)
    {
      if q in peer.remaining {
        NamedIsAnswered(out, members, n, q, peer.remaining);
      }
    }
  }

  /** What a response of a valid stream settles is answered by the stream. */
  lemma NamedIsAnswered(out: seq<S.Response>, members: set<string>, n: nat, q: string, remaining: set<string>)
    requires SR.ValidStream(out, members) && n < |out| && q in members && q in remaining
    requires q in R.Elements(out[n].ok) || q in R.Errors(out[n], remaining)
    ensures q in SR.Answered(out)
  {
    if out[n].status == S.FINISH {
      assert q in multiset(SR.Answered(out));
    } else {
      var before := SR.Answered(out[..n]);
      assert out[..n + 1][..n] == out[..n];
      assert SR.Answered(out[..n + 1]) == before + out[n].ok + out[n].err;
      SR.AnsweredGrows(out[..n + 1], out, q);
    }
  }

  /** The peer of the link after a step of D. */
  ghost predicate PeerMoves(members: set<string>, peer: R.Peer, peer1: R.Peer, step: R.Step, g: nat, k: nat) {
    || peer1 == peer
    || (step.DoConnect? && step.g == g && step.p == k && peer1 == peer.(published := true) && !peer.published)
    || (step.DoProcess? && step.g == g && step.p == k && peer.open && peer1 == R.Heard(peer, step.response))
    || (&& !peer1.open && peer1.published == peer.published && peer1.oks == peer.oks
        && (peer.published ==> peer1.remaining == peer.remaining)
        && (peer1.heard == peer.heard || peer1.heard == peer.heard + [S.Response(S.ERROR, [], [])]))
  }

  /** What a step of D does to group `g` and its peer `k`. */
  ghost predicate GroupMoves(d: R.Receiver, d1: R.Receiver, step: R.Step, g: nat, k: nat) {
    && (IsPeer(d, g, k) ==>
         && IsPeer(d1, g, k) && d1.groups[g].members == d.groups[g].members
         && PeerMoves(d.groups[g].members.Keys, d.groups[g].peers[k], d1.groups[g].peers[k], step, g, k))
    && (!IsPeer(d, g, k) && IsPeer(d1, g, k) ==> d1.groups[g].peers[k] == R.NewPeer(d1.groups[g].members.Keys))
  }

  lemma LoseMoves(d: R.Receiver, h: nat, p: nat, g: nat, k: nat)
    requires R.OpenPeer(d, h, p)
    ensures GroupMoves(d, R.Lose(d, h, p), R.DoLose(h, p), g, k)
  {
  }

  lemma ProcessMoves(d: R.Receiver, h: nat, p: nat, response: S.Response, g: nat, k: nat)
    requires R.OpenPeer(d, h, p)
    ensures GroupMoves(d, R.Process(d, h, p, response), R.DoProcess(h, p, response), g, k)
  {
  }

  lemma ResolveMoves(d: R.Receiver, h: nat, remoteSize: int, g: nat, k: nat)
    requires R.Enabled(d, R.DoResolve(h, remoteSize)) && d.groups[h].peers == []
    ensures GroupMoves(d, R.Resolve(d, h, remoteSize), R.DoResolve(h, remoteSize), g, k)
  {
  }

  lemma GroupStep(d: R.Receiver, step: R.Step, g: nat, k: nat)
    requires F.Inv(d) && R.Enabled(d, step)
    ensures GroupMoves(d, R.Apply(d, step), step, g, k)
  {
    assert forall h :: 0 <= h < |d.groups| ==> F.GroupValid(d.groups[h], d.error);
    match step
    case DoStart(events) => StartKeepsPeers(d, events, g, k);
    case DoProcess(h, p, response) => ProcessMoves(d, h, p, response, g, k);
    case DoLose(h, p) => LoseMoves(d, h, p, g, k);
    case DoEngineMissing(_) =>
    case DoResolve(h, remoteSize) => ResolveMoves(d, h, remoteSize, g, k);
    case DoAbandon(_) =>
    case DoConnect(_, _) =>
    case _ => assert R.Apply(d, step).groups == d.groups;
  }

  /** New receives come in new groups, which have no peers yet. */
  lemma StartKeepsPeers(d: R.Receiver, events: seq<R.RecvEvent>, g: nat, k: nat)
    requires F.Inv(d)
    ensures g < |d.groups| ==> g < |R.Start(d, events).groups| && R.Start(d, events).groups[g] == d.groups[g]
    ensures g >= |d.groups| ==> !IsPeer(R.Start(d, events), g, k)
  {
    if !d.error && R.CanRegister(d, events) {
      F.RegisterInv(d, events);
      if g >= |d.groups| {
        NewGroupsWait(d, events, g);
      }
    }
  }

  lemma {:induction false} NewGroupsWait(d: R.Receiver, events: seq<R.RecvEvent>, g: nat)
    requires g >= |d.groups|
    ensures g < |R.Register(d, events).0.groups| ==> R.Register(d, events).0.groups[g].peers == []
  {
    if events != [] {
      NewGroupsWait(d, events[..|events| - 1], g);
    }
  }

  lemma ReceiverKeepsLink(j: Joint, g: nat, k: nat, step: R.Step)
    requires Inv(j, g, k) && Enabled(j, g, k, OnD(step))
    ensures LinkInv(Apply(j, g, k, OnD(step)), g, k)
  {
    GroupStep(j.d, step, g, k);
    if IsPeer(j.d, g, k) && step.DoProcess? && step.g == g && step.p == k && j.link.Served? {
      HeardAnswers(j.d.groups[g].members.Keys, j.d.groups[g].peers[k], j.p, j.link.h);
    }
  }

  lemma StepInv(j: Joint, g: nat, k: nat, step: Step)
    requires Inv(j, g, k) && Enabled(j, g, k, step)
    ensures Inv(Apply(j, g, k, step), g, k)
  {
    match step
    case OnD(d) =>
      F.StepInv(j.d, d);
      ReceiverKeepsLink(j, g, k, d);
    case OnP(p, serves) =>
      SR.StepStreams(j.p, p);
      if serves {
        ReadLinks(j, g, k, p);
      } else if IsPeer(j.d, g, k) {
        SenderKeepsLink(j.d.groups[g].members.Keys, j.d.groups[g].peers[k], j.p, p, j.link);
      }
  }

  lemma {:induction false} RunInv(g: nat, k: nat, run: seq<Joint>, steps: seq<Step>, i: nat)
    requires IsRun(g, k, run, steps) && i < |run|
    ensures Inv(run[i], g, k)
  {
    if i > 0 {
      RunInv(g, k, run, steps, i - 1);
      StepInv(run[i - 1], g, k, steps[i - 1]);
    }
  }

  // ---------------------------------------------------------------- main results

  /**
   Main result. In every joint run, the next response of the handler is one that the peer accepts: neither side can
   block the other by what it sends.
   */
  lemma DeliveryIsAccepted(g: nat, k: nat, run: seq<Joint>, steps: seq<Step>, i: nat)
    requires IsRun(g, k, run, steps) && i < |run| && run[i].link.Served? && R.OpenPeer(run[i].d, g, k)
    ensures var heard := run[i].d.groups[g].peers[k].heard;
            && run[i].link.h < |run[i].p.handlers| && heard <= run[i].p.handlers[run[i].link.h].out
            && (|heard| < |run[i].p.handlers[run[i].link.h].out| ==>
                 Enabled(run[i], g, k, OnD(R.DoProcess(g, k, run[i].p.handlers[run[i].link.h].out[|heard|]))))
  {
    RunInv(g, k, run, steps, i);
    var hd, peer := run[i].p.handlers[run[i].link.h], run[i].d.groups[g].peers[k];
    if |peer.heard| < |hd.out| {
      NextIsAcceptable(hd, run[i].d.groups[g], peer);
    }
  }

  lemma NextIsAcceptable(hd: S.Handler, group: R.Group, peer: R.Peer)
    requires SR.StreamInv(hd) && hd.pulled == group.members.Keys && peer.heard <= hd.out && |peer.heard| < |hd.out|
    ensures R.Acceptable(group, peer, hd.out[|peer.heard|])
  {
    var n := |peer.heard|;
    SR.StreamInvValid(hd);
    SR.StreamPrefix(hd.out, hd.pulled, n + 1);
    assert hd.out[..n + 1] == peer.heard + [hd.out[n]];
  }

  /** Nobody is to answer request `q` of group `g` any more. */
  ghost predicate SettledAt(j: Joint, g: nat, q: string) {
    g < |j.d.groups| && q in j.d.groups[g].members && F.Settled(j.d.groups[g], q)
  }

  lemma SettledStep(j: Joint, g: nat, k: nat, step: Step, q: string)
    requires Inv(j, g, k) && Enabled(j, g, k, step) && SettledAt(j, g, q)
    ensures SettledAt(Apply(j, g, k, step), g, q)
  {
    if step.OnD? {
      F.StepSettled(j.d, step.d, g, q);
    }
  }

  lemma {:induction false} SettledOnD(g: nat, k: nat, run: seq<Joint>, steps: seq<Step>, i: nat, n: nat, q: string)
    requires IsRun(g, k, run, steps) && i <= n < |run| && SettledAt(run[i], g, q)
    ensures SettledAt(run[n], g, q)
  {
    if i < n {
      SettledOnD(g, k, run, steps, i, n - 1, q);
      SettledNext(g, k, run, steps, n - 1, q);
    }
  }

  lemma SettledNext(g: nat, k: nat, run: seq<Joint>, steps: seq<Step>, i: nat, q: string)
    requires IsRun(g, k, run, steps) && i < |steps| && SettledAt(run[i], g, q)
    ensures SettledAt(run[i + 1], g, q)
  {
    RunInv(g, k, run, steps, i);
    SettledStep(run[i], g, k, steps[i], q);
  }

  /** A request that the peer no longer waits for is not written by the handler that serves the peer. */
  lemma SettledIsNotWritten(j: Joint, g: nat, k: nat, q: string)
    requires Inv(j, g, k) && SettledAt(j, g, q) && j.link.Served?
    ensures j.link.h < |j.p.handlers| && !SR.Writes(j.p.handlers[j.link.h], q)
  {
    assert q !in j.d.groups[g].peers[k].remaining;
    SR.AnsweredIsNotWritten(j.p.handlers[j.link.h], q);
  }

  /**
   Main result. Once D gives the blocks of a request back, the handler that was told their addresses is not writing to
   them, then or in any later state of any joint run; and if P has not read the message by then, D is no longer
   connected with P for it, so that P never learns the addresses from it.
   */
  lemma NoWriteAfterGiveBack(g: nat, k: nat, run: seq<Joint>, steps: seq<Step>, i: nat, n: nat, q: string)
    requires IsRun(g, k, run, steps) && i < |steps| && steps[i].OnD? && F.GivesBack(run[i].d, steps[i].d, q)
    requires g < |run[i].d.groups| && q in run[i].d.groups[g].members && i <= n < |run|
    ensures run[n].link.Served? ==>
              run[n].link.h < |run[n].p.handlers| && !SR.Writes(run[n].p.handlers[run[n].link.h], q)
    ensures run[n].link.Unread? ==> !(exists step :: Reads(run[n], g, k, step))
  {
    RunInv(g, k, run, steps, i);
    F.GivenBackIsSettled(run[i].d, steps[i].d, g, q);
    SettledOnD(g, k, run, steps, i, n, q);
    RunInv(g, k, run, steps, n);
    if run[n].link.Served? {
      SettledIsNotWritten(run[n], g, k, q);
    }
  }
}
