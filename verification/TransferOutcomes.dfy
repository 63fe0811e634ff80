/** What D may conclude from an ok: P has ended a write with success. */
module TransferOutcomes {
  import S = SendProtocol
  import O = SendOutcomes
  import SR = SendResponses
  import R = ReceiveProtocol
  import F = ReceiveFence
  import TF = TransferFence

  /** A peer counts exactly those requests as successes that it was heard to call so. */
  ghost predicate OksHeard(peer: R.Peer) {
    forall q :: q in peer.oks <==> O.SaidOk(peer.heard, q)
  }

  lemma SaidOkSnoc(out: seq<S.Response>, response: S.Response, q: string)
    ensures O.SaidOk(out + [response], q) <==> O.SaidOk(out, q) || q in response.ok
  {
    var all := out + [response];
    assert all[|out|] == response;
    if O.SaidOk(out, q) {
      var n :| 0 <= n < |out| && q in out[n].ok;
      assert all[n] == out[n];
    }
  }

  lemma OksStayHeard(members: set<string>, peer: R.Peer, peer1: R.Peer, step: R.Step, g: nat, k: nat)
    requires OksHeard(peer) && TF.PeerMoves(members, peer, peer1, step, g, k)
    ensures OksHeard(peer1)
  {
    forall q: string
      ensures q in peer1.oks <==> O.SaidOk(peer1.heard, q)
    {
      if peer1.heard != peer.heard {
        SaidOkSnoc(peer.heard, peer1.heard[|peer.heard|], q);
      }
    }
  }

  /** Main result. In every run of the receiver, the successes of a peer are those it was heard to say. */
  lemma {:induction false} OksAreHeard(run: seq<R.Receiver>, steps: seq<R.Step>, i: nat, g: nat, k: nat)
    requires R.IsRun(run, steps) && i < |run| && TF.IsPeer(run[i], g, k)
    ensures OksHeard(run[i].groups[g].peers[k])
  {
    F.RunInv(run, steps, i - 1);
    TF.GroupStep(run[i - 1], steps[i - 1], g, k);
    if TF.IsPeer(run[i - 1], g, k) {
      OksAreHeard(run, steps, i - 1, g, k);
      OksStayHeard(run[i].groups[g].members.Keys, run[i - 1].groups[g].peers[k], run[i].groups[g].peers[k],
                   steps[i - 1], g, k);
    }
  }

  // ---------------------------------------------------------------- both loops together

  /** Only the handler that serves the peer is the source of its successes. */
  ghost predicate OksSaid(peer: R.Peer, p: S.State, link: TF.Link) {
    match link
    case Served(h) => h < |p.handlers| && forall q :: q in peer.oks ==> O.SaidOk(p.handlers[h].out, q)
    case _ => peer.oks == {}
  }

  ghost predicate OksInv(j: TF.Joint, g: nat, k: nat) {
    if TF.IsPeer(j.d, g, k) then OksSaid(j.d.groups[g].peers[k], j.p, j.link) else j.link.Unread?
  }

  lemma ReceiverKeepsOks(j: TF.Joint, g: nat, k: nat, step: R.Step)
    requires F.Inv(j.d) && OksInv(j, g, k) && TF.Enabled(j, g, k, TF.OnD(step))
    ensures OksInv(TF.Apply(j, g, k, TF.OnD(step)), g, k)
  {
    TF.GroupStep(j.d, step, g, k);
    if TF.IsPeer(j.d, g, k) && step.DoProcess? && step.g == g && step.p == k && j.link.Served? {
      var peer, out := j.d.groups[g].peers[k], j.p.handlers[j.link.h].out;
      forall q | q in R.Heard(peer, step.response).oks
        ensures O.SaidOk(out, q)
      {
        if q in step.response.ok {
          assert q in out[|peer.heard|].ok;
        }
      }
    }
  }

  lemma SenderKeepsOks(j: TF.Joint, g: nat, k: nat, step: S.Step)
    requires OksInv(j, g, k) && TF.Enabled(j, g, k, TF.OnP(step, false))
    ensures OksInv(TF.Apply(j, g, k, TF.OnP(step, false)), g, k)
  {
    if TF.IsPeer(j.d, g, k) && j.link.Served? {
      SR.StepGoesOn(j.p, step, j.link.h);
      forall q | q in j.d.groups[g].peers[k].oks
        ensures O.SaidOk(S.Apply(j.p, step).handlers[j.link.h].out, q)
      {
        O.SaidOkStays(j.p, step, j.link.h, q);
      }
    }
  }

  lemma {:induction false} OksAt(g: nat, k: nat, run: seq<TF.Joint>, steps: seq<TF.Step>, i: nat)
    requires TF.IsRun(g, k, run, steps) && i < |run|
    ensures OksInv(run[i], g, k)
  {
    if i > 0 {
      OksAt(g, k, run, steps, i - 1);
      OksNext(g, k, run, steps, i - 1);
    }
  }

  lemma OksNext(g: nat, k: nat, run: seq<TF.Joint>, steps: seq<TF.Step>, i: nat)
    requires TF.IsRun(g, k, run, steps) && i < |steps| && OksInv(run[i], g, k)
    ensures OksInv(run[i + 1], g, k)
  {
    TF.RunInv(g, k, run, steps, i);
    OksStep(run[i], g, k, steps[i]);
  }

  lemma OksStep(j: TF.Joint, g: nat, k: nat, step: TF.Step)
    requires F.Inv(j.d) && OksInv(j, g, k) && TF.Enabled(j, g, k, step)
    ensures OksInv(TF.Apply(j, g, k, step), g, k)
  {
    match step
    case OnD(d) => ReceiverKeepsOks(j, g, k, d);
    case OnP(p, serves) =>
      if serves {
        SR.OpenTableKeepsHandlers(j.p, p.rank, p.pulls);
      } else {
        SenderKeepsOks(j, g, k, p);
      }
  }

  /** In the step from `j`, the handler that serves the peer ends a write for request `q` with success. */
  ghost predicate WrittenIn(j: TF.Joint, step: TF.Step, h: nat, q: string) {
    step.OnP? && O.Writes(j.p, step.p, h, q)
  }

  lemma {:induction false} SaidIsWritten(g: nat, k: nat, run: seq<TF.Joint>, steps: seq<TF.Step>, i: nat, h: nat,
                                         q: string)
    returns (n: nat)
    requires TF.IsRun(g, k, run, steps) && i < |run|
    requires h < |run[i].p.handlers| && O.SaidOk(run[i].p.handlers[h].out, q)
    ensures n < i && WrittenIn(run[n], steps[n], h, q)
  {
    var j, step := run[i - 1], steps[i - 1];
    if h < |j.p.handlers| && O.SaidOk(j.p.handlers[h].out, q) {
      n := SaidIsWritten(g, k, run, steps, i - 1, h, q);
    } else {
      O.StepSaysOk(j.p, step.p, h, q);
      n := i - 1;
    }
  }

  /**
   Main result. In every joint run, a success that D counts for the peer is the end of a write for that request which
   succeeded, in the handler that was told D's addresses.
   */
  lemma OkIsWritten(g: nat, k: nat, run: seq<TF.Joint>, steps: seq<TF.Step>, i: nat, q: string) returns (n: nat)
    requires TF.IsRun(g, k, run, steps) && i < |run| && TF.IsPeer(run[i].d, g, k)
    requires q in run[i].d.groups[g].peers[k].oks
    ensures run[i].link.Served? && n < i && WrittenIn(run[n], steps[n], run[i].link.h, q)
  {
    OksAt(g, k, run, steps, i);
    n := SaidIsWritten(g, k, run, steps, i, run[i].link.h, q);
  }
}
