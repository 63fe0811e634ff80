/**
 What a successful receive means for memory: every paired P rank has executed its copies, so that D has P's bytes.
 */
module ReceivedBytes {
  import K = Copies
  import P = Planner
  import RG = Regions
  import RS = Resharding
  import T = Topology
  import R = ReceiveProtocol
  import F = ReceiveFence
  import RR = ReceiveResolution
  import TS = TwoStage
  import LS = LoadStages
  import LF = LoadSafety
  import TF = TransferFence
  import TO = TransferOutcomes

  /** A run of the D rank together with one of its P ranks. */
  datatype Talk = Talk(run: seq<TF.Joint>, steps: seq<TF.Step>)

  /** The writes of P rank `p` among `ws` are exactly the copies it has planned. */
  ghost predicate ExecutedBy(t: RS.Transfer, ws: seq<K.Write>, p: int)
    requires RS.Valid(t)
  {
    forall w :: w in ws && w.sender == p <==>
      RS.Planned(t, p) && w.sender == p && w.copy in RS.Plan(t, p).value
  }

  /** Only P ranks that serve the D rank write. */
  ghost predicate OnlyServing(t: RS.Transfer, ws: seq<K.Write>)
    requires RS.Valid(t)
  {
    forall w :: w in ws ==> 0 <= w.sender < |t.senders| && RS.Serves(t, w.sender)
  }

  /** The transfer belongs to the receive: its D rank and as many P ranks as the engine has. */
  ghost predicate TransferOf(s: R.Receiver, g: nat, t: RS.Transfer)
    requires g < |s.groups|
  {
    && RS.Valid(t) && s.groups[g].progress.Pulling? && |t.senders| == s.groups[g].progress.remoteSize
    && t.receiver.rank == s.rank && t.receiver.size == s.size
  }

  /** `talk` is a run with peer `k` of group `g` that has brought D to `s`. */
  ghost predicate TalkOf(s: R.Receiver, g: nat, k: nat, talk: Talk) {
    TF.IsRun(g, k, talk.run, talk.steps) && talk.run[|talk.steps|].d == s
  }

  /** There is one for each P rank that the group is pulled from. */
  ghost predicate TalksOf(s: R.Receiver, g: nat, talks: seq<Talk>)
    requires g < |s.groups|
  {
    |talks| == |s.groups[g].peers| && forall k :: 0 <= k < |talks| ==> TalkOf(s, g, k, talks[k])
  }

  /** In step `n`, the handler that serves D in the end reports a write for request `q` as a success. */
  ghost predicate WrittenAt(talk: Talk, n: nat, q: string)
    requires |talk.run| == |talk.steps| + 1 && n < |talk.steps|
  {
    var link := talk.run[|talk.steps|].link;
    link.Served? && TO.WrittenIn(talk.run[n], talk.steps[n], link.h, q)
  }

  /** A write for the request that the transfer engine of the P rank reports as a success has executed its copies. */
  ghost predicate WritesExecute(talk: Talk, q: string, t: RS.Transfer, ws: seq<K.Write>, p: int)
    requires RS.Valid(t) && |talk.run| == |talk.steps| + 1
  {
    (exists n :: 0 <= n < |talk.steps| && WrittenAt(talk, n, q)) ==> ExecutedBy(t, ws, p)
  }

  /** What the transfer engines of all P ranks report about the request is true; peer `k` is the `k`-th paired rank. */
  ghost predicate EnginesTellTruth(s: R.Receiver, g: nat, q: string, t: RS.Transfer, ws: seq<K.Write>, talks: seq<Talk>)
    requires g < |s.groups| && TransferOf(s, g, t) && TalksOf(s, g, talks)
  {
    var targets := T.Targets(s.rank, s.size, |t.senders|);
    forall k :: 0 <= k < |talks| && k < |targets| ==> WritesExecute(talks[k], q, t, ws, targets[k])
  }

  /** The receive of the request is reported as a success, and so are only true successes of the transfer engines. */
  ghost predicate Succeeded(s: R.Receiver, q: string, t: RS.Transfer, ws: seq<K.Write>, talks: seq<Talk>) {
    && q in s.finished && q !in s.failed && q in s.events && s.events[q].group < |s.groups|
    && TransferOf(s, s.events[q].group, t) && OnlyServing(t, ws) && TalksOf(s, s.events[q].group, talks)
    && EnginesTellTruth(s, s.events[q].group, q, t, ws, talks)
  }

  /** A P rank that is counted as a success for the request has executed its copies. */
  lemma OkIsExecuted(s: R.Receiver, q: string, t: RS.Transfer, ws: seq<K.Write>, talks: seq<Talk>, k: nat)
    requires Succeeded(s, q, t, ws, talks)
    requires k < |s.groups[s.events[q].group].peers| && q in s.groups[s.events[q].group].peers[k].oks
    requires k < |T.Targets(s.rank, s.size, |t.senders|)|
    ensures ExecutedBy(t, ws, T.Targets(s.rank, s.size, |t.senders|)[k])
  {
    var g, talk := s.events[q].group, talks[k];
    assert TalkOf(s, g, k, talk);
    var n := TO.OkIsWritten(g, k, talk.run, talk.steps, |talk.steps|, q);
    assert WrittenAt(talk, n, q);
    assert WritesExecute(talk, q, t, ws, T.Targets(s.rank, s.size, |t.senders|)[k]);
  }

  /** When all serving ranks have executed their copies, the transfer is executed. */
  lemma AllExecuted(t: RS.Transfer, ws: seq<K.Write>)
    requires RS.Valid(t) && OnlyServing(t, ws)
    requires forall p :: 0 <= p < |t.senders| && RS.Serves(t, p) ==> ExecutedBy(t, ws, p)
    ensures RS.Executes(t, ws)
  {
    forall w: K.Write
      ensures w in ws <==>
                && 0 <= w.sender < |t.senders| && RS.Serves(t, w.sender)
                && RS.Planned(t, w.sender) && w.copy in RS.Plan(t, w.sender).value
    {
      if 0 <= w.sender < |t.senders| && RS.Serves(t, w.sender) {
        assert ExecutedBy(t, ws, w.sender);
      }
    }
  }

  /**
   Main result. A receive that is reported as a success was executed by every P rank paired with the D rank: each of
   them has ended a write for it with success, in the handler that was told D's addresses.
   */
  lemma SuccessIsExecuted(run: seq<R.Receiver>, steps: seq<R.Step>, i: nat, q: string, t: RS.Transfer,
                          ws: seq<K.Write>, talks: seq<Talk>)
    requires R.IsRun(run, steps) && i < |run| && Succeeded(run[i], q, t, ws, talks)
    ensures RS.Executes(t, ws)
  {
    var g := run[i].events[q].group;
    RR.PeersAreTargets(run, steps, i, g);
    F.ReportedAsAnswered(run, steps, i, q);
    var targets, peers := T.Targets(run[i].rank, run[i].size, |t.senders|), run[i].groups[g].peers;
    forall p | 0 <= p < |t.senders| && RS.Serves(t, p)
      ensures ExecutedBy(t, ws, p)
    {
      var k :| 0 <= k < |targets| && targets[k] == p;
      assert q in peers[k].oks;
      OkIsExecuted(run[i], q, t, ws, talks, k);
    }
    AllExecuted(t, ws);
  }

  /**
   Main result. After a Store load that ended at `actual` and a receive that is reported as a success, every byte that
   was left to P holds the byte at the same position of P's unsharded block of the same index.
   */
  lemma ReceivedBytes(run: seq<R.Receiver>, steps: seq<R.Step>, i: nat, q: string, plan: TS.TransferPlan, actual: nat,
                      t: RS.Transfer, ws: seq<K.Write>, talks: seq<Talk>, source: (int, int) -> K.Byte,
                      unsharded: (int, int, int) -> K.Byte, before: int -> K.Byte, r: nat, g: nat, k: nat, y: int)
    requires R.IsRun(run, steps) && i < |run| && Succeeded(run[i], q, t, ws, talks)
    requires TS.PlanValid(plan) && plan.computed <= actual <= plan.target && |t.requested| == |plan.sizes|
    requires forall h :: 0 <= h < |t.requested| ==> t.requested[h] == TS.GroupSuffix(plan, actual, h)
    requires RS.HoldsShards(t, source, unsharded)
    requires g < |t.requested| && plan.windows[g] == 0 && |t.source[g]| == |plan.allBlocks[g]|
    requires k < |plan.allBlocks[g]| && plan.allBlocks[g][k] >= 0 && TS.FilledBy(plan, actual, g, k).FromP?
    requires r < |t.receiver.regions| && 0 <= y < t.receiver.regions[r].kvLen
    ensures T.EffectiveTp(t.receiver.size, t.heads, t.mla).Success?
    ensures K.ReadAfter(ws, source, before, P.Address(t.receiver.regions[r], plan.allBlocks[g][k], y))
            == unsharded(r, t.source[g][k],
                         RG.ShardStart(t.receiver.rank, t.receiver.size, t.heads, t.mla,
                                       t.receiver.regions[r].kvLen) + y)
  {
    SuccessIsExecuted(run, steps, i, q, t, ws, talks);
    TS.TwoStageBytes(plan, actual, t, ws, source, unsharded, before, r, g, k, y);
  }

  /** The same for a block that the Store left untrusted and the receive was to overwrite. */
  lemma RewrittenBySuccess(run: seq<R.Receiver>, steps: seq<R.Step>, i: nat, q: string, st: LS.TransferState, b: int,
                           t: RS.Transfer, ws: seq<K.Write>, talks: seq<Talk>, source: (int, int) -> K.Byte,
                           unsharded: (int, int, int) -> K.Byte, before: int -> K.Byte, region: nat, y: int)
    returns (g: nat, k: nat)
    requires R.IsRun(run, steps) && i < |run| && Succeeded(run[i], q, t, ws, talks)
    requires RS.HoldsShards(t, source, unsharded)
    requires LF.LeftToP(st, b) && TS.PlanValid(st.plan) && st.actual <= st.plan.target && t.requested == st.suffix
    requires forall h :: 0 <= h < |st.plan.windows| ==> st.plan.windows[h] == 0
    requires forall h :: 0 <= h < |t.source| && h < |st.plan.sizes| ==> |t.source[h]| == |st.plan.allBlocks[h]|
    requires region < |t.receiver.regions| && 0 <= y < t.receiver.regions[region].kvLen
    ensures TS.PlaceOf(st.plan, g, k, b) && g < |t.source| && k < |t.source[g]|
    ensures T.EffectiveTp(t.receiver.size, t.heads, t.mla).Success?
    ensures K.ReadAfter(ws, source, before, P.Address(t.receiver.regions[region], b, y))
            == unsharded(region, t.source[g][k],
                         RG.ShardStart(t.receiver.rank, t.receiver.size, t.heads, t.mla,
                                       t.receiver.regions[region].kvLen) + y)
  {
    SuccessIsExecuted(run, steps, i, q, t, ws, talks);
    g, k := LF.RewrittenByReceive(st, b, t, ws, source, unsharded, before, region, y);
  }
}
