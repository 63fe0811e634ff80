/** A request that P is to send is released only after its send is over. */
module ReleasePromises {
  import SQ = SaveQueue
  import opened ReleaseBarrier
  import opened ReleaseSafety
  import opened ReleaseChain

  // ---------------------------------------------------------------- finishing a request

  /** A source is published as ready exactly for a request that finished at its length with blocks that P is to send. */
  lemma FinishMeans(s: Issuer, r: string, remoteDecode: bool, capped: bool, anyBlocks: bool)
    ensures var s1 := Finish(s, r, remoteDecode, capped, anyBlocks);
            var send, save := remoteDecode && capped && anyBlocks, r in s.saving && anyBlocks;
            && s1.states == s.states + (if send then [SourceState(r, Ready)]
                                        else if remoteDecode then [SourceState(r, Cancelled)] else [])
            && s1.waits == (if send || save then s.waits[r := Wait(save, send)] else s.waits)
            && s1.delayed == s.delayed + (if send || save then {r} else {})
            && s1.saving == s.saving - if send || save then {} else {r}
  {
  }

  /** The request finished at its length on P, with blocks that it is to send. */
  predicate FinishesCapped(step: Step, r: string) {
    step == DoFinish(r, true, true, true)
  }

  // ---------------------------------------------------------------- one step

  /** The worker hears in this step that the request is ready to be sent. */
  ghost predicate HandsOver(s: System, step: Step, r: string) {
    step.DoCycle? && s.cycled < |s.deltas| && r in OfKind(s.deltas[s.cycled].states, Ready)
  }

  /** The wait for the send is on its way; `handed` and `sent` tell what has happened so far. */
  ghost predicate Promise(s: System, r: string, handed: bool, sent: bool) {
    && r in s.place
    && match s.place[r]
       case Pending => r in s.sch.waits && s.sch.waits[r].kvTransfer
       case InDelta(k) => k < |s.deltas| && r in s.deltas[k].waits && s.deltas[k].waits[r].kvTransfer
       case Held =>
         && r in s.worker.waits && s.worker.waits[r].wait.kvTransfer && handed
         && (s.worker.waits[r].sendDone ==> sent)
       case InOutput(_) => handed && sent
  }

  /** The scheduler collects the report of the request. */
  ghost predicate Collects(s: System, step: Step, r: string) {
    step.DoCollect? && s.collected < |s.outputs| && r in s.outputs[s.collected]
  }

  /** The worker's records of `r` after a cycle. */
  lemma CycleWait(sizes: seq<nat>, s: System, sent: set<string>, r: string)
    requires SQ.SizesPositive(sizes) && RequestInv(s, r) && Enabled(s, DoCycle(sent))
    requires r in s.worker.waits || r in s.deltas[s.cycled].waits
    ensures var d, s1 := s.deltas[s.cycled], Cycle(sizes, s, sent);
            var wait := if r in s.worker.waits then s.worker.waits[r].wait else d.waits[r];
            var done := (r in s.worker.waits && s.worker.waits[r].sendDone) || r in sent;
            && (r in s1.worker.waits ==> s1.worker.waits[r].wait == wait && s1.worker.waits[r].sendDone == done)
            && (r !in s1.worker.waits ==> wait.kvTransfer ==> done)
  {
    NextIsKnown(s, r);
    var d := s.deltas[s.cycled];
    var submitted := Submit(sizes, s.saves - d.preempted, d.saves);
    UpdatedRecord(s.worker, d, r);
    MarkedRecord(Updated(s.worker, d), submitted.Keys - SQ.Poll(submitted).Keys, sent, r);
  }

  lemma CyclePromise(sizes: seq<nat>, s: System, sent: set<string>, r: string, handed: bool, over: bool)
    requires SQ.SizesPositive(sizes) && RequestInv(s, r) && Enabled(s, DoCycle(sent)) && Promise(s, r, handed, over)
    ensures var handed1 := handed || HandsOver(s, DoCycle(sent), r);
            Promise(Cycle(sizes, s, sent), r, handed1, over || (handed1 && r in sent))
  {
    NextIsKnown(s, r);
    CycleMoves(sizes, s, sent, r);
    if r in s.worker.waits || r in s.deltas[s.cycled].waits {
      CycleWait(sizes, s, sent, r);
    }
  }

  lemma StepPromise(sizes: seq<nat>, s: System, step: Step, r: string, handed: bool, over: bool)
    requires SQ.SizesPositive(sizes) && RequestInv(s, r) && Enabled(s, step) && Promise(s, r, handed, over)
    requires !Collects(s, step, r)
    ensures var handed1 := handed || HandsOver(s, step, r);
            Promise(Apply(sizes, s, step), r, handed1, over || (handed1 && SentIn(step, r)))
  {
    match step
    case DoCycle(sent) => CyclePromise(sizes, s, sent, r, handed, over);
    case _ =>
  }

  // ---------------------------------------------------------------- whole runs

  /** Between step `i` and state `n` the worker heard that the request is ready. */
  ghost predicate Handed(run: seq<System>, steps: seq<Step>, i: nat, n: nat, r: string)
    requires n <= |steps| < |run|
  {
    exists c :: i < c < n && HandsOver(run[c], steps[c], r)
  }

  /** And then, or later, the transfer reported its send. */
  ghost predicate SentAfter(run: seq<System>, steps: seq<Step>, i: nat, n: nat, r: string)
    requires n <= |steps| < |run|
  {
    exists c, m :: i < c <= m < n && HandsOver(run[c], steps[c], r) && SentIn(steps[m], r)
  }

  lemma PromiseWeakens(s: System, r: string, handed: bool, sent: bool, handed1: bool, sent1: bool)
    requires Promise(s, r, handed, sent) && (handed ==> handed1) && (sent ==> sent1)
    ensures Promise(s, r, handed1, sent1)
  {
  }

  lemma {:induction false} PromiseStays(sizes: seq<nat>, run: seq<System>, steps: seq<Step>, i: nat, n: nat, r: string)
    requires SQ.SizesPositive(sizes) && IsRun(sizes, run, steps) && i < n < |run| && FinishesCapped(steps[i], r)
    requires forall m :: i < m < n ==> !Collects(run[m], steps[m], r)
    ensures Promise(run[n], r, Handed(run, steps, i, n, r), SentAfter(run, steps, i, n, r))
  {
    if n == i + 1 {
      assert run[n] == FinishRequest(run[i], r, true, true, true);
    } else {
      PromiseStays(sizes, run, steps, i, n - 1, r);
      RunInv(sizes, run, steps, n - 1, r);
      var handed, sent := Handed(run, steps, i, n - 1, r), SentAfter(run, steps, i, n - 1, r);
      StepPromise(sizes, run[n - 1], steps[n - 1], r, handed, sent);
      var handed1 := handed || HandsOver(run[n - 1], steps[n - 1], r);
      PromiseWeakens(run[n], r, handed1, sent || (handed1 && SentIn(steps[n - 1], r)), Handed(run, steps, i, n, r),
                     SentAfter(run, steps, i, n, r));
    }
  }

  /**
   Main result. When the scheduler collects the report of a request that finished at its length on P, the worker was
   told that the request is ready, and from then on the transfer has reported its send.
   */
  lemma CappedIsSentFirst(sizes: seq<nat>, run: seq<System>, steps: seq<Step>, i: nat, n: nat, r: string)
    requires SQ.SizesPositive(sizes) && IsRun(sizes, run, steps) && i < n < |steps| && FinishesCapped(steps[i], r)
    requires Collects(run[n], steps[n], r) && forall m :: i < m < n ==> !Collects(run[m], steps[m], r)
    ensures SentAfter(run, steps, i, n, r)
  {
    PromiseStays(sizes, run, steps, i, n, r);
    RunInv(sizes, run, steps, n, r);
    assert OutputAt(run[n], r, run[n].collected);
  }

  /** Until then its release stays delayed. */
  lemma CappedStaysDelayed(sizes: seq<nat>, run: seq<System>, steps: seq<Step>, i: nat, n: nat, r: string)
    requires SQ.SizesPositive(sizes) && IsRun(sizes, run, steps) && i < n < |run| && FinishesCapped(steps[i], r)
    requires forall m :: i < m < n ==> !Collects(run[m], steps[m], r)
    ensures r in run[n].sch.delayed
  {
    PromiseStays(sizes, run, steps, i, n, r);
    RunInv(sizes, run, steps, n, r);
  }
}
