/** No load is forgotten: it stays with the worker until it is reported. */
module LoadReports {
  import opened LoadStages
  import opened LoadSafety

  /** What `get_finished` reports as received: ended pool-only loads, and ended receives that were to bring tokens. */
  ghost predicate IsReported(w: Loader, results: map<string, LoadResult>, received: map<string, bool>, r: string) {
    || (r in results && r !in w.onTransfer)
    || (r in received && r in w.onTransfer && w.onTransfer[r].plan.computed < w.onTransfer[r].plan.target)
  }

  lemma FinishedMeans(w: Loader, results: map<string, LoadResult>, received: map<string, bool>, r: string)
    ensures r in FinishedRecv(w, results, received) <==> IsReported(w, results, received, r)
  {
  }

  /** In step `m` of a run the worker reports that `r` has been received. */
  ghost predicate ReportedAt(run: seq<System>, steps: seq<Step>, m: nat, r: string)
    requires m < |steps| && m < |run|
  {
    && steps[m].DoCycle? && run[m].cycled < |run[m].deltas|
    && IsReported(Updated(run[m]), steps[m].results, steps[m].received, r)
  }

  lemma ReportedAtMeans(run: seq<System>, steps: seq<Step>, m: nat, r: string)
    requires IsRun(run, steps) && m < |steps|
    ensures ReportedAt(run, steps, m, r) <==> ReportsReceived(run, steps, m, r)
  {
    assert Taken(run, steps, m);
    if steps[m].DoCycle? {
      FinishedMeans(Updated(run[m]), steps[m].results, steps[m].received, r);
    }
  }

  /** In step `m` a receive ends that was not to bring any token. */
  ghost predicate NothingToReceive(run: seq<System>, steps: seq<Step>, m: nat, r: string)
    requires m < |steps| && m < |run|
  {
    && steps[m].DoCycle? && run[m].cycled < |run[m].deltas| && r in steps[m].received
    && r in Updated(run[m]).onTransfer
    && Updated(run[m]).onTransfer[r].plan.target <= Updated(run[m]).onTransfer[r].plan.computed
  }

  /** In step `m` the worker stops working for `r`, and vLLM knows. */
  ghost predicate ToldAt(run: seq<System>, steps: seq<Step>, m: nat, r: string)
    requires m < |steps| && m < |run|
  {
    ReportedAt(run, steps, m, r) || PreemptedAt(run, steps, m, r) || NothingToReceive(run, steps, m, r)
  }

  /** What becomes of `r` in one cycle. */
  ghost predicate ToldIn(s: System, step: Step, r: string)
    requires step.DoCycle? && s.cycled < |s.deltas|
  {
    || IsReported(Updated(s), step.results, step.received, r)
    || (r in step.received && r in Updated(s).onTransfer
        && Updated(s).onTransfer[r].plan.target <= Updated(s).onTransfer[r].plan.computed)
  }

  lemma CycleTells(s: System, step: Step, r: string)
    requires RequestInv(s, r) && Enabled(s, step) && step.DoCycle?
    requires (BusyNow(s, r) && r !in s.deltas[s.cycled].preempted) || r in Names(s.deltas[s.cycled])
    ensures BusyNow(Apply(s, step), r) || ToldIn(s, step, r)
  {
    UpdatedRequest(s, r);
    UpdatedPaired(s, r);
  }

  lemma StepTells(run: seq<System>, steps: seq<Step>, i: nat, r: string)
    requires IsRun(run, steps) && i < |steps| && BusyNow(run[i], r)
    ensures BusyNow(run[i + 1], r) || ToldAt(run, steps, i, r)
  {
    AtStep(run, steps, i, r);
    if steps[i].DoCycle? && !PreemptedAt(run, steps, i, r) {
      CycleTells(run[i], steps[i], r);
    }
  }

  /** Main result. What the worker is busy with stays so until it is reported, preempted, or has nothing to receive. */
  lemma {:induction false} BusyUntilTold(run: seq<System>, steps: seq<Step>, i: nat, j: nat, r: string)
    requires IsRun(run, steps) && i <= j < |run| && BusyNow(run[i], r)
    ensures BusyNow(run[j], r) || exists m: nat :: i <= m < j && ToldAt(run, steps, m, r)
  {
    if i < j {
      BusyUntilTold(run, steps, i, j - 1, r);
      if BusyNow(run[j - 1], r) {
        StepTells(run, steps, j - 1, r);
      }
    }
  }

  /**
   Main result. A load that the metadata consumed in step `i` names is with the worker at every later time, or was
   reported, preempted, or has ended with nothing to receive.
   */
  lemma NamedUntilTold(run: seq<System>, steps: seq<Step>, i: nat, j: nat, r: string)
    requires IsRun(run, steps) && i < j < |run| && NamedIn(run, steps, i, r)
    ensures BusyNow(run[j], r) || exists m: nat :: i <= m < j && ToldAt(run, steps, m, r)
  {
    NamedStep(run, steps, i, r);
    if BusyNow(run[i + 1], r) {
      BusyUntilTold(run, steps, i + 1, j, r);
    }
  }

  lemma NamedStep(run: seq<System>, steps: seq<Step>, i: nat, r: string)
    requires IsRun(run, steps) && i < |steps| && NamedIn(run, steps, i, r)
    ensures BusyNow(run[i + 1], r) || ToldAt(run, steps, i, r)
  {
    AtStep(run, steps, i, r);
    CycleTells(run[i], steps[i], r);
  }

  /** Main result. The transfer table loses a request in no other way. */
  lemma {:induction false} TransferUntilTold(run: seq<System>, steps: seq<Step>, i: nat, j: nat, r: string)
    requires IsRun(run, steps) && i <= j < |run| && r in run[i].worker.onTransfer
    ensures r in run[j].worker.onTransfer || exists m: nat :: i <= m < j && ToldAt(run, steps, m, r)
  {
    if i < j {
      TransferUntilTold(run, steps, i, j - 1, r);
      if r in run[j - 1].worker.onTransfer {
        TransferStep(run, steps, j - 1, r);
      }
    }
  }

  lemma TransferStep(run: seq<System>, steps: seq<Step>, i: nat, r: string)
    requires IsRun(run, steps) && i < |steps| && r in run[i].worker.onTransfer
    ensures r in run[i + 1].worker.onTransfer || ToldAt(run, steps, i, r)
  {
    AtStep(run, steps, i, r);
    if steps[i].DoCycle? && !PreemptedAt(run, steps, i, r) {
      UpdatedRequest(run[i], r);
    }
  }
}
