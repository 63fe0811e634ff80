/**
 End-to-end release: a request is reported when its saves are over and the source that P sent is no longer read.
 */
module ReleaseChain {
  import S = SendProtocol
  import SF = SendFence
  import SP = SendReports
  import SQ = SaveQueue
  import opened ReleaseBarrier
  import opened ReleaseSafety

  /** In a cycle before state `i` the transfer reported the send of `r` as over. */
  ghost predicate SentBefore(steps: seq<Step>, i: nat, r: string) {
    exists n :: 0 <= n < i && n < |steps| && SentIn(steps[n], r)
  }

  ghost predicate SentIn(step: Step, r: string) {
    step.DoCycle? && r in step.sent
  }

  /** A cycle marks a send as over only if it is reported. */
  lemma CycleMarks(sizes: seq<nat>, s: System, sent: set<string>, r: string)
    requires SQ.SizesPositive(sizes) && Enabled(s, DoCycle(sent))
    requires r in Cycle(sizes, s, sent).worker.waits && Cycle(sizes, s, sent).worker.waits[r].sendDone && r !in sent
    ensures r in s.worker.waits && s.worker.waits[r].sendDone
  {
  }

  lemma StepMarks(sizes: seq<nat>, s: System, step: Step, r: string)
    requires SQ.SizesPositive(sizes) && Enabled(s, step) && !SentIn(step, r)
    requires r in Apply(sizes, s, step).worker.waits && Apply(sizes, s, step).worker.waits[r].sendDone
    ensures r in s.worker.waits && s.worker.waits[r].sendDone
  {
    match step
    case DoCycle(sent) => CycleMarks(sizes, s, sent, r);
    case _ =>
  }

  lemma {:induction false} MarkedWasSent(sizes: seq<nat>, run: seq<System>, steps: seq<Step>, i: nat, r: string)
    requires SQ.SizesPositive(sizes) && IsRun(sizes, run, steps) && i < |run|
    requires r in run[i].worker.waits && run[i].worker.waits[r].sendDone
    ensures SentBefore(steps, i, r)
  {
    assert i > 0;
    if !SentIn(steps[i - 1], r) {
      StepMarks(sizes, run[i - 1], steps[i - 1], r);
      MarkedWasSent(sizes, run, steps, i - 1, r);
    }
  }

  /** In step `i` the worker reports `r`, which waited for its send. */
  ghost predicate ReleasesSend(sizes: seq<nat>, run: seq<System>, steps: seq<Step>, i: nat, r: string)
    requires SQ.SizesPositive(sizes) && IsRun(sizes, run, steps)
  {
    && i < |steps| && steps[i].DoCycle? && run[i].cycled < |run[i].deltas|
    && r in run[i + 1].outputs[|run[i].outputs|]
    && var w := Updated(run[i].worker, run[i].deltas[run[i].cycled]);
    && r in w.waits && w.waits[r].wait.kvTransfer
  }

  /** A request that waits for its send is reported only after the transfer has reported the send. */
  lemma ReleasedWasSent(sizes: seq<nat>, run: seq<System>, steps: seq<Step>, i: nat, r: string)
    requires SQ.SizesPositive(sizes) && IsRun(sizes, run, steps) && ReleasesSend(sizes, run, steps, i, r)
    ensures SentBefore(steps, i + 1, r)
  {
    if r !in steps[i].sent {
      ReportNeedsMark(sizes, run[i], steps[i].sent, r);
      MarkedWasSent(sizes, run, steps, i, r);
    }
  }

  lemma ReportNeedsMark(sizes: seq<nat>, s: System, sent: set<string>, r: string)
    requires SQ.SizesPositive(sizes) && Enabled(s, DoCycle(sent)) && r !in sent
    requires r in Cycle(sizes, s, sent).outputs[|s.outputs|]
    requires var w := Updated(s.worker, s.deltas[s.cycled]); r in w.waits && w.waits[r].wait.kvTransfer
    ensures r in s.worker.waits && s.worker.waits[r].sendDone
  {
  }

  /** Each cycle is told of sends by a poll of the sender loop; `at` gives the step of the sender for each cycle. */
  ghost predicate ToldByPolls(steps: seq<Step>, sends: seq<S.State>, moves: seq<S.Step>, at: nat -> nat) {
    forall n: nat, r :: n < |steps| && steps[n].DoCycle? && r in steps[n].sent ==>
      && at(n) < |moves| && at(n) < |sends| && moves[at(n)].DoPoll? && S.TableValid(sends[at(n)])
      && SP.Reports(sends[at(n)], moves[at(n)].now, r)
  }

  /** The scheduler has P publish the request once, under a transfer id of its own. */
  ghost predicate SentOnce(moves: seq<S.Step>, r: string) {
    exists t, k :: SP.PublishedOnce(moves, r, t, k)
  }

  /**
   Main result. When the worker reports a request for release, the pool holds no save of it; and if it waited for its
   send, a poll up to then reported it, from which on no write of P reads any source of the request.
   */
  lemma ReleaseIsFenced(sizes: seq<nat>, run: seq<System>, steps: seq<Step>, sends: seq<S.State>, moves: seq<S.Step>,
                        at: nat -> nat, i: nat, r: string)
    returns (n: nat)
    requires SQ.SizesPositive(sizes) && IsRun(sizes, run, steps) && S.IsRun(sends, moves)
    requires ToldByPolls(steps, sends, moves, at) && ReleasesSend(sizes, run, steps, i, r) && SentOnce(moves, r)
    ensures SQ.Accepted(run[i + 1].saves, r) == [] && r in run[i + 1].sch.delayed
    ensures n <= i && n < |steps| && SentIn(steps[n], r) && at(n) < |sends|
    ensures forall j, m: nat :: at(n) < j < |sends| && m < |sends[j].metas| && sends[j].metas[m].requestId == r ==>
              SF.Fenced(sends[j], m)
  {
    ReleasedIsQuiet(sizes, run, steps, i, r);
    ReleasedWasSent(sizes, run, steps, i, r);
    n :| 0 <= n < i + 1 && n < |steps| && SentIn(steps[n], r);
    var t, k :| SP.PublishedOnce(moves, r, t, k);
    SP.AllSourcesFenced(sends, moves, at(n), r, t, k);
  }

  lemma ReleasedIsQuiet(sizes: seq<nat>, run: seq<System>, steps: seq<Step>, i: nat, r: string)
    requires SQ.SizesPositive(sizes) && IsRun(sizes, run, steps) && ReleasesSend(sizes, run, steps, i, r)
    ensures SQ.Accepted(run[i + 1].saves, r) == [] && r in run[i + 1].sch.delayed
  {
    RunInv(sizes, run, steps, i, r);
    RunInv(sizes, run, steps, i + 1, r);
    CycleReports(sizes, run[i], steps[i].sent, r);
    ReportUncollected(sizes, run, i, r);
    ReleaseIsSafe(sizes, run, steps, i + 1, |run[i].outputs|, r);
  }

  lemma ReportUncollected(sizes: seq<nat>, run: seq<System>, i: nat, r: string)
    requires i + 1 < |run| && RequestInv(run[i + 1], r)
    requires r in run[i + 1].place && run[i + 1].place[r] == InOutput(|run[i].outputs|)
    ensures run[i + 1].collected <= |run[i].outputs| < |run[i + 1].outputs|
  {
  }

  // ---------------------------------------------------------------- the transfer reports published sends

  /** The metadata that cycle `n` consumes. */
  ghost function Consumed(run: seq<System>, n: nat): Delta
    requires n < |run| && run[n].cycled < |run[n].deltas|
  {
    run[n].deltas[run[n].cycled]
  }

  /**
   The worker hands the request to the sender in cycle `c`, whose metadata says that it is ready, and later metadata
   neither preempts nor cancels it. Polls of later cycles come later.
   */
  ghost predicate HandedOverIn(run: seq<System>, steps: seq<Step>, at: nat -> nat, k: nat, c: nat, r: string)
    requires |run| == |steps| + 1
  {
    && c < |steps| && steps[c].DoCycle? && run[c].cycled < |run[c].deltas|
    && r in OfKind(Consumed(run, c).states, Ready)
    && (forall n: nat :: n < c && steps[n].DoCycle? ==> at(n) <= k)
    && forall n: nat :: c < n < |steps| && steps[n].DoCycle? && run[n].cycled < |run[n].deltas| ==>
      r !in Consumed(run, n).preempted && r !in OfKind(Consumed(run, n).states, Cancelled)
  }

  ghost predicate PollsInOrder(steps: seq<Step>, at: nat -> nat) {
    forall m: nat, n: nat :: m < n < |steps| && steps[m].DoCycle? && steps[n].DoCycle? ==> at(m) < at(n)
  }

  /** A poll of the sender reports the request in cycle `n`. */
  ghost predicate Polled(steps: seq<Step>, sends: seq<S.State>, moves: seq<S.Step>, at: nat -> nat, n: nat, r: string) {
    && n < |steps| && steps[n].DoCycle? && at(n) < |moves| && at(n) < |sends|
    && moves[at(n)].DoPoll? && S.TableValid(sends[at(n)]) && SP.Reports(sends[at(n)], moves[at(n)].now, r)
  }

  lemma SendsStep(sizes: seq<nat>, s: System, step: Step, r: string)
    requires SQ.SizesPositive(sizes) && Enabled(s, step) && r in s.sends && !SentIn(step, r)
    requires step.DoCycle? ==>
               var d := s.deltas[s.cycled]; r !in d.preempted && r !in OfKind(d.states, Cancelled)
    ensures r in Apply(sizes, s, step).sends
  {
  }

  /** From its cycle on the send is outstanding until it is reported. */
  lemma {:induction false} SendsStay(sizes: seq<nat>, run: seq<System>, steps: seq<Step>, at: nat -> nat, k: nat,
                                     c: nat, n: nat, r: string)
    requires SQ.SizesPositive(sizes) && IsRun(sizes, run, steps) && c < n < |run|
    requires HandedOverIn(run, steps, at, k, c, r) && forall m: nat :: c <= m < n ==> !SentIn(steps[m], r)
    ensures r in run[n].sends
  {
    assert !SentIn(steps[n - 1], r);
    if n == c + 1 {
      assert run[n] == Cycle(sizes, run[c], steps[c].sent);
    } else {
      SendsStay(sizes, run, steps, at, k, c, n - 1, r);
      SendsStep(sizes, run[n - 1], steps[n - 1], r);
    }
  }

  /**
   Main result. What a poll of the sender loop reports is a send that was published and not reported before, which is
   what the release barrier relies on.
   */
  lemma PollsReportOutstanding(sizes: seq<nat>, run: seq<System>, steps: seq<Step>, sends: seq<S.State>,
                               moves: seq<S.Step>, at: nat -> nat, t: string, k: nat, c: nat, n: nat, r: string)
    requires SQ.SizesPositive(sizes) && IsRun(sizes, run, steps) && S.IsRun(sends, moves)
    requires ToldByPolls(steps, sends, moves, at) && PollsInOrder(steps, at)
    requires SP.PublishedOnce(moves, r, t, k) && HandedOverIn(run, steps, at, k, c, r)
    requires Polled(steps, sends, moves, at, n, r) && run[n].cycled < |run[n].deltas|
    ensures r in Sends(run[n].sends, Consumed(run, n))
  {
    SP.ReportedAfterPublish(sends, moves, at(n), r, t, k);
    assert n >= c;
    if n > c {
      forall m: nat | c <= m < n
        ensures !SentIn(steps[m], r)
      {
        if SentIn(steps[m], r) {
          SP.ReportedByOnePoll(sends, moves, at(m), at(n), r, t, k);
          assert false;
        }
      }
      SendsStay(sizes, run, steps, at, k, c, n, r);
    }
  }
}
