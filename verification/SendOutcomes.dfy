/** What the answers of a sender handler mean: an ok is a write that ended well. */
module SendOutcomes {
  import opened Common
  import opened SendProtocol
  import opened SendFence
  import SR = SendResponses

  /** The write is for the request of one of its sources. */
  ghost predicate IsFor(ready: seq<Entry>, q: string) {
    exists e :: e in ready && e.request == q
  }

  /** The write that ends has sent source `m` for a request that could be planned. */
  ghost predicate Sends(ready: seq<Entry>, failed: set<string>, m: nat) {
    exists e :: e in ready && e.meta == m && e.request !in failed
  }

  /** Handler `h` ends a write for request `q`, which could be planned, and the write has succeeded. */
  ghost predicate Writes(s: State, step: Step, h: nat, q: string) {
    && step == DoFinish(h, true) && h < |s.handlers| && s.handlers[h].phase.Writing?
    && q !in s.handlers[h].phase.failed && IsFor(s.handlers[h].phase.ready, q)
  }

  /** Some response in `out` calls request `q` a success. */
  ghost predicate SaidOk(out: seq<Response>, q: string) {
    exists n :: 0 <= n < |out| && q in out[n].ok
  }

  /** A source that P has named, whose deadline is over and that no write reads. */
  predicate Overdue(meta: SendMeta, now: int) {
    meta.requestId != "" && meta.deadline.Some? && now > meta.deadline.value && meta.sending == 0
  }

  // ---------------------------------------------------------------- one write

  /** The table maps the transfer id of source `m` to `m` itself. */
  predicate IsNamed(table: map<string, nat>, metas: seq<SendMeta>, m: nat) {
    m < |metas| && metas[m].transferId in table && table[metas[m].transferId] == m
  }

  lemma {:induction false} WakeMeans(s: State, done: seq<Entry>)
    ensures forall e :: e in LiveEntries(s, done) <==> e in done && IsNamed(s.table, s.metas, e.meta)
    ensures forall q :: q in DeadIds(s, done) <==>
              exists e :: e in done && e.request == q && !IsNamed(s.table, s.metas, e.meta)
  {
    if done != [] {
      var n := |done| - 1;
      WakeMeans(s, done[..n]);
      assert forall e :: e in done <==> e in done[..n] || e == done[n];
    }
  }

  lemma RequestsMember(entries: seq<Entry>, q: string)
    ensures q in Requests(entries) <==> IsFor(entries, q)
  {
    if q in Requests(entries) {
      var i :| 0 <= i < |entries| && Requests(entries)[i] == q;
      assert entries[i] in entries;
    }
    if IsFor(entries, q) {
      var e :| e in entries && e.request == q;
      SR.RequestListed(entries, e);
    }
  }

  lemma SelectedRequests(entries: seq<Entry>, ids: set<string>, wanted: bool, q: string)
    ensures q in Requests(Select(entries, ids, wanted)) <==> IsFor(entries, q) && (q in ids) == wanted
  {
    RequestsMember(Select(entries, ids, wanted), q);
    forall e: Entry
      ensures e in Select(entries, ids, wanted) <==> e in entries && (e.request in ids) == wanted
    {
      SelectMember(entries, ids, wanted, e);
    }
  }

  /** Planned requests of a write that succeeded are answered well, all others and the expired ones badly. */
  lemma AnswerMeans(phase: Phase, success: bool, q: string)
    requires phase.Writing?
    ensures q in Answer(phase, success).ok <==> success && IsFor(phase.ready, q) && q !in phase.failed
    ensures q in Answer(phase, success).err <==>
              (IsFor(phase.ready, q) && (!success || q in phase.failed)) || q in phase.expired
    ensures Answer(phase, success).status == if phase.last then FINISH else CONTINUE
  {
    SelectedRequests(phase.ready, phase.failed, true, q);
    SelectedRequests(phase.ready, phase.failed, false, q);
  }

  /** Exactly the sources of these requests are acknowledged. */
  lemma AcknowledgedSources(phase: Phase, success: bool, m: nat)
    requires phase.Writing?
    ensures m in MetasOf(Succeeded(phase, success)) <==> success && Sends(phase.ready, phase.failed, m)
  {
    forall e: Entry
      ensures e in Select(phase.ready, phase.failed, false) <==> e in phase.ready && e.request !in phase.failed
    {
      SelectMember(phase.ready, phase.failed, false, e);
    }
  }

  lemma AnswersMean(phase: Phase, success: bool)
    requires phase.Writing?
    ensures forall q :: q in Answer(phase, success).ok <==> success && q !in phase.failed && IsFor(phase.ready, q)
    ensures forall q :: q in Answer(phase, success).err <==>
              (IsFor(phase.ready, q) && (!success || q in phase.failed)) || q in phase.expired
  {
    forall q: string
      ensures q in Answer(phase, success).ok <==> success && q !in phase.failed && IsFor(phase.ready, q)
      ensures q in Answer(phase, success).err <==>
                (IsFor(phase.ready, q) && (!success || q in phase.failed)) || q in phase.expired
    {
      AnswerMeans(phase, success, q);
    }
  }

  /** The last D rank acknowledges the source, and its name is still in the table. */
  ghost predicate Completes(s: State, ready: seq<Entry>, failed: set<string>, success: bool, m: nat) {
    && m < |s.metas| && success && Sends(ready, failed, m)
    && s.metas[m].sent + 1 == s.metas[m].needSend && s.metas[m].transferId in s.table
  }

  /** What the end of a write does to the sources, the table and the finished requests. */
  lemma FinishMeans(s: State, h: nat, success: bool)
    requires h < |s.handlers| && s.handlers[h].phase.Writing?
    ensures var phase, s1 := s.handlers[h].phase, Finish(s, h, success);
            && |s1.metas| == |s.metas|
            && (forall m :: 0 <= m < |s.metas| ==>
                 s1.metas[m].sent == s.metas[m].sent + if success && Sends(phase.ready, phase.failed, m) then 1 else 0)
            && (forall t :: t in s1.table <==>
                 t in s.table
                 && !(exists m: nat ::
                        Completes(s, phase.ready, phase.failed, success, m) && s.metas[m].transferId == t))
            && (forall r :: r in s1.finished <==>
                 r in s.finished
                 || exists m: nat :: Completes(s, phase.ready, phase.failed, success, m) && s.metas[m].requestId == r)
  {
    var phase := s.handlers[h].phase;
    forall m: nat
      ensures m in MetasOf(Succeeded(phase, success)) <==> success && Sends(phase.ready, phase.failed, m)
    {
      AcknowledgedSources(phase, success, m);
    }
    var gone := SendProtocol.Completed(s.table, s.metas, MetasOf(Succeeded(phase, success)));
    assert forall m: nat :: m in gone <==> Completes(s, phase.ready, phase.failed, success, m);
  }

  /** When all paired D ranks have acknowledged a source, the counters say so. */
  lemma LastCount(s: State, s1: State, h: nat, oks: set<nat>, gone: set<nat>, m: nat)
    requires ServedValid(s) && WritersValid(s) && Counted(s) && WriteEnds(s, s1, h, oks, gone) && m in oks
    requires AckedBy(s.peers, s1.acked, m) == s.peers
    ensures m < |s.metas| && s.metas[m].sent + 1 == s.metas[m].needSend
  {
    assert Holds(s.handlers[h], m) && WriterValid(s, h, m);
    EndCount(s, s1, h, oks, gone, m);
    assert CountValid(s1, m);
  }

  lemma GoneIsReported(s: State, h: nat, m: nat)
    requires h < |s.handlers| && s.handlers[h].phase.Writing? && m in Gone(s, Oks(s, h, true))
    ensures s.metas[m].requestId in Finish(s, h, true).finished && m in Finish(s, h, true).released
  {
  }

  /** All paired D ranks have acknowledged source `m`. */
  ghost predicate AllAcknowledged(s: State, m: nat) {
    forall d :: d in s.peers ==> Ack(m, d) in s.acked
  }

  /** When the last paired D rank acknowledges a source that is in the table, its request is reported as sent. */
  lemma LastAcknowledgementReports(s: State, h: nat, m: nat)
    requires Inv(s) && h < |s.handlers| && s.handlers[h].phase.Writing? && Live(s, m)
    requires Sends(s.handlers[h].phase.ready, s.handlers[h].phase.failed, m)
    requires AllAcknowledged(Finish(s, h, true), m)
    ensures s.metas[m].requestId in Finish(s, h, true).finished && m in Finish(s, h, true).released
  {
    AcknowledgedSources(s.handlers[h].phase, true, m);
    FinishEnds(s, h, true);
    LastIsGone(s, Finish(s, h, true), h, Oks(s, h, true), Gone(s, Oks(s, h, true)), m);
    GoneIsReported(s, h, m);
  }

  lemma LastIsGone(s: State, s1: State, h: nat, oks: set<nat>, gone: set<nat>, m: nat)
    requires ServedValid(s) && WritersValid(s) && Counted(s) && WriteEnds(s, s1, h, oks, gone) && m in oks
    requires AllAcknowledged(s1, m) && Live(s, m)
    ensures m in Gone(s, oks)
  {
    AllAcknowledge(s.peers, s1.acked, m);
    LastCount(s, s1, h, oks, gone, m);
  }

  lemma AllAcknowledge(peers: set<int>, acked: set<Ack>, m: nat)
    requires forall d :: d in peers ==> Ack(m, d) in acked
    ensures AckedBy(peers, acked, m) == peers
  {
  }

  /**
   Why a source is released: a poll found it overdue, its cancellation has returned, or every paired D rank has
   acknowledged it.
   */
  lemma ReleasedForReason(s: State, step: Step, m: nat)
    requires Inv(s) && Enabled(s, step) && m in Apply(s, step).released && m !in s.released
    ensures match step
            case DoPoll(now) => m < |s.metas| && Overdue(s.metas[m], now)
            case DoCancelEnd(_) => s.draining == Some(m)
            case DoFinish(_, success) => success && AllAcknowledged(Apply(s, step), m)
            case _ => false
  {
    match step
    case DoPoll(_) =>
    case DoCancelEnd(_) =>
    case DoFinish(h, success) => FinishReleases(s, h, success, m);
    case DoOpen(rank, pulls) =>
      OpenTableKeepsHistory(s, rank, pulls);
      assert false;
    case _ => assert false;
  }

  lemma FinishReleases(s: State, h: nat, success: bool, m: nat)
    requires Inv(s) && h < |s.handlers| && s.handlers[h].phase.Writing?
    requires m in Finish(s, h, success).released && m !in s.released
    ensures success && AllAcknowledged(Finish(s, h, success), m)
  {
    FinishEnds(s, h, success);
    CompletedIsQuiet(s, Finish(s, h, success), h, Oks(s, h, success), Gone(s, Oks(s, h, success)), m);
    AcknowledgedSources(s.handlers[h].phase, success, m);
    InAckedBy(s.peers, Finish(s, h, success).acked, m);
  }

  lemma InAckedBy(peers: set<int>, acked: set<Ack>, m: nat)
    requires AckedBy(peers, acked, m) == peers
    ensures forall d :: d in peers ==> Ack(m, d) in acked
  {
    assert forall d :: d in peers ==> d in AckedBy(peers, acked, m);
  }

  // ---------------------------------------------------------------- whole runs

  /** A success can only be said at the end of such a write. */
  lemma StepSaysOk(s: State, step: Step, h: nat, q: string)
    requires Enabled(s, step) && h < |Apply(s, step).handlers| && SaidOk(Apply(s, step).handlers[h].out, q)
    ensures (h < |s.handlers| && SaidOk(s.handlers[h].out, q)) || Writes(s, step, h, q)
  {
    match step
    case DoOpen(rank, pulls) => SR.OpenTableKeepsHandlers(s, rank, pulls);
    case DoFinish(g, success) => AnswerMeans(s.handlers[g].phase, success, q);
    case _ =>
  }

  lemma WriteSaysOk(s: State, step: Step, h: nat, q: string)
    requires Enabled(s, step) && Writes(s, step, h, q)
    ensures SaidOk(Apply(s, step).handlers[h].out, q)
  {
    AnswerMeans(s.handlers[h].phase, true, q);
    var out := Apply(s, step).handlers[h].out;
    assert q in out[|out| - 1].ok;
  }

  lemma SaidOkStays(s: State, step: Step, h: nat, q: string)
    requires Enabled(s, step) && h < |s.handlers| && SaidOk(s.handlers[h].out, q)
    ensures h < |Apply(s, step).handlers| && SaidOk(Apply(s, step).handlers[h].out, q)
  {
    SR.StepGoesOn(s, step, h);
    var n :| 0 <= n < |s.handlers[h].out| && q in s.handlers[h].out[n].ok;
    assert q in Apply(s, step).handlers[h].out[n].ok;
  }

  /**
   Main result. In every run, a handler has answered a request with success if and only if it has ended a write for it
   that was planned and succeeded.
   */
  lemma {:induction false} OkIffWritten(run: seq<State>, steps: seq<Step>, i: nat, h: nat, q: string)
    requires IsRun(run, steps) && i < |run|
    ensures h < |run[i].handlers| && SaidOk(run[i].handlers[h].out, q) <==>
              exists j :: 0 <= j < i && Writes(run[j], steps[j], h, q)
  {
    if i > 0 {
      OkIffWritten(run, steps, i - 1, h, q);
      var s, step := run[i - 1], steps[i - 1];
      if h < |run[i].handlers| && SaidOk(run[i].handlers[h].out, q) {
        StepSaysOk(s, step, h, q);
      }
      if h < |s.handlers| && SaidOk(s.handlers[h].out, q) {
        SaidOkStays(s, step, h, q);
      }
      if Writes(s, step, h, q) {
        WriteSaysOk(s, step, h, q);
      }
    }
  }

  lemma AcksGrow(s: State, step: Step)
    requires Enabled(s, step)
    ensures s.acked <= Apply(s, step).acked
  {
    match step
    case DoOpen(rank, pulls) => OpenTableKeepsHistory(s, rank, pulls);
    case _ =>
  }

  /** Acknowledgements come only from writes that end well. */
  lemma AckComesFromWrite(s: State, step: Step, m: nat, d: int)
    requires Enabled(s, step) && Ack(m, d) in Apply(s, step).acked && Ack(m, d) !in s.acked
    ensures step.DoFinish? && step.success && s.handlers[step.h].rank == d
    ensures Sends(s.handlers[step.h].phase.ready, s.handlers[step.h].phase.failed, m)
  {
    match step
    case DoOpen(rank, pulls) => OpenTableKeepsHistory(s, rank, pulls);
    case DoFinish(h, success) => AcknowledgedSources(s.handlers[h].phase, success, m);
    case _ =>
  }

  lemma {:induction false} OpenTableKeepsHistory(s: State, rank: int, pulls: seq<Pull>)
    ensures OpenTable(s, rank, pulls).0.acked == s.acked && OpenTable(s, rank, pulls).0.released == s.released
  {
    if pulls != [] {
      OpenTableKeepsHistory(s, rank, pulls[..|pulls| - 1]);
    }
  }

  lemma {:induction false} AcksStay(run: seq<State>, steps: seq<Step>, i: nat, j: nat)
    requires IsRun(run, steps) && i <= j < |run|
    ensures run[i].acked <= run[j].acked
  {
    if i < j {
      AcksStay(run, steps, i, j - 1);
      AcksGrow(run[j - 1], steps[j - 1]);
    }
  }

  /** Main result. The source of a request that was answered with success counts as acknowledged by that D rank. */
  lemma OkIsAcknowledged(run: seq<State>, steps: seq<Step>, i: nat, h: nat, q: string) returns (j: nat, e: Entry)
    requires IsRun(run, steps) && i < |run| && h < |run[i].handlers| && SaidOk(run[i].handlers[h].out, q)
    ensures j < i && Writes(run[j], steps[j], h, q) && e in run[j].handlers[h].phase.ready && e.request == q
    ensures Ack(e.meta, run[j].handlers[h].rank) in run[i].acked
  {
    OkIffWritten(run, steps, i, h, q);
    j :| 0 <= j < i && Writes(run[j], steps[j], h, q);
    e :| e in run[j].handlers[h].phase.ready && e.request == q;
    AcknowledgedSources(run[j].handlers[h].phase, true, e.meta);
    AcksStay(run, steps, j + 1, i);
  }
}
