/**
 What the reports of the sender loop and the cancellations of a preemption mean for the sources of a request.
 */
module SendReports {
  import opened SendProtocol
  import opened SendFence

  // ---------------------------------------------------------------- sources that left the table

  /** Names point to the same sources as before, or to new ones. */
  ghost predicate TableGrows(s: State, s1: State) {
    && |s.metas| <= |s1.metas| && (forall m :: 0 <= m < |s.metas| ==> s1.metas[m].transferId == s.metas[m].transferId)
    && forall t :: t in s1.table ==> (t in s.table && s1.table[t] == s.table[t]) || s1.table[t] >= |s.metas|
  }

  lemma {:induction false} OpenTableGrows(s: State, rank: int, pulls: seq<Pull>)
    ensures TableGrows(s, OpenTable(s, rank, pulls).0)
  {
    if pulls != [] {
      OpenTableGrows(s, rank, pulls[..|pulls| - 1]);
    }
  }

  lemma StepTableGrows(s: State, step: Step)
    requires Enabled(s, step)
    ensures TableGrows(s, Apply(s, step))
  {
    match step
    case DoOpen(rank, pulls) => OpenTableGrows(s, rank, pulls);
    case _ =>
  }

  lemma GoneStays(s: State, step: Step, m: nat)
    requires Enabled(s, step) && m < |s.metas| && !Live(s, m)
    ensures m < |Apply(s, step).metas| && !Live(Apply(s, step), m)
  {
    StepTableGrows(s, step);
  }

  /** A source that left the table never comes back: its name can only come back for a new source. */
  lemma {:induction false} GoneForever(run: seq<State>, steps: seq<Step>, i: nat, j: nat, m: nat)
    requires IsRun(run, steps) && i <= j < |run| && m < |run[i].metas| && !Live(run[i], m)
    ensures m < |run[j].metas| && !Live(run[j], m)
  {
    if i < j {
      GoneForever(run, steps, i, j - 1, m);
      GoneStays(run[j - 1], steps[j - 1], m);
    }
  }

  lemma NameStep(s: State, step: Step, m: nat)
    requires Enabled(s, step) && m < |s.metas|
    ensures m < |Apply(s, step).metas| && Apply(s, step).metas[m].transferId == s.metas[m].transferId
  {
    StepTableGrows(s, step);
  }

  lemma {:induction false} NameStays(run: seq<State>, steps: seq<Step>, i: nat, j: nat, m: nat)
    requires IsRun(run, steps) && i <= j < |run| && m < |run[i].metas|
    ensures m < |run[j].metas| && run[j].metas[m].transferId == run[i].metas[m].transferId
  {
    if i < j {
      NameStays(run, steps, i, j - 1, m);
      NameStep(run[j - 1], steps[j - 1], m);
    }
  }

  /** The source is in the table, published, and one of the request. */
  ghost predicate ReadyOf(s: State, requestId: string, m: nat) {
    Live(s, m) && s.metas[m].requestId == requestId && s.metas[m].ready
  }

  /**
   Main result. `_preempt_send` cancels the transfers it has listed, one after the other. Once the last cancellation
   has returned, no write reads a source that was live and ready for the request at the beginning, then or later.
   */
  lemma PreemptFences(run: seq<State>, steps: seq<Step>, i: nat, k: nat, j: nat, requestId: string, m: nat)
    requires IsRun(run, steps) && i <= k <= j < |run| && run[k].draining.None?
    requires forall n: nat :: ReadyOf(run[i], requestId, n) ==> Cancelled(steps, i, k, requestId, Tid(run[i], n))
    requires ReadyOf(run[i], requestId, m)
    ensures Fenced(run[j], m)
  {
    var t := run[i].metas[m].transferId;
    assert Cancelled(steps, i, k, requestId, t);
    var n :| i <= n < k && n < |steps| && steps[n] == DoCancelBegin(requestId, t);
    NameStays(run, steps, i, n, m);
    assert run[n + 1] == CancelBegin(run[n], requestId, t);
    NameStays(run, steps, n, n + 1, m);
    GoneForever(run, steps, n + 1, k, m);
    RunInv(run, steps, k);
    assert SourceValid(run[k], m);
    SourceFence(run, steps, k, j, m);
  }

  ghost predicate Cancelled(steps: seq<Step>, i: nat, k: nat, requestId: string, t: string) {
    exists n :: i <= n < k && n < |steps| && steps[n] == DoCancelBegin(requestId, t)
  }

  // ---------------------------------------------------------------- reported requests

  /** A released source was one of the request. */
  ghost predicate ReleasedOf(s: State, requestId: string) {
    exists m :: m in s.released && m < |s.metas| && s.metas[m].requestId == requestId
  }

  /** Every finished request that is not reported yet has a released source. */
  ghost predicate FinishedReleased(s: State) {
    forall r :: r in s.finished ==> ReleasedOf(s, r)
  }

  /** Released sources keep their request. */
  ghost predicate ReleasedKept(s: State, s1: State) {
    forall m :: m in s.released && m < |s.metas| ==>
      m in s1.released && m < |s1.metas| && s1.metas[m].requestId == s.metas[m].requestId
  }

  lemma {:induction false} OpenTableKeeps(s: State, rank: int, pulls: seq<Pull>)
    ensures var s1 := OpenTable(s, rank, pulls).0;
            && s1.released == s.released && s1.finished == s.finished && |s.metas| <= |s1.metas|
            && forall m :: 0 <= m < |s.metas| ==> s1.metas[m] == s.metas[m]
  {
    if pulls != [] {
      OpenTableKeeps(s, rank, pulls[..|pulls| - 1]);
    }
  }

  lemma ReleasedSource(s: State, step: Step, m: nat)
    requires Enabled(s, step) && m in s.released && m < |s.metas| && !Live(s, m)
    ensures var s1 := Apply(s, step);
            m in s1.released && m < |s1.metas| && s1.metas[m].requestId == s.metas[m].requestId
  {
    match step
    case DoOpen(rank, pulls) => OpenTableKeeps(s, rank, pulls);
    case _ =>
  }

  lemma StepKeepsReleased(s: State, step: Step)
    requires Inv(s) && Enabled(s, step)
    ensures ReleasedKept(s, Apply(s, step))
  {
    forall m: nat | m in s.released && m < |s.metas|
      ensures m in Apply(s, step).released && m < |Apply(s, step).metas|
      ensures Apply(s, step).metas[m].requestId == s.metas[m].requestId
    {
      assert SourceValid(s, m);
      ReleasedSource(s, step, m);
    }
  }

  lemma StepFinished(s: State, step: Step)
    requires Inv(s) && Enabled(s, step) && FinishedReleased(s)
    ensures FinishedReleased(Apply(s, step))
  {
    var s1 := Apply(s, step);
    StepKeepsReleased(s, step);
    StepReleases(s, step);
    forall r | r in s1.finished
      ensures ReleasedOf(s1, r)
    {
      if r in s.finished {
        var m :| m in s.released && m < |s.metas| && s.metas[m].requestId == r;
        assert m in s1.released;
      } else {
        NewlyFinished(s, step, r);
      }
    }
  }

  lemma NewlyFinished(s: State, step: Step, r: string)
    requires Inv(s) && Enabled(s, step) && step.DoFinish? && r in Apply(s, step).finished && r !in s.finished
    ensures ReleasedOf(Apply(s, step), r)
  {
    var s1 := Apply(s, step);
    var m := FinishReportsLive(s, step.h, step.success, r);
    assert m in s1.released && m < |s1.metas| && s1.metas[m].requestId == r;
  }

  lemma {:induction false} FinishedAt(run: seq<State>, steps: seq<Step>, i: nat)
    requires IsRun(run, steps) && i < |run|
    ensures FinishedReleased(run[i])
  {
    if i > 0 {
      FinishedAt(run, steps, i - 1);
      RunInv(run, steps, i - 1);
      StepFinished(run[i - 1], steps[i - 1]);
    }
  }

  /** `fetch_finished_sending_reqs` reports the request, as sent or as timed out. */
  ghost predicate Reports(s: State, now: int, r: string)
    requires TableValid(s)
  {
    r in s.finished || exists t :: t in ExpiredIds(s, now) && s.metas[s.table[t]].requestId == r
  }

  /** Main result. Whatever a poll reports, a source of the request was released, and it is never read any more. */
  lemma ReportedIsFenced(run: seq<State>, steps: seq<Step>, i: nat, r: string) returns (m: nat)
    requires IsRun(run, steps) && i < |steps| && steps[i].DoPoll?
    requires TableValid(run[i]) && Reports(run[i], steps[i].now, r)
    ensures m < |run[i].metas| && run[i].metas[m].requestId == r
    ensures forall j :: i < j < |run| ==> Fenced(run[j], m)
  {
    FinishedAt(run, steps, i);
    RunInv(run, steps, i);
    assert run[i + 1] == Poll(run[i], steps[i].now);
    if r in run[i].finished {
      m :| m in run[i].released && m < |run[i].metas| && run[i].metas[m].requestId == r;
    } else {
      var t :| t in ExpiredIds(run[i], steps[i].now) && run[i].metas[run[i].table[t]].requestId == r;
      m := run[i].table[t];
    }
    assert m in run[i + 1].released;
    forall j | i < j < |run|
      ensures Fenced(run[j], m)
    {
      SourceFence(run, steps, i + 1, j, m);
    }
  }

  // ---------------------------------------------------------------- a request that is published once

  /**
   How the scheduler uses transfer `t` of request `r`: nobody else uses it, it is announced any number of times,
   published in step `k` and never again, and not cancelled before.
   */
  ghost predicate StepOrderly(step: Step, n: nat, r: string, t: string, k: nat) {
    match step
    case DoPrepare(q, u) => (q == r <==> u == t) && (u == t ==> n < k)
    case DoPublish(q, u, _, _) => n != k ==> q != r && u != t
    case DoCancelBegin(_, u) => u == t ==> n > k
    case _ => true
  }

  ghost predicate PublishedOnce(steps: seq<Step>, r: string, t: string, k: nat) {
    && r != "" && k < |steps| && steps[k].DoPublish? && steps[k].requestId == r && steps[k].transferId == t
    && forall n: nat :: n < |steps| ==> StepOrderly(steps[n], n, r, t, k)
  }

  /** Before the publication the only sources of the request are in the table, and unpublished. */
  ghost predicate Unpublished(s: State, r: string, t: string) {
    forall m: nat :: m < |s.metas| ==> SourceUnpublished(s, m, r, t)
  }

  ghost predicate SourceUnpublished(s: State, m: nat, r: string, t: string)
    requires m < |s.metas|
  {
    && (s.metas[m].transferId == t ==> s.metas[m].deadline.None?)
    && (s.metas[m].requestId == r ==> s.metas[m].transferId == t && Live(s, m))
  }

  lemma {:induction false} OpenTableUnpublished(s: State, rank: int, pulls: seq<Pull>, r: string, t: string)
    requires r != "" && Unpublished(s, r, t)
    ensures Unpublished(OpenTable(s, rank, pulls).0, r, t)
  {
    if pulls != [] {
      var n := |pulls| - 1;
      OpenTableUnpublished(s, rank, pulls[..n], r, t);
      var s1 := OpenTable(s, rank, pulls[..n]).0;
      SetDefaultUnpublished(s1, "", pulls[n].transferId, r, t);
      var s2, s3 := SetDefault(s1, "", pulls[n].transferId), OpenTable(s, rank, pulls).0;
      assert s3.metas == s2.metas && s3.table == s2.table;
      forall m: nat | m < |s3.metas|
        ensures SourceUnpublished(s3, m, r, t)
      {
        assert SourceUnpublished(s2, m, r, t);
      }
    }
  }

  lemma SetDefaultUnpublished(s: State, q: string, u: string, r: string, t: string)
    requires Unpublished(s, r, t) && q != r
    ensures Unpublished(SetDefault(s, q, u), r, t)
  {
    var s1 := SetDefault(s, q, u);
    forall m: nat | m < |s1.metas|
      ensures SourceUnpublished(s1, m, r, t)
    {
      assert m < |s.metas| ==> SourceUnpublished(s, m, r, t);
    }
  }

  lemma PrepareUnpublished(s: State, q: string, u: string, r: string, t: string)
    requires TableValid(s) && Unpublished(s, r, t) && (q == r <==> u == t)
    ensures Unpublished(Prepare(s, q, u), r, t)
  {
    var s1 := Prepare(s, q, u);
    forall m: nat | m < |s1.metas|
      ensures SourceUnpublished(s1, m, r, t)
    {
      assert m < |s.metas| ==> SourceUnpublished(s, m, r, t);
    }
  }

  /** Sources keep their names, requests and deadlines. */
  ghost predicate SameSources(s: State, s1: State) {
    && |s1.metas| == |s.metas|
    && forall m :: 0 <= m < |s.metas| ==>
      && s1.metas[m].transferId == s.metas[m].transferId && s1.metas[m].requestId == s.metas[m].requestId
      && s1.metas[m].deadline == s.metas[m].deadline
  }

  lemma KeepsUnpublished(s: State, s1: State, r: string, t: string)
    requires Unpublished(s, r, t) && SameSources(s, s1)
    requires t in s.table ==> t in s1.table && s1.table[t] == s.table[t]
    ensures Unpublished(s1, r, t)
  {
    forall m: nat | m < |s1.metas|
      ensures SourceUnpublished(s1, m, r, t)
    {
      assert SourceUnpublished(s, m, r, t);
    }
  }

  lemma PublishUnpublished(s: State, q: string, u: string, blocks: seq<seq<int>>, deadline: int, r: string, t: string)
    requires TableValid(s) && Unpublished(s, r, t) && q != r && u != t
    ensures Unpublished(Publish(s, q, u, blocks, deadline), r, t)
  {
    PrepareUnpublished(s, q, u, r, t);
    var s0, s1 := Prepare(s, q, u), Publish(s, q, u, blocks, deadline);
    forall m: nat | m < |s1.metas|
      ensures SourceUnpublished(s1, m, r, t)
    {
      assert SourceUnpublished(s0, m, r, t);
    }
  }

  lemma PollUnpublished(s: State, now: int, r: string, t: string)
    requires TableValid(s) && Unpublished(s, r, t)
    ensures Unpublished(Poll(s, now), r, t)
  {
    if t in s.table {
      assert SourceUnpublished(s, s.table[t], r, t);
    }
    KeepsUnpublished(s, Poll(s, now), r, t);
  }

  /** The steps of the handlers that open or end no write leave the sources and the table alone. */
  lemma QuietSources(s: State, step: Step)
    requires Enabled(s, step) && (step.DoWake? || step.DoRaise? || step.DoTimeOut? || step.DoCancelEnd?)
    ensures SameSources(s, Apply(s, step)) && Apply(s, step).table == s.table
  {
  }

  lemma FinishSources(s: State, h: nat, success: bool)
    requires h < |s.handlers| && s.handlers[h].phase.Writing?
    ensures SameSources(s, Finish(s, h, success))
  {
  }

  /** A source that a write reads is published. */
  lemma WrittenIsPublished(s: State, h: nat, m: nat, r: string, t: string)
    requires WritersValid(s) && Unpublished(s, r, t) && h < |s.handlers| && Holds(s.handlers[h], m)
    ensures m < |s.metas| && s.metas[m].transferId != t
  {
    assert WriterValid(s, h, m) && SourceUnpublished(s, m, r, t);
  }

  /** A write that ends takes no unpublished source off the table. */
  lemma FinishUnpublished(s: State, h: nat, success: bool, r: string, t: string)
    requires Inv(s) && h < |s.handlers| && s.handlers[h].phase.Writing? && Unpublished(s, r, t)
    ensures Unpublished(Finish(s, h, success), r, t)
  {
    var gone := Gone(s, Oks(s, h, success));
    FinishEnds(s, h, success);
    forall m | m in gone
      ensures s.metas[m].transferId != t
    {
      WrittenIsPublished(s, h, m, r, t);
    }
    FinishSources(s, h, success);
    KeepsUnpublished(s, Finish(s, h, success), r, t);
  }

  lemma CancelSources(s: State, step: Step)
    requires Enabled(s, step) && step.DoCancelBegin?
    ensures SameSources(s, Apply(s, step)) && Apply(s, step).table == s.table - {step.transferId}
  {
  }

  lemma StepUnpublished(s: State, step: Step, n: nat, r: string, t: string, k: nat)
    requires Inv(s) && Enabled(s, step) && Unpublished(s, r, t)
    requires r != "" && n < k && StepOrderly(step, n, r, t, k)
    ensures Unpublished(Apply(s, step), r, t)
  {
    match step
    case DoPrepare(q, u) => PrepareUnpublished(s, q, u, r, t);
    case DoPublish(q, u, blocks, deadline) => PublishUnpublished(s, q, u, blocks, deadline, r, t);
    case DoOpen(rank, pulls) =>
      OpenTableUnpublished(s, rank, pulls, r, t);
      KeepsUnpublished(OpenTable(s, rank, pulls).0, Apply(s, step), r, t);
    case DoFinish(h, success) => FinishUnpublished(s, h, success, r, t);
    case DoPoll(now) => PollUnpublished(s, now, r, t);
    case DoCancelBegin(_, _) =>
      CancelSources(s, step);
      KeepsUnpublished(s, Apply(s, step), r, t);
    case _ =>
      QuietSources(s, step);
      KeepsUnpublished(s, Apply(s, step), r, t);
  }

  lemma {:induction false} UnpublishedAt(run: seq<State>, steps: seq<Step>, i: nat, r: string, t: string, k: nat)
    requires IsRun(run, steps) && PublishedOnce(steps, r, t, k) && i <= k
    ensures Unpublished(run[i], r, t)
  {
    if i > 0 {
      UnpublishedAt(run, steps, i - 1, r, t, k);
      RunInv(run, steps, i - 1);
      assert StepOrderly(steps[i - 1], i - 1, r, t, k);
      StepUnpublished(run[i - 1], steps[i - 1], i - 1, r, t, k);
    }
  }

  /** Source `m` is the only one of the request. */
  ghost predicate OnlySource(s: State, r: string, m: nat) {
    forall n: nat :: n < |s.metas| && s.metas[n].requestId == r ==> n == m
  }

  lemma PublishedSource(s: State, step: Step, r: string, t: string) returns (m: nat)
    requires Inv(s) && Enabled(s, step) && Unpublished(s, r, t)
    requires step.DoPublish? && step.requestId == r && step.transferId == t
    ensures OnlySource(Apply(s, step), r, m)
  {
    PrepareUnpublished(s, r, t, r, t);
    var s1 := Prepare(s, r, t);
    m := s1.table[t];
    forall n: nat | n < |s1.metas| && s1.metas[n].requestId == r
      ensures n == m
    {
      assert SourceUnpublished(s1, n, r, t);
    }
  }

  lemma {:induction false} OpenTableRequests(s: State, rank: int, pulls: seq<Pull>, r: string, m: nat)
    requires r != "" && OnlySource(s, r, m)
    ensures OnlySource(OpenTable(s, rank, pulls).0, r, m)
  {
    if pulls != [] {
      OpenTableRequests(s, rank, pulls[..|pulls| - 1], r, m);
    }
  }

  lemma OnlySourceStep(s: State, step: Step, n: nat, r: string, t: string, k: nat, m: nat)
    requires Enabled(s, step) && OnlySource(s, r, m) && r != "" && n > k && StepOrderly(step, n, r, t, k)
    ensures OnlySource(Apply(s, step), r, m)
  {
    match step
    case DoOpen(rank, pulls) => OpenTableRequests(s, rank, pulls, r, m);
    case _ =>
  }

  lemma {:induction false} OnlySourceAt(run: seq<State>, steps: seq<Step>, i: nat, j: nat, r: string, t: string,
                                        k: nat, m: nat)
    requires IsRun(run, steps) && PublishedOnce(steps, r, t, k) && k < i <= j < |run| && OnlySource(run[i], r, m)
    ensures OnlySource(run[j], r, m)
  {
    if i < j {
      OnlySourceAt(run, steps, i, j - 1, r, t, k, m);
      var s, step := run[j - 1], steps[j - 1];
      assert Enabled(s, step) && run[j] == Apply(s, step) && StepOrderly(step, j - 1, r, t, k);
      OnlySourceStep(s, step, j - 1, r, t, k, m);
    }
  }

  /** After its publication the request has one source, the same in every later state. */
  lemma OneSource(run: seq<State>, steps: seq<Step>, r: string, t: string, k: nat) returns (m: nat)
    requires IsRun(run, steps) && PublishedOnce(steps, r, t, k)
    ensures forall j :: k < j < |run| ==> OnlySource(run[j], r, m)
  {
    UnpublishedAt(run, steps, k, r, t, k);
    RunInv(run, steps, k);
    assert StepOrderly(steps[k], k, r, t, k);
    m := PublishedSource(run[k], steps[k], r, t);
    forall j | k < j < |run|
      ensures OnlySource(run[j], r, m)
    {
      OnlySourceAt(run, steps, k + 1, j, r, t, k, m);
    }
  }

  /** What is not published is not reported. */
  lemma UnpublishedNotReported(s: State, now: int, r: string, t: string)
    requires Inv(s) && FinishedReleased(s) && Unpublished(s, r, t)
    ensures !Reports(s, now, r)
  {
    forall m | m in s.released && m < |s.metas|
      ensures s.metas[m].requestId != r
    {
      assert SourceUnpublished(s, m, r, t) && SourceValid(s, m);
    }
    forall u | u in ExpiredIds(s, now)
      ensures s.metas[s.table[u]].requestId != r
    {
      assert SourceUnpublished(s, s.table[u], r, t);
    }
  }

  /** Main result. A request is reported only after it was published. */
  lemma ReportedAfterPublish(run: seq<State>, steps: seq<Step>, i: nat, r: string, t: string, k: nat)
    requires IsRun(run, steps) && i < |steps| && steps[i].DoPoll? && TableValid(run[i])
    requires Reports(run[i], steps[i].now, r) && PublishedOnce(steps, r, t, k)
    ensures k < i
  {
    RunInv(run, steps, i);
    FinishedAt(run, steps, i);
    if i <= k {
      UnpublishedAt(run, steps, i, r, t, k);
      UnpublishedNotReported(run[i], steps[i].now, r, t);
    }
  }

  /** Main result. Once a poll reports a request that is published once, no source of it is ever read again. */
  lemma AllSourcesFenced(run: seq<State>, steps: seq<Step>, i: nat, r: string, t: string, k: nat)
    requires IsRun(run, steps) && i < |steps| && steps[i].DoPoll? && TableValid(run[i])
    requires Reports(run[i], steps[i].now, r) && PublishedOnce(steps, r, t, k)
    ensures forall j, m: nat :: i < j < |run| && m < |run[j].metas| && run[j].metas[m].requestId == r ==>
              Fenced(run[j], m)
  {
    ReportedAfterPublish(run, steps, i, r, t, k);
    var m0 := ReportedIsFenced(run, steps, i, r);
    var only := OneSource(run, steps, r, t, k);
    assert OnlySource(run[i], r, only);
    forall j, m: nat | i < j < |run| && m < |run[j].metas| && run[j].metas[m].requestId == r
      ensures Fenced(run[j], m)
    {
      assert OnlySource(run[j], r, only);
    }
  }

  /** No source of the request is in the table. */
  ghost predicate NoneLive(s: State, r: string) {
    forall m: nat :: m < |s.metas| && s.metas[m].requestId == r ==> !Live(s, m)
  }

  /** Without a live source a request does not become finished. */
  lemma NotFinished(s: State, step: Step, r: string)
    requires Inv(s) && Enabled(s, step) && r !in s.finished && NoneLive(s, r)
    ensures r !in Apply(s, step).finished
  {
    StepReleases(s, step);
    if step.DoFinish? && r in Apply(s, step).finished {
      var m := FinishReportsLive(s, step.h, step.success, r);
      assert false;
    }
  }

  lemma {:induction false} StaysUnfinished(run: seq<State>, steps: seq<Step>, i: nat, j: nat, r: string)
    requires IsRun(run, steps) && i <= j < |run| && r !in run[i].finished
    requires forall n: nat :: i <= n < |run| ==> NoneLive(run[n], r)
    ensures r !in run[j].finished
  {
    if i < j {
      StaysUnfinished(run, steps, i, j - 1, r);
      RunInv(run, steps, j - 1);
      NotFinished(run[j - 1], steps[j - 1], r);
    }
  }

  lemma LiveByName(s: State, r: string)
    requires TableValid(s) && NoneLive(s, r)
    ensures forall u :: u in s.table ==> s.metas[s.table[u]].requestId != r
  {
    forall u | u in s.table
      ensures s.metas[s.table[u]].requestId != r
    {
      assert Live(s, s.table[u]);
    }
  }

  /** Main result. A request that is published once is reported by at most one poll. */
  lemma ReportedByOnePoll(run: seq<State>, steps: seq<Step>, i: nat, j: nat, r: string, t: string, k: nat)
    requires IsRun(run, steps) && i < j < |steps| && PublishedOnce(steps, r, t, k)
    requires steps[i].DoPoll? && TableValid(run[i]) && Reports(run[i], steps[i].now, r)
    requires steps[j].DoPoll? && TableValid(run[j])
    ensures !Reports(run[j], steps[j].now, r)
  {
    ReportedAfterPublish(run, steps, i, r, t, k);
    AllSourcesFenced(run, steps, i, r, t, k);
    assert run[i + 1] == Poll(run[i], steps[i].now);
    assert forall n: nat :: i < n < |run| ==> NoneLive(run[n], r);
    StaysUnfinished(run, steps, i + 1, j, r);
    LiveByName(run[j], r);
  }
}
