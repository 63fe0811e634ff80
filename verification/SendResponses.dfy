/**
 The response stream of a sender handler: every pulled request is answered once, as a success or as an error, and a
 stream that ends normally ends with its only FINISH.
 */
module SendResponses {
  import opened SendProtocol

  /** Identifiers a list of responses answers, in order. */
  function Answered(out: seq<Response>): seq<string> {
    if out == [] then []
    else
      var n := |out| - 1;
      Answered(out[..n]) + out[n].ok + out[n].err
  }

  /**
   What a receiver may rely on: nothing is answered twice or without being asked, and FINISH comes last, when
   everything is answered.
   */
  ghost predicate ValidStream(out: seq<Response>, pulled: set<string>) {
    && multiset(Answered(out)) <= multiset(pulled)
    && forall i :: 0 <= i < |out| ==>
      && out[i].status != ERROR
      && (out[i].status == FINISH ==> i == |out| - 1 && multiset(Answered(out)) == multiset(pulled))
  }

  /** Requests taken up by the write in flight. */
  ghost function InHand(phase: Phase): multiset<string> {
    if phase.Writing? then multiset(Requests(phase.ready)) + multiset(phase.expired) else multiset{}
  }

  ghost predicate OnlyContinue(out: seq<Response>) {
    forall i :: 0 <= i < |out| ==> out[i].status == CONTINUE
  }

  /** Answered, in hand and waiting requests are together the pulled ones. */
  ghost predicate Balanced(hd: Handler) {
    multiset(Answered(hd.out)) + InHand(hd.phase) + multiset(hd.waiting.Keys) == multiset(hd.pulled)
  }

  ghost predicate StreamInv(hd: Handler) {
    match hd.phase
    case Waiting => hd.waiting != map[] && Balanced(hd) && OnlyContinue(hd.out)
    case Writing(_, _, _, last) => (last <==> hd.waiting == map[]) && Balanced(hd) && OnlyContinue(hd.out)
    case Closed => ValidStream(hd.out, hd.pulled)
  }

  lemma StreamInvValid(hd: Handler)
    requires StreamInv(hd)
    ensures ValidStream(hd.out, hd.pulled)
  {
  }

  // ---------------------------------------------------------------- multisets of identifiers

  lemma {:induction false} DistinctAsSet(entries: seq<Entry>)
    requires DistinctEntries(entries)
    ensures multiset(Requests(entries)) == multiset(IdsOf(entries))
  {
    if entries != [] {
      var n := |entries| - 1;
      DistinctAsSet(entries[..n]);
      assert Requests(entries) == Requests(entries[..n]) + [entries[n].request];
      assert IdsOf(entries) == IdsOf(entries[..n]) + {entries[n].request} by {
        assert forall e :: e in entries <==> e in entries[..n] || e == entries[n];
      }
      assert entries[n].request !in IdsOf(entries[..n]);
    }
  }

  /** How often `r` is asked for by `entries`. */
  lemma RequestsSnoc(entries: seq<Entry>, e: Entry)
    ensures multiset(Requests(entries + [e])) == multiset(Requests(entries)) + multiset{e.request}
  {
    assert Requests(entries + [e]) == Requests(entries) + [e.request];
  }

  lemma RequestsLast(entries: seq<Entry>)
    requires entries != []
    ensures multiset(Requests(entries)) == multiset(Requests(entries[..|entries| - 1]))
            + multiset{entries[|entries| - 1].request}
  {
    RequestsSnoc(entries[..|entries| - 1], entries[|entries| - 1]);
    assert entries == entries[..|entries| - 1] + [entries[|entries| - 1]];
  }

  lemma {:induction false} LiveDeadSplit(s: State, done: seq<Entry>)
    ensures multiset(Requests(LiveEntries(s, done))) + multiset(DeadIds(s, done)) == multiset(Requests(done))
  {
    if done != [] {
      var n := |done| - 1;
      LiveDeadSplit(s, done[..n]);
      RequestsLast(done);
      if Live(s, done[n].meta) {
        RequestsSnoc(LiveEntries(s, done[..n]), done[n]);
        assert DeadIds(s, done) == DeadIds(s, done[..n]);
      } else {
        assert LiveEntries(s, done) == LiveEntries(s, done[..n]);
      }
    }
  }

  lemma SelectLast(entries: seq<Entry>, ids: set<string>, wanted: bool)
    requires entries != []
    ensures var n := |entries| - 1;
            multiset(Requests(Select(entries, ids, wanted))) == multiset(Requests(Select(entries[..n], ids, wanted)))
            + if (entries[n].request in ids) == wanted then multiset{entries[n].request} else multiset{}
  {
    var n := |entries| - 1;
    if (entries[n].request in ids) == wanted {
      RequestsSnoc(Select(entries[..n], ids, wanted), entries[n]);
    } else {
      assert Select(entries, ids, wanted) == Select(entries[..n], ids, wanted);
    }
  }

  lemma {:induction false} SelectSplit(entries: seq<Entry>, ids: set<string>)
    ensures multiset(Requests(Select(entries, ids, true))) + multiset(Requests(Select(entries, ids, false)))
            == multiset(Requests(entries))
  {
    if entries != [] {
      SelectSplit(entries[..|entries| - 1], ids);
      RequestsLast(entries);
      SelectLast(entries, ids, true);
      SelectLast(entries, ids, false);
    }
  }

  lemma AnsweredSnoc(out: seq<Response>, r: Response)
    ensures multiset(Answered(out + [r])) == multiset(Answered(out)) + multiset(r.ok) + multiset(r.err)
  {
    assert (out + [r])[..|out|] == out;
  }

  // ---------------------------------------------------------------- steps

  lemma OpenStream(s: State, rank: int, pulls: seq<Pull>)
    requires pulls != []
    ensures StreamInv(Open(s, rank, pulls).handlers[|Open(s, rank, pulls).handlers| - 1])
  {
    OpenWaits(s, rank, pulls);
    var waiting := OpenTable(s, rank, pulls).1;
    assert pulls[0].request in waiting.Keys;
  }

  lemma {:induction false} OpenWaits(s: State, rank: int, pulls: seq<Pull>)
    ensures OpenTable(s, rank, pulls).1.Keys == set p | p in pulls :: p.request
  {
    if pulls != [] {
      var n := |pulls| - 1;
      OpenWaits(s, rank, pulls[..n]);
      assert forall p :: p in pulls <==> p in pulls[..n] || p == pulls[n];
    }
  }

  lemma WakeStream(s: State, h: nat, done: seq<Entry>, failed: set<string>)
    requires CanWake(s, h, done, failed) && StreamInv(s.handlers[h])
    ensures StreamInv(Wake(s, h, done, failed).handlers[h])
  {
    var hd, hd1 := s.handlers[h], Wake(s, h, done, failed).handlers[h];
    LiveDeadSplit(s, done);
    DistinctAsSet(done);
    assert IdsOf(done) <= hd.waiting.Keys;
    assert hd.waiting.Keys == hd1.waiting.Keys + IdsOf(done);
    assert multiset(hd.waiting.Keys) == multiset(hd1.waiting.Keys) + multiset(IdsOf(done));
  }

  lemma ConcatSum(a: seq<string>, b: seq<string>)
    ensures multiset(a + b) == multiset(a) + multiset(b)
  {
  }

  /** A response names exactly the requests that were in hand. */
  lemma AnswerNamesInHand(phase: Phase, success: bool)
    requires phase.Writing?
    ensures multiset(Answer(phase, success).ok) + multiset(Answer(phase, success).err) == InHand(phase)
  {
    SelectSplit(phase.ready, phase.failed);
    var planned, unplanned := Requests(Select(phase.ready, phase.failed, false)),
                              Requests(Select(phase.ready, phase.failed, true));
    var err := Answer(phase, success).err;
    if success {
      assert err == unplanned + [] + phase.expired == unplanned + phase.expired;
      ConcatSum(unplanned, phase.expired);
    } else {
      assert err == unplanned + planned + phase.expired && Requests([]) == [];
      ConcatSum(unplanned, planned);
      ConcatSum(unplanned + planned, phase.expired);
    }
  }

  lemma AnswerMovesInHand(hd: Handler, success: bool)
    requires hd.phase.Writing?
    ensures multiset(Answered(hd.out + [Answer(hd.phase, success)])) == multiset(Answered(hd.out)) + InHand(hd.phase)
  {
    var r := Answer(hd.phase, success);
    AnswerNamesInHand(hd.phase, success);
    AnsweredSnoc(hd.out, r);
    assert multiset(Answered(hd.out)) + (multiset(r.ok) + multiset(r.err))
        == multiset(Answered(hd.out)) + multiset(r.ok) + multiset(r.err);
  }

  /** The last response closes the stream. */
  lemma LastAnswer(hd: Handler, success: bool)
    requires hd.phase.Writing? && hd.phase.last && StreamInv(hd)
    ensures ValidStream(hd.out + [Answer(hd.phase, success)], hd.pulled)
  {
    AnswerMovesInHand(hd, success);
    assert hd.waiting.Keys == {};
    assert multiset(hd.waiting.Keys) == multiset{};
    assert multiset(Answered(hd.out + [Answer(hd.phase, success)])) == multiset(hd.pulled);
  }

  lemma MovedOver(answered: multiset<string>, inHand: multiset<string>, waiting: multiset<string>,
                  all: multiset<string>, now: multiset<string>)
    requires answered + inHand + waiting == all && now == answered + inHand
    ensures now + multiset{} + waiting == all
  {
  }

  lemma MiddleAnswer(hd: Handler, success: bool)
    requires hd.phase.Writing? && !hd.phase.last && StreamInv(hd)
    ensures StreamInv(hd.(phase := Waiting, out := hd.out + [Answer(hd.phase, success)]))
  {
    AnswerMovesInHand(hd, success);
    var hd1 := hd.(phase := Waiting, out := hd.out + [Answer(hd.phase, success)]);
    MovedOver(multiset(Answered(hd.out)), InHand(hd.phase), multiset(hd.waiting.Keys), multiset(hd.pulled),
              multiset(Answered(hd1.out)));
    assert Balanced(hd1);
    assert forall i :: 0 <= i < |hd1.out| ==> hd1.out[i].status == CONTINUE;
  }

  lemma FinishStream(s: State, h: nat, success: bool)
    requires h < |s.handlers| && s.handlers[h].phase.Writing? && StreamInv(s.handlers[h])
    ensures StreamInv(Finish(s, h, success).handlers[h])
  {
    if s.handlers[h].phase.last {
      LastAnswer(s.handlers[h], success);
    } else {
      MiddleAnswer(s.handlers[h], success);
    }
  }

  lemma TimeOutStream(s: State, h: nat, pending: seq<string>)
    requires Enabled(s, DoTimeOut(h, pending)) && StreamInv(s.handlers[h])
    ensures StreamInv(TimeOut(s, h, pending).handlers[h])
  {
    AnsweredSnoc(s.handlers[h].out, Response(FINISH, [], pending));
  }

  lemma {:induction false} OpenTableKeepsHandlers(s: State, rank: int, pulls: seq<Pull>)
    ensures OpenTable(s, rank, pulls).0.handlers == s.handlers
  {
    if pulls != [] {
      OpenTableKeepsHandlers(s, rank, pulls[..|pulls| - 1]);
    }
  }

  ghost predicate AllStreams(s: State) {
    forall h :: 0 <= h < |s.handlers| ==> StreamInv(s.handlers[h])
  }

  lemma StepStreams(s: State, step: Step)
    requires AllStreams(s) && Enabled(s, step)
    ensures AllStreams(Apply(s, step))
  {
    match step
    case DoOpen(rank, pulls) =>
      OpenTableKeepsHandlers(s, rank, pulls);
      OpenStream(s, rank, pulls);
    case DoWake(h, done, failed) => WakeStream(s, h, done, failed);
    case DoFinish(h, success) => FinishStream(s, h, success);
    case DoRaise(h) => StreamInvValid(s.handlers[h]);
    case DoTimeOut(h, pending) => TimeOutStream(s, h, pending);
    case _ =>
  }

  /**
   Main result. In every run, whatever a handler has sent is a valid stream: each pulled request is answered at most
   once over all its messages, and a FINISH is the last message and leaves no request unanswered.
   */
  lemma {:induction false} ResponseStreams(run: seq<State>, steps: seq<Step>, i: nat, h: nat)
    requires IsRun(run, steps) && i < |run| && h < |run[i].handlers|
    ensures ValidStream(run[i].handlers[h].out, run[i].handlers[h].pulled)
  {
    StreamsAt(run, steps, i);
    StreamInvValid(run[i].handlers[h]);
  }

  /**
   A handler that closes without an exception has sent FINISH last, so that by `ResponseStreams` each of its pulled
   requests is then in exactly one of the success and error lists.
   */
  lemma NormalEnd(s: State, step: Step, h: nat)
    requires Enabled(s, step) && h < |s.handlers| && !s.handlers[h].phase.Closed?
    requires h < |Apply(s, step).handlers| && Apply(s, step).handlers[h].phase.Closed? && !step.DoRaise?
    ensures var out := Apply(s, step).handlers[h].out; out != [] && out[|out| - 1].status == FINISH
  {
    match step
    case DoOpen(rank, pulls) => OpenTableKeepsHandlers(s, rank, pulls);
    case _ =>
  }

  lemma {:induction false} StreamsAt(run: seq<State>, steps: seq<Step>, i: nat)
    requires IsRun(run, steps) && i < |run|
    ensures AllStreams(run[i])
  {
    if i > 0 {
      StreamsAt(run, steps, i - 1);
      StepStreams(run[i - 1], steps[i - 1]);
    }
  }

  lemma {:induction false} AnsweredPrefix(out: seq<Response>, k: nat)
    requires k <= |out|
    ensures multiset(Answered(out[..k])) <= multiset(Answered(out))
  {
    if k == |out| {
      assert out[..k] == out;
    } else {
      var n := |out| - 1;
      assert out[..n][..k] == out[..k];
      AnsweredPrefix(out[..n], k);
      AnsweredLast(out);
    }
  }

  lemma AnsweredLast(out: seq<Response>)
    requires out != []
    ensures multiset(Answered(out[..|out| - 1])) <= multiset(Answered(out))
  {
    var n := |out| - 1;
    ConcatContains(Answered(out[..n]), out[n].ok + out[n].err);
    assert Answered(out) == Answered(out[..n]) + (out[n].ok + out[n].err);
  }

  lemma ConcatContains(a: seq<string>, b: seq<string>)
    ensures multiset(a) <= multiset(a + b)
  {
  }

  /** What was received so far of a valid stream is one as well. */
  lemma StreamPrefix(out: seq<Response>, pulled: set<string>, k: nat)
    requires ValidStream(out, pulled) && k <= |out|
    ensures ValidStream(out[..k], pulled)
  {
    AnsweredPrefix(out, k);
    assert k == |out| ==> out[..k] == out;
  }

  // ---------------------------------------------------------------- an answered request is not written any more

  /** The handler is inside a write to the blocks of request `r`. */
  ghost predicate Writes(hd: Handler, r: string) {
    hd.phase.Writing? && r in IdsOf(hd.phase.ready)
  }

  lemma RequestListed(entries: seq<Entry>, e: Entry)
    requires e in entries
    ensures e.request in Requests(entries)
  {
    var i :| 0 <= i < |entries| && entries[i] == e;
    assert Requests(entries)[i] == e.request;
  }

  lemma AnsweredIsNotWritten(hd: Handler, r: string)
    requires StreamInv(hd) && r in Answered(hd.out)
    ensures !Writes(hd, r)
  {
    if hd.phase.Writing? {
      forall e | e in hd.phase.ready
        ensures e.request in multiset(Requests(hd.phase.ready))
      {
        RequestListed(hd.phase.ready, e);
      }
      assert multiset(Answered(hd.out))[r] + InHand(hd.phase)[r] <= multiset(hd.pulled)[r] <= 1;
    }
  }

  /** A handler goes on for the same pull, and what it sent stays sent. */
  ghost predicate HandlerGoesOn(s: State, s1: State, h: nat)
    requires h < |s.handlers|
  {
    h < |s1.handlers| && s1.handlers[h].pulled == s.handlers[h].pulled && s.handlers[h].out <= s1.handlers[h].out
  }

  lemma StepGoesOn(s: State, step: Step, h: nat)
    requires Enabled(s, step) && h < |s.handlers|
    ensures HandlerGoesOn(s, Apply(s, step), h)
  {
    match step
    case DoOpen(rank, pulls) => OpenTableKeepsHandlers(s, rank, pulls);
    case _ =>
  }

  lemma AnsweredGrows(out: seq<Response>, more: seq<Response>, r: string)
    requires out <= more && r in Answered(out)
    ensures r in Answered(more)
  {
    AnsweredPrefix(more, |out|);
    assert more[..|out|] == out;
    var a, b := Answered(out), Answered(more);
    assert multiset(a)[r] <= multiset(b)[r];
  }

  /** Main result. Once a handler has answered a request, it never again writes to the blocks of that request. */
  lemma AnsweredNeverWritten(run: seq<State>, steps: seq<Step>, i: nat, j: nat, h: nat, r: string)
    requires IsRun(run, steps) && i <= j < |run| && h < |run[i].handlers| && r in Answered(run[i].handlers[h].out)
    ensures h < |run[j].handlers| && !Writes(run[j].handlers[h], r)
  {
    StaysAnswered(run, steps, i, j, h, r);
    StreamsAt(run, steps, j);
    AnsweredIsNotWritten(run[j].handlers[h], r);
  }

  lemma {:induction false} StaysAnswered(run: seq<State>, steps: seq<Step>, i: nat, j: nat, h: nat, r: string)
    requires IsRun(run, steps) && i <= j < |run| && h < |run[i].handlers| && r in Answered(run[i].handlers[h].out)
    ensures h < |run[j].handlers| && r in Answered(run[j].handlers[h].out)
  {
    if i < j {
      StaysAnswered(run, steps, i, j - 1, h, r);
      StepGoesOn(run[j - 1], steps[j - 1], h);
      AnsweredGrows(run[j - 1].handlers[h].out, run[j].handlers[h].out, r);
    }
  }
}
