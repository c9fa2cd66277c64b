/** What an UploadSuperFile returns, in terms of what happened in its run, and which results are possible. */
module SuperUploadOutcomes {
  import opened Options
  import opened Tally
  import opened PartList
  import opened SuperUpload

  // ---------------------------------------------------------------- what happened in a run, and what it led to

  predicate HasReply(w: Worker, reply: Reply) {
    match w
    case Uploading(_) => false
    case Answered(_, own) => own == reply
    case NilSent(_, error) => Nack(error) == reply
    case Leaving(_, own) => own == reply
    case Gone(own) => own == reply
  }

  predicate CompleteFailed(main: Main, e: Error) {
    (main.Failing? || main.Returned?) && main.result == CompleteError(e)
  }

  /** How often AbortMultipartUpload is called. */
  ghost function Aborts(acts: seq<Action>): nat {
    multiset(acts)[Abort] + multiset(acts)[AbortOnNil]
  }

  /** The state records each answer of the service, as it was given. */
  ghost predicate LoggedAnswers(acts: seq<Action>, s: State) {
    forall k: nat, reply :: Answer(k, reply) in acts <==> k < |s.workers| && HasReply(s.workers[k], reply)
  }

  /** It also records the other calls of the service, and how they ended. */
  ghost predicate LoggedCalls(acts: seq<Action>, s: State) {
    && (CompleteOk in acts <==> s.completed)
    && (forall e :: CompleteFails(e) in acts <==> CompleteFailed(s.main, e))
    && s.aborts == Aborts(acts)
  }

  ghost predicate Logged(acts: seq<Action>, s: State) {
    LoggedAnswers(acts, s) && LoggedCalls(acts, s)
  }

  lemma StepLoggedAnswers(acts: seq<Action>, s: State, a: Action)
    requires LoggedAnswers(acts, s) && Enabled(s, a)
    ensures LoggedAnswers(acts + [a], Next(s, a))
  {
    assert forall x :: x in acts + [a] <==> x in acts || x == a;
  }

  lemma StepLoggedCalls(acts: seq<Action>, s: State, a: Action)
    requires LoggedCalls(acts, s) && Enabled(s, a)
    ensures LoggedCalls(acts + [a], Next(s, a))
  {
    assert forall x :: x in acts + [a] <==> x in acts || x == a;
  }

  lemma {:induction false} RunLogged(before: seq<Action>, s: State, acts: seq<Action>)
    requires Logged(before, s) && IsRun(s, acts)
    ensures Logged(before + acts, After(s, acts))
    decreases |acts|
  {
    if acts == [] {
      assert before + acts == before;
    } else {
      StepLoggedAnswers(before, s, acts[0]);
      StepLoggedCalls(before, s, acts[0]);
      RunLogged(before + [acts[0]], Next(s, acts[0]), acts[1..]);
      assert before + acts == (before + [acts[0]]) + acts[1..];
    }
  }

  /** Each part that the service took is listed, by its number and with the ETag of its answer, and nothing else. */
  ghost predicate ListsAnswers(list: seq<PartInfo>, acts: seq<Action>) {
    forall k: nat, etag :: Answer(k, Ack(etag)) in acts <==> k < |list| && list[k] == PartInfo(k + 1, etag)
  }

  ghost predicate NoneRefused(acts: seq<Action>) {
    forall k: nat, e :: Answer(k, Nack(e)) !in acts
  }

  /** These are the ETags under which the service keeps the parts it took. */
  ghost predicate KeptUnder(acked: seq<Option<ETag>>, acts: seq<Action>) {
    forall k: nat, etag :: Answer(k, Ack(etag)) in acts <==> k < |acked| && acked[k] == Some(etag)
  }

  lemma CompleteMeansKept(list: seq<PartInfo>, acked: seq<Option<ETag>>, acts: seq<Action>)
    requires ListsAnswers(list, acts) && IsComplete(list, acked)
    ensures KeptUnder(acked, acts)
  {
    forall k: nat, etag ensures Answer(k, Ack(etag)) in acts <==> k < |acked| && acked[k] == Some(etag) {
      CompleteSlot(list, acked, k, etag);
    }
  }

  /** What a list that is complete in the final state says about the answers. */
  lemma CompleteListsAnswers(acts: seq<Action>, s: State)
    requires Logged(acts, s) && Launched(s) && CompletedOnce(s)
    ensures ListsAnswers(s.completes[0], acts) && NoneRefused(acts)
  {
    var list := s.completes[0];
    forall k: nat, etag
      ensures Answer(k, Ack(etag)) in acts <==> k < |list| && list[k] == PartInfo(k + 1, etag)
    {
      if k < |list| {
        assert Acked(s.workers)[k].Some? && list[k] == PartInfo(k + 1, Acked(s.workers)[k].value);
      }
    }
    forall k: nat, e ensures Answer(k, Nack(e)) !in acts {
      if Answer(k, Nack(e)) in acts {
        assert AckOf(s.workers[k]) == None;
        UnackedNeverComplete(s.workers, k);
      }
    }
  }

  /**
    What a call returns, said by what happened in the run. Success: the service took every part, and
    the one Complete was given exactly its ETags and succeeded. The error of Complete: likewise, but
    that call failed. A part error: the service gave that error for some part, and Complete was not
    called. Abort was called once in the last two cases, and not in the first.
   */
  ghost predicate ResultMatches(acts: seq<Action>, s: State)
    requires s.main.Returned?
  {
    match s.main.result
    case Done =>
      && CompleteOk in acts && Aborts(acts) == 0 && NoneRefused(acts)
      && |s.completes| == 1 && |s.completes[0]| == s.partNum && ListsAnswers(s.completes[0], acts)
    case CompleteError(e) =>
      && CompleteFails(e) in acts && CompleteOk !in acts && Aborts(acts) == 1 && NoneRefused(acts)
      && |s.completes| == 1 && |s.completes[0]| == s.partNum && ListsAnswers(s.completes[0], acts)
    case PartError(e) =>
      && (exists k: nat :: Answer(k, Nack(e)) in acts)
      && CompleteOk !in acts && (forall e' :: CompleteFails(e') !in acts) && Aborts(acts) == 1
      && s.completes == []
  }

  lemma ResultMatchesRun(partNum: nat, maxParallel: nat, acts: seq<Action>)
    requires maxParallel >= 1
    requires IsRun(Init(partNum, maxParallel), acts)
    requires After(Init(partNum, maxParallel), acts).main.Returned?
    ensures ResultMatches(acts, After(Init(partNum, maxParallel), acts))
    ensures After(Init(partNum, maxParallel), acts).partNum == partNum
  {
    var start := Init(partNum, maxParallel);
    var s := After(start, acts);
    InitInv(partNum, maxParallel);
    RunKeepsInv(start, acts);
    ParametersFixed(start, acts);
    RunLogged([], start, acts);
    assert [] + acts == acts;
    if s.main.result.PartError? {
      var k: nat :| k < |s.workers| && ErrorSent(s.workers[k]) == 1 && s.workers[k].reply.error == s.main.result.error;
      assert HasReply(s.workers[k], Nack(s.main.result.error));
      assert Answer(k, Nack(s.main.result.error)) in acts;
    } else {
      CompleteListsAnswers(acts, s);
    }
  }

  /** A part that the service refuses at any time makes the call return an error of a part. */
  lemma RefusedPartFailsCall(partNum: nat, maxParallel: nat, acts: seq<Action>, k: nat, e: Error)
    requires maxParallel >= 1
    requires IsRun(Init(partNum, maxParallel), acts) && Answer(k, Nack(e)) in acts
    ensures var main := After(Init(partNum, maxParallel), acts).main; main.Returned? ==> main.result.PartError?
  {
    if After(Init(partNum, maxParallel), acts).main.Returned? {
      ResultMatchesRun(partNum, maxParallel, acts);
    }
  }

  // ---------------------------------------------------------------- which results are possible

  ghost predicate CanReach(s: State, t: State) {
    exists acts :: IsRun(s, acts) && After(s, acts) == t
  }

  lemma ReachSelf(s: State)
    ensures CanReach(s, s)
  {
    assert IsRun(s, []) && After(s, []) == s;
  }

  /** One more step at the end of a run. */
  lemma ReachStep(s: State, t: State, a: Action)
    requires CanReach(s, t) && Enabled(t, a)
    ensures CanReach(s, Next(t, a))
  {
    var acts :| IsRun(s, acts) && After(s, acts) == t;
    RunStep(s, acts, a);
    assert IsRun(s, acts + [a]) && After(s, acts + [a]) == Next(t, a);
  }

  lemma {:induction false} RunStep(s: State, acts: seq<Action>, a: Action)
    requires IsRun(s, acts) && Enabled(After(s, acts), a)
    ensures IsRun(s, acts + [a]) && After(s, acts + [a]) == Next(After(s, acts), a)
    decreases |acts|
  {
    if acts == [] {
      assert [a][1..] == [];
    } else {
      RunStep(Next(s, acts[0]), acts[1..], a);
      assert (acts + [a])[1..] == acts[1..] + [a];
    }
  }

  predicate Refused(w: Worker) {
    w.NilSent? || ((w.Answered? || w.Leaving? || w.Gone?) && w.reply.Nack?)
  }

  /** As long as the service takes every part, no error is on its way. */
  ghost predicate AllWell(s: State) {
    && (forall k :: 0 <= k < |s.workers| ==> !Refused(s.workers[k]))
    && (s.main.Launch? || s.main.Collect? || s.main.Ready?)
  }

  lemma StepStaysWell(s: State, a: Action)
    requires Inv(s) && AllWell(s) && !s.main.Ready?
    requires Enabled(s, a) && (a.Answer? ==> a.reply.Ack?)
    ensures AllWell(Next(s, a))
  {
    assert s.errs != [] ==> Reported(s, s.errs[0]);
    if Sum(s.workers, NilGiven) > 0 {
      var k := SumPositive(s.workers, NilGiven);
    }
  }

  lemma {:induction false} ReachReady(start: State, s: State) returns (t: State)
    requires CanReach(start, s) && Inv(s) && AllWell(s)
    ensures CanReach(start, t) && Inv(t) && t.main.Ready?
    decreases Measure(s) + 1
  {
    t := s;
    if s.main.Ready? {
    } else {
      var a := CallerOrWorkerReady(s);
      StepStaysWell(s, a);
      StepKeepsInv(s, a);
      StepDecreases(s, a);
      ReachStep(start, s, a);
      t := ReachReady(start, Next(s, a));
    }
  }

  /** The only part or one before the last is refused, and its error is heard in the launch loop or after the nil. */
  lemma ReachPartError(partNum: nat, maxParallel: nat, e: Error) returns (t: State)
    requires maxParallel >= 1 && partNum >= 1
    ensures CanReach(Init(partNum, maxParallel), t) && t.main == Returned(PartError(e))
  {
    var start := Init(partNum, maxParallel);
    ReachSelf(start);
    ReachStep(start, start, TakeWorker);
    t := Next(start, TakeWorker);
    ReachStep(start, t, Answer(0, Nack(e)));
    t := Next(t, Answer(0, Nack(e)));
    ReachStep(start, t, SendResult(0));
    t := Next(t, SendResult(0));
    ReachStep(start, t, SendError(0));
    t := Next(t, SendError(0));
    if partNum == 1 {
      t := ReachLateError(start, t, e);
    } else {
      ReachStep(start, t, TakeError);
      t := Next(t, TakeError);
      ReachStep(start, t, Abort);
      t := Next(t, Abort);
    }
  }

  lemma ReachLateError(start: State, s: State, e: Error) returns (t: State)
    requires CanReach(start, s) && s.main == Launch(1) && s.partNum == 1 && s.results == [None] && s.errs == [e]
    ensures CanReach(start, t) && t.main == Returned(PartError(e))
  {
    ReachStep(start, s, EndLaunch);
    t := Next(s, EndLaunch);
    ReachStep(start, t, TakeResult);
    t := Next(t, TakeResult);
    ReachStep(start, t, AbortOnNil);
    t := Next(t, AbortOnNil);
    ReachStep(start, t, TakeLateError);
    t := Next(t, TakeLateError);
  }

  /** A call may return any result; only the error of a part needs a part. */
  lemma CanReturn(partNum: nat, maxParallel: nat, result: Result)
    requires maxParallel >= 1
    ensures (exists s :: CanReach(Init(partNum, maxParallel), s) && s.main == Returned(result))
       <==> (result.PartError? ==> partNum >= 1)
  {
    var start := Init(partNum, maxParallel);
    InitInv(partNum, maxParallel);
    if result == Done {
      ReachSelf(start);
      var s := ReachReady(start, start);
      ReachStep(start, s, CompleteOk);
      assert Next(s, CompleteOk).main == Returned(result);
    } else if result.CompleteError? {
      ReachSelf(start);
      var s := ReachReady(start, start);
      ReachStep(start, s, CompleteFails(result.error));
      s := Next(s, CompleteFails(result.error));
      ReachStep(start, s, Abort);
      assert Next(s, Abort).main == Returned(result);
    } else if partNum >= 1 {
      var s := ReachPartError(partNum, maxParallel, result.error);
    }
    forall s | CanReach(start, s) && s.main == Returned(result) && result.PartError? ensures partNum >= 1 {
      var acts :| IsRun(start, acts) && After(start, acts) == s;
      RunKeepsInv(start, acts);
      ParametersFixed(start, acts);
    }
  }
}
