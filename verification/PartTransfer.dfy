/**
  The goroutine and channel protocol of ParallelUpload and ParallelCopy: one caller launches a
  worker for each part, at most `maxParallel` at a time, over a token channel, a bounded error
  channel and a result channel. A step of any goroutine is an `Action`; the order of actions is
  the scheduler's and each `select` is free to take any ready case.
 */
module PartTransfer {
  import opened Options
  import opened Tally
  import opened PartList

  /** The program counter of singlePartUpload / singlePartCopy. A worker holds its token until it is Gone. */
  datatype Worker =
    | Requesting
    | Reporting(reply: Reply)
    | Releasing(reply: Reply)
    | Gone(reply: Reply)

  /** The program counter of the caller. */
  datatype Main =
    | Probe(next: nat)                          // head of the launch loop, then the select with a default
    | Await(next: nat)                          // the inner select, reached through the default
    | Collect(got: nat, list: seq<PartInfo>)    // the collecting loop
    | Ready(list: seq<PartInfo>)                // all parts collected, CompleteMultipartUpload is next
    | Failing(result: Result)                   // AbortMultipartUpload is next
    | Returned(result: Result)

  datatype State = State(
    partNum: nat,
    maxParallel: nat,
    tokens: nat,                        // parallelChan, capacity maxParallel
    errs: seq<Error>,                   // errChan, capacity maxParallel
    results: seq<PartInfo>,             // resultChan, capacity partNum
    workers: seq<Worker>,               // workers[k] transfers part k+1
    main: Main,
    completes: seq<seq<PartInfo>>,      // the part lists given to CompleteMultipartUpload
    completed: bool,                    // whether one of those calls succeeded
    aborts: nat)                        // calls of AbortMultipartUpload

  datatype Action =
    | TakeError
    | FindNoError
    | Launch
    | EndLaunch
    | TakeResult
    | EndCollect
    | CompleteOk
    | CompleteFails(error: Error)
    | Abort
    | Answer(k: nat, reply: Reply)
    | Report(k: nat)
    | Release(k: nat)

  function Init(partNum: nat, maxParallel: nat): State {
    State(partNum, maxParallel, 0, [], [], [], Probe(0), [], false, 0)
  }

  /** Whether the caller stands at a select that listens to the error channel. */
  predicate Listening(s: State) {
    match s.main
    case Probe(next) => next < s.partNum
    case Await(_) => true
    case Collect(got, _) => got < s.partNum
    case _ => false
  }

  predicate CanReport(s: State, k: nat) {
    && k < |s.workers|
    && s.workers[k].Reporting?
    && if s.workers[k].reply.Ack? then |s.results| < s.partNum else |s.errs| < s.maxParallel
  }

  /** The worker sends its ETag or its error, whichever the service answered. */
  function AfterReport(s: State, k: nat): State
    requires CanReport(s, k)
  {
    var reply := s.workers[k].reply;
    var s' := s.(workers := s.workers[k := Releasing(reply)]);
    if reply.Ack? then s'.(results := s.results + [PartInfo(k + 1, reply.etag)])
    else s'.(errs := s.errs + [reply.error])
  }

  predicate CanRelease(s: State, k: nat) {
    k < |s.workers| && s.workers[k].Releasing? && s.tokens > 0
  }

  function AfterRelease(s: State, k: nat): State
    requires CanRelease(s, k)
  {
    s.(tokens := s.tokens - 1, workers := s.workers[k := Gone(s.workers[k].reply)])
  }

  predicate CanLaunch(s: State) {
    s.main.Await? && s.tokens < s.maxParallel
  }

  function AfterLaunch(s: State): State
    requires CanLaunch(s)
  {
    s.(tokens := s.tokens + 1, workers := s.workers + [Requesting], main := Probe(s.main.next + 1))
  }

  /** The slot index must be in range, otherwise the store would panic. */
  predicate CanTakeResult(s: State) {
    s.main.Collect? && s.main.got < s.partNum && s.results != [] && 1 <= s.results[0].partNumber <= |s.main.list|
  }

  function AfterTakeResult(s: State): State
    requires CanTakeResult(s)
  {
    var p := s.results[0];
    s.(results := s.results[1..], main := Collect(s.main.got + 1, s.main.list[p.partNumber - 1 := p]))
  }

  predicate Enabled(s: State, a: Action) {
    match a
    case TakeError => Listening(s) && s.errs != []
    case FindNoError => s.main.Probe? && s.main.next < s.partNum && s.errs == []
    case Launch => CanLaunch(s)
    case EndLaunch => s.main.Probe? && s.main.next >= s.partNum
    case TakeResult => CanTakeResult(s)
    case EndCollect => s.main.Collect? && s.main.got >= s.partNum
    case CompleteOk => s.main.Ready?
    case CompleteFails(_) => s.main.Ready?
    case Abort => s.main.Failing?
    case Answer(k, _) => k < |s.workers| && s.workers[k].Requesting?
    case Report(k) => CanReport(s, k)
    case Release(k) => CanRelease(s, k)
  }

  function Next(s: State, a: Action): State
    requires Enabled(s, a)
  {
    match a
    case TakeError => s.(errs := s.errs[1..], main := Failing(PartError(s.errs[0])))
    case FindNoError => s.(main := Await(s.main.next))
    case Launch => AfterLaunch(s)
    case EndLaunch => s.(main := Collect(0, Blanks(s.partNum)))
    case TakeResult => AfterTakeResult(s)
    case EndCollect => s.(main := Ready(s.main.list))
    case CompleteOk => s.(completes := s.completes + [s.main.list], completed := true, main := Returned(Done))
    case CompleteFails(e) => s.(completes := s.completes + [s.main.list], main := Failing(CompleteError(e)))
    case Abort => s.(aborts := s.aborts + 1, main := Returned(s.main.result))
    case Answer(k, reply) => s.(workers := s.workers[k := Reporting(reply)])
    case Report(k) => AfterReport(s, k)
    case Release(k) => AfterRelease(s, k)
  }

  ghost predicate IsRun(s: State, acts: seq<Action>)
    decreases |acts|
  {
    acts == [] || (Enabled(s, acts[0]) && IsRun(Next(s, acts[0]), acts[1..]))
  }

  ghost function After(s: State, acts: seq<Action>): State
    requires IsRun(s, acts)
    decreases |acts|
  {
    if acts == [] then s else After(Next(s, acts[0]), acts[1..])
  }

  /** No goroutine can take a step. */
  ghost predicate Stuck(s: State) {
    forall a :: !Enabled(s, a)
  }

  /** The caller has returned and every worker it launched has ended. */
  ghost predicate Finished(s: State) {
    s.main.Returned? && forall k :: 0 <= k < |s.workers| ==> s.workers[k].Gone?
  }

  // ---------------------------------------------------------------- what the invariant counts

  function HoldsToken(w: Worker): nat { if w.Gone? then 0 else 1 }

  function Unsent(w: Worker): nat { if w.Requesting? || w.Reporting? then 1 else 0 }

  function SentAck(w: Worker): nat { if (w.Releasing? || w.Gone?) && w.reply.Ack? then 1 else 0 }

  function SentNack(w: Worker): nat { if (w.Releasing? || w.Gone?) && w.reply.Nack? then 1 else 0 }

  function AckOf(w: Worker): Option<ETag> {
    if SentAck(w) == 1 then Some(w.reply.etag) else None
  }

  function Acked(workers: seq<Worker>): (acked: seq<Option<ETag>>)
    ensures |acked| == |workers|
  {
    seq(|workers|, i requires 0 <= i < |workers| => AckOf(workers[i]))
  }

  /** Some worker has reported this error. */
  ghost predicate Reported(s: State, e: Error) {
    exists k :: 0 <= k < |s.workers| && SentNack(s.workers[k]) == 1 && s.workers[k].reply.error == e
  }

  /** Errors the caller has taken out of the error channel: it takes at most one. */
  function Heard(main: Main): nat {
    if (main.Failing? || main.Returned?) && main.result.PartError? then 1 else 0
  }

  // ---------------------------------------------------------------- the invariant

  ghost predicate Launched(s: State) {
    match s.main
    case Probe(next) => |s.workers| == next <= s.partNum
    case Await(next) => |s.workers| == next < s.partNum
    case Failing(PartError(_)) => |s.workers| <= s.partNum
    case Returned(PartError(_)) => |s.workers| <= s.partNum
    case _ => |s.workers| == s.partNum
  }

  ghost predicate TokensHeld(s: State) {
    s.tokens == Sum(s.workers, HoldsToken) <= s.maxParallel
  }

  /**
    Each error ever sent is queued or heard, and the errors sent plus the workers that may still
    send one never exceed the capacity plus one; between the two selects, the capacity.
   */
  ghost predicate ErrorBudget(s: State) {
    && Sum(s.workers, SentNack) == |s.errs| + Heard(s.main)
    && Sum(s.workers, SentNack) + Sum(s.workers, Unsent) <= s.maxParallel + (if s.main.Await? then 0 else 1)
  }

  ghost predicate ErrorsReported(s: State) {
    && (forall i :: 0 <= i < |s.errs| ==> Reported(s, s.errs[i]))
    && (Heard(s.main) == 1 ==> Reported(s, s.main.result.error))
  }

  /** The part list as far as the caller has filled it; before the collecting loop it is blank. */
  function ListSoFar(s: State): seq<PartInfo> {
    if s.main.Collect? then s.main.list else Blanks(s.partNum)
  }

  function Got(main: Main): nat {
    if main.Collect? then main.got else 0
  }

  ghost predicate ResultsCollected(s: State) {
    match s.main
    case Ready(list) => |s.results| <= Sum(s.workers, SentAck) && IsComplete(list, Acked(s.workers))
    case Failing(_) => |s.results| <= Sum(s.workers, SentAck)
    case Returned(_) => |s.results| <= Sum(s.workers, SentAck)
    case _ =>
      && |s.results| + Got(s.main) == Sum(s.workers, SentAck)
      && |ListSoFar(s)| == s.partNum
      && Got(s.main) == Filled(ListSoFar(s)) <= s.partNum
      && Collecting(s.results, ListSoFar(s), Acked(s.workers))
  }

  /** The calls made to the service, by where the caller stands. */
  ghost predicate CallsMade(s: State) {
    match s.main
    case Failing(PartError(_)) => s.completes == [] && !s.completed && s.aborts == 0
    case Failing(CompleteError(_)) => CompletedOnce(s) && !s.completed && s.aborts == 0
    case Failing(Done) => false
    case Returned(PartError(_)) => s.completes == [] && !s.completed && s.aborts == 1
    case Returned(CompleteError(_)) => CompletedOnce(s) && !s.completed && s.aborts == 1
    case Returned(Done) => CompletedOnce(s) && s.completed && s.aborts == 0
    case _ => s.completes == [] && !s.completed && s.aborts == 0
  }

  /** Complete was called once, with the full list of the ETags the service had returned. */
  ghost predicate CompletedOnce(s: State) {
    |s.completes| == 1 && |s.completes[0]| == s.partNum && IsComplete(s.completes[0], Acked(s.workers))
  }

  ghost predicate Inv(s: State) {
    && s.maxParallel >= 1
    && Launched(s)
    && TokensHeld(s)
    && ErrorBudget(s)
    && ErrorsReported(s)
    && ResultsCollected(s)
    && CallsMade(s)
  }

  // ---------------------------------------------------------------- every step keeps it

  lemma InitInv(partNum: nat, maxParallel: nat)
    requires maxParallel >= 1
    ensures Inv(Init(partNum, maxParallel))
  {
    BlanksUnfilled(partNum);
  }

  /** How replacing one worker changes the counts. */
  lemma WorkerMoves(ws: seq<Worker>, k: nat, w: Worker)
    requires k < |ws|
    ensures Sum(ws[k := w], HoldsToken) + HoldsToken(ws[k]) == Sum(ws, HoldsToken) + HoldsToken(w)
    ensures Sum(ws[k := w], Unsent) + Unsent(ws[k]) == Sum(ws, Unsent) + Unsent(w)
    ensures Sum(ws[k := w], SentAck) + SentAck(ws[k]) == Sum(ws, SentAck) + SentAck(w)
    ensures Sum(ws[k := w], SentNack) + SentNack(ws[k]) == Sum(ws, SentNack) + SentNack(w)
    ensures Acked(ws[k := w]) == Acked(ws)[k := AckOf(w)]
  {
    SumUpdate(ws, k, w, HoldsToken);
    SumUpdate(ws, k, w, Unsent);
    SumUpdate(ws, k, w, SentAck);
    SumUpdate(ws, k, w, SentNack);
  }

  /** A reported error stays reported when a worker that has not reported, or keeps its reply, moves. */
  lemma ReportedKept(s: State, s': State, k: nat)
    requires k < |s.workers| && |s'.workers| == |s.workers|
    requires s'.workers == s.workers[k := s'.workers[k]]
    requires SentNack(s.workers[k]) == 1 ==> SentNack(s'.workers[k]) == 1 && s'.workers[k].reply == s.workers[k].reply
    ensures forall e :: Reported(s, e) ==> Reported(s', e)
  {
    forall e | Reported(s, e) ensures Reported(s', e) {
      var j :| 0 <= j < |s.workers| && SentNack(s.workers[j]) == 1 && s.workers[j].reply.error == e;
      assert SentNack(s'.workers[j]) == 1 && s'.workers[j].reply.error == e;
    }
  }

  lemma AnswerKeeps(s: State, k: nat, reply: Reply)
    requires Inv(s) && Enabled(s, Answer(k, reply))
    ensures Inv(Next(s, Answer(k, reply)))
  {
    var s' := Next(s, Answer(k, reply));
    WorkerMoves(s.workers, k, Reporting(reply));
    ReportedKept(s, s', k);
    assert Acked(s'.workers) == Acked(s.workers);
  }

  lemma ReportAckCollected(s: State, k: nat)
    requires ResultsCollected(s) && Launched(s) && CanReport(s, k) && s.workers[k].reply.Ack?
    ensures ResultsCollected(AfterReport(s, k))
  {
    var s', reply := AfterReport(s, k), s.workers[k].reply;
    WorkerMoves(s.workers, k, Releasing(reply));
    UnackedNeverComplete(s.workers, k);
    if s.main.Probe? || s.main.Await? || s.main.Collect? {
      PostKeeps(s.results, ListSoFar(s), Acked(s.workers), k, reply.etag);
      assert s'.main == s.main && ListSoFar(s') == ListSoFar(s);
      assert Acked(s'.workers) == Acked(s.workers)[k := Some(reply.etag)];
    }
  }

  lemma ReportAckKeeps(s: State, k: nat)
    requires Inv(s) && CanReport(s, k) && s.workers[k].reply.Ack?
    ensures Inv(AfterReport(s, k))
  {
    var s' := AfterReport(s, k);
    ReportAckCollected(s, k);
    UnackedNeverComplete(s.workers, k);
    assert ErrorsReported(s') by { ReportedKept(s, s', k); }
    assert TokensHeld(s') && ErrorBudget(s') by { WorkerMoves(s.workers, k, Releasing(s.workers[k].reply)); }
  }

  lemma ReportNackKeeps(s: State, k: nat)
    requires Inv(s) && CanReport(s, k) && s.workers[k].reply.Nack?
    ensures Inv(AfterReport(s, k))
  {
    var s' := AfterReport(s, k);
    var reply := s.workers[k].reply;
    WorkerMoves(s.workers, k, Releasing(reply));
    ReportedKept(s, s', k);
    assert Reported(s', reply.error) by { assert SentNack(s'.workers[k]) == 1; }
    assert Acked(s'.workers) == Acked(s.workers);
  }

  /** No list is complete while some worker has not reported an ETag. */
  lemma UnackedNeverComplete(workers: seq<Worker>, k: nat)
    requires k < |workers| && AckOf(workers[k]) == None
    ensures forall list :: !IsComplete(list, Acked(workers))
  {
    assert Acked(workers)[k] == None;
  }

  lemma ReleaseKeeps(s: State, k: nat)
    requires Inv(s) && CanRelease(s, k)
    ensures Inv(AfterRelease(s, k))
  {
    var s' := AfterRelease(s, k);
    WorkerMoves(s.workers, k, Gone(s.workers[k].reply));
    ReportedKept(s, s', k);
    assert Acked(s'.workers) == Acked(s.workers);
  }

  lemma LaunchKeeps(s: State)
    requires Inv(s) && CanLaunch(s)
    ensures Inv(AfterLaunch(s))
  {
    var s' := AfterLaunch(s);
    SumAppend(s.workers, Requesting, HoldsToken);
    SumAppend(s.workers, Requesting, Unsent);
    SumAppend(s.workers, Requesting, SentAck);
    SumAppend(s.workers, Requesting, SentNack);
    assert Acked(s'.workers) == Acked(s.workers) + [None];
    forall i | 0 <= i < |s.errs| ensures Reported(s', s.errs[i]) {
      assert Reported(s, s.errs[i]);
      var k :| 0 <= k < |s.workers| && SentNack(s.workers[k]) == 1 && s.workers[k].reply.error == s.errs[i];
      assert s'.workers[k] == s.workers[k];
    }
  }

  lemma TakeResultKeeps(s: State)
    requires Inv(s) && CanTakeResult(s)
    ensures Inv(AfterTakeResult(s))
  {
    StoreKeeps(s.results, s.main.list, Acked(s.workers));
    SumOfUnits(AfterTakeResult(s).main.list, IsFilled);
  }

  lemma MainKeeps(s: State, a: Action)
    requires Inv(s) && Enabled(s, a)
    requires a.TakeError? || a.FindNoError? || a.EndLaunch? || a.EndCollect? || a.CompleteOk?
        || a.CompleteFails? || a.Abort?
    ensures Inv(Next(s, a))
  {
    match a
    case TakeError =>
      assert Reported(s, s.errs[0]);
    case FindNoError =>
      SumMonotone(s.workers, Unsent, HoldsToken);
    case EndCollect =>
      FullListIsComplete(s.results, s.main.list, Acked(s.workers));
    case _ =>
  }

  lemma StepKeepsInv(s: State, a: Action)
    requires Inv(s) && Enabled(s, a)
    ensures Inv(Next(s, a))
  {
    match a
    case Answer(k, reply) => AnswerKeeps(s, k, reply);
    case Report(k) =>
      if s.workers[k].reply.Ack? { ReportAckKeeps(s, k); } else { ReportNackKeeps(s, k); }
    case Release(k) => ReleaseKeeps(s, k);
    case Launch => LaunchKeeps(s);
    case TakeResult => TakeResultKeeps(s);
    case _ => MainKeeps(s, a);
  }

  // ---------------------------------------------------------------- termination

  function Work(w: Worker): nat {
    match w
    case Requesting => 3
    case Reporting(_) => 2
    case Releasing(_) => 1
    case Gone(_) => 0
  }

  function MainWork(main: Main, partNum: nat): int {
    match main
    case Probe(next) => 6 * partNum - 5 * next + 6
    case Await(next) => 6 * partNum - 5 * next + 5
    case Collect(got, _) => partNum - got + 5
    case Ready(_) => 3
    case Failing(_) => 1
    case Returned(_) => 0
  }

  function Measure(s: State): int {
    MainWork(s.main, s.partNum) + Sum(s.workers, Work)
  }

  lemma MainStepDecreases(s: State, a: Action)
    requires Launched(s) && ResultsCollected(s) && Enabled(s, a)
    requires !a.Answer? && !a.Report? && !a.Release?
    ensures 0 <= Measure(Next(s, a)) < Measure(s)
  {
    if a == Launch {
      SumAppend(s.workers, Requesting, Work);
    }
  }

  lemma StepDecreases(s: State, a: Action)
    requires Inv(s) && Enabled(s, a)
    ensures 0 <= Measure(Next(s, a)) < Measure(s)
  {
    match a
    case Answer(k, reply) => SumUpdate(s.workers, k, Reporting(reply), Work);
    case Report(k) => SumUpdate(s.workers, k, Releasing(s.workers[k].reply), Work);
    case Release(k) => SumUpdate(s.workers, k, Gone(s.workers[k].reply), Work);
    case _ => MainStepDecreases(s, a);
  }

  // ---------------------------------------------------------------- no deadlock

  lemma {:induction false} SentOrUnsent(ws: seq<Worker>)
    ensures Sum(ws, Unsent) + Sum(ws, SentAck) + Sum(ws, SentNack) == |ws|
  {
    if ws == [] {
    } else {
      SentOrUnsent(ws[..|ws| - 1]);
    }
  }

  /** The next action of a worker that has not ended. */
  function WorkerAction(k: nat, w: Worker): Action
    requires !w.Gone?
  {
    match w
    case Requesting => Answer(k, Ack(""))
    case Reporting(_) => Report(k)
    case Releasing(_) => Release(k)
  }

  /** Only a worker with an error to send can wait, and only while the error channel is full. */
  lemma WorkerReady(s: State, k: nat)
    requires Inv(s) && k < |s.workers| && !s.workers[k].Gone?
    requires |s.errs| < s.maxParallel || !(s.workers[k].Reporting? && s.workers[k].reply.Nack?)
    ensures Enabled(s, WorkerAction(k, s.workers[k]))
  {
    SumAtLeast(s.workers, k, HoldsToken);
    SumAtLeast(s.workers, k, Unsent);
    SentOrUnsent(s.workers);
  }

  /** Once the caller has stopped listening, no worker ever has to wait again. */
  lemma NoWorkerBlocksAfterReturn(s: State, k: nat)
    requires Inv(s) && (s.main.Ready? || s.main.Failing? || s.main.Returned?)
    requires k < |s.workers| && !s.workers[k].Gone?
    ensures Enabled(s, WorkerAction(k, s.workers[k]))
  {
    SumAtLeast(s.workers, k, Unsent);
    if s.workers[k].Reporting? {
      UnackedNeverComplete(s.workers, k);
    }
    WorkerReady(s, k);
  }

  lemma CallerOrWorkerReady(s: State) returns (a: Action)
    requires Inv(s) && !s.main.Returned?
    ensures Enabled(s, a) && (a.Answer? ==> a.reply.Ack?) && !a.CompleteFails?
  {
    match s.main
    case Probe(next) => a := if next >= s.partNum then EndLaunch else if s.errs == [] then FindNoError else TakeError;
    case Await(_) =>
      if s.errs != [] {
        a := TakeError;
      } else if s.tokens < s.maxParallel {
        a := Launch;
      } else {
        var k := SumPositive(s.workers, HoldsToken);
        WorkerReady(s, k);
        a := WorkerAction(k, s.workers[k]);
      }
    case Collect(got, list) =>
      if got >= s.partNum {
        a := EndCollect;
      } else if s.errs != [] {
        a := TakeError;
      } else if s.results != [] {
        StoreKeeps(s.results, list, Acked(s.workers));
        a := TakeResult;
      } else {
        SentOrUnsent(s.workers);
        var k := SumPositive(s.workers, Unsent);
        WorkerReady(s, k);
        a := WorkerAction(k, s.workers[k]);
      }
    case Ready(_) => a := CompleteOk;
    case Failing(_) => a := Abort;
  }

  lemma NoDeadlock(s: State)
    requires Inv(s) && Stuck(s)
    ensures Finished(s)
  {
    if !s.main.Returned? {
      var a := CallerOrWorkerReady(s);
    }
    forall k | 0 <= k < |s.workers| ensures s.workers[k].Gone? {
      if !s.workers[k].Gone? {
        NoWorkerBlocksAfterReturn(s, k);
      }
    }
  }

  // ---------------------------------------------------------------- what a run ends with

  /** The service refused some part. */
  ghost predicate SomePartFailed(s: State) {
    exists k :: 0 <= k < |s.workers| && SentNack(s.workers[k]) == 1
  }

  /**
    What the caller's result says about the calls made to the service:
    success means one successful Complete with the full list and no Abort, anything else means
    no successful Complete and exactly one Abort, and a part error is returned exactly when some
    part failed, with the error of such a part.
   */
  ghost predicate ResultIsRight(s: State)
    requires s.main.Returned?
  {
    && (s.main.result == Done <==> s.completed && s.aborts == 0)
    && (s.main.result != Done <==> !s.completed && s.aborts == 1)
    && (s.main.result.PartError? <==> SomePartFailed(s))
    && (s.main.result.PartError? ==> Reported(s, s.main.result.error) && s.completes == [])
    && (!s.main.result.PartError? ==> CompletedOnce(s))
  }

  lemma FinishedIsRight(s: State)
    requires Inv(s) && Finished(s)
    ensures ResultIsRight(s)
  {
    if s.main.result.PartError? {
      assert Reported(s, s.main.result.error);
    }
    if SomePartFailed(s) {
      var k :| 0 <= k < |s.workers| && SentNack(s.workers[k]) == 1;
      UnackedNeverComplete(s.workers, k);
    }
  }

  lemma {:induction false} RunKeepsInv(s: State, acts: seq<Action>)
    requires Inv(s) && IsRun(s, acts)
    ensures Inv(After(s, acts))
    ensures |acts| + Measure(After(s, acts)) <= Measure(s) && Measure(After(s, acts)) >= 0
    decreases |acts|
  {
    if acts == [] {
      if s.main.Probe? || s.main.Await? || s.main.Collect? {
        assert MainWork(s.main, s.partNum) >= 0;
      }
    } else {
      StepKeepsInv(s, acts[0]);
      StepDecreases(s, acts[0]);
      RunKeepsInv(Next(s, acts[0]), acts[1..]);
    }
  }

  /**
    Whatever the scheduler, the ready cases the selects take and the answers of the service: at
    every point of a run Complete has been called at most once and only with the full list, and at
    most maxParallel + 1 errors have been sent; a run has at most 6 * partNum + 6 steps, and one
    that can go no further has ended every goroutine and returned the right result.
   */
  lemma EveryRunEndsRight(partNum: nat, maxParallel: nat, acts: seq<Action>)
    requires maxParallel >= 1
    requires IsRun(Init(partNum, maxParallel), acts)
    ensures |acts| <= 6 * partNum + 6
    ensures var s := After(Init(partNum, maxParallel), acts);
            && (s.completes == [] || CompletedOnce(s))
            && s.aborts <= 1
            && |s.errs| <= Sum(s.workers, SentNack) <= maxParallel + 1
    ensures Stuck(After(Init(partNum, maxParallel), acts)) ==>
              Finished(After(Init(partNum, maxParallel), acts))
                  && ResultIsRight(After(Init(partNum, maxParallel), acts))
  {
    InitInv(partNum, maxParallel);
    RunKeepsInv(Init(partNum, maxParallel), acts);
    ParametersFixed(Init(partNum, maxParallel), acts);
    var s := After(Init(partNum, maxParallel), acts);
    if Stuck(s) {
      NoDeadlock(s);
      FinishedIsRight(s);
    }
  }

  lemma {:induction false} ParametersFixed(s: State, acts: seq<Action>)
    requires IsRun(s, acts)
    ensures After(s, acts).partNum == s.partNum && After(s, acts).maxParallel == s.maxParallel
    decreases |acts|
  {
    if acts == [] {
    } else {
      ParametersFixed(Next(s, acts[0]), acts[1..]);
    }
  }
}
