/**
  The goroutine and channel protocol of UploadSuperFile after the upload has been initiated: a pool
  of worker ids, a result channel that carries an ETag or nil for each part, and an error channel.
  A step of any goroutine is an `Action`; the order of actions is the scheduler's.
 */
module SuperUpload {
  import opened Options
  import opened Tally
  import opened PartList

  /** The program counter of uploadPart. A worker holds its id until it is Gone. */
  datatype Worker =
    | Uploading(id: nat)
    | Answered(id: nat, reply: Reply)      // about to send the result, or nil
    | NilSent(id: nat, error: Error)       // nil sent, about to send the error
    | Leaving(id: nat, reply: Reply)       // about to give the id back
    | Gone(reply: Reply)

  /** The program counter of UploadSuperFile. */
  datatype Main =
    | Launch(next: nat)                          // the launch loop and its select
    | Collect(got: nat, list: seq<PartInfo>)     // the collecting loop
    | NilSeen                                    // a nil result arrived, Abort is next
    | AwaitError                                 // aborted, blocked on the error channel
    | Ready(list: seq<PartInfo>)                 // all parts collected, Complete is next
    | Failing(result: Result)                    // Abort is next
    | Returned(result: Result)

  datatype State = State(
    partNum: nat,
    maxParallel: nat,
    pool: seq<nat>,                     // workerPool, capacity maxParallel
    results: seq<Option<PartInfo>>,     // uploadedResult, capacity partNum; None is nil
    errs: seq<Error>,                   // retChan, capacity partNum
    workers: seq<Worker>,               // workers[k] uploads part k+1
    main: Main,
    completes: seq<seq<PartInfo>>,      // the part lists given to CompleteMultipartUpload
    completed: bool,                    // whether one of those calls succeeded
    aborts: nat)                        // calls of AbortMultipartUpload

  datatype Action =
    | TakeWorker
    | TakeError
    | EndLaunch
    | TakeResult
    | EndCollect
    | AbortOnNil
    | TakeLateError
    | CompleteOk
    | CompleteFails(error: Error)
    | Abort
    | Answer(k: nat, reply: Reply)
    | SendResult(k: nat)
    | SendError(k: nat)
    | GiveBack(k: nat)

  function Ids(n: nat): (ids: seq<nat>)
    ensures |ids| == n && forall i :: 0 <= i < n ==> ids[i] == i
  {
    seq(n, i => i)
  }

  function Init(partNum: nat, maxParallel: nat): State {
    State(partNum, maxParallel, Ids(maxParallel), [], [], [], Launch(0), [], false, 0)
  }

  predicate CanTakeWorker(s: State) {
    s.main.Launch? && s.main.next < s.partNum && s.pool != []
  }

  function AfterTakeWorker(s: State): State
    requires CanTakeWorker(s)
  {
    s.(pool := s.pool[1..], workers := s.workers + [Uploading(s.pool[0])], main := Launch(s.main.next + 1))
  }

  /** For a non-nil result the slot index must be in range, otherwise the store would panic. */
  predicate CanTakeResult(s: State) {
    && s.main.Collect?
    && s.main.got < s.partNum
    && s.results != []
    && (s.results[0].Some? ==> 1 <= s.results[0].value.partNumber <= |s.main.list|)
  }

  function AfterTakeResult(s: State): State
    requires CanTakeResult(s)
  {
    match s.results[0]
    case None => s.(results := s.results[1..], main := NilSeen)
    case Some(p) =>
      s.(results := s.results[1..], main := Collect(s.main.got + 1, s.main.list[p.partNumber - 1 := p]))
  }

  predicate CanSendResult(s: State, k: nat) {
    k < |s.workers| && s.workers[k].Answered? && |s.results| < s.partNum
  }

  function AfterSendResult(s: State, k: nat): State
    requires CanSendResult(s, k)
  {
    match s.workers[k].reply
    case Ack(etag) =>
      s.(results := s.results + [Some(PartInfo(k + 1, etag))],
         workers := s.workers[k := Leaving(s.workers[k].id, s.workers[k].reply)])
    case Nack(e) =>
      s.(results := s.results + [None], workers := s.workers[k := NilSent(s.workers[k].id, e)])
  }

  predicate CanSendError(s: State, k: nat) {
    k < |s.workers| && s.workers[k].NilSent? && |s.errs| < s.partNum
  }

  function AfterSendError(s: State, k: nat): State
    requires CanSendError(s, k)
  {
    var w := s.workers[k];
    s.(errs := s.errs + [w.error], workers := s.workers[k := Leaving(w.id, Nack(w.error))])
  }

  predicate CanGiveBack(s: State, k: nat) {
    k < |s.workers| && s.workers[k].Leaving? && |s.pool| < s.maxParallel
  }

  function AfterGiveBack(s: State, k: nat): State
    requires CanGiveBack(s, k)
  {
    s.(pool := s.pool + [s.workers[k].id], workers := s.workers[k := Gone(s.workers[k].reply)])
  }

  predicate Enabled(s: State, a: Action) {
    match a
    case TakeWorker => CanTakeWorker(s)
    case TakeError => s.main.Launch? && s.main.next < s.partNum && s.errs != []
    case EndLaunch => s.main.Launch? && s.main.next >= s.partNum
    case TakeResult => CanTakeResult(s)
    case EndCollect => s.main.Collect? && s.main.got >= s.partNum
    case AbortOnNil => s.main.NilSeen?
    case TakeLateError => s.main.AwaitError? && s.errs != []
    case CompleteOk => s.main.Ready?
    case CompleteFails(_) => s.main.Ready?
    case Abort => s.main.Failing?
    case Answer(k, _) => k < |s.workers| && s.workers[k].Uploading?
    case SendResult(k) => CanSendResult(s, k)
    case SendError(k) => CanSendError(s, k)
    case GiveBack(k) => CanGiveBack(s, k)
  }

  function Next(s: State, a: Action): State
    requires Enabled(s, a)
  {
    match a
    case TakeWorker => AfterTakeWorker(s)
    case TakeError => s.(errs := s.errs[1..], main := Failing(PartError(s.errs[0])))
    case EndLaunch => s.(main := Collect(0, Blanks(s.partNum)))
    case TakeResult => AfterTakeResult(s)
    case EndCollect => s.(main := Ready(s.main.list))
    case AbortOnNil => s.(aborts := s.aborts + 1, main := AwaitError)
    case TakeLateError => s.(errs := s.errs[1..], main := Returned(PartError(s.errs[0])))
    case CompleteOk => s.(completes := s.completes + [s.main.list], completed := true, main := Returned(Done))
    case CompleteFails(e) => s.(completes := s.completes + [s.main.list], main := Failing(CompleteError(e)))
    case Abort => s.(aborts := s.aborts + 1, main := Returned(s.main.result))
    case Answer(k, reply) => s.(workers := s.workers[k := Answered(s.workers[k].id, reply)])
    case SendResult(k) => AfterSendResult(s, k)
    case SendError(k) => AfterSendError(s, k)
    case GiveBack(k) => AfterGiveBack(s, k)
  }

  ghost predicate IsRun(s: State, acts: seq<Action>)
    decreases |acts|
  {
    acts == [] || (Enabled(s, acts[0]) && IsRun(Next(s, acts[0]), acts[1..]))
  }

  ghost function After(s: State, acts: seq<Action>): State
    requires IsRun(s, acts)
    decreases |acts|
  {
    if acts == [] then s else After(Next(s, acts[0]), acts[1..])
  }

  /** No goroutine can take a step. */
  ghost predicate Stuck(s: State) {
    forall a :: !Enabled(s, a)
  }

  /** UploadSuperFile has returned and every worker it launched has ended. */
  ghost predicate Finished(s: State) {
    s.main.Returned? && forall k :: 0 <= k < |s.workers| ==> s.workers[k].Gone?
  }

  // ---------------------------------------------------------------- what the invariant counts

  function InFlight(w: Worker): nat { if w.Gone? then 0 else 1 }

  function Unsent(w: Worker): nat { if w.Uploading? || w.Answered? then 1 else 0 }

  function ResultSent(w: Worker): nat { 1 - Unsent(w) }

  function NilGiven(w: Worker): nat {
    if w.NilSent? || ((w.Leaving? || w.Gone?) && w.reply.Nack?) then 1 else 0
  }

  function ErrorSent(w: Worker): nat { if (w.Leaving? || w.Gone?) && w.reply.Nack? then 1 else 0 }

  function AckOf(w: Worker): Option<ETag> {
    if (w.Leaving? || w.Gone?) && w.reply.Ack? then Some(w.reply.etag) else None
  }

  function Acked(workers: seq<Worker>): (acked: seq<Option<ETag>>)
    ensures |acked| == |workers|
  {
    seq(|workers|, i requires 0 <= i < |workers| => AckOf(workers[i]))
  }

  function HoldsId(id: nat): Worker -> nat {
    (w: Worker) => if !w.Gone? && w.id == id then 1 else 0
  }

  /** How often an id is in existence: free in the pool or in the hands of a worker. */
  function IdCount(s: State, id: nat): nat {
    multiset(s.pool)[id] + Sum(s.workers, HoldsId(id))
  }

  /** The non-nil results in a queue. */
  function Infos(queue: seq<Option<PartInfo>>): seq<PartInfo> {
    if queue == [] then []
    else Infos(queue[..|queue| - 1]) + (if queue[|queue| - 1].Some? then [queue[|queue| - 1].value] else [])
  }

  /** Some worker has sent this error. */
  ghost predicate Reported(s: State, e: Error) {
    exists k :: 0 <= k < |s.workers| && ErrorSent(s.workers[k]) == 1 && s.workers[k].reply.error == e
  }

  /** Errors UploadSuperFile has taken out of the error channel: at most one. */
  function Heard(main: Main): nat {
    if (main.Failing? || main.Returned?) && main.result.PartError? then 1 else 0
  }

  // ---------------------------------------------------------------- the invariant

  ghost predicate Launched(s: State) {
    match s.main
    case Launch(next) => |s.workers| == next <= s.partNum
    case Failing(PartError(_)) => |s.workers| <= s.partNum
    case Returned(PartError(_)) => |s.workers| <= s.partNum
    case _ => |s.workers| == s.partNum
  }

  /** Free ids and uploads in flight always add up to maxParallel. */
  ghost predicate IdsConserved(s: State) {
    |s.pool| + Sum(s.workers, InFlight) == s.maxParallel
  }

  ghost predicate ErrorsCounted(s: State) {
    && Sum(s.workers, ErrorSent) == |s.errs| + Heard(s.main)
    && (s.main.NilSeen? || s.main.AwaitError? ==> Sum(s.workers, NilGiven) > 0)
    && (forall i :: 0 <= i < |s.errs| ==> Reported(s, s.errs[i]))
    && (Heard(s.main) == 1 ==> Reported(s, s.main.result.error))
  }

  /** The part list as far as it has been filled; before the collecting loop it is blank. */
  function ListSoFar(s: State): seq<PartInfo> {
    if s.main.Collect? then s.main.list else Blanks(s.partNum)
  }

  function Got(main: Main): nat {
    if main.Collect? then main.got else 0
  }

  ghost predicate ResultsCollected(s: State) {
    match s.main
    case Launch(_) => StillCollecting(s)
    case Collect(_, _) => StillCollecting(s)
    case Ready(list) => |s.results| <= Sum(s.workers, ResultSent) && IsComplete(list, Acked(s.workers))
    case _ => |s.results| <= Sum(s.workers, ResultSent)
  }

  ghost predicate StillCollecting(s: State) {
    && |s.results| + Got(s.main) == Sum(s.workers, ResultSent)
    && |ListSoFar(s)| == s.partNum
    && Got(s.main) == Filled(ListSoFar(s)) <= s.partNum
    && Collecting(Infos(s.results), ListSoFar(s), Acked(s.workers))
    && (None in s.results ==> Sum(s.workers, NilGiven) > 0)
  }

  /** The calls made to the service, by where UploadSuperFile stands. */
  ghost predicate CallsMade(s: State) {
    match s.main
    case AwaitError => s.completes == [] && !s.completed && s.aborts == 1
    case Failing(PartError(_)) => s.completes == [] && !s.completed && s.aborts == 0
    case Failing(CompleteError(_)) => CompletedOnce(s) && !s.completed && s.aborts == 0
    case Failing(Done) => false
    case Returned(PartError(_)) => s.completes == [] && !s.completed && s.aborts == 1
    case Returned(CompleteError(_)) => CompletedOnce(s) && !s.completed && s.aborts == 1
    case Returned(Done) => CompletedOnce(s) && s.completed && s.aborts == 0
    case _ => s.completes == [] && !s.completed && s.aborts == 0
  }

  /** Complete was called once, with the full list of the ETags the service had returned. */
  ghost predicate CompletedOnce(s: State) {
    |s.completes| == 1 && |s.completes[0]| == s.partNum && IsComplete(s.completes[0], Acked(s.workers))
  }

  ghost predicate Inv(s: State) {
    && s.maxParallel >= 1
    && Launched(s)
    && IdsConserved(s)
    && ErrorsCounted(s)
    && ResultsCollected(s)
    && CallsMade(s)
  }

  // ---------------------------------------------------------------- every step keeps it

  lemma InitInv(partNum: nat, maxParallel: nat)
    requires maxParallel >= 1
    ensures Inv(Init(partNum, maxParallel))
  {
    BlanksUnfilled(partNum);
  }

  lemma InfosAppend(queue: seq<Option<PartInfo>>, r: Option<PartInfo>)
    ensures Infos(queue + [r]) == Infos(queue) + (if r.Some? then [r.value] else [])
  {
    assert (queue + [r])[..|queue|] == queue;
  }

  lemma {:induction false} InfosTail(queue: seq<Option<PartInfo>>)
    requires queue != []
    ensures Infos(queue) == (if queue[0].Some? then [queue[0].value] else []) + Infos(queue[1..])
  {
    var n := |queue| - 1;
    if n > 0 {
      InfosTail(queue[..n]);
      assert queue[..n][1..] == queue[1..][..n - 1];
    } else {
      assert queue[..0] == [] && queue[1..] == [];
      assert Infos(queue[..0]) == [];
    }
  }

  /** How replacing one worker changes the counts. */
  lemma WorkerMoves(ws: seq<Worker>, k: nat, w: Worker)
    requires k < |ws|
    ensures Sum(ws[k := w], InFlight) + InFlight(ws[k]) == Sum(ws, InFlight) + InFlight(w)
    ensures Sum(ws[k := w], ResultSent) + ResultSent(ws[k]) == Sum(ws, ResultSent) + ResultSent(w)
    ensures Sum(ws[k := w], NilGiven) + NilGiven(ws[k]) == Sum(ws, NilGiven) + NilGiven(w)
    ensures Sum(ws[k := w], ErrorSent) + ErrorSent(ws[k]) == Sum(ws, ErrorSent) + ErrorSent(w)
    ensures Acked(ws[k := w]) == Acked(ws)[k := AckOf(w)]
  {
    SumUpdate(ws, k, w, InFlight);
    SumUpdate(ws, k, w, ResultSent);
    SumUpdate(ws, k, w, NilGiven);
    SumUpdate(ws, k, w, ErrorSent);
  }

  lemma ReportedKept(s: State, s': State, k: nat)
    requires k < |s.workers| && |s'.workers| == |s.workers|
    requires s'.workers == s.workers[k := s'.workers[k]]
    requires ErrorSent(s.workers[k]) == 1 ==> ErrorSent(s'.workers[k]) == 1 && s'.workers[k].reply == s.workers[k].reply
    ensures forall e :: Reported(s, e) ==> Reported(s', e)
  {
    forall e | Reported(s, e) ensures Reported(s', e) {
      var j :| 0 <= j < |s.workers| && ErrorSent(s.workers[j]) == 1 && s.workers[j].reply.error == e;
      assert ErrorSent(s'.workers[j]) == 1 && s'.workers[j].reply.error == e;
    }
  }

  lemma ReportedGrows(s: State, s': State, w: Worker)
    requires s'.workers == s.workers + [w]
    ensures forall e :: Reported(s, e) ==> Reported(s', e)
  {
    forall e | Reported(s, e) ensures Reported(s', e) {
      var j :| 0 <= j < |s.workers| && ErrorSent(s.workers[j]) == 1 && s.workers[j].reply.error == e;
      assert s'.workers[j] == s.workers[j];
    }
  }

  /** No list is complete while some worker has not sent an ETag. */
  lemma UnackedNeverComplete(workers: seq<Worker>, k: nat)
    requires k < |workers| && AckOf(workers[k]) == None
    ensures forall list :: !IsComplete(list, Acked(workers))
  {
    assert Acked(workers)[k] == None;
  }

  lemma AnswerKeeps(s: State, k: nat, reply: Reply)
    requires Inv(s) && Enabled(s, Answer(k, reply))
    ensures Inv(Next(s, Answer(k, reply)))
  {
    var s' := Next(s, Answer(k, reply));
    WorkerMoves(s.workers, k, Answered(s.workers[k].id, reply));
    ReportedKept(s, s', k);
    assert Acked(s'.workers) == Acked(s.workers);
  }

  lemma SendAckCollected(s: State, k: nat)
    requires ResultsCollected(s) && Launched(s) && CanSendResult(s, k) && s.workers[k].reply.Ack?
    ensures ResultsCollected(AfterSendResult(s, k))
  {
    var s', etag := AfterSendResult(s, k), s.workers[k].reply.etag;
    WorkerMoves(s.workers, k, Leaving(s.workers[k].id, s.workers[k].reply));
    UnackedNeverComplete(s.workers, k);
    InfosAppend(s.results, Some(PartInfo(k + 1, etag)));
    if s.main.Launch? || s.main.Collect? {
      PostKeeps(Infos(s.results), ListSoFar(s), Acked(s.workers), k, etag);
      assert s'.main == s.main && ListSoFar(s') == ListSoFar(s);
      assert StillCollecting(s');
    }
  }

  lemma SendAckKeeps(s: State, k: nat)
    requires Inv(s) && CanSendResult(s, k) && s.workers[k].reply.Ack?
    ensures Inv(AfterSendResult(s, k))
  {
    var s' := AfterSendResult(s, k);
    SendAckCollected(s, k);
    UnackedNeverComplete(s.workers, k);
    assert ErrorsCounted(s') && IdsConserved(s') by {
      ReportedKept(s, s', k);
      WorkerMoves(s.workers, k, s'.workers[k]);
    }
  }

  lemma SendNilKeeps(s: State, k: nat)
    requires Inv(s) && CanSendResult(s, k) && s.workers[k].reply.Nack?
    ensures Inv(AfterSendResult(s, k))
  {
    var s' := AfterSendResult(s, k);
    WorkerMoves(s.workers, k, s'.workers[k]);
    ReportedKept(s, s', k);
    InfosAppend(s.results, None);
    assert Acked(s'.workers) == Acked(s.workers);
    assert ListSoFar(s') == ListSoFar(s);
  }

  lemma SendErrorKeeps(s: State, k: nat)
    requires Inv(s) && CanSendError(s, k)
    ensures Inv(AfterSendError(s, k))
  {
    var s' := AfterSendError(s, k);
    WorkerMoves(s.workers, k, s'.workers[k]);
    ReportedKept(s, s', k);
    assert Reported(s', s.workers[k].error) by { assert ErrorSent(s'.workers[k]) == 1; }
    assert Acked(s'.workers) == Acked(s.workers);
    assert ListSoFar(s') == ListSoFar(s);
  }

  lemma GiveBackKeeps(s: State, k: nat)
    requires Inv(s) && CanGiveBack(s, k)
    ensures Inv(AfterGiveBack(s, k))
  {
    var s' := AfterGiveBack(s, k);
    WorkerMoves(s.workers, k, s'.workers[k]);
    ReportedKept(s, s', k);
    assert Acked(s'.workers) == Acked(s.workers);
    assert ListSoFar(s') == ListSoFar(s);
  }

  lemma TakeWorkerCollected(s: State)
    requires ResultsCollected(s) && Launched(s) && CanTakeWorker(s)
    ensures ResultsCollected(AfterTakeWorker(s))
  {
    var w := Uploading(s.pool[0]);
    SumAppend(s.workers, w, ResultSent);
    SumAppend(s.workers, w, NilGiven);
    assert Acked(s.workers + [w]) == Acked(s.workers) + [None];
    assert ListSoFar(AfterTakeWorker(s)) == ListSoFar(s);
    NewPartKeeps(Infos(s.results), ListSoFar(s), Acked(s.workers));
  }

  lemma TakeWorkerKeeps(s: State)
    requires Inv(s) && CanTakeWorker(s)
    ensures Inv(AfterTakeWorker(s))
  {
    var s', w := AfterTakeWorker(s), Uploading(s.pool[0]);
    TakeWorkerCollected(s);
    assert IdsConserved(s') by { SumAppend(s.workers, w, InFlight); }
    assert ErrorsCounted(s') by {
      SumAppend(s.workers, w, ErrorSent);
      ReportedGrows(s, s', w);
    }
  }

  lemma TakeInfoCollected(s: State)
    requires StillCollecting(s) && CanTakeResult(s) && s.results[0].Some?
    ensures StillCollecting(AfterTakeResult(s))
  {
    var s' := AfterTakeResult(s);
    InfosTail(s.results);
    StoreKeeps(Infos(s.results), s.main.list, Acked(s.workers));
    assert Infos(s.results)[1..] == Infos(s'.results);
    SumOfUnits(s'.main.list, IsFilled);
    assert None in s'.results ==> None in s.results;
  }

  lemma TakeResultKeeps(s: State)
    requires Inv(s) && CanTakeResult(s)
    ensures Inv(AfterTakeResult(s))
  {
    if s.results[0].Some? {
      TakeInfoCollected(s);
    }
  }

  lemma TakeErrorKeeps(s: State, a: Action)
    requires Inv(s) && Enabled(s, a) && (a.TakeError? || a.TakeLateError?)
    ensures Inv(Next(s, a))
  {
    var s' := Next(s, a);
    assert Reported(s, s.errs[0]);
    assert forall e :: Reported(s, e) ==> Reported(s', e) by {
      assert s'.workers == s.workers;
    }
  }

  lemma MainKeeps(s: State, a: Action)
    requires Inv(s) && Enabled(s, a)
    requires a.EndLaunch? || a.EndCollect? || a.AbortOnNil? || a.CompleteOk? || a.CompleteFails? || a.Abort?
    ensures Inv(Next(s, a))
  {
    if a.EndCollect? {
      FullListIsComplete(Infos(s.results), s.main.list, Acked(s.workers));
    }
  }

  lemma StepKeepsInv(s: State, a: Action)
    requires Inv(s) && Enabled(s, a)
    ensures Inv(Next(s, a))
  {
    match a
    case Answer(k, reply) => AnswerKeeps(s, k, reply);
    case SendResult(k) =>
      if s.workers[k].reply.Ack? { SendAckKeeps(s, k); } else { SendNilKeeps(s, k); }
    case SendError(k) => SendErrorKeeps(s, k);
    case GiveBack(k) => GiveBackKeeps(s, k);
    case TakeWorker => TakeWorkerKeeps(s);
    case TakeResult => TakeResultKeeps(s);
    case TakeError => TakeErrorKeeps(s, a);
    case TakeLateError => TakeErrorKeeps(s, a);
    case _ => MainKeeps(s, a);
  }

  // ---------------------------------------------------------------- termination

  function Work(w: Worker): nat {
    match w
    case Uploading(_) => 4
    case Answered(_, _) => 3
    case NilSent(_, _) => 2
    case Leaving(_, _) => 1
    case Gone(_) => 0
  }

  function MainWork(main: Main, partNum: nat): int {
    match main
    case Launch(next) => 6 * partNum - 5 * next + 5
    case Collect(got, _) => partNum - got + 4
    case Ready(_) => 3
    case NilSeen => 2
    case AwaitError => 1
    case Failing(_) => 1
    case Returned(_) => 0
  }

  function Measure(s: State): int {
    MainWork(s.main, s.partNum) + Sum(s.workers, Work)
  }

  lemma MainStepDecreases(s: State, a: Action)
    requires Launched(s) && ResultsCollected(s) && Enabled(s, a)
    requires !a.Answer? && !a.SendResult? && !a.SendError? && !a.GiveBack?
    ensures 0 <= Measure(Next(s, a)) < Measure(s)
  {
    if a == TakeWorker {
      SumAppend(s.workers, Uploading(s.pool[0]), Work);
    }
  }

  lemma WorkerStepDecreases(s: State, a: Action)
    requires Enabled(s, a)
    requires a.Answer? || a.SendResult? || a.SendError? || a.GiveBack?
    ensures Measure(Next(s, a)) < Measure(s)
    ensures Next(s, a).main == s.main && Next(s, a).partNum == s.partNum
  {
    SumUpdate(s.workers, a.k, Next(s, a).workers[a.k], Work);
  }

  lemma StepDecreases(s: State, a: Action)
    requires Inv(s) && Enabled(s, a)
    ensures 0 <= Measure(Next(s, a)) < Measure(s)
  {
    if a.Answer? || a.SendResult? || a.SendError? || a.GiveBack? {
      WorkerStepDecreases(s, a);
      assert MainWork(s.main, s.partNum) >= 0;
    } else {
      MainStepDecreases(s, a);
    }
  }

  // ---------------------------------------------------------------- no deadlock

  lemma {:induction false} SentOrUnsent(ws: seq<Worker>)
    ensures Sum(ws, Unsent) + Sum(ws, ResultSent) == |ws|
    ensures Sum(ws, ErrorSent) + Sum(ws, Unsent) <= |ws|
  {
    if ws == [] {
    } else {
      SentOrUnsent(ws[..|ws| - 1]);
    }
  }

  lemma {:induction false} NilWithoutError(ws: seq<Worker>) returns (k: nat)
    requires Sum(ws, NilGiven) > Sum(ws, ErrorSent)
    ensures k < |ws| && ws[k].NilSent?
  {
    k := |ws| - 1;
    if ws[k].NilSent? {
    } else {
      k := NilWithoutError(ws[..k]);
    }
  }

  lemma {:induction false} ErrorsLeaveRoom(ws: seq<Worker>, k: nat)
    requires k < |ws| && ws[k].NilSent?
    ensures Sum(ws, ErrorSent) < |ws|
  {
    SumOfUnits(ws, ErrorSent);
  }

  /** The next action of a worker that has not ended. */
  function WorkerAction(k: nat, w: Worker): Action
    requires !w.Gone?
  {
    match w
    case Uploading(_) => Answer(k, Ack(""))
    case Answered(_, _) => SendResult(k)
    case NilSent(_, _) => SendError(k)
    case Leaving(_, _) => GiveBack(k)
  }

  /** No worker ever has to wait on a channel: each send finds room. */
  lemma WorkersNeverBlock(s: State, k: nat)
    requires Inv(s) && k < |s.workers| && !s.workers[k].Gone?
    ensures Enabled(s, WorkerAction(k, s.workers[k]))
  {
    SentOrUnsent(s.workers);
    SumAtLeast(s.workers, k, Unsent);
    SumAtLeast(s.workers, k, InFlight);
    if s.workers[k].NilSent? {
      ErrorsLeaveRoom(s.workers, k);
    }
  }

  lemma CallerOrWorkerReady(s: State) returns (a: Action)
    requires Inv(s) && !s.main.Returned?
    ensures Enabled(s, a) && (a.Answer? ==> a.reply.Ack?) && !a.CompleteFails?
  {
    match s.main
    case Launch(next) =>
      if next >= s.partNum {
        a := EndLaunch;
      } else if s.pool != [] {
        a := TakeWorker;
      } else {
        var k := SumPositive(s.workers, InFlight);
        WorkersNeverBlock(s, k);
        a := WorkerAction(k, s.workers[k]);
      }
    case Collect(got, list) =>
      if got >= s.partNum {
        a := EndCollect;
      } else if s.results != [] {
        InfosTail(s.results);
        if s.results[0].Some? {
          StoreKeeps(Infos(s.results), list, Acked(s.workers));
        }
        a := TakeResult;
      } else {
        SentOrUnsent(s.workers);
        var k := SumPositive(s.workers, Unsent);
        WorkersNeverBlock(s, k);
        a := WorkerAction(k, s.workers[k]);
      }
    case NilSeen => a := AbortOnNil;
    case AwaitError =>
      if s.errs != [] {
        a := TakeLateError;
      } else {
        var k := NilWithoutError(s.workers);
        WorkersNeverBlock(s, k);
        a := WorkerAction(k, s.workers[k]);
      }
    case Ready(_) => a := CompleteOk;
    case Failing(_) => a := Abort;
  }

  lemma NoDeadlock(s: State)
    requires Inv(s) && Stuck(s)
    ensures Finished(s)
  {
    if !s.main.Returned? {
      var a := CallerOrWorkerReady(s);
    }
    forall k | 0 <= k < |s.workers| ensures s.workers[k].Gone? {
      if !s.workers[k].Gone? {
        WorkersNeverBlock(s, k);
      }
    }
  }

  // ---------------------------------------------------------------- what a run ends with

  ghost predicate SomePartFailed(s: State) {
    exists k :: 0 <= k < |s.workers| && ErrorSent(s.workers[k]) == 1
  }

  /**
    What the returned error says about the calls made to the service: nil means one successful
    Complete with the full list and no Abort, anything else means no successful Complete and
    exactly one Abort, and a part error is returned exactly when some part failed, with the error
    of such a part.
   */
  ghost predicate ResultIsRight(s: State)
    requires s.main.Returned?
  {
    && (s.main.result == Done <==> s.completed && s.aborts == 0)
    && (s.main.result != Done <==> !s.completed && s.aborts == 1)
    && (s.main.result.PartError? <==> SomePartFailed(s))
    && (s.main.result.PartError? ==> Reported(s, s.main.result.error) && s.completes == [])
    && (!s.main.result.PartError? ==> CompletedOnce(s))
  }

  lemma FinishedIsRight(s: State)
    requires Inv(s) && Finished(s)
    ensures ResultIsRight(s)
  {
    if s.main.result.PartError? {
      assert Reported(s, s.main.result.error);
    }
    if SomePartFailed(s) {
      var k :| 0 <= k < |s.workers| && ErrorSent(s.workers[k]) == 1;
      UnackedNeverComplete(s.workers, k);
    }
  }

  lemma {:induction false} RunKeepsInv(s: State, acts: seq<Action>)
    requires Inv(s) && IsRun(s, acts)
    ensures Inv(After(s, acts))
    ensures |acts| + Measure(After(s, acts)) <= Measure(s) && Measure(After(s, acts)) >= 0
    decreases |acts|
  {
    if acts == [] {
      assert MainWork(s.main, s.partNum) >= 0;
    } else {
      StepKeepsInv(s, acts[0]);
      StepDecreases(s, acts[0]);
      RunKeepsInv(Next(s, acts[0]), acts[1..]);
    }
  }

  /** No step creates, duplicates or loses a worker id. */
  lemma StepKeepsIds(s: State, a: Action, id: nat)
    requires Enabled(s, a)
    ensures IdCount(Next(s, a), id) == IdCount(s, id)
  {
    if a.TakeWorker? {
      TakeWorkerKeepsIds(s, id);
    } else if a.GiveBack? {
      GiveBackKeepsIds(s, a.k, id);
    } else if a.Answer? || a.SendResult? || a.SendError? {
      UploadKeepsIds(s, a, id);
    }
  }

  lemma UploadKeepsIds(s: State, a: Action, id: nat)
    requires Enabled(s, a) && (a.Answer? || a.SendResult? || a.SendError?)
    ensures IdCount(Next(s, a), id) == IdCount(s, id)
  {
    SumUpdate(s.workers, a.k, Next(s, a).workers[a.k], HoldsId(id));
  }

  lemma GiveBackKeepsIds(s: State, k: nat, id: nat)
    requires CanGiveBack(s, k)
    ensures IdCount(AfterGiveBack(s, k), id) == IdCount(s, id)
  {
    SumUpdate(s.workers, k, AfterGiveBack(s, k).workers[k], HoldsId(id));
  }

  lemma TakeWorkerKeepsIds(s: State, id: nat)
    requires CanTakeWorker(s)
    ensures IdCount(AfterTakeWorker(s), id) == IdCount(s, id)
  {
    SumAppend(s.workers, Uploading(s.pool[0]), HoldsId(id));
    assert s.pool == [s.pool[0]] + s.pool[1..];
  }

  lemma {:induction false} IdsOnce(n: nat, id: nat)
    ensures multiset(Ids(n))[id] == if id < n then 1 else 0
  {
    if n == 0 {
    } else {
      IdsOnce(n - 1, id);
      assert Ids(n) == Ids(n - 1) + [n - 1];
    }
  }

  lemma {:induction false} RunKeepsIds(s: State, acts: seq<Action>, id: nat)
    requires IsRun(s, acts)
    ensures IdCount(After(s, acts), id) == IdCount(s, id)
    decreases |acts|
  {
    if acts == [] {
    } else {
      StepKeepsIds(s, acts[0], id);
      RunKeepsIds(Next(s, acts[0]), acts[1..], id);
    }
  }

  /** At every point of a run each worker id is free once, or held by exactly one upload in flight. */
  lemma EveryIdAccountedFor(partNum: nat, maxParallel: nat, acts: seq<Action>, id: nat)
    requires IsRun(Init(partNum, maxParallel), acts)
    ensures IdCount(After(Init(partNum, maxParallel), acts), id) == if id < maxParallel then 1 else 0
  {
    RunKeepsIds(Init(partNum, maxParallel), acts, id);
    IdsOnce(maxParallel, id);
  }

  /**
    Whatever the scheduler, the ready cases the select takes and the answers of the service: at
    every point of a run the free ids and the uploads in flight add up to maxParallel and Complete has
    been called at most once and only with the full list; a run has at
    most 6 * partNum + 5 steps, and one that can go no further has ended every goroutine and
    returned the right result.
   */
  lemma EveryRunEndsRight(partNum: nat, maxParallel: nat, acts: seq<Action>)
    requires maxParallel >= 1
    requires IsRun(Init(partNum, maxParallel), acts)
    ensures |acts| <= 6 * partNum + 5
    ensures var s := After(Init(partNum, maxParallel), acts);
            && |s.pool| + Sum(s.workers, InFlight) == maxParallel
            && (s.completes == [] || CompletedOnce(s))
            && s.aborts <= 1
    ensures Stuck(After(Init(partNum, maxParallel), acts)) ==>
              Finished(After(Init(partNum, maxParallel), acts))
                  && ResultIsRight(After(Init(partNum, maxParallel), acts))
  {
    InitInv(partNum, maxParallel);
    RunKeepsInv(Init(partNum, maxParallel), acts);
    ParametersFixed(Init(partNum, maxParallel), acts);
    var s := After(Init(partNum, maxParallel), acts);
    if Stuck(s) {
      NoDeadlock(s);
      FinishedIsRight(s);
    }
  }

  lemma {:induction false} ParametersFixed(s: State, acts: seq<Action>)
    requires IsRun(s, acts)
    ensures After(s, acts).partNum == s.partNum && After(s, acts).maxParallel == s.maxParallel
    decreases |acts|
  {
    if acts == [] {
    } else {
      ParametersFixed(Next(s, acts[0]), acts[1..]);
    }
  }
}
