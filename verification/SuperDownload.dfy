/**
  The goroutine and channel protocol of DownloadSuperFile: a pool of worker ids, an unbuffered abort
  channel and a channel of finished parts. Each worker reads its byte range in chunks and writes
  them into the shared local file. The named result `err` is a variable that the workers assign and
  the caller reads, in steps of their own.
 */
module SuperDownload {
  import opened Options
  import opened Bytes
  import opened Tally
  import opened PartList
  import opened PartPlan

  const BUFFER_SIZE := 4096

  datatype Stage =
    | Getting                // GetObject for the range is under way
    | Reading                // about to read the next chunk of the body
    | Writing(n: nat)        // n bytes read, about to write them
    | Aborting(error: Error)   // blocked on the abort channel
    | Assigning(error: Error)  // abort delivered, about to assign err
    | Dead(error: Error)       // err assigned
    | Returning              // about to give its id back
    | Signalling             // about to signal that the part is done
    | Gone

  /** A worker downloads `slice`; the bytes before `at` are written. */
  datatype Worker = Worker(slice: Slice, at: int, stage: Stage)

  datatype Main =
    | Launch(next: nat)      // the launch loop and its select
    | Wait(got: nat)         // waiting for the parts, without listening for aborts
    | Closing                // abort heard, bare return: the deferred function closes the file,
    | Removing               // then removes it if err is set,
    | Leaving                // and then the value of err is returned
    | Aborted(result: Option<Error>)  // returned that way
    | Completed              // reached the final return nil
    | Crashed                // a failed GetObject makes its worker read a field of a nil result

  datatype State = State(
    content: bytes,
    slices: seq<Slice>,
    maxParallel: nat,
    file: bytes,             // the local file
    removed: bool,           // whether it was removed again
    err: Option<Error>,      // the named result
    free: nat,               // ids in workerPool, capacity maxParallel
    done: nat,               // signals in doneChan, capacity |slices|
    workers: seq<Worker>,
    main: Main)

  datatype Action =
    | TakeWorker
    | EndLaunch
    | HearAbort(k: nat)
    | CloseFile
    | RemoveOnError
    | ReturnErr
    | TakeDone
    | EndWait
    | GetOk(k: nat)
    | GetFails(k: nat)
    | ReadChunk(k: nat, n: nat)
    | ReadEnd(k: nat)
    | ReadFails(k: nat, error: Error)
    | WriteOk(k: nat)
    | WriteFails(k: nat, written: nat, error: Error)
    | Assign(k: nat)
    | GiveBack(k: nat)
    | Signal(k: nat)

  function Init(content: bytes, slices: seq<Slice>, maxParallel: nat): State {
    State(content, slices, maxParallel, [], false, None, maxParallel, 0, [], Launch(0))
  }

  /** The file after bytes are written at an offset; a hole before it reads as zeros. */
  function WriteAt(file: bytes, data: bytes, offset: nat): (file': bytes)
    ensures |file'| == if |file| < offset + |data| then offset + |data| else |file|
    ensures forall b :: 0 <= b < |file'| ==>
              file'[b] == if offset <= b < offset + |data| then data[b - offset]
                          else if b < |file| then file[b] else '\0'
  {
    var padded := if |file| < offset + |data| then file + seq(offset + |data| - |file|, _ => '\0') else file;
    padded[..offset] + data + padded[offset + |data|..]
  }

  predicate Alive(s: State, k: nat) {
    k < |s.workers| && !s.main.Crashed?
  }

  predicate At(s: State, k: nat, stage: Stage) {
    Alive(s, k) && s.workers[k].stage == stage
  }

  /** Whether the caller is on its way out after an abort, or has returned that way. */
  predicate Unwinding(main: Main) {
    main.Closing? || main.Removing? || main.Leaving? || main.Aborted?
  }

  /** Once the file is closed, every write fails. */
  predicate Closed(main: Main) {
    main.Removing? || main.Leaving? || main.Aborted? || main.Completed?
  }

  function Move(s: State, k: nat, stage: Stage): State
    requires k < |s.workers|
  {
    s.(workers := s.workers[k := s.workers[k].(stage := stage)])
  }

  predicate CanWrite(s: State, k: nat, written: nat) {
    && Alive(s, k) && s.workers[k].stage.Writing?
    && written <= s.workers[k].stage.n
    && (Closed(s.main) ==> written == 0)
    && 0 <= s.workers[k].at && s.workers[k].at + s.workers[k].stage.n <= |s.content|
  }

  /** The first bytes of the chunk reach the file. */
  function Written(s: State, k: nat, written: nat): bytes
    requires CanWrite(s, k, written)
  {
    var w := s.workers[k];
    WriteAt(s.file, s.content[w.at..w.at + written], w.at)
  }

  predicate CanWriteAll(s: State, k: nat) {
    CanWrite(s, k, 0) && !Closed(s.main)
  }

  function AfterWrite(s: State, k: nat): State
    requires CanWriteAll(s, k)
  {
    var w := s.workers[k];
    s.(file := Written(s, k, w.stage.n), workers := s.workers[k := Worker(w.slice, w.at + w.stage.n, Reading)])
  }

  predicate Enabled(s: State, a: Action) {
    match a
    case TakeWorker => s.main.Launch? && s.main.next < |s.slices| && s.free > 0
    case EndLaunch => s.main.Launch? && s.main.next >= |s.slices|
    case HearAbort(k) =>
      s.main.Launch? && s.main.next < |s.slices| && Alive(s, k) && s.workers[k].stage.Aborting?
    case CloseFile => s.main.Closing?
    case RemoveOnError => s.main.Removing?
    case ReturnErr => s.main.Leaving?
    case TakeDone => s.main.Wait? && s.main.got < |s.slices| && s.done > 0
    case EndWait => s.main.Wait? && s.main.got >= |s.slices|
    case GetOk(k) => At(s, k, Getting)
    case GetFails(k) => At(s, k, Getting)
    case ReadChunk(k, n) => At(s, k, Reading) && 0 < n <= BUFFER_SIZE && s.workers[k].at + n <= End(s.workers[k].slice)
    case ReadEnd(k) => At(s, k, Reading) && s.workers[k].at >= End(s.workers[k].slice)
    case ReadFails(k, _) => At(s, k, Reading)
    case WriteOk(k) => CanWriteAll(s, k)
    case WriteFails(k, written, _) => CanWrite(s, k, written)
    case Assign(k) => Alive(s, k) && s.workers[k].stage.Assigning?
    case GiveBack(k) => At(s, k, Returning) && s.free < s.maxParallel
    case Signal(k) => At(s, k, Signalling) && s.done < |s.slices|
  }

  function Next(s: State, a: Action): State
    requires Enabled(s, a)
  {
    match a
    case TakeWorker =>
      var slice := s.slices[s.main.next];
      s.(free := s.free - 1, workers := s.workers + [Worker(slice, slice.offset, Getting)],
         main := Launch(s.main.next + 1))
    case EndLaunch => s.(main := Wait(0))
    case HearAbort(k) => Move(s, k, Assigning(s.workers[k].stage.error)).(main := Closing)
    case CloseFile => s.(main := Removing)
    case RemoveOnError => s.(removed := s.err.Some?, main := Leaving)
    case ReturnErr => s.(main := Aborted(s.err))
    case TakeDone => s.(done := s.done - 1, main := Wait(s.main.got + 1))
    case EndWait => s.(err := None, main := Completed)
    case GetOk(k) => Move(s, k, Reading)
    case GetFails(k) => s.(main := Crashed)
    case ReadChunk(k, n) => Move(s, k, Writing(n))
    case ReadEnd(k) => Move(s, k, Returning)
    case ReadFails(k, error) => Move(s, k, Aborting(error))
    case WriteOk(k) => AfterWrite(s, k)
    case WriteFails(k, written, error) => Move(s, k, Aborting(error)).(file := Written(s, k, written))
    case Assign(k) => Move(s, k, Dead(s.workers[k].stage.error)).(err := Some(s.workers[k].stage.error))
    case GiveBack(k) => Move(s, k, Signalling).(free := s.free + 1)
    case Signal(k) => Move(s, k, Gone).(done := s.done + 1)
  }

  ghost predicate IsRun(s: State, acts: seq<Action>)
    decreases |acts|
  {
    acts == [] || (Enabled(s, acts[0]) && IsRun(Next(s, acts[0]), acts[1..]))
  }

  ghost function After(s: State, acts: seq<Action>): State
    requires IsRun(s, acts)
    decreases |acts|
  {
    if acts == [] then s else After(Next(s, acts[0]), acts[1..])
  }

  ghost predicate Stuck(s: State) {
    forall a :: !Enabled(s, a)
  }

  // ---------------------------------------------------------------- the invariant

  function HoldsId(w: Worker): nat { if w.stage.Signalling? || w.stage.Gone? then 0 else 1 }

  function Signalled(w: Worker): nat { if w.stage.Gone? then 1 else 0 }

  predicate Failed(w: Worker) { w.stage.Aborting? || Heard(w) }

  predicate Heard(w: Worker) { w.stage.Assigning? || w.stage.Dead? }

  ghost predicate SomePartFailed(s: State) {
    exists k :: 0 <= k < |s.workers| && Failed(s.workers[k])
  }

  /** How far a worker has come in its own slice. */
  ghost predicate InSlice(w: Worker) {
    && w.slice.offset <= w.at <= End(w.slice)
    && (w.stage.Writing? ==> w.at + w.stage.n <= End(w.slice) && w.stage.n > 0)
    && (w.stage.Returning? || w.stage.Signalling? || w.stage.Gone? ==> w.at == End(w.slice))
  }

  /** The bytes a worker has written are those of the object. */
  ghost predicate Copied(s: State, w: Worker) {
    && 0 <= w.slice.offset <= w.at <= |s.content|
    && (w.slice.offset < w.at ==> w.at <= |s.file|)
    && forall b :: w.slice.offset <= b < w.at ==> s.file[b] == s.content[b]
  }

  ghost predicate Writes(s: State) {
    && |s.workers| <= |s.slices|
    && |s.file| <= Start(s.slices, |s.workers|)
    && forall k :: 0 <= k < |s.workers| ==>
         s.workers[k].slice == s.slices[k] && InSlice(s.workers[k]) && Copied(s, s.workers[k])
  }

  ghost predicate Ids(s: State) {
    s.free + Sum(s.workers, HoldsId) == s.maxParallel
  }

  ghost predicate Signals(s: State) {
    s.done + Got(s) == Sum(s.workers, Signalled) && s.done <= Sum(s.workers, Signalled)
  }

  ghost predicate Launched(s: State) {
    match s.main
    case Launch(next) => |s.workers| == next <= |s.slices|
    case Wait(got) => |s.workers| == |s.slices| && got <= |s.slices|
    case Completed => |s.workers| == |s.slices|
    case Crashed => 1 <= |s.workers|
    case _ => 1 <= |s.workers| < |s.slices|
  }

  ghost predicate Counts(s: State) {
    Ids(s) && Signals(s) && Launched(s)
  }

  /** Signals of finished parts that have been received. */
  ghost function Got(s: State): int {
    match s.main
    case Launch(_) => 0
    case Wait(got) => got
    case Completed => |s.slices|
    case _ => Sum(s.workers, Signalled) - s.done
  }

  /** Worker h alone has had its abort heard, and err is its error once it has assigned it. */
  ghost predicate OneHeard(s: State, h: nat) {
    && h < |s.workers|
    && (forall k :: 0 <= k < |s.workers| && Heard(s.workers[k]) ==> k == h)
    && match s.workers[h].stage
       case Assigning(_) => s.err == None
       case Dead(error) => s.err == Some(error)
       case _ => false
  }

  ghost predicate NoneHeard(s: State) {
    s.err == None && !s.removed && forall k :: 0 <= k < |s.workers| ==> !Heard(s.workers[k])
  }

  /** An abort is delivered only by returning from the launch loop, and nothing else makes it return early. */
  ghost predicate AbortsHeard(s: State) {
    && (s.main.Launch? || s.main.Wait? || s.main.Completed? ==> NoneHeard(s))
    && (Unwinding(s.main) ==> exists h :: OneHeard(s, h))
    && (s.removed ==> s.err.Some?)
    && (s.main.Aborted? && s.main.result.Some? ==> s.main.result == s.err)
    && (s.main.Aborted? && s.main.result.None? ==> !s.removed)
  }

  ghost predicate Inv(s: State, partSize: int) {
    && s.maxParallel >= 1
    && Tiles(s.slices, partSize, |s.content|)
    && Writes(s)
    && Counts(s)
    && AbortsHeard(s)
  }

  // ---------------------------------------------------------------- every step keeps it

  lemma InitInv(content: bytes, slices: seq<Slice>, maxParallel: nat, partSize: int)
    requires maxParallel >= 1 && Tiles(slices, partSize, |content|)
    ensures Inv(Init(content, slices, maxParallel), partSize)
  {
  }

  /** Writing inside one slice leaves what the other workers have copied. */
  lemma WriteKeepsOthers(s: State, partSize: int, k: nat, written: nat, j: nat)
    requires Inv(s, partSize) && CanWrite(s, k, written) && j < |s.workers| && j != k
    ensures Copied(s.(file := Written(s, k, written)), s.workers[j])
  {
    assert InSlice(s.workers[k]) && InSlice(s.workers[j]) && Copied(s, s.workers[j]);
    if j < k {
      SlicesDisjoint(s.slices, partSize, |s.content|, j, k);
    } else {
      SlicesDisjoint(s.slices, partSize, |s.content|, k, j);
    }
  }

  lemma WriteKeepsOwn(s: State, partSize: int, k: nat, written: nat)
    requires Inv(s, partSize) && CanWrite(s, k, written)
    ensures |Written(s, k, written)| <= Start(s.slices, |s.workers|)
    ensures Copied(s.(file := Written(s, k, written)), s.workers[k].(at := s.workers[k].at + written))
  {
    assert s.workers[k].slice == s.slices[k] && InSlice(s.workers[k]) && Copied(s, s.workers[k]);
    EndsBefore(s.slices, partSize, |s.content|, k, |s.workers|);
  }

  /** Slice k ends no later than any slice after it starts. */
  lemma EndsBefore(slices: seq<Slice>, partSize: int, size: int, k: nat, n: nat)
    requires Tiles(slices, partSize, size) && k < n <= |slices|
    ensures 0 < End(slices[k]) <= Start(slices, n) <= size
  {
    TilesInside(slices, partSize, size);
    if k < n - 1 {
      SlicesDisjoint(slices, partSize, size, k, n - 1);
    }
    assert slices[k].length > 0 && slices[n - 1].length > 0;
  }

  /** A file write, whole or broken off, keeps the bytes written so far. */
  lemma WriteKeeps(s: State, partSize: int, k: nat, written: nat, w: Worker)
    requires Inv(s, partSize) && CanWrite(s, k, written)
    requires (w.stage.Aborting? && w == s.workers[k].(stage := w.stage))
        || (w == Worker(s.workers[k].slice, s.workers[k].at + written, Reading))
    ensures Writes(s.(file := Written(s, k, written), workers := s.workers[k := w]))
  {
    var s' := s.(file := Written(s, k, written), workers := s.workers[k := w]);
    WriteKeepsOwn(s, partSize, k, written);
    forall j | 0 <= j < |s'.workers|
      ensures s'.workers[j].slice == s'.slices[j] && InSlice(s'.workers[j]) && Copied(s', s'.workers[j])
    {
      assert s.workers[j].slice == s.slices[j] && InSlice(s.workers[j]) && Copied(s, s.workers[j]);
      if j != k {
        WriteKeepsOthers(s, partSize, k, written, j);
      }
    }
  }

  lemma StepKeepsWrites(s: State, partSize: int, a: Action)
    requires Inv(s, partSize) && Enabled(s, a)
    ensures Writes(Next(s, a))
  {
    match a
    case WriteOk(k) => WriteKeeps(s, partSize, k, s.workers[k].stage.n, AfterWrite(s, k).workers[k]);
    case WriteFails(k, written, error) => WriteKeeps(s, partSize, k, written, s.workers[k].(stage := Aborting(error)));
    case TakeWorker => LaunchKeepsWrites(s, partSize);
    case _ => OtherStepKeepsWrites(s, a);
  }

  lemma LaunchKeepsWrites(s: State, partSize: int)
    requires Inv(s, partSize) && Enabled(s, TakeWorker)
    ensures Writes(Next(s, TakeWorker))
  {
    TilesInside(s.slices, partSize, |s.content|);
    assert Follows(s.slices, |s.workers|) && s.slices[|s.workers|].length > 0;
    forall j | 0 <= j < |s.workers|
      ensures s.workers[j].slice == s.slices[j] && InSlice(s.workers[j]) && Copied(Next(s, TakeWorker), s.workers[j])
    {
      assert Copied(s, s.workers[j]);
    }
  }

  lemma OtherStepKeepsWrites(s: State, a: Action)
    requires Writes(s) && Enabled(s, a) && !a.WriteOk? && !a.WriteFails? && !a.TakeWorker?
    ensures Writes(Next(s, a))
  {
    var s' := Next(s, a);
    forall j | 0 <= j < |s'.workers|
      ensures s'.workers[j].slice == s'.slices[j] && InSlice(s'.workers[j]) && Copied(s', s'.workers[j])
    {
      assert s.workers[j].slice == s.slices[j] && InSlice(s.workers[j]) && Copied(s, s.workers[j]);
    }
  }

  predicate IsWorkerStep(a: Action) {
    && !a.TakeWorker? && !a.TakeDone? && !a.EndLaunch? && !a.EndWait?
    && !a.CloseFile? && !a.RemoveOnError? && !a.ReturnErr?
  }

  lemma WorkerStepKeepsIds(s: State, a: Action)
    requires Ids(s) && Enabled(s, a) && IsWorkerStep(a)
    ensures Ids(Next(s, a))
  {
    SumUpdate(s.workers, a.k, Next(s, a).workers[a.k], HoldsId);
  }

  lemma WorkerStepKeepsSignals(s: State, a: Action)
    requires Signals(s) && Enabled(s, a) && IsWorkerStep(a)
    ensures Signals(Next(s, a))
  {
    SumUpdate(s.workers, a.k, Next(s, a).workers[a.k], Signalled);
  }

  lemma StepKeepsCounts(s: State, a: Action)
    requires Counts(s) && Enabled(s, a)
    ensures Counts(Next(s, a))
  {
    if a.TakeWorker? {
      var w := Worker(s.slices[s.main.next], s.slices[s.main.next].offset, Getting);
      SumAppend(s.workers, w, HoldsId);
      SumAppend(s.workers, w, Signalled);
    } else if IsWorkerStep(a) {
      WorkerStepKeepsIds(s, a);
      WorkerStepKeepsSignals(s, a);
    } else {
      SumOfUnits(s.workers, Signalled);
    }
  }

  lemma LoopStepKeepsAborts(s: State, a: Action)
    requires AbortsHeard(s) && Enabled(s, a) && !Unwinding(s.main)
    ensures AbortsHeard(Next(s, a))
  {
    if a.HearAbort? {
      assert OneHeard(Next(s, a), a.k);
    }
  }

  lemma StepKeepsOneHeard(s: State, a: Action, h: nat)
    requires OneHeard(s, h) && Unwinding(s.main) && Enabled(s, a)
    ensures Next(s, a).main.Crashed? || (OneHeard(Next(s, a), h) && Unwinding(Next(s, a).main))
  {
  }

  /** The error is assigned once. */
  lemma StepKeepsErr(s: State, a: Action, h: nat)
    requires OneHeard(s, h) && Unwinding(s.main) && Enabled(s, a)
    ensures Next(s, a).err == s.err || s.err.None?
  {
    if a.Assign? {
      assert Heard(s.workers[a.k]);
    }
  }

  lemma StepKeepsAborts(s: State, a: Action)
    requires AbortsHeard(s) && Enabled(s, a)
    ensures AbortsHeard(Next(s, a))
  {
    if Unwinding(s.main) {
      var h :| OneHeard(s, h);
      StepKeepsOneHeard(s, a, h);
      StepKeepsErr(s, a, h);
    } else {
      LoopStepKeepsAborts(s, a);
    }
  }

  lemma StepKeepsInv(s: State, partSize: int, a: Action)
    requires Inv(s, partSize) && Enabled(s, a)
    ensures Inv(Next(s, a), partSize)
  {
    StepKeepsWrites(s, partSize, a);
    StepKeepsCounts(s, a);
    StepKeepsAborts(s, a);
  }

  // ---------------------------------------------------------------- termination

  function Work(w: Worker): nat {
    var left := if w.at <= End(w.slice) then End(w.slice) - w.at else 0;
    match w.stage
    case Getting => 2 * left + 4
    case Reading => 2 * left + 3
    case Writing(_) => 2 * left + 2
    case Returning => 2
    case Signalling => 1
    case Aborting(_) => 2
    case Assigning(_) => 1
    case Dead(_) => 0
    case Gone => 0
  }

  /** The work in the slices that have no worker yet. */
  function Unlaunched(slices: seq<Slice>, next: nat): nat
    decreases |slices| - next
  {
    if next >= |slices| then 0
    else (if slices[next].length >= 0 then 2 * slices[next].length else 0) + 5 + Unlaunched(slices, next + 1)
  }

  function MainWork(s: State): int {
    match s.main
    case Launch(next) => Unlaunched(s.slices, next) + |s.slices| + 3
    case Wait(got) => |s.slices| - got + 2
    case Closing => 4
    case Removing => 3
    case Leaving => 2
    case Aborted(_) => 1
    case Completed => 1
    case Crashed => 0
  }

  function Measure(s: State): int {
    MainWork(s) + Sum(s.workers, Work)
  }

  lemma WorkerWorkDecreases(s: State, a: Action)
    requires Enabled(s, a) && IsWorkerStep(a) && InSlice(s.workers[a.k])
    ensures Work(Next(s, a).workers[a.k]) < Work(s.workers[a.k]) || a.GetFails?
  {
  }

  lemma WorkerStepDecreases(s: State, a: Action)
    requires Enabled(s, a) && IsWorkerStep(a) && InSlice(s.workers[a.k])
    requires s.main.Wait? ==> s.main.got <= |s.slices|
    ensures Measure(Next(s, a)) < Measure(s)
  {
    WorkerWorkDecreases(s, a);
    SumUpdate(s.workers, a.k, Next(s, a).workers[a.k], Work);
  }

  lemma MainStepDecreases(s: State, a: Action)
    requires Counts(s) && Enabled(s, a) && !IsWorkerStep(a) && !a.TakeWorker?
    ensures MainWork(Next(s, a)) < MainWork(s) && Next(s, a).workers == s.workers
  {
  }

  lemma LaunchDecreases(s: State, partSize: int)
    requires Inv(s, partSize) && Enabled(s, TakeWorker)
    ensures Measure(Next(s, TakeWorker)) < Measure(s)
  {
    var slice := s.slices[s.main.next];
    assert slice.length > 0;
    SumAppend(s.workers, Worker(slice, slice.offset, Getting), Work);
  }

  lemma StepDecreases(s: State, partSize: int, a: Action)
    requires Inv(s, partSize) && Enabled(s, a)
    ensures Measure(Next(s, a)) < Measure(s)
  {
    if a.TakeWorker? {
      LaunchDecreases(s, partSize);
    } else if IsWorkerStep(a) {
      assert InSlice(s.workers[a.k]);
      WorkerStepDecreases(s, a);
    } else {
      MainStepDecreases(s, a);
    }
  }

  lemma MeasureNonnegative(s: State)
    requires Counts(s)
    ensures Measure(s) >= 0
  {
  }

  lemma {:induction false} UnlaunchedWork(slices: seq<Slice>, partSize: int, size: int, next: nat)
    requires Tiles(slices, partSize, size) && next <= |slices|
    ensures Unlaunched(slices, next) == 2 * (size - Start(slices, next)) + 5 * (|slices| - next)
    decreases |slices| - next
  {
    if next == |slices| {
    } else {
      assert Follows(slices, next);
      UnlaunchedWork(slices, partSize, size, next + 1);
    }
  }

  // ---------------------------------------------------------------- what the environment may do

  /**
    The model leaves open all that GetObject, Read and WriteAt may do: a request succeeds or fails; a
    read gives any number of bytes up to the buffer's 4096 and the end of the range, or ends there, or
    fails; a write is complete, or fails after any number of bytes. Once the file is closed it fails.
   */
  lemma EnvironmentFree(s: State, partSize: int, k: nat, n: nat, e: Error)
    requires Inv(s, partSize) && Alive(s, k)
    ensures s.workers[k].stage.Getting? <==> Enabled(s, GetOk(k))
    ensures s.workers[k].stage.Getting? <==> Enabled(s, GetFails(k))
    ensures s.workers[k].stage.Reading? <==> Enabled(s, ReadFails(k, e))
    ensures s.workers[k].stage.Reading? && 0 < n <= 4096 && s.workers[k].at + n <= End(s.workers[k].slice)
       <==> Enabled(s, ReadChunk(k, n))
    ensures s.workers[k].stage.Reading? && s.workers[k].at == End(s.workers[k].slice) <==> Enabled(s, ReadEnd(k))
    ensures s.workers[k].stage.Writing? && !Closed(s.main) <==> Enabled(s, WriteOk(k))
    ensures s.workers[k].stage.Writing? && n <= (if Closed(s.main) then 0 else s.workers[k].stage.n)
       <==> Enabled(s, WriteFails(k, n, e))
  {
    assert s.workers[k].slice == s.slices[k] && InSlice(s.workers[k]) && Copied(s, s.workers[k]);
    TilesInside(s.slices, partSize, |s.content|);
  }

  // ---------------------------------------------------------------- what a run ends with

  ghost predicate AllGone(s: State) {
    |s.workers| == |s.slices| && forall k :: 0 <= k < |s.workers| ==> s.workers[k].stage.Gone?
  }

  /** At the final return every worker has finished its whole slice. */
  lemma CompletedAllGone(s: State, partSize: int)
    requires Inv(s, partSize) && s.main.Completed?
    ensures AllGone(s)
  {
    SumOfUnits(s.workers, Signalled);
    forall k | 0 <= k < |s.workers| ensures s.workers[k].stage.Gone? {
      assert Signalled(s.workers[k]) == 1;
    }
  }

  /** The safety of the download: at the final return the local file is the object, byte for byte. */
  lemma CompletedFileComplete(s: State, partSize: int)
    requires Inv(s, partSize) && s.main.Completed?
    ensures s.file == s.content && !s.removed
  {
    CompletedAllGone(s, partSize);
    TilesInside(s.slices, partSize, |s.content|);
    forall b | 0 <= b < |s.content| ensures b < |s.file| && s.file[b] == s.content[b] {
      var k := EachByteOnce(s.slices, partSize, |s.content|, |s.slices|, b);
      assert s.workers[k].slice == s.slices[k] && InSlice(s.workers[k]) && Copied(s, s.workers[k]);
    }
    if |s.content| > 0 {
      assert |s.content| - 1 < |s.file|;
    }
  }

  /** The bare return leaves the last part without a worker, so the file is too short whatever err says. */
  lemma AbortedFileIncomplete(s: State, partSize: int)
    requires Inv(s, partSize) && Unwinding(s.main)
    ensures |s.file| < |s.content|
    ensures s.main.Aborted? && s.removed ==> s.main.result.Some?
  {
    EndsBefore(s.slices, partSize, |s.content|, |s.workers|, |s.slices|);
    assert Follows(s.slices, |s.workers|) && s.slices[|s.workers|].length > 0;
  }

  /** The next action of a worker that can go on by itself. */
  function WorkerAction(main: Main, k: nat, w: Worker): Action
    requires !w.stage.Gone? && !w.stage.Aborting? && !w.stage.Dead?
  {
    match w.stage
    case Getting => GetOk(k)
    case Reading => if w.at < End(w.slice) then ReadChunk(k, 1) else ReadEnd(k)
    case Writing(_) => if Closed(main) then WriteFails(k, 0, "file already closed") else WriteOk(k)
    case Assigning(_) => Assign(k)
    case Returning => GiveBack(k)
    case Signalling => Signal(k)
  }

  /** Only a worker with an abort to deliver can wait. */
  lemma WorkerReady(s: State, partSize: int, k: nat)
    requires Inv(s, partSize) && Alive(s, k)
    requires !s.workers[k].stage.Gone? && !s.workers[k].stage.Aborting? && !s.workers[k].stage.Dead?
    ensures Enabled(s, WorkerAction(s.main, k, s.workers[k]))
  {
    assert s.workers[k].slice == s.slices[k] && InSlice(s.workers[k]) && Copied(s, s.workers[k]);
    TilesInside(s.slices, partSize, |s.content|);
    SumAtLeast(s.workers, k, HoldsId);
    SumOfUnits(s.workers, Signalled);
  }

  lemma LaunchLoopNotStuck(s: State, partSize: int)
    requires Inv(s, partSize) && s.main.Launch?
    ensures !Stuck(s)
  {
    if s.main.next >= |s.slices| {
      assert Enabled(s, EndLaunch);
    } else if s.free > 0 {
      assert Enabled(s, TakeWorker);
    } else {
      var k := SumPositive(s.workers, HoldsId);
      if s.workers[k].stage.Aborting? {
        assert Enabled(s, HearAbort(k));
      } else {
        WorkerReady(s, partSize, k);
      }
    }
  }

  /** What a call that has returned early leaves when nothing can move: worker h's abort was heard. */
  ghost predicate EndsAborted(s: State, h: nat) {
    && h < |s.workers| && s.workers[h].stage.Dead?
    && s.main.Aborted? && s.main.result in {None, Some(s.workers[h].stage.error)}
    && (s.removed ==> s.main.result.Some?)
    && |s.file| < |s.content|
    && forall k :: 0 <= k < |s.workers| && k != h ==> s.workers[k].stage.Gone? || s.workers[k].stage.Aborting?
  }

  /**
    How a run that can go no further has ended, unless a failed GetObject has crashed the program.
    Without a failed part: at the final return, with the complete file. Otherwise: by the bare
    return, with an incomplete file and with the error heard or, if that was not yet assigned, nil,
    and every other failed worker blocked for ever; or waiting for ever for the signal of a part
    whose worker is blocked.
   */
  ghost predicate EndsRight(s: State) {
    && (s.main.Completed? <==> !SomePartFailed(s))
    && (s.main.Completed? ==> AllGone(s) && s.file == s.content && !s.removed)
    && (SomePartFailed(s) ==> s.main.Wait? || exists h :: EndsAborted(s, h))
  }

  lemma StuckWorkers(s: State, partSize: int, k: nat)
    requires Inv(s, partSize) && Stuck(s) && Alive(s, k)
    ensures s.workers[k].stage.Gone? || s.workers[k].stage.Aborting? || s.workers[k].stage.Dead?
  {
    if !s.workers[k].stage.Gone? && !s.workers[k].stage.Aborting? && !s.workers[k].stage.Dead? {
      WorkerReady(s, partSize, k);
    }
  }

  lemma StuckMain(s: State, partSize: int)
    requires Inv(s, partSize) && Stuck(s)
    ensures s.main.Wait? || s.main.Aborted? || s.main.Completed? || s.main.Crashed?
  {
    if s.main.Launch? {
      LaunchLoopNotStuck(s, partSize);
    }
    assert !Enabled(s, CloseFile) && !Enabled(s, RemoveOnError) && !Enabled(s, ReturnErr);
  }

  lemma StuckAborted(s: State, partSize: int) returns (h: nat)
    requires Inv(s, partSize) && Stuck(s) && s.main.Aborted?
    ensures EndsAborted(s, h)
  {
    h :| OneHeard(s, h);
    forall k | 0 <= k < |s.workers|
      ensures s.workers[k].stage.Gone? || s.workers[k].stage.Aborting? || s.workers[k].stage.Dead?
    {
      StuckWorkers(s, partSize, k);
    }
    AbortedFileIncomplete(s, partSize);
  }

  /** If no part failed, a run that can go no further has reached the final return. */
  lemma StuckWithoutFailure(s: State, partSize: int)
    requires Inv(s, partSize) && Stuck(s) && !s.main.Crashed? && !SomePartFailed(s)
    ensures s.main.Completed?
  {
    StuckMain(s, partSize);
    assert !Unwinding(s.main);
    forall k | 0 <= k < |s.workers| ensures Signalled(s.workers[k]) == 1 {
      StuckWorkers(s, partSize, k);
      assert !Failed(s.workers[k]);
    }
    AllSignalled(s.workers);
    assert !Enabled(s, TakeDone) && !Enabled(s, EndWait);
  }

  lemma StuckEndsRight(s: State, partSize: int)
    requires Inv(s, partSize) && Stuck(s) && !s.main.Crashed?
    ensures EndsRight(s)
  {
    StuckMain(s, partSize);
    if s.main.Completed? {
      CompletedAllGone(s, partSize);
      CompletedFileComplete(s, partSize);
    }
    if !SomePartFailed(s) {
      StuckWithoutFailure(s, partSize);
    } else if s.main.Aborted? {
      var h := StuckAborted(s, partSize);
    }
  }

  lemma {:induction false} AllSignalled(ws: seq<Worker>)
    requires forall k :: 0 <= k < |ws| ==> Signalled(ws[k]) == 1
    ensures Sum(ws, Signalled) == |ws|
  {
    if ws == [] {
    } else {
      AllSignalled(ws[..|ws| - 1]);
    }
  }

  lemma {:induction false} RunKeepsInv(s: State, partSize: int, acts: seq<Action>)
    requires Inv(s, partSize) && IsRun(s, acts)
    ensures Inv(After(s, acts), partSize)
    ensures |acts| + Measure(After(s, acts)) <= Measure(s)
    decreases |acts|
  {
    if acts == [] {
    } else {
      StepKeepsInv(s, partSize, acts[0]);
      StepDecreases(s, partSize, acts[0]);
      RunKeepsInv(Next(s, acts[0]), partSize, acts[1..]);
    }
  }

  lemma {:induction false} ContentFixed(s: State, acts: seq<Action>)
    requires IsRun(s, acts)
    ensures After(s, acts).content == s.content && After(s, acts).slices == s.slices
    ensures After(s, acts).maxParallel == s.maxParallel
    decreases |acts|
  {
    if acts == [] {
    } else {
      ContentFixed(Next(s, acts[0]), acts[1..]);
    }
  }

  /**
    Whatever the scheduler, the chunks each Read returns and the way the workers' writes interleave:
    a run has a bounded number of steps, at the final return the local file is complete, after the
    bare return it is not, and a run that can go no further without having crashed has ended as
    EndsRight says.
   */
  lemma EveryRunEndsRight(content: bytes, slices: seq<Slice>, partSize: int, maxParallel: nat, acts: seq<Action>)
    requires maxParallel >= 1 && Tiles(slices, partSize, |content|)
    requires IsRun(Init(content, slices, maxParallel), acts)
    ensures |acts| <= 2 * |content| + 6 * |slices| + 3
    ensures var s := After(Init(content, slices, maxParallel), acts);
            && (s.main.Completed? ==> s.file == content && !s.removed)
            && (s.main.Aborted? ==> |s.file| < |content| && (s.removed ==> s.main.result.Some?))
            && (Stuck(s) && !s.main.Crashed? ==> EndsRight(s))
  {
    var start := Init(content, slices, maxParallel);
    var s := After(start, acts);
    InitInv(content, slices, maxParallel, partSize);
    RunKeepsInv(start, partSize, acts);
    MeasureNonnegative(s);
    UnlaunchedWork(slices, partSize, |content|, 0);
    ContentFixed(start, acts);
    if s.main.Completed? {
      CompletedFileComplete(s, partSize);
    } else if s.main.Aborted? {
      AbortedFileIncomplete(s, partSize);
    }
    if Stuck(s) && !s.main.Crashed? {
      StuckEndsRight(s, partSize);
    }
  }

  /** Once the launch loop is over, a worker blocked on its abort stays blocked. */
  lemma {:induction false} UnheardStaysBlocked(s: State, k: nat, acts: seq<Action>)
    requires !s.main.Launch? && k < |s.workers| && s.workers[k].stage.Aborting?
    requires IsRun(s, acts)
    ensures k < |After(s, acts).workers| && After(s, acts).workers[k] == s.workers[k]
    ensures !After(s, acts).main.Launch?
    decreases |acts|
  {
    if acts == [] {
    } else {
      UnheardStaysBlocked(Next(s, acts[0]), k, acts[1..]);
    }
  }

  /**
    The wait loop does not listen for aborts: a failure that is not heard before the launch loop ends
    is never heard, and the download never returns.
   */
  lemma {:induction false} UnheardFailureHangs(s: State, partSize: int, k: nat, acts: seq<Action>)
    requires Inv(s, partSize) && s.main.Wait? && k < |s.workers| && s.workers[k].stage.Aborting?
    requires IsRun(s, acts)
    ensures After(s, acts).main.Wait? || After(s, acts).main.Crashed?
    decreases |acts|
  {
    if acts == [] {
    } else {
      WaitStays(s, partSize, k, acts[0]);
      if !Next(s, acts[0]).main.Crashed? {
        StepKeepsInv(s, partSize, acts[0]);
        UnheardFailureHangs(Next(s, acts[0]), partSize, k, acts[1..]);
      }
    }
  }

  /** With a worker blocked the wait loop never gets its last signal. */
  lemma WaitStays(s: State, partSize: int, k: nat, a: Action)
    requires Inv(s, partSize) && s.main.Wait? && k < |s.workers| && s.workers[k].stage.Aborting?
    requires Enabled(s, a)
    ensures Next(s, a).main.Wait? || Next(s, a).main.Crashed?
    ensures Next(s, a).workers[k] == s.workers[k] && |Next(s, a).workers| == |s.workers|
  {
    assert !a.EndWait? by {
      assert Signalled(s.workers[k]) == 0;
      SumOfUnits(s.workers, Signalled);
    }
  }
}
