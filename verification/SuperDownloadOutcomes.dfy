/**
  What a DownloadSuperFile can come to, in terms of the object and of what happened in its run: which
  results, and whether it hangs, crashes, leaks a goroutine or leaves a truncated file.
 */
module SuperDownloadOutcomes {
  import opened Options
  import opened Bytes
  import opened Tally
  import opened PartList
  import opened PartPlan
  import opened SuperDownload

  // ---------------------------------------------------------------- which ends a call can reach

  ghost predicate CanReach(s: State, t: State) {
    exists acts :: IsRun(s, acts) && After(s, acts) == t
  }

  lemma ReachSelf(s: State)
    ensures CanReach(s, s)
  {
    assert IsRun(s, []) && After(s, []) == s;
  }

  /** One more step at the end of a run. */
  lemma ReachStep(s: State, t: State, a: Action)
    requires CanReach(s, t) && Enabled(t, a)
    ensures CanReach(s, Next(t, a))
  {
    var acts :| IsRun(s, acts) && After(s, acts) == t;
    RunStep(s, acts, a);
    assert IsRun(s, acts + [a]) && After(s, acts + [a]) == Next(t, a);
  }

  lemma {:induction false} RunStep(s: State, acts: seq<Action>, a: Action)
    requires IsRun(s, acts) && Enabled(After(s, acts), a)
    ensures IsRun(s, acts + [a]) && After(s, acts + [a]) == Next(After(s, acts), a)
    decreases |acts|
  {
    if acts == [] {
      assert [a][1..] == [];
    } else {
      RunStep(Next(s, acts[0]), acts[1..], a);
      assert (acts + [a])[1..] == acts[1..] + [a];
    }
  }

  lemma ReachableKeepsInv(content: bytes, slices: seq<Slice>, partSize: int, maxParallel: nat, t: State)
    requires maxParallel >= 1 && Tiles(slices, partSize, |content|)
    requires CanReach(Init(content, slices, maxParallel), t)
    ensures Inv(t, partSize) && t.content == content && t.slices == slices && t.maxParallel == maxParallel
  {
    var start := Init(content, slices, maxParallel);
    var acts :| IsRun(start, acts) && After(start, acts) == t;
    InitInv(content, slices, maxParallel, partSize);
    RunKeepsInv(start, partSize, acts);
    ContentFixed(start, acts);
  }

  /** A state reached from `start`, in the launch loop before slice i, with no worker holding an id. */
  ghost predicate AtSlice(start: State, s: State, partSize: int, i: nat) {
    && CanReach(start, s) && Inv(s, partSize)
    && s.main == Launch(i) && s.free == s.maxParallel
    && s.slices == start.slices
  }

  /** Worker k alone holds an id and reads the body of its range. */
  ghost predicate ReadingAt(start: State, s: State, partSize: int, k: nat) {
    && CanReach(start, s) && Inv(s, partSize)
    && s.main == Launch(k + 1) && s.free == s.maxParallel - 1
    && s.slices == start.slices
    && k < |s.workers| && s.workers[k].stage == Reading
  }

  lemma StartReading(start: State, s: State, partSize: int, i: nat) returns (t: State)
    requires AtSlice(start, s, partSize, i) && i < |s.slices|
    ensures ReadingAt(start, t, partSize, i) && t.file == s.file
  {
    var s' := Next(s, TakeWorker);
    StepKeepsInv(s, partSize, TakeWorker);
    ReachStep(start, s, TakeWorker);
    StepKeepsInv(s', partSize, GetOk(i));
    ReachStep(start, s', GetOk(i));
    t := Next(s', GetOk(i));
  }

  /** The worker reads one more byte and writes it. */
  lemma ReadByte(start: State, s: State, partSize: int, k: nat) returns (t: State)
    requires ReadingAt(start, s, partSize, k) && s.workers[k].at < End(s.workers[k].slice)
    ensures ReadingAt(start, t, partSize, k)
    ensures t.workers[k] == s.workers[k].(at := s.workers[k].at + 1)
  {
    WorkerReady(s, partSize, k);
    var s' := Next(s, ReadChunk(k, 1));
    StepKeepsInv(s, partSize, ReadChunk(k, 1));
    ReachStep(start, s, ReadChunk(k, 1));
    WorkerReady(s', partSize, k);
    StepKeepsInv(s', partSize, WriteOk(k));
    ReachStep(start, s', WriteOk(k));
    t := Next(s', WriteOk(k));
  }

  lemma {:induction false} ReadToEnd(start: State, s: State, partSize: int, k: nat) returns (t: State)
    requires ReadingAt(start, s, partSize, k)
    ensures ReadingAt(start, t, partSize, k) && t.workers[k].at >= End(t.workers[k].slice)
    decreases End(s.workers[k].slice) - s.workers[k].at
  {
    t := s;
    if s.workers[k].at >= End(s.workers[k].slice) {
    } else {
      t := ReadByte(start, s, partSize, k);
      t := ReadToEnd(start, t, partSize, k);
    }
  }

  /** One part after the other is downloaded, until slice i is next. */
  lemma {:induction false} ReachSlice(start: State, partSize: int, i: nat) returns (s: State)
    requires Inv(start, partSize) && start.main == Launch(0) && start.free == start.maxParallel
    requires i <= |start.slices|
    ensures AtSlice(start, s, partSize, i)
  {
    if i == 0 {
      s := start;
      ReachSelf(start);
    } else {
      s := ReachSlice(start, partSize, i - 1);
      s := StartReading(start, s, partSize, i - 1);
      s := ReadToEnd(start, s, partSize, i - 1);
      s := FinishSlice(start, s, partSize, i - 1);
    }
  }

  lemma FinishSlice(start: State, s: State, partSize: int, k: nat) returns (t: State)
    requires ReadingAt(start, s, partSize, k) && s.workers[k].at >= End(s.workers[k].slice)
    ensures AtSlice(start, t, partSize, k + 1)
  {
    var s' := Next(s, ReadEnd(k));
    StepKeepsInv(s, partSize, ReadEnd(k));
    ReachStep(start, s, ReadEnd(k));
    StepKeepsInv(s', partSize, GiveBack(k));
    ReachStep(start, s', GiveBack(k));
    t := Next(s', GiveBack(k));
  }

  /** The caller waits for parts, and the worker of one is blocked on its abort. */
  ghost predicate Hangs(s: State) {
    s.main.Wait? && exists k :: 0 <= k < |s.workers| && s.workers[k].stage.Aborting?
  }

  ghost predicate NeverReturns(s: State) {
    forall t :: CanReach(s, t) ==> !t.main.Aborted? && !t.main.Completed?
  }

  lemma HangsNeverReturns(s: State, partSize: int)
    requires Inv(s, partSize) && Hangs(s)
    ensures NeverReturns(s)
  {
    var k :| 0 <= k < |s.workers| && s.workers[k].stage.Aborting?;
    forall t | CanReach(s, t) ensures !t.main.Aborted? && !t.main.Completed? {
      var acts :| IsRun(s, acts) && After(s, acts) == t;
      UnheardFailureHangs(s, partSize, k, acts);
    }
  }

  /** The last part fails after all others are done, and the launch loop ends before it is heard. */
  lemma ReachHang(start: State, partSize: int) returns (t: State)
    requires Inv(start, partSize) && start.main == Launch(0) && start.free == start.maxParallel
    requires start.slices != []
    ensures CanReach(start, t) && Inv(t, partSize) && Hangs(t)
  {
    var n := |start.slices| - 1;
    var s := ReachSlice(start, partSize, n);
    s := StartReading(start, s, partSize, n);
    StepKeepsInv(s, partSize, ReadFails(n, "unexpected EOF"));
    ReachStep(start, s, ReadFails(n, "unexpected EOF"));
    s := Next(s, ReadFails(n, "unexpected EOF"));
    StepKeepsInv(s, partSize, EndLaunch);
    ReachStep(start, s, EndLaunch);
    t := Next(s, EndLaunch);
    assert t.workers[n].stage.Aborting?;
  }

  /** A call can come to wait forever exactly when the object is not empty. */
  lemma CanHang(content: bytes, slices: seq<Slice>, partSize: int, maxParallel: nat)
    requires maxParallel >= 1 && Tiles(slices, partSize, |content|)
    ensures (exists s :: CanReach(Init(content, slices, maxParallel), s) && Hangs(s) && NeverReturns(s))
       <==> content != []
  {
    var start := Init(content, slices, maxParallel);
    if content != [] {
      InitInv(content, slices, maxParallel, partSize);
      var s := ReachHang(start, partSize);
      HangsNeverReturns(s, partSize);
    }
    forall s | CanReach(start, s) && Hangs(s) ensures content != [] {
      ReachableKeepsInv(content, slices, partSize, maxParallel, s);
      EndsBefore(slices, partSize, |content|, 0, |slices|);
    }
  }

  /** A call can crash exactly when the object is not empty. */
  lemma CanCrash(content: bytes, slices: seq<Slice>, partSize: int, maxParallel: nat)
    requires maxParallel >= 1 && Tiles(slices, partSize, |content|)
    ensures (exists s :: CanReach(Init(content, slices, maxParallel), s) && s.main.Crashed?) <==> content != []
  {
    var start := Init(content, slices, maxParallel);
    if content != [] {
      ReachSelf(start);
      ReachStep(start, start, TakeWorker);
      ReachStep(start, Next(start, TakeWorker), GetFails(0));
      assert Next(Next(start, TakeWorker), GetFails(0)).main.Crashed?;
    }
    forall s | CanReach(start, s) && s.main.Crashed? ensures content != [] {
      ReachableKeepsInv(content, slices, partSize, maxParallel, s);
      EndsBefore(slices, partSize, |content|, 0, |slices|);
    }
  }

  /** Whatever still happens, worker k stays as it is. */
  ghost predicate BlockedForever(s: State, k: nat) {
    forall t :: CanReach(s, t) ==> k < |s.workers| && k < |t.workers| && t.workers[k] == s.workers[k]
  }

  /** The call has returned, and a worker is blocked on an abort that nobody will hear. */
  ghost predicate Leaks(s: State) {
    s.main.Aborted? && exists k :: 0 <= k < |s.workers| && s.workers[k].stage.Aborting? && BlockedForever(s, k)
  }

  lemma UnheardLeaks(s: State, k: nat)
    requires s.main.Aborted? && k < |s.workers| && s.workers[k].stage.Aborting?
    ensures Leaks(s)
  {
    forall t | CanReach(s, t) ensures k < |t.workers| && t.workers[k] == s.workers[k] {
      var acts :| IsRun(s, acts) && After(s, acts) == t;
      UnheardStaysBlocked(s, k, acts);
    }
    assert BlockedForever(s, k);
  }

  /** Two parts are under way and both have failed. */
  lemma ReachTwoFailures(content: bytes, slices: seq<Slice>, maxParallel: nat) returns (t: State)
    requires maxParallel >= 2 && |slices| >= 3
    ensures CanReach(Init(content, slices, maxParallel), t)
    ensures t.main == Launch(2) && t.slices == slices && |t.workers| == 2
    ensures t.workers[0].stage.Aborting? && t.workers[1].stage.Aborting?
  {
    var start := Init(content, slices, maxParallel);
    ReachSelf(start);
    ReachStep(start, start, TakeWorker);
    var s := Next(start, TakeWorker);
    ReachStep(start, s, TakeWorker);
    s := Next(s, TakeWorker);
    ReachStep(start, s, GetOk(0));
    s := Next(s, GetOk(0));
    ReachStep(start, s, GetOk(1));
    s := Next(s, GetOk(1));
    ReachStep(start, s, ReadFails(0, "unexpected EOF"));
    s := Next(s, ReadFails(0, "unexpected EOF"));
    ReachStep(start, s, ReadFails(1, "unexpected EOF"));
    t := Next(s, ReadFails(1, "unexpected EOF"));
  }

  /** The caller hears one of two aborts and returns. */
  lemma ReachLeak(start: State, s: State) returns (t: State)
    requires CanReach(start, s) && s.main == Launch(2) && |s.slices| >= 3 && |s.workers| == 2
    requires s.workers[0].stage.Aborting? && s.workers[1].stage.Aborting?
    ensures CanReach(start, t) && Leaks(t)
  {
    ReachStep(start, s, HearAbort(0));
    t := Next(s, HearAbort(0));
    ReachStep(start, t, CloseFile);
    t := Next(t, CloseFile);
    ReachStep(start, t, RemoveOnError);
    t := Next(t, RemoveOnError);
    ReachStep(start, t, ReturnErr);
    t := Next(t, ReturnErr);
    UnheardLeaks(t, 1);
  }

  /** A worker left behind by a call that has returned needs a second id, and a part not yet launched. */
  lemma LeakNeedsTwo(s: State, partSize: int)
    requires Inv(s, partSize) && Leaks(s)
    ensures s.maxParallel >= 2 && |s.slices| >= 3
  {
    var k :| 0 <= k < |s.workers| && s.workers[k].stage.Aborting?;
    var h :| OneHeard(s, h);
    SumOfTwo(s.workers, k, h, HoldsId);
  }

  /**
    A failed part can leave a goroutine behind: a call can return while another worker is blocked
    forever, exactly when there are two workers or more and three parts or more.
   */
  lemma CanLeak(content: bytes, slices: seq<Slice>, partSize: int, maxParallel: nat)
    requires maxParallel >= 1 && Tiles(slices, partSize, |content|)
    ensures (exists s :: CanReach(Init(content, slices, maxParallel), s) && Leaks(s))
       <==> maxParallel >= 2 && |slices| >= 3
  {
    var start := Init(content, slices, maxParallel);
    if maxParallel >= 2 && |slices| >= 3 {
      var s := ReachTwoFailures(content, slices, maxParallel);
      var t := ReachLeak(start, s);
    }
    forall s | CanReach(start, s) && Leaks(s) ensures maxParallel >= 2 && |slices| >= 3 {
      ReachableKeepsInv(content, slices, partSize, maxParallel, s);
      LeakNeedsTwo(s, partSize);
    }
  }

  ghost predicate ReturnsNil(s: State) {
    s.main == Completed || s.main == Aborted(None)
  }

  /** Whatever happens, a nil result means that the local file is the object. */
  ghost predicate NilMeansComplete(start: State) {
    forall s :: CanReach(start, s) && ReturnsNil(s) ==> s.file == start.content
  }

  /** Whatever happens, the final return means that the local file is the object. */
  ghost predicate CompletedMeansComplete(start: State) {
    forall s :: CanReach(start, s) && s.main.Completed? ==> s.file == start.content
  }

  lemma FinalReturnIsRight(content: bytes, slices: seq<Slice>, partSize: int, maxParallel: nat)
    requires maxParallel >= 1 && Tiles(slices, partSize, |content|)
    ensures CompletedMeansComplete(Init(content, slices, maxParallel))
  {
    var start := Init(content, slices, maxParallel);
    forall s | CanReach(start, s) && s.main.Completed? ensures s.file == content {
      ReachableKeepsInv(content, slices, partSize, maxParallel, s);
      CompletedFileComplete(s, partSize);
    }
  }

  /** There are two parts or more exactly when the object is larger than the part size. */
  lemma SeveralParts(slices: seq<Slice>, partSize: int, size: int)
    requires partSize > 0 && Tiles(slices, partSize, size)
    ensures |slices| >= 2 <==> size > partSize
  {
    if |slices| >= 2 {
      EndsBefore(slices, partSize, size, 0, |slices| - 1);
      assert Follows(slices, 0) && Follows(slices, |slices| - 1) && slices[0].length == partSize;
    } else if |slices| == 1 {
      assert Follows(slices, 0);
    }
  }

  /** The first part fails, its abort is heard, and the caller has returned before the error is assigned. */
  lemma ReachNil(start: State, partSize: int) returns (t: State)
    requires Inv(start, partSize) && start.main == Launch(0) && start.free == start.maxParallel
    requires |start.slices| >= 2
    ensures CanReach(start, t) && t.main == Aborted(None) && t.file == start.file && !t.removed
  {
    ReachSelf(start);
    var s := StartReading(start, start, partSize, 0);
    ReachStep(start, s, ReadFails(0, "unexpected EOF"));
    s := Next(s, ReadFails(0, "unexpected EOF"));
    ReachStep(start, s, HearAbort(0));
    s := Next(s, HearAbort(0));
    ReachStep(start, s, CloseFile);
    s := Next(s, CloseFile);
    ReachStep(start, s, RemoveOnError);
    s := Next(s, RemoveOnError);
    ReachStep(start, s, ReturnErr);
    t := Next(s, ReturnErr);
  }

  /**
    The error of a failed part can get lost: a call can return nil, with an incomplete file that is
    left in place, exactly when there are two parts or more.
   */
  lemma CanReturnNilIncomplete(content: bytes, slices: seq<Slice>, partSize: int, maxParallel: nat)
    requires maxParallel >= 1 && Tiles(slices, partSize, |content|)
    ensures (exists s :: CanReach(Init(content, slices, maxParallel), s)
                         && ReturnsNil(s) && s.file != content && !s.removed)
       <==> |slices| >= 2
  {
    var start := Init(content, slices, maxParallel);
    InitInv(content, slices, maxParallel, partSize);
    if |slices| >= 2 {
      var t := ReachNil(start, partSize);
      EndsBefore(slices, partSize, |content|, 0, |slices|);
      assert CanReach(start, t) && ReturnsNil(t) && t.file != content;
    }
    forall s | CanReach(start, s) && ReturnsNil(s) && s.file != content ensures |slices| >= 2 {
      ReachableKeepsInv(content, slices, partSize, maxParallel, s);
      if s.main.Completed? {
        CompletedFileComplete(s, partSize);
      }
    }
  }

  /** For a caller: nil can be trusted exactly for objects of at most one part size. */
  lemma NilMeansCompleteForOnePart(content: bytes, slices: seq<Slice>, partSize: int, maxParallel: nat)
    requires maxParallel >= 1 && partSize > 0 && Tiles(slices, partSize, |content|)
    ensures NilMeansComplete(Init(content, slices, maxParallel)) <==> |content| <= partSize
  {
    SeveralParts(slices, partSize, |content|);
    CanReturnNilIncomplete(content, slices, partSize, maxParallel);
    forall s | CanReach(Init(content, slices, maxParallel), s) && ReturnsNil(s) ensures !s.removed {
      ReachableKeepsInv(content, slices, partSize, maxParallel, s);
    }
  }

  // ---------------------------------------------------------------- what happened in a run, and what it led to

  /** Part k failed with this error, by a read or by a write. */
  ghost predicate FailsWith(acts: seq<Action>, k: nat, e: Error) {
    ReadFails(k, e) in acts || exists n :: WriteFails(k, n, e) in acts
  }

  predicate HasError(w: Worker, e: Error) {
    Failed(w) && w.stage.error == e
  }

  ghost predicate SomeAssign(acts: seq<Action>) {
    exists i :: 0 <= i < |acts| && acts[i].Assign?
  }

  /** A worker assigned err before the caller took the step a. */
  ghost predicate AssignedBefore(acts: seq<Action>, a: Action) {
    exists j :: 0 <= j < |acts| && acts[j] == a && SomeAssign(acts[..j])
  }

  /** The state records what happened to each worker, and whether err was set in time. */
  ghost predicate Logged(acts: seq<Action>, s: State) {
    && (forall k: nat, e :: FailsWith(acts, k, e) <==> k < |s.workers| && HasError(s.workers[k], e))
    && (forall k: nat :: HearAbort(k) in acts <==> k < |s.workers| && Heard(s.workers[k]))
    && (forall k: nat :: Assign(k) in acts <==> k < |s.workers| && s.workers[k].stage.Dead?)
    && LoggedCaller(acts, s)
  }

  ghost predicate LoggedCaller(acts: seq<Action>, s: State) {
    && (s.removed <==> AssignedBefore(acts, RemoveOnError))
    && (s.main.Aborted? ==> (s.main.result.Some? <==> AssignedBefore(acts, ReturnErr)))
  }

  lemma FailsWithNext(acts: seq<Action>, a: Action, k: nat, e: Error)
    ensures FailsWith(acts + [a], k, e)
       <==> FailsWith(acts, k, e) || a == ReadFails(k, e) || (a.WriteFails? && a.k == k && a.error == e)
  {
    assert forall x :: x in acts + [a] <==> x in acts || x == a;
    if a.WriteFails? && a.k == k && a.error == e {
      assert WriteFails(k, a.written, e) in acts + [a];
    }
  }

  lemma AssignedBeforeKept(acts: seq<Action>, a: Action, x: Action)
    requires AssignedBefore(acts, x)
    ensures AssignedBefore(acts + [a], x)
  {
    var j :| 0 <= j < |acts| && acts[j] == x && SomeAssign(acts[..j]);
    assert (acts + [a])[j] == x && (acts + [a])[..j] == acts[..j];
  }

  lemma AssignedBeforeLast(acts: seq<Action>, a: Action)
    requires SomeAssign(acts)
    ensures AssignedBefore(acts + [a], a)
  {
    assert (acts + [a])[|acts|] == a && (acts + [a])[..|acts|] == acts;
  }

  lemma AssignedBeforeGained(acts: seq<Action>, a: Action, x: Action)
    requires AssignedBefore(acts + [a], x)
    ensures AssignedBefore(acts, x) || (a == x && SomeAssign(acts))
  {
    var acts' := acts + [a];
    var j :| 0 <= j < |acts'| && acts'[j] == x && SomeAssign(acts'[..j]);
    if j < |acts| {
      assert acts[j] == x && acts'[..j] == acts[..j];
    } else {
      assert acts'[..j] == acts;
    }
  }

  lemma AssignedBeforeNext(acts: seq<Action>, a: Action, x: Action)
    ensures AssignedBefore(acts + [a], x) <==> AssignedBefore(acts, x) || (a == x && SomeAssign(acts))
  {
    if AssignedBefore(acts + [a], x) {
      AssignedBeforeGained(acts, a, x);
    }
    if AssignedBefore(acts, x) {
      AssignedBeforeKept(acts, a, x);
    }
    if a == x && SomeAssign(acts) {
      AssignedBeforeLast(acts, a);
    }
  }

  lemma AssignedBeforeSome(acts: seq<Action>, x: Action)
    requires AssignedBefore(acts, x)
    ensures SomeAssign(acts)
  {
    var j :| 0 <= j < |acts| && acts[j] == x && SomeAssign(acts[..j]);
    var i :| 0 <= i < |acts[..j]| && acts[..j][i].Assign?;
    assert acts[i].Assign?;
  }

  /** While the caller is on its way out, err is set exactly if some worker has assigned it. */
  lemma ErrIsAssigned(acts: seq<Action>, s: State)
    requires Logged(acts, s) && AbortsHeard(s) && Unwinding(s.main)
    ensures s.err.Some? <==> SomeAssign(acts)
  {
    var h :| OneHeard(s, h);
    if SomeAssign(acts) {
      var i :| 0 <= i < |acts| && acts[i].Assign?;
      assert Assign(acts[i].k) in acts;
      assert Heard(s.workers[acts[i].k]);
    }
    if s.err.Some? {
      assert Assign(h) in acts;
    }
  }

  lemma StepLoggedWorkers(acts: seq<Action>, s: State, a: Action)
    requires Logged(acts, s) && Enabled(s, a)
    ensures forall k: nat, e ::
              FailsWith(acts + [a], k, e) <==> k < |Next(s, a).workers| && HasError(Next(s, a).workers[k], e)
  {
    forall k: nat, e
      ensures FailsWith(acts + [a], k, e) <==> k < |Next(s, a).workers| && HasError(Next(s, a).workers[k], e)
    {
      FailsWithNext(acts, a, k, e);
    }
  }

  /** Which steps change whether worker k has been heard, and whether it has assigned err. */
  lemma WorkerNext(s: State, a: Action, k: nat)
    requires Enabled(s, a)
    ensures k < |Next(s, a).workers| && Heard(Next(s, a).workers[k])
       <==> (k < |s.workers| && Heard(s.workers[k])) || a == HearAbort(k)
    ensures k < |Next(s, a).workers| && Next(s, a).workers[k].stage.Dead?
       <==> (k < |s.workers| && s.workers[k].stage.Dead?) || a == Assign(k)
  {
  }

  lemma StepLoggedHeard(acts: seq<Action>, s: State, a: Action)
    requires Logged(acts, s) && Enabled(s, a)
    ensures forall k: nat :: HearAbort(k) in acts + [a] <==> k < |Next(s, a).workers| && Heard(Next(s, a).workers[k])
    ensures forall k: nat ::
              Assign(k) in acts + [a] <==> k < |Next(s, a).workers| && Next(s, a).workers[k].stage.Dead?
  {
    assert forall x :: x in acts + [a] <==> x in acts || x == a;
    forall k: nat
      ensures HearAbort(k) in acts + [a] <==> k < |Next(s, a).workers| && Heard(Next(s, a).workers[k])
      ensures Assign(k) in acts + [a] <==> k < |Next(s, a).workers| && Next(s, a).workers[k].stage.Dead?
    {
      WorkerNext(s, a, k);
    }
  }

  lemma StepLoggedCaller(acts: seq<Action>, s: State, a: Action)
    requires Logged(acts, s) && AbortsHeard(s) && Enabled(s, a)
    ensures LoggedCaller(acts + [a], Next(s, a))
  {
    AssignedBeforeNext(acts, a, RemoveOnError);
    AssignedBeforeNext(acts, a, ReturnErr);
    if a == RemoveOnError || a == ReturnErr {
      ErrIsAssigned(acts, s);
      if AssignedBefore(acts, a) {
        AssignedBeforeSome(acts, a);
      }
    }
  }

  lemma StepLogged(acts: seq<Action>, s: State, partSize: int, a: Action)
    requires Logged(acts, s) && Inv(s, partSize) && Enabled(s, a)
    ensures Logged(acts + [a], Next(s, a)) && Inv(Next(s, a), partSize)
  {
    StepLoggedWorkers(acts, s, a);
    StepLoggedHeard(acts, s, a);
    StepLoggedCaller(acts, s, a);
    StepKeepsInv(s, partSize, a);
  }

  lemma {:induction false} RunLogged(before: seq<Action>, s: State, partSize: int, acts: seq<Action>)
    requires Logged(before, s) && Inv(s, partSize) && IsRun(s, acts)
    ensures Logged(before + acts, After(s, acts))
    decreases |acts|
  {
    if acts == [] {
      assert before + acts == before;
    } else {
      var next := before + [acts[0]];
      assert before + acts == next + acts[1..];
      StepLogged(before, s, partSize, acts[0]);
      RunLogged(next, Next(s, acts[0]), partSize, acts[1..]);
    }
  }

  lemma WholeRunLogged(content: bytes, slices: seq<Slice>, partSize: int, maxParallel: nat, acts: seq<Action>)
    requires maxParallel >= 1 && Tiles(slices, partSize, |content|)
    requires IsRun(Init(content, slices, maxParallel), acts)
    ensures Logged(acts, After(Init(content, slices, maxParallel), acts))
    ensures Inv(After(Init(content, slices, maxParallel), acts), partSize)
  {
    var start := Init(content, slices, maxParallel);
    InitInv(content, slices, maxParallel, partSize);
    RunKeepsInv(start, partSize, acts);
    RunLogged([], start, partSize, acts);
    assert [] + acts == acts;
  }

  /**
    What the bare return returns, said by what happened in the run: the error of the one part whose
    abort was heard if its worker had assigned it by then, and nil otherwise. Likewise the file is
    removed exactly if it had been assigned when the deferred function looked.
   */
  lemma AbortedMatchesRun(content: bytes, slices: seq<Slice>, partSize: int, maxParallel: nat, acts: seq<Action>)
    returns (h: nat, e: Error)
    requires maxParallel >= 1 && Tiles(slices, partSize, |content|)
    requires IsRun(Init(content, slices, maxParallel), acts)
    requires After(Init(content, slices, maxParallel), acts).main.Aborted?
    ensures HearAbort(h) in acts && FailsWith(acts, h, e)
    ensures forall k: nat :: HearAbort(k) in acts ==> k == h
    ensures After(Init(content, slices, maxParallel), acts).main
         == Aborted(if AssignedBefore(acts, ReturnErr) then Some(e) else None)
    ensures After(Init(content, slices, maxParallel), acts).removed <==> AssignedBefore(acts, RemoveOnError)
  {
    var s := After(Init(content, slices, maxParallel), acts);
    WholeRunLogged(content, slices, partSize, maxParallel, acts);
    h :| OneHeard(s, h);
    e := s.workers[h].stage.error;
    assert HasError(s.workers[h], e);
  }

  /** The final return is reached only if nothing failed. */
  lemma CompletedMatchesRun(content: bytes, slices: seq<Slice>, partSize: int, maxParallel: nat, acts: seq<Action>)
    requires maxParallel >= 1 && Tiles(slices, partSize, |content|)
    requires IsRun(Init(content, slices, maxParallel), acts)
    requires After(Init(content, slices, maxParallel), acts).main.Completed?
    ensures forall k: nat, e :: !FailsWith(acts, k, e)
  {
    WholeRunLogged(content, slices, partSize, maxParallel, acts);
    CompletedAllGone(After(Init(content, slices, maxParallel), acts), partSize);
  }

  /** The first part fails, and err is assigned before the file is removed, or only after that. */
  lemma ReachError(start: State, partSize: int, e: Error, removed: bool) returns (t: State)
    requires Inv(start, partSize) && start.main == Launch(0) && start.free == start.maxParallel
    requires |start.slices| >= 2
    ensures CanReach(start, t) && t.main == Aborted(Some(e)) && t.removed == removed
  {
    ReachSelf(start);
    var s := StartReading(start, start, partSize, 0);
    ReachStep(start, s, ReadFails(0, e));
    s := Next(s, ReadFails(0, e));
    ReachStep(start, s, HearAbort(0));
    s := Next(s, HearAbort(0));
    ReachStep(start, s, CloseFile);
    s := Next(s, CloseFile);
    t := ReachErrorAssigned(start, s, e, removed);
  }

  lemma ReachErrorAssigned(start: State, s: State, e: Error, removed: bool) returns (t: State)
    requires CanReach(start, s) && s.main == Removing && s.err == None
    requires s.workers != [] && s.workers[0].stage == Assigning(e)
    ensures CanReach(start, t) && t.main == Aborted(Some(e)) && t.removed == removed
  {
    var first, second := if removed then Assign(0) else RemoveOnError, if removed then RemoveOnError else Assign(0);
    ReachStep(start, s, first);
    t := Next(s, first);
    ReachStep(start, t, second);
    t := Next(t, second);
    ReachStep(start, t, ReturnErr);
    t := Next(t, ReturnErr);
  }

  /**
    From two parts on, and only then, a call can return any error of a part, whether the truncated
    file has been removed or not.
   */
  lemma CanReturnError(content: bytes, slices: seq<Slice>, partSize: int, maxParallel: nat, e: Error, removed: bool)
    requires maxParallel >= 1 && Tiles(slices, partSize, |content|)
    ensures (exists s :: CanReach(Init(content, slices, maxParallel), s)
                         && s.main == Aborted(Some(e)) && s.removed == removed)
       <==> |slices| >= 2
  {
    var start := Init(content, slices, maxParallel);
    InitInv(content, slices, maxParallel, partSize);
    if |slices| >= 2 {
      var t := ReachError(start, partSize, e, removed);
    }
    forall s | CanReach(start, s) && s.main == Aborted(Some(e)) ensures |slices| >= 2 {
      ReachableKeepsInv(content, slices, partSize, maxParallel, s);
    }
  }

  // ---------------------------------------------------------------- every call can succeed

  /** Something a state without failures can do that is not a failure. */
  lemma NextWithoutFailure(s: State, partSize: int) returns (a: Action)
    requires Inv(s, partSize) && !SomePartFailed(s) && (s.main.Launch? || s.main.Wait?)
    ensures Enabled(s, a) && !a.GetFails? && !a.ReadFails? && !a.WriteFails?
  {
    if k :| 0 <= k < |s.workers| && !s.workers[k].stage.Gone? {
      assert !Failed(s.workers[k]);
      WorkerReady(s, partSize, k);
      a := WorkerAction(s.main, k, s.workers[k]);
    } else {
      a := NextWhenAllGone(s);
    }
  }

  lemma NextWhenAllGone(s: State) returns (a: Action)
    requires Counts(s) && s.maxParallel >= 1 && (s.main.Launch? || s.main.Wait?)
    requires forall k :: 0 <= k < |s.workers| ==> s.workers[k].stage.Gone?
    ensures Enabled(s, a) && !a.GetFails? && !a.ReadFails? && !a.WriteFails?
  {
    AllSignalled(s.workers);
    if s.main.Launch? {
      if Sum(s.workers, HoldsId) > 0 {
        var k := SumPositive(s.workers, HoldsId);
      }
      a := if s.main.next < |s.slices| then TakeWorker else EndLaunch;
    } else {
      a := if s.main.got < |s.slices| then TakeDone else EndWait;
    }
  }

  lemma StaysWithoutFailure(s: State, a: Action)
    requires NoneHeard(s) && !SomePartFailed(s) && (s.main.Launch? || s.main.Wait?)
    requires Enabled(s, a) && !a.GetFails? && !a.ReadFails? && !a.WriteFails?
    ensures !SomePartFailed(Next(s, a))
    ensures Next(s, a).main.Launch? || Next(s, a).main.Wait? || Next(s, a).main.Completed?
  {
    forall k | 0 <= k < |Next(s, a).workers| ensures !Failed(Next(s, a).workers[k]) {
      assert k < |s.workers| ==> !Failed(s.workers[k]);
    }
    assert a.HearAbort? ==> Failed(s.workers[a.k]);
  }

  lemma {:induction false} ReachCompleted(start: State, s: State, partSize: int) returns (t: State)
    requires CanReach(start, s) && Inv(s, partSize) && !SomePartFailed(s)
    requires s.main.Launch? || s.main.Wait? || s.main.Completed?
    ensures CanReach(start, t) && t.main.Completed?
    decreases Measure(s) + 1
  {
    t := s;
    if s.main.Completed? {
    } else {
      var a := NextWithoutFailure(s, partSize);
      StaysWithoutFailure(s, a);
      StepKeepsInv(s, partSize, a);
      StepDecreases(s, partSize, a);
      MeasureNonnegative(s);
      ReachStep(start, s, a);
      t := ReachCompleted(start, Next(s, a), partSize);
    }
  }

  /** Whatever the object, a call can reach the final return. */
  lemma CanComplete(content: bytes, slices: seq<Slice>, partSize: int, maxParallel: nat)
    requires maxParallel >= 1 && Tiles(slices, partSize, |content|)
    ensures exists s :: CanReach(Init(content, slices, maxParallel), s) && s.main.Completed?
  {
    var start := Init(content, slices, maxParallel);
    InitInv(content, slices, maxParallel, partSize);
    ReachSelf(start);
    var t := ReachCompleted(start, start, partSize);
  }
}
