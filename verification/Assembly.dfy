/** What a whole transfer leaves behind: the planners, the cutting loops, the part lists and the protocols together. */
module Assembly {
  import opened Options
  import opened Bytes
  import opened PartList
  import opened PartPlan
  import PartTransfer
  import PartTransferOutcomes
  import SuperUpload
  import SuperUploadOutcomes
  import SuperDownload
  import SuperDownloadOutcomes

  /**
    The object the service makes of a part list: the bytes of the named parts, in list order.
    `acked[k]` is the ETag under which it keeps part k+1; it refuses a list that names a part it
    does not have, or a part by another ETag.
   */
  function Assemble<T>(data: seq<T>, slices: seq<Slice>, acked: seq<Option<ETag>>, list: seq<PartInfo>): Option<seq<T>>
    requires Inside(slices, |data|) && |acked| == |slices|
  {
    if list == [] then Some([])
    else
      var rest, p := Assemble(data, slices, acked, list[..|list| - 1]), list[|list| - 1];
      if rest.Some? && 1 <= p.partNumber <= |slices| && acked[p.partNumber - 1] == Some(p.etag) then
        Some(rest.value + PartPlan.Cut(data, slices[p.partNumber - 1]))
      else None
  }

  lemma {:induction false} PrefixAssembles<T>(data: seq<T>, slices: seq<Slice>, acked: seq<Option<ETag>>,
                                              list: seq<PartInfo>, n: nat)
    requires Inside(slices, |data|) && IsComplete(list, acked) && n <= |list| == |slices|
    ensures Assemble(data, slices, acked, list[..n]) == Some(Concat(data, slices[..n]))
  {
    if n == 0 {
    } else {
      PrefixAssembles(data, slices, acked, list, n - 1);
      assert list[..n][..n - 1] == list[..n - 1] && slices[..n][..n - 1] == slices[..n - 1];
    }
  }

  /** A complete list over parts that tile the data makes the service assemble exactly the data. */
  lemma CompleteListAssembles<T>(data: seq<T>, slices: seq<Slice>, partSize: int, acked: seq<Option<ETag>>,
                                 list: seq<PartInfo>)
    requires Tiles(slices, partSize, |data|) && IsComplete(list, acked) && |list| == |slices|
    ensures Inside(slices, |data|)
    ensures Assemble(data, slices, acked, list) == Some(data)
  {
    TilesReassemble(data, slices, partSize);
    PrefixAssembles(data, slices, acked, list, |list|);
    assert list[..|list|] == list && slices[..|slices|] == slices;
  }

  // ---------------------------------------------------------------- ParallelUpload and ParallelCopy

  /**
    If a run returns without error, its one Complete has made the service assemble the whole data,
    given that it keeps each part under the ETag of its answer.
   */
  ghost predicate ParallelAssembles<T>(data: seq<T>, slices: seq<Slice>, maxParallel: nat,
                                       acts: seq<PartTransfer.Action>)
    requires Inside(slices, |data|) && PartTransfer.IsRun(PartTransfer.Init(|slices|, maxParallel), acts)
  {
    var s := PartTransfer.After(PartTransfer.Init(|slices|, maxParallel), acts);
    s.main == PartTransfer.Returned(Done) ==>
      && s.completed && |s.completes| == 1 && |s.workers| == |slices|
      && PartTransferOutcomes.KeptUnder(PartTransfer.Acked(s.workers), acts)
      && Assemble(data, slices, PartTransfer.Acked(s.workers), s.completes[0]) == Some(data)
  }

  lemma ParallelTransferComplete<T>(data: seq<T>, slices: seq<Slice>, partSize: int, maxParallel: nat,
                                    acts: seq<PartTransfer.Action>)
    requires maxParallel >= 1 && Tiles(slices, partSize, |data|)
    requires PartTransfer.IsRun(PartTransfer.Init(|slices|, maxParallel), acts)
    ensures Inside(slices, |data|) && ParallelAssembles(data, slices, maxParallel, acts)
  {
    var start := PartTransfer.Init(|slices|, maxParallel);
    var s := PartTransfer.After(start, acts);
    PartTransfer.InitInv(|slices|, maxParallel);
    PartTransfer.RunKeepsInv(start, acts);
    PartTransfer.ParametersFixed(start, acts);
    TilesInside(slices, partSize, |data|);
    if s.main == PartTransfer.Returned(Done) {
      PartTransferOutcomes.ResultMatchesRun(|slices|, maxParallel, acts);
      PartTransferOutcomes.CompleteMeansKept(s.completes[0], PartTransfer.Acked(s.workers), acts);
      CompleteListAssembles(data, slices, partSize, PartTransfer.Acked(s.workers), s.completes[0]);
    }
  }

  /**
    ParallelUpload from its plan on: the file is cut into parts of the planned size, and whatever the
    workers do, no error means that all of it arrived.
   */
  method PlannedParallelUpload<T>(data: seq<T>, multipartSize: int64, maxParallel: nat)
    returns (plan: Option<Plan>, slices: seq<Slice>)
    requires |data| <= SIZE_BOUND as int && -MULTIPART_ALIGN < multipartSize <= SIZE_BOUND && maxParallel >= 1
    ensures plan.None? <==> multipartSize <= 0
    ensures plan.Some? ==>
              && IsLeastPartSize(plan.value.partSize as int - ExtraStep(|data|, multipartSize as int),
                                 |data|, multipartSize as int, MULTIPART_ALIGN as int)
              && Tiles(slices, plan.value.partSize as int, |data|)
              && |slices| == plan.value.partNum as int <= MAX_PART_NUMBER as int
    ensures plan.Some? ==>
              && Inside(slices, |data|)
              && forall acts :: PartTransfer.IsRun(PartTransfer.Init(|slices|, maxParallel), acts) ==>
                   ParallelAssembles(data, slices, maxParallel, acts)
  {
    slices := [];
    plan := PlanParallelUpload(|data| as int64, multipartSize);
    if plan.None? {
      return;
    }
    slices := CutUpload(|data| as int64, plan.value);
    TilesInside(slices, plan.value.partSize as int, |data|);
    forall acts | PartTransfer.IsRun(PartTransfer.Init(|slices|, maxParallel), acts)
      ensures ParallelAssembles(data, slices, maxParallel, acts)
    {
      ParallelTransferComplete(data, slices, plan.value.partSize as int, maxParallel, acts);
    }
  }

  /**
    ParallelCopy from its plan on: the ranges cut the source into parts of the planned size, and no
    error means that they have been put together to all of it.
   */
  method PlannedParallelCopy<T>(data: seq<T>, maxParallel: nat) returns (plan: Plan, ranges: seq<Range>)
    requires |data| <= SIZE_BOUND as int && maxParallel >= 1
    ensures IsLeastPartSize(plan.partSize as int, |data|, DEFAULT_MULTIPART_SIZE as int, DEFAULT_MULTIPART_SIZE as int)
    ensures Tiles(Named(ranges), plan.partSize as int, |data|)
    ensures |ranges| == plan.partNum as int <= MAX_PART_NUMBER as int
    ensures Inside(Named(ranges), |data|)
    ensures forall acts :: PartTransfer.IsRun(PartTransfer.Init(|Named(ranges)|, maxParallel), acts) ==>
              ParallelAssembles(data, Named(ranges), maxParallel, acts)
  {
    plan := PlanCopy(|data| as int64);
    ranges := CutCopy(|data| as int64, plan);
    TilesInside(Named(ranges), plan.partSize as int, |data|);
    forall acts | PartTransfer.IsRun(PartTransfer.Init(|Named(ranges)|, maxParallel), acts)
      ensures ParallelAssembles(data, Named(ranges), maxParallel, acts)
    {
      ParallelTransferComplete(data, Named(ranges), plan.partSize as int, maxParallel, acts);
    }
  }

  // ---------------------------------------------------------------- UploadSuperFile

  /**
    If a run returns nil, its one Complete has made the service assemble the whole data, given that it
    keeps each part under the ETag of its answer.
   */
  ghost predicate SuperAssembles<T>(data: seq<T>, slices: seq<Slice>, maxParallel: nat, acts: seq<SuperUpload.Action>)
    requires Inside(slices, |data|) && SuperUpload.IsRun(SuperUpload.Init(|slices|, maxParallel), acts)
  {
    var s := SuperUpload.After(SuperUpload.Init(|slices|, maxParallel), acts);
    s.main == SuperUpload.Returned(Done) ==>
      && s.completed && |s.completes| == 1 && |s.workers| == |slices|
      && SuperUploadOutcomes.KeptUnder(SuperUpload.Acked(s.workers), acts)
      && Assemble(data, slices, SuperUpload.Acked(s.workers), s.completes[0]) == Some(data)
  }

  lemma SuperUploadComplete<T>(data: seq<T>, slices: seq<Slice>, partSize: int, maxParallel: nat,
                               acts: seq<SuperUpload.Action>)
    requires maxParallel >= 1 && Tiles(slices, partSize, |data|)
    requires SuperUpload.IsRun(SuperUpload.Init(|slices|, maxParallel), acts)
    ensures Inside(slices, |data|) && SuperAssembles(data, slices, maxParallel, acts)
  {
    var start := SuperUpload.Init(|slices|, maxParallel);
    var s := SuperUpload.After(start, acts);
    SuperUpload.InitInv(|slices|, maxParallel);
    SuperUpload.RunKeepsInv(start, acts);
    SuperUpload.ParametersFixed(start, acts);
    TilesInside(slices, partSize, |data|);
    if s.main == SuperUpload.Returned(Done) {
      SuperUploadOutcomes.ResultMatchesRun(|slices|, maxParallel, acts);
      SuperUploadOutcomes.CompleteMeansKept(s.completes[0], SuperUpload.Acked(s.workers), acts);
      CompleteListAssembles(data, slices, partSize, SuperUpload.Acked(s.workers), s.completes[0]);
    }
  }

  /**
    UploadSuperFile from its plan on: the file is cut into parts of the planned size, and whatever the
    workers do, nil means that all of it arrived.
   */
  method PlannedSuperUpload<T>(data: seq<T>, multipartSize: int64, maxParallel: nat)
    returns (plan: Option<Plan>, slices: seq<Slice>)
    requires |data| <= SIZE_BOUND as int && multipartSize <= SIZE_BOUND && maxParallel >= 1
    ensures plan.None? <==> |data| < MIN_MULTIPART_SIZE as int || multipartSize < MIN_MULTIPART_SIZE
    ensures plan.Some? ==>
              && IsLeastPartSize(plan.value.partSize as int, |data|, multipartSize as int, MULTIPART_ALIGN as int)
              && Tiles(slices, plan.value.partSize as int, |data|)
              && |slices| == plan.value.partNum as int <= MAX_PART_NUMBER as int
    ensures plan.Some? ==>
              && Inside(slices, |data|)
              && forall acts :: SuperUpload.IsRun(SuperUpload.Init(|slices|, maxParallel), acts) ==>
                   SuperAssembles(data, slices, maxParallel, acts)
  {
    slices := [];
    plan := PlanSuperUpload(|data| as int64, multipartSize);
    if plan.None? {
      return;
    }
    slices := CutUpload(|data| as int64, plan.value);
    TilesInside(slices, plan.value.partSize as int, |data|);
    forall acts | SuperUpload.IsRun(SuperUpload.Init(|slices|, maxParallel), acts)
      ensures SuperAssembles(data, slices, maxParallel, acts)
    {
      SuperUploadComplete(data, slices, plan.value.partSize as int, maxParallel, acts);
    }
  }

  // ---------------------------------------------------------------- DownloadSuperFile

  /**
    DownloadSuperFile from its plan on: the ranges cut the object into parts of the aligned size, the
    final return means a complete file, and a nil result means one exactly when the object is no
    larger than the aligned part size.
   */
  method PlannedDownload(content: bytes, multipartSize: int64, maxParallel: nat) returns (ranges: Option<seq<Range>>)
    requires |content| <= SIZE_BOUND as int && -MULTIPART_ALIGN < multipartSize <= SIZE_BOUND && maxParallel >= 1
    ensures ranges.None? <==> multipartSize <= 0
    ensures ranges.Some? ==>
              Tiles(Named(ranges.value), AlignUp(multipartSize as int, MULTIPART_ALIGN as int), |content|)
    ensures ranges.Some? ==>
              SuperDownloadOutcomes.CompletedMeansComplete(
                SuperDownload.Init(content, Named(ranges.value), maxParallel))
    ensures ranges.Some? ==>
              (SuperDownloadOutcomes.NilMeansComplete(SuperDownload.Init(content, Named(ranges.value), maxParallel))
               <==> |content| <= AlignUp(multipartSize as int, MULTIPART_ALIGN as int))
  {
    var plan := PlanDownload(|content| as int64, multipartSize);
    if plan.None? {
      return None;
    }
    var cut := CutDownload(|content| as int64, plan.value);
    var partSize := plan.value.partSize as int;
    SuperDownloadOutcomes.NilMeansCompleteForOnePart(content, Named(cut), partSize, maxParallel);
    SuperDownloadOutcomes.FinalReturnIsRight(content, Named(cut), partSize, maxParallel);
    ranges := Some(cut);
  }
}
