/**
  How a transfer is cut into parts. The methods compute on 64-bit integers, as the client does, so
  that verifying them also shows that no sum or product overflows.
 */
module PartPlan {
  import opened Numbers
  import opened Options

  newtype int64 = x: int | -0x8000_0000_0000_0000 <= x < 0x8000_0000_0000_0000

  const MULTIPART_ALIGN: int64 := 0x10_0000            // 1 MB
  const MIN_MULTIPART_SIZE: int64 := 102400            // 100 KB
  const DEFAULT_MULTIPART_SIZE: int64 := 0xC0_0000     // 12 MB
  const MAX_PART_NUMBER: int64 := 10000
  const MAX_SINGLE_PART_SIZE: int64 := 0x1_4000_0000   // 5 GB
  const MAX_SINGLE_OBJECT_SIZE: int64 := 53656167435468 // 48.8 * 2^40, rounded down

  /** Sizes up to this bound leave room for every sum the planners form. */
  const SIZE_BOUND: int64 := 0x3000_0000_0000_0000

  datatype Plan = Plan(partSize: int64, partNum: int64)

  function CeilDiv(a: int, b: int): int
    requires b > 0
  {
    (a + b - 1) / b
  }

  function AlignUp(a: int, unit: int): int
    requires unit > 0
  {
    CeilDiv(a, unit) * unit
  }

  // ---------------------------------------------------------------- the part size

  /** A multiple of `unit`, at least `atLeast`, with which `size` bytes need no more than 10000 parts. */
  ghost predicate Suitable(partSize: int, size: int, atLeast: int, unit: int)
    requires unit > 0
  {
    partSize % unit == 0 && partSize >= atLeast && partSize > 0 && size <= MAX_PART_NUMBER as int * partSize
  }

  /** The least suitable part size. */
  ghost predicate IsLeastPartSize(partSize: int, size: int, atLeast: int, unit: int)
    requires unit > 0
  {
    Suitable(partSize, size, atLeast, unit) && forall q :: Suitable(q, size, atLeast, unit) ==> partSize <= q
  }

  lemma CeilDivBounds(a: int, b: int)
    requires b > 0
    ensures (CeilDiv(a, b) - 1) * b < a <= CeilDiv(a, b) * b
    ensures a >= 0 ==> CeilDiv(a, b) >= 0
    ensures a > 0 ==> CeilDiv(a, b) > 0
  {
    var q, r := (a + b - 1) / b, (a + b - 1) % b;
    assert a + b - 1 == q * b + r && 0 <= r < b;
    assert (q - 1) * b == q * b - b;
    if a > 0 && q <= 0 {
      MulMonotone(q, 0, b);
    }
    if a >= 0 && q < 0 {
      MulMonotone(q, -1, b);
    }
  }

  lemma MulMonotone(x: int, y: int, b: int)
    requires x <= y && b >= 0
    ensures x * b <= y * b
  {
  }

  /** AlignUp(a, unit) is the least multiple of unit that is at least a. */
  lemma AlignUpIsLeast(a: int, unit: int, q: int)
    requires unit > 0
    ensures AlignUp(a, unit) % unit == 0 && a <= AlignUp(a, unit) < a + unit
    ensures q % unit == 0 && q >= a ==> AlignUp(a, unit) <= q
  {
    var c := CeilDiv(a, unit);
    CeilDivBounds(a, unit);
    assert (c - 1) * unit == c * unit - unit;
    MultipleIsMultiple(c, unit);
    if q % unit == 0 && q >= a {
      var m := q / unit;
      assert q == m * unit;
      if m < c {
        MulMonotone(m, c - 1, unit);
      } else {
        MulMonotone(c, m, unit);
      }
    }
  }

  lemma MultipleIsMultiple(c: int, unit: int)
    requires unit > 0
    ensures (c * unit) % unit == 0
  {
    var q, r := (c * unit) / unit, (c * unit) % unit;
    assert c * unit == q * unit + r;
    assert (c - q) * unit == c * unit - q * unit == r;
    if c - q >= 1 {
      MulMonotone(1, c - q, unit);
    } else if c - q <= -1 {
      MulMonotone(c - q, -1, unit);
    }
  }

  /** Exceeding 10000 parts is the same as exceeding 10000 part sizes. */
  lemma TooManyParts(size: int, partSize: int)
    requires partSize > 0
    ensures CeilDiv(size, partSize) <= MAX_PART_NUMBER as int <==> size <= MAX_PART_NUMBER as int * partSize
  {
    var n := CeilDiv(size, partSize);
    CeilDivBounds(size, partSize);
    if n <= 10000 {
      MulMonotone(n, 10000, partSize);
    } else {
      MulMonotone(10000, n - 1, partSize);
    }
  }

  /**
    The resize branch: aligning ceil(size / 10000) gives the least suitable part size, larger than
    the first choice.
   */
  lemma ResizedIsLeast(size: int, atLeast: int, unit: int)
    requires unit > 0 && atLeast > 0
    requires size > MAX_PART_NUMBER as int * AlignUp(atLeast, unit)
    ensures IsLeastPartSize(AlignUp(CeilDiv(size, MAX_PART_NUMBER as int), unit), size, atLeast, unit)
    ensures AlignUp(CeilDiv(size, MAX_PART_NUMBER as int), unit) > AlignUp(atLeast, unit)
  {
    var c := CeilDiv(size, 10000);
    var first, partSize := AlignUp(atLeast, unit), AlignUp(c, unit);
    CeilDivBounds(size, 10000);
    AlignUpIsLeast(c, unit, 0);
    AlignUpIsLeast(atLeast, unit, 0);
    forall q | Suitable(q, size, atLeast, unit) ensures partSize <= q {
      AlignUpIsLeast(c, unit, q);
    }
  }

  lemma AlignedIsLeast(size: int, atLeast: int, unit: int)
    requires unit > 0 && atLeast > 0
    requires size <= MAX_PART_NUMBER as int * AlignUp(atLeast, unit)
    ensures IsLeastPartSize(AlignUp(atLeast, unit), size, atLeast, unit)
  {
    AlignUpIsLeast(atLeast, unit, 0);
    forall q | Suitable(q, size, atLeast, unit) ensures AlignUp(atLeast, unit) <= q {
      AlignUpIsLeast(atLeast, unit, q);
    }
  }

  /** The alignment step all planners but the copy planner share. */
  method AlignPartSize(partSize: int64) returns (aligned: int64)
    requires -MULTIPART_ALIGN < partSize <= SIZE_BOUND
    ensures aligned as int == AlignUp(partSize as int, MULTIPART_ALIGN as int)
    ensures partSize <= aligned < partSize + MULTIPART_ALIGN && (aligned == 0 <==> partSize <= 0) && aligned >= 0
  {
    aligned := (partSize + MULTIPART_ALIGN - 1) / MULTIPART_ALIGN * MULTIPART_ALIGN;
  }

  /** The number of parts, rounded up. */
  method CountParts(size: int64, partSize: int64) returns (partNum: int64)
    requires 0 <= size <= SIZE_BOUND && 0 < partSize <= SIZE_BOUND + MULTIPART_ALIGN
    ensures partNum as int == CeilDiv(size as int, partSize as int)
    ensures partNum <= MAX_PART_NUMBER <==> size as int <= MAX_PART_NUMBER as int * partSize as int
  {
    CeilDivBounds(size as int, partSize as int);
    TooManyParts(size as int, partSize as int);
    partNum := (size + partSize - 1) / partSize;
  }

  /** UploadSuperFile's plan; None is the error for a file or a part size below 100 KB. */
  method PlanSuperUpload(size: int64, multipartSize: int64) returns (plan: Option<Plan>)
    requires 0 <= size <= SIZE_BOUND && multipartSize <= SIZE_BOUND
    ensures plan.None? <==> size < 100 * 1024 || multipartSize < 100 * 1024
    ensures plan.Some? ==> IsLeastPartSize(plan.value.partSize as int, size as int, multipartSize as int,
        MULTIPART_ALIGN as int)
    ensures plan.Some? ==> plan.value.partNum as int == CeilDiv(size as int, plan.value.partSize as int)
    ensures plan.Some? ==> plan.value.partNum <= MAX_PART_NUMBER
  {
    if size < MIN_MULTIPART_SIZE || multipartSize < MIN_MULTIPART_SIZE {
      return None;
    }
    var partSize := AlignPartSize(multipartSize);
    var partNum := CountParts(size, partSize);
    if partNum > MAX_PART_NUMBER {
      ResizedIsLeast(size as int, multipartSize as int, MULTIPART_ALIGN as int);
      partSize := (size + MAX_PART_NUMBER - 1) / MAX_PART_NUMBER;
      partSize := AlignPartSize(partSize);
      partNum := CountParts(size, partSize);
    } else {
      AlignedIsLeast(size as int, multipartSize as int, MULTIPART_ALIGN as int);
    }
    plan := Some(Plan(partSize, partNum));
  }

  /** When parallelPartUpload picks a part size one megabyte above the least suitable one. */
  predicate OneStepLarger(size: int, multipartSize: int) {
    && size > MAX_PART_NUMBER as int * AlignUp(multipartSize, MULTIPART_ALIGN as int)
    && CeilDiv(size, MAX_PART_NUMBER as int) % MULTIPART_ALIGN as int == 0
    && (size % MAX_PART_NUMBER as int == 0 || size % MAX_PART_NUMBER as int == MAX_PART_NUMBER as int - 1)
  }

  /** Rounding with +10001 instead of +9999 exceeds the ceiling by one exactly next to a multiple of 10000. */
  lemma RoundedPastCeiling(size: int)
    requires size >= 0
    ensures (size + 10001) / 10000
        == CeilDiv(size, 10000) + (if size % 10000 == 0 || size % 10000 == 9999 then 1 else 0)
  {
  }

  /** Aligning one byte more adds a megabyte exactly when the smaller number was aligned already. */
  lemma AlignOneMore(c: int)
    ensures AlignUp(c + 1, MULTIPART_ALIGN as int)
         == AlignUp(c, MULTIPART_ALIGN as int) + (if c % MULTIPART_ALIGN as int == 0 then MULTIPART_ALIGN as int else 0)
  {
  }

  /** The resize branch of parallelPartUpload: the least suitable part size, or one megabyte more. */
  lemma ParallelResize(size: int, multipartSize: int)
    requires multipartSize > 0 && size > MAX_PART_NUMBER as int * AlignUp(multipartSize, MULTIPART_ALIGN as int)
    ensures IsLeastPartSize(
              AlignUp((size + 10001) / 10000, MULTIPART_ALIGN as int) - ExtraStep(size, multipartSize),
              size, multipartSize, MULTIPART_ALIGN as int)
    ensures 0 < AlignUp((size + 10001) / 10000, MULTIPART_ALIGN as int)
        <= (size + 10001) / 10000 + MULTIPART_ALIGN as int
  {
    var c := CeilDiv(size, 10000);
    AlignUpIsLeast(multipartSize, 0x10_0000, 0);
    ResizedIsLeast(size, multipartSize, 0x10_0000);
    RoundedPastCeiling(size);
    AlignOneMore(c);
    AlignUpIsLeast((size + 10001) / 10000, 0x10_0000, 0);
  }

  function ExtraStep(size: int, multipartSize: int): int {
    if OneStepLarger(size, multipartSize) then MULTIPART_ALIGN as int else 0
  }

  /** parallelPartUpload's plan; None is the panic of dividing by a part size of zero. */
  method PlanParallelUpload(size: int64, multipartSize: int64) returns (plan: Option<Plan>)
    requires 0 <= size <= SIZE_BOUND && -MULTIPART_ALIGN < multipartSize <= SIZE_BOUND
    ensures plan.None? <==> multipartSize <= 0
    ensures plan.Some? ==>
              IsLeastPartSize(plan.value.partSize as int - ExtraStep(size as int, multipartSize as int),
                              size as int, multipartSize as int, MULTIPART_ALIGN as int)
    ensures plan.Some? ==> plan.value.partNum as int == CeilDiv(size as int, plan.value.partSize as int)
    ensures plan.Some? ==> plan.value.partNum <= MAX_PART_NUMBER
  {
    var partSize := AlignPartSize(multipartSize);
    if partSize == 0 {
      return None;
    }
    var partNum := CountParts(size, partSize);
    if partNum > MAX_PART_NUMBER {
      ParallelResize(size as int, multipartSize as int);
      partSize := (size + MAX_PART_NUMBER + 1) / MAX_PART_NUMBER;
      partSize := AlignPartSize(partSize);
      partNum := CountParts(size, partSize);
    } else {
      AlignedIsLeast(size as int, multipartSize as int, MULTIPART_ALIGN as int);
    }
    plan := Some(Plan(partSize, partNum));
  }

  /**
    Both upload planners on one input: where UploadSuperFile accepts it, ParallelUpload picks the
    same part size or, exactly under OneStepLarger, one megabyte more, and never more parts.
   */
  method PlanBothUploads(size: int64, multipartSize: int64) returns (super: Option<Plan>, parallel: Option<Plan>)
    requires 0 <= size <= SIZE_BOUND && -MULTIPART_ALIGN < multipartSize <= SIZE_BOUND
    ensures super.Some? ==> parallel.Some?
    ensures super.Some? && !OneStepLarger(size as int, multipartSize as int) ==> parallel == super
    ensures super.Some? && OneStepLarger(size as int, multipartSize as int) ==>
              && parallel.value.partSize as int == super.value.partSize as int + MULTIPART_ALIGN as int
              && parallel.value.partNum <= super.value.partNum
  {
    super := PlanSuperUpload(size, multipartSize);
    parallel := PlanParallelUpload(size, multipartSize);
    if super.Some? {
      var least, other := super.value.partSize as int, parallel.value.partSize as int;
      LeastUnique(least, other - ExtraStep(size as int, multipartSize as int), size as int, multipartSize as int,
                  MULTIPART_ALIGN as int);
      FewerParts(size as int, least, other);
    }
  }

  lemma LeastUnique(p: int, q: int, size: int, atLeast: int, unit: int)
    requires unit > 0
    requires IsLeastPartSize(p, size, atLeast, unit) && IsLeastPartSize(q, size, atLeast, unit)
    ensures p == q
  {
    assert Suitable(p, size, atLeast, unit) && Suitable(q, size, atLeast, unit);
  }

  /** Larger parts are not more. */
  lemma FewerParts(size: int, p: int, q: int)
    requires 0 < p <= q && size >= 0
    ensures CeilDiv(size, q) <= CeilDiv(size, p)
  {
    var m, n := CeilDiv(size, p), CeilDiv(size, q);
    CeilDivBounds(size, p);
    CeilDivBounds(size, q);
    if m < n {
      MulMonotone(m, n - 1, p);
      MulMonotone(p, q, n - 1);
    }
  }

  /** parallelPartCopy's plan, with its ceilings of quotients taken exactly. */
  method PlanCopy(size: int64) returns (plan: Plan)
    requires 0 <= size <= SIZE_BOUND
    ensures IsLeastPartSize(plan.partSize as int, size as int, DEFAULT_MULTIPART_SIZE as int,
        DEFAULT_MULTIPART_SIZE as int)
    ensures plan.partNum as int == CeilDiv(size as int, plan.partSize as int)
    ensures plan.partNum <= MAX_PART_NUMBER
  {
    var partSize := DEFAULT_MULTIPART_SIZE;
    assert AlignUp(0xC0_0000, 0xC0_0000) == 0xC0_0000;
    if partSize * MAX_PART_NUMBER < size {
      var lowerLimit := (size + MAX_PART_NUMBER - 1) / MAX_PART_NUMBER;
      AlignUpIsLeast(CeilDiv(size as int, 10000), 0xC0_0000, 0);
      ResizedIsLeast(size as int, 0xC0_0000, 0xC0_0000);
      partSize := (lowerLimit + partSize - 1) / partSize * partSize;
    } else {
      AlignedIsLeast(size as int, 0xC0_0000, 0xC0_0000);
    }
    var partNum := CountParts(size, partSize);
    plan := Plan(partSize, partNum);
  }

  /** DownloadSuperFile's plan; None is the panic of dividing by a part size of zero. */
  method PlanDownload(size: int64, multipartSize: int64) returns (plan: Option<Plan>)
    requires 0 <= size <= SIZE_BOUND && -MULTIPART_ALIGN < multipartSize <= SIZE_BOUND
    ensures plan.None? <==> multipartSize <= 0
    ensures plan.Some? ==> plan.value.partSize as int == AlignUp(multipartSize as int, MULTIPART_ALIGN as int) > 0
    ensures plan.Some? ==> plan.value.partNum as int == CeilDiv(size as int, plan.value.partSize as int)
  {
    var partSize := AlignPartSize(multipartSize);
    if partSize == 0 {
      return None;
    }
    var partNum := CountParts(size, partSize);
    plan := Some(Plan(partSize, partNum));
  }

  // ---------------------------------------------------------------- the service's limits

  /** Within the documented sizes both upload planners stay at or below 5 GB, even one megabyte above the least size. */
  lemma UploadPartsWithinLimit(partSize: int, size: int, multipartSize: int)
    requires 0 <= size <= MAX_SINGLE_OBJECT_SIZE as int
    requires 0 < multipartSize <= MAX_SINGLE_PART_SIZE as int
    requires IsLeastPartSize(partSize, size, multipartSize, MULTIPART_ALIGN as int)
    ensures partSize <= MAX_SINGLE_PART_SIZE as int
    ensures OneStepLarger(size, multipartSize) ==> partSize + MULTIPART_ALIGN as int <= MAX_SINGLE_PART_SIZE as int
  {
    assert Suitable(MAX_SINGLE_PART_SIZE as int, size, multipartSize, MULTIPART_ALIGN as int);
    if OneStepLarger(size, multipartSize) {
      ResizedIsLeast(size, multipartSize, MULTIPART_ALIGN as int);
      AlignUpIsLeast(CeilDiv(size, 10000), 0x10_0000, 0);
    }
  }

  /**
    parallelPartCopy works in steps of 12 MB, so its parts can exceed 5 GB although the object does
    not exceed 48.8 TB: they fit exactly up to 10000 parts of 426 steps.
   */
  lemma CopyPartsWithinLimit(partSize: int, size: int)
    requires size >= 0
    requires IsLeastPartSize(partSize, size, DEFAULT_MULTIPART_SIZE as int, DEFAULT_MULTIPART_SIZE as int)
    ensures partSize <= MAX_SINGLE_PART_SIZE as int <==> size <= 10000 * (426 * DEFAULT_MULTIPART_SIZE as int)
  {
    if size <= 10000 * (426 * 0xC0_0000) {
      assert Suitable(426 * 0xC0_0000, size, 0xC0_0000, 0xC0_0000);
    } else {
      assert partSize > 426 * 0xC0_0000;
    }
  }

  lemma CopyCanExceedLimit()
    ensures 10000 * (426 * DEFAULT_MULTIPART_SIZE as int) < MAX_SINGLE_OBJECT_SIZE as int
    ensures IsLeastPartSize(427 * DEFAULT_MULTIPART_SIZE as int, MAX_SINGLE_OBJECT_SIZE as int,
                            DEFAULT_MULTIPART_SIZE as int, DEFAULT_MULTIPART_SIZE as int)
    ensures 427 * DEFAULT_MULTIPART_SIZE > MAX_SINGLE_PART_SIZE
  {
    ResizedIsLeast(MAX_SINGLE_OBJECT_SIZE as int, 0xC0_0000, 0xC0_0000);
  }

  /** Every plan has at most 10000 parts, and none for an empty object only. */
  lemma PartCountWithinLimit(partSize: int, size: int)
    requires partSize > 0 && 0 <= size <= MAX_PART_NUMBER as int * partSize
    ensures 0 <= CeilDiv(size, partSize) <= MAX_PART_NUMBER as int
    ensures CeilDiv(size, partSize) == 0 <==> size == 0
  {
    CeilDivBounds(size, partSize);
    TooManyParts(size, partSize);
  }

  // ---------------------------------------------------------------- the parts

  datatype Slice = Slice(offset: int, length: int)

  /** Where a slice ends, and the next one starts. */
  function End(s: Slice): int {
    s.offset + s.length
  }

  /** Where slice i must start: at 0, or where its predecessor ends. */
  function Start(slices: seq<Slice>, i: nat): int
    requires i <= |slices|
  {
    if i == 0 then 0 else End(slices[i - 1])
  }

  ghost predicate Follows(slices: seq<Slice>, i: nat)
    requires i < |slices|
  {
    slices[i].offset == Start(slices, i)
  }

  /**
    The slices follow each other without gap or overlap from 0 to size; none is empty and only the
    last may be short.
   */
  ghost predicate Tiles(slices: seq<Slice>, partSize: int, size: int) {
    && (forall i :: 0 <= i < |slices| ==> Follows(slices, i))
    && (forall i :: 0 <= i < |slices| ==> 0 < slices[i].length <= partSize)
    && (forall i :: 0 <= i < |slices| - 1 ==> slices[i].length == partSize)
    && size == Start(slices, |slices|)
  }

  /** Part i starts inside the object, and all but the last part fit completely. */
  lemma PartInside(size: int, partSize: int, i: int)
    requires partSize > 0 && 0 <= i < CeilDiv(size, partSize)
    ensures 0 <= i * partSize < size
    ensures i + 1 < CeilDiv(size, partSize) ==> (i + 1) * partSize < size
    ensures i + 1 == CeilDiv(size, partSize) ==> (i + 1) * partSize >= size
    ensures (i + 1) * partSize == i * partSize + partSize
  {
    var n := CeilDiv(size, partSize);
    CeilDivBounds(size, partSize);
    MulMonotone(0, i, partSize);
    MulMonotone(i, n - 1, partSize);
    if i + 1 < n {
      MulMonotone(i + 1, n - 1, partSize);
    }
  }

  /** Part i starts at i part sizes and is as long as what is left allows. */
  ghost predicate IsPart(s: Slice, i: int, partSize: int, size: int) {
    s.offset == i * partSize && s.length == Min(partSize, size - i * partSize)
  }

  lemma PartsTile(slices: seq<Slice>, partSize: int, size: int)
    requires partSize > 0 && size >= 0 && |slices| == CeilDiv(size, partSize)
    requires forall i :: 0 <= i < |slices| ==> IsPart(slices[i], i, partSize, size)
    ensures Tiles(slices, partSize, size)
  {
    CeilDivBounds(size, partSize);
    forall i | 0 <= i < |slices|
      ensures Follows(slices, i)
      ensures 0 < slices[i].length <= partSize
      ensures i < |slices| - 1 ==> slices[i].length == partSize
      ensures i == |slices| - 1 ==> End(slices[i]) == size
    {
      PartInside(size, partSize, i);
      assert IsPart(slices[i], i, partSize, size);
      if i > 0 {
        PartInside(size, partSize, i - 1);
        assert IsPart(slices[i - 1], i - 1, partSize, size);
      }
    }
  }

  /** The part loop of UploadSuperFile and parallelPartUpload. */
  method CutUpload(size: int64, plan: Plan) returns (slices: seq<Slice>)
    requires 0 <= size <= SIZE_BOUND && plan.partSize > 0
    requires plan.partNum as int == CeilDiv(size as int, plan.partSize as int)
    ensures |slices| == plan.partNum as int
    ensures Tiles(slices, plan.partSize as int, size as int)
  {
    slices := [];
    CeilDivBounds(size as int, plan.partSize as int);
    var partId: int64 := 1;
    while partId <= plan.partNum
      invariant 1 <= partId as int <= plan.partNum as int + 1
      invariant |slices| == partId as int - 1
      invariant forall i :: 0 <= i < |slices| ==> IsPart(slices[i], i, plan.partSize as int, size as int)
    {
      PartInside(size as int, plan.partSize as int, partId as int - 1);
      var uploadSize := plan.partSize;
      var offset := (partId - 1) * plan.partSize;
      var left := size - offset;
      if uploadSize > left {
        uploadSize := left;
      }
      slices := slices + [Slice(offset as int, uploadSize as int)];
      partId := partId + 1;
    }
    PartsTile(slices, plan.partSize as int, size as int);
  }

  /** An inclusive byte range, first-last, as in section 14.1.2 of RFC 9110. */
  datatype Range = Range(first: int, last: int)

  /** The bytes each inclusive range names. */
  function Named(ranges: seq<Range>): (slices: seq<Slice>)
    ensures |slices| == |ranges|
  {
    seq(|ranges|, i requires 0 <= i < |ranges| => Slice(ranges[i].first, ranges[i].last - ranges[i].first + 1))
  }

  /** Range i starts at i part sizes, and names the bytes up to the next range or the last byte. */
  ghost predicate IsRange(r: Range, i: int, partSize: int, size: int) {
    r.first == i * partSize && r.last == Min(i * partSize + partSize, size) - 1
  }

  lemma RangesSpelledOut(ranges: seq<Range>, partSize: int, size: int)
    requires forall i :: 0 <= i < |ranges| ==> IsPart(Named(ranges)[i], i, partSize, size)
    ensures forall i :: 0 <= i < |ranges| ==> IsRange(ranges[i], i, partSize, size)
  {
    forall i | 0 <= i < |ranges| ensures IsRange(ranges[i], i, partSize, size) {
      assert IsPart(Named(ranges)[i], i, partSize, size);
    }
  }

  /** The part loop of parallelPartCopy: the source range of each part. */
  method CutCopy(size: int64, plan: Plan) returns (ranges: seq<Range>)
    requires 0 <= size <= SIZE_BOUND && plan.partSize > 0
    requires plan.partNum as int == CeilDiv(size as int, plan.partSize as int)
    ensures |ranges| == plan.partNum as int
    ensures Tiles(Named(ranges), plan.partSize as int, size as int)
    ensures forall i :: 0 <= i < |ranges| ==> IsRange(ranges[i], i, plan.partSize as int, size as int)
  {
    ranges := [];
    CeilDivBounds(size as int, plan.partSize as int);
    var i: int64 := 1;
    while i <= plan.partNum
      invariant 1 <= i as int <= plan.partNum as int + 1
      invariant |ranges| == i as int - 1
      invariant forall j :: 0 <= j < |ranges| ==> IsPart(Named(ranges)[j], j, plan.partSize as int, size as int)
    {
      PartInside(size as int, plan.partSize as int, i as int - 1);
      var uploadSize := plan.partSize;
      var offset := plan.partSize * (i - 1);
      var left := size - offset;
      if left < plan.partSize {
        uploadSize := left;
      }
      ghost var before := ranges;
      ranges := ranges + [Range(((i - 1) * plan.partSize) as int, ((i - 1) * plan.partSize + uploadSize - 1) as int)];
      assert Named(ranges) == Named(before) + [Slice(offset as int, uploadSize as int)];
      i := i + 1;
    }
    PartsTile(Named(ranges), plan.partSize as int, size as int);
    RangesSpelledOut(ranges, plan.partSize as int, size as int);
  }

  /** The part loop of DownloadSuperFile: the byte range each worker asks for. */
  method CutDownload(size: int64, plan: Plan) returns (ranges: seq<Range>)
    requires 0 <= size <= SIZE_BOUND && 0 < plan.partSize <= SIZE_BOUND + MULTIPART_ALIGN
    requires plan.partNum as int == CeilDiv(size as int, plan.partSize as int)
    ensures |ranges| == plan.partNum as int
    ensures Tiles(Named(ranges), plan.partSize as int, size as int)
    ensures forall i :: 0 <= i < |ranges| ==> IsRange(ranges[i], i, plan.partSize as int, size as int)
  {
    ranges := [];
    CeilDivBounds(size as int, plan.partSize as int);
    var i: int64 := 0;
    while i < plan.partNum
      invariant 0 <= i <= plan.partNum
      invariant |ranges| == i as int
      invariant forall j :: 0 <= j < |ranges| ==> IsPart(Named(ranges)[j], j, plan.partSize as int, size as int)
    {
      PartInside(size as int, plan.partSize as int, i as int);
      var rangeStart := i * plan.partSize;
      var rangeEnd := (i + 1) * plan.partSize - 1;
      if rangeEnd > size - 1 {
        rangeEnd := size - 1;
      }
      ghost var before := ranges;
      ranges := ranges + [Range(rangeStart as int, rangeEnd as int)];
      assert Named(ranges) == Named(before) + [Slice(rangeStart as int, (rangeEnd - rangeStart + 1) as int)];
      i := i + 1;
    }
    PartsTile(Named(ranges), plan.partSize as int, size as int);
    RangesSpelledOut(ranges, plan.partSize as int, size as int);
  }

  // ---------------------------------------------------------------- the bytes of the parts

  /** The bytes of one part. */
  function Cut<T>(data: seq<T>, s: Slice): seq<T>
    requires 0 <= s.offset <= End(s) <= |data|
  {
    data[s.offset..End(s)]
  }

  ghost predicate Inside(slices: seq<Slice>, size: int) {
    forall i :: 0 <= i < |slices| ==> 0 <= slices[i].offset <= End(slices[i]) <= size
  }

  /** The parts put one after the other, as the service does when an upload is completed. */
  function Concat<T>(data: seq<T>, slices: seq<Slice>): seq<T>
    requires Inside(slices, |data|)
  {
    if slices == [] then []
    else
      var n := |slices| - 1;
      Concat(data, slices[..n]) + Cut(data, slices[n])
  }

  lemma TilesInside(slices: seq<Slice>, partSize: int, size: int)
    requires Tiles(slices, partSize, size)
    ensures Inside(slices, size)
  {
    forall i | 0 <= i < |slices| ensures 0 <= slices[i].offset <= End(slices[i]) <= size {
      assert Follows(slices, 0);
      if i > 0 {
        SlicesDisjoint(slices, partSize, size, 0, i);
      }
      if i < |slices| - 1 {
        SlicesDisjoint(slices, partSize, size, i, |slices| - 1);
      }
    }
  }

  /** Tiling slices put together again give back all the data. */
  lemma TilesReassemble<T>(data: seq<T>, slices: seq<Slice>, partSize: int)
    requires Tiles(slices, partSize, |data|)
    ensures Inside(slices, |data|)
    ensures Concat(data, slices) == data
  {
    TilesInside(slices, partSize, |data|);
    PrefixReassembles(data, slices, partSize, |slices|);
    assert slices[..|slices|] == slices;
  }

  lemma {:induction false} PrefixReassembles<T>(data: seq<T>, slices: seq<Slice>, partSize: int, n: nat)
    requires Tiles(slices, partSize, |data|) && Inside(slices, |data|) && n <= |slices|
    ensures Concat(data, slices[..n]) == data[..Start(slices, n)]
  {
    if n == 0 {
    } else {
      assert Follows(slices, n - 1);
      PrefixReassembles(data, slices, partSize, n - 1);
      assert slices[..n][..n - 1] == slices[..n - 1];
    }
  }

  /** Each byte lies in one slice and in no other. */
  lemma {:induction false} EachByteOnce(slices: seq<Slice>, partSize: int, size: int, n: nat, b: int) returns (k: nat)
    requires Tiles(slices, partSize, size) && 0 < n <= |slices|
    requires 0 <= b < End(slices[n - 1])
    ensures k < n && slices[k].offset <= b < End(slices[k])
    ensures forall j :: 0 <= j < n && slices[j].offset <= b < End(slices[j]) ==> j == k
  {
    k := n - 1;
    assert Follows(slices, k);
    if slices[k].offset <= b {
      forall j | 0 <= j < k ensures End(slices[j]) <= slices[k].offset {
        SlicesDisjoint(slices, partSize, size, j, k);
      }
    } else {
      k := EachByteOnce(slices, partSize, size, n - 1, b);
    }
  }

  lemma {:induction false} SlicesDisjoint(slices: seq<Slice>, partSize: int, size: int, i: nat, j: nat)
    requires Tiles(slices, partSize, size) && i < j < |slices|
    ensures End(slices[i]) <= slices[j].offset
  {
    assert Follows(slices, j);
    if i + 1 == j {
    } else {
      SlicesDisjoint(slices, partSize, size, i, j - 1);
    }
  }
}
