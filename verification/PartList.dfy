/**
  What both upload protocols share: the answers of the service, the results of a call, and the part
  list, in which results that arrive in any order are stored in the slots their part numbers name.
 */
module PartList {
  import opened Options
  import opened Tally

  type ETag = string

  type Error = string

  /** What the service answered to one part request. */
  datatype Reply = Ack(etag: ETag) | Nack(error: Error)

  /** What an upload returns: nil, the error of a part, or the error of CompleteMultipartUpload. */
  datatype Result = Done | PartError(error: Error) | CompleteError(error: Error)

  datatype PartInfo = PartInfo(partNumber: int, etag: ETag)

  /** The zero value that fills a freshly made list. */
  const BLANK := PartInfo(0, "")

  function Blanks(n: nat): (list: seq<PartInfo>)
    ensures |list| == n && forall i :: 0 <= i < n ==> list[i] == BLANK
  {
    seq(n, _ => BLANK)
  }

  function IsFilled(p: PartInfo): nat {
    if p == BLANK then 0 else 1
  }

  function Filled(list: seq<PartInfo>): nat {
    Sum(list, IsFilled)
  }

  /**
    `acked[k]` is the ETag the service returned for part k+1, once the worker of that part
    has queued it. Every such part is in the queue or in its own slot, never in both.
   */
  ghost predicate Collecting(queue: seq<PartInfo>, list: seq<PartInfo>, acked: seq<Option<ETag>>) {
    && |acked| <= |list|
    && (forall i :: 0 <= i < |list| && list[i] != BLANK ==>
          i < |acked| && acked[i].Some? && list[i] == PartInfo(i + 1, acked[i].value))
    && (forall j :: 0 <= j < |queue| ==> Queued(queue[j], list, acked))
    && (forall i, j :: 0 <= i < j < |queue| ==> queue[i].partNumber != queue[j].partNumber)
  }

  ghost predicate Queued(p: PartInfo, list: seq<PartInfo>, acked: seq<Option<ETag>>)
    requires |acked| <= |list|
  {
    && 1 <= p.partNumber <= |acked|
    && acked[p.partNumber - 1] == Some(p.etag)
    && list[p.partNumber - 1] == BLANK
  }

  /** Slot i holds part number i+1 together with that part's own ETag. */
  ghost predicate IsComplete(list: seq<PartInfo>, acked: seq<Option<ETag>>) {
    && |acked| == |list|
    && forall i :: 0 <= i < |list| ==> acked[i].Some? && list[i] == PartInfo(i + 1, acked[i].value)
  }

  /** A part under way is neither queued nor stored. */
  lemma NewPartKeeps(queue: seq<PartInfo>, list: seq<PartInfo>, acked: seq<Option<ETag>>)
    requires Collecting(queue, list, acked) && |acked| < |list|
    ensures Collecting(queue, list, acked + [None])
  {
    forall j | 0 <= j < |queue| ensures Queued(queue[j], list, acked + [None]) {
      assert Queued(queue[j], list, acked);
    }
  }

  lemma CompleteSlot(list: seq<PartInfo>, acked: seq<Option<ETag>>, k: nat, etag: ETag)
    requires IsComplete(list, acked)
    ensures k < |list| && list[k] == PartInfo(k + 1, etag) <==> k < |acked| && acked[k] == Some(etag)
  {
    if k < |list| {
      assert acked[k] == Some(acked[k].value) && list[k] == PartInfo(k + 1, acked[k].value);
    }
  }

  lemma PostKeeps(queue: seq<PartInfo>, list: seq<PartInfo>, acked: seq<Option<ETag>>, k: nat, etag: ETag)
    requires Collecting(queue, list, acked)
    requires k < |acked| && acked[k] == None
    ensures Collecting(queue + [PartInfo(k + 1, etag)], list, acked[k := Some(etag)])
  {
    var queue', acked' := queue + [PartInfo(k + 1, etag)], acked[k := Some(etag)];
    forall j | 0 <= j < |queue'| ensures Queued(queue'[j], list, acked') {
      if j < |queue| {
        assert Queued(queue[j], list, acked);
      }
    }
  }

  /** Storing the head of the queue hits a blank slot inside the list, and fills exactly that slot. */
  lemma StoreKeeps(queue: seq<PartInfo>, list: seq<PartInfo>, acked: seq<Option<ETag>>)
    requires Collecting(queue, list, acked) && queue != []
    ensures 1 <= queue[0].partNumber <= |list|
    ensures Filled(list[queue[0].partNumber - 1 := queue[0]]) == Filled(list) + 1
    ensures Collecting(queue[1..], list[queue[0].partNumber - 1 := queue[0]], acked)
  {
    var p := queue[0];
    assert Queued(p, list, acked);
    var list' := list[p.partNumber - 1 := p];
    SumUpdate(list, p.partNumber - 1, p, IsFilled);
    forall j | 0 <= j < |queue[1..]| ensures Queued(queue[1..][j], list', acked) {
      assert Queued(queue[j + 1], list, acked);
      assert queue[j + 1].partNumber != p.partNumber;
    }
  }

  lemma {:induction false} BlanksUnfilled(n: nat)
    ensures Filled(Blanks(n)) == 0
  {
    if n == 0 {
    } else {
      BlanksUnfilled(n - 1);
      assert Blanks(n)[..n - 1] == Blanks(n - 1);
    }
  }

  lemma FullListIsComplete(queue: seq<PartInfo>, list: seq<PartInfo>, acked: seq<Option<ETag>>)
    requires Collecting(queue, list, acked)
    requires Filled(list) == |list|
    ensures IsComplete(list, acked)
  {
    SumOfUnits(list, IsFilled);
    forall i | 0 <= i < |list| ensures list[i] != BLANK {
      assert IsFilled(list[i]) == 1;
    }
    if |list| > 0 {
      assert list[|list| - 1] != BLANK;
    }
  }
}
