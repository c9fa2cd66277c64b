# Verified model of the BCE Go SDK's transfer, signing and retry core

This project models the parts of `bce-sdk-go` in which a mistake is hardest to see by reading one
function, and proves what a caller relies on. `dafny verify dfyconfig.toml` checks all of it.

**Parallel transfer** (`PartPlan`, `PartList`, `PartTransfer`, `SuperUpload`, `SuperDownload`, the
`Outcomes` module of each of these three, `Assembly`). The planners are methods on 64-bit integers. Each goroutine protocol is a state machine:
buffered channels are queues with their capacity, every goroutine has a program counter, and one
`Action` is one step of one goroutine, so a sequence of actions is one interleaving with one choice
for every `select`, every answer of the service and every chunk a `Read` returns. The theorems speak
of all such sequences: each run is finite, a run that cannot go on has ended every goroutine, and its
result agrees with the calls made to the service. The `Outcomes` modules compare the result with the
run itself, that is with the answers, failures and calls in it, and say which results are possible. `PartTransfer` covers both ParallelUpload and
ParallelCopy, whose protocols are the same (`client.go:2087-2168` and `client.go:2250-2329`).
`Assembly` puts planners, cutting loops and protocols together: whatever the interleaving, a successful
upload makes the service assemble the local bytes, given that it takes a part only under the ETag it
returned for it.

**Signing** (`UriCodec`, `TextLists`, `HttpRequest`, `Signer`, `SignedContent`). Go strings are byte sequences; a map is
gone through in an arbitrary order. HMAC-SHA256, `strings.ToLower`, `strings.TrimSpace`, the date
format and the decimal format are fields of a `Library` parameter, so the results hold for whatever
they compute, Unicode letter case included. `ReceiverRecomputes` and `SameSignedParamsAfterWire`
assume one thing of them: the empty name is not a spelling of `authorization`.

**Sending with retries** (`Retry`, `SendLoop`). Streams are objects that can be read once. The
transport is a script that says, for each attempt, how many bytes of the body it reads, how the
attempt ends and what the random jitter is. Both loops are proved equal to one simple function,
`Replay`, which offers the same body to every attempt, and to give the one run that `RunIsRight`
describes by the script alone. A script that is over before the call is gives
the result `Pending`; this covers retry policies that never stop.

## Where the code differs from what it says

- `retry.go:53-54` says the delay never exceeds its maximum. The jitter is applied after the clamp;
  `Retry.DelayWithinLimit` gives the exact condition under which the limit holds, and
  `Retry.EightRetriesPassLimit` an input for which it does not.
- `client.go:1746-1747` and `client.go:1716-1717`: DownloadSuperFile promises nil only for success. A
  failing worker sends its abort before it assigns `err`, and the caller then leaves by a bare return,
  so it can return nil and leave a truncated file in place. This is possible exactly when there are
  two parts or more (`SuperDownloadOutcomes.CanReturnNilIncomplete`); nil can be trusted exactly for objects
  of at most one part size (`SuperDownloadOutcomes.NilMeansCompleteForOnePart`). The final `return nil` is
  always right (`SuperDownload.CompletedFileComplete`).
- `client.go:1751-1754`: its final wait does not listen for aborts, so a part that fails once the
  launch loop is over leaves the call waiting forever. Every object that is not empty has such a run
  (`SuperDownloadOutcomes.CanHang`, `SuperDownload.UnheardFailureHangs`).
- `client.go:1709-1748`: only one abort is ever heard; every other worker that fails stays blocked on
  the abort channel (`SuperDownload.UnheardStaysBlocked`). A call can return and leave such a goroutine
  behind exactly when MaxParallel is at least 2 and there are three parts or more
  (`SuperDownloadOutcomes.CanLeak`).
- `client.go:1714-1715` logs a field of the result of a GetObject that failed, and GetObject returns
  nil then (`services/bos/api/object.go:269-273`): the goroutine panics and the program ends. The model
  calls this `Crashed`; it can happen for every object that is not empty (`SuperDownloadOutcomes.CanCrash`).
- `client.go:47` allows objects of 48.8 TB and parts of 5 GB, but parallelPartCopy's 12 MB steps pass
  5 GB for the largest objects (`PartPlan.CopyPartsWithinLimit`).
- `client.go:1584` speaks of 1 MB where the test in `client.go:1583` uses 100 KB; the model uses 100 KB.
- A parameter with an empty name and an empty value is signed but leaves no trace in the query string
  (`Signer.ReceiverRecomputes`).

## Model

| member | source | states |
|---|---|---|
| PartTransfer.EveryRunEndsRight | bce-sdk-go/services/bos/client.go:2042-2168 | for every interleaving: Complete is called at most once and only with the full list, at most maxParallel + 1 errors are ever sent, the run is finite, and when nothing can move every goroutine has ended and the result is right |
| PartTransfer.StepKeepsInv | bce-sdk-go/services/bos/client.go:2094-2129 | every step of the caller or a worker keeps the invariant: tokens equal running workers, the error budget, each result in its queue or its slot, the calls made so far |
| PartTransfer.StepDecreases | bce-sdk-go/services/bos/client.go:2094-2129 | every step uses up work, whatever it is |
| PartTransfer.NoWorkerBlocksAfterReturn | bce-sdk-go/services/bos/client.go:2087-2091 | once the caller no longer listens, every worker still finds room for its error, its result and its token: the capacity maxParallel of the error channel suffices |
| PartTransfer.NoDeadlock | bce-sdk-go/services/bos/client.go:2106-2128 | a state in which no goroutine can move has the caller returned and all workers ended |
| PartTransfer.FinishedIsRight | bce-sdk-go/services/bos/client.go:2042-2053 | no error means one successful Complete and no Abort; an error means one Abort and no successful Complete; a part error is returned exactly when a part failed, and is that part's error |
| PartTransferOutcomes.ResultMatchesRun | bce-sdk-go/services/bos/client.go:2042-2168 | the result follows from what happened in the run: success exactly if the service took every part and the one Complete, given exactly the part numbers and ETags of its answers, succeeded; otherwise one Abort, and the error that Complete or the service gave for a part |
| PartTransferOutcomes.RefusedPartFailsCall | bce-sdk-go/services/bos/client.go:2160-2165 | if the service refuses any part at any time, the call returns the error of a part |
| PartTransferOutcomes.CanReturn | bce-sdk-go/services/bos/client.go:2042-2053 | any result can be returned; the error of a part exactly if there is a part |
| SuperUpload.EveryRunEndsRight | bce-sdk-go/services/bos/client.go:1597-1659 | for every interleaving: free ids and uploads in flight add up to maxParallel, Complete is called at most once and only with the full list, the run is finite, and when nothing can move every goroutine has ended and the result is right |
| SuperUpload.EveryIdAccountedFor | bce-sdk-go/services/bos/client.go:1619-1637 | at every point each worker id is free once or held by one upload in flight, never lost or duplicated |
| SuperUpload.StepKeepsInv | bce-sdk-go/services/bos/client.go:1598-1655 | every step keeps the invariant on ids, nil results, errors, collected slots and calls |
| SuperUpload.WorkersNeverBlock | bce-sdk-go/services/bos/client.go:1598-1608 | each channel send of a worker finds room at all times |
| SuperUpload.NoDeadlock | bce-sdk-go/services/bos/client.go:1631-1650 | also the final receive of the error after a nil result is always served: nothing is stuck before everything has ended |
| SuperUpload.FinishedIsRight | bce-sdk-go/services/bos/client.go:1647-1659 | nil is returned exactly when Complete succeeded and no Abort was issued; otherwise one Abort was issued and Complete did not succeed; part errors are those of failed parts |
| SuperUploadOutcomes.ResultMatchesRun | bce-sdk-go/services/bos/client.go:1597-1659 | the result of UploadSuperFile follows in the same way from the answers, failures and calls of the run |
| SuperUploadOutcomes.RefusedPartFailsCall | bce-sdk-go/services/bos/client.go:1601-1603 | if the service refuses any part at any time, the call returns the error of a part |
| SuperUploadOutcomes.CanReturn | bce-sdk-go/services/bos/client.go:1638-1658 | any result can be returned; the error of a part exactly if there is a part |
| PartList.PostKeeps | bce-sdk-go/services/bos/client.go:1605-1605 | queueing a new result keeps every part in the queue or in its own slot, never both |
| PartList.StoreKeeps | bce-sdk-go/services/bos/client.go:2126-2127 | storing the next result stays inside the list, hits a blank slot and fills exactly one |
| PartList.FullListIsComplete | bce-sdk-go/services/bos/client.go:2120-2130 | after as many stores as parts, slot i holds part number i+1 with that part's own ETag |
| SuperDownload.EveryRunEndsRight | bce-sdk-go/services/bos/client.go:1690-1756 | for every interleaving and chunking: the run is finite, at the final return the local file equals the object, after the bare return it is too short, and a stuck run that has not crashed ends as EndsRight says |
| SuperDownload.CompletedFileComplete | bce-sdk-go/services/bos/client.go:1751-1755 | when the final return is reached the file equals the object byte for byte |
| SuperDownload.AbortedFileIncomplete | bce-sdk-go/services/bos/client.go:1746-1747 | once an abort is heard the file stays shorter than the object, whatever the call returns; the file is removed only if the result is an error |
| SuperDownload.WriteKeepsOthers | bce-sdk-go/services/bos/client.go:1735-1740 | a write of one worker, whole or broken off, leaves what the other workers have copied |
| SuperDownload.EnvironmentFree | bce-sdk-go/services/bos/client.go:1712-1741 | the model leaves open every way in which GetObject, Read and WriteAt can succeed or fail, and no other |
| SuperDownload.StuckEndsRight | bce-sdk-go/services/bos/client.go:1709-1755 | the final return is reached exactly when no part failed; otherwise the call waits forever, or one abort was heard, the result is that part's error or nil, and every other failed worker is blocked forever |
| SuperDownloadOutcomes.AbortedMatchesRun | bce-sdk-go/services/bos/client.go:1679-1684 | after an abort the call returns the error of the one part that was heard if it was assigned before the return, otherwise nil; the file is removed exactly if it was assigned before the deferred function looked |
| SuperDownloadOutcomes.CompletedMatchesRun | bce-sdk-go/services/bos/client.go:1751-1755 | the final return is reached only in runs in which no read or write failed |
| SuperDownloadOutcomes.CanReturnError | bce-sdk-go/services/bos/client.go:1679-1684 | any error of a part can be returned, with the truncated file removed as well as not removed, exactly from two parts on |
| SuperDownloadOutcomes.CanComplete | bce-sdk-go/services/bos/client.go:1751-1755 | for every object the final return can be reached |
| SuperDownloadOutcomes.CanReturnNilIncomplete | bce-sdk-go/services/bos/client.go:1716-1717 | a run that returns nil and leaves an incomplete file exists exactly when there are at least two parts |
| SuperDownloadOutcomes.NilMeansCompleteForOnePart | bce-sdk-go/services/bos/client.go:1669-1670 | in all runs nil means a complete file, exactly for objects of at most one part size |
| SuperDownload.UnheardStaysBlocked | bce-sdk-go/services/bos/client.go:1727-1730 | after the launch loop a worker with an undelivered abort never moves again |
| SuperDownloadOutcomes.CanLeak | bce-sdk-go/services/bos/client.go:1709-1748 | a run in which the call returns while another worker is blocked on its abort forever exists exactly with at least two workers and three parts |
| SuperDownload.UnheardFailureHangs | bce-sdk-go/services/bos/client.go:1751-1754 | a failure not heard before the launch loop ends keeps the call from ever returning |
| SuperDownloadOutcomes.CanHang | bce-sdk-go/services/bos/client.go:1751-1754 | a run after which the call can never return exists exactly when the object is not empty |
| SuperDownloadOutcomes.CanCrash | bce-sdk-go/services/bos/client.go:1712-1715 | a run in which a failed GetObject ends the program exists exactly when the object is not empty |
| PartPlan.PlanSuperUpload | bce-sdk-go/services/bos/client.go:1583-1594 | the error exactly below 100 KB; otherwise the least multiple of 1 MB that is at least the configured size and needs at most 10000 parts, with no overflow |
| PartPlan.PlanParallelUpload | bce-sdk-go/services/bos/client.go:2074-2085 | the same part size, or exactly 1 MB more under the condition OneStepLarger; at most 10000 parts; division by zero exactly for a non-positive configured size |
| PartPlan.PlanBothUploads | bce-sdk-go/services/bos/client.go:2081-2085 | on one input the second upload planner gives the plan of the first, or exactly under OneStepLarger a part size of 1 MB more and no more parts |
| PartPlan.PlanCopy | bce-sdk-go/services/bos/client.go:2242-2248 | the least multiple of 12 MB that needs at most 10000 parts |
| PartPlan.PlanDownload | bce-sdk-go/services/bos/client.go:1690-1692 | the configured size rounded up to 1 MB, and the number of parts |
| PartPlan.ResizedIsLeast | bce-sdk-go/services/bos/client.go:1590-1592 | when 10000 parts do not suffice, resizing gives the least part size that does, and strictly enlarges it |
| PartPlan.UploadPartsWithinLimit | bce-sdk-go/services/bos/client.go:41-47 | up to 48.8 TB and 5 GB configured, both upload planners stay at or below 5 GB |
| PartPlan.CopyPartsWithinLimit | bce-sdk-go/services/bos/client.go:2243-2247 | copy parts stay at or below 5 GB exactly up to 10000 parts of 426 steps of 12 MB |
| PartPlan.CopyCanExceedLimit | bce-sdk-go/services/bos/client.go:2243-2247 | the largest allowed object is copied in parts above 5 GB |
| PartPlan.PartCountWithinLimit | bce-sdk-go/services/bos/client.go:45-45 | a suitable part size gives at most 10000 parts, and none only for an empty object |
| PartPlan.CutUpload | bce-sdk-go/services/bos/client.go:1623-1629 | the parts are non-empty, in order, without gap or overlap from 0 to the size, all but the last of full size |
| PartPlan.CutCopy | bce-sdk-go/services/bos/client.go:2256-2268 | the inclusive source ranges name parts that tile the object in the same way |
| PartPlan.CutDownload | bce-sdk-go/services/bos/client.go:1703-1708 | so do the ranges of the download |
| PartPlan.TilesReassemble | bce-sdk-go/services/bos/client.go:2094-2101 | parts that tile the data give back the data when put together |
| PartPlan.EachByteOnce | bce-sdk-go/services/bos/client.go:1703-1708 | each byte lies in exactly one part |
| PartPlan.SlicesDisjoint | bce-sdk-go/services/bos/client.go:1703-1708 | an earlier part ends no later than a later one starts |
| Assembly.ParallelTransferComplete | bce-sdk-go/services/bos/client.go:2042-2053 | a ParallelUpload or ParallelCopy without error has called Complete once, with a list whose part numbers and ETags make the service assemble exactly the data |
| Assembly.SuperUploadComplete | bce-sdk-go/services/bos/client.go:1642-1659 | so has an UploadSuperFile that returns nil |
| Assembly.PlannedParallelUpload | bce-sdk-go/services/bos/client.go:2074-2101 | the parts ParallelUpload cuts tile the file in the planned size, and have this property for every run |
| Assembly.PlannedParallelCopy | bce-sdk-go/services/bos/client.go:2242-2268 | so do the ranges of ParallelCopy |
| Assembly.PlannedSuperUpload | bce-sdk-go/services/bos/client.go:1583-1629 | so do the parts of UploadSuperFile, which fails exactly below 100 KB |
| Assembly.PlannedDownload | bce-sdk-go/services/bos/client.go:1690-1708 | the ranges of DownloadSuperFile tile the object in the aligned size; with them the final return means a complete file, and nil does exactly up to one aligned part size |
| UriCodec.UriEncode | bce-sdk-go/util/string.go:50-61 | the loop computes the encoding |
| UriCodec.DecodeEncode | bce-sdk-go/util/string.go:50-61 | percent-decoding undoes the encoding, with or without slashes kept |
| UriCodec.EncodeConcat | bce-sdk-go/util/string.go:52-59 | the encoding distributes over concatenation |
| UriCodec.EncodeOneByte | bce-sdk-go/util/string.go:53-57 | a byte is copied exactly if it is one of the 66 unreserved characters of RFC 3986, listed one by one, or a slash to be kept; otherwise it becomes a percent sign and two upper-case digits |
| UriCodec.EncodeHasShape | bce-sdk-go/util/string.go:53-57 | the result consists of unreserved bytes, upper-case triples of other bytes, and slashes only when they are kept (sections 2.1 and 2.3 of RFC 3986) |
| UriCodec.ShapeIsEncoded | bce-sdk-go/util/string.go:53-57 | and every text of that shape is the encoding of its own decoding |
| UriCodec.EncodeAvoids | bce-sdk-go/util/string.go:53-57 | the separators of the canonical request do not occur in encoded text |
| TextLists.SortedUnique | bce-sdk-go/auth/signer.go:157-157 | byte-lexicographic sorting has one possible result |
| TextLists.LexSpelledOut | bce-sdk-go/auth/signer.go:157-157 | the order of the sort: a prefix first, otherwise the smaller byte at the first difference |
| TextLists.SplitJoin | bce-sdk-go/auth/signer.go:158-158 | splitting at the separator undoes joining |
| TextLists.GatherSupport | bce-sdk-go/auth/signer.go:145-156 | what a loop over a map collects does not depend, but for its order, on the order of the loop or on skipped entries |
| HttpRequest.Request.QueryString | bce-sdk-go/http/request.go:149-159 | the result is the parameters written in some order of the map |
| HttpRequest.ParseWritten | bce-sdk-go/http/request.go:149-159 | in whatever order it was written, parsing a query string gives back all parameters but an empty name with an empty value |
| HttpRequest.QueryStringOfTwo | bce-sdk-go/http/request.go:149-159 | two parameters give `key=value` pairs joined by an ampersand, an empty value giving the name alone |
| Signer.GetCanonicalURIPath | bce-sdk-go/auth/signer.go:127-137 | a slash and the encoding of the path without one leading slash |
| Signer.GetCanonicalQueryString | bce-sdk-go/auth/signer.go:139-159 | the loop, in any order, computes the one canonical query string |
| Signer.GetCanonicalHeaders | bce-sdk-go/auth/signer.go:161-184 | the loop, in any order, computes the one list of lines, and the sorted names of exactly the headers asked for and the x-bce- headers but the request id, never Authorization |
| Signer.QueryAnyOrder | bce-sdk-go/auth/signer.go:144-158 | the canonical query string is the same for every order of the map |
| Signer.HeadersAnyOrder | bce-sdk-go/auth/signer.go:165-183 | so are the header lines and the signed names, also for names that differ only in case |
| Signer.QueryDeterminesParams | bce-sdk-go/auth/signer.go:139-159 | equal canonical query strings exactly for equal parameters, `authorization` in any case aside |
| Signer.HeaderLinesDetermine | bce-sdk-go/auth/signer.go:161-184 | equal header lines exactly for equal multisets of lower-case names and trimmed values of signed headers |
| Signer.CanonicalRequestDetermines | bce-sdk-go/auth/signer.go:103-116 | equal canonical requests exactly for equal method, path up to one leading slash, signed parameters and signed headers; the method may even contain newlines |
| SignedContent.RequestReactsToHeader | bce-sdk-go/auth/signer.go:165-180 | setting a header changes what is signed exactly if the header is asked for or an x-bce- header but the request id, is not Authorization, and its trimmed value was another |
| SignedContent.RequestReactsToParam | bce-sdk-go/auth/signer.go:145-156 | setting a parameter changes what is signed exactly if it is not authorization, in any case, and its value was another |
| SignedContent.RequestReactsToPath | bce-sdk-go/auth/signer.go:127-137 | two paths are signed alike exactly if equal or differing in the one leading slash |
| SignedContent.CanonicalQueryParses | bce-sdk-go/auth/signer.go:139-159 | read as a query string, the canonical query string holds exactly the signed parameters |
| SignedContent.QueryOfTwo | bce-sdk-go/auth/signer.go:139-159 | two parameters make two encoded pairs joined by an ampersand, in order |
| SignedContent.LinesOfTwo | bce-sdk-go/auth/signer.go:161-184 | two headers make two lines of lower-case name, colon and trimmed value, encoded and in order |
| Signer.Sign | bce-sdk-go/auth/signer.go:72-125 | the headers afterwards are the old ones with the session token, if it is set and not a parameter, and the Authorization header; nothing else of the request changes |
| Signer.SignIdempotent | bce-sdk-go/auth/signer.go:85-124 | with a fixed timestamp, signing again changes nothing, whatever the clock says |
| SignedContent.SignedHeaderMap | bce-sdk-go/auth/signer.go:84-87 | header by header: the token is set exactly if it is due, every header but that and Authorization is untouched |
| SignedContent.AuthorizationSpelledOut | bce-sdk-go/auth/signer.go:90-123 | the header is version, access key, date, expiry, names and signature; the signature is the HMAC of the canonical request under the HMAC of the key info under the secret |
| Signer.AuthorizationNotSigned | bce-sdk-go/auth/signer.go:166-169 | the Authorization header takes no part in what is signed |
| Signer.AuthorizationReadable | bce-sdk-go/auth/signer.go:97-121 | splitting the header at slashes gives back version, access key, date, expiry, signed names and signature, if none of these contains a slash |
| Signer.ReceiverRecomputes | bce-sdk-go/auth/signer.go:103-116 | from the query string on the wire and the final headers a receiver recomputes the string that was signed, exactly when no empty name has an empty value |
| Retry.BufferedWhenRetrying | bce-sdk-go/bce/client.go:67-77 | a retry happens only under a policy for which the body is kept; for the built-in policies the body is kept only if a retry can happen |
| Retry.RetriedErrors | bce-sdk-go/bce/retry.go:61-97 | below the limit of attempts exactly I/O errors, RequestExpired, RateLimit, 421 and all 5xx are retried |
| Retry.BackOffBounded | bce-sdk-go/bce/retry.go:104-108 | the back-off never exceeds the limit nor base times 2^attempts, even when the 64-bit shift or product wraps |
| Retry.BackOffDoubles | bce-sdk-go/bce/retry.go:49-54 | without overflow the back-off starts at the base and doubles up to the limit |
| Retry.DelayBounded | bce-sdk-go/bce/retry.go:99-113 | with jitter the delay is at most 1.2 times either bound |
| Retry.DelayAtLeast | bce-sdk-go/bce/retry.go:109-112 | and never below 0.8 times the clamped back-off, rounded down |
| Retry.DelayWithinLimit | bce-sdk-go/bce/retry.go:53-54 | the documented limit holds for every jitter exactly when six fifths of the clamped back-off are less than the limit plus one millisecond |
| Retry.DefaultPolicyWithinLimit | bce-sdk-go/bce/config.go:41-41 | the default policy keeps its limit for every jitter |
| Retry.EightRetriesPassLimit | bce-sdk-go/bce/retry.go:109-112 | with 8 retries and the default intervals the eighth delay can be 22 s, above the limit of 20 s |
| Retry.TotalSleepBounded | bce-sdk-go/bce/retry.go:99-113 | the sleeps of n retries add up to at most 1.2 times min(base * (2^n - 1), n * limit) |
| SendLoop.Execute | bce-sdk-go/http/client.go:140-148 | the transport is offered the unread bytes of the body unless the length is zero, and what a tee has copied plus what is left is what there was |
| SendLoop.Attempt | bce-sdk-go/bce/client.go:141-147 | one attempt offers the body, and with a tee nothing of it is lost |
| SendLoop.Rewind | bce-sdk-go/bce/client.go:160-163 | draining the tee and swapping the buffer in makes the body whole again |
| SendLoop.SendRequest | bce-sdk-go/bce/client.go:124-198 | for every script every attempt is offered exactly the original bytes, is retried exactly after a transport error or a status from 400 on that the policy retries, and the call ends with success below 400, with the service error, or with the transport error and the number of retries |
| SendLoop.SendRequestFromBytes | bce-sdk-go/bce/client.go:210-260 | the same for the content: the run is the one the script allows |
| SendLoop.SendBothWays | bce-sdk-go/bce/client.go:124-260 | a stream holding the content and the content itself give the same attempts, bodies, delays and result |
| SendLoop.OneRightRun | bce-sdk-go/bce/client.go:139-197 | a policy, a body and a script leave room for exactly one run |
| SendLoop.ReplayOffers | bce-sdk-go/bce/client.go:141-147 | every attempt offers the same body |
| SendLoop.ReplayStops | bce-sdk-go/bce/client.go:149-196 | a call stops at the first attempt that succeeds or is not retried, with that attempt's outcome and the number of retries |
| SendLoop.ReplayRetries | bce-sdk-go/bce/client.go:150-152 | each delay follows a failure the policy retries, and is the policy's delay for that failure and count |
| SendLoop.AttemptsBounded | bce-sdk-go/bce/client.go:139-197 | under the built-in policies at most max(0, maxErrorRetry) + 1 attempts are made, and the call ends |
| SendLoop.SleepBounded | bce-sdk-go/bce/client.go:151-152 | under back-off the sleeps of a whole call keep the bounds of TotalSleepBounded |

## Left out

- Goroutines, channels and the shared file are values of a state machine, not heap objects: the identity of channels is not captured. DownloadSuperFile's result variable `err` is read and assigned in single steps; that the two race, so that Go promises nothing about a read at the same moment, is not captured.
- Recovery from panics in singlePartUpload and singlePartCopy, logging, and the saving and restoring of the connection timeout.
- Opening files, initiating an upload, reading object metadata and building part bodies: these come before the protocols, and a failure there returns at once.
- A failing AbortMultipartUpload: the callers ignore its result, so the model counts only the call.
- A `Read` that returns no bytes and no error before the end of the stream, which io.Reader discourages; DownloadSuperFile would take it for the end of the part.
- A GetObject whose answer is not the requested range: each response is taken to hold exactly the bytes from the part's start to its end.
- A transport that goes on reading the body after http.Execute has returned.
- MaxParallel below 1: the client's launch loops would then wait forever, or panic for a negative value.
- PartPlan.PlanSuperUpload, PartPlan.PlanParallelUpload, PartPlan.PlanCopy, PartPlan.PlanDownload: sizes above SIZE_BOUND, about 3.4 * 10^18 bytes, where 64-bit sums could wrap, are not modelled; nor are configured sizes of minus 1 MB and below, which give a negative part size.
- PartPlan.PlanCopy: the ceilings of floating-point quotients are taken exactly.
- Retry.DelayWithinLimit: jitter and product are real numbers, with both ends of the jitter's range possible, as they are in the code after rounding; other effects of float64, which need back-offs beyond 2^48 milliseconds, are not modelled.
- Retry.DelayBounded: the delay is in milliseconds, with the jitter as a real number; the conversion to nanoseconds, which overflows for delays beyond 292 years, is not modelled.
- The random number generator of the jitter, and the clock: both are arguments.
- The bytes of an HMAC, and any claim that different requests have different signatures.
- Whether the i-th canonical header line belongs to the i-th signed name: the two lists are sorted by different keys.
- Presigned URLs, STS, the per-service wrappers and model structs, the MIME table, and everything outside bce-sdk-go.
