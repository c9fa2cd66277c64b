/**
  The send loops of BceClient: SendRequest, which replays a one-shot body stream through a tee, and
  SendRequestFromBytes, which rebuilds the body from bytes for each attempt. The transport is a
  script: for each attempt how many bytes of the body it reads, how it ends, and the random jitter.
 */
module SendLoop {
  import opened Options
  import opened Tally
  import opened Bytes
  import opened Numbers
  import opened HttpRequest
  import opened Retry

  /** How http.Execute ends: with an error, or with a response and the service error parsed from it. */
  datatype Reply =
    | TransportError(err: BceError)
    | Response(statusCode: int, serviceError: BceError)

  datatype Event = Event(consumed: nat, reply: Reply, jitter: real)

  datatype Result =
    | Success
    | ClientFailure(message: string)
    | ExecuteFailed(retries: nat, err: BceError)
    | ServiceFailed(err: BceError)
    | Pending                                        // the script is over, the call is not

  /** What a caller and the service see: the body offered to each attempt, the delays between them, the result. */
  datatype Run = Run(offered: seq<Option<bytes>>, delays: seq<int>, result: Result)

  /** The error that may lead to a retry. */
  function Failure(reply: Reply): Option<BceError> {
    match reply
    case TransportError(err) => Some(err)
    case Response(statusCode, serviceError) => if statusCode >= 400 then Some(serviceError) else None
  }

  function FinalError(reply: Reply, retries: nat): Result {
    match reply
    case TransportError(err) => ExecuteFailed(retries, err)
    case Response(_, serviceError) => ServiceFailed(serviceError)
  }

  /** The simple form of both loops: every attempt offers the same body. */
  function Replay(policy: Policy, body: Option<bytes>, script: seq<Event>, retries: nat): Run
    decreases |script|
  {
    if script == [] then Run([], [], Pending)
    else
      var e := script[0];
      match Failure(e.reply)
      case None => Run([body], [], Success)
      case Some(err) =>
        if ShouldRetry(policy, err, retries) then
          var rest := Replay(policy, body, script[1..], retries + 1);
          Run([body] + rest.offered, [DelayMillis(policy, err, retries, e.jitter)] + rest.delays, rest.result)
        else Run([body], [], FinalError(e.reply, retries))
  }

  function Then(offered: seq<Option<bytes>>, delays: seq<int>, rest: Run): Run {
    Run(offered + rest.offered, delays + rest.delays, rest.result)
  }

  /** The run so far, followed by the simple form on the rest of the script, is the simple form on all of it. */
  ghost predicate Unfolds(policy: Policy, body: Option<bytes>, script: seq<Event>, retries: nat,
                          offered: seq<Option<bytes>>, delays: seq<int>)
    requires retries <= |script|
  {
    Replay(policy, body, script, 0) == Then(offered, delays, Replay(policy, body, script[retries..], retries))
  }

  /** One attempt of a loop, against the simple form. */
  lemma ReplayStep(policy: Policy, body: Option<bytes>, script: seq<Event>, retries: nat,
                   offered: seq<Option<bytes>>, delays: seq<int>)
    requires retries < |script| && Unfolds(policy, body, script, retries, offered, delays)
    ensures match Failure(script[retries].reply)
            case None => Replay(policy, body, script, 0) == Run(offered + [body], delays, Success)
            case Some(err) =>
              if ShouldRetry(policy, err, retries) then
                Unfolds(policy, body, script, retries + 1,
                        offered + [body], delays + [DelayMillis(policy, err, retries, script[retries].jitter)])
              else
                Replay(policy, body, script, 0)
                    == Run(offered + [body], delays, FinalError(script[retries].reply, retries))
  {
    var rest := Replay(policy, body, script[retries + 1..], retries + 1);
    assert script[retries..][1..] == script[retries + 1..];
    assert (offered + [body]) + rest.offered == offered + ([body] + rest.offered);
    assert delays + [] == delays;
  }

  /**
    An attempt was retried: it ended with an error of the transport or with a status from 400 on, the
    policy retries that error, and the delay after it is the policy's.
   */
  ghost predicate Retried(policy: Policy, event: Event, retries: nat, delay: int) {
    match event.reply
    case TransportError(err) =>
      ShouldRetry(policy, err, retries) && delay == DelayMillis(policy, err, retries, event.jitter)
    case Response(statusCode, err) =>
      statusCode >= 400 && ShouldRetry(policy, err, retries) && delay == DelayMillis(policy, err, retries, event.jitter)
  }

  /**
    How a run stops: with the script; with success at a response with a status below 400; with the
    service error of any other response, or with the error of the transport and the number of
    retries before it, if the policy does not retry that error.
   */
  ghost predicate StopsRight(policy: Policy, script: seq<Event>, retries: nat, run: Run) {
    var n := |run.delays|;
    if n == |script| then run.result == Pending && |run.offered| == n
    else
      && n < |script| && |run.offered| == n + 1
      && match script[n].reply
         case TransportError(err) =>
           run.result == ExecuteFailed(retries + n, err) && !ShouldRetry(policy, err, retries + n)
         case Response(statusCode, err) =>
           if statusCode < 400 then run.result == Success
           else run.result == ServiceFailed(err) && !ShouldRetry(policy, err, retries + n)
  }

  /**
    All a run should be, said by the script alone: every attempt offers the body, the attempts but the
    last are retried as they should be, and the run stops right.
   */
  ghost predicate RunIsRight(policy: Policy, body: Option<bytes>, script: seq<Event>, run: Run) {
    && StopsRight(policy, script, 0, run)
    && (forall i :: 0 <= i < |run.offered| ==> run.offered[i] == body)
    && (forall i :: 0 <= i < |run.delays| ==> Retried(policy, script[i], i, run.delays[i]))
  }

  lemma ReplayIsRight(policy: Policy, body: Option<bytes>, script: seq<Event>)
    ensures RunIsRight(policy, body, script, Replay(policy, body, script, 0))
  {
    ReplayOffers(policy, body, script, 0);
    ReplayStops(policy, body, script, 0);
    forall i | 0 <= i < |Replay(policy, body, script, 0).delays|
      ensures Retried(policy, script[i], i, Replay(policy, body, script, 0).delays[i])
    {
      ReplayRetries(policy, body, script, 0, i);
    }
  }

  /** No run goes on where another has stopped. */
  lemma NotLonger(policy: Policy, body: Option<bytes>, script: seq<Event>, run: Run, run': Run)
    requires RunIsRight(policy, body, script, run) && RunIsRight(policy, body, script, run')
    ensures |run'.delays| <= |run.delays|
  {
    var n := |run.delays|;
    assert n < |run'.delays| ==> Retried(policy, script[n], n, run'.delays[n]);
  }

  /** A script leaves room for one run only. */
  lemma OneRightRun(policy: Policy, body: Option<bytes>, script: seq<Event>, run: Run, run': Run)
    requires RunIsRight(policy, body, script, run) && RunIsRight(policy, body, script, run')
    ensures run == run'
  {
    NotLonger(policy, body, script, run, run');
    NotLonger(policy, body, script, run', run);
    assert forall i :: 0 <= i < |run.delays| ==>
        Retried(policy, script[i], i, run.delays[i]) && Retried(policy, script[i], i, run'.delays[i]);
    assert run.delays == run'.delays && run.offered == run'.offered;
  }

  /** The simple form offers the same body to every attempt. */
  lemma {:induction false} ReplayOffers(policy: Policy, body: Option<bytes>, script: seq<Event>, retries: nat)
    ensures forall i :: 0 <= i < |Replay(policy, body, script, retries).offered| ==>
              Replay(policy, body, script, retries).offered[i] == body
    decreases |script|
  {
    if script == [] {
    } else {
      ReplayOffers(policy, body, script[1..], retries + 1);
    }
  }

  lemma {:induction false} ReplayRetries(policy: Policy, body: Option<bytes>, script: seq<Event>, retries: nat, i: nat)
    requires i < |Replay(policy, body, script, retries).delays|
    ensures i < |script| && Retried(policy, script[i], retries + i, Replay(policy, body, script, retries).delays[i])
    decreases |script|
  {
    if i == 0 {
    } else {
      ReplayRetries(policy, body, script[1..], retries + 1, i - 1);
    }
  }

  /** It stops at the first event that is not retried. */
  lemma {:induction false} ReplayStops(policy: Policy, body: Option<bytes>, script: seq<Event>, retries: nat)
    ensures |Replay(policy, body, script, retries).delays| <= |script|
    ensures StopsRight(policy, script, retries, Replay(policy, body, script, retries))
    decreases |script|
  {
    if script == [] || Failure(script[0].reply).None?
        || !ShouldRetry(policy, Failure(script[0].reply).value, retries)
    {
    } else {
      ReplayStops(policy, body, script[1..], retries + 1);
    }
  }

  function MaxRetries(policy: Policy): nat {
    if policy.BackOff? && policy.maxErrorRetry > 0 then policy.maxErrorRetry else 0
  }

  /**
    Under the built-in policies a call makes at most one attempt more than its retries, and ends if
    the transport answers that often.
   */
  lemma AttemptsBounded(policy: Policy, body: Option<bytes>, script: seq<Event>)
    requires !policy.Custom?
    ensures |Replay(policy, body, script, 0).offered| <= MaxRetries(policy) + 1
    ensures |Replay(policy, body, script, 0).delays| <= MaxRetries(policy)
    ensures |script| > MaxRetries(policy) ==> Replay(policy, body, script, 0).result != Pending
  {
    var run := Replay(policy, body, script, 0);
    ReplayStops(policy, body, script, 0);
    if |run.delays| > 0 {
      ReplayRetries(policy, body, script, 0, |run.delays| - 1);
    }
  }

  /**
    Under back-off the sleeps of a whole call stay within 1.2 times the geometric sum, and within
    1.2 times the limit for each retry.
   */
  lemma SleepBounded(policy: Policy, body: Option<bytes>, script: seq<Event>)
    requires policy.BackOff? && policy.baseIntervalInMillis >= 0 && policy.maxDelayInMillis >= 0
    requires forall i :: 0 <= i < |script| ==> IsJitter(script[i].jitter)
    ensures var delays := Replay(policy, body, script, 0).delays;
            && 5 * Sum(delays, Slept) <= 6 * (|delays| * policy.maxDelayInMillis)
            && 5 * Sum(delays, Slept) <= 6 * ((Pow2(|delays|) - 1) * policy.baseIntervalInMillis)
  {
    var delays := Replay(policy, body, script, 0).delays;
    ReplayStops(policy, body, script, 0);
    var errs := seq(|delays|, i requires 0 <= i < |delays| =>
      if Failure(script[i].reply).Some? then Failure(script[i].reply).value else NilError);
    var jitters := seq(|delays|, i requires 0 <= i < |delays| => script[i].jitter);
    forall i | 0 <= i < |delays|
      ensures IsJitter(jitters[i]) && delays[i] == DelayMillis(policy, errs[i], i, jitters[i])
    {
      ReplayRetries(policy, body, script, 0, i);
    }
    TotalSleepBounded(policy, errs, jitters, delays);
  }

  // ---------------------------------------------------------------- the transport

  /** The bytes a request offers: none without a body, or when its length is zero. */
  function Offered(body: Body, length: int): Option<bytes>
    reads if body.NoBody? then {} else {body.stream}
  {
    if body.NoBody? || length == 0 then None else Some(body.stream.unread)
  }

  function Streams(body: Body): set<object> {
    match body
    case NoBody => {}
    case Plain(stream) => {stream}
    case Teed(stream, copy) => {stream, copy}
  }

  /** Reads a prefix of the body; a tee writes what it reads to its copy. */
  method Read(body: Body, n: nat)
    requires !body.NoBody? && (body.Teed? ==> body.copy != body.stream)
    modifies Streams(body)
    ensures body.stream.unread == old(body.stream.unread)[Min(n, |old(body.stream.unread)|)..]
    ensures body.Teed? ==>
        body.copy.unread == old(body.copy.unread) + old(body.stream.unread)[..Min(n, |old(body.stream.unread)|)]
  {
    var m := Min(n, |body.stream.unread|);
    if body.Teed? {
      body.copy.unread := body.copy.unread + body.stream.unread[..m];
    }
    body.stream.unread := body.stream.unread[m..];
  }

  /** http.Execute: the transport gets the body unless the length is zero, and reads a prefix of it. */
  method Execute(req: Request, event: Event) returns (offered: Option<bytes>)
    requires req.body.Teed? ==> req.body.copy != req.body.stream
    modifies Streams(req.body)
    ensures offered == old(Offered(req.body, req.length))
    ensures req.body.Teed? ==>
              req.body.copy.unread + req.body.stream.unread == old(req.body.copy.unread) + old(req.body.stream.unread)
  {
    if req.body.NoBody? || req.length == 0 {
      return None;
    }
    offered := Some(req.body.stream.unread);
    Read(req.body, event.consumed);
  }

  // ---------------------------------------------------------------- the two loops

  /** One attempt of SendRequest: tee the body if it may be needed again, and execute. */
  method Attempt(req: Request, policy: Policy, event: Event)
    returns (offered: Option<bytes>, teeReader: Body, retryBuf: ByteStream)
    requires !req.body.Teed?
    modifies req`body, Streams(req.body)
    ensures fresh(retryBuf)
    ensures offered == old(Offered(req.body, req.length))
    ensures ShouldBufferBody(policy) && old(req.body).Plain? ==>
              teeReader == req.body == Teed(old(req.body).stream, retryBuf)
              && retryBuf.unread + teeReader.stream.unread == old(req.body.stream.unread)
    ensures old(req.body).NoBody? ==> req.body.NoBody? && teeReader.NoBody?
  {
    retryBuf := new ByteStream([]);
    teeReader := NoBody;
    if ShouldBufferBody(policy) && !req.body.NoBody? {
      teeReader := Teed(req.body.stream, retryBuf);
      req.SetBody(teeReader);
    }
    offered := Execute(req, event);
  }

  /** Before a retry: drain what the transport left through the tee, and make the copy the body. */
  method Rewind(req: Request, teeReader: Body, retryBuf: ByteStream)
    requires !teeReader.NoBody? ==>
        teeReader.Teed? && teeReader.copy == retryBuf && teeReader.stream != retryBuf && req.body == teeReader
    modifies req`body, Streams(teeReader)
    ensures teeReader.NoBody? ==> req.body == old(req.body)
    ensures !teeReader.NoBody? ==>
              req.body == Plain(retryBuf) && retryBuf.unread == old(retryBuf.unread) + old(teeReader.stream.unread)
  {
    if !req.body.NoBody? && !teeReader.NoBody? {
      Read(teeReader, |teeReader.stream.unread|);
      req.SetBody(Plain(retryBuf));
    }
  }

  /** The loop of SendRequest. */
  method SendAttempts(req: Request, policy: Policy, script: seq<Event>) returns (run: Run)
    requires !req.body.Teed?
    modifies req`body, Streams(req.body)
    ensures run == Replay(policy, old(Offered(req.body, req.length)), script, 0)
  {
    ghost var body := Offered(req.body, req.length);
    ghost var original := req.body;
    var retries := 0;
    var offered: seq<Option<bytes>>, delays: seq<int> := [], [];
    while retries < |script|
      invariant 0 <= retries <= |script|
      invariant req.body == original || (original.Plain? && req.body.Plain? && fresh(req.body.stream))
      invariant Offered(req.body, req.length) == body
      invariant Unfolds(policy, body, script, retries, offered, delays)
    {
      var event := script[retries];
      ReplayStep(policy, body, script, retries, offered, delays);
      var got, teeReader, retryBuf := Attempt(req, policy, event);
      offered := offered + [got];
      var failure := Failure(event.reply);
      if failure.None? {
        return Run(offered, delays, Success);
      }
      if !ShouldRetry(policy, failure.value, retries) {
        return Run(offered, delays, FinalError(event.reply, retries));
      }
      BufferedWhenRetrying(policy, failure.value, retries);
      delays := delays + [DelayMillis(policy, failure.value, retries, event.jitter)];
      retries := retries + 1;
      Rewind(req, teeReader, retryBuf);
    }
    assert script[retries..] == [];
    run := Run(offered, delays, Pending);
  }

  /** BceClient.SendRequest. */
  method SendRequest(req: Request, clientError: Option<string>, policy: Policy, script: seq<Event>) returns (run: Run)
    requires !req.body.Teed?
    modifies req`body, Streams(req.body)
    ensures clientError.Some? ==> run == Run([], [], ClientFailure(clientError.value))
    ensures clientError.None? ==> run == Replay(policy, old(Offered(req.body, req.length)), script, 0)
    ensures clientError.None? ==>
              RunIsRight(policy,
                         old(if req.body.NoBody? || req.length == 0 then None else Some(req.body.stream.unread)),
                         script, run)
  {
    if clientError.Some? {
      return Run([], [], ClientFailure(clientError.value));
    }
    ReplayIsRight(policy, Offered(req.body, req.length), script);
    run := SendAttempts(req, policy, script);
  }

  /** One attempt of SendRequestFromBytes: a new buffer over the content, and execute. */
  method AttemptFromBytes(req: Request, content: bytes, event: Event) returns (offered: Option<bytes>)
    modifies req`body
    ensures offered == if req.length == 0 then None else Some(content)
  {
    var buf := new ByteStream(content);
    req.SetBody(Plain(buf));
    offered := Execute(req, event);
  }

  /** BceClient.SendRequestFromBytes. */
  method SendRequestFromBytes(req: Request, clientError: Option<string>, policy: Policy, content: bytes,
                              script: seq<Event>)
    returns (run: Run)
    modifies req`body
    ensures clientError.Some? ==> run == Run([], [], ClientFailure(clientError.value))
    ensures clientError.None? ==> run == Replay(policy, if req.length == 0 then None else Some(content), script, 0)
    ensures clientError.None? ==> RunIsRight(policy, if req.length == 0 then None else Some(content), script, run)
  {
    if clientError.Some? {
      return Run([], [], ClientFailure(clientError.value));
    }
    ghost var body := if req.length == 0 then None else Some(content);
    ReplayIsRight(policy, body, script);
    var retries := 0;
    var offered: seq<Option<bytes>>, delays: seq<int> := [], [];
    while retries < |script|
      invariant 0 <= retries <= |script|
      invariant Unfolds(policy, body, script, retries, offered, delays)
    {
      var event := script[retries];
      ReplayStep(policy, body, script, retries, offered, delays);
      var got := AttemptFromBytes(req, content, event);
      offered := offered + [got];
      var failure := Failure(event.reply);
      if failure.None? {
        return Run(offered, delays, Success);
      }
      if !ShouldRetry(policy, failure.value, retries) {
        return Run(offered, delays, FinalError(event.reply, retries));
      }
      delays := delays + [DelayMillis(policy, failure.value, retries, event.jitter)];
      retries := retries + 1;
    }
    assert script[retries..] == [];
    run := Run(offered, delays, Pending);
  }

  /**
    SendRequest refines SendRequestFromBytes: a stream holding the content gives the same run as
    the content itself.
   */
  method SendBothWays(stream: Request, plain: Request, policy: Policy, content: bytes, script: seq<Event>)
    returns (streamRun: Run, plainRun: Run)
    requires stream != plain && stream.length == plain.length
    requires stream.body.Plain? && stream.body.stream.unread == content
    modifies stream`body, plain`body, stream.body.stream
    ensures streamRun == plainRun
  {
    streamRun := SendRequest(stream, None, policy, script);
    plainRun := SendRequestFromBytes(plain, None, policy, content, script);
  }
}
