/**
  What the signer signs, spelled out with the names and separators of BCE's signature: which changes
  of a request change the string that is signed, and what the Authorization header is made of.
 */
module SignedContent {
  import opened Options
  import opened Bytes
  import opened UriCodec
  import opened TextLists
  import opened HttpRequest
  import opened Signer

  // ---------------------------------------------------------------- what a change of the request changes

  /** Setting a header changes what is signed exactly if the header is to be signed, and is new or has another value. */
  lemma SignedHeadersReact(lib: Library, headers: map<bytes, bytes>, toSign: set<bytes>, k: bytes, v: bytes)
    ensures SignedHeaders(lib, headers[k := v], toSign) == SignedHeaders(lib, headers, toSign)
       <==> !NameIsSigned(lib, toSign, lib.toLower(k))
            || (k in headers && lib.trimSpace(headers[k]) == lib.trimSpace(v))
  {
    var headers' := headers[k := v];
    SignedSpelledOut(lib, toSign, k);
    if !IsSigned(lib, toSign, k) || (k in headers && lib.trimSpace(headers[k]) == lib.trimSpace(v)) {
      SamePairsSameHeaders(lib, headers, headers', toSign);
    } else {
      OneMorePair(lib, headers, toSign, k, v);
    }
  }

  lemma SamePairsSameHeaders(lib: Library, headers: map<bytes, bytes>, headers': map<bytes, bytes>, toSign: set<bytes>)
    requires forall k :: PairOf(lib, headers', toSign, k) == PairOf(lib, headers, toSign, k)
    ensures SignedHeaders(lib, headers', toSign) == SignedHeaders(lib, headers, toSign)
  {
    var f, f' := SignedPair(lib, headers, toSign), SignedPair(lib, headers', toSign);
    forall k ensures f(k) == f'(k) && (f(k).Some? ==> k in headers.Keys && k in headers'.Keys) {
      assert PairOf(lib, headers', toSign, k) == PairOf(lib, headers, toSign, k);
    }
    GatherSupport(SomeListing(headers.Keys), SomeListing(headers'.Keys), headers.Keys, headers'.Keys, f, f');
  }

  /** The new pair is signed once more than before. */
  lemma OneMorePair(lib: Library, headers: map<bytes, bytes>, toSign: set<bytes>, k: bytes, v: bytes)
    requires IsSigned(lib, toSign, k)
    requires k !in headers || lib.trimSpace(headers[k]) != lib.trimSpace(v)
    ensures SignedHeaders(lib, headers[k := v], toSign) != SignedHeaders(lib, headers, toSign)
  {
    var headers' := headers[k := v];
    var f, f' := SignedPair(lib, headers, toSign), SignedPair(lib, headers', toSign);
    var pair := Pair(lib.toLower(k), lib.trimSpace(v));
    assert f'(k) == Some(pair) && f(k) != Some(pair);
    GatherOneMoreOf(SomeListing(headers.Keys), SomeListing(headers'.Keys), headers.Keys, headers'.Keys, f, f', k, pair);
  }

  /**
    Setting a header changes the canonical request exactly if the header is to be signed and its
    trimmed value is not what it was. Headers to be signed are those asked for and all x-bce- headers but
    the request id, and never Authorization.
   */
  lemma RequestReactsToHeader(lib: Library, verb: bytes, uri: bytes, params: map<bytes, bytes>,
                              headers: map<bytes, bytes>, toSign: set<bytes>, k: bytes, v: bytes)
    ensures CanonicalRequest(lib, verb, uri, params, headers[k := v], toSign)
         == CanonicalRequest(lib, verb, uri, params, headers, toSign)
       <==> !NameIsSigned(lib, toSign, lib.toLower(k))
            || (k in headers && lib.trimSpace(headers[k]) == lib.trimSpace(v))
  {
    SignedHeadersReact(lib, headers, toSign, k, v);
    CanonicalRequestDetermines(lib, verb, uri, params, headers[k := v], toSign,
                               verb, uri, params, headers, toSign);
  }

  /**
    Setting a parameter changes it exactly if it is not called authorization, in any case, and its
    value is not what it was.
   */
  lemma RequestReactsToParam(lib: Library, verb: bytes, uri: bytes, params: map<bytes, bytes>,
                             headers: map<bytes, bytes>, toSign: set<bytes>, k: bytes, v: bytes)
    ensures CanonicalRequest(lib, verb, uri, params[k := v], headers, toSign)
         == CanonicalRequest(lib, verb, uri, params, headers, toSign)
       <==> lib.toLower(k) == lib.toLower("Authorization") || (k in params && params[k] == v)
  {
    SignedParamsReact(lib, params, k, v);
    CanonicalRequestDetermines(lib, verb, uri, params[k := v], headers, toSign, verb, uri, params, headers, toSign);
  }

  lemma SignedParamsReact(lib: Library, params: map<bytes, bytes>, k: bytes, v: bytes)
    ensures SignedParams(lib, params[k := v]) == SignedParams(lib, params)
       <==> lib.toLower(k) == lib.toLower("Authorization") || (k in params && params[k] == v)
  {
    var signed, signed' := SignedParams(lib, params), SignedParams(lib, params[k := v]);
    if IsAuthorization(lib, k) || (k in params && params[k] == v) {
      assert signed' == signed;
    } else {
      assert k in signed' && signed'[k] == v && (k in signed ==> signed[k] == params[k]);
    }
  }

  /** Two paths are signed alike exactly if they are equal, or one is the other with the leading slash that it lacks. */
  lemma RequestReactsToPath(lib: Library, verb: bytes, uri: bytes, uri': bytes, params: map<bytes, bytes>,
                            headers: map<bytes, bytes>, toSign: set<bytes>)
    ensures CanonicalRequest(lib, verb, uri, params, headers, toSign)
         == CanonicalRequest(lib, verb, uri', params, headers, toSign)
       <==> uri == uri' || (!("/" <= uri) && uri' == "/" + uri) || (!("/" <= uri') && uri == "/" + uri')
  {
    CanonicalRequestDetermines(lib, verb, uri, params, headers, toSign, verb, uri', params, headers, toSign);
    SlashSpelledOut(uri);
    SlashSpelledOut(uri');
  }

  lemma SlashSpelledOut(path: bytes)
    ensures if "/" <= path then path == "/" + StripSlash(path) else StripSlash(path) == path
  {
    if "/" <= path {
      assert path == path[..1] + path[1..];
    }
  }

  // ---------------------------------------------------------------- the canonical query string as a query string

  /** The segment of a parameter holds its name before the equals sign and its value after it. */
  lemma ItemParses(lib: Library, params: map<bytes, bytes>, k: bytes)
    requires ItemOf(lib, params, k).Some?
    ensures ParseSegment(ItemOf(lib, params, k).value) == Some((k, params[k]))
    ensures '&' !in ItemOf(lib, params, k).value && ItemOf(lib, params, k).value != []
  {
    EncodeAvoids(k, true, '=');
    EncodeAvoids(k, true, '&');
    EncodeAvoids(params[k], true, '&');
    CutAtSeparator(Encode(k, true), '=', Encode(params[k], true));
    DecodeEncode(k, true);
    DecodeEncode(params[k], true);
  }

  /** Each segment of the canonical query string comes from a signed parameter, and each of these has a segment. */
  lemma SegmentsAreParams(lib: Library, params: map<bytes, bytes>, segment: bytes)
    ensures segment in Sort(QueryItems(lib, params))
       <==> exists k :: k in params && ItemOf(lib, params, k) == Some(segment)
  {
    var keys := SomeListing(params.Keys);
    SortSorts(QueryItems(lib, params));
    assert segment in Sort(QueryItems(lib, params)) <==> segment in multiset(Sort(QueryItems(lib, params)));
    GatherFrom(keys, QueryItem(lib, params), segment);
    if i :| 0 <= i < |keys| && QueryItem(lib, params)(keys[i]) == Some(segment) {
      assert keys[i] in params && ItemOf(lib, params, keys[i]) == Some(segment);
    }
    if k :| k in params && ItemOf(lib, params, k) == Some(segment) {
      var i :| 0 <= i < |keys| && keys[i] == k;
      assert QueryItem(lib, params)(keys[i]) == Some(segment);
    }
  }

  lemma SegmentParses(lib: Library, params: map<bytes, bytes>, segment: bytes) returns (k: bytes)
    requires segment in Sort(QueryItems(lib, params))
    ensures k in SignedParams(lib, params) && ParseSegment(segment) == Some((k, params[k])) && '&' !in segment
  {
    SegmentsAreParams(lib, params, segment);
    k :| k in params && ItemOf(lib, params, k) == Some(segment);
    ItemParses(lib, params, k);
  }

  /** Read as a query string, the canonical query string holds exactly the signed parameters. */
  lemma CanonicalQueryParses(lib: Library, params: map<bytes, bytes>)
    ensures ParseQuery(CanonicalQuery(lib, params)) == SignedParams(lib, params)
  {
    var segments, signed := Sort(QueryItems(lib, params)), SignedParams(lib, params);
    forall i | 0 <= i < |segments|
      ensures ParseSegment(segments[i]).Some? && '&' !in segments[i]
      ensures var (k, v) := ParseSegment(segments[i]).value; k in signed && signed[k] == v
    {
      var k := SegmentParses(lib, params, segments[i]);
    }
    forall i, j | 0 <= i < |segments| && 0 <= j < |segments| ensures SameKeySameValue(segments[i], segments[j]) {
    }
    forall k | k in signed ensures k in ParseSegments(segments) && ParseSegments(segments)[k] == signed[k] {
      ItemParses(lib, params, k);
      SegmentsAreParams(lib, params, ItemOf(lib, params, k).value);
      ParseMembers(segments, k, signed[k]);
    }
    forall k | k in ParseSegments(segments) ensures k in signed {
      ParseMembers(segments, k, ParseSegments(segments)[k]);
    }
    MapsEqual(signed, ParseSegments(segments));
    if segments == [] {
      assert Split([], '&') == [[]] && ParseSegments([[]]) == map[];
    } else {
      SplitJoin(segments, '&');
    }
  }

  // ---------------------------------------------------------------- the Authorization header, spelled out

  /** What Sign does to the headers: the session token if it is due, the Authorization header, and nothing else. */
  lemma SignedHeaderMap(lib: Library, cred: Credentials, opt: SignOptions, now: int,
                        verb: bytes, uri: bytes, params: map<bytes, bytes>, headers: map<bytes, bytes>, name: bytes)
    ensures var signed := Signed(lib, cred, opt, now, verb, uri, params, headers);
            var due := cred.sessionToken != "" && !("x-bce-security-token" in params
                                                    && params["x-bce-security-token"] != "");
            if name == "Authorization" then name in signed
            else if name == "x-bce-security-token" && due then name in signed && signed[name] == cred.sessionToken
            else if name in headers then name in signed && signed[name] == headers[name]
            else name !in signed
  {
    assert AUTHORIZATION == "Authorization" && BCE_SECURITY_TOKEN == "x-bce-security-token";
  }

  /**
    The Authorization header: version, access key, date, expiry, signed names and signature between
    slashes. The signature is the HMAC of the canonical request under the HMAC of the part before the
    signed names under the secret key.
   */
  lemma AuthorizationSpelledOut(lib: Library, cred: Credentials, opt: SignOptions, now: int,
                                verb: bytes, uri: bytes, params: map<bytes, bytes>, headers: map<bytes, bytes>)
    ensures var signed := Signed(lib, cred, opt, now, verb, uri, params, headers);
            var version: bytes, slash: bytes := "bce-auth-v1", "/";
            var date := lib.formatISO8601Date(if opt.timestamp == 0 then now else opt.timestamp);
            var info := version + slash + cred.accessKeyId + slash + date + slash + lib.formatInt(opt.expireSeconds);
            var names := Join(SignedNames(lib, signed, opt.headersToSign), ';');
            var request := CanonicalRequest(lib, verb, uri, params, signed, opt.headersToSign);
            var signature := lib.hmacSha256Hex(lib.hmacSha256Hex(cred.secretAccessKey, info), request);
            AUTHORIZATION == "Authorization" && AUTHORIZATION in signed
            && signed[AUTHORIZATION] == info + slash + names + slash + signature
  {
    var final := WithToken(cred, params, headers);
    var value := Authorization(lib, cred, opt, now, verb, uri, params, final);
    AuthorizationNotSigned(lib, final, opt.headersToSign, value);
  }

  // ---------------------------------------------------------------- the separators, spelled out

  /** Two parameters make `key=value&key=value`, encoded and in order. */
  lemma QueryOfTwo(lib: Library, params: map<bytes, bytes>, k: bytes, k': bytes)
    requires k != k' && params.Keys == {k, k'}
    requires lib.toLower(k) != lib.toLower("Authorization") && lib.toLower(k') != lib.toLower("Authorization")
    requires LexLeq(Encode(k, true) + ['='] + Encode(params[k], true),
                    Encode(k', true) + ['='] + Encode(params[k'], true))
    ensures CanonicalQuery(lib, params)
         == Encode(k, true) + ['='] + Encode(params[k], true)
            + ['&'] + (Encode(k', true) + ['='] + Encode(params[k'], true))
  {
    var f := QueryItem(lib, params);
    QueryAnyOrder(lib, params, [k, k']);
    GatherTwo(k, k', f);
    SortTwo(f(k).value, f(k').value);
    JoinTwo(f(k).value, f(k').value, '&');
  }

  /** Two headers to be signed make two lines `name:value`, in lower case, trimmed, encoded and in order. */
  lemma LinesOfTwo(lib: Library, headers: map<bytes, bytes>, toSign: set<bytes>, k: bytes, k': bytes,
                   l: bytes, l': bytes)
    requires k != k' && headers.Keys == {k, k'}
    requires NameIsSigned(lib, toSign, lib.toLower(k)) && NameIsSigned(lib, toSign, lib.toLower(k'))
    requires l == Encode(lib.toLower(k), true) + [':'] + Encode(lib.trimSpace(headers[k]), true)
    requires l' == Encode(lib.toLower(k'), true) + [':'] + Encode(lib.trimSpace(headers[k']), true)
    requires LexLeq(l, l')
    ensures CanonicalHeaders(lib, headers, toSign) == l + ['\n'] + l'
  {
    var f := HeaderLine(lib, headers, toSign);
    SignedSpelledOut(lib, toSign, k);
    SignedSpelledOut(lib, toSign, k');
    HeadersAnyOrder(lib, headers, toSign, [k, k']);
    assert f(k) == Some(l) && f(k') == Some(l');
    GatherTwo(k, k', f);
    SortTwo(l, l');
    JoinTwo(l, l', NEWLINE);
  }

  /** The canonical request: method, path with its slash, query string and header lines, each on a line of its own. */
  lemma RequestSpelledOut(lib: Library, verb: bytes, uri: bytes, params: map<bytes, bytes>,
                          headers: map<bytes, bytes>, toSign: set<bytes>)
    ensures CanonicalRequest(lib, verb, uri, params, headers, toSign)
         == verb + ['\n', '/'] + (Encode(StripSlash(uri), false) + ['\n']
            + (CanonicalQuery(lib, params) + ['\n'] + CanonicalHeaders(lib, headers, toSign)))
  {
  }
}
