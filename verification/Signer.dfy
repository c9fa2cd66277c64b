/**
  The BCE v1 signer: the canonical request string and the Authorization header made from it.
  HMAC, letter case, white space, dates and numbers come from Go's library; they are parameters
  here, so every result holds whatever they compute.
 */
module Signer {
  import opened Options
  import opened Bytes
  import opened UriCodec
  import opened TextLists
  import opened HttpRequest

  datatype Library = Library(
    hmacSha256Hex: (bytes, bytes) -> bytes,
    toLower: bytes -> bytes,
    trimSpace: bytes -> bytes,
    formatISO8601Date: int -> bytes,
    formatInt: int -> bytes)

  datatype Credentials = Credentials(accessKeyId: bytes, secretAccessKey: bytes, sessionToken: bytes)

  datatype SignOptions = SignOptions(headersToSign: set<bytes>, timestamp: int, expireSeconds: int)

  const BCE_AUTH_VERSION: bytes := "bce-auth-v1"
  const AUTHORIZATION: bytes := "Authorization"
  const BCE_PREFIX: bytes := "x-bce-"
  const BCE_REQUEST_ID: bytes := "x-bce-request-id"
  const BCE_SECURITY_TOKEN: bytes := "x-bce-security-token"
  const NEWLINE: byte := '\n'

  // ---------------------------------------------------------------- the canonical parts

  predicate IsAuthorization(lib: Library, name: bytes) {
    lib.toLower(name) == lib.toLower(AUTHORIZATION)
  }

  /** The path without one leading slash. */
  function StripSlash(path: bytes): bytes {
    if path != [] && path[0] == '/' then path[1..] else path
  }

  /** What getCanonicalQueryString appends for one parameter. */
  function ItemOf(lib: Library, params: map<bytes, bytes>, k: bytes): Option<bytes> {
    if k !in params || IsAuthorization(lib, k) then None
    else Some(Encode(k, true) + ['='] + Encode(params[k], true))
  }

  function QueryItem(lib: Library, params: map<bytes, bytes>): bytes -> Option<bytes> {
    (k: bytes) => ItemOf(lib, params, k)
  }

  ghost function QueryItems(lib: Library, params: map<bytes, bytes>): seq<bytes> {
    Gather(SomeListing(params.Keys), QueryItem(lib, params))
  }

  ghost function CanonicalQuery(lib: Library, params: map<bytes, bytes>): bytes {
    Join(Sort(QueryItems(lib, params)), '&')
  }

  /** Which headers are signed, by their lower-case name. */
  predicate IsSigned(lib: Library, toSign: set<bytes>, name: bytes) {
    var lower := lib.toLower(name);
    !IsAuthorization(lib, name) && (lower in toSign || (BCE_PREFIX <= lower && lower != BCE_REQUEST_ID))
  }

  datatype Pair = Pair(name: bytes, value: bytes)

  /** The lower-case name and trimmed value of a signed header. */
  function PairOf(lib: Library, headers: map<bytes, bytes>, toSign: set<bytes>, k: bytes): Option<Pair> {
    if k !in headers || !IsSigned(lib, toSign, k) then None
    else Some(Pair(lib.toLower(k), lib.trimSpace(headers[k])))
  }

  function LineOf(pair: Pair): bytes {
    Encode(pair.name, true) + [':'] + Encode(pair.value, true)
  }

  function SignedPair(lib: Library, headers: map<bytes, bytes>, toSign: set<bytes>): bytes -> Option<Pair> {
    (k: bytes) => PairOf(lib, headers, toSign, k)
  }

  function HeaderLine(lib: Library, headers: map<bytes, bytes>, toSign: set<bytes>): bytes -> Option<bytes> {
    (k: bytes) => match PairOf(lib, headers, toSign, k) case None => None case Some(pair) => Some(LineOf(pair))
  }

  function SignedName(lib: Library, headers: map<bytes, bytes>, toSign: set<bytes>): bytes -> Option<bytes> {
    (k: bytes) => match PairOf(lib, headers, toSign, k) case None => None case Some(pair) => Some(pair.name)
  }

  ghost function HeaderLines(lib: Library, headers: map<bytes, bytes>, toSign: set<bytes>): seq<bytes> {
    Gather(SomeListing(headers.Keys), HeaderLine(lib, headers, toSign))
  }

  ghost function CanonicalHeaders(lib: Library, headers: map<bytes, bytes>, toSign: set<bytes>): bytes {
    Join(Sort(HeaderLines(lib, headers, toSign)), NEWLINE)
  }

  ghost function SignedNames(lib: Library, headers: map<bytes, bytes>, toSign: set<bytes>): seq<bytes> {
    Sort(Gather(SomeListing(headers.Keys), SignedName(lib, headers, toSign)))
  }

  // ---------------------------------------------------------------- the loops that compute them

  method GetCanonicalURIPath(path: bytes) returns (canonical: bytes)
    ensures canonical == ['/'] + Encode(StripSlash(path), false)
  {
    if |path| == 0 {
      return ['/'];
    }
    canonical := path;
    if path[0] == '/' {
      canonical := path[1..];
    }
    canonical := UriEncode(canonical, false);
    canonical := ['/'] + canonical;
  }

  method GetCanonicalQueryString(lib: Library, params: map<bytes, bytes>) returns (query: bytes)
    ensures query == CanonicalQuery(lib, params)
  {
    if |params| == 0 {
      assert params.Keys == {};
      return [];
    }
    var result: seq<bytes> := [];
    var todo := params.Keys;
    ghost var seen: seq<bytes> := [];
    while todo != {}
      invariant todo <= params.Keys
      invariant Lists(seen, params.Keys - todo)
      invariant result == Gather(seen, QueryItem(lib, params))
    {
      var k :| k in todo;
      ListsNext(seen, params.Keys, todo, k);
      GatherOneMore(seen, k, QueryItem(lib, params));
      todo := todo - {k};
      seen := seen + [k];
      if lib.toLower(k) == lib.toLower(AUTHORIZATION) {
        continue;
      }
      var key := UriEncode(k, true);
      var item: bytes;
      if |params[k]| == 0 {
        item := key + ['='];
      } else {
        var value := UriEncode(params[k], true);
        item := key + ['='] + value;
      }
      assert item == ItemOf(lib, params, k).value;
      result := result + [item];
    }
    assert params.Keys - {} == params.Keys;
    QueryAnyOrder(lib, params, seen);
    query := Join(Sort(result), '&');
  }

  method GetCanonicalHeaders(lib: Library, headers: map<bytes, bytes>, toSign: set<bytes>)
    returns (canonical: bytes, signed: seq<bytes>)
    ensures canonical == CanonicalHeaders(lib, headers, toSign)
    ensures signed == SignedNames(lib, headers, toSign)
    ensures NamesToSign(lib, headers, toSign, signed)
  {
    var lines: seq<bytes> := [];
    signed := [];
    var todo := headers.Keys;
    ghost var seen: seq<bytes> := [];
    while todo != {}
      invariant todo <= headers.Keys
      invariant Lists(seen, headers.Keys - todo)
      invariant lines == Gather(seen, HeaderLine(lib, headers, toSign))
      invariant signed == Gather(seen, SignedName(lib, headers, toSign))
    {
      var k :| k in todo;
      ListsNext(seen, headers.Keys, todo, k);
      GatherOneMore(seen, k, HeaderLine(lib, headers, toSign));
      GatherOneMore(seen, k, SignedName(lib, headers, toSign));
      todo := todo - {k};
      seen := seen + [k];
      var headKey := lib.toLower(k);
      if headKey == lib.toLower(AUTHORIZATION) {
        continue;
      }
      if headKey in toSign || (BCE_PREFIX <= headKey && headKey != BCE_REQUEST_ID) {
        var headVal := lib.trimSpace(headers[k]);
        var name := UriEncode(headKey, true);
        var value := UriEncode(headVal, true);
        lines := lines + [name + [':'] + value];
        signed := signed + [headKey];
      }
    }
    assert headers.Keys - {} == headers.Keys;
    HeadersAnyOrder(lib, headers, toSign, seen);
    canonical := Join(Sort(lines), NEWLINE);
    signed := Sort(signed);
    SignedNamesAre(lib, headers, toSign);
  }

  /** These are the names of the headers that are to be signed, in order. */
  ghost predicate NamesToSign(lib: Library, headers: map<bytes, bytes>, toSign: set<bytes>, signed: seq<bytes>) {
    && Sorted(signed)
    && forall name ::
         name in signed <==> (exists k :: k in headers && lib.toLower(k) == name) && NameIsSigned(lib, toSign, name)
  }

  lemma SignedNamesAre(lib: Library, headers: map<bytes, bytes>, toSign: set<bytes>)
    ensures NamesToSign(lib, headers, toSign, SignedNames(lib, headers, toSign))
  {
    SortSorts(Gather(SomeListing(headers.Keys), SignedName(lib, headers, toSign)));
    forall name
      ensures name in SignedNames(lib, headers, toSign)
         <==> (exists k :: k in headers && lib.toLower(k) == name) && NameIsSigned(lib, toSign, name)
    {
      SignedNamesExactly(lib, headers, toSign, name);
    }
  }

  /** A header with this lower-case name is signed: it is asked for, or one of BCE's own but the request id. */
  predicate NameIsSigned(lib: Library, toSign: set<bytes>, name: bytes) {
    && name != lib.toLower("Authorization")
    && (name in toSign || (|name| >= 6 && name[..6] == "x-bce-" && name != "x-bce-request-id"))
  }

  lemma SignedSpelledOut(lib: Library, toSign: set<bytes>, name: bytes)
    ensures IsSigned(lib, toSign, name) <==> NameIsSigned(lib, toSign, lib.toLower(name))
  {
    var lower := lib.toLower(name);
    assert BCE_PREFIX == "x-bce-" && |BCE_PREFIX| == 6;
    assert BCE_PREFIX <= lower <==> |lower| >= 6 && lower[..6] == BCE_PREFIX;
  }

  lemma SignedNamesExactly(lib: Library, headers: map<bytes, bytes>, toSign: set<bytes>, name: bytes)
    ensures name in SignedNames(lib, headers, toSign)
       <==> (exists k :: k in headers && lib.toLower(k) == name) && NameIsSigned(lib, toSign, name)
  {
    var keys, f := SomeListing(headers.Keys), SignedName(lib, headers, toSign);
    SortSorts(Gather(keys, f));
    assert name in Sort(Gather(keys, f)) <==> name in multiset(Sort(Gather(keys, f)));
    GatherFrom(keys, f, name);
    if i :| 0 <= i < |keys| && f(keys[i]) == Some(name) {
      assert keys[i] in headers;
      SignedSpelledOut(lib, toSign, keys[i]);
    }
    if k :| k in headers && lib.toLower(k) == name && NameIsSigned(lib, toSign, name) {
      SignedSpelledOut(lib, toSign, k);
      var i :| 0 <= i < |keys| && keys[i] == k;
      assert f(keys[i]) == Some(name);
    }
  }

  /** The canonical query string does not depend on the order in which the map is gone through. */
  lemma QueryAnyOrder(lib: Library, params: map<bytes, bytes>, keys: seq<bytes>)
    requires Lists(keys, params.Keys)
    ensures Join(Sort(Gather(keys, QueryItem(lib, params))), '&') == CanonicalQuery(lib, params)
  {
    var keys' := SomeListing(params.Keys);
    GatherSupport(keys, keys', params.Keys, params.Keys, QueryItem(lib, params), QueryItem(lib, params));
    SortDeterminedByContents(Gather(keys, QueryItem(lib, params)), Gather(keys', QueryItem(lib, params)));
  }

  /** Nor do the canonical headers and the list of signed names, even when names differ only in letter case. */
  lemma HeadersAnyOrder(lib: Library, headers: map<bytes, bytes>, toSign: set<bytes>, keys: seq<bytes>)
    requires Lists(keys, headers.Keys)
    ensures Join(Sort(Gather(keys, HeaderLine(lib, headers, toSign))), NEWLINE)
        == CanonicalHeaders(lib, headers, toSign)
    ensures Sort(Gather(keys, SignedName(lib, headers, toSign))) == SignedNames(lib, headers, toSign)
  {
    var keys' := SomeListing(headers.Keys);
    var line, name := HeaderLine(lib, headers, toSign), SignedName(lib, headers, toSign);
    GatherSupport(keys, keys', headers.Keys, headers.Keys, line, line);
    SortDeterminedByContents(Gather(keys, line), Gather(keys', line));
    GatherSupport(keys, keys', headers.Keys, headers.Keys, name, name);
    SortDeterminedByContents(Gather(keys, name), Gather(keys', name));
  }

  // ---------------------------------------------------------------- what the query string determines

  /** The parameters that are signed. */
  function SignedParams(lib: Library, params: map<bytes, bytes>): map<bytes, bytes> {
    map k | k in params && !IsAuthorization(lib, k) :: params[k]
  }

  /** The bytes that no encoded text and no item built from it contains. */
  predicate IsSeparator(c: byte) {
    c == '&' || c == NEWLINE || c == '/'
  }

  lemma QueryItemsSeparable(lib: Library, params: map<bytes, bytes>, c: byte)
    requires IsSeparator(c)
    ensures Separable(QueryItems(lib, params), c)
  {
    var keys, items := SomeListing(params.Keys), QueryItems(lib, params);
    forall i | 0 <= i < |items| ensures items[i] != [] && c !in items[i] {
      GatherFrom(keys, QueryItem(lib, params), items[i]);
      var j :| 0 <= j < |keys| && QueryItem(lib, params)(keys[j]) == Some(items[i]);
      assert items[i] == ItemOf(lib, params, keys[j]).value;
      EncodeAvoids(keys[j], true, c);
      EncodeAvoids(params[keys[j]], true, c);
    }
  }

  lemma SameItemSameParam(lib: Library, params: map<bytes, bytes>, params': map<bytes, bytes>, k: bytes, k': bytes)
    requires ItemOf(lib, params, k).Some? && ItemOf(lib, params, k) == ItemOf(lib, params', k')
    ensures k == k' && params[k] == params'[k']
  {
    EncodeAvoids(k, true, '=');
    EncodeAvoids(k', true, '=');
    CutAtSeparator(Encode(k, true), '=', Encode(params[k], true));
    CutAtSeparator(Encode(k', true), '=', Encode(params'[k'], true));
    EncodeInjective(k, k', true);
    EncodeInjective(params[k], params'[k'], true);
  }

  lemma SameItemsIncluded(lib: Library, params: map<bytes, bytes>, params': map<bytes, bytes>, k: bytes)
    requires multiset(QueryItems(lib, params))
          == multiset(QueryItems(lib, params'))
    requires k in SignedParams(lib, params)
    ensures k in SignedParams(lib, params') && SignedParams(lib, params')[k] == SignedParams(lib, params)[k]
  {
    var keys, keys' := SomeListing(params.Keys), SomeListing(params'.Keys);
    var item := ItemOf(lib, params, k).value;
    assert k in keys;
    GatherFrom(keys, QueryItem(lib, params), item);
    assert item in multiset(Gather(keys', QueryItem(lib, params')));
    GatherFrom(keys', QueryItem(lib, params'), item);
    var j :| 0 <= j < |keys'| && QueryItem(lib, params')(keys'[j]) == Some(item);
    assert ItemOf(lib, params', keys'[j]) == Some(item);
    SameItemSameParam(lib, params, params', k, keys'[j]);
  }

  lemma SameParamsSameItems(lib: Library, params: map<bytes, bytes>, params': map<bytes, bytes>)
    requires SignedParams(lib, params) == SignedParams(lib, params')
    ensures multiset(QueryItems(lib, params))
         == multiset(QueryItems(lib, params'))
  {
    var item, item' := QueryItem(lib, params), QueryItem(lib, params');
    forall k ensures item(k) == item'(k) && (item(k).Some? ==> k in params && k in params') {
      assert k in SignedParams(lib, params) <==> k in params && !IsAuthorization(lib, k);
      assert k in SignedParams(lib, params') <==> k in params' && !IsAuthorization(lib, k);
      if k in SignedParams(lib, params) {
        assert params[k] == SignedParams(lib, params)[k] == params'[k];
      }
    }
    GatherSupport(SomeListing(params.Keys), SomeListing(params'.Keys), params.Keys, params'.Keys, item, item');
  }

  lemma SameItemsSameParams(lib: Library, params: map<bytes, bytes>, params': map<bytes, bytes>)
    requires multiset(QueryItems(lib, params))
          == multiset(QueryItems(lib, params'))
    ensures SignedParams(lib, params) == SignedParams(lib, params')
  {
    var signed, signed' := SignedParams(lib, params), SignedParams(lib, params');
    forall k | k in signed ensures k in signed' && signed'[k] == signed[k] {
      SameItemsIncluded(lib, params, params', k);
    }
    forall k | k in signed' ensures k in signed {
      SameItemsIncluded(lib, params', params, k);
    }
    MapsEqual(signed, signed');
  }

  lemma MapsEqual<K(!new), V>(m: map<K, V>, m': map<K, V>)
    requires forall k :: k in m ==> k in m' && m'[k] == m[k]
    requires forall k :: k in m' ==> k in m
    ensures m == m'
  {
  }

  /** Two parameter maps have the same canonical query string exactly when they agree on all signed parameters. */
  lemma QueryDeterminesParams(lib: Library, params: map<bytes, bytes>, params': map<bytes, bytes>)
    ensures CanonicalQuery(lib, params) == CanonicalQuery(lib, params')
       <==> SignedParams(lib, params) == SignedParams(lib, params')
  {
    var items, items' := QueryItems(lib, params), QueryItems(lib, params');
    QueryItemsSeparable(lib, params, '&');
    QueryItemsSeparable(lib, params', '&');
    JoinSortedDetermines(items, items', '&');
    if SignedParams(lib, params) == SignedParams(lib, params') {
      SameParamsSameItems(lib, params, params');
    }
    if multiset(items) == multiset(items') {
      SameItemsSameParams(lib, params, params');
    }
  }

  // ---------------------------------------------------------------- what the header lines determine

  /** The lower-case names and trimmed values of the signed headers, with multiplicity. */
  ghost function SignedHeaders(lib: Library, headers: map<bytes, bytes>, toSign: set<bytes>): multiset<Pair> {
    multiset(Gather(SomeListing(headers.Keys), SignedPair(lib, headers, toSign)))
  }

  lemma LineInjective(pair: Pair, pair': Pair)
    requires LineOf(pair) == LineOf(pair')
    ensures pair == pair'
  {
    EncodeAvoids(pair.name, true, ':');
    EncodeAvoids(pair'.name, true, ':');
    CutAtSeparator(Encode(pair.name, true), ':', Encode(pair.value, true));
    CutAtSeparator(Encode(pair'.name, true), ':', Encode(pair'.value, true));
    EncodeInjective(pair.name, pair'.name, true);
    EncodeInjective(pair.value, pair'.value, true);
  }

  lemma HeaderLinesSeparable(lib: Library, headers: map<bytes, bytes>, toSign: set<bytes>, c: byte)
    requires IsSeparator(c)
    ensures Separable(HeaderLines(lib, headers, toSign), c)
  {
    var keys, lines := SomeListing(headers.Keys), HeaderLines(lib, headers, toSign);
    forall i | 0 <= i < |lines| ensures lines[i] != [] && c !in lines[i] {
      LineFromPair(lib, headers, toSign, lines[i]);
      var pair :| lines[i] == LineOf(pair);
      EncodeAvoids(pair.name, true, c);
      EncodeAvoids(pair.value, true, c);
    }
  }

  lemma LineGivesPair(lib: Library, headers: map<bytes, bytes>, toSign: set<bytes>, pair: Pair, k: bytes)
    ensures Gives(HeaderLine(lib, headers, toSign), LineOf(pair))(k) == Gives(SignedPair(lib, headers, toSign), pair)(k)
  {
    var own := PairOf(lib, headers, toSign, k);
    if own.Some? && LineOf(own.value) == LineOf(pair) {
      LineInjective(own.value, pair);
    }
  }

  /** Each pair occurs among the signed headers as often as its line occurs among the lines. */
  lemma LinesCountPairs(lib: Library, headers: map<bytes, bytes>, toSign: set<bytes>, pair: Pair)
    ensures multiset(HeaderLines(lib, headers, toSign))[LineOf(pair)] == SignedHeaders(lib, headers, toSign)[pair]
  {
    var keys := SomeListing(headers.Keys);
    var line, signed := HeaderLine(lib, headers, toSign), SignedPair(lib, headers, toSign);
    GatherCounts(keys, line, LineOf(pair));
    GatherCounts(keys, signed, pair);
    forall k ensures Gives(line, LineOf(pair))(k) == Gives(signed, pair)(k) {
      LineGivesPair(lib, headers, toSign, pair, k);
    }
    SumPointwise(keys, Gives(line, LineOf(pair)), Gives(signed, pair));
  }

  lemma LineFromPair(lib: Library, headers: map<bytes, bytes>, toSign: set<bytes>, line: bytes)
    requires line in HeaderLines(lib, headers, toSign)
    ensures exists pair :: line == LineOf(pair)
  {
    var keys := SomeListing(headers.Keys);
    GatherFrom(keys, HeaderLine(lib, headers, toSign), line);
    var j :| 0 <= j < |keys| && HeaderLine(lib, headers, toSign)(keys[j]) == Some(line);
    assert line == LineOf(PairOf(lib, headers, toSign, keys[j]).value);
  }

  lemma SameLinesSamePairs(lib: Library, headers: map<bytes, bytes>, headers': map<bytes, bytes>,
                           toSign: set<bytes>, toSign': set<bytes>)
    ensures multiset(HeaderLines(lib, headers, toSign))
         == multiset(HeaderLines(lib, headers', toSign'))
       <==> SignedHeaders(lib, headers, toSign) == SignedHeaders(lib, headers', toSign')
  {
    var lines := HeaderLines(lib, headers, toSign);
    var lines' := HeaderLines(lib, headers', toSign');
    if multiset(lines) == multiset(lines') {
      forall pair: Pair
        ensures SignedHeaders(lib, headers, toSign)[pair] == SignedHeaders(lib, headers', toSign')[pair]
      {
        LinesCountPairs(lib, headers, toSign, pair);
        LinesCountPairs(lib, headers', toSign', pair);
      }
    }
    if SignedHeaders(lib, headers, toSign) == SignedHeaders(lib, headers', toSign') {
      forall line: bytes ensures multiset(lines)[line] == multiset(lines')[line] {
        if pair :| line == LineOf(pair) {
          LinesCountPairs(lib, headers, toSign, pair);
          LinesCountPairs(lib, headers', toSign', pair);
        } else {
          if line in lines {
            LineFromPair(lib, headers, toSign, line);
          }
          if line in lines' {
            LineFromPair(lib, headers', toSign', line);
          }
        }
      }
    }
  }

  /** Two header maps have the same canonical header lines exactly when they sign the same headers. */
  lemma HeaderLinesDetermine(lib: Library, headers: map<bytes, bytes>, headers': map<bytes, bytes>,
                             toSign: set<bytes>, toSign': set<bytes>)
    ensures CanonicalHeaders(lib, headers, toSign) == CanonicalHeaders(lib, headers', toSign')
       <==> SignedHeaders(lib, headers, toSign) == SignedHeaders(lib, headers', toSign')
  {
    HeaderLinesSeparable(lib, headers, toSign, NEWLINE);
    HeaderLinesSeparable(lib, headers', toSign', NEWLINE);
    JoinSortedDetermines(HeaderLines(lib, headers, toSign), HeaderLines(lib, headers', toSign'), NEWLINE);
    SameLinesSamePairs(lib, headers, headers', toSign, toSign');
  }

  // ---------------------------------------------------------------- the canonical request

  ghost function CanonicalTail(lib: Library, uri: bytes, params: map<bytes, bytes>, headers: map<bytes, bytes>,
                               toSign: set<bytes>): bytes {
    Encode(StripSlash(uri), false) + [NEWLINE]
      + (CanonicalQuery(lib, params) + [NEWLINE] + CanonicalHeaders(lib, headers, toSign))
  }

  /** The string that is signed: method, path, query and headers on lines of their own. */
  ghost function CanonicalRequest(lib: Library, verb: bytes, uri: bytes, params: map<bytes, bytes>,
                                  headers: map<bytes, bytes>, toSign: set<bytes>): bytes {
    verb + [NEWLINE, '/'] + CanonicalTail(lib, uri, params, headers, toSign)
  }

  lemma QueryAvoids(lib: Library, params: map<bytes, bytes>, c: byte)
    requires c == NEWLINE || c == '/'
    ensures c !in CanonicalQuery(lib, params)
  {
    QueryItemsSeparable(lib, params, c);
    SortSeparable(QueryItems(lib, params), c);
    JoinAvoids(Sort(QueryItems(lib, params)), '&', c);
  }

  lemma HeadersAvoidSlash(lib: Library, headers: map<bytes, bytes>, toSign: set<bytes>)
    ensures '/' !in CanonicalHeaders(lib, headers, toSign)
  {
    HeaderLinesSeparable(lib, headers, toSign, '/');
    SortSeparable(HeaderLines(lib, headers, toSign), '/');
    JoinAvoids(Sort(HeaderLines(lib, headers, toSign)), NEWLINE, '/');
  }

  /** After the slash that starts the path no other line starts with a slash. */
  ghost predicate NoSlashLine(s: bytes) {
    forall i :: 0 <= i < |s| - 1 ==> !(s[i] == NEWLINE && s[i + 1] == '/')
  }

  lemma TailHasNoSlashLine(lib: Library, uri: bytes, params: map<bytes, bytes>, headers: map<bytes, bytes>,
                           toSign: set<bytes>)
    ensures NoSlashLine(CanonicalTail(lib, uri, params, headers, toSign))
    ensures NEWLINE !in Encode(StripSlash(uri), false)
  {
    EncodeAvoids(StripSlash(uri), false, NEWLINE);
    QueryAvoids(lib, params, '/');
    HeadersAvoidSlash(lib, headers, toSign);
    NoSlashAfter(Encode(StripSlash(uri), false),
                 CanonicalQuery(lib, params) + [NEWLINE] + CanonicalHeaders(lib, headers, toSign));
  }

  lemma NoSlashAfter(path: bytes, rest: bytes)
    requires NEWLINE !in path && '/' !in rest
    ensures NoSlashLine(path + [NEWLINE] + rest)
  {
    var s := path + [NEWLINE] + rest;
    forall i | 0 <= i < |s| - 1 ensures !(s[i] == NEWLINE && s[i + 1] == '/') {
      if i < |path| {
        assert s[i] == path[i];
      } else {
        assert s[i + 1] == rest[i - |path|];
      }
    }
  }

  /** The last slash at the start of a line separates the method from the rest, even if the method contains newlines. */
  lemma LastSlashLine(verb: bytes, tail: bytes, verb': bytes, tail': bytes)
    requires verb + [NEWLINE, '/'] + tail == verb' + [NEWLINE, '/'] + tail'
    requires NoSlashLine(tail) && NoSlashLine(tail')
    ensures verb == verb' && tail == tail'
  {
    if |verb| < |verb'| {
      LastSlashLineOrdered(verb, tail, verb', tail');
    } else if |verb'| < |verb| {
      LastSlashLineOrdered(verb', tail', verb, tail);
    } else {
      var s := verb + [NEWLINE, '/'] + tail;
      assert s[..|verb|] == verb && s[..|verb|] == verb';
      assert s[|verb| + 2..] == tail && s[|verb| + 2..] == tail';
    }
  }

  lemma LastSlashLineOrdered(verb: bytes, tail: bytes, verb': bytes, tail': bytes)
    requires |verb| < |verb'|
    requires verb + [NEWLINE, '/'] + tail == verb' + [NEWLINE, '/'] + tail'
    ensures !NoSlashLine(tail)
  {
    var s := verb + [NEWLINE, '/'] + tail;
    var at := |verb'|;
    assert s[at] == NEWLINE && s[at + 1] == '/';
    assert s[|verb| + 1] == '/';
    assert tail[at - |verb| - 2] == NEWLINE && tail[at - |verb| - 2 + 1] == '/';
  }

  /**
    The canonical request determines everything it is meant to sign, and nothing else: two requests
    have the same string exactly when they agree on the method, the path up to one leading slash,
    all parameters but `authorization`, and the names and values of the signed headers.
   */
  lemma CanonicalRequestDetermines(
    lib: Library,
    verb: bytes, uri: bytes, params: map<bytes, bytes>, headers: map<bytes, bytes>, toSign: set<bytes>,
    verb': bytes, uri': bytes, params': map<bytes, bytes>, headers': map<bytes, bytes>, toSign': set<bytes>)
    ensures CanonicalRequest(lib, verb, uri, params, headers, toSign)
        == CanonicalRequest(lib, verb', uri', params', headers', toSign')
       <==> verb == verb'
            && StripSlash(uri) == StripSlash(uri')
            && SignedParams(lib, params) == SignedParams(lib, params')
            && SignedHeaders(lib, headers, toSign) == SignedHeaders(lib, headers', toSign')
  {
    QueryDeterminesParams(lib, params, params');
    HeaderLinesDetermine(lib, headers, headers', toSign, toSign');
    if CanonicalRequest(lib, verb, uri, params, headers, toSign)
        == CanonicalRequest(lib, verb', uri', params', headers', toSign')
    {
      TailHasNoSlashLine(lib, uri, params, headers, toSign);
      TailHasNoSlashLine(lib, uri', params', headers', toSign');
      LastSlashLine(verb, CanonicalTail(lib, uri, params, headers, toSign),
                    verb', CanonicalTail(lib, uri', params', headers', toSign'));
      TailDetermines(lib, uri, params, headers, toSign, uri', params', headers', toSign');
    }
  }

  lemma TailDetermines(
    lib: Library,
    uri: bytes, params: map<bytes, bytes>, headers: map<bytes, bytes>, toSign: set<bytes>,
    uri': bytes, params': map<bytes, bytes>, headers': map<bytes, bytes>, toSign': set<bytes>)
    requires CanonicalTail(lib, uri, params, headers, toSign) == CanonicalTail(lib, uri', params', headers', toSign')
    ensures StripSlash(uri) == StripSlash(uri')
    ensures CanonicalQuery(lib, params) == CanonicalQuery(lib, params')
    ensures CanonicalHeaders(lib, headers, toSign) == CanonicalHeaders(lib, headers', toSign')
  {
    var rest := CanonicalQuery(lib, params) + [NEWLINE] + CanonicalHeaders(lib, headers, toSign);
    var rest' := CanonicalQuery(lib, params') + [NEWLINE] + CanonicalHeaders(lib, headers', toSign');
    EncodeAvoids(StripSlash(uri), false, NEWLINE);
    EncodeAvoids(StripSlash(uri'), false, NEWLINE);
    CutAtSeparator(Encode(StripSlash(uri), false), NEWLINE, rest);
    CutAtSeparator(Encode(StripSlash(uri'), false), NEWLINE, rest');
    EncodeInjective(StripSlash(uri), StripSlash(uri'), false);
    QueryAvoids(lib, params, NEWLINE);
    QueryAvoids(lib, params', NEWLINE);
    CutAtSeparator(CanonicalQuery(lib, params), NEWLINE, CanonicalHeaders(lib, headers, toSign));
    CutAtSeparator(CanonicalQuery(lib, params'), NEWLINE, CanonicalHeaders(lib, headers', toSign'));
  }

  // ---------------------------------------------------------------- Sign

  /** The headers after signing: perhaps the session token, and the Authorization header. */
  ghost function WithToken(cred: Credentials, params: map<bytes, bytes>,
                           headers: map<bytes, bytes>): map<bytes, bytes> {
    var inParams := BCE_SECURITY_TOKEN in params && params[BCE_SECURITY_TOKEN] != [];
    if cred.sessionToken != [] && !inParams then headers[BCE_SECURITY_TOKEN := cred.sessionToken] else headers
  }

  function SignKeyInfo(lib: Library, accessKeyId: bytes, date: bytes, expireSeconds: int): bytes {
    BCE_AUTH_VERSION + ['/'] + accessKeyId + ['/'] + date + ['/'] + lib.formatInt(expireSeconds)
  }

  function SignDate(lib: Library, opt: SignOptions, now: int): bytes {
    lib.formatISO8601Date(if opt.timestamp != 0 then opt.timestamp else now)
  }

  /** The HMAC of a string under the key derived from the secret and the key info. */
  function Signature(lib: Library, cred: Credentials, signKeyInfo: bytes, canonicalReq: bytes): bytes {
    lib.hmacSha256Hex(lib.hmacSha256Hex(cred.secretAccessKey, signKeyInfo), canonicalReq)
  }

  function AuthString(signKeyInfo: bytes, signedHeaders: bytes, signature: bytes): bytes {
    signKeyInfo + ['/'] + signedHeaders + ['/'] + signature
  }

  /** The Authorization header for a request whose headers are final but for that header. */
  ghost function Authorization(lib: Library, cred: Credentials, opt: SignOptions, now: int,
                               verb: bytes, uri: bytes, params: map<bytes, bytes>, headers: map<bytes, bytes>): bytes {
    var info := SignKeyInfo(lib, cred.accessKeyId, SignDate(lib, opt, now), opt.expireSeconds);
    AuthString(info, Join(SignedNames(lib, headers, opt.headersToSign), ';'),
               Signature(lib, cred, info, CanonicalRequest(lib, verb, uri, params, headers, opt.headersToSign)))
  }

  ghost function Signed(lib: Library, cred: Credentials, opt: SignOptions, now: int,
                        verb: bytes, uri: bytes, params: map<bytes, bytes>,
                        headers: map<bytes, bytes>): map<bytes, bytes> {
    var final := WithToken(cred, params, headers);
    final[AUTHORIZATION := Authorization(lib, cred, opt, now, verb, uri, params, final)]
  }

  /** The canonical parts joined by newlines, and the sorted names of the signed headers joined by semicolons. */
  method BuildCanonicalRequest(lib: Library, req: Request, toSign: set<bytes>)
    returns (canonicalReq: bytes, signedHeaders: bytes)
    ensures canonicalReq == CanonicalRequest(lib, req.verb, req.uri, req.params, req.headers, toSign)
    ensures signedHeaders == Join(SignedNames(lib, req.headers, toSign), ';')
  {
    var canonicalUri := GetCanonicalURIPath(req.uri);
    var canonicalQueryString := GetCanonicalQueryString(lib, req.params);
    var canonicalHeaders, signedHeadersArr := GetCanonicalHeaders(lib, req.headers, toSign);
    signedHeaders := [];
    if |signedHeadersArr| > 0 {
      SortTwice(Gather(SomeListing(req.headers.Keys), SignedName(lib, req.headers, toSign)));
      signedHeadersArr := Sort(signedHeadersArr);
      signedHeaders := Join(signedHeadersArr, ';');
    }
    JoinFour(req.verb, Encode(StripSlash(req.uri), false), canonicalQueryString, canonicalHeaders);
    canonicalReq := Join([req.verb, canonicalUri, canonicalQueryString, canonicalHeaders], NEWLINE);
  }

  lemma SortTwice(s: seq<bytes>)
    ensures Sort(Sort(s)) == Sort(s)
  {
    SortSorts(s);
    SortDeterminedByContents(Sort(s), s);
  }

  lemma JoinFour(a: bytes, b: bytes, c: bytes, d: bytes)
    ensures Join([a, ['/'] + b, c, d], NEWLINE) == a + [NEWLINE, '/'] + (b + [NEWLINE] + (c + [NEWLINE] + d))
  {
    var b' := ['/'] + b;
    assert [c, d][1..] == [d] && [b', c, d][1..] == [c, d] && [a, b', c, d][1..] == [b', c, d];
    assert Join([c, d], NEWLINE) == c + [NEWLINE] + d;
    assert Join([b', c, d], NEWLINE) == b' + [NEWLINE] + Join([c, d], NEWLINE);
    assert Join([a, b', c, d], NEWLINE) == a + [NEWLINE] + Join([b', c, d], NEWLINE);
  }

  /** BceV1Signer.Sign; `now` is the clock. */
  method Sign(lib: Library, req: Request, cred: Credentials, opt: SignOptions, now: int)
    modifies req`headers
    ensures req.headers == Signed(lib, cred, opt, now, req.verb, req.uri, req.params, old(req.headers))
  {
    var signDate := lib.formatISO8601Date(now);
    if opt.timestamp != 0 {
      signDate := lib.formatISO8601Date(opt.timestamp);
    }
    if |cred.sessionToken| != 0 && req.Param(BCE_SECURITY_TOKEN) == [] {
      req.SetHeader(BCE_SECURITY_TOKEN, cred.sessionToken);
    }
    ghost var final := req.headers;
    assert final == WithToken(cred, req.params, old(req.headers));
    var signKeyInfo := SignKeyInfo(lib, cred.accessKeyId, signDate, opt.expireSeconds);
    var signKey := lib.hmacSha256Hex(cred.secretAccessKey, signKeyInfo);
    var canonicalReq, signedHeaders := BuildCanonicalRequest(lib, req, opt.headersToSign);
    var signature := lib.hmacSha256Hex(signKey, canonicalReq);
    var authStr := signKeyInfo + ['/'] + signedHeaders + ['/'] + signature;
    assert authStr == Authorization(lib, cred, opt, now, req.verb, req.uri, req.params, final);
    req.SetHeader(AUTHORIZATION, authStr);
  }

  // ---------------------------------------------------------------- laws of Sign

  /** The Authorization header takes no part in what is signed. */
  lemma AuthorizationNotSigned(lib: Library, headers: map<bytes, bytes>, toSign: set<bytes>, value: bytes)
    ensures CanonicalHeaders(lib, headers[AUTHORIZATION := value], toSign) == CanonicalHeaders(lib, headers, toSign)
    ensures SignedNames(lib, headers[AUTHORIZATION := value], toSign) == SignedNames(lib, headers, toSign)
  {
    var headers' := headers[AUTHORIZATION := value];
    forall k
      ensures PairOf(lib, headers', toSign, k) == PairOf(lib, headers, toSign, k)
      ensures PairOf(lib, headers, toSign, k).Some? ==> k in headers && k in headers'
    {
    }
    SamePairsSameText(lib, headers, headers', toSign);
  }

  lemma SamePairsSameText(lib: Library, headers: map<bytes, bytes>, headers': map<bytes, bytes>, toSign: set<bytes>)
    requires forall k :: PairOf(lib, headers', toSign, k) == PairOf(lib, headers, toSign, k)
    requires forall k :: PairOf(lib, headers, toSign, k).Some? ==> k in headers && k in headers'
    ensures CanonicalHeaders(lib, headers', toSign) == CanonicalHeaders(lib, headers, toSign)
    ensures SignedNames(lib, headers', toSign) == SignedNames(lib, headers, toSign)
  {
    SamePairsSameLines(lib, headers, headers', toSign);
    SamePairsSameNames(lib, headers, headers', toSign);
  }

  lemma SamePairsSameLines(lib: Library, headers: map<bytes, bytes>, headers': map<bytes, bytes>, toSign: set<bytes>)
    requires forall k :: PairOf(lib, headers', toSign, k) == PairOf(lib, headers, toSign, k)
    requires forall k :: PairOf(lib, headers, toSign, k).Some? ==> k in headers && k in headers'
    ensures CanonicalHeaders(lib, headers', toSign) == CanonicalHeaders(lib, headers, toSign)
  {
    SameGathered(headers, headers', HeaderLine(lib, headers, toSign), HeaderLine(lib, headers', toSign));
  }

  lemma SamePairsSameNames(lib: Library, headers: map<bytes, bytes>, headers': map<bytes, bytes>, toSign: set<bytes>)
    requires forall k :: PairOf(lib, headers', toSign, k) == PairOf(lib, headers, toSign, k)
    requires forall k :: PairOf(lib, headers, toSign, k).Some? ==> k in headers && k in headers'
    ensures SignedNames(lib, headers', toSign) == SignedNames(lib, headers, toSign)
  {
    SameGathered(headers, headers', SignedName(lib, headers, toSign), SignedName(lib, headers', toSign));
  }

  lemma SameGathered(headers: map<bytes, bytes>, headers': map<bytes, bytes>, f: bytes -> Option<bytes>,
                     f': bytes -> Option<bytes>)
    requires forall k :: f(k) == f'(k) && (f(k).Some? ==> k in headers && k in headers')
    ensures Sort(Gather(SomeListing(headers.Keys), f)) == Sort(Gather(SomeListing(headers'.Keys), f'))
  {
    GatherSupport(SomeListing(headers.Keys), SomeListing(headers'.Keys), headers.Keys, headers'.Keys, f, f');
    SortDeterminedByContents(Gather(SomeListing(headers.Keys), f), Gather(SomeListing(headers'.Keys), f'));
  }

  lemma AuthorizationStable(lib: Library, cred: Credentials, opt: SignOptions, now: int, later: int,
                            verb: bytes, uri: bytes, params: map<bytes, bytes>, headers: map<bytes, bytes>,
                            value: bytes)
    requires opt.timestamp != 0
    ensures Authorization(lib, cred, opt, later, verb, uri, params, headers[AUTHORIZATION := value])
         == Authorization(lib, cred, opt, now, verb, uri, params, headers)
  {
    AuthorizationNotSigned(lib, headers, opt.headersToSign, value);
  }

  lemma TokenStable(cred: Credentials, params: map<bytes, bytes>, headers: map<bytes, bytes>, value: bytes)
    ensures WithToken(cred, params, WithToken(cred, params, headers)[AUTHORIZATION := value])
         == WithToken(cred, params, headers)[AUTHORIZATION := value]
  {
    var final := WithToken(cred, params, headers);
    assert AUTHORIZATION != BCE_SECURITY_TOKEN by { assert |AUTHORIZATION| != |BCE_SECURITY_TOKEN|; }
  }

  lemma UpdateTwice<K, V>(m: map<K, V>, k: K, v: V)
    ensures m[k := v][k := v] == m[k := v]
  {
  }

  /** With a fixed timestamp, signing a signed request again changes nothing, whatever the clock says. */
  lemma SignIdempotent(lib: Library, cred: Credentials, opt: SignOptions, now: int, later: int,
                       verb: bytes, uri: bytes, params: map<bytes, bytes>, headers: map<bytes, bytes>)
    requires opt.timestamp != 0
    ensures Signed(lib, cred, opt, later, verb, uri, params, Signed(lib, cred, opt, now, verb, uri, params, headers))
         == Signed(lib, cred, opt, now, verb, uri, params, headers)
  {
    var final := WithToken(cred, params, headers);
    var value := Authorization(lib, cred, opt, now, verb, uri, params, final);
    TokenStable(cred, params, headers, value);
    AuthorizationStable(lib, cred, opt, now, later, verb, uri, params, final, value);
    UpdateTwice(final, AUTHORIZATION, value);
  }

  /** The six fields of the Authorization header. */
  ghost function AuthorizationFields(lib: Library, cred: Credentials, opt: SignOptions, now: int,
                                     verb: bytes, uri: bytes, params: map<bytes, bytes>,
                                     headers: map<bytes, bytes>): seq<bytes> {
    var date := SignDate(lib, opt, now);
    var info := SignKeyInfo(lib, cred.accessKeyId, date, opt.expireSeconds);
    [BCE_AUTH_VERSION, cred.accessKeyId, date, lib.formatInt(opt.expireSeconds),
     Join(SignedNames(lib, headers, opt.headersToSign), ';'),
     Signature(lib, cred, info, CanonicalRequest(lib, verb, uri, params, headers, opt.headersToSign))]
  }

  lemma JoinSix(a: bytes, b: bytes, c: bytes, d: bytes, e: bytes, f: bytes)
    ensures Join([a, b, c, d, e, f], '/') == a + ['/'] + b + ['/'] + c + ['/'] + d + ['/'] + e + ['/'] + f
  {
    assert [e, f][1..] == [f] && [d, e, f][1..] == [e, f] && [c, d, e, f][1..] == [d, e, f];
    assert [b, c, d, e, f][1..] == [c, d, e, f] && [a, b, c, d, e, f][1..] == [b, c, d, e, f];
    assert Join([e, f], '/') == e + ['/'] + f;
    assert Join([d, e, f], '/') == d + ['/'] + e + ['/'] + f;
    assert Join([c, d, e, f], '/') == c + ['/'] + d + ['/'] + e + ['/'] + f;
    assert Join([b, c, d, e, f], '/') == b + ['/'] + c + ['/'] + d + ['/'] + e + ['/'] + f;
  }

  /** A receiver can read the fields back from the Authorization header when none of them contains a slash. */
  lemma AuthorizationReadable(lib: Library, cred: Credentials, opt: SignOptions, now: int,
                              verb: bytes, uri: bytes, params: map<bytes, bytes>, headers: map<bytes, bytes>)
    requires forall i :: 0 <= i < 6 ==> '/' !in AuthorizationFields(lib, cred, opt, now, verb, uri, params, headers)[i]
    ensures Split(Authorization(lib, cred, opt, now, verb, uri, params, headers), '/')
         == AuthorizationFields(lib, cred, opt, now, verb, uri, params, headers)
  {
    var f := AuthorizationFields(lib, cred, opt, now, verb, uri, params, headers);
    JoinSix(f[0], f[1], f[2], f[3], f[4], f[5]);
    assert f == [f[0], f[1], f[2], f[3], f[4], f[5]];
    SplitJoin(f, '/');
  }

  /** Whether a parameter is signed although it leaves no trace in the query string. */
  predicate HasBlankParam(params: map<bytes, bytes>) {
    [] in params && params[[]] == []
  }

  lemma SameSignedParamsAfterWire(lib: Library, params: map<bytes, bytes>, query: bytes)
    requires IsQueryString(query, params) && !IsAuthorization(lib, [])
    ensures SignedParams(lib, ParseQuery(query)) == SignedParams(lib, params) <==> !HasBlankParam(params)
  {
    ParseWritten(query, params);
    if HasBlankParam(params) {
      assert [] in SignedParams(lib, params) && [] !in SignedParams(lib, ParseQuery(query));
    } else {
      assert Visible(params) == params;
    }
  }

  /**
    What a receiver recomputes from the wire, the parsed query string and the final headers, is the
    string that was signed, exactly when no empty parameter name carries an empty value.
   */
  lemma ReceiverRecomputes(lib: Library, cred: Credentials, opt: SignOptions, now: int,
                           verb: bytes, uri: bytes, params: map<bytes, bytes>, headers: map<bytes, bytes>, query: bytes)
    requires IsQueryString(query, params) && !IsAuthorization(lib, [])
    ensures CanonicalRequest(lib, verb, uri, ParseQuery(query),
                             Signed(lib, cred, opt, now, verb, uri, params, headers), opt.headersToSign)
         == CanonicalRequest(lib, verb, uri, params, WithToken(cred, params, headers), opt.headersToSign)
       <==> !HasBlankParam(params)
  {
    var final := WithToken(cred, params, headers);
    var value := Authorization(lib, cred, opt, now, verb, uri, params, final);
    var sent := final[AUTHORIZATION := value];
    AuthorizationNotSigned(lib, final, opt.headersToSign, value);
    HeaderLinesDetermine(lib, sent, final, opt.headersToSign, opt.headersToSign);
    SameSignedParamsAfterWire(lib, params, query);
    CanonicalRequestDetermines(lib, verb, uri, ParseQuery(query), sent, opt.headersToSign,
                               verb, uri, params, final, opt.headersToSign);
  }
}
