/** The request object: its header and parameter maps, its query string, and its body. */
module HttpRequest {
  import opened Options
  import opened Bytes
  import opened UriCodec
  import opened TextLists

  /** Bytes that can be read once: the body stream handed in by the caller, or a bytes.Buffer. */
  class ByteStream {
    var unread: bytes

    constructor (content: bytes)
      ensures unread == content
    {
      unread := content;
    }
  }

  /** What the body field holds: nothing, a stream, or a tee that copies all that is read from a stream. */
  datatype Body =
    | NoBody
    | Plain(stream: ByteStream)
    | Teed(stream: ByteStream, copy: ByteStream)

  class Request {
    var verb: bytes                      // the HTTP method
    var uri: bytes
    var headers: map<bytes, bytes>       // a nil map is the empty map
    var params: map<bytes, bytes>
    var body: Body
    var length: int

    constructor (verb: bytes, uri: bytes)
      ensures this.verb == verb && this.uri == uri && headers == map[] && params == map[] && body == NoBody
          && length == 0
    {
      this.verb := verb;
      this.uri := uri;
      headers := map[];
      params := map[];
      body := NoBody;
      length := 0;
    }

    function Param(key: bytes): bytes
      reads this`params
    {
      if key in params then params[key] else []
    }

    method SetHeader(key: bytes, value: bytes)
      modifies this`headers
      ensures headers == old(headers)[key := value]
    {
      headers := headers[key := value];
    }

    method SetBody(stream: Body)
      modifies this`body
      ensures body == stream
    {
      body := stream;
    }

    /** The query string on the wire, in whatever order the map is gone through. */
    method QueryString() returns (query: bytes)
      ensures IsQueryString(query, params)
    {
      var items: seq<bytes> := [];
      var todo := params.Keys;
      ghost var seen: seq<bytes> := [];
      while todo != {}
        invariant todo <= params.Keys
        invariant Lists(seen, params.Keys - todo)
        invariant items == Gather(seen, WireItem(params))
      {
        var k :| k in todo;
        ListsNext(seen, params.Keys, todo, k);
        GatherOneMore(seen, k, WireItem(params));
        todo := todo - {k};
        var key := UriEncode(k, true);
        if |params[k]| == 0 {
          items := items + [key];
        } else {
          var value := UriEncode(params[k], true);
          items := items + [key + ['='] + value];
        }
        seen := seen + [k];
      }
      assert params.Keys - {} == params.Keys;
      query := Join(items, '&');
    }
  }

  // ---------------------------------------------------------------- the query string

  /** What QueryString writes for one parameter. */
  function WireItem(params: map<bytes, bytes>): bytes -> Option<bytes> {
    (k: bytes) =>
      if k !in params then None
      else if params[k] == [] then Some(Encode(k, true))
      else Some(Encode(k, true) + ['='] + Encode(params[k], true))
  }

  ghost predicate IsQueryString(query: bytes, params: map<bytes, bytes>) {
    exists keys :: Lists(keys, params.Keys) && query == Join(Gather(keys, WireItem(params)), '&')
  }

  /** A receiver's reading of one segment: the text before the first `=` is the key, the text after it the value. */
  function ParseSegment(segment: bytes): Option<(bytes, bytes)> {
    var (before, after) := Cut(segment, '=');
    var key, value := Decode(before), Decode(if after.Some? then after.value else []);
    if segment == [] || key.None? || value.None? then None else Some((key.value, value.value))
  }

  function ParseSegments(segments: seq<bytes>): map<bytes, bytes> {
    if segments == [] then map[]
    else
      var rest := ParseSegments(segments[..|segments| - 1]);
      match ParseSegment(segments[|segments| - 1])
      case None => rest
      case Some((key, value)) => rest[key := value]
  }

  /** A receiver's reading of a query string: segments between `&`, empty ones skipped, percent-decoded. */
  function ParseQuery(query: bytes): map<bytes, bytes> {
    ParseSegments(Split(query, '&'))
  }

  /** The parameters that leave a trace in the query string: all but an empty key with an empty value. */
  function Visible(params: map<bytes, bytes>): map<bytes, bytes> {
    map k | k in params && (k != [] || params[k] != []) :: params[k]
  }

  lemma WireItemParses(params: map<bytes, bytes>, k: bytes)
    requires k in params
    ensures var item := WireItem(params)(k).value;
            && '&' !in item
            && ParseSegment(item) == if k == [] && params[k] == [] then None else Some((k, params[k]))
  {
    EncodeAvoids(k, true, '=');
    EncodeAvoids(k, true, '&');
    EncodeAvoids(params[k], true, '&');
    CutAtSeparator(Encode(k, true), '=', Encode(params[k], true));
    DecodeEncode(k, true);
    DecodeEncode(params[k], true);
  }

  lemma {:induction false} ItemsAvoidAmpersand(params: map<bytes, bytes>, keys: seq<bytes>)
    requires forall k :: k in keys ==> k in params
    ensures |Gather(keys, WireItem(params))| == |keys|
    ensures forall i :: 0 <= i < |keys| ==> '&' !in Gather(keys, WireItem(params))[i]
  {
    if keys == [] {
    } else {
      ItemsAvoidAmpersand(params, keys[..|keys| - 1]);
      WireItemParses(params, keys[|keys| - 1]);
    }
  }

  /** The visible parameters among some keys. */
  function VisibleAmong(params: map<bytes, bytes>, keys: seq<bytes>): map<bytes, bytes> {
    map k | k in keys && k in Visible(params) :: params[k]
  }

  lemma VisibleOneMore(params: map<bytes, bytes>, keys: seq<bytes>, k: bytes)
    requires k in params
    ensures VisibleAmong(params, keys + [k])
         == if k in Visible(params) then VisibleAmong(params, keys)[k := params[k]] else VisibleAmong(params, keys)
  {
    assert forall x :: x in keys + [k] <==> x in keys || x == k;
  }

  lemma ParseOneMore(segments: seq<bytes>, segment: bytes)
    ensures ParseSegments(segments + [segment])
         == match ParseSegment(segment)
            case None => ParseSegments(segments)
            case Some((key, value)) => ParseSegments(segments)[key := value]
  {
    assert (segments + [segment])[..|segments|] == segments;
  }

  lemma {:induction false} ItemsParse(params: map<bytes, bytes>, keys: seq<bytes>)
    requires forall k :: k in keys ==> k in params
    ensures ParseSegments(Gather(keys, WireItem(params))) == VisibleAmong(params, keys)
  {
    if keys == [] {
    } else {
      var before, k := keys[..|keys| - 1], keys[|keys| - 1];
      assert keys == before + [k];
      ItemsParse(params, before);
      ItemParses(params, before, k);
    }
  }

  lemma ItemParses(params: map<bytes, bytes>, keys: seq<bytes>, k: bytes)
    requires k in params && ParseSegments(Gather(keys, WireItem(params))) == VisibleAmong(params, keys)
    ensures ParseSegments(Gather(keys + [k], WireItem(params))) == VisibleAmong(params, keys + [k])
  {
    GatherOneMore(keys, k, WireItem(params));
    WireItemParses(params, k);
    ParseOneMore(Gather(keys, WireItem(params)), WireItem(params)(k).value);
    VisibleOneMore(params, keys, k);
  }

  /** Reading a query string back gives exactly the visible parameters, whatever order it was written in. */
  lemma ParseWritten(query: bytes, params: map<bytes, bytes>)
    requires IsQueryString(query, params)
    ensures ParseQuery(query) == Visible(params)
  {
    var keys :| Lists(keys, params.Keys) && query == Join(Gather(keys, WireItem(params)), '&');
    var items := Gather(keys, WireItem(params));
    ItemsParse(params, keys);
    ItemsAvoidAmpersand(params, keys);
    assert VisibleAmong(params, keys) == Visible(params);
    if items == [] {
      assert Split([], '&') == [[]];
    } else {
      SplitJoin(items, '&');
    }
  }

  /** Segments that agree on the value of each key are read as exactly the pairs in them, in whatever order. */
  lemma {:induction false} ParseMembers(segments: seq<bytes>, k: bytes, v: bytes)
    requires forall i :: 0 <= i < |segments| ==> ParseSegment(segments[i]).Some?
    requires forall i, j :: 0 <= i < |segments| && 0 <= j < |segments| ==> SameKeySameValue(segments[i], segments[j])
    ensures k in ParseSegments(segments) && ParseSegments(segments)[k] == v
       <==> exists i :: 0 <= i < |segments| && ParseSegment(segments[i]) == Some((k, v))
  {
    if segments == [] {
    } else {
      var n := |segments| - 1;
      var before := segments[..n];
      ParseMembers(before, k, v);
      assert segments == before + [segments[n]];
      ParseOneMore(before, segments[n]);
      OneMoreMember(before, segments[n], k, v);
    }
  }

  lemma OneMoreMember(before: seq<bytes>, segment: bytes, k: bytes, v: bytes)
    requires ParseSegment(segment).Some? && forall i :: 0 <= i < |before| ==> SameKeySameValue(before[i], segment)
    requires k in ParseSegments(before) && ParseSegments(before)[k] == v
        <==> exists i :: 0 <= i < |before| && ParseSegment(before[i]) == Some((k, v))
    ensures k in ParseSegments(before + [segment]) && ParseSegments(before + [segment])[k] == v
       <==> exists i :: 0 <= i < |before + [segment]| && ParseSegment((before + [segment])[i]) == Some((k, v))
  {
    var segments := before + [segment];
    ParseOneMore(before, segment);
    if i :| 0 <= i < |before| && ParseSegment(before[i]) == Some((k, v)) {
      assert segments[i] == before[i] && SameKeySameValue(before[i], segment);
    }
    if i :| 0 <= i < |segments| && ParseSegment(segments[i]) == Some((k, v)) {
      assert i < |before| ==> before[i] == segments[i];
    }
    assert segments[|before|] == segment;
  }

  ghost predicate SameKeySameValue(segment: bytes, segment': bytes) {
    var pair, pair' := ParseSegment(segment), ParseSegment(segment');
    pair.Some? && pair'.Some? && pair.value.0 == pair'.value.0 ==> pair.value.1 == pair'.value.1
  }

  /** What is written for two parameters, spelled out: in one order or the other, a name without a value alone. */
  lemma QueryStringOfTwo(params: map<bytes, bytes>, k: bytes, k': bytes, query: bytes)
    requires IsQueryString(query, params) && k != k' && params.Keys == {k, k'}
    ensures var item := Encode(k, true) + (if params[k] == [] then [] else ['='] + Encode(params[k], true));
            var item' := Encode(k', true) + (if params[k'] == [] then [] else ['='] + Encode(params[k'], true));
            query == item + ['&'] + item' || query == item' + ['&'] + item
  {
    var keys :| Lists(keys, params.Keys) && query == Join(Gather(keys, WireItem(params)), '&');
    TwoListings(keys, k, k');
    if keys == [k, k'] {
      TwoItems(params, k, k');
    } else {
      TwoItems(params, k', k);
    }
  }

  lemma TwoItems(params: map<bytes, bytes>, k: bytes, k': bytes)
    requires k in params && k' in params
    ensures Join(Gather([k, k'], WireItem(params)), '&')
         == Encode(k, true) + (if params[k] == [] then [] else ['='] + Encode(params[k], true))
            + ['&'] + (Encode(k', true) + (if params[k'] == [] then [] else ['='] + Encode(params[k'], true)))
  {
    var f := WireItem(params);
    GatherTwo(k, k', f);
    JoinTwo(f(k).value, f(k').value, '&');
    ItemSpelledOut(params, k);
    ItemSpelledOut(params, k');
  }

  lemma ItemSpelledOut(params: map<bytes, bytes>, k: bytes)
    requires k in params
    ensures WireItem(params)(k)
         == Some(Encode(k, true) + (if params[k] == [] then [] else ['='] + Encode(params[k], true)))
  {
    if params[k] == [] {
      assert Encode(k, true) + [] == Encode(k, true);
    } else {
      assert Encode(k, true) + ['='] + Encode(params[k], true) == Encode(k, true) + (['='] + Encode(params[k], true));
    }
  }
}
