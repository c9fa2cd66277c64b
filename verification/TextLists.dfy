/** Sorting, joining and splitting lists of byte strings, and going through a map in arbitrary order. */
module TextLists {
  import opened Options
  import opened Tally
  import opened Bytes

  // ---------------------------------------------------------------- sort.Strings

  /** Byte-wise lexicographic order, the order of Go strings. */
  predicate LexLeq(a: bytes, b: bytes) {
    a == [] || (b != [] && (a[0] < b[0] || (a[0] == b[0] && LexLeq(a[1..], b[1..]))))
  }

  ghost predicate Sorted(s: seq<bytes>) {
    forall i, j :: 0 <= i < j < |s| ==> LexLeq(s[i], s[j])
  }

  lemma {:induction false} LexTotal(a: bytes, b: bytes)
    ensures LexLeq(a, b) || LexLeq(b, a)
  {
    if a == [] || b == [] {
    } else {
      LexTotal(a[1..], b[1..]);
    }
  }

  lemma {:induction false} LexTransitive(a: bytes, b: bytes, c: bytes)
    requires LexLeq(a, b) && LexLeq(b, c)
    ensures LexLeq(a, c)
  {
    if a == [] || a[0] != b[0] || b[0] != c[0] {
    } else {
      LexTransitive(a[1..], b[1..], c[1..]);
    }
  }

  lemma {:induction false} LexAntisymmetric(a: bytes, b: bytes)
    requires LexLeq(a, b) && LexLeq(b, a)
    ensures a == b
  {
    if a == [] {
    } else {
      LexAntisymmetric(a[1..], b[1..]);
      assert a == [a[0]] + a[1..] && b == [b[0]] + b[1..];
    }
  }

  /** One string comes before another if it is a prefix of it, or smaller at the first byte where they differ. */
  lemma {:induction false} LexSpelledOut(a: bytes, b: bytes)
    ensures LexLeq(a, b)
       <==> a <= b || exists n: nat :: n < |a| && n < |b| && a[..n] == b[..n] && a[n] < b[n]
  {
    if a == [] || b == [] {
    } else if a[0] != b[0] {
      assert a[..0] == b[..0];
      forall n: nat | 0 < n < |a| && n < |b| ensures a[..n] != b[..n] {
        assert a[..n][0] != b[..n][0];
      }
    } else {
      LexSpelledOut(a[1..], b[1..]);
      LexLater(a, b);
    }
  }

  /** Below a common first byte, the first difference of the rest is the first difference. */
  lemma LexLater(a: bytes, b: bytes)
    requires a != [] && b != [] && a[0] == b[0]
    ensures a <= b <==> a[1..] <= b[1..]
    ensures (exists n: nat :: n < |a| && n < |b| && a[..n] == b[..n] && a[n] < b[n])
       <==> (exists n: nat :: n < |a[1..]| && n < |b[1..]| && a[1..][..n] == b[1..][..n] && a[1..][n] < b[1..][n])
  {
    assert a == [a[0]] + a[1..] && b == [b[0]] + b[1..];
    if n: nat :| n < |a| && n < |b| && a[..n] == b[..n] && a[n] < b[n] {
      assert a[1..][..n - 1] == a[..n][1..] && b[1..][..n - 1] == b[..n][1..];
      assert a[1..][n - 1] < b[1..][n - 1];
    }
    if n: nat :| n < |a[1..]| && n < |b[1..]| && a[1..][..n] == b[1..][..n] && a[1..][n] < b[1..][n] {
      assert a[..n + 1] == [a[0]] + a[1..][..n] && b[..n + 1] == [b[0]] + b[1..][..n];
      assert a[n + 1] < b[n + 1];
    }
  }

  function Insert(x: bytes, s: seq<bytes>): seq<bytes> {
    if s == [] then [x] else if LexLeq(x, s[0]) then [x] + s else [s[0]] + Insert(x, s[1..])
  }

  /** What sort.Strings leaves in its slice; by SortedUnique no other list would do. */
  function Sort(s: seq<bytes>): seq<bytes> {
    if s == [] then [] else Insert(s[0], Sort(s[1..]))
  }

  lemma {:induction false} InsertSorts(x: bytes, s: seq<bytes>)
    requires Sorted(s)
    ensures Sorted(Insert(x, s)) && multiset(Insert(x, s)) == multiset{x} + multiset(s)
  {
    if s == [] {
    } else if LexLeq(x, s[0]) {
      forall j | 0 <= j < |s| ensures LexLeq(x, s[j]) {
        if j > 0 {
          LexTransitive(x, s[0], s[j]);
        }
      }
    } else {
      LexTotal(x, s[0]);
      var rest := Insert(x, s[1..]);
      InsertSorts(x, s[1..]);
      assert s == [s[0]] + s[1..];
      forall j | 0 <= j < |rest| ensures LexLeq(s[0], rest[j]) {
        assert rest[j] in multiset(rest);
        assert rest[j] == x || rest[j] in s[1..];
      }
    }
  }

  lemma {:induction false} SortSorts(s: seq<bytes>)
    ensures Sorted(Sort(s)) && multiset(Sort(s)) == multiset(s)
  {
    if s == [] {
    } else {
      SortSorts(s[1..]);
      InsertSorts(s[0], Sort(s[1..]));
      assert s == [s[0]] + s[1..];
    }
  }

  lemma LeastFirst(s: seq<bytes>, x: bytes)
    requires Sorted(s) && x in multiset(s)
    ensures LexLeq(s[0], x)
  {
    var i :| 0 <= i < |s| && s[i] == x;
    LexTotal(x, x);
  }

  lemma MultisetCancel<T>(a: multiset<T>, b: multiset<T>, c: multiset<T>)
    requires a + b == a + c
    ensures b == c
  {
    assert b == (a + b) - a;
    assert c == (a + c) - a;
  }

  lemma SameHead(s: seq<bytes>, t: seq<bytes>)
    requires Sorted(s) && Sorted(t) && multiset(s) == multiset(t) && s != [] && t != []
    ensures s[0] == t[0]
  {
    assert s[0] in multiset(s) && t[0] in multiset(t);
    LeastFirst(s, t[0]);
    LeastFirst(t, s[0]);
    LexAntisymmetric(s[0], t[0]);
  }

  lemma MultisetHead<T>(s: seq<T>)
    requires s != []
    ensures multiset(s) == multiset{s[0]} + multiset(s[1..])
  {
    assert s == [s[0]] + s[1..];
  }

  lemma SameTail<T>(s: seq<T>, t: seq<T>)
    requires multiset(s) == multiset(t) && s != [] && t != [] && s[0] == t[0]
    ensures multiset(s[1..]) == multiset(t[1..])
  {
    MultisetHead(s);
    MultisetHead(t);
    MultisetCancel(multiset{s[0]}, multiset(s[1..]), multiset(t[1..]));
  }

  /** A multiset has only one sorted arrangement. */
  lemma {:induction false} SortedUnique(s: seq<bytes>, t: seq<bytes>)
    requires Sorted(s) && Sorted(t) && multiset(s) == multiset(t)
    ensures s == t
  {
    assert |s| == |multiset(s)| == |multiset(t)| == |t|;
    if s == [] {
    } else {
      SameHead(s, t);
      SameTail(s, t);
      SortedUnique(s[1..], t[1..]);
      assert s == [s[0]] + s[1..] && t == [t[0]] + t[1..];
    }
  }

  lemma SortDeterminedByContents(s: seq<bytes>, t: seq<bytes>)
    ensures Sort(s) == Sort(t) <==> multiset(s) == multiset(t)
  {
    SortSorts(s);
    SortSorts(t);
    if multiset(s) == multiset(t) {
      SortedUnique(Sort(s), Sort(t));
    }
  }

  // ---------------------------------------------------------------- strings.Join and splitting

  function Join(parts: seq<bytes>, separator: byte): bytes {
    if parts == [] then [] else if |parts| == 1 then parts[0] else parts[0] + [separator] + Join(parts[1..], separator)
  }

  /** The text up to the first separator, and the text after it if there is one. */
  function Cut(s: bytes, separator: byte): (bytes, Option<bytes>) {
    if s == [] then ([], None)
    else if s[0] == separator then ([], Some(s[1..]))
    else
      var (before, after) := Cut(s[1..], separator);
      ([s[0]] + before, after)
  }

  function Split(s: bytes, separator: byte): (parts: seq<bytes>)
    ensures parts != []
    decreases |s|
  {
    CutShortens(s, separator);
    match Cut(s, separator)
    case (before, None) => [before]
    case (before, Some(after)) => [before] + Split(after, separator)
  }

  lemma {:induction false} CutShortens(s: bytes, separator: byte)
    ensures Cut(s, separator).1.Some? ==> |Cut(s, separator).1.value| < |s|
  {
    if s == [] || s[0] == separator {
    } else {
      CutShortens(s[1..], separator);
    }
  }

  lemma {:induction false} CutAtSeparator(before: bytes, separator: byte, after: bytes)
    requires separator !in before
    ensures Cut(before + [separator] + after, separator) == (before, Some(after))
    ensures Cut(before, separator) == (before, None)
  {
    var s := before + [separator] + after;
    if before == [] {
      assert s[1..] == after;
    } else {
      CutAtSeparator(before[1..], separator, after);
      assert s[1..] == before[1..] + [separator] + after;
      assert before == [before[0]] + before[1..];
    }
  }

  /** Splitting undoes joining, for a non-empty list whose elements do not contain the separator. */
  lemma {:induction false} SplitJoin(parts: seq<bytes>, separator: byte)
    requires parts != [] && forall i :: 0 <= i < |parts| ==> separator !in parts[i]
    ensures Split(Join(parts, separator), separator) == parts
  {
    if |parts| == 1 {
      CutAtSeparator(parts[0], separator, []);
    } else {
      CutAtSeparator(parts[0], separator, Join(parts[1..], separator));
      SplitJoin(parts[1..], separator);
    }
  }

  /** No element is empty or contains the separator. */
  ghost predicate Separable(s: seq<bytes>, separator: byte) {
    forall i :: 0 <= i < |s| ==> s[i] != [] && separator !in s[i]
  }

  lemma JoinInjective(s: seq<bytes>, t: seq<bytes>, separator: byte)
    requires Separable(s, separator) && Separable(t, separator)
    requires Join(s, separator) == Join(t, separator)
    ensures s == t
  {
    if s != [] {
      SplitJoin(s, separator);
    }
    if t != [] {
      SplitJoin(t, separator);
    }
  }

  lemma SortSeparable(s: seq<bytes>, separator: byte)
    requires Separable(s, separator)
    ensures Separable(Sort(s), separator)
  {
    SortSorts(s);
    forall i | 0 <= i < |Sort(s)| ensures Sort(s)[i] != [] && separator !in Sort(s)[i] {
      assert Sort(s)[i] in multiset(Sort(s));
      assert Sort(s)[i] in s;
    }
  }

  /** Joining the sorted elements determines the multiset of the elements, and is determined by it. */
  lemma JoinSortedDetermines(s: seq<bytes>, t: seq<bytes>, separator: byte)
    requires Separable(s, separator) && Separable(t, separator)
    ensures Join(Sort(s), separator) == Join(Sort(t), separator) <==> multiset(s) == multiset(t)
  {
    SortSeparable(s, separator);
    SortSeparable(t, separator);
    SortDeterminedByContents(s, t);
    if Join(Sort(s), separator) == Join(Sort(t), separator) {
      JoinInjective(Sort(s), Sort(t), separator);
    }
  }

  lemma {:induction false} JoinAvoids(parts: seq<bytes>, separator: byte, c: byte)
    requires c != separator && Separable(parts, c)
    ensures c !in Join(parts, separator)
  {
    if |parts| <= 1 {
    } else {
      JoinAvoids(parts[1..], separator, c);
    }
  }

  // ---------------------------------------------------------------- ranging over a map

  /** The list names each element of the set exactly once: an order in which a loop may go through a map. */
  ghost predicate Lists<K(!new)>(keys: seq<K>, s: set<K>) {
    && (forall k :: k in s <==> k in keys)
    && (forall i, j :: 0 <= i < j < |keys| ==> keys[i] != keys[j])
  }

  ghost function SomeListing<K(!new)>(s: set<K>): (keys: seq<K>)
    ensures Lists(keys, s)
  {
    if s == {} then [] else
      var k :| k in s;
      var rest := SomeListing(s - {k});
      assert forall x :: x in [k] + rest <==> x == k || x in rest;
      [k] + rest
  }

  /** The values a loop appends, in order; None appends nothing. */
  function Gather<K, V>(keys: seq<K>, f: K -> Option<V>): seq<V> {
    if keys == [] then []
    else Gather(keys[..|keys| - 1], f) + (match f(keys[|keys| - 1]) case None => [] case Some(v) => [v])
  }

  lemma GatherOneMore<K, V>(keys: seq<K>, k: K, f: K -> Option<V>)
    ensures Gather(keys + [k], f) == Gather(keys, f) + (match f(k) case None => [] case Some(v) => [v])
  {
    assert (keys + [k])[..|keys|] == keys;
  }

  /** One turn of a loop through a set: the keys seen so far list what is no longer to do. */
  lemma ListsNext<K(!new)>(seen: seq<K>, all: set<K>, todo: set<K>, k: K)
    requires Lists(seen, all - todo) && todo <= all && k in todo
    ensures Lists(seen + [k], all - (todo - {k}))
  {
    forall x ensures x in all - (todo - {k}) <==> x in seen + [k] {
      assert x in seen + [k] <==> x in seen || x == k;
    }
  }

  lemma {:induction false} SumWithout<K>(keys: seq<K>, weight: K -> nat, i: nat)
    requires i < |keys|
    ensures Sum(keys, weight) == Sum(keys[..i] + keys[i + 1..], weight) + weight(keys[i])
  {
    var n := |keys| - 1;
    var less := keys[..i] + keys[i + 1..];
    if i == n {
      assert less == keys[..n];
    } else {
      SumWithout(keys[..n], weight, i);
      assert less[..n - 1] == keys[..n][..i] + keys[..n][i + 1..];
      assert less[n - 1] == keys[n];
    }
  }

  /** How often a key contributes the value v. */
  function Gives<K, V(==)>(f: K -> Option<V>, v: V): K -> nat {
    (k: K) => if f(k) == Some(v) then 1 else 0
  }

  lemma {:induction false} GatherCounts<K, V>(keys: seq<K>, f: K -> Option<V>, v: V)
    ensures multiset(Gather(keys, f))[v] == Sum(keys, Gives(f, v))
  {
    if keys == [] {
    } else {
      GatherCounts(keys[..|keys| - 1], f, v);
    }
  }

  lemma {:induction false} SumZero<K>(keys: seq<K>, weight: K -> nat)
    requires forall i :: 0 <= i < |keys| ==> weight(keys[i]) == 0
    ensures Sum(keys, weight) == 0
  {
    if keys == [] {
    } else {
      SumZero(keys[..|keys| - 1], weight);
    }
  }

  lemma ListsWithout<K(!new)>(keys: seq<K>, s: set<K>, i: nat)
    requires Lists(keys, s) && i < |keys|
    ensures Lists(keys[..i] + keys[i + 1..], s - {keys[i]})
  {
    var less := keys[..i] + keys[i + 1..];
    forall x ensures x in s - {keys[i]} <==> x in less {
      if x in less {
        var j :| 0 <= j < |less| && less[j] == x;
        assert x == keys[if j < i then j else j + 1];
      }
      if x in s - {keys[i]} {
        var j :| 0 <= j < |keys| && keys[j] == x;
        assert x == less[if j < i then j else j - 1];
      }
    }
    forall a, b | 0 <= a < b < |less| ensures less[a] != less[b] {
      assert less[a] == keys[if a < i then a else a + 1] && less[b] == keys[if b < i then b else b + 1];
    }
  }

  /** Listings of two sets give the same sum when the sets differ only in elements of weight zero. */
  lemma {:induction false} SumSupport<K(!new)>(keys: seq<K>, keys': seq<K>, s: set<K>, s': set<K>, weight: K -> nat)
    requires Lists(keys, s) && Lists(keys', s')
    requires forall k :: weight(k) > 0 ==> (k in s <==> k in s')
    ensures Sum(keys, weight) == Sum(keys', weight)
    decreases |keys|
  {
    if keys == [] {
      SumZero(keys', weight);
    } else {
      var k := keys[0];
      ListsWithout(keys, s, 0);
      SumWithout(keys, weight, 0);
      if k in s' {
        var i :| 0 <= i < |keys'| && keys'[i] == k;
        ListsWithout(keys', s', i);
        SumWithout(keys', weight, i);
        SumSupport(keys[..0] + keys[1..], keys'[..i] + keys'[i + 1..], s - {k}, s' - {k}, weight);
      } else {
        SumSupport(keys[..0] + keys[1..], keys', s - {k}, s', weight);
      }
    }
  }

  /** What a loop gathers depends only on the keys for which it appends something, not on their order. */
  lemma GatherSupport<K(!new), V(!new)>(keys: seq<K>, keys': seq<K>, s: set<K>, s': set<K>, f: K -> Option<V>,
                                        f': K -> Option<V>)
    requires Lists(keys, s) && Lists(keys', s')
    requires forall k :: f(k) == f'(k)
    requires forall k :: f(k).Some? ==> (k in s <==> k in s')
    ensures multiset(Gather(keys, f)) == multiset(Gather(keys', f'))
  {
    forall v: V ensures multiset(Gather(keys, f))[v] == multiset(Gather(keys', f'))[v] {
      GatherCounts(keys, f, v);
      GatherCounts(keys', f', v);
      SumSupport(keys, keys', s, s', Gives(f, v));
      SumPointwise(keys', Gives(f, v), Gives(f', v));
    }
  }

  lemma {:induction false} SumPointwise<K(!new)>(keys: seq<K>, weight: K -> nat, weight': K -> nat)
    requires forall k :: weight(k) == weight'(k)
    ensures Sum(keys, weight) == Sum(keys, weight')
  {
    if keys == [] {
    } else {
      SumPointwise(keys[..|keys| - 1], weight, weight');
    }
  }

  /** A larger weight at one place makes a larger sum. */
  lemma SumStrict<K(!new)>(keys: seq<K>, light: K -> nat, heavy: K -> nat, i: nat)
    requires i < |keys| && light(keys[i]) < heavy(keys[i])
    requires forall k :: light(k) <= heavy(k)
    ensures Sum(keys, light) < Sum(keys, heavy)
  {
    SumWithout(keys, light, i);
    SumWithout(keys, heavy, i);
    SumMonotone(keys[..i] + keys[i + 1..], light, heavy);
  }

  /** A loop that appends v for one more key appends something else. */
  lemma GatherOneMoreOf<K(!new), V(!new)>(keys: seq<K>, keys': seq<K>, s: set<K>, s': set<K>, f: K -> Option<V>,
                                          f': K -> Option<V>, k: K, v: V)
    requires Lists(keys, s) && Lists(keys', s') && k in s'
    requires f(k) != Some(v) && f'(k) == Some(v)
    requires forall x :: x != k ==> f(x) == f'(x) && (x in s <==> x in s')
    ensures multiset(Gather(keys, f)) != multiset(Gather(keys', f'))
  {
    SumSupport(keys, keys', s, s', Gives(f, v));
    var i :| 0 <= i < |keys'| && keys'[i] == k;
    SumStrict(keys', Gives(f, v), Gives(f', v), i);
    GatherCounts(keys, f, v);
    GatherCounts(keys', f', v);
  }

  lemma {:induction false} GatherFrom<K, V>(keys: seq<K>, f: K -> Option<V>, v: V)
    ensures v in Gather(keys, f) <==> exists i :: 0 <= i < |keys| && f(keys[i]) == Some(v)
  {
    if keys == [] {
    } else {
      var n := |keys| - 1;
      GatherFrom(keys[..n], f, v);
      if v in Gather(keys, f) && f(keys[n]) != Some(v) {
        assert v in Gather(keys[..n], f);
        var i :| 0 <= i < n && f(keys[..n][i]) == Some(v);
        assert f(keys[i]) == Some(v);
      }
      if i :| 0 <= i < |keys| && f(keys[i]) == Some(v) {
        if i < n {
          assert f(keys[..n][i]) == Some(v);
        }
      }
    }
  }

  // ---------------------------------------------------------------- two elements

  lemma SortTwo(a: bytes, b: bytes)
    requires LexLeq(a, b)
    ensures Sort([a, b]) == [a, b]
  {
    assert [a, b][1..] == [b] && [b][1..] == [];
    assert Sort([b]) == [b];
  }

  lemma JoinTwo(a: bytes, b: bytes, separator: byte)
    ensures Join([a, b], separator) == a + [separator] + b
  {
    assert [a, b][1..] == [b];
  }

  lemma GatherTwo<K, V>(k: K, k': K, f: K -> Option<V>)
    requires f(k).Some? && f(k').Some?
    ensures Gather([k, k'], f) == [f(k).value, f(k').value]
  {
    GatherOneMore([], k, f);
    GatherOneMore([k], k', f);
    assert [] + [k] == [k] && [k] + [k'] == [k, k'];
  }

  lemma ThreeElements<K(!new)>(keys: seq<K>, s: set<K>) returns (a: K, b: K, c: K)
    requires Lists(keys, s) && |keys| >= 3
    ensures a in s && b in s && c in s && a != b && b != c && a != c
  {
    a, b, c := keys[0], keys[1], keys[2];
  }

  lemma TwoListings<K(!new)>(keys: seq<K>, k: K, k': K)
    requires Lists(keys, {k, k'}) && k != k'
    ensures keys == [k, k'] || keys == [k', k]
  {
    if |keys| >= 3 {
      var a, b, c := ThreeElements(keys, {k, k'});
    }
    assert k in keys && k' in keys;
    assert forall i :: 0 <= i < |keys| ==> keys[i] in keys;
  }
}
