/**
 * Shared vocabulary of the restaurant model: optional values, aggregates over
 * sequences (the SQL `SUM`/`COUNT` and the JavaScript `reduce`/`filter` the
 * source uses), ASCII text helpers, and the clock.
 *
 * Time is modelled as integer seconds since a local epoch; a calendar date is
 * the day number `ts / 86400`; a time of day is an `(hour, minute)` pair.
 * Money is integer centavos.
 */
module Base {

  datatype Option<T> = None | Some(value: T)

  /** Success with a value, or failure with an error the caller reports. */
  datatype Result<T, E> = Ok(value: T) | Err(error: E)

  // ---------------------------------------------------------------------------
  // Aggregates over sequences
  // ---------------------------------------------------------------------------

  /** Sum of `f` over `s`, in order (SQL `SUM`, JavaScript `reduce((a, x) => a + f(x), 0)`). */
  function Sum<T>(s: seq<T>, f: T -> int): int
  {
    if s == [] then 0 else f(s[0]) + Sum(s[1..], f)
  }

  /** The elements of `s` satisfying `p`, in their original order. */
  function Filter<T>(s: seq<T>, p: T -> bool): seq<T>
  {
    if s == [] then [] else (if p(s[0]) then [s[0]] else []) + Filter(s[1..], p)
  }

  /** Number of elements of `s` satisfying `p` (SQL `COUNT` under a `WHERE`). */
  function Count<T>(s: seq<T>, p: T -> bool): nat
  {
    |Filter(s, p)|
  }

  /** `s` with `f` applied to every element (JavaScript `map`). */
  function Map<T, U>(s: seq<T>, f: T -> U): (r: seq<U>)
    ensures |r| == |s|
    ensures forall i :: 0 <= i < |s| ==> r[i] == f(s[i])
  {
    if s == [] then [] else [f(s[0])] + Map(s[1..], f)
  }

  lemma {:induction false} SumAppend<T>(a: seq<T>, b: seq<T>, f: T -> int)
    ensures Sum(a + b, f) == Sum(a, f) + Sum(b, f)
  {
    if a == [] {
      assert a + b == b;
    } else {
      assert (a + b)[1..] == a[1..] + b;
      SumAppend(a[1..], b, f);
    }
  }

  lemma {:induction false} SumNonNegative<T>(s: seq<T>, f: T -> int)
    requires forall x :: x in s ==> f(x) >= 0
    ensures Sum(s, f) >= 0
  {
    if s != [] {
      SumNonNegative(s[1..], f);
    }
  }

  lemma {:induction false} FilterAppend<T>(a: seq<T>, b: seq<T>, p: T -> bool)
    ensures Filter(a + b, p) == Filter(a, p) + Filter(b, p)
  {
    if a == [] {
      assert a + b == b;
    } else {
      var head := if p(a[0]) then [a[0]] else [];
      FilterAppend(a[1..], b, p);
      assert (a + b)[0] == a[0] && (a + b)[1..] == a[1..] + b;
      assert Filter(a + b, p) == head + Filter(a[1..] + b, p);
      assert Filter(a, p) == head + Filter(a[1..], p);
    }
  }

  /** Filtering keeps exactly the elements that satisfy the predicate. */
  lemma {:induction false} FilterMembers<T>(s: seq<T>, p: T -> bool)
    ensures forall x :: x in Filter(s, p) <==> x in s && p(x)
    ensures |Filter(s, p)| <= |s|
  {
    if s != [] {
      FilterMembers(s[1..], p);
      assert s == [s[0]] + s[1..];
    }
  }

  /** Mapping `f` over the elements that satisfy `p` gives `f` of such elements, and of every one of them. */
  lemma {:induction false} MapFilterMembers<T, U>(s: seq<T>, p: T -> bool, f: T -> U)
    ensures forall i :: 0 <= i < |Map(Filter(s, p), f)| ==> exists x :: x in s && p(x) && Map(Filter(s, p), f)[i] == f(x)
    ensures forall x :: x in s && p(x) ==> f(x) in Map(Filter(s, p), f)
  {
    var kept := Filter(s, p);
    var r := Map(kept, f);
    FilterMembers(s, p);
    forall i | 0 <= i < |r| ensures exists x :: x in s && p(x) && r[i] == f(x) {
      var x := kept[i];
      assert x in kept;
      assert x in s && p(x) && r[i] == f(x);
    }
    forall x | x in s && p(x) ensures f(x) in r {
      var i :| 0 <= i < |kept| && kept[i] == x;
      assert r[i] == f(x);
    }
  }

  lemma FilterElement<T>(s: seq<T>, p: T -> bool, y: T)
    requires y in Filter(s, p)
    ensures y in s && p(y)
  {
    FilterMembers(s, p);
  }

  /** Filtering with a predicate that holds nowhere in `s` leaves nothing. */
  lemma {:induction false} FilterNone<T>(s: seq<T>, p: T -> bool)
    requires forall x :: x in s ==> !p(x)
    ensures Filter(s, p) == []
  {
    if s != [] {
      FilterNone(s[1..], p);
    }
  }

  /** Filtering with a predicate that holds everywhere in `s` changes nothing. */
  lemma {:induction false} FilterAll<T>(s: seq<T>, p: T -> bool)
    requires forall x :: x in s ==> p(x)
    ensures Filter(s, p) == s
  {
    if s != [] {
      FilterAll(s[1..], p);
    }
  }

  /** Every element satisfies exactly one of `p` and its negation, so the two counts add up. */
  lemma {:induction false} CountSplit<T>(s: seq<T>, p: T -> bool, q: T -> bool)
    requires forall x :: x in s ==> (q(x) <==> !p(x))
    ensures Count(s, p) + Count(s, q) == |s|
  {
    if s != [] {
      CountSplit(s[1..], p, q);
    }
  }

  /** A stronger filter keeps no more elements than a weaker one. */
  lemma {:induction false} CountMonotone<T>(s: seq<T>, p: T -> bool, q: T -> bool)
    requires forall x :: x in s && p(x) ==> q(x)
    ensures Count(s, p) <= Count(s, q)
  {
    if s != [] {
      CountMonotone(s[1..], p, q);
    }
  }

  /** The sum over the elements that pass a filter equals the sum of the masked values. */
  lemma {:induction false} SumFilter<T>(s: seq<T>, p: T -> bool, f: T -> int, g: T -> int)
    requires forall x :: x in s ==> g(x) == (if p(x) then f(x) else 0)
    ensures Sum(Filter(s, p), f) == Sum(s, g)
  {
    if s != [] {
      SumFilter(s[1..], p, f, g);
      if p(s[0]) {
        assert Filter(s, p) == [s[0]] + Filter(s[1..], p);
        assert ([s[0]] + Filter(s[1..], p))[1..] == Filter(s[1..], p);
      } else {
        assert Filter(s, p) == Filter(s[1..], p);
      }
    }
  }

  lemma {:induction false} SumZero<T>(s: seq<T>, f: T -> int)
    requires forall x :: x in s ==> f(x) == 0
    ensures Sum(s, f) == 0
  {
    if s != [] {
      SumZero(s[1..], f);
    }
  }

  /** Two functions that agree on `s` have the same sum over it. */
  lemma {:induction false} SumCongruent<T>(s: seq<T>, f: T -> int, g: T -> int)
    requires forall x :: x in s ==> f(x) == g(x)
    ensures Sum(s, f) == Sum(s, g)
  {
    if s != [] {
      SumCongruent(s[1..], f, g);
    }
  }

  /** The sum of `f + g` is the sum of `f` plus the sum of `g`. */
  lemma {:induction false} SumAdd<T>(s: seq<T>, f: T -> int, g: T -> int, h: T -> int)
    requires forall x :: x in s ==> h(x) == f(x) + g(x)
    ensures Sum(s, h) == Sum(s, f) + Sum(s, g)
  {
    if s != [] {
      SumAdd(s[1..], f, g, h);
    }
  }

  /** Index of the first element of `s` satisfying `p` (Eloquent `first()` on a `where`). */
  function IndexWhere<T>(s: seq<T>, p: T -> bool): (k: Option<nat>)
    ensures k.Some? ==> k.value < |s| && p(s[k.value])
    ensures k.Some? ==> forall j :: 0 <= j < k.value ==> !p(s[j])
    ensures k.None? ==> forall x :: x in s ==> !p(x)
  {
    if s == [] then None
    else if p(s[0]) then Some(0)
    else match IndexWhere(s[1..], p)
      case None => None
      case Some(j) => Some(j + 1)
  }

  /** Every pair of elements, taken in order, satisfies `ok` (a uniqueness constraint when `ok` says "differ"). */
  predicate Pairwise<T>(s: seq<T>, ok: (T, T) -> bool)
  {
    forall i, j :: 0 <= i < j < |s| ==> ok(s[i], s[j])
  }

  /** Two different elements of a pairwise sequence are related one way round or the other. */
  lemma PairwiseElements<T>(s: seq<T>, ok: (T, T) -> bool, a: T, b: T)
    requires Pairwise(s, ok) && a in s && b in s
    ensures a != b ==> ok(a, b) || ok(b, a)
  {
    if a != b {
      var i :| 0 <= i < |s| && s[i] == a;
      var j :| 0 <= j < |s| && s[j] == b;
      if i < j {
        assert ok(s[i], s[j]);
      } else {
        assert ok(s[j], s[i]);
      }
    }
  }

  lemma PairwiseAppend<T>(s: seq<T>, x: T, ok: (T, T) -> bool)
    requires Pairwise(s, ok)
    requires forall y :: y in s ==> ok(y, x)
    ensures Pairwise(s + [x], ok)
  {
    forall i, j | 0 <= i < j < |s + [x]| ensures ok((s + [x])[i], (s + [x])[j]) {
      if j == |s| {
        assert (s + [x])[i] in s;
      }
    }
  }

  /** Removing position `k`: the elements before it keep their positions, the ones after move down by one. */
  lemma RemoveAt<T>(s: seq<T>, k: nat)
    requires k < |s|
    ensures |s[..k] + s[k + 1..]| == |s| - 1
    ensures forall i :: 0 <= i < k ==> (s[..k] + s[k + 1..])[i] == s[i]
    ensures forall i :: k < i < |s| ==> (s[..k] + s[k + 1..])[i - 1] == s[i]
  {
  }

  lemma PairwiseRemove<T>(s: seq<T>, k: nat, ok: (T, T) -> bool)
    requires Pairwise(s, ok) && k < |s|
    ensures Pairwise(s[..k] + s[k + 1..], ok)
  {
    var r := s[..k] + s[k + 1..];
    forall i, j | 0 <= i < j < |r| ensures ok(r[i], r[j]) {
      var i' := if i < k then i else i + 1;
      var j' := if j < k then j else j + 1;
      assert r[i] == s[i'] && r[j] == s[j'];
    }
  }

  lemma {:induction false} PairwiseFilter<T>(s: seq<T>, ok: (T, T) -> bool, p: T -> bool)
    requires Pairwise(s, ok)
    ensures Pairwise(Filter(s, p), ok)
  {
    if s != [] {
      PairwiseFilter(s[1..], ok, p);
      FilterMembers(s[1..], p);
      if p(s[0]) {
        forall y | y in Filter(s[1..], p) ensures ok(s[0], y) {
          FilterElement(s[1..], p, y);
          var k :| 0 <= k < |s[1..]| && s[1..][k] == y;
          assert s[k + 1] == y;
        }
        var f := [s[0]] + Filter(s[1..], p);
        assert f == Filter(s, p);
        forall i, j | 0 <= i < j < |f| ensures ok(f[i], f[j]) {
          if i == 0 {
            assert f[j] in Filter(s[1..], p);
          } else {
            assert f[i] == Filter(s[1..], p)[i - 1] && f[j] == Filter(s[1..], p)[j - 1];
          }
        }
      }
    }
  }

  // ---------------------------------------------------------------------------
  // Grouping by a key (Laravel `groupBy`, a JavaScript object filled by `push`)
  // ---------------------------------------------------------------------------

  /** "has key `k`" as a predicate, so that every bucket is the same filter term. */
  function KeyIs<T, K(==)>(key: T -> K, k: K): T -> bool { x => key(x) == k }

  /** The keys that occur in `s`. */
  function KeySet<T(==), K>(s: seq<T>, key: T -> K): set<K>
  {
    set x | x in s :: key(x)
  }

  /** `groups` holds one bucket per key occurring in `s`: the elements with that key, in order. */
  predicate Bucketed<T(==), K(==)>(s: seq<T>, key: T -> K, groups: map<K, seq<T>>)
  {
    groups.Keys == KeySet(s, key)
    && forall k :: k in groups ==> groups[k] == Filter(s, KeyIs(key, k))
  }

  /** `x` pushed onto the end of bucket `k`, which is created empty first if missing. */
  function AddToBucket<T, K>(groups: map<K, seq<T>>, k: K, x: T): map<K, seq<T>>
  {
    groups[k := (if k in groups then groups[k] else []) + [x]]
  }

  /** Pushing the next element onto its key's bucket keeps the buckets in step with the elements seen. */
  lemma BucketStep<T, K>(prefix: seq<T>, x: T, key: T -> K, groups: map<K, seq<T>>)
    requires Bucketed(prefix, key, groups)
    ensures Bucketed(prefix + [x], key, AddToBucket(groups, key(x), x))
  {
    var next := AddToBucket(groups, key(x), x);
    if key(x) !in groups {
      FilterNone(prefix, KeyIs(key, key(x)));
    }
    forall k | k in next ensures next[k] == Filter(prefix + [x], KeyIs(key, k)) {
      FilterAppend(prefix, [x], KeyIs(key, k));
      if k == key(x) {
        assert Filter([x], KeyIs(key, k)) == [x];
      } else {
        assert Filter([x], KeyIs(key, k)) == [] && k in groups;
      }
    }
    forall y ensures y in KeySet(prefix + [x], key) <==> y in KeySet(prefix, key) || y == key(x) {
      if y in KeySet(prefix + [x], key) {
        var z :| z in prefix + [x] && key(z) == y;
        if z != x {
          assert z in prefix;
        }
      }
      if y in KeySet(prefix, key) {
        var z :| z in prefix && key(z) == y;
        assert z in prefix + [x];
      }
      assert x in prefix + [x];
    }
  }

  /** In a bucketing, no bucket is empty and every element sits in exactly the bucket of its own key. */
  lemma BucketMembers<T, K>(s: seq<T>, key: T -> K, groups: map<K, seq<T>>)
    requires Bucketed(s, key, groups)
    ensures forall k :: k in groups ==> groups[k] != []
    ensures forall x :: x in s ==> key(x) in groups && x in groups[key(x)]
    ensures forall k, x :: k in groups && x in groups[k] ==> x in s && key(x) == k
  {
    forall k | k in groups ensures groups[k] != [] && forall x :: x in groups[k] <==> x in s && key(x) == k {
      FilterMembers(s, KeyIs(key, k));
      var x :| x in s && key(x) == k;
      assert x in groups[k];
    }
    forall x | x in s ensures key(x) in groups {
    }
  }

  /** No key is listed twice. */
  predicate Distinct<K(==)>(ks: seq<K>)
  {
    forall i, j :: 0 <= i < j < |ks| ==> ks[i] != ks[j]
  }

  /** `keys` lists the keys of `groups`, each once. */
  predicate ListsKeys<K(==), V>(keys: seq<K>, groups: map<K, V>)
  {
    && Distinct(keys)
    && (forall i :: 0 <= i < |keys| ==> keys[i] in groups)
    && (forall k :: k in groups ==> k in keys)
  }

  /** Appending a key when its entry is first created keeps the list in step with the map. */
  lemma ListsKeysStep<K, V>(keys: seq<K>, groups: map<K, V>, k: K, v: V)
    requires ListsKeys(keys, groups)
    ensures ListsKeys(if k in groups then keys else keys + [k], groups[k := v])
  {
    if k !in groups {
      var next := keys + [k];
      forall i, j | 0 <= i < j < |next| ensures next[i] != next[j] {
        if j == |keys| {
          assert next[i] in keys;
        }
      }
    }
  }

  /** "has one of the keys `ks`" as a predicate. */
  function KeyIn<T, K(==)>(key: T -> K, ks: seq<K>): T -> bool { x => key(x) in ks }

  /** The sum of `f`, bucket by bucket over the listed keys, each bucket taken from `s`. */
  function SumPerKey<T, K(==)>(s: seq<T>, key: T -> K, ks: seq<K>, f: T -> int): int
  {
    if ks == [] then 0
    else SumPerKey(s, key, ks[..|ks| - 1], f) + Sum(Filter(s, KeyIs(key, ks[|ks| - 1])), f)
  }

  /** Adding the bucket of a new key to the elements of the other keys sums the two separately. */
  lemma {:induction false} SplitKeySum<T, K>(s: seq<T>, key: T -> K, rest: seq<K>, k: K, f: T -> int)
    requires k !in rest
    ensures Sum(Filter(s, KeyIn(key, rest + [k])), f)
         == Sum(Filter(s, KeyIn(key, rest)), f) + Sum(Filter(s, KeyIs(key, k)), f)
  {
    if s != [] {
      SplitKeySum(s[1..], key, rest, k, f);
      var x := s[0];
      var all, others, one := KeyIn(key, rest + [k]), KeyIn(key, rest), KeyIs(key, k);
      assert all(x) <==> others(x) || one(x);
      var hAll := if all(x) then [x] else [];
      var hOthers := if others(x) then [x] else [];
      var hOne := if one(x) then [x] else [];
      SumAppend(hAll, Filter(s[1..], all), f);
      SumAppend(hOthers, Filter(s[1..], others), f);
      SumAppend(hOne, Filter(s[1..], one), f);
    }
  }

  /** Over distinct keys, the per-key sums add up to the sum over the elements having one of the keys. */
  lemma {:induction false} SumPerKeyFilter<T, K>(s: seq<T>, key: T -> K, ks: seq<K>, f: T -> int)
    requires Distinct(ks)
    ensures SumPerKey(s, key, ks, f) == Sum(Filter(s, KeyIn(key, ks)), f)
  {
    if ks == [] {
      FilterNone(s, KeyIn(key, ks));
    } else {
      var rest, k := ks[..|ks| - 1], ks[|ks| - 1];
      SumPerKeyFilter(s, key, rest, f);
      assert ks == rest + [k];
      assert k !in rest;
      SplitKeySum(s, key, rest, k, f);
    }
  }

  /** Over distinct keys that cover every element, the per-key sums add up to the whole sum. */
  lemma SumByKeys<T, K>(s: seq<T>, key: T -> K, ks: seq<K>, f: T -> int)
    requires Distinct(ks)
    requires forall x :: x in s ==> key(x) in ks
    ensures SumPerKey(s, key, ks, f) == Sum(s, f)
  {
    SumPerKeyFilter(s, key, ks, f);
    FilterAll(s, KeyIn(key, ks));
  }

  /** The bucketing of `s` as one value. */
  function GroupBy<T(==), K(==)>(s: seq<T>, key: T -> K): (groups: map<K, seq<T>>)
    ensures Bucketed(s, key, groups)
  {
    map k | k in KeySet(s, key) :: Filter(s, KeyIs(key, k))
  }

  /** Two bucketings of the same elements are the same map. */
  lemma BucketedUnique<T, K>(s: seq<T>, key: T -> K, g1: map<K, seq<T>>, g2: map<K, seq<T>>)
    requires Bucketed(s, key, g1) && Bucketed(s, key, g2)
    ensures g1 == g2
  {
    assert g1.Keys == g2.Keys;
  }

  /** The keys occurring in `s`, in order of first appearance. */
  function KeyOrder<T(==), K(==)>(s: seq<T>, key: T -> K): seq<K>
  {
    if s == [] then []
    else
      var prefix, x := s[..|s| - 1], s[|s| - 1];
      if key(x) in KeySet(prefix, key) then KeyOrder(prefix, key) else KeyOrder(prefix, key) + [key(x)]
  }

  /**
   * One more element: it is pushed onto the end of its key's bucket, and its
   * key is appended to the key order when the bucket is new.
   */
  lemma GroupByStep<T, K>(prefix: seq<T>, x: T, key: T -> K)
    ensures GroupBy(prefix + [x], key) == AddToBucket(GroupBy(prefix, key), key(x), x)
    ensures KeyOrder(prefix + [x], key)
         == if key(x) in GroupBy(prefix, key) then KeyOrder(prefix, key) else KeyOrder(prefix, key) + [key(x)]
  {
    var g := GroupBy(prefix, key);
    BucketStep(prefix, x, key, g);
    BucketedUnique(prefix + [x], key, GroupBy(prefix + [x], key), AddToBucket(g, key(x), x));
    assert (prefix + [x])[..|prefix|] == prefix;
  }

  /** The key order lists every bucket of the grouping exactly once. */
  lemma {:induction false} KeyOrderListsKeys<T, K>(s: seq<T>, key: T -> K)
    ensures ListsKeys(KeyOrder(s, key), GroupBy(s, key))
  {
    if s != [] {
      var prefix, x := s[..|s| - 1], s[|s| - 1];
      var g := GroupBy(prefix, key);
      KeyOrderListsKeys(prefix, key);
      GroupByStep(prefix, x, key);
      assert s == prefix + [x];
      ListsKeysStep(KeyOrder(prefix, key), g, key(x), (if key(x) in g then g[key(x)] else []) + [x]);
    }
  }

  // ---------------------------------------------------------------------------
  // ASCII text helpers (JavaScript's Unicode-aware case mapping and `\s` are
  // narrowed to ASCII)
  // ---------------------------------------------------------------------------

  predicate IsDigit(c: char) { '0' <= c <= '9' }
  predicate IsLowerAscii(c: char) { 'a' <= c <= 'z' }
  predicate IsUpperAscii(c: char) { 'A' <= c <= 'Z' }

  /** ASCII whitespace: space, tab, line feed, vertical tab, form feed, carriage return. */
  predicate IsSpace(c: char)
  {
    c == ' ' || c == '\t' || c == '\n' || c == '\r' || c as int == 11 || c as int == 12
  }

  function LowerChar(c: char): (r: char)
    ensures !IsUpperAscii(r)
    ensures IsUpperAscii(c) ==> r as int == c as int + 32
    ensures !IsUpperAscii(c) ==> r == c
  {
    if IsUpperAscii(c) then (c as int + 32) as char else c
  }

  function UpperChar(c: char): (r: char)
    ensures !IsLowerAscii(r)
    ensures IsLowerAscii(c) ==> r as int == c as int - 32
    ensures !IsLowerAscii(c) ==> r == c
  {
    if IsLowerAscii(c) then (c as int - 32) as char else c
  }

  /** JavaScript `toLowerCase` / PHP `strtolower` restricted to ASCII. */
  function Lower(s: string): (r: string)
    ensures |r| == |s|
    ensures forall i :: 0 <= i < |s| ==> r[i] == LowerChar(s[i])
  {
    if s == [] then [] else [LowerChar(s[0])] + Lower(s[1..])
  }

  /** PHP `strtoupper` restricted to ASCII. */
  function Upper(s: string): (r: string)
    ensures |r| == |s|
    ensures forall i :: 0 <= i < |s| ==> r[i] == UpperChar(s[i])
  {
    if s == [] then [] else [UpperChar(s[0])] + Upper(s[1..])
  }

  /** JavaScript `hay.includes(needle)`: `needle` occurs as a contiguous substring. */
  predicate Contains(hay: string, needle: string)
  {
    needle <= hay || (|hay| > 0 && Contains(hay[1..], needle))
  }

  /** JavaScript `trim` (ASCII whitespace): drops leading and trailing whitespace. */
  function Trim(s: string): (r: string)
  {
    TrimEnd(TrimStart(s))
  }

  function TrimStart(s: string): (r: string)
    ensures |r| <= |s|
    ensures r == s[|s| - |r|..]
    ensures r != [] ==> !IsSpace(r[0])
    ensures forall i :: 0 <= i < |s| - |r| ==> IsSpace(s[i])
  {
    if s != [] && IsSpace(s[0]) then TrimStart(s[1..]) else s
  }

  function TrimEnd(s: string): (r: string)
    ensures |r| <= |s|
    ensures r == s[..|r|]
    ensures r != [] ==> !IsSpace(r[|r| - 1])
    ensures forall i :: |r| <= i < |s| ==> IsSpace(s[i])
  {
    if s != [] && IsSpace(s[|s| - 1]) then TrimEnd(s[..|s| - 1]) else s
  }

  /** Trimming leaves nothing exactly when the string is all whitespace. */
  lemma TrimEmpty(s: string)
    ensures Trim(s) == [] <==> forall i :: 0 <= i < |s| ==> IsSpace(s[i])
  {
    var t := TrimStart(s);
    if t != [] {
      assert !IsSpace(t[0]);
    }
  }

  /** JavaScript `s.replace(/\s/g, '')` (ASCII whitespace). */
  function RemoveSpaces(s: string): (r: string)
    ensures |r| <= |s|
    ensures forall i :: 0 <= i < |r| ==> !IsSpace(r[i])
  {
    if s == [] then [] else (if IsSpace(s[0]) then [] else [s[0]]) + RemoveSpaces(s[1..])
  }

  /** Removing whitespace works piece by piece: the non-whitespace characters keep their order. */
  lemma {:induction false} RemoveSpacesAppend(a: string, b: string)
    ensures RemoveSpaces(a + b) == RemoveSpaces(a) + RemoveSpaces(b)
  {
    if a == [] {
      assert a + b == b;
    } else {
      assert (a + b)[1..] == a[1..] + b;
      RemoveSpacesAppend(a[1..], b);
    }
  }

  /** A string without whitespace comes back unchanged. */
  lemma {:induction false} RemoveSpacesKeepsText(s: string)
    requires forall i :: 0 <= i < |s| ==> !IsSpace(s[i])
    ensures RemoveSpaces(s) == s
  {
    if s != [] {
      RemoveSpacesKeepsText(s[1..]);
    }
  }

  function DigitChar(d: nat): (c: char)
    requires d < 10
    ensures IsDigit(c)
  {
    ('0' as int + d) as char
  }

  /** Decimal rendering of a natural number, as PHP string interpolation and JavaScript `toString` give it. */
  function NatToString(n: nat): (s: string)
    ensures |s| >= 1
    ensures n < 10 ==> |s| == 1
    ensures 10 <= n < 100 ==> |s| == 2
    ensures forall i :: 0 <= i < |s| ==> IsDigit(s[i])
  {
    if n < 10 then [DigitChar(n)] else NatToString(n / 10) + [DigitChar(n % 10)]
  }

  /** The number a string of decimal digits denotes. */
  function DigitsValue(s: string): nat
    requires forall i :: 0 <= i < |s| ==> IsDigit(s[i])
  {
    if s == [] then 0 else DigitsValue(s[..|s| - 1]) * 10 + DigitValue(s[|s| - 1])
  }

  /** Reading back the decimal rendering gives the number: the rendering is injective. */
  lemma {:induction false} NatToStringValue(n: nat)
    ensures DigitsValue(NatToString(n)) == n
  {
    if n >= 10 {
      NatToStringValue(n / 10);
      var s := NatToString(n);
      assert s[..|s| - 1] == NatToString(n / 10);
    }
  }

  /** JavaScript `s.padStart(2, '0')`. */
  function PadStart2(s: string): (r: string)
    ensures |r| == if |s| >= 2 then |s| else 2
  {
    if |s| >= 2 then s else seq(2 - |s|, _ => '0') + s
  }

  /** Two-digit zero-padded rendering, as PHP's `H` and `i` formats and `padStart(2, '0')` give it. */
  function Pad2(n: nat): (s: string)
    requires n < 100
    ensures |s| == 2 && IsDigit(s[0]) && IsDigit(s[1])
  {
    [DigitChar(n / 10), DigitChar(n % 10)]
  }

  /** `n.toString().padStart(2, '0')` is the two-digit rendering for every `n < 100`. */
  lemma PadStartIsPad2(n: nat)
    requires n < 100
    ensures PadStart2(NatToString(n)) == Pad2(n)
  {
    if n >= 10 {
      assert NatToString(n) == NatToString(n / 10) + [DigitChar(n % 10)];
      assert NatToString(n / 10) == [DigitChar(n / 10)];
    }
  }

  // ---------------------------------------------------------------------------
  // Clock and time of day
  // ---------------------------------------------------------------------------

  const SecondsPerDay: nat := 86400

  /** Calendar day (day number) of a timestamp. */
  function DayOf(ts: int): int { ts / SecondsPerDay }

  /** A time of day as PHP's `H:i` format carries it. */
  datatype Time = Time(hour: nat, minute: nat)

  predicate ValidTime(t: Time) { t.hour < 24 && t.minute < 60 }

  function SecondOfDay(t: Time): nat { t.hour * 3600 + t.minute * 60 }

  /** The instant at which time `t` of day `date` begins. */
  function InstantOf(date: int, t: Time): int { date * SecondsPerDay + SecondOfDay(t) }

  /** The `H:i` rendering of a valid time, e.g. "06:00". */
  function FormatHi(t: Time): (s: string)
    requires ValidTime(t)
    ensures |s| == 5 && s[2] == ':'
  {
    Pad2(t.hour) + ":" + Pad2(t.minute)
  }

  function DigitValue(c: char): nat
    requires IsDigit(c)
  {
    c as int - '0' as int
  }

  /**
   * Laravel's `date_format:H:i` rule: the string must be exactly what PHP's `H:i` format
   * prints for some time of day; the time is then read back from it.
   */
  function ParseHi(s: string): (r: Option<Time>)
    ensures r.Some? ==> ValidTime(r.value) && FormatHi(r.value) == s
  {
    if |s| == 5 && IsDigit(s[0]) && IsDigit(s[1]) && s[2] == ':' && IsDigit(s[3]) && IsDigit(s[4]) then
      var h := DigitValue(s[0]) * 10 + DigitValue(s[1]);
      var m := DigitValue(s[3]) * 10 + DigitValue(s[4]);
      if h < 24 && m < 60 then
        assert Pad2(h) == s[0..2];
        assert Pad2(m) == s[3..5];
        assert s == s[0..2] + ":" + s[3..5];
        Some(Time(h, m))
      else None
    else None
  }

  /** Every valid time's `H:i` rendering passes the rule and reads back as that time. */
  lemma ParseFormatHi(t: Time)
    requires ValidTime(t)
    ensures ParseHi(FormatHi(t)) == Some(t)
  {
    var s := FormatHi(t);
    assert DigitValue(s[0]) == t.hour / 10 && DigitValue(s[1]) == t.hour % 10;
    assert DigitValue(s[3]) == t.minute / 10 && DigitValue(s[4]) == t.minute % 10;
  }

  /** `(int) substr(s, 0, 2)`: the hour PHP reads from a string that passed `date_format:H:i`. */
  function LeadingHour(s: string): nat
    requires |s| >= 2 && IsDigit(s[0]) && IsDigit(s[1])
  {
    DigitValue(s[0]) * 10 + DigitValue(s[1])
  }

  lemma LeadingHourOfParsed(s: string)
    requires ParseHi(s).Some?
    ensures LeadingHour(s) == ParseHi(s).value.hour
  {
  }

  /** An instant is earlier than `now` exactly when its day is earlier, or it is the same day and an earlier second. */
  lemma InstantBefore(date: int, t: Time, now: int)
    requires ValidTime(t)
    ensures InstantOf(date, t) < now <==>
      date < DayOf(now) || (date == DayOf(now) && SecondOfDay(t) < now % SecondsPerDay)
  {
    assert now == DayOf(now) * SecondsPerDay + now % SecondsPerDay;
    assert 0 <= SecondOfDay(t) < SecondsPerDay;
  }
}
