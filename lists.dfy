/** The two Python list idioms the format classifier is built from:
    `next((f for f in s if p(f)), default)` and the stable
    `s.sort(key=key, reverse=True)`. */
module Lists {
  import opened Wrappers

  // ---------------------------------------------------------------------------
  // next(...) over a generator
  // ---------------------------------------------------------------------------

  /** The index of the first element satisfying `p`, if there is one. */
  function Find<T>(s: seq<T>, p: T -> bool): (r: Option<nat>)
    ensures r.Some? ==> r.value < |s| && p(s[r.value]) && forall j :: 0 <= j < r.value ==> !p(s[j])
    ensures r.None? ==> forall j :: 0 <= j < |s| ==> !p(s[j])
  {
    if s == [] then None
    else if p(s[0]) then Some(0)
    else match Find(s[1..], p)
      case Some(i) => Some(i + 1)
      case None => None
  }

  /** An element satisfying `p` with none before it is the one `Find` returns. */
  lemma FindFirst<T>(s: seq<T>, p: T -> bool, i: int)
    requires 0 <= i < |s| && p(s[i]) && forall j :: 0 <= j < i ==> !p(s[j])
    ensures Find(s, p) == Some(i)
  {
  }

  /** `next((f for f in s if p(f)), default)`. */
  function Next<T>(s: seq<T>, p: T -> bool, default: T): (r: T)
    ensures r in s || r == default
    ensures (exists i :: 0 <= i < |s| && p(s[i])) ==> r in s && p(r)
    ensures (forall i :: 0 <= i < |s| ==> !p(s[i])) ==> r == default
    ensures Find(s, p).Some? ==> r == s[Find(s, p).value]
  {
    match Find(s, p)
    case Some(i) => s[i]
    case None => default
  }

  // ---------------------------------------------------------------------------
  // list.sort(key=..., reverse=True)
  // ---------------------------------------------------------------------------

  /** A sort key: a pair compared lexicographically, as Python compares tuples. */
  datatype Key = Key(major: real, minor: real)

  predicate KeyLess(a: Key, b: Key) {
    a.major < b.major || (a.major == b.major && a.minor < b.minor)
  }

  /** Keys never increase from left to right. */
  predicate SortedDesc<T>(s: seq<T>, key: T -> Key) {
    forall i, j :: 0 <= i < j < |s| ==> !KeyLess(key(s[i]), key(s[j]))
  }

  /** Puts `x` in front of the first element whose key is not greater than its own. */
  function Insert<T>(x: T, s: seq<T>, key: T -> Key): seq<T> {
    if s == [] || !KeyLess(key(x), key(s[0])) then [x] + s
    else [s[0]] + Insert(x, s[1..], key)
  }

  /** The list after `sort(key=key, reverse=True)`: inserting each element in front of
      the equal keys that came after it keeps equal keys in their original order. */
  function SortDesc<T>(s: seq<T>, key: T -> Key): seq<T> {
    if s == [] then [] else Insert(s[0], SortDesc(s[1..], key), key)
  }

  /** The elements whose key is `k`, in their order. */
  function WithKey<T>(s: seq<T>, key: T -> Key, k: Key): seq<T> {
    if s == [] then [] else (if key(s[0]) == k then [s[0]] else []) + WithKey(s[1..], key, k)
  }

  lemma SortedDescTail<T>(s: seq<T>, key: T -> Key)
    requires s != [] && SortedDesc(s, key)
    ensures SortedDesc(s[1..], key)
  {
    forall i, j | 0 <= i < j < |s[1..]|
      ensures !KeyLess(key(s[1..][i]), key(s[1..][j]))
    {
      assert s[1..][i] == s[i + 1] && s[1..][j] == s[j + 1];
    }
  }

  lemma {:induction false} InsertPermutes<T>(x: T, s: seq<T>, key: T -> Key)
    ensures multiset(Insert(x, s, key)) == multiset(s) + multiset{x}
  {
    if s != [] && KeyLess(key(x), key(s[0])) {
      InsertPermutes(x, s[1..], key);
      assert s == [s[0]] + s[1..];
    }
  }

  lemma {:induction false} InsertSorted<T>(x: T, s: seq<T>, key: T -> Key)
    requires SortedDesc(s, key)
    ensures SortedDesc(Insert(x, s, key), key)
  {
    var r := Insert(x, s, key);
    if s == [] || !KeyLess(key(x), key(s[0])) {
      forall i, j | 0 <= i < j < |r|
        ensures !KeyLess(key(r[i]), key(r[j]))
      {
        assert r[j] == s[j - 1];
        if i > 0 {
          assert r[i] == s[i - 1];
        } else if j > 1 {
          assert !KeyLess(key(s[0]), key(s[j - 1]));
        }
      }
    } else {
      var t := Insert(x, s[1..], key);
      SortedDescTail(s, key);
      InsertSorted(x, s[1..], key);
      InsertPermutes(x, s[1..], key);
      assert r == [s[0]] + t;
      forall i, j | 0 <= i < j < |r|
        ensures !KeyLess(key(r[i]), key(r[j]))
      {
        if i > 0 {
          assert r[i] == t[i - 1] && r[j] == t[j - 1];
        } else {
          var e := t[j - 1];
          assert e in multiset(t);
          if e != x {
            assert e in multiset(s[1..]);
            var k :| 0 <= k < |s[1..]| && s[1..][k] == e;
            assert s[k + 1] == e;
          }
        }
      }
    }
  }

  /** The sorted list holds the same elements, each as often. */
  lemma {:induction false} SortDescPermutes<T>(s: seq<T>, key: T -> Key)
    ensures multiset(SortDesc(s, key)) == multiset(s)
  {
    if s != [] {
      SortDescPermutes(s[1..], key);
      InsertPermutes(s[0], SortDesc(s[1..], key), key);
      assert s == [s[0]] + s[1..];
    }
  }

  /** Sorting keeps the length and the set of elements. */
  lemma SortDescMembers<T>(s: seq<T>, key: T -> Key)
    ensures |SortDesc(s, key)| == |s|
    ensures forall x :: x in SortDesc(s, key) <==> x in s
  {
    SortDescPermutes(s, key);
    assert |multiset(SortDesc(s, key))| == |multiset(s)|;
    forall x ensures x in SortDesc(s, key) <==> x in s {
      assert x in SortDesc(s, key) <==> x in multiset(SortDesc(s, key));
      assert x in s <==> x in multiset(s);
    }
  }

  /** The sorted list's keys never increase. */
  lemma {:induction false} SortDescSorted<T>(s: seq<T>, key: T -> Key)
    ensures SortedDesc(SortDesc(s, key), key)
  {
    if s != [] {
      SortDescSorted(s[1..], key);
      InsertSorted(s[0], SortDesc(s[1..], key), key);
    }
  }

  lemma {:induction false} InsertWithKey<T>(x: T, s: seq<T>, key: T -> Key, k: Key)
    ensures WithKey(Insert(x, s, key), key, k) == (if key(x) == k then [x] else []) + WithKey(s, key, k)
  {
    if s == [] || !KeyLess(key(x), key(s[0])) {
      assert ([x] + s)[1..] == s;
    } else {
      InsertWithKey(x, s[1..], key, k);
      var r := Insert(x, s, key);
      assert r[0] == s[0] && r[1..] == Insert(x, s[1..], key);
      assert key(s[0]) != key(x);
    }
  }

  /** Stability: elements with equal keys keep their original relative order. */
  lemma {:induction false} SortDescStable<T>(s: seq<T>, key: T -> Key, k: Key)
    ensures WithKey(SortDesc(s, key), key, k) == WithKey(s, key, k)
  {
    if s != [] {
      SortDescStable(s[1..], key, k);
      InsertWithKey(s[0], SortDesc(s[1..], key), key, k);
    }
  }

  /** In a descending list, an earlier element's key is at least a later one's. */
  lemma SortedDescMajor<T>(s: seq<T>, key: T -> Key, i: int, j: int)
    requires SortedDesc(s, key) && 0 <= i <= j < |s|
    ensures key(s[i]).major >= key(s[j]).major
  {
    if i < j {
      assert !KeyLess(key(s[i]), key(s[j]));
    }
  }

  /** In a descending list, the first element satisfying `p` has the greatest key among them. */
  lemma FindIsBest<T>(s: seq<T>, key: T -> Key, p: T -> bool, j: int)
    requires SortedDesc(s, key) && Find(s, p).Some?
    requires 0 <= j < |s| && p(s[j])
    ensures Find(s, p).value <= j
    ensures !KeyLess(key(s[Find(s, p).value]), key(s[j]))
  {
    var i := Find(s, p).value;
    if i < j {
      assert !KeyLess(key(s[i]), key(s[j]));
    }
  }
}
