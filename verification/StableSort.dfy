/** A stable sort by a real-valued key, which is what the standard library's `sort_by`
    computes when no key is NaN.  `StableSortUnique` shows that being sorted and keeping
    every class of equal keys in order leaves exactly one answer, so nothing below
    depends on the sorting algorithm.  `RankOfDownSet` turns statements about positions
    in the sorted sequence into statements about how many elements satisfy a predicate. */
module StableSort {

  ghost predicate SortedBy<T>(key: T -> real, s: seq<T>) {
    forall i, j :: 0 <= i < j < |s| ==> key(s[i]) <= key(s[j])
  }

  function Insert<T>(key: T -> real, x: T, s: seq<T>): (r: seq<T>)
    ensures |r| == |s| + 1
  {
    if |s| == 0 || key(x) <= key(s[0]) then [x] + s
    else [s[0]] + Insert(key, x, s[1..])
  }

  function SortBy<T>(key: T -> real, s: seq<T>): (r: seq<T>)
    ensures |r| == |s|
  {
    if |s| == 0 then [] else Insert(key, s[0], SortBy(key, s[1..]))
  }

  /** How many elements satisfy `p`. */
  function Count<T>(p: T -> bool, s: seq<T>): (n: nat)
    ensures n <= |s|
  {
    if |s| == 0 then 0 else (if p(s[0]) then 1 else 0) + Count(p, s[1..])
  }

  /** The elements with key `v`, in the order in which they occur. */
  function KeyClass<T>(key: T -> real, v: real, s: seq<T>): seq<T> {
    if |s| == 0 then []
    else (if key(s[0]) == v then [s[0]] else []) + KeyClass(key, v, s[1..])
  }

  function Map<T, U>(g: T -> U, s: seq<T>): (r: seq<U>)
    ensures |r| == |s|
    ensures forall i :: 0 <= i < |s| ==> r[i] == g(s[i])
  {
    if |s| == 0 then [] else [g(s[0])] + Map(g, s[1..])
  }

  // ----- the result is a sorted permutation of the input

  lemma {:induction false} InsertContents<T>(key: T -> real, x: T, s: seq<T>)
    ensures multiset(Insert(key, x, s)) == multiset{x} + multiset(s)
  {
    if |s| == 0 || key(x) <= key(s[0]) {
    } else {
      InsertContents(key, x, s[1..]);
      assert s == [s[0]] + s[1..];
    }
  }

  lemma {:induction false} SortContents<T>(key: T -> real, s: seq<T>)
    ensures multiset(SortBy(key, s)) == multiset(s)
  {
    if |s| > 0 {
      SortContents(key, s[1..]);
      InsertContents(key, s[0], SortBy(key, s[1..]));
      assert s == [s[0]] + s[1..];
    }
  }

  lemma {:induction false} InsertSorted<T>(key: T -> real, x: T, s: seq<T>)
    requires SortedBy(key, s)
    ensures SortedBy(key, Insert(key, x, s))
  {
    if |s| == 0 || key(x) <= key(s[0]) {
    } else {
      var r := Insert(key, x, s[1..]);
      InsertSorted(key, x, s[1..]);
      InsertContents(key, x, s[1..]);
      forall i | 0 <= i < |r| ensures key(s[0]) <= key(r[i]) {
        assert r[i] in multiset(r);
      }
    }
  }

  lemma {:induction false} SortSorted<T>(key: T -> real, s: seq<T>)
    ensures SortedBy(key, SortBy(key, s))
  {
    if |s| > 0 {
      SortSorted(key, s[1..]);
      InsertSorted(key, s[0], SortBy(key, s[1..]));
    }
  }

  // ----- stability, and uniqueness of the stable result

  ghost predicate SameClasses<T>(key: T -> real, a: seq<T>, b: seq<T>) {
    forall v :: KeyClass(key, v, a) == KeyClass(key, v, b)
  }

  lemma {:induction false} InsertKeyClass<T>(key: T -> real, v: real, x: T, s: seq<T>)
    requires SortedBy(key, s)
    ensures KeyClass(key, v, Insert(key, x, s)) == KeyClass(key, v, [x]) + KeyClass(key, v, s)
  {
    if |s| == 0 || key(x) <= key(s[0]) {
      assert ([x] + s)[1..] == s;
    } else {
      InsertKeyClass(key, v, x, s[1..]);
      var r := Insert(key, x, s[1..]);
      assert ([s[0]] + r)[1..] == r;
    }
  }

  lemma {:induction false} SortStable<T>(key: T -> real, v: real, s: seq<T>)
    ensures KeyClass(key, v, SortBy(key, s)) == KeyClass(key, v, s)
  {
    if |s| > 0 {
      SortStable(key, v, s[1..]);
      SortSorted(key, s[1..]);
      InsertKeyClass(key, v, s[0], SortBy(key, s[1..]));
      assert [s[0]][1..] == [];
    }
  }

  lemma {:induction false} KeyClassBound<T>(key: T -> real, v: real, s: seq<T>, least: real)
    requires forall i :: 0 <= i < |s| ==> least <= key(s[i])
    requires |KeyClass(key, v, s)| > 0
    ensures |s| > 0 && least <= v
  {
    if key(s[0]) != v {
      KeyClassBound(key, v, s[1..], least);
    }
  }

  lemma SameFirst<T>(key: T -> real, a: seq<T>, b: seq<T>)
    requires SortedBy(key, a) && |a| > 0
    requires SortedBy(key, b) && |b| > 0
    requires SameClasses(key, a, b)
    ensures a[0] == b[0]
  {
    var va, vb := key(a[0]), key(b[0]);
    assert KeyClass(key, va, a) == KeyClass(key, va, b);
    assert KeyClass(key, vb, a) == KeyClass(key, vb, b);
    KeyClassBound(key, va, b, vb);
    KeyClassBound(key, vb, a, va);
    assert KeyClass(key, va, a)[0] == a[0] && KeyClass(key, va, b)[0] == b[0];
  }

  lemma SameRest<T>(key: T -> real, v: real, a: seq<T>, b: seq<T>)
    requires |a| > 0 && |b| > 0 && a[0] == b[0]
    requires KeyClass(key, v, a) == KeyClass(key, v, b)
    ensures KeyClass(key, v, a[1..]) == KeyClass(key, v, b[1..])
  {
    if key(a[0]) == v {
      assert KeyClass(key, v, a[1..]) == KeyClass(key, v, a)[1..];
      assert KeyClass(key, v, b[1..]) == KeyClass(key, v, b)[1..];
    } else {
      assert KeyClass(key, v, a[1..]) == KeyClass(key, v, a);
      assert KeyClass(key, v, b[1..]) == KeyClass(key, v, b);
    }
  }

  lemma SameLength<T>(key: T -> real, a: seq<T>, b: seq<T>)
    requires SameClasses(key, a, b)
    ensures |a| > 0 ==> |b| > 0
  {
    if |a| > 0 {
      var v := key(a[0]);
      assert KeyClass(key, v, a) == KeyClass(key, v, b);
      assert |KeyClass(key, v, a)| > 0;
    }
  }

  /** Sorted sequences with the same classes of equal keys, each in the same order, are equal. */
  lemma {:induction false} StableSortUnique<T>(key: T -> real, a: seq<T>, b: seq<T>)
    requires SortedBy(key, a) && SortedBy(key, b)
    requires SameClasses(key, a, b)
    ensures a == b
  {
    SameLength(key, a, b);
    SameLength(key, b, a);
    if |a| > 0 {
      SameFirst(key, a, b);
      forall v ensures KeyClass(key, v, a[1..]) == KeyClass(key, v, b[1..]) {
        SameRest(key, v, a, b);
      }
      StableSortUnique(key, a[1..], b[1..]);
      assert a == [a[0]] + a[1..] && b == [b[0]] + b[1..];
    }
  }

  /** A sequence is the computed one exactly when it is sorted and keeps every class of
      equal keys in its original order. */
  lemma StableSortCharacterised<T>(key: T -> real, s: seq<T>, r: seq<T>)
    ensures r == SortBy(key, s) <==> SortedBy(key, r) && SameClasses(key, r, s)
  {
    SortSorted(key, s);
    forall v ensures KeyClass(key, v, SortBy(key, s)) == KeyClass(key, v, s) {
      SortStable(key, v, s);
    }
    assert SameClasses(key, SortBy(key, s), s);
    if SortedBy(key, r) && SameClasses(key, r, s) {
      forall v ensures KeyClass(key, v, r) == KeyClass(key, v, SortBy(key, s)) {
        assert KeyClass(key, v, r) == KeyClass(key, v, s);
      }
      StableSortUnique(key, r, SortBy(key, s));
    }
  }

  ghost predicate KeysIdentify<T>(key: T -> real, s: seq<T>) {
    forall x, y :: x in s && y in s && key(x) == key(y) ==> x == y
  }

  lemma SameContentsFirst<T>(key: T -> real, a: seq<T>, b: seq<T>)
    requires SortedBy(key, a) && SortedBy(key, b) && multiset(a) == multiset(b)
    requires KeysIdentify(key, a) && |a| > 0 && |b| > 0
    ensures a[0] == b[0]
  {
    assert a[0] in multiset(b) && b[0] in multiset(a);
    var i :| 0 <= i < |b| && b[i] == a[0];
    var j :| 0 <= j < |a| && a[j] == b[0];
    assert key(a[0]) <= key(a[j]) && key(b[0]) <= key(b[i]);
  }

  lemma RestContents<T>(a: seq<T>, b: seq<T>)
    requires |a| > 0 && |b| > 0 && a[0] == b[0] && multiset(a) == multiset(b)
    ensures multiset(a[1..]) == multiset(b[1..])
  {
    assert a == [a[0]] + a[1..] && b == [b[0]] + b[1..];
    assert multiset(a) == multiset{a[0]} + multiset(a[1..]);
    assert multiset(b) == multiset{a[0]} + multiset(b[1..]);
    assert multiset(a[1..]) == multiset(a) - multiset{a[0]};
  }

  lemma SameLengths<T>(a: seq<T>, b: seq<T>)
    requires multiset(a) == multiset(b)
    ensures |a| == |b|
  {
    assert |a| == |multiset(a)| == |multiset(b)| == |b|;
  }

  /** When equal keys mean equal elements, the contents alone decide the sorted sequence. */
  lemma {:induction false} SortedPermutationUnique<T>(key: T -> real, a: seq<T>, b: seq<T>)
    requires SortedBy(key, a) && SortedBy(key, b) && multiset(a) == multiset(b)
    requires KeysIdentify(key, a)
    ensures a == b
  {
    SameLengths(a, b);
    if |a| > 0 {
      SameContentsFirst(key, a, b);
      RestContents(a, b);
      assert SortedBy(key, a[1..]) && SortedBy(key, b[1..]) && KeysIdentify(key, a[1..]);
      SortedPermutationUnique(key, a[1..], b[1..]);
      assert a == [a[0]] + a[1..] && b == [b[0]] + b[1..];
    }
  }

  lemma SortOfPermutation<T>(key: T -> real, a: seq<T>, b: seq<T>)
    requires multiset(a) == multiset(b) && KeysIdentify(key, a)
    ensures SortBy(key, a) == SortBy(key, b)
  {
    SortSorted(key, a);
    SortSorted(key, b);
    SortContents(key, a);
    SortContents(key, b);
    forall x, y | x in SortBy(key, a) && y in SortBy(key, a) && key(x) == key(y) ensures x == y {
      assert x in multiset(a) && y in multiset(a);
    }
    SortedPermutationUnique(key, SortBy(key, a), SortBy(key, b));
  }

  ghost predicate KeepsOrder<T(!new), U>(key: T -> real, key': U -> real, g: T -> U) {
    forall a, b :: key(a) <= key(b) <==> key'(g(a)) <= key'(g(b))
  }

  lemma {:induction false} InsertMap<T(!new), U>(key: T -> real, key': U -> real, g: T -> U, x: T, s: seq<T>)
    requires KeepsOrder(key, key', g)
    ensures Insert(key', g(x), Map(g, s)) == Map(g, Insert(key, x, s))
  {
    if |s| == 0 || key(x) <= key(s[0]) {
      assert ([x] + s)[1..] == s;
    } else {
      InsertMap(key, key', g, x, s[1..]);
      assert Map(g, s)[1..] == Map(g, s[1..]);
    }
  }

  /** Sorting commutes with any change of elements that keeps the order of the keys. */
  lemma {:induction false} SortMap<T(!new), U>(key: T -> real, key': U -> real, g: T -> U, s: seq<T>)
    requires KeepsOrder(key, key', g)
    ensures SortBy(key', Map(g, s)) == Map(g, SortBy(key, s))
  {
    hide KeepsOrder;
    if |s| > 0 {
      SortMap(key, key', g, s[1..]);
      assert Map(g, s)[1..] == Map(g, s[1..]);
      InsertMap(key, key', g, s[0], SortBy(key, s[1..]));
    }
  }

  // ----- counting

  lemma {:induction false} CountInsert<T>(key: T -> real, p: T -> bool, x: T, s: seq<T>)
    ensures Count(p, Insert(key, x, s)) == (if p(x) then 1 else 0) + Count(p, s)
  {
    if |s| == 0 || key(x) <= key(s[0]) {
      assert ([x] + s)[1..] == s;
    } else {
      CountInsert(key, p, x, s[1..]);
      var r := Insert(key, x, s[1..]);
      assert ([s[0]] + r)[1..] == r;
    }
  }

  lemma {:induction false} CountSort<T>(key: T -> real, p: T -> bool, s: seq<T>)
    ensures Count(p, SortBy(key, s)) == Count(p, s)
  {
    if |s| > 0 {
      CountSort(key, p, s[1..]);
      CountInsert(key, p, s[0], SortBy(key, s[1..]));
    }
  }

  lemma {:induction false} CountPrefix<T>(p: T -> bool, s: seq<T>, k: nat)
    requires k <= |s|
    ensures Count(p, s[..k]) <= Count(p, s)
  {
    if k > 0 {
      CountPrefix(p, s[1..], k - 1);
      assert s[..k][1..] == s[1..][..k - 1];
    }
  }

  lemma {:induction false} CountPointwise<T, U>(p: T -> bool, q: U -> bool, a: seq<T>, b: seq<U>)
    requires |a| == |b|
    requires forall i :: 0 <= i < |a| ==> p(a[i]) ==> q(b[i])
    ensures Count(p, a) <= Count(q, b)
  {
    if |a| > 0 {
      CountPointwise(p, q, a[1..], b[1..]);
    }
  }

  lemma {:induction false} CountComplement<T>(p: T -> bool, q: T -> bool, s: seq<T>)
    requires forall i :: 0 <= i < |s| ==> (p(s[i]) || q(s[i]))
    ensures Count(p, s) + Count(q, s) >= |s|
  {
    if |s| > 0 {
      CountComplement(p, q, s[1..]);
    }
  }

  lemma {:induction false} CountExclusive<T, U>(p: T -> bool, q: U -> bool, a: seq<T>, b: seq<U>)
    requires |a| == |b|
    requires forall i :: 0 <= i < |a| ==> !(p(a[i]) && q(b[i]))
    ensures Count(p, a) + Count(q, b) <= |a|
  {
    if |a| > 0 {
      CountExclusive(p, q, a[1..], b[1..]);
    }
  }

  lemma {:induction false} CountNone<T>(p: T -> bool, s: seq<T>)
    requires forall i :: 0 <= i < |s| ==> !p(s[i])
    ensures Count(p, s) == 0
  {
    if |s| > 0 {
      CountNone(p, s[1..]);
    }
  }

  /** A predicate that passes from larger keys to smaller ones. */
  ghost predicate DownSet<T(!new)>(key: T -> real, p: T -> bool) {
    forall x, y :: p(x) && key(y) <= key(x) ==> p(y)
  }

  /** In a sorted sequence the elements of a down-set are the first `Count` ones. */
  lemma {:induction false} RankOfDownSet<T(!new)>(key: T -> real, p: T -> bool, s: seq<T>, i: nat)
    requires SortedBy(key, s) && DownSet(key, p) && i < |s|
    ensures p(s[i]) <==> i < Count(p, s)
  {
    if !p(s[0]) {
      forall j | 0 <= j < |s| ensures !p(s[j]) {
        assert key(s[0]) <= key(s[j]);
      }
      CountNone(p, s);
    } else if i > 0 {
      RankOfDownSet(key, p, s[1..], i - 1);
    }
  }

  /** The order-statistic bound.  If at most `f` elements have a key outside [lo, hi], the
      element at sorted position i has a key inside it, provided f <= i and f < |s| - i. */
  lemma OrderStatisticInBand<T(!new)>(key: T -> real, s: seq<T>, outside: T -> bool, lo: real, hi: real, f: nat, i: nat)
    requires forall x :: !outside(x) ==> lo <= key(x) <= hi
    requires Count(outside, s) <= f <= i && i + f < |s|
    ensures lo <= key(SortBy(key, s)[i]) <= hi
  {
    var r := SortBy(key, s);
    SortSorted(key, s);
    var below := (x: T) => key(x) < lo;
    var upTo := (x: T) => key(x) <= hi;
    CountSort(key, below, s);
    CountSort(key, upTo, s);
    CountPointwise(below, outside, s, s);
    CountComplement(upTo, outside, s);
    RankOfDownSet(key, below, r, i);
    RankOfDownSet(key, upTo, r, i);
  }
}
