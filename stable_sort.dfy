/** A stable sort by a natural-number key, as Python's `sorted(xs, key=...)`:
    ascending keys, and elements with equal keys keep their input order. */
module StableSort {

  /** Puts x in front of the first element whose key is at least x's. */
  function InsertByKey<T>(x: T, s: seq<T>, key: T -> nat): (r: seq<T>)
    ensures |r| == |s| + 1
  {
    if s == [] then [x]
    else if key(x) <= key(s[0]) then [x] + s
    else [s[0]] + InsertByKey(x, s[1..], key)
  }

  /** Insertion sort from the back: the first element goes in last, in front of its equals. */
  function SortByKey<T>(s: seq<T>, key: T -> nat): (r: seq<T>)
    ensures |r| == |s|
  {
    if s == [] then [] else InsertByKey(s[0], SortByKey(s[1..], key), key)
  }

  predicate SortedByKey<T>(s: seq<T>, key: T -> nat)
  {
    forall i, j :: 0 <= i < j < |s| ==> key(s[i]) <= key(s[j])
  }

  /** The elements whose key is k, in their order in s. */
  function WithKey<T>(s: seq<T>, key: T -> nat, k: nat): seq<T>
  {
    if s == [] then []
    else (if key(s[0]) == k then [s[0]] else []) + WithKey(s[1..], key, k)
  }

  lemma WithKeyCons<T>(h: T, t: seq<T>, key: T -> nat, k: nat)
    ensures WithKey([h] + t, key, k) == (if key(h) == k then [h] else []) + WithKey(t, key, k)
  {
    assert ([h] + t)[0] == h;
    assert ([h] + t)[1..] == t;
  }

  /** Every element of s has a key of at least b. */
  ghost predicate KeysAtLeast<T>(s: seq<T>, key: T -> nat, b: nat)
  {
    forall y :: y in s ==> b <= key(y)
  }

  lemma SortedCons<T>(h: T, t: seq<T>, key: T -> nat)
    requires SortedByKey(t, key)
    requires KeysAtLeast(t, key, key(h))
    ensures SortedByKey([h] + t, key)
  {
    forall i, j | 0 <= i < j < |t| + 1
      ensures key(([h] + t)[i]) <= key(([h] + t)[j])
    {
      assert ([h] + t)[j] == t[j - 1];
      if i > 0 {
        assert ([h] + t)[i] == t[i - 1];
      } else {
        assert t[j - 1] in t;
      }
    }
  }

  lemma {:induction false} InsertMultiset<T>(x: T, s: seq<T>, key: T -> nat)
    ensures multiset(InsertByKey(x, s, key)) == multiset(s) + multiset{x}
  {
    if s != [] {
      assert s == [s[0]] + s[1..];
      if key(x) > key(s[0]) {
        InsertMultiset(x, s[1..], key);
      }
    }
  }

  lemma InsertLowerBound<T>(x: T, s: seq<T>, key: T -> nat, b: nat)
    requires b <= key(x)
    requires KeysAtLeast(s, key, b)
    ensures KeysAtLeast(InsertByKey(x, s, key), key, b)
  {
    InsertMultiset(x, s, key);
    var r := InsertByKey(x, s, key);
    forall y | y in r
      ensures b <= key(y)
    {
      assert y in multiset(r);
      assert y == x || y in multiset(s);
    }
  }

  lemma {:induction false} InsertKeepsSorted<T>(x: T, s: seq<T>, key: T -> nat)
    requires SortedByKey(s, key)
    ensures SortedByKey(InsertByKey(x, s, key), key)
  {
    if s == [] {
    } else if key(x) <= key(s[0]) {
      assert KeysAtLeast(s, key, key(x)) by {
        forall y | y in s
          ensures key(x) <= key(y)
        {
          var i :| 0 <= i < |s| && s[i] == y;
          assert key(s[0]) <= key(s[i]);
        }
      }
      SortedCons(x, s, key);
    } else {
      var t := s[1..];
      assert SortedByKey(t, key) by {
        assert forall i :: 0 <= i < |t| ==> t[i] == s[i + 1];
      }
      assert KeysAtLeast(t, key, key(s[0])) by {
        forall y | y in t
          ensures key(s[0]) <= key(y)
        {
          var i :| 0 <= i < |t| && t[i] == y;
          assert t[i] == s[i + 1];
        }
      }
      InsertKeepsSorted(x, t, key);
      InsertLowerBound(x, t, key, key(s[0]));
      SortedCons(s[0], InsertByKey(x, t, key), key);
    }
  }

  lemma {:induction false} InsertWithKey<T>(x: T, s: seq<T>, key: T -> nat, k: nat)
    ensures WithKey(InsertByKey(x, s, key), key, k)
         == (if key(x) == k then [x] else []) + WithKey(s, key, k)
  {
    if s == [] {
      WithKeyCons(x, s, key, k);
    } else if key(x) <= key(s[0]) {
      WithKeyCons(x, s, key, k);
    } else {
      var t := s[1..];
      var r := InsertByKey(x, t, key);
      assert InsertByKey(x, s, key) == [s[0]] + r;
      InsertWithKey(x, t, key, k);
      WithKeyCons(s[0], r, key, k);
      WithKeyCons(s[0], t, key, k);
      assert [s[0]] + t == s;
      if key(x) == k {
        assert WithKey(InsertByKey(x, s, key), key, k) == [x] + WithKey(t, key, k);
      } else {
        assert WithKey(InsertByKey(x, s, key), key, k)
            == (if key(s[0]) == k then [s[0]] else []) + WithKey(t, key, k);
      }
    }
  }

  /** `sorted` puts the keys in ascending order and loses or adds nothing. */
  lemma {:induction false} SortSortsAndPermutes<T>(s: seq<T>, key: T -> nat)
    ensures SortedByKey(SortByKey(s, key), key)
    ensures multiset(SortByKey(s, key)) == multiset(s)
  {
    if s != [] {
      SortSortsAndPermutes(s[1..], key);
      InsertKeepsSorted(s[0], SortByKey(s[1..], key), key);
      InsertMultiset(s[0], SortByKey(s[1..], key), key);
      assert s == [s[0]] + s[1..];
    }
  }

  /** The ends of a sorted list bound the key of each of its elements. */
  lemma SortedEnds<T>(t: seq<T>, key: T -> nat, x: T)
    requires SortedByKey(t, key) && x in multiset(t)
    ensures key(t[0]) <= key(x) <= key(t[|t| - 1])
  {
    var m :| 0 <= m < |t| && t[m] == x;
    if 0 < m {
      assert key(t[0]) <= key(t[m]);
    }
    if m < |t| - 1 {
      assert key(t[m]) <= key(t[|t| - 1]);
    }
  }

  /** `sorted` is stable: the elements of any one key keep their input order. */
  lemma {:induction false} SortIsStable<T>(s: seq<T>, key: T -> nat, k: nat)
    ensures WithKey(SortByKey(s, key), key, k) == WithKey(s, key, k)
  {
    if s != [] {
      SortIsStable(s[1..], key, k);
      InsertWithKey(s[0], SortByKey(s[1..], key), key, k);
    }
  }

  /** An element appended at the end is the last of its key. */
  lemma WithKeySnoc<T>(init: seq<T>, x: T, key: T -> nat)
    ensures WithKey(init + [x], key, key(x)) == WithKey(init, key, key(x)) + [x]
  {
    WithKeyAppend(init, [x], key, key(x));
    WithKeyCons(x, [], key, key(x));
    assert [x] + [] == [x];
  }

  lemma {:induction false} WithKeyAppend<T>(a: seq<T>, b: seq<T>, key: T -> nat, k: nat)
    ensures WithKey(a + b, key, k) == WithKey(a, key, k) + WithKey(b, key, k)
  {
    if a == [] {
      assert a + b == b;
    } else {
      var h := if key(a[0]) == k then [a[0]] else [];
      assert a + b == [a[0]] + (a[1..] + b);
      assert [a[0]] + a[1..] == a;
      WithKeyAppend(a[1..], b, key, k);
      calc {
        WithKey(a + b, key, k);
        { WithKeyCons(a[0], a[1..] + b, key, k); }
        h + WithKey(a[1..] + b, key, k);
        h + (WithKey(a[1..], key, k) + WithKey(b, key, k));
        (h + WithKey(a[1..], key, k)) + WithKey(b, key, k);
        { WithKeyCons(a[0], a[1..], key, k); }
        WithKey(a, key, k) + WithKey(b, key, k);
      }
    }
  }
}
