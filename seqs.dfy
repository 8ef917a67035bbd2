/** Sequence operations shared by the query pipelines: filtering, prefixes and a stable
    descending sort, the Dafny counterparts of `filter`, slicing and `order_by('-key')`. */
module Seqs {

  /** The elements of `s` that satisfy `p`, in their original order. */
  function Filter<T>(s: seq<T>, p: T -> bool): (r: seq<T>)
    ensures |r| <= |s|
    decreases s
  {
    if s == [] then []
    else if p(s[0]) then [s[0]] + Filter(s[1..], p)
    else Filter(s[1..], p)
  }

  /** Membership in a filtered sequence: present in the input and accepted by `p`. */
  lemma {:induction false} FilterMember<T>(s: seq<T>, p: T -> bool, x: T)
    ensures x in Filter(s, p) <==> x in s && p(x)
    decreases s
  {
    if s != [] {
      FilterMember(s[1..], p, x);
      assert s == [s[0]] + s[1..];
    }
  }

  /** The first `n` elements of `s`, or all of them when there are fewer. */
  function Take<T>(s: seq<T>, n: nat): (r: seq<T>)
    ensures |r| == if n < |s| then n else |s|
    ensures forall i :: 0 <= i < |r| ==> r[i] == s[i]
  {
    if n < |s| then s[..n] else s
  }

  predicate Distinct<T(==)>(s: seq<T>)
  {
    forall i, j :: 0 <= i < j < |s| ==> s[i] != s[j]
  }

  predicate SortedDesc<T>(s: seq<T>, key: T -> int)
  {
    forall i, j :: 0 <= i < j < |s| ==> key(s[i]) >= key(s[j])
  }

  /** Inserts `x` into `t` in front of the first element whose key is not larger. */
  function Insert<T>(x: T, t: seq<T>, key: T -> int): seq<T>
  {
    if t == [] || key(x) >= key(t[0]) then [x] + t
    else [t[0]] + Insert(x, t[1..], key)
  }

  /** Insertion sort by descending key; elements with equal keys keep their relative order. */
  function SortDesc<T>(s: seq<T>, key: T -> int): seq<T>
  {
    if s == [] then [] else Insert(s[0], SortDesc(s[1..], key), key)
  }

  /** Whether an element has the key `k`. */
  function KeyIs<T>(key: T -> int, k: int): T -> bool
  {
    (x: T) => key(x) == k
  }

  /** Among the elements of one key, the inserted one comes first and the others keep their order. */
  lemma {:induction false} InsertStable<T>(x: T, t: seq<T>, key: T -> int, k: int)
    ensures Filter(Insert(x, t, key), KeyIs(key, k)) == (if key(x) == k then [x] else []) + Filter(t, KeyIs(key, k))
    decreases t
  {
    var p := KeyIs(key, k);
    if t == [] || key(x) >= key(t[0]) {
      var r := [x] + t;
      assert r[0] == x && r[1..] == t;
    } else {
      InsertStable(x, t[1..], key, k);
      var r := [t[0]] + Insert(x, t[1..], key);
      assert r[0] == t[0] && r[1..] == Insert(x, t[1..], key);
    }
  }

  /** The sort is stable: the elements of any one key appear in the order of the input. */
  lemma {:induction false} SortDescStable<T>(s: seq<T>, key: T -> int, k: int)
    ensures Filter(SortDesc(s, key), KeyIs(key, k)) == Filter(s, KeyIs(key, k))
    decreases s
  {
    if s != [] {
      SortDescStable(s[1..], key, k);
      InsertStable(s[0], SortDesc(s[1..], key), key, k);
    }
  }

  lemma {:induction false} InsertMultiset<T>(x: T, t: seq<T>, key: T -> int)
    ensures multiset(Insert(x, t, key)) == multiset(t) + multiset{x}
    ensures |Insert(x, t, key)| == |t| + 1
    decreases t
  {
    if t != [] && key(x) < key(t[0]) {
      InsertMultiset(x, t[1..], key);
      assert t == [t[0]] + t[1..];
    }
  }

  lemma TailSorted<T>(t: seq<T>, key: T -> int)
    requires SortedDesc(t, key) && t != []
    ensures SortedDesc(t[1..], key)
    ensures forall k :: 0 <= k < |t[1..]| ==> key(t[1..][k]) <= key(t[0])
  {
    forall i, j | 0 <= i < j < |t[1..]| ensures key(t[1..][i]) >= key(t[1..][j]) {
      assert t[1..][i] == t[i + 1] && t[1..][j] == t[j + 1];
    }
    forall k | 0 <= k < |t[1..]| ensures key(t[1..][k]) <= key(t[0]) {
      assert t[1..][k] == t[k + 1];
    }
  }

  lemma {:induction false} InsertSorted<T>(x: T, t: seq<T>, key: T -> int)
    requires SortedDesc(t, key)
    ensures SortedDesc(Insert(x, t, key), key)
    decreases t
  {
    if t == [] || key(x) >= key(t[0]) {
      var r := [x] + t;
      forall i, j | 0 <= i < j < |r| ensures key(r[i]) >= key(r[j]) {
        assert r[j] == t[j - 1];
        if i > 0 { assert r[i] == t[i - 1]; }
        else if j > 1 { assert key(t[0]) >= key(t[j - 1]); }
      }
    } else {
      TailSorted(t, key);
      InsertSorted(x, t[1..], key);
      InsertMultiset(x, t[1..], key);
      var rest := Insert(x, t[1..], key);
      var r := [t[0]] + rest;
      forall k | 0 <= k < |rest| ensures key(rest[k]) <= key(t[0]) {
        assert rest[k] in multiset(rest);
        if rest[k] != x {
          assert rest[k] in multiset(t[1..]);
          var m :| 0 <= m < |t[1..]| && t[1..][m] == rest[k];
        }
      }
      forall i, j | 0 <= i < j < |r| ensures key(r[i]) >= key(r[j]) {
        assert r[j] == rest[j - 1];
        if i > 0 { assert r[i] == rest[i - 1]; }
      }
    }
  }

  lemma {:induction false} SortDescFacts<T>(s: seq<T>, key: T -> int)
    ensures multiset(SortDesc(s, key)) == multiset(s)
    ensures |SortDesc(s, key)| == |s|
    ensures SortedDesc(SortDesc(s, key), key)
    decreases s
  {
    if s != [] {
      var t := SortDesc(s[1..], key);
      SortDescFacts(s[1..], key);
      InsertMultiset(s[0], t, key);
      InsertSorted(s[0], t, key);
      assert SortDesc(s, key) == Insert(s[0], t, key);
      assert s == [s[0]] + s[1..];
      assert multiset(s) == multiset(s[1..]) + multiset{s[0]};
    }
  }

  /** The sorted sequence holds exactly the elements of the input, in descending key order. */
  lemma SortDescMembers<T>(s: seq<T>, key: T -> int)
    ensures |SortDesc(s, key)| == |s|
    ensures SortedDesc(SortDesc(s, key), key)
    ensures forall x :: x in SortDesc(s, key) <==> x in s
  {
    SortDescFacts(s, key);
    forall x ensures x in SortDesc(s, key) <==> x in s {
      assert x in SortDesc(s, key) <==> x in multiset(SortDesc(s, key));
      assert x in s <==> x in multiset(s);
    }
  }

  lemma DistinctTail<T>(s: seq<T>)
    requires Distinct(s) && s != []
    ensures Distinct(s[1..]) && s[0] !in s[1..]
  {
    forall i, j | 0 <= i < j < |s[1..]| ensures s[1..][i] != s[1..][j] {
      assert s[1..][i] == s[i + 1] && s[1..][j] == s[j + 1];
    }
  }

  lemma {:induction false} InsertDistinct<T>(x: T, t: seq<T>, key: T -> int)
    requires Distinct(t) && x !in t
    ensures Distinct(Insert(x, t, key))
    decreases t
  {
    if t != [] && key(x) < key(t[0]) {
      DistinctTail(t);
      InsertDistinct(x, t[1..], key);
      InsertMultiset(x, t[1..], key);
      var rest := Insert(x, t[1..], key);
      assert t[0] !in rest by {
        assert t[0] != x by { assert t[0] in t; }
        assert t[0] !in multiset(t[1..]);
        assert t[0] !in multiset(rest);
      }
      var r := [t[0]] + rest;
      forall i, j | 0 <= i < j < |r| ensures r[i] != r[j] {
        assert r[j] == rest[j - 1];
        if i > 0 { assert r[i] == rest[i - 1]; }
      }
    }
  }

  /** Sorting a sequence without repeated elements yields one without repeated elements. */
  lemma {:induction false} SortDescDistinct<T>(s: seq<T>, key: T -> int)
    requires Distinct(s)
    ensures Distinct(SortDesc(s, key))
    decreases s
  {
    if s != [] {
      DistinctTail(s);
      SortDescDistinct(s[1..], key);
      SortDescFacts(s[1..], key);
      assert s[0] !in SortDesc(s[1..], key) by {
        assert s[0] !in multiset(s[1..]);
      }
      InsertDistinct(s[0], SortDesc(s[1..], key), key);
    }
  }

  lemma {:induction false} FilterDistinct<T>(s: seq<T>, p: T -> bool)
    requires Distinct(s)
    ensures Distinct(Filter(s, p))
    decreases s
  {
    if s != [] {
      DistinctTail(s);
      FilterDistinct(s[1..], p);
      FilterMember(s[1..], p, s[0]);
      if p(s[0]) {
        var r := [s[0]] + Filter(s[1..], p);
        forall i, j | 0 <= i < j < |r| ensures r[i] != r[j] {
          assert r[j] == Filter(s[1..], p)[j - 1];
          if i > 0 { assert r[i] == Filter(s[1..], p)[i - 1]; }
        }
      }
    }
  }

  lemma TakeDistinct<T>(s: seq<T>, n: nat)
    requires Distinct(s)
    ensures Distinct(Take(s, n))
  {
  }

  /** A sequence whose first `k` elements pass and whose others fail filters to its prefix. */
  lemma {:induction false} FilterPrefix<T>(s: seq<T>, p: T -> bool, k: nat)
    requires k <= |s|
    requires forall i :: 0 <= i < k ==> p(s[i])
    requires forall i :: k <= i < |s| ==> !p(s[i])
    ensures Filter(s, p) == s[..k]
    decreases s
  {
    if s != [] {
      if k == 0 {
        FilterPrefix(s[1..], p, 0);
      } else {
        FilterPrefix(s[1..], p, k - 1);
        assert s[..k] == [s[0]] + s[1..][..k - 1];
      }
    }
  }

  /** The distinct elements of `s`, each kept at its first occurrence. */
  function Dedup<T(==)>(s: seq<T>): (r: seq<T>)
    ensures Distinct(r)
    ensures forall i :: 0 <= i < |r| ==> r[i] in s
    ensures forall i :: 0 <= i < |s| ==> s[i] in r
    decreases |s|
  {
    if s == [] then []
    else
      var init := Dedup(s[..|s| - 1]);
      var last := s[|s| - 1];
      assert forall i :: 0 <= i < |s| - 1 ==> s[i] == s[..|s| - 1][i];
      if last in init then init else init + [last]
  }

  /** Filtering with two predicates that agree on every element gives the same sequence. */
  lemma {:induction false} FilterCongruent<T>(s: seq<T>, p: T -> bool, q: T -> bool)
    requires forall k :: 0 <= k < |s| ==> p(s[k]) == q(s[k])
    ensures Filter(s, p) == Filter(s, q)
    decreases s
  {
    if s != [] {
      assert p(s[0]) == q(s[0]);
      assert forall k :: 0 <= k < |s[1..]| ==> s[1..][k] == s[k + 1];
      FilterCongruent(s[1..], p, q);
    }
  }

  /** The elements of a sorted sequence ahead of the first are never larger than it. */
  lemma HeadIsMax<T>(s: seq<T>, key: T -> int)
    requires SortedDesc(s, key) && s != []
    ensures forall x :: x in s ==> key(x) <= key(s[0])
  {
    forall x | x in s ensures key(x) <= key(s[0]) {
      var k :| 0 <= k < |s| && s[k] == x;
      if k > 0 { assert key(s[0]) >= key(s[k]); }
    }
  }
}
