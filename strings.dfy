/** Text forms of identifiers: Python's `str(n)` on a non-negative integer, `','.join(...)`
    with its inverse, and Python's code-point order on strings. */
module Strings {

  predicate IsDigit(c: char)
  {
    '0' <= c <= '9'
  }

  predicate AllDigits(s: string)
  {
    forall i :: 0 <= i < |s| ==> IsDigit(s[i])
  }

  function DigitChar(d: nat): (c: char)
    requires d < 10
    ensures IsDigit(c) && c as int - '0' as int == d
  {
    ('0' as int + d) as char
  }

  /** Decimal rendering of `n`, as Python's `str(n)` and `'{}'.format(n)` produce it. */
  function NatToString(n: nat): (s: string)
    ensures |s| >= 1 && AllDigits(s)
    decreases n
  {
    if n < 10 then [DigitChar(n)] else NatToString(n / 10) + [DigitChar(n % 10)]
  }

  /** Reads a string of decimal digits back as a number. */
  function StringToNat(s: string): nat
    requires AllDigits(s)
    decreases |s|
  {
    if s == [] then 0
    else StringToNat(s[..|s| - 1]) * 10 + (s[|s| - 1] as int - '0' as int)
  }

  lemma {:induction false} StringToNatInverse(n: nat)
    ensures StringToNat(NatToString(n)) == n
    decreases n
  {
    if n >= 10 {
      var s := NatToString(n);
      assert s[..|s| - 1] == NatToString(n / 10);
      StringToNatInverse(n / 10);
    }
  }

  /** Distinct numbers have distinct decimal renderings. */
  lemma NatToStringInjective(a: nat, b: nat)
    ensures NatToString(a) == NatToString(b) <==> a == b
  {
    StringToNatInverse(a);
    StringToNatInverse(b);
  }

  /** Index of the first occurrence of `c` in `s`. */
  function IndexOf(s: string, c: char): (r: nat)
    requires c in s
    ensures r < |s| && s[r] == c && c !in s[..r]
    decreases |s|
  {
    if s[0] == c then 0
    else
      var k := IndexOf(s[1..], c);
      assert s[..k + 1] == [s[0]] + s[1..][..k];
      k + 1
  }

  lemma IndexOfAfterPrefix(a: string, c: char, b: string)
    requires c !in a
    ensures c in a + [c] + b && IndexOf(a + [c] + b, c) == |a|
  {
    var s := a + [c] + b;
    assert s[|a|] == c;
    var k := IndexOf(s, c);
    assert s[..|a|] == a;
  }

  /** `sep.join(parts)` in Python: the parts with one separator between neighbours. */
  function Join(parts: seq<string>, sep: char): string
    decreases |parts|
  {
    if parts == [] then ""
    else if |parts| == 1 then parts[0]
    else parts[0] + [sep] + Join(parts[1..], sep)
  }

  /** Splits at every separator; the first piece stops at the first separator. */
  function Split(s: string, sep: char): (r: seq<string>)
    ensures |r| >= 1
    decreases |s|
  {
    if sep !in s then [s]
    else
      var i := IndexOf(s, sep);
      [s[..i]] + Split(s[i + 1..], sep)
  }

  function Decimals(ids: seq<nat>): (r: seq<string>)
    ensures |r| == |ids|
    ensures forall i :: 0 <= i < |ids| ==> r[i] == NatToString(ids[i])
  {
    seq(|ids|, i requires 0 <= i < |ids| => NatToString(ids[i]))
  }

  /** The comma-joined decimal id list sent to the push gateway. */
  function EncodeIds(ids: seq<nat>): string
  {
    Join(Decimals(ids), ',')
  }

  /** Splits a comma-joined id list; the empty string stands for the empty list. */
  function DecodeIds(s: string): seq<nat>
  {
    if s == [] then []
    else
      var parts := Split(s, ',');
      if forall i :: 0 <= i < |parts| ==> AllDigits(parts[i])
      then seq(|parts|, i requires 0 <= i < |parts| => StringToNat(parts[i]))
      else []
  }

  lemma EncodeIdsCons(ids: seq<nat>)
    requires |ids| > 1
    ensures EncodeIds(ids) == NatToString(ids[0]) + [','] + EncodeIds(ids[1..])
  {
    assert Decimals(ids[1..]) == Decimals(ids)[1..];
  }

  /** Splitting stops at the first separator, at the end of a piece that has none. */
  lemma SplitAtFirst(x: string, b: string)
    requires ',' !in x
    ensures Split(x + [','] + b, ',') == [x] + Split(b, ',')
  {
    IndexOfAfterPrefix(x, ',', b);
    var s := x + [','] + b;
    assert s[..|x|] == x;
    assert s[|x| + 1..] == b;
  }

  lemma {:induction false} SplitJoinDecimals(ids: seq<nat>)
    requires |ids| >= 1
    ensures Split(EncodeIds(ids), ',') == Decimals(ids)
    decreases |ids|
  {
    var d := Decimals(ids);
    var x := NatToString(ids[0]);
    assert ',' !in x by { assert AllDigits(x); }
    if |ids| > 1 {
      EncodeIdsCons(ids);
      SplitAtFirst(x, EncodeIds(ids[1..]));
      SplitJoinDecimals(ids[1..]);
      assert Decimals(ids[1..]) == d[1..];
      assert d == [x] + d[1..];
    }
  }

  /** Decoding the joined list gives back exactly the ids, in order. */
  lemma EncodeDecodeIds(ids: seq<nat>)
    ensures DecodeIds(EncodeIds(ids)) == ids
  {
    if ids != [] {
      SplitJoinDecimals(ids);
      var parts := Decimals(ids);
      assert EncodeIds(ids) != [] by {
        if |parts| > 1 { assert Join(parts, ',') == parts[0] + [','] + Join(parts[1..], ','); }
      }
      forall i | 0 <= i < |ids| ensures StringToNat(parts[i]) == ids[i] {
        StringToNatInverse(ids[i]);
      }
    }
  }

  /** Python's `a <= b` on strings: code-point order, a proper prefix first. */
  predicate LexLe(a: string, b: string)
    decreases |a|
  {
    a == [] || (b != [] && (a[0] < b[0] || (a[0] == b[0] && LexLe(a[1..], b[1..]))))
  }

  lemma {:induction false} LexTotal(a: string, b: string)
    ensures LexLe(a, b) || LexLe(b, a)
    decreases |a|
  {
    if a != [] && b != [] && a[0] == b[0] { LexTotal(a[1..], b[1..]); }
  }

  lemma {:induction false} LexTrans(a: string, b: string, c: string)
    requires LexLe(a, b) && LexLe(b, c)
    ensures LexLe(a, c)
    decreases |a|
  {
    if a != [] && a[0] == b[0] && b[0] == c[0] { LexTrans(a[1..], b[1..], c[1..]); }
  }

  lemma {:induction false} LexAntisym(a: string, b: string)
    requires LexLe(a, b) && LexLe(b, a)
    ensures a == b
    decreases |a|
  {
    if a != [] {
      LexAntisym(a[1..], b[1..]);
      assert a == [a[0]] + a[1..] && b == [b[0]] + b[1..];
    }
  }

  predicate LexSorted(s: seq<string>)
  {
    forall i, j :: 0 <= i < j < |s| ==> LexLe(s[i], s[j])
  }

  function LexInsert(x: string, t: seq<string>): seq<string>
  {
    if t == [] || LexLe(x, t[0]) then [x] + t else [t[0]] + LexInsert(x, t[1..])
  }

  /** Python's `sorted` on a list of strings. */
  function LexSort(s: seq<string>): seq<string>
  {
    if s == [] then [] else LexInsert(s[0], LexSort(s[1..]))
  }

  lemma {:induction false} LexInsertMultiset(x: string, t: seq<string>)
    ensures multiset(LexInsert(x, t)) == multiset(t) + multiset{x}
    decreases |t|
  {
    if t != [] && !LexLe(x, t[0]) {
      LexInsertMultiset(x, t[1..]);
      assert t == [t[0]] + t[1..];
    }
  }

  lemma LexSortedTail(t: seq<string>)
    requires t != [] && LexSorted(t)
    ensures LexSorted(t[1..])
  {
    forall i, j | 0 <= i < j < |t[1..]| ensures LexLe(t[1..][i], t[1..][j]) {
      assert t[1..][i] == t[i + 1] && t[1..][j] == t[j + 1];
    }
  }

  /** A string no greater than any element of a sorted list may go in front of it. */
  lemma LexPrepend(x: string, t: seq<string>)
    requires LexSorted(t)
    requires forall k :: 0 <= k < |t| ==> LexLe(x, t[k])
    ensures LexSorted([x] + t)
  {
    var r := [x] + t;
    forall i, j | 0 <= i < j < |r| ensures LexLe(r[i], r[j]) {
      assert r[j] == t[j - 1];
      if i > 0 { assert r[i] == t[i - 1]; }
    }
  }

  lemma {:induction false} LexInsertSorted(x: string, t: seq<string>)
    requires LexSorted(t)
    ensures LexSorted(LexInsert(x, t))
    decreases |t|
  {
    if t == [] || LexLe(x, t[0]) {
      forall k | 0 <= k < |t| ensures LexLe(x, t[k]) {
        if k > 0 { LexTrans(x, t[0], t[k]); }
      }
      LexPrepend(x, t);
    } else {
      LexSortedTail(t);
      LexInsertSorted(x, t[1..]);
      LexInsertMultiset(x, t[1..]);
      var rest := LexInsert(x, t[1..]);
      LexTotal(x, t[0]);
      forall k | 0 <= k < |rest| ensures LexLe(t[0], rest[k]) {
        assert rest[k] in multiset(rest);
        if rest[k] != x {
          assert rest[k] in multiset(t[1..]);
          var m :| 0 <= m < |t[1..]| && t[1..][m] == rest[k];
          assert t[1..][m] == t[m + 1];
        }
      }
      LexPrepend(t[0], rest);
    }
  }

  /** `sorted` returns the same strings, in non-decreasing code-point order. */
  lemma {:induction false} LexSortFacts(s: seq<string>)
    ensures multiset(LexSort(s)) == multiset(s)
    ensures LexSorted(LexSort(s))
    decreases |s|
  {
    if s != [] {
      LexSortFacts(s[1..]);
      LexInsertMultiset(s[0], LexSort(s[1..]));
      LexInsertSorted(s[0], LexSort(s[1..]));
      assert s == [s[0]] + s[1..];
    }
  }
}
