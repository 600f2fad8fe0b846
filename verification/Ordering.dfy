/** Lexicographic keys and the stable sort that the planners share.

    The program sorts by tuples whose components are integers, the last one
    possibly a string. A key is modelled as the sequence of its integer
    components followed by the code points of the string, compared
    lexicographically with a proper prefix smaller, which is how the tuple
    comparison decides. */
module Ordering {

  predicate LexLe(a: seq<int>, b: seq<int>) {
    if a == [] then true
    else if b == [] then false
    else if a[0] != b[0] then a[0] < b[0]
    else LexLe(a[1..], b[1..])
  }

  lemma LexTotal(a: seq<int>, b: seq<int>)
    ensures LexLe(a, b) || LexLe(b, a)
  {
  }

  lemma {:induction false} LexTransitive(a: seq<int>, b: seq<int>, c: seq<int>)
    requires LexLe(a, b) && LexLe(b, c)
    ensures LexLe(a, c)
  {
    if a != [] && b != [] && c != [] && a[0] == b[0] == c[0] {
      LexTransitive(a[1..], b[1..], c[1..]);
    }
  }

  lemma {:induction false} LexAntisymmetric(a: seq<int>, b: seq<int>)
    requires LexLe(a, b) && LexLe(b, a)
    ensures a == b
  {
    if a != [] && b != [] {
      LexAntisymmetric(a[1..], b[1..]);
    }
  }

  function Codes(s: string): (codes: seq<int>)
  {
    seq(|s|, i requires 0 <= i < |s| => s[i] as int)
  }

  ghost predicate SortedBy<T>(s: seq<T>, key: T -> seq<int>) {
    forall i, j | 0 <= i < j < |s| :: LexLe(key(s[i]), key(s[j]))
  }

  function Insert<T>(x: T, s: seq<T>, key: T -> seq<int>): (r: seq<T>)
    ensures |r| == |s| + 1
    ensures multiset(r) == multiset{x} + multiset(s)
  {
    if s == [] || LexLe(key(x), key(s[0])) then
      [x] + s
    else
      assert s == [s[0]] + s[1..];
      [s[0]] + Insert(x, s[1..], key)
  }

  /** Stable ascending sort: an element goes before the later elements it ties with. */
  function SortBy<T>(s: seq<T>, key: T -> seq<int>): (r: seq<T>)
    ensures |r| == |s|
    ensures multiset(r) == multiset(s)
  {
    if s == [] then [] else
      assert s == [s[0]] + s[1..];
      Insert(s[0], SortBy(s[1..], key), key)
  }

  lemma {:induction false} InsertSorted<T>(x: T, s: seq<T>, key: T -> seq<int>)
    requires SortedBy(s, key)
    ensures SortedBy(Insert(x, s, key), key)
  {
    if s == [] {
    } else if LexLe(key(x), key(s[0])) {
      forall j | 0 <= j < |s| ensures LexLe(key(x), key(s[j])) {
        if j > 0 {
          LexTransitive(key(x), key(s[0]), key(s[j]));
        }
      }
    } else {
      LexTotal(key(x), key(s[0]));
      var rest := Insert(x, s[1..], key);
      InsertSorted(x, s[1..], key);
      forall j | 0 <= j < |rest| ensures LexLe(key(s[0]), key(rest[j])) {
        assert rest[j] in multiset(rest);
        if rest[j] != x {
          assert rest[j] in s[1..];
        }
      }
    }
  }

  lemma {:induction false} SortBySorts<T>(s: seq<T>, key: T -> seq<int>)
    ensures SortedBy(SortBy(s, key), key)
  {
    if s != [] {
      SortBySorts(s[1..], key);
      InsertSorted(s[0], SortBy(s[1..], key), key);
    }
  }

  function Reversed<T>(s: seq<T>): (r: seq<T>)
    ensures |r| == |s| && forall i | 0 <= i < |s| :: r[i] == s[|s| - 1 - i]
    ensures multiset(r) == multiset(s)
  {
    if s == [] then [] else
      assert s == [s[0]] + s[1..];
      Reversed(s[1..]) + [s[0]]
  }

  /** A descending sort that keeps the given order of ties. */
  function SortDescending<T>(s: seq<T>, key: T -> seq<int>): (r: seq<T>)
    ensures |r| == |s| && multiset(r) == multiset(s)
  {
    Reversed(SortBy(Reversed(s), key))
  }

  function SumOf<T>(s: seq<T>, f: T -> int): int {
    if s == [] then 0 else f(s[0]) + SumOf(s[1..], f)
  }

  lemma {:induction false} SumOfAppend<T>(a: seq<T>, b: seq<T>, f: T -> int)
    ensures SumOf(a + b, f) == SumOf(a, f) + SumOf(b, f)
  {
    if a == [] {
      assert a + b == b;
    } else {
      assert (a + b)[1..] == a[1..] + b;
      SumOfAppend(a[1..], b, f);
    }
  }

  lemma SumOfSnoc<T>(a: seq<T>, x: T, f: T -> int)
    ensures SumOf(a + [x], f) == SumOf(a, f) + f(x)
  {
    SumOfAppend(a, [x], f);
    assert [x][1..] == [];
    assert SumOf([x], f) == f(x);
  }

  function Without<T>(s: seq<T>, i: nat): (r: seq<T>)
    requires i < |s|
    ensures |r| == |s| - 1
    ensures multiset(r) == multiset(s) - multiset{s[i]}
  {
    assert s == s[..i] + [s[i]] + s[i+1..];
    s[..i] + s[i+1..]
  }

  lemma {:induction false} SumOfWithout<T>(s: seq<T>, i: nat, f: T -> int)
    requires i < |s|
    ensures SumOf(s, f) == f(s[i]) + SumOf(Without(s, i), f)
  {
    if i == 0 {
      assert Without(s, 0) == s[1..];
    } else {
      SumOfWithout(s[1..], i - 1, f);
      assert Without(s, i)[1..] == Without(s[1..], i - 1);
    }
  }

  lemma {:induction false} SumOfPermutation<T>(a: seq<T>, b: seq<T>, f: T -> int)
    requires multiset(a) == multiset(b)
    ensures SumOf(a, f) == SumOf(b, f)
    decreases |a|
  {
    if a == [] {
      assert |multiset(b)| == 0;
    } else {
      assert a == [a[0]] + a[1..];
      assert a[0] in multiset(b);
      var i :| 0 <= i < |b| && b[i] == a[0];
      SumOfPermutation(a[1..], Without(b, i), f);
      SumOfWithout(b, i, f);
    }
  }

  /** One element is at most the sum when no element is negative. */
  lemma {:induction false} SumOfCovers<T>(s: seq<T>, f: T -> int, i: nat)
    requires i < |s|
    requires forall x | x in s :: f(x) >= 0
    ensures SumOf(s, f) >= f(s[i])
    ensures SumOf(s[1..], f) >= 0
    decreases |s|
  {
    if |s| > 1 {
      assert forall x | x in s[1..] :: x in s;
      SumOfCovers(s[1..], f, if i > 0 then i - 1 else 0);
    }
  }

  lemma {:induction false} SumOfUpdate<T>(s: seq<T>, i: nat, x: T, f: T -> int)
    requires i < |s|
    ensures SumOf(s[i := x], f) == SumOf(s, f) - f(s[i]) + f(x)
  {
    if i > 0 {
      SumOfUpdate(s[1..], i - 1, x, f);
      assert s[i := x][1..] == s[1..][i - 1 := x];
    } else {
      assert s[i := x][1..] == s[1..];
    }
  }

  /** A positive sum of non-negative terms has a positive term. */
  lemma {:induction false} SumOfPositive<T>(s: seq<T>, f: T -> int) returns (i: nat)
    requires SumOf(s, f) > 0
    ensures i < |s| && f(s[i]) > 0
  {
    if f(s[0]) > 0 {
      i := 0;
    } else {
      var j := SumOfPositive(s[1..], f);
      i := j + 1;
    }
  }

  function AtLeastZero(n: int): nat { if n >= 0 then n else 0 }

  // ------------------------------------------------------------ sequence shapes

  lemma InitAndLast<T>(s: seq<T>)
    requires s != []
    ensures s[..|s|-1] + [s[|s|-1]] == s
  {
  }

  lemma PrefixSnoc<T>(s: seq<T>, n: nat)
    requires n < |s|
    ensures s[..n+1] == s[..n] + [s[n]]
  {
  }

  // -------------------------------------------------------------- different elements

  function Elements<T(==,!new)>(s: seq<T>): (r: set<T>)
    ensures forall x :: x in r <==> x in s
    ensures |r| <= |s|
  {
    if s == [] then {} else Elements(s[1..]) + {s[0]}
  }

  ghost predicate AllDifferent<T>(s: seq<T>) {
    forall i, j | 0 <= i < j < |s| :: s[i] != s[j]
  }

  lemma AllDifferentTail<T>(s: seq<T>)
    requires s != [] && AllDifferent(s)
    ensures s[0] !in s[1..] && AllDifferent(s[1..])
  {
    forall i, j | 0 <= i < j < |s[1..]| ensures s[1..][i] != s[1..][j] {
      assert s[i+1] != s[j+1];
    }
  }

  lemma AllDifferentCons<T>(s: seq<T>)
    requires s != [] && s[0] !in s[1..] && AllDifferent(s[1..])
    ensures AllDifferent(s)
  {
    forall i, j | 0 <= i < j < |s| ensures s[i] != s[j] {
      assert s[j] == s[1..][j-1];
      if i > 0 {
        assert s[i] == s[1..][i-1];
      }
    }
  }

  lemma CountWithOneMore<T>(elements: set<T>, x: T)
    ensures |elements + {x}| == |elements| + (if x in elements then 0 else 1)
  {
    if x in elements {
      assert elements + {x} == elements;
    }
  }

  /** Counting different elements detects a repetition. */
  lemma {:induction false} ElementsCount<T(!new)>(s: seq<T>)
    ensures |Elements(s)| == |s| <==> AllDifferent(s)
  {
    if s != [] {
      ElementsCount(s[1..]);
      CountWithOneMore(Elements(s[1..]), s[0]);
      if AllDifferent(s) {
        AllDifferentTail(s);
      } else if s[0] !in s[1..] && AllDifferent(s[1..]) {
        AllDifferentCons(s);
        assert false;
      }
    }
  }
}
