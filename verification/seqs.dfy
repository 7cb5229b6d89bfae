/** Sequence and string helpers that stand in for Python built-ins the modelled code leans on:
    `sum`, list concatenation, `itertools.product`, order-preserving de-duplication,
    `list.index`, `str.join`, `str.lower`, string ordering and `sorted`. */
module Seqs {

  /** Python `sum` over a list of floats, folded from the right. */
  function Sum(xs: seq<real>): real
  {
    if xs == [] then 0.0 else xs[0] + Sum(xs[1..])
  }

  lemma {:induction false} SumAppend(a: seq<real>, b: seq<real>)
    ensures Sum(a + b) == Sum(a) + Sum(b)
  {
    if a == [] {
      assert a + b == b;
    } else {
      assert (a + b)[1..] == a[1..] + b;
      SumAppend(a[1..], b);
    }
  }

  /** Concatenation of a list of lists, in order. */
  function Flatten<T>(xss: seq<seq<T>>): seq<T>
  {
    if xss == [] then [] else xss[0] + Flatten(xss[1..])
  }

  lemma {:induction false} FlattenAppend<T>(a: seq<seq<T>>, b: seq<seq<T>>)
    ensures Flatten(a + b) == Flatten(a) + Flatten(b)
  {
    if a == [] {
      assert a + b == b;
    } else {
      assert (a + b)[1..] == a[1..] + b;
      FlattenAppend(a[1..], b);
    }
  }

  /** `itertools.product(xs, ys)`: the first factor varies slowest. */
  function Product<A, B>(xs: seq<A>, ys: seq<B>): (r: seq<(A, B)>)
    ensures |r| == |xs| * |ys|
  {
    if xs == [] then []
    else (seq(|ys|, j requires 0 <= j < |ys| => (xs[0], ys[j]))) + Product(xs[1..], ys)
  }

  /** The position of row `i`, column `j` in a row-major table of rows of length `n`. */
  function FlatIndex(i: nat, j: nat, n: nat): nat
  {
    i * n + j
  }

  /** Position `i * |ys| + j` of the product holds the pair `(xs[i], ys[j])`. */
  lemma {:induction false} ProductAt<A, B>(xs: seq<A>, ys: seq<B>, i: nat, j: nat)
    requires i < |xs| && j < |ys|
    ensures FlatIndex(i, j, |ys|) < |Product(xs, ys)|
    ensures Product(xs, ys)[FlatIndex(i, j, |ys|)] == (xs[i], ys[j])
  {
    var head := seq(|ys|, k requires 0 <= k < |ys| => (xs[0], ys[k]));
    assert Product(xs, ys) == head + Product(xs[1..], ys);
    if i == 0 {
    } else {
      ProductAt(xs[1..], ys, i - 1, j);
      assert FlatIndex(i - 1, j, |ys|) + |ys| == FlatIndex(i, j, |ys|);
    }
  }

  /** Every pair of members appears in the product. */
  lemma {:induction false} ProductContains<A, B>(xs: seq<A>, ys: seq<B>, x: A, y: B)
    requires x in xs && y in ys
    ensures (x, y) in Product(xs, ys)
  {
    var head := seq(|ys|, k requires 0 <= k < |ys| => (xs[0], ys[k]));
    assert Product(xs, ys) == head + Product(xs[1..], ys);
    if xs[0] == x {
      var k :| 0 <= k < |ys| && ys[k] == y;
      assert head[k] == (x, y);
    } else {
      ProductContains(xs[1..], ys, x, y);
    }
  }

  /** Every pair of the product is made of members. */
  lemma {:induction false} ProductMembers<A, B>(xs: seq<A>, ys: seq<B>, p: (A, B))
    requires p in Product(xs, ys)
    ensures p.0 in xs && p.1 in ys
  {
    var head := seq(|ys|, k requires 0 <= k < |ys| => (xs[0], ys[k]));
    assert Product(xs, ys) == head + Product(xs[1..], ys);
    if p !in head {
      ProductMembers(xs[1..], ys, p);
    }
  }

  predicate NoDups<T(==)>(s: seq<T>)
  {
    forall i, j :: 0 <= i < j < |s| ==> s[i] != s[j]
  }

  /** Keep the first occurrence of every element, in order (what a dict built from the
      list, or a `seen` set, does in the source). */
  function Dedup<T(==)>(s: seq<T>): (r: seq<T>)
    ensures forall i :: 0 <= i < |r| ==> r[i] in s
    ensures forall i :: 0 <= i < |s| ==> s[i] in r
    ensures NoDups(r)
  {
    if s == [] then []
    else
      var r := Dedup(s[..|s| - 1]);
      assert forall i :: 0 <= i < |s| - 1 ==> s[..|s| - 1][i] == s[i];
      if s[|s| - 1] in r then r else r + [s[|s| - 1]]
  }

  /** `list.index`: the first position holding `x`. */
  function IndexOf<T(==)>(s: seq<T>, x: T): (r: nat)
    requires x in s
    ensures r < |s| && s[r] == x
    ensures forall k :: 0 <= k < r ==> s[k] != x
  {
    if s[0] == x then 0 else 1 + IndexOf(s[1..], x)
  }

  /** `sep.join(parts)`. */
  function Join(sep: string, parts: seq<string>): string
  {
    if |parts| == 0 then ""
    else if |parts| == 1 then parts[0]
    else parts[0] + sep + Join(sep, parts[1..])
  }

  /** `str.lower()` on the ASCII letters. */
  function Lower(s: string): (r: string)
    ensures |r| == |s|
    ensures forall i :: 0 <= i < |s| ==> r[i] == LowerChar(s[i])
  {
    if s == [] then [] else [LowerChar(s[0])] + Lower(s[1..])
  }

  function LowerChar(c: char): char
  {
    if 'A' <= c <= 'Z' then (c as int + 32) as char else c
  }

  /** Python string comparison `a <= b`: lexicographic on code points. */
  predicate LexLe(a: string, b: string)
  {
    if |a| == 0 then true
    else if |b| == 0 then false
    else if a[0] != b[0] then a[0] < b[0]
    else LexLe(a[1..], b[1..])
  }

  lemma {:induction false} LexLeTotal(a: string, b: string)
    ensures LexLe(a, b) || LexLe(b, a)
  {
    if |a| > 0 && |b| > 0 && a[0] == b[0] {
      LexLeTotal(a[1..], b[1..]);
    }
  }

  lemma {:induction false} LexLeTransitive(a: string, b: string, c: string)
    requires LexLe(a, b) && LexLe(b, c)
    ensures LexLe(a, c)
  {
    if |a| > 0 && |b| > 0 && |c| > 0 && a[0] == b[0] && b[0] == c[0] {
      LexLeTransitive(a[1..], b[1..], c[1..]);
    }
  }

  ghost predicate TotalPreorder<T(!new)>(le: (T, T) -> bool)
  {
    && (forall a, b :: le(a, b) || le(b, a))
    && (forall a, b, c :: le(a, b) && le(b, c) ==> le(a, c))
  }

  lemma LexLeIsTotalPreorder()
    ensures TotalPreorder((a: string, b: string) => LexLe(a, b))
  {
    forall a: string, b: string
      ensures LexLe(a, b) || LexLe(b, a)
    {
      LexLeTotal(a, b);
    }
    forall a: string, b: string, c: string | LexLe(a, b) && LexLe(b, c)
      ensures LexLe(a, c)
    {
      LexLeTransitive(a, b, c);
    }
  }

  predicate SortedBy<T>(le: (T, T) -> bool, s: seq<T>)
  {
    forall i, j :: 0 <= i < j < |s| ==> le(s[i], s[j])
  }

  function Insert<T(!new)>(le: (T, T) -> bool, x: T, s: seq<T>): (r: seq<T>)
    requires TotalPreorder(le)
    requires SortedBy(le, s)
    ensures multiset(r) == multiset(s) + multiset{x}
    ensures |r| == |s| + 1
    ensures SortedBy(le, r)
  {
    if s == [] then [x]
    else if le(x, s[0]) then
      assert forall j :: 0 < j < |s| ==> le(s[0], s[j]);
      [x] + s
    else
      var t := Insert(le, x, s[1..]);
      InsertBehindHead(le, x, s, t);
      [s[0]] + t
  }

  /** Putting the head back in front of the rest with `x` inserted keeps the order. */
  lemma InsertBehindHead<T(!new)>(le: (T, T) -> bool, x: T, s: seq<T>, t: seq<T>)
    requires TotalPreorder(le)
    requires SortedBy(le, s) && s != [] && !le(x, s[0])
    requires SortedBy(le, t) && multiset(t) == multiset(s[1..]) + multiset{x}
    ensures multiset([s[0]] + t) == multiset(s) + multiset{x}
    ensures SortedBy(le, [s[0]] + t)
  {
    assert s == [s[0]] + s[1..];
    assert le(s[0], x);
    forall k | 0 <= k < |t|
      ensures le(s[0], t[k])
    {
      assert t[k] in multiset(s[1..]) + multiset{x};
      if t[k] != x {
        assert t[k] in s[1..];
      }
    }
  }

  /** Python `sorted` for a total preorder: a permutation of `s` in non-decreasing order. */
  function InsertionSort<T(!new)>(le: (T, T) -> bool, s: seq<T>): (r: seq<T>)
    requires TotalPreorder(le)
    ensures multiset(r) == multiset(s)
    ensures |r| == |s|
    ensures SortedBy(le, r)
  {
    if s == [] then []
    else
      assert s == [s[0]] + s[1..];
      Insert(le, s[0], InsertionSort(le, s[1..]))
  }

  /** `sorted(xs)` for a list of strings. */
  function SortStrings(xs: seq<string>): (r: seq<string>)
    ensures multiset(r) == multiset(xs)
    ensures |r| == |xs|
    ensures forall i, j :: 0 <= i < j < |r| ==> LexLe(r[i], r[j])
  {
    LexLeIsTotalPreorder();
    InsertionSort((a: string, b: string) => LexLe(a, b), xs)
  }

  /** `list.index` as a sort key: the position of `v`, and values outside `order` after every
      entry of it. */
  function Position(order: seq<string>, v: string): nat
  {
    if v in order then IndexOf(order, v) else |order|
  }

  lemma PositionIsTotalPreorder(order: seq<string>)
    ensures TotalPreorder((a: string, b: string) => Position(order, a) <= Position(order, b))
  {
  }

  /** `sorted(xs, key=order.index)`. */
  function SortByPosition(xs: seq<string>, order: seq<string>): (r: seq<string>)
    ensures multiset(r) == multiset(xs)
    ensures |r| == |xs|
    ensures forall i, j :: 0 <= i < j < |r| ==> Position(order, r[i]) <= Position(order, r[j])
  {
    PositionIsTotalPreorder(order);
    InsertionSort((a: string, b: string) => Position(order, a) <= Position(order, b), xs)
  }

  /** `ak.sum(mask)`: the number of selected entries. */
  function CountTrue(mask: seq<bool>): (r: nat)
    ensures r <= |mask|
    ensures r == 0 <==> forall i :: 0 <= i < |mask| ==> !mask[i]
  {
    if mask == [] then 0 else (if mask[0] then 1 else 0) + CountTrue(mask[1..])
  }

  lemma {:induction false} CountMonotone(a: seq<bool>, b: seq<bool>)
    requires |a| == |b|
    requires forall e :: 0 <= e < |a| ==> a[e] ==> b[e]
    ensures CountTrue(a) <= CountTrue(b)
  {
    if a != [] {
      CountMonotone(a[1..], b[1..]);
    }
  }

  lemma {:induction false} CountAllTrue(a: seq<bool>)
    requires forall e :: 0 <= e < |a| ==> a[e]
    ensures CountTrue(a) == |a|
  {
    if a != [] {
      CountAllTrue(a[1..]);
    }
  }

  /** `xs[mask]`: the selected entries, in order. */
  function Select<T>(xs: seq<T>, m: seq<bool>): (r: seq<T>)
    requires |xs| == |m|
    ensures |r| == CountTrue(m)
    ensures forall k :: 0 <= k < |r| ==> r[k] in xs
  {
    if xs == [] then []
    else
      var rest := Select(xs[1..], m[1..]);
      if m[0] then [xs[0]] + rest else rest
  }

  /** The position a selected entry `i` takes in `xs[mask]`: the number of selected entries
      before it. */
  function Rank(m: seq<bool>, i: nat): nat
    requires i <= |m|
  {
    CountTrue(m[..i])
  }

  /** `xs[mask]` keeps the order: selected entry `i` is at position `Rank(m, i)`. */
  lemma {:induction false} SelectAt<T>(xs: seq<T>, m: seq<bool>, i: nat)
    requires |xs| == |m| && i < |xs| && m[i]
    ensures Rank(m, i) < |Select(xs, m)| && Select(xs, m)[Rank(m, i)] == xs[i]
  {
    var rest := Select(xs[1..], m[1..]);
    if i == 0 {
      assert m[..0] == [];
    } else {
      SelectAt(xs[1..], m[1..], i - 1);
      assert m[..i][1..] == m[1..][..i - 1];
      assert m[..i][0] == m[0];
    }
  }

  /** Every selected entry, at its rank. */
  lemma SelectOrder<T>(xs: seq<T>, m: seq<bool>)
    requires |xs| == |m|
    ensures forall i :: 0 <= i < |xs| && m[i] ==>
      Rank(m, i) < |Select(xs, m)| && Select(xs, m)[Rank(m, i)] == xs[i]
  {
    forall i | 0 <= i < |xs| && m[i]
      ensures Rank(m, i) < |Select(xs, m)| && Select(xs, m)[Rank(m, i)] == xs[i]
    {
      SelectAt(xs, m, i);
    }
  }

  /** `g(0) + … + g(n - 1)`: a `sum` over `range(n)`. */
  function RangeSum(g: nat -> real, n: nat): real
  {
    if n == 0 then 0.0 else RangeSum(g, n - 1) + g(n - 1)
  }

  lemma {:induction false} RangeSumExt(g: nat -> real, k: nat -> real, n: nat)
    requires forall i: nat :: i < n ==> g(i) == k(i)
    ensures RangeSum(g, n) == RangeSum(k, n)
  {
    if n > 0 {
      RangeSumExt(g, k, n - 1);
    }
  }

  lemma {:induction false} RangeSumAdd(g: nat -> real, k: nat -> real, n: nat)
    ensures RangeSum((i: nat) => g(i) + k(i), n) == RangeSum(g, n) + RangeSum(k, n)
  {
    if n > 0 {
      RangeSumAdd(g, k, n - 1);
    }
  }

  /** Row `i` of a grid: `j` to `f(i, j)`. */
  function RowOf(f: (nat, nat) -> real, i: nat): nat -> real
  {
    (j: nat) => f(i, j)
  }

  /** Column `j` of a grid: `i` to `f(i, j)`. */
  function ColumnOf(f: (nat, nat) -> real, j: nat): nat -> real
  {
    (i: nat) => f(i, j)
  }

  /** Row totals of a grid with `m` columns. */
  function RowSum(f: (nat, nat) -> real, m: nat): nat -> real
  {
    (i: nat) => RangeSum(RowOf(f, i), m)
  }

  /** Column totals of a grid with `n` rows. */
  function ColumnSum(f: (nat, nat) -> real, n: nat): nat -> real
  {
    (j: nat) => RangeSum(ColumnOf(f, j), n)
  }

  /** A finite double sum may be taken in either order. */
  lemma {:induction false} RangeSumSwap(f: (nat, nat) -> real, n: nat, m: nat)
    ensures RangeSum(RowSum(f, m), n) == RangeSum(ColumnSum(f, n), m)
  {
    if n == 0 {
      RangeSumExt(ColumnSum(f, 0), (j: nat) => 0.0, m);
      RangeSumZero(m);
    } else {
      RangeSumSwap(f, n - 1, m);
      RangeSumAdd(ColumnSum(f, n - 1), RowOf(f, n - 1), m);
      RangeSumExt(ColumnSum(f, n), (j: nat) => ColumnSum(f, n - 1)(j) + RowOf(f, n - 1)(j), m);
    }
  }

  lemma {:induction false} RangeSumZero(m: nat)
    ensures RangeSum((j: nat) => 0.0, m) == 0.0
  {
    if m > 0 {
      RangeSumZero(m - 1);
    }
  }
}
