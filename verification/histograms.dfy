/** Histograms with named axes and name-keyed bin addressing, and the axis-algebra helpers
    the trigger calculators are written against: the bin loop (`loop_hists`), the variation
    histogram (`syst_hist`), axis reduction (`reduce_hist`, `h[{ax: sum}]`) and bin-indexed
    assignment. Values are the `value` part of the Weight storage. */
module Histograms {
  import opened Seqs

  datatype Axis = Axis(name: string, size: nat)

  /** A bin index: axis name to bin number, like the dicts `loop_hists` yields. */
  type Bin = map<string, nat>

  datatype Hist = Hist(axes: seq<Axis>, at: Bin -> real)

  function NameSet(axes: seq<Axis>): set<string>
  {
    set a | a in axes :: a.name
  }

  function Names(axes: seq<Axis>): (r: seq<string>)
    ensures |r| == |axes|
    ensures forall i :: 0 <= i < |axes| ==> r[i] == axes[i].name
  {
    if axes == [] then [] else [axes[0].name] + Names(axes[1..])
  }

  lemma {:induction false} NamesMembers(axes: seq<Axis>)
    ensures forall v :: v in Names(axes) <==> v in NameSet(axes)
  {
    forall v | v in NameSet(axes)
      ensures v in Names(axes)
    {
      var a :| a in axes && a.name == v;
      var i :| 0 <= i < |axes| && axes[i] == a;
      assert Names(axes)[i] == v;
    }
  }

  predicate UniqueNames(axes: seq<Axis>)
  {
    forall i, j :: 0 <= i < j < |axes| ==> axes[i].name != axes[j].name
  }

  /** A bin of a histogram with these axes: one in-range index per axis, nothing else. */
  predicate ValidBin(axes: seq<Axis>, b: Bin)
  {
    && b.Keys == NameSet(axes)
    && forall a :: a in axes ==> b[a.name] < a.size
  }

  /** Whether a bin belongs to a histogram depends only on which axes it has. */
  lemma ValidBinSameMembers(xs: seq<Axis>, ys: seq<Axis>, b: Bin)
    requires forall a :: a in xs <==> a in ys
    ensures ValidBin(xs, b) == ValidBin(ys, b)
  {
    assert NameSet(xs) == NameSet(ys);
  }

  /** The number of bins of the (first) axis called `name`. */
  function SizeOf(axes: seq<Axis>, name: string): nat
    requires name in NameSet(axes)
  {
    if axes[0].name == name then axes[0].size
    else
      assert name in NameSet(axes[1..]);
      SizeOf(axes[1..], name)
  }

  lemma {:induction false} SizeOfIsAxis(axes: seq<Axis>, a: Axis)
    requires UniqueNames(axes)
    requires a in axes
    ensures a.name in NameSet(axes) && SizeOf(axes, a.name) == a.size
  {
    if axes[0] != a {
      assert a in axes[1..];
      SizeOfIsAxis(axes[1..], a);
    }
  }

  /** Giving a dropped axis an in-range index makes a bin of the axes with that one kept. */
  lemma ValidBinRestore(axes: seq<Axis>, dropped: set<string>, name: string, v: nat, o: Bin)
    requires UniqueNames(axes)
    requires name in dropped && name in NameSet(axes)
    requires v < SizeOf(axes, name)
    requires ValidBin(Drop(axes, dropped), o)
    ensures ValidBin(Drop(axes, dropped - {name}), o[name := v])
  {
    var restored := o[name := v];
    assert restored.Keys == NameSet(Drop(axes, dropped - {name}));
    forall x | x in Drop(axes, dropped - {name})
      ensures restored[x.name] < x.size
    {
      if x.name == name {
        SizeOfIsAxis(axes, x);
      } else {
        assert x in Drop(axes, dropped);
      }
    }
  }

  /** The axes whose name is not in `names`, in their original order. */
  function Drop(axes: seq<Axis>, names: set<string>): (r: seq<Axis>)
    ensures forall a :: a in r <==> a in axes && a.name !in names
    ensures NameSet(r) == NameSet(axes) - names
    ensures UniqueNames(axes) ==> UniqueNames(r)
  {
    if axes == [] then []
    else
      var rest := Drop(axes[1..], names);
      assert forall a :: a in axes <==> a == axes[0] || a in axes[1..];
      if axes[0].name in names then rest else [axes[0]] + rest
  }

  /** The axes whose name is in `names`, in their original order. */
  function Keep(axes: seq<Axis>, names: set<string>): (r: seq<Axis>)
    ensures forall a :: a in r <==> a in axes && a.name in names
    ensures NameSet(r) == NameSet(axes) * names
    ensures UniqueNames(axes) ==> UniqueNames(r)
  {
    if axes == [] then []
    else
      var rest := Keep(axes[1..], names);
      assert forall a :: a in axes <==> a == axes[0] || a in axes[1..];
      if axes[0].name in names then [axes[0]] + rest else rest
  }

  /** `b` restricted to the axes named in `names`. */
  function Restrict(b: Bin, names: set<string>): (r: Bin)
    ensures r.Keys == b.Keys * names
    ensures forall k :: k in r ==> r[k] == b[k]
  {
    map k | k in b && k in names :: b[k]
  }

  lemma {:induction false} RestrictValid(axes: seq<Axis>, b: Bin, names: set<string>)
    requires ValidBin(axes, b)
    ensures ValidBin(Keep(axes, names), Restrict(b, names))
    ensures ValidBin(Drop(axes, names), b - names)
  {
  }

  // ---------------------------------------------------------------------------------------
  // loop_hists: every bin of the given axes, first axis slowest (C order)

  function Extend(rest: seq<Bin>, name: string, i: nat): (r: seq<Bin>)
    ensures |r| == |rest|
    ensures forall k :: 0 <= k < |rest| ==> r[k] == rest[k][name := i]
  {
    seq(|rest|, k requires 0 <= k < |rest| => rest[k][name := i])
  }

  function Blocks(rest: seq<Bin>, name: string, n: nat): seq<Bin>
  {
    if n == 0 then [] else Blocks(rest, name, n - 1) + Extend(rest, name, n - 1)
  }

  function LoopBins(axes: seq<Axis>): seq<Bin>
  {
    if axes == [] then [map[]]
    else Blocks(LoopBins(axes[1..]), axes[0].name, axes[0].size)
  }

  lemma {:induction false} NameSetTail(axes: seq<Axis>)
    requires |axes| > 0 && UniqueNames(axes)
    ensures NameSet(axes[1..]) == NameSet(axes) - {axes[0].name}
    ensures UniqueNames(axes[1..])
  {
    forall a | a in axes[1..]
      ensures a.name != axes[0].name
    {
      var k :| 0 <= k < |axes[1..]| && axes[1..][k] == a;
      assert axes[k + 1] == a;
    }
    assert forall a :: a in axes <==> a == axes[0] || a in axes[1..];
  }

  lemma {:induction false} BlocksSound(axes: seq<Axis>, rest: seq<Bin>, n: nat)
    requires |axes| > 0 && UniqueNames(axes) && n <= axes[0].size
    requires forall c :: c in rest ==> ValidBin(axes[1..], c)
    ensures forall b :: b in Blocks(rest, axes[0].name, n) ==> ValidBin(axes, b)
  {
    NameSetTail(axes);
    if n > 0 {
      BlocksSound(axes, rest, n - 1);
      var name := axes[0].name;
      forall b | b in Extend(rest, name, n - 1)
        ensures ValidBin(axes, b)
      {
        var k :| 0 <= k < |rest| && Extend(rest, name, n - 1)[k] == b;
        var c := rest[k];
        assert ValidBin(axes[1..], c);
        assert b == c[name := n - 1];
        forall a | a in axes
          ensures b[a.name] < a.size
        {
          if a != axes[0] {
            assert a in axes[1..];
          }
        }
      }
    }
  }

  /** Every bin the loop yields is a bin of the axes. */
  lemma {:induction false} LoopBinsSound(axes: seq<Axis>)
    requires UniqueNames(axes)
    ensures forall b :: b in LoopBins(axes) ==> ValidBin(axes, b)
  {
    if axes != [] {
      NameSetTail(axes);
      LoopBinsSound(axes[1..]);
      BlocksSound(axes, LoopBins(axes[1..]), axes[0].size);
    }
  }

  lemma {:induction false} BlocksComplete(rest: seq<Bin>, name: string, n: nat, c: Bin, i: nat)
    requires c in rest && i < n
    ensures c[name := i] in Blocks(rest, name, n)
  {
    if i == n - 1 {
      var k :| 0 <= k < |rest| && rest[k] == c;
      assert Extend(rest, name, n - 1)[k] == c[name := i];
    } else {
      BlocksComplete(rest, name, n - 1, c, i);
    }
  }

  /** Every bin of the axes is yielded by the loop. */
  lemma {:induction false} LoopBinsComplete(axes: seq<Axis>, b: Bin)
    requires UniqueNames(axes) && ValidBin(axes, b)
    ensures b in LoopBins(axes)
  {
    if axes == [] {
      assert b == map[];
    } else {
      NameSetTail(axes);
      var name := axes[0].name;
      var c := b - {name};
      forall a | a in axes[1..]
        ensures c[a.name] < a.size
      {
        assert a in axes;
      }
      assert ValidBin(axes[1..], c);
      LoopBinsComplete(axes[1..], c);
      assert name in NameSet(axes);
      assert c[name := b[name]] == b;
      BlocksComplete(LoopBins(axes[1..]), name, axes[0].size, c, b[name]);
    }
  }

  // ---------------------------------------------------------------------------------------
  // bin-indexed assignment: `h[idx] = value` sets every bin extending `idx`

  datatype Write = Write(target: Bin, value: real)

  predicate Extends(b: Bin, t: Bin)
  {
    t.Keys <= b.Keys && forall k :: k in t ==> b[k] == t[k]
  }

  function Assign(w: Write, f: Bin -> real): Bin -> real
  {
    (b: Bin) => if Extends(b, w.target) then w.value else f(b)
  }

  /** The assignments of a loop, performed in order on the values `f`. */
  function AssignAll(ws: seq<Write>, f: Bin -> real): Bin -> real
  {
    if ws == [] then f else AssignAll(ws[1..], Assign(ws[0], f))
  }

  /** A bin no assignment reaches keeps its value. */
  lemma {:induction false} AssignAllUntouched(ws: seq<Write>, f: Bin -> real, b: Bin)
    requires forall w :: w in ws ==> !Extends(b, w.target)
    ensures AssignAll(ws, f)(b) == f(b)
  {
    if ws != [] {
      assert forall w :: w in ws[1..] ==> w in ws;
      AssignAllUntouched(ws[1..], Assign(ws[0], f), b);
    }
  }

  /** A bin reached by at least one assignment, all of which agree on `v`, ends up at `v`:
      the loop order does not matter. */
  lemma {:induction false} AssignAllAgreeing(ws: seq<Write>, f: Bin -> real, b: Bin, v: real, k: nat)
    requires k < |ws| && Extends(b, ws[k].target)
    requires forall w :: w in ws && Extends(b, w.target) ==> w.value == v
    ensures AssignAll(ws, f)(b) == v
  {
    assert forall w :: w in ws[1..] ==> w in ws;
    if k == 0 {
      if exists j :: 0 <= j < |ws[1..]| && Extends(b, ws[1..][j].target) {
        var j :| 0 <= j < |ws[1..]| && Extends(b, ws[1..][j].target);
        AssignAllAgreeing(ws[1..], Assign(ws[0], f), b, v, j);
      } else {
        forall w | w in ws[1..]
          ensures !Extends(b, w.target)
        {
          var j :| 0 <= j < |ws[1..]| && ws[1..][j] == w;
        }
        AssignAllUntouched(ws[1..], Assign(ws[0], f), b);
      }
    } else {
      AssignAllAgreeing(ws[1..], Assign(ws[0], f), b, v, k - 1);
    }
  }

  // ---------------------------------------------------------------------------------------
  // syst_hist: the variation histogram, the given axes plus a (down, up) axis

  const DOWN: nat := 0
  const UP: nat := 1

  /** A freshly allocated variation histogram: every bin starts at zero. */
  function EmptySystHist(axes: seq<Axis>, syst: string): (r: Hist)
    ensures r.axes == axes + [Axis(syst, 2)]
    ensures forall b :: r.at(b) == 0.0
  {
    Hist(axes + [Axis(syst, 2)], (b: Bin) => 0.0)
  }

  /** A variation histogram seeded with the arrays `down` and `up` over `axes`. */
  function SystHist(axes: seq<Axis>, syst: string, down: Bin -> real, up: Bin -> real): Hist
  {
    Hist(axes + [Axis(syst, 2)],
         (b: Bin) => if syst in b && b[syst] == DOWN then down(b - {syst}) else up(b - {syst}))
  }

  /** The (down, up) pair stored at bin `o` of the nominal axes. */
  function Band(h: Hist, syst: string, o: Bin): (real, real)
  {
    (h.at(o[syst := DOWN]), h.at(o[syst := UP]))
  }

  /** Reading a seeded variation histogram back gives the seeding arrays, bin for bin. */
  lemma SystHistBand(axes: seq<Axis>, syst: string, down: Bin -> real, up: Bin -> real, o: Bin)
    requires syst !in o
    ensures Band(SystHist(axes, syst, down, up), syst, o) == (down(o), up(o))
  {
    assert o[syst := DOWN] - {syst} == o;
    assert o[syst := UP] - {syst} == o;
  }

  // ---------------------------------------------------------------------------------------
  // reductions

  /** The sum of `h` over every bin `b + d`, `d` running over the bins of `axes`. */
  function SumOver(h: Hist, axes: seq<Axis>, b: Bin): real
  {
    var ds := LoopBins(axes);
    Sum(seq(|ds|, k requires 0 <= k < |ds| => h.at(b + ds[k])))
  }

  /** `reduce_hist(h, exclude=keep)`: sum over every axis whose name is not in `keep`,
      keeping the other axes in their order; names without an axis are ignored. */
  function ReduceExclude(h: Hist, keep: set<string>): (r: Hist)
    ensures r.axes == Keep(h.axes, keep)
  {
    var summed := Drop(h.axes, keep);
    Hist(Keep(h.axes, keep), (b: Bin) => SumOver(h, summed, b))
  }

  /** `reduce_hist(h, reduce=names)` and `h[{n: sum for n in names}]`: sum over exactly the
      named axes; names without an axis are ignored. */
  function ReduceAxes(h: Hist, names: set<string>): (r: Hist)
    ensures r.axes == Drop(h.axes, names)
  {
    var summed := Keep(h.axes, names);
    Hist(Drop(h.axes, names), (b: Bin) => SumOver(h, summed, b))
  }

  /** Keeping every axis changes nothing: same axes, same value in every bin. */
  lemma ReduceKeepAllIsIdentity(h: Hist, b: Bin)
    ensures ReduceExclude(h, NameSet(h.axes)).axes == h.axes
    ensures ReduceExclude(h, NameSet(h.axes)).at(b) == h.at(b)
  {
    var keep := NameSet(h.axes);
    KeepAll(h.axes, keep);
    var summed := Drop(h.axes, keep);
    assert summed == [] by {
      DropEmptyNames(h.axes, keep);
    }
    assert LoopBins(summed) == [map[]];
    assert b + map[] == b;
    var s := seq(1, k requires 0 <= k < 1 => h.at(b + LoopBins(summed)[k]));
    assert Sum(s) == s[0] + Sum([]);
  }

  lemma {:induction false} DropEmptyNames(axes: seq<Axis>, names: set<string>)
    requires NameSet(axes) <= names
    ensures Drop(axes, names) == []
  {
    if axes != [] {
      assert axes[0] in axes;
      assert NameSet(axes[1..]) <= NameSet(axes) by {
        forall a | a in axes[1..] ensures a in axes {}
      }
      DropEmptyNames(axes[1..], names);
    }
  }

  lemma {:induction false} KeepAll(axes: seq<Axis>, names: set<string>)
    requires NameSet(axes) <= names
    ensures Keep(axes, names) == axes
  {
    if axes != [] {
      assert axes[0] in axes;
      assert NameSet(axes[1..]) <= NameSet(axes) by {
        forall a | a in axes[1..] ensures a in axes {}
      }
      KeepAll(axes[1..], names);
    }
  }

  // ---------------------------------------------------------------------------------------
  // what a reduction adds up

  /** `f` summed over `bins`, in order. */
  function SumMap(f: Bin -> real, bins: seq<Bin>): real
  {
    if bins == [] then 0.0 else f(bins[0]) + SumMap(f, bins[1..])
  }

  /** `h` seen from bin `b`: `t` addresses the bin `b + t`. */
  function From(h: Hist, b: Bin): Bin -> real
  {
    (t: Bin) => h.at(b + t)
  }

  /** `f` with the axis `name` pinned to bin `i`. */
  function Pinned(f: Bin -> real, name: string, i: nat): Bin -> real
  {
    (c: Bin) => f(c[name := i])
  }

  /** Block `i` of the loop over a new slowest axis `name`: `rest` with `name` pinned to `i`. */
  function BlockSums(f: Bin -> real, rest: seq<Bin>, name: string): nat -> real
  {
    (i: nat) => SumMap(Pinned(f, name, i), rest)
  }

  /** `f` along the single axis `name`. */
  function Along(f: Bin -> real, name: string): nat -> real
  {
    (i: nat) => f(map[name := i])
  }

  /** `h` along the axis `x`, every other axis fixed by `b`. */
  function AxisValues(h: Hist, b: Bin, x: string): nat -> real
  {
    (i: nat) => h.at(b[x := i])
  }

  /** `h` on the grid of the axes `x` (rows) and `y` (columns), every other axis fixed by `b`. */
  function Grid(h: Hist, b: Bin, x: string, y: string): (nat, nat) -> real
  {
    (i: nat, j: nat) => h.at(b[x := i][y := j])
  }

  lemma {:induction false} SumOverIsSumMap(h: Hist, axes: seq<Axis>, b: Bin)
    ensures SumOver(h, axes, b) == SumMap(From(h, b), LoopBins(axes))
  {
    var ds := LoopBins(axes);
    var xs := seq(|ds|, k requires 0 <= k < |ds| => h.at(b + ds[k]));
    var ys := seq(|ds|, k requires 0 <= k < |ds| => From(h, b)(ds[k]));
    forall k | 0 <= k < |ds|
      ensures xs[k] == ys[k]
    {
      assert ys[k] == From(h, b)(ds[k]) == h.at(b + ds[k]);
    }
    assert xs == ys;
    SumSeqIsSumMap(From(h, b), ds);
  }

  lemma {:induction false} SumSeqIsSumMap(f: Bin -> real, ds: seq<Bin>)
    ensures Sum(seq(|ds|, k requires 0 <= k < |ds| => f(ds[k]))) == SumMap(f, ds)
  {
    if ds != [] {
      var s := seq(|ds|, k requires 0 <= k < |ds| => f(ds[k]));
      assert s[1..] == seq(|ds[1..]|, k requires 0 <= k < |ds[1..]| => f(ds[1..][k]));
      SumSeqIsSumMap(f, ds[1..]);
    }
  }

  lemma {:induction false} SumMapAppend(f: Bin -> real, xs: seq<Bin>, ys: seq<Bin>)
    ensures SumMap(f, xs + ys) == SumMap(f, xs) + SumMap(f, ys)
  {
    if xs != [] {
      assert (xs + ys)[0] == xs[0];
      assert (xs + ys)[1..] == xs[1..] + ys;
      SumMapAppend(f, xs[1..], ys);
    } else {
      assert xs + ys == ys;
    }
  }

  lemma {:induction false} SumMapExtend(f: Bin -> real, rest: seq<Bin>, name: string, i: nat)
    ensures SumMap(f, Extend(rest, name, i)) == SumMap(Pinned(f, name, i), rest)
  {
    if rest != [] {
      assert Extend(rest, name, i)[1..] == Extend(rest[1..], name, i);
      SumMapExtend(f, rest[1..], name, i);
    }
  }

  /** The loop over a new slowest axis adds up one block per bin of that axis. */
  lemma {:induction false} SumMapBlocks(f: Bin -> real, rest: seq<Bin>, name: string, n: nat)
    ensures SumMap(f, Blocks(rest, name, n)) == RangeSum(BlockSums(f, rest, name), n)
  {
    if n > 0 {
      SumMapBlocks(f, rest, name, n - 1);
      SumMapAppend(f, Blocks(rest, name, n - 1), Extend(rest, name, n - 1));
      SumMapExtend(f, rest, name, n - 1);
    }
  }

  /** Over a single axis, the loop visits its bins `0 … size - 1` once each. */
  lemma {:induction false} SumMapOneAxis(f: Bin -> real, x: Axis)
    ensures SumMap(f, LoopBins([x])) == RangeSum(Along(f, x.name), x.size)
  {
    var e: Bin := map[];
    assert [x][1..] == [];
    assert LoopBins([x]) == Blocks([e], x.name, x.size);
    SumMapBlocks(f, [e], x.name, x.size);
    forall i: nat | i < x.size
      ensures BlockSums(f, [e], x.name)(i) == Along(f, x.name)(i)
    {
      assert e[x.name := i] == map[x.name := i];
      assert [e][1..] == [];
      assert SumMap(Pinned(f, x.name, i), [e]) == Pinned(f, x.name, i)(e) + SumMap(Pinned(f, x.name, i), []);
    }
    RangeSumExt(BlockSums(f, [e], x.name), Along(f, x.name), x.size);
  }

  /** The axis called `name`, with its size, is one of the axes. */
  lemma {:induction false} SizeOfMember(axes: seq<Axis>, name: string)
    requires name in NameSet(axes)
    ensures Axis(name, SizeOf(axes, name)) in axes
  {
    if axes[0].name != name {
      assert name in NameSet(axes[1..]);
      SizeOfMember(axes[1..], name);
    }
  }

  lemma {:induction false} KeepNone(axes: seq<Axis>, names: set<string>)
    requires forall a :: a in axes ==> a.name !in names
    ensures Keep(axes, names) == []
  {
    if axes != [] {
      assert axes[0] in axes;
      KeepNone(axes[1..], names);
    }
  }

  lemma {:induction false} KeepOne(axes: seq<Axis>, x: string)
    requires UniqueNames(axes) && x in NameSet(axes)
    ensures Keep(axes, {x}) == [Axis(x, SizeOf(axes, x))]
  {
    NameSetTail(axes);
    if axes[0].name == x {
      KeepNone(axes[1..], {x});
    } else {
      assert x in NameSet(axes[1..]);
      KeepOne(axes[1..], x);
    }
  }

  /** Two named axes are kept in the order the histogram has them. */
  lemma {:induction false} KeepTwo(axes: seq<Axis>, x: string, y: string)
    requires UniqueNames(axes) && x != y && x in NameSet(axes) && y in NameSet(axes)
    ensures Keep(axes, {x, y}) == [Axis(x, SizeOf(axes, x)), Axis(y, SizeOf(axes, y))]
         || Keep(axes, {x, y}) == [Axis(y, SizeOf(axes, y)), Axis(x, SizeOf(axes, x))]
  {
    NameSetTail(axes);
    if axes[0].name == x {
      assert y in NameSet(axes[1..]);
      KeepIgnoresAbsent(axes[1..], {x, y}, x);
      assert {x, y} - {x} == {y};
      KeepOne(axes[1..], y);
    } else if axes[0].name == y {
      assert x in NameSet(axes[1..]);
      KeepIgnoresAbsent(axes[1..], {x, y}, y);
      assert {x, y} - {y} == {x};
      KeepOne(axes[1..], x);
    } else {
      assert x in NameSet(axes[1..]) && y in NameSet(axes[1..]);
      KeepTwo(axes[1..], x, y);
    }
  }

  lemma {:induction false} KeepIgnoresAbsent(axes: seq<Axis>, names: set<string>, z: string)
    requires z !in NameSet(axes)
    ensures Keep(axes, names) == Keep(axes, names - {z})
  {
    if axes != [] {
      assert axes[0] in axes;
      assert z !in NameSet(axes[1..]) by {
        forall a | a in axes[1..] ensures a in axes {}
      }
      KeepIgnoresAbsent(axes[1..], names, z);
    }
  }

  /** `h` summed over the bins of the axes `x` (size `sx`, outer) and `y` (size `sy`,
      inner), every other axis fixed by `b`. */
  function SumTwo(h: Hist, x: string, sx: nat, y: string, sy: nat, b: Bin): real
  {
    RangeSum(RowSum(Grid(h, b, x, y), sy), sx)
  }

  lemma SumTwoSymmetric(h: Hist, x: string, sx: nat, y: string, sy: nat, b: Bin)
    requires x != y
    ensures SumTwo(h, x, sx, y, sy, b) == SumTwo(h, y, sy, x, sx, b)
  {
    var f, g := Grid(h, b, x, y), Grid(h, b, y, x);
    RangeSumSwap(f, sx, sy);
    forall j: nat | j < sy
      ensures ColumnSum(f, sx)(j) == RowSum(g, sx)(j)
    {
      forall i: nat | i < sx
        ensures ColumnOf(f, j)(i) == RowOf(g, j)(i)
      {
        assert b[x := i][y := j] == b[y := j][x := i];
      }
      RangeSumExt(ColumnOf(f, j), RowOf(g, j), sx);
    }
    RangeSumExt(ColumnSum(f, sx), RowSum(g, sx), sy);
  }

  /** Summing one axis adds up the histogram over that axis's bins, every other axis fixed. */
  lemma ReduceOneAxis(h: Hist, x: string, b: Bin)
    requires UniqueNames(h.axes) && x in NameSet(h.axes)
    ensures ReduceAxes(h, {x}).axes == Drop(h.axes, {x})
    ensures ReduceAxes(h, {x}).at(b) == RangeSum(AxisValues(h, b, x), SizeOf(h.axes, x))
  {
    var ax := Axis(x, SizeOf(h.axes, x));
    KeepOne(h.axes, x);
    SumOverIsSumMap(h, [ax], b);
    SumMapOneAxis(From(h, b), ax);
    forall i: nat | i < ax.size
      ensures Along(From(h, b), x)(i) == AxisValues(h, b, x)(i)
    {
      assert b + map[x := i] == b[x := i];
    }
    RangeSumExt(Along(From(h, b), x), AxisValues(h, b, x), ax.size);
  }

  /** Summing two axes at once adds up the histogram over the bins of both. */
  lemma ReduceTwoAxes(h: Hist, x: string, y: string, b: Bin)
    requires UniqueNames(h.axes) && x != y && x in NameSet(h.axes) && y in NameSet(h.axes)
    ensures ReduceAxes(h, {x, y}).at(b) == SumTwo(h, x, SizeOf(h.axes, x), y, SizeOf(h.axes, y), b)
  {
    KeepTwo(h.axes, x, y);
    var sx, sy := SizeOf(h.axes, x), SizeOf(h.axes, y);
    if Keep(h.axes, {x, y}) == [Axis(x, sx), Axis(y, sy)] {
      SumOverTwo(h, x, sx, y, sy, b);
    } else {
      SumOverTwo(h, y, sy, x, sx, b);
      SumTwoSymmetric(h, y, sy, x, sx, b);
    }
  }

  lemma SumOverTwo(h: Hist, p: string, sp: nat, q: string, sq: nat, b: Bin)
    requires p != q
    ensures SumOver(h, [Axis(p, sp), Axis(q, sq)], b) == SumTwo(h, p, sp, q, sq, b)
  {
    var axes := [Axis(p, sp), Axis(q, sq)];
    var inner := LoopBins([Axis(q, sq)]);
    assert axes[1..] == [Axis(q, sq)];
    assert LoopBins(axes) == Blocks(inner, p, sp);
    SumOverIsSumMap(h, axes, b);
    SumMapBlocks(From(h, b), inner, p, sp);
    forall i: nat | i < sp
      ensures BlockSums(From(h, b), inner, p)(i) == RowSum(Grid(h, b, p, q), sq)(i)
    {
      SumOverRow(h, p, i, q, sq, b);
    }
    RangeSumExt(BlockSums(From(h, b), inner, p), RowSum(Grid(h, b, p, q), sq), sp);
  }

  lemma SumOverRow(h: Hist, p: string, i: nat, q: string, sq: nat, b: Bin)
    requires p != q
    ensures SumMap(Pinned(From(h, b), p, i), LoopBins([Axis(q, sq)]))
         == RangeSum(RowOf(Grid(h, b, p, q), i), sq)
  {
    var g := Pinned(From(h, b), p, i);
    SumMapOneAxis(g, Axis(q, sq));
    forall j: nat | j < sq
      ensures Along(g, q)(j) == RowOf(Grid(h, b, p, q), i)(j)
    {
      assert b + map[q := j][p := i] == b[p := i][q := j];
    }
    RangeSumExt(Along(g, q), RowOf(Grid(h, b, p, q), i), sq);
  }

  /** `reduce_hist` in two steps, one axis after the other, agrees with summing both axes
      at once, whichever axis goes first. */
  lemma ReduceInTurn(h: Hist, x: string, y: string, b: Bin)
    requires UniqueNames(h.axes) && x != y && x in NameSet(h.axes) && y in NameSet(h.axes)
    ensures ReduceAxes(ReduceAxes(h, {x}), {y}).at(b) == ReduceAxes(h, {x, y}).at(b)
    ensures ReduceAxes(ReduceAxes(h, {x}), {y}).at(b) == ReduceAxes(ReduceAxes(h, {y}), {x}).at(b)
  {
    ReduceAfter(h, x, y, b);
    ReduceAfter(h, y, x, b);
    ReduceTwoAxes(h, x, y, b);
    SumTwoSymmetric(h, x, SizeOf(h.axes, x), y, SizeOf(h.axes, y), b);
    assert {x, y} == {y, x};
  }

  lemma ReduceAfter(h: Hist, x: string, y: string, b: Bin)
    requires UniqueNames(h.axes) && x != y && x in NameSet(h.axes) && y in NameSet(h.axes)
    ensures ReduceAxes(ReduceAxes(h, {x}), {y}).at(b)
         == SumTwo(h, y, SizeOf(h.axes, y), x, SizeOf(h.axes, x), b)
  {
    var once := ReduceAxes(h, {x});
    var sx, sy := SizeOf(h.axes, x), SizeOf(h.axes, y);
    SizeAfterDrop(h.axes, x, y);
    ReduceOneAxis(once, y, b);
    forall j: nat | j < sy
      ensures AxisValues(once, b, y)(j) == RowSum(Grid(h, b, y, x), sx)(j)
    {
      ReduceOneAxis(h, x, b[y := j]);
      RangeSumExt(AxisValues(h, b[y := j], x), RowOf(Grid(h, b, y, x), j), sx);
    }
    RangeSumExt(AxisValues(once, b, y), RowSum(Grid(h, b, y, x), sx), sy);
  }

  /** Dropping one axis leaves another axis, and its size, as they were. */
  lemma SizeAfterDrop(axes: seq<Axis>, x: string, y: string)
    requires UniqueNames(axes) && x != y && y in NameSet(axes)
    ensures y in NameSet(Drop(axes, {x})) && SizeOf(Drop(axes, {x}), y) == SizeOf(axes, y)
  {
    SizeOfMember(axes, y);
    assert Axis(y, SizeOf(axes, y)) in Drop(axes, {x});
    SizeOfIsAxis(Drop(axes, {x}), Axis(y, SizeOf(axes, y)));
  }

  /** `reduce_hist(h, exclude=keep)` is `reduce_hist(h, reduce=…)` over every other axis. */
  lemma ReduceExcludeIsReduceAxes(h: Hist, keep: set<string>, b: Bin)
    ensures ReduceExclude(h, keep).axes == ReduceAxes(h, NameSet(h.axes) - keep).axes
    ensures ReduceExclude(h, keep).at(b) == ReduceAxes(h, NameSet(h.axes) - keep).at(b)
  {
    KeepComplement(h.axes, NameSet(h.axes), keep);
  }

  /** Excluding every axis but `x` from the sum adds up the histogram along `x`. */
  lemma ReduceExcludeOneAxis(h: Hist, x: string, b: Bin)
    requires UniqueNames(h.axes) && x in NameSet(h.axes)
    ensures ReduceExclude(h, NameSet(h.axes) - {x}).at(b)
         == RangeSum(AxisValues(h, b, x), SizeOf(h.axes, x))
  {
    var names := NameSet(h.axes);
    ReduceExcludeIsReduceAxes(h, names - {x}, b);
    assert names - (names - {x}) == {x};
    ReduceOneAxis(h, x, b);
  }

  lemma {:induction false} KeepComplement(axes: seq<Axis>, names: set<string>, keep: set<string>)
    requires NameSet(axes) <= names
    ensures Keep(axes, names - keep) == Drop(axes, keep)
    ensures Drop(axes, names - keep) == Keep(axes, keep)
  {
    if axes != [] {
      assert axes[0] in axes;
      assert NameSet(axes[1..]) <= NameSet(axes) by {
        forall a | a in axes[1..] ensures a in axes {}
      }
      KeepComplement(axes[1..], names, keep);
    }
  }

  /** The sub-histogram at bin `idx` over the remaining axes `rest`: `h[idx]`. */
  function Slice(h: Hist, idx: Bin, rest: seq<Axis>): Hist
  {
    Hist(rest, (t: Bin) => h.at(idx + t))
  }
}
