/** Rules of the histogram tasks: the leaf-category check, the chained selection masks
    applied to events, weights and category ids together, merging histograms by summation,
    the variables a run with `only_missing` creates, and the mandatory columns. A histogram
    is its list of bin contents; every histogram merged for one variable has the same bins. */
module HistogramTasks {
  import opened Wrappers
  import opened Seqs

  datatype HistError =
    | UndefinedCategories(ids: set<int>)   // the ValueError the check means to raise
    | JoinTypeError                        // `str.join` over integer ids
    | InvalidSelection(text: string)
    | MaskLength
    | NoInputs
    | MissingVariable(name: string)

  // ---------------------------------------------------------------------------------------
  // category ids

  /** The distinct category ids of all events (`np.unique(ak.flatten(category_ids))`). */
  function UniqueIds(ids: seq<seq<int>>): (r: set<int>)
    ensures forall c :: c in r <==> exists e :: 0 <= e < |ids| && c in ids[e]
  {
    if ids == [] then {}
    else
      var rest := UniqueIds(ids[1..]);
      assert forall e :: 1 <= e < |ids| ==> ids[1..][e - 1] == ids[e];
      (set c | c in ids[0]) + rest
  }

  /** The category check as written: the message lists the undefined ids with `str.join`,
      which rejects integers, so the check fails with a TypeError instead. */
  function CheckCategoriesAsWritten(ids: seq<seq<int>>, leaf: set<int>): (r: Result<(), HistError>)
    ensures r.Ok? <==> UniqueIds(ids) <= leaf
    ensures r.Err? ==> r.error == JoinTypeError
  {
    if exists c :: c in UniqueIds(ids) && c !in leaf then Err(JoinTypeError) else Ok(())
  }

  /** The category check raising the error it builds, naming every undefined id. */
  function CheckCategories(ids: seq<seq<int>>, leaf: set<int>): (r: Result<(), HistError>)
    ensures r.Ok? <==> forall e, k :: 0 <= e < |ids| && 0 <= k < |ids[e]| ==> ids[e][k] in leaf
    ensures r.Err? ==> r.error.UndefinedCategories? && r.error.ids != {}
    ensures r.Err? ==> forall c :: c in r.error.ids <==> c !in leaf && exists e :: 0 <= e < |ids| && c in ids[e]
  {
    if exists c :: c in UniqueIds(ids) && c !in leaf then
      var c :| c in UniqueIds(ids) && c !in leaf;
      var e :| 0 <= e < |ids| && c in ids[e];
      var k :| 0 <= k < |ids[e]| && ids[e][k] == c;
      assert c in UniqueIds(ids) - leaf;
      Err(UndefinedCategories(UniqueIds(ids) - leaf))
    else
      assert forall e, k :: 0 <= e < |ids| && 0 <= k < |ids[e]| ==> ids[e][k] in UniqueIds(ids);
      Ok(())
  }

  /** Both checks fail on the same inputs; only the corrected one names the ids. */
  lemma CheckCategoriesAgree(ids: seq<seq<int>>, leaf: set<int>)
    ensures CheckCategoriesAsWritten(ids, leaf).Ok? <==> CheckCategories(ids, leaf).Ok?
  {
  }

  /** An event in category 7 where only 1 is a leaf: the check as written reports a
      TypeError where the id 7 should be named. */
  lemma CheckCategoriesExample()
    ensures CheckCategoriesAsWritten([[1], [7]], {1}) == Err(JoinTypeError)
    ensures CheckCategories([[1], [7]], {1}) == Err(UndefinedCategories({7}))
  {
    assert 7 in [[1], [7]][1];
    assert UniqueIds([[1], [7]]) == {1, 7};
    assert {1, 7} - {1} == {7};
  }

  // ---------------------------------------------------------------------------------------
  // selection masks

  /** A variable's selection: an expression string (only "1", no selection, is accepted) or
      a callable mapping the events to a mask. */
  datatype Sel<!E> = Expr(text: string) | Func(f: seq<E> -> seq<bool>)

  /** The three arrays that are masked together. */
  datatype Masked<E> = Masked(events: seq<E>, weights: seq<real>, categories: seq<seq<int>>)
  {
    predicate Aligned() { |events| == |weights| == |categories| }
  }

  function MaskWith<E>(m: Masked<E>, mask: seq<bool>): (r: Masked<E>)
    requires m.Aligned() && |mask| == |m.events|
    ensures r.Aligned() && |r.events| == CountTrue(mask)
  {
    Masked(Select(m.events, mask), Select(m.weights, mask), Select(m.categories, mask))
  }

  ghost predicate LengthPreserving<E(!new)>(f: seq<E> -> seq<bool>)
  {
    forall xs :: |f(xs)| == |xs|
  }

  /** The selections of a variable's axes, applied one after the other, each to the events
      the previous ones kept. */
  function ApplySelections<E>(sels: seq<Sel<E>>, m: Masked<E>): (r: Result<Masked<E>, HistError>)
    requires m.Aligned()
    ensures r.Ok? ==> r.value.Aligned() && |r.value.events| <= |m.events|
    ensures r.Err? && r.error.InvalidSelection? ==> Expr(r.error.text) in sels && r.error.text != "1"
    ensures r.Err? ==> r.error.InvalidSelection? || r.error.MaskLength?
    ensures (forall k :: 0 <= k < |sels| ==> sels[k] == Expr("1")) ==> r == Ok(m)
    ensures r.Ok? ==> forall k :: 0 <= k < |sels| && sels[k].Expr? ==> sels[k].text == "1"
  {
    if sels == [] then Ok(m)
    else
      assert forall k :: 1 <= k < |sels| ==> sels[1..][k - 1] == sels[k];
      match sels[0]
      case Expr(text) =>
        if text == "1" then ApplySelections(sels[1..], m) else Err(InvalidSelection(text))
      case Func(f) =>
        var mask := f(m.events);
        if |mask| != |m.events| then Err(MaskLength)
        else ApplySelections(sels[1..], MaskWith(m, mask))
  }

  /** Selections fail only on an expression other than "1" or a mask of the wrong length. */
  lemma {:induction false} SelectionsSucceed<E(!new)>(sels: seq<Sel<E>>, m: Masked<E>)
    requires m.Aligned()
    requires forall k :: 0 <= k < |sels| ==> sels[k].Expr? ==> sels[k].text == "1"
    requires forall k :: 0 <= k < |sels| ==> sels[k].Func? ==> LengthPreserving(sels[k].f)
    ensures ApplySelections(sels, m).Ok?
  {
    if sels != [] {
      assert forall k :: 1 <= k < |sels| ==> sels[1..][k - 1] == sels[k];
      match sels[0]
      case Expr(_) => SelectionsSucceed(sels[1..], m);
      case Func(f) =>
        assert |f(m.events)| == |m.events|;
        SelectionsSucceed(sels[1..], MaskWith(m, f(m.events)));
    }
  }

  /** The first expression other than "1", behind callables that keep the number of events,
      is the error the selections stop with. */
  lemma {:induction false} InvalidSelectionFails<E(!new)>(sels: seq<Sel<E>>, m: Masked<E>, k: nat)
    requires m.Aligned()
    requires k < |sels| && sels[k].Expr? && sels[k].text != "1"
    requires forall j :: 0 <= j < k ==> sels[j].Expr? ==> sels[j].text == "1"
    requires forall j :: 0 <= j < k ==> sels[j].Func? ==> LengthPreserving(sels[j].f)
    ensures ApplySelections(sels, m) == Err(InvalidSelection(sels[k].text))
    decreases k
  {
    if k > 0 {
      assert forall j :: 1 <= j < |sels| ==> sels[1..][j - 1] == sels[j];
      match sels[0]
      case Expr(_) => InvalidSelectionFails(sels[1..], m, k - 1);
      case Func(f) =>
        assert |f(m.events)| == |m.events|;
        InvalidSelectionFails(sels[1..], MaskWith(m, f(m.events)), k - 1);
    }
  }

  /** The mask of the original events that selecting with `m1` and then, among the kept
      ones, with `m2` amounts to. */
  function Compose(m1: seq<bool>, m2: seq<bool>): (r: seq<bool>)
    requires |m2| == CountTrue(m1)
    ensures |r| == |m1|
  {
    if m1 == [] then []
    else if m1[0] then [m2[0]] + Compose(m1[1..], m2[1..])
    else [false] + Compose(m1[1..], m2)
  }

  lemma {:induction false} SelectCompose<T>(xs: seq<T>, m1: seq<bool>, m2: seq<bool>)
    requires |xs| == |m1| && |m2| == CountTrue(m1)
    ensures Select(Select(xs, m1), m2) == Select(xs, Compose(m1, m2))
  {
    if xs != [] {
      var c := Compose(m1, m2);
      if m1[0] {
        SelectCompose(xs[1..], m1[1..], m2[1..]);
        assert c[1..] == Compose(m1[1..], m2[1..]);
        assert Select(xs, m1)[1..] == Select(xs[1..], m1[1..]);
      } else {
        SelectCompose(xs[1..], m1[1..], m2);
        assert c[1..] == Compose(m1[1..], m2);
      }
    }
  }

  /** The chained selections keep events, weights and category ids together: the result is
      all three arrays masked with one and the same mask over the original events. */
  lemma {:induction false} SelectionsAreJoint<E>(sels: seq<Sel<E>>, m: Masked<E>) returns (mask: seq<bool>)
    requires m.Aligned()
    requires ApplySelections(sels, m).Ok?
    ensures |mask| == |m.events|
    ensures ApplySelections(sels, m).value == MaskWith(m, mask)
  {
    if sels == [] {
      mask := seq(|m.events|, _ => true);
      CountAllTrue(mask);
      SelectAll(m.events, mask);
      SelectAll(m.weights, mask);
      SelectAll(m.categories, mask);
    } else {
      match sels[0]
      case Expr(_) =>
        mask := SelectionsAreJoint(sels[1..], m);
      case Func(f) =>
        var first := f(m.events);
        var inner := SelectionsAreJoint(sels[1..], MaskWith(m, first));
        mask := Compose(first, inner);
        SelectCompose(m.events, first, inner);
        SelectCompose(m.weights, first, inner);
        SelectCompose(m.categories, first, inner);
    }
  }

  lemma {:induction false} SelectAll<T>(xs: seq<T>, m: seq<bool>)
    requires |xs| == |m| && forall e :: 0 <= e < |m| ==> m[e]
    ensures Select(xs, m) == xs
  {
    if xs != [] {
      SelectAll(xs[1..], m[1..]);
    }
  }

  // ---------------------------------------------------------------------------------------
  // merging

  /** Bin-wise sum of two histograms with the same bins. */
  function Add(a: seq<real>, b: seq<real>): (r: seq<real>)
    requires |a| == |b|
    ensures |r| == |a| && forall i :: 0 <= i < |r| ==> r[i] == a[i] + b[i]
  {
    seq(|a|, i requires 0 <= i < |a| => a[i] + b[i])
  }

  predicate SameBins(hs: seq<seq<real>>)
  {
    forall k :: 0 <= k < |hs| ==> |hs[k]| == |hs[0]|
  }

  /** The contents of bin `b` across the histograms. */
  function Column(hs: seq<seq<real>>, b: nat): (r: seq<real>)
    requires forall k :: 0 <= k < |hs| ==> b < |hs[k]|
    ensures |r| == |hs| && forall k :: 0 <= k < |hs| ==> r[k] == hs[k][b]
  {
    seq(|hs|, k requires 0 <= k < |hs| => hs[k][b])
  }

  /** `sum(hists[1:], hists[0].copy())`: every bin of the merged histogram is the sum of
      that bin over all inputs; without inputs there is nothing to copy. */
  method Merge(hs: seq<seq<real>>) returns (r: Result<seq<real>, HistError>)
    requires SameBins(hs)
    ensures r.Err? <==> hs == []
    ensures r.Err? ==> r.error == NoInputs
    ensures r.Ok? ==> |r.value| == |hs[0]|
    ensures r.Ok? ==> forall b :: 0 <= b < |r.value| ==> r.value[b] == Sum(Column(hs, b))
  {
    if hs == [] {
      return Err(NoInputs);
    }
    var acc := hs[0];
    for k := 1 to |hs|
      invariant |acc| == |hs[0]|
      invariant forall b :: 0 <= b < |acc| ==> acc[b] == Sum(Column(hs[..k], b))
    {
      forall b | 0 <= b < |acc|
        ensures acc[b] + hs[k][b] == Sum(Column(hs[..k + 1], b))
      {
        assert Column(hs[..k + 1], b) == Column(hs[..k], b) + [hs[k][b]];
        SumAppend(Column(hs[..k], b), [hs[k][b]]);
        assert Sum([hs[k][b]]) == hs[k][b] + Sum([]);
      }
      acc := Add(acc, hs[k]);
    }
    forall b | 0 <= b < |acc| ensures acc[b] == Sum(Column(hs, b)) {
      assert hs[..|hs|] == hs;
    }
    return Ok(acc);
  }

  /** Merging one variable: the histogram of that variable from every input; an input
      without it fails like the dict lookup does. */
  method MergeVariable(inputs: seq<map<string, seq<real>>>, name: string) returns (r: Result<seq<real>, HistError>)
    requires |inputs| > 0 ==> name in inputs[0]
    requires forall k :: 0 <= k < |inputs| && name in inputs[k] ==> |inputs[k][name]| == |inputs[0][name]|
    ensures inputs == [] ==> r == Err(NoInputs)
    ensures (exists k :: 0 <= k < |inputs| && name !in inputs[k]) ==> r == Err(MissingVariable(name))
    ensures r.Ok? <==> inputs != [] && forall k :: 0 <= k < |inputs| ==> name in inputs[k]
    ensures r.Ok? ==>
      && |r.value| == |inputs[0][name]|
      && forall b :: 0 <= b < |r.value| ==> r.value[b] == Sum(Column(VariableHists(inputs, name), b))
  {
    if inputs == [] {
      return Err(NoInputs);
    }
    if exists k :: 0 <= k < |inputs| && name !in inputs[k] {
      return Err(MissingVariable(name));
    }
    r := Merge(VariableHists(inputs, name));
  }

  /** Every input's histogram of one variable. */
  function VariableHists(inputs: seq<map<string, seq<real>>>, name: string): (r: seq<seq<real>>)
    requires forall k :: 0 <= k < |inputs| ==> name in inputs[k]
    ensures |r| == |inputs| && forall k :: 0 <= k < |inputs| ==> r[k] == inputs[k][name]
  {
    seq(|inputs|, k requires 0 <= k < |inputs| => inputs[k][name])
  }

  // ---------------------------------------------------------------------------------------
  // variables and columns

  /** `_get_variables`: with `only_missing`, the variables whose output is missing, ordered
      like `variables`. */
  function GetVariables(variables: seq<string>, onlyMissing: bool, missing: seq<string>): (r: seq<string>)
    ensures !onlyMissing ==> r == variables
    ensures onlyMissing ==> multiset(r) == multiset(missing)
    ensures onlyMissing ==> forall i, j :: 0 <= i < j < |r| ==> Position(variables, r[i]) <= Position(variables, r[j])
  {
    if onlyMissing then SortByPosition(missing, variables) else variables
  }

  /** The members of `xs` that are in `allowed`, in the order of `xs`. */
  function KeepMembers(xs: seq<string>, allowed: seq<string>): (r: seq<string>)
    ensures forall x :: x in r <==> x in xs && x in allowed
  {
    if xs == [] then []
    else (if xs[0] in allowed then [xs[0]] else []) + KeepMembers(xs[1..], allowed)
  }

  /** `xs` lists members at strictly increasing positions of `order`. */
  predicate Increasing(order: seq<string>, xs: seq<string>)
  {
    forall i, j :: 0 <= i < j < |xs| ==> Position(order, xs[i]) < Position(order, xs[j])
  }

  /** With distinct variables and missing outputs, `only_missing` yields exactly the
      variables whose outputs are missing, in their original order. */
  lemma OnlyMissingKeepsOrder(variables: seq<string>, missing: seq<string>)
    requires NoDups(variables) && NoDups(missing)
    requires forall k :: 0 <= k < |missing| ==> missing[k] in variables
    ensures GetVariables(variables, true, missing) == KeepMembers(variables, missing)
  {
    var r := GetVariables(variables, true, missing);
    var kept := KeepMembers(variables, missing);
    SortedDistinctIsIncreasing(variables, missing, r);
    IncreasingInOwnOrder(variables);
    KeepMembersIncreasing(variables, variables, missing);
    SortedUnique(r, kept, variables);
  }

  /** Sorting distinct members of `order` by position orders them strictly. */
  lemma SortedDistinctIsIncreasing(order: seq<string>, xs: seq<string>, r: seq<string>)
    requires NoDups(xs) && multiset(r) == multiset(xs)
    requires forall k :: 0 <= k < |xs| ==> xs[k] in order
    requires forall i, j :: 0 <= i < j < |r| ==> Position(order, r[i]) <= Position(order, r[j])
    ensures forall i :: 0 <= i < |r| ==> r[i] in order
    ensures forall x :: x in r <==> x in xs
    ensures Increasing(order, r)
  {
    forall x ensures x in r <==> x in xs {
      assert x in r <==> x in multiset(r);
      assert x in xs <==> x in multiset(xs);
    }
    forall i | 0 <= i < |r| ensures r[i] in order {
      assert r[i] in xs;
      var k :| 0 <= k < |xs| && xs[k] == r[i];
    }
    NoDupsMultiset(xs);
    NoDupsMultiset(r);
    forall i, j | 0 <= i < j < |r| ensures Position(order, r[i]) < Position(order, r[j]) {
      assert r[i] != r[j];
      PositionDistinct(order, r[i], r[j]);
    }
  }

  /** A sequence without repetitions is one whose multiset counts every element at most once. */
  lemma {:induction false} NoDupsMultiset(s: seq<string>)
    ensures NoDups(s) <==> forall x :: multiset(s)[x] <= 1
  {
    if s != [] {
      NoDupsMultiset(s[1..]);
      assert s == [s[0]] + s[1..];
      assert multiset(s) == multiset{s[0]} + multiset(s[1..]);
      if NoDups(s) {
        assert NoDups(s[1..]) by {
          forall i, j | 0 <= i < j < |s[1..]| ensures s[1..][i] != s[1..][j] {
            assert s[1..][i] == s[i + 1] && s[1..][j] == s[j + 1];
          }
        }
        assert s[0] !in s[1..];
      }
      if forall x :: multiset(s)[x] <= 1 {
        assert multiset(s)[s[0]] == 1 + multiset(s[1..])[s[0]];
        assert s[0] !in multiset(s[1..]);
        forall x ensures multiset(s[1..])[x] <= 1 {
          assert multiset(s)[x] == multiset{s[0]}[x] + multiset(s[1..])[x];
        }
        forall i, j | 0 <= i < j < |s| ensures s[i] != s[j] {
          if i == 0 {
            assert s[j] == s[1..][j - 1];
            assert s[j] in multiset(s[1..]);
          } else {
            assert s[i] == s[1..][i - 1] && s[j] == s[1..][j - 1];
          }
        }
      }
    }
  }

  lemma PositionInjective(order: seq<string>, x: string, y: string)
    requires x in order && y in order && Position(order, x) == Position(order, y)
    ensures x == y
  {
  }

  lemma PositionDistinct(order: seq<string>, x: string, y: string)
    requires x in order && y in order && x != y
    ensures Position(order, x) != Position(order, y)
  {
  }

  /** A list without repetitions lists its own elements in increasing position. */
  lemma IncreasingInOwnOrder(order: seq<string>)
    requires NoDups(order)
    ensures Increasing(order, order)
  {
    forall i | 0 <= i < |order| ensures Position(order, order[i]) == i {
      var p := IndexOf(order, order[i]);
      assert order[p] == order[i];
    }
  }

  /** Keeping some members of an increasing list keeps it increasing. */
  lemma {:induction false} KeepMembersIncreasing(order: seq<string>, xs: seq<string>, allowed: seq<string>)
    requires Increasing(order, xs)
    ensures Increasing(order, KeepMembers(xs, allowed))
  {
    if xs != [] {
      var tail := KeepMembers(xs[1..], allowed);
      assert Increasing(order, xs[1..]) by {
        forall i, j | 0 <= i < j < |xs[1..]|
          ensures Position(order, xs[1..][i]) < Position(order, xs[1..][j])
        {
          assert xs[1..][i] == xs[i + 1] && xs[1..][j] == xs[j + 1];
        }
      }
      KeepMembersIncreasing(order, xs[1..], allowed);
      if xs[0] in allowed {
        var r := [xs[0]] + tail;
        forall i, j | 0 <= i < j < |r| ensures Position(order, r[i]) < Position(order, r[j]) {
          assert r[j] == tail[j - 1];
          assert tail[j - 1] in xs[1..];
          var k :| 1 <= k < |xs| && xs[k] == tail[j - 1];
          if i > 0 {
            assert r[i] == tail[i - 1];
          }
        }
      }
    }
  }

  /** Two lists with the same members, each strictly ordered by position, are equal. */
  lemma {:induction false} SortedUnique(a: seq<string>, b: seq<string>, order: seq<string>)
    requires forall i :: 0 <= i < |a| ==> a[i] in order
    requires forall x :: x in a <==> x in b
    requires Increasing(order, a) && Increasing(order, b)
    ensures a == b
  {
    if a == [] {
      HeadIsMember(b);
    } else {
      assert a[0] in a;
      assert b != [];
      assert b[0] in b;
      var i :| 0 <= i < |a| && a[i] == b[0];
      var j :| 0 <= j < |b| && b[j] == a[0];
      assert Position(order, a[0]) <= Position(order, b[0]);
      assert Position(order, b[0]) <= Position(order, a[0]);
      PositionInjective(order, a[0], b[0]);
      TailMembers(a, b, order);
      IncreasingTail(order, a);
      IncreasingTail(order, b);
      SortedUnique(a[1..], b[1..], order);
      assert a == [a[0]] + a[1..] && b == [b[0]] + b[1..];
    }
  }

  lemma HeadIsMember(b: seq<string>)
    ensures |b| > 0 ==> b[0] in b
  {
  }

  lemma IncreasingTail(order: seq<string>, a: seq<string>)
    requires Increasing(order, a) && a != []
    ensures Increasing(order, a[1..])
  {
    forall p, q | 0 <= p < q < |a[1..]| ensures Position(order, a[1..][p]) < Position(order, a[1..][q]) {
      assert a[1..][p] == a[p + 1] && a[1..][q] == a[q + 1];
    }
  }

  /** Increasing lists with the same members and the same head share their tails' members. */
  lemma TailMembers(a: seq<string>, b: seq<string>, order: seq<string>)
    requires a != [] && b != [] && a[0] == b[0]
    requires forall x :: x in a <==> x in b
    requires Increasing(order, a) && Increasing(order, b)
    ensures forall x :: x in a[1..] <==> x in b[1..]
  {
    forall x ensures x in a[1..] ==> x in b[1..] {
      if x in a[1..] {
        var k :| 1 <= k < |a| && a[k] == x;
        assert Position(order, a[0]) < Position(order, a[k]);
        assert x in b && x != b[0];
        assert b == [b[0]] + b[1..];
      }
    }
    forall x ensures x in b[1..] ==> x in a[1..] {
      if x in b[1..] {
        var k :| 1 <= k < |b| && b[k] == x;
        assert Position(order, b[0]) < Position(order, b[k]);
        assert x in a && x != a[0];
        assert a == [a[0]] + a[1..];
      }
    }
  }

  /** `mandatory_columns`: the category id columns and the process id. */
  function MandatoryColumns(categoryIdColumns: set<string>): (r: set<string>)
    ensures "process_id" in r
    ensures forall c :: c in r <==> c in categoryIdColumns || c == "process_id"
  {
    categoryIdColumns + {"process_id"}
  }
}
