/** Cutflow histograms: the cumulative step masks of `CreateCutflowHistograms.run`, the fill
    point built for each step, the steps a plot shows, the branch maps of the two plotting
    tasks and their check of the shift axis. Histogram filling itself is not modelled: a
    step's fill is the pair (step name, event mask). */
module Cutflow {
  import opened Wrappers
  import opened Seqs

  const INITIAL_STEP: string := "Initial"

  /** How a requested step the selector did not define is handled. */
  datatype MissingStepStrategy = Raise | Ignore | Dummy

  /** The requested steps: the "all steps" sentinel or an explicit list. */
  datatype StepsArg = AllSteps | Steps(names: seq<string>)

  /** `sel.steps`: the step names in record order and one boolean mask per step. */
  datatype Selection = Selection(fields: seq<string>, masks: map<string, seq<bool>>)
  {
    predicate Valid(n: nat)
    {
      && (forall s :: s in masks ==> s in fields)
      && (forall k :: 0 <= k < |fields| ==> fields[k] in masks)
      && (forall s :: s in masks ==> |masks[s]| == n)
    }
  }

  /** A mask over the events; `None` is the unmasked `True` / `Ellipsis`. */
  type Mask = Option<seq<bool>>

  predicate MaskOk(m: Mask, n: nat)
  {
    m.Some? ==> |m.value| == n
  }

  predicate Selected(m: Mask, e: nat)
    requires m.Some? ==> e < |m.value|
  {
    m.None? || m.value[e]
  }

  /** Every event `a` selects is selected by `b`. */
  predicate Below(a: Mask, b: Mask, n: nat)
    requires MaskOk(a, n) && MaskOk(b, n)
  {
    forall e :: 0 <= e < n ==> Selected(a, e) ==> Selected(b, e)
  }

  /** `mask & step`, with the unmasked `True` as the identity. */
  function And(m: Mask, step: seq<bool>): (r: seq<bool>)
    requires m.Some? ==> |m.value| == |step|
    ensures |r| == |step|
    ensures forall e :: 0 <= e < |r| ==> r[e] == (Selected(m, e) && step[e])
  {
    match m
    case None => step
    case Some(a) => seq(|a|, e requires 0 <= e < |a| => a[e] && step[e])
  }

  /** The mask after the given steps: the conjunction of every defined step among them. */
  function Cumulative(sel: Selection, n: nat, ss: seq<string>): (r: Mask)
    requires sel.Valid(n)
    ensures MaskOk(r, n)
    ensures forall e :: 0 <= e < n ==>
      (Selected(r, e) <==> forall k :: 0 <= k < |ss| && ss[k] in sel.masks ==> sel.masks[ss[k]][e])
  {
    if ss == [] then None
    else
      var pre := ss[..|ss| - 1];
      var s := ss[|ss| - 1];
      var prev := Cumulative(sel, n, pre);
      assert forall k :: 0 <= k < |pre| ==> pre[k] == ss[k];
      if s in sel.masks then Some(And(prev, sel.masks[s])) else prev
  }

  /** A step's fill: its name and the events it selects. */
  datatype Fill = Fill(step: string, mask: Mask)

  /** The fills the selector steps produce, step by step: a defined step fills with the
      updated mask, a missing one with the unchanged mask under "dummy" and not at all
      otherwise. */
  function Expected(sel: Selection, n: nat, strategy: MissingStepStrategy, ss: seq<string>): (r: seq<Fill>)
    requires sel.Valid(n)
    ensures forall i :: 0 <= i < |r| ==> MaskOk(r[i].mask, n)
  {
    if ss == [] then []
    else
      var pre := ss[..|ss| - 1];
      var s := ss[|ss| - 1];
      Expected(sel, n, strategy, pre)
        + (if s in sel.masks || strategy == Dummy then [Fill(s, Cumulative(sel, n, ss))] else [])
  }

  function FirstMissing(sel: Selection, ss: seq<string>): (r: Option<string>)
    ensures r.None? <==> forall k :: 0 <= k < |ss| ==> ss[k] in sel.masks
    ensures r.Some? ==> r.value in ss && r.value !in sel.masks
  {
    if ss == [] then None
    else if ss[0] !in sel.masks then Some(ss[0])
    else FirstMissing(sel, ss[1..])
  }

  datatype CutflowError =
    | MissingStep(step: string)
    | NoCategories
    | NoVariables
    | ShiftAxisSize(bins: nat)
    | ShiftNotFound(id: int)

  /** The loop over the selector steps with an accumulating mask. */
  method StepFills(sel: Selection, n: nat, strategy: MissingStepStrategy, steps: seq<string>)
    returns (r: Result<seq<Fill>, CutflowError>)
    requires sel.Valid(n)
    ensures r.Err? <==> strategy == Raise && FirstMissing(sel, steps).Some?
    ensures r.Err? ==> r.error == MissingStep(FirstMissing(sel, steps).value)
    ensures r.Ok? ==> r.value == Expected(sel, n, strategy, steps)
  {
    var mask: Mask := None;
    var fills: seq<Fill> := [];
    for i := 0 to |steps|
      invariant mask == Cumulative(sel, n, steps[..i])
      invariant fills == Expected(sel, n, strategy, steps[..i])
      invariant strategy == Raise ==> forall k :: 0 <= k < i ==> steps[k] in sel.masks
    {
      var s := steps[i];
      assert steps[..i + 1][..i] == steps[..i];
      if s !in sel.masks {
        if strategy == Raise {
          FirstMissingAt(sel, steps, i);
          return Err(MissingStep(s));
        }
        if strategy == Ignore {
          continue;
        }
      } else {
        mask := Some(And(mask, sel.masks[s]));
      }
      fills := fills + [Fill(s, mask)];
    }
    assert steps[..|steps|] == steps;
    return Ok(fills);
  }

  lemma {:induction false} FirstMissingAt(sel: Selection, ss: seq<string>, i: nat)
    requires i < |ss| && ss[i] !in sel.masks
    requires forall k :: 0 <= k < i ==> ss[k] in sel.masks
    ensures FirstMissing(sel, ss) == Some(ss[i])
  {
    if i > 0 {
      assert forall k :: 0 <= k < i - 1 ==> ss[1..][k] == ss[k + 1];
      FirstMissingAt(sel, ss[1..], i - 1);
    }
  }

  /** The requested steps, with the sentinel standing for the selector's own steps. */
  function ResolveSteps(arg: StepsArg, sel: Selection): (r: seq<string>)
    ensures arg.AllSteps? ==> r == sel.fields
    ensures arg.Steps? ==> r == arg.names
  {
    match arg
    case AllSteps => sel.fields
    case Steps(names) => names
  }

  /** All fills of one chunk: the initial step unmasked, then the selector steps. */
  method CutflowFills(sel: Selection, n: nat, strategy: MissingStepStrategy, arg: StepsArg)
    returns (r: Result<seq<Fill>, CutflowError>)
    requires sel.Valid(n)
    ensures r.Err? <==> strategy == Raise && FirstMissing(sel, ResolveSteps(arg, sel)).Some?
    ensures r.Ok? ==> |r.value| > 0 && r.value[0] == Fill(INITIAL_STEP, None)
    ensures r.Ok? ==> r.value[1..] == Expected(sel, n, strategy, ResolveSteps(arg, sel))
  {
    var steps := ResolveSteps(arg, sel);
    var rest := StepFills(sel, n, strategy, steps);
    if rest.Err? {
      return Err(rest.error);
    }
    var fills := [Fill(INITIAL_STEP, None)] + rest.value;
    assert fills[1..] == rest.value;
    return Ok(fills);
  }

  // ---------------------------------------------------------------------------------------
  // properties of the step fills

  lemma CumulativeStep(sel: Selection, n: nat, ss: seq<string>)
    requires sel.Valid(n) && ss != []
    ensures Below(Cumulative(sel, n, ss), Cumulative(sel, n, ss[..|ss| - 1]), n)
  {
    var pre := ss[..|ss| - 1];
    assert forall k :: 0 <= k < |pre| ==> pre[k] == ss[k];
  }

  /** Every fill selects at least the events the mask after all steps selects, and every fill
      selects only events the fill before it selected. */
  lemma {:induction false} ExpectedShrinks(sel: Selection, n: nat, strategy: MissingStepStrategy, ss: seq<string>)
    requires sel.Valid(n)
    ensures forall i :: 0 <= i < |Expected(sel, n, strategy, ss)| ==>
      Below(Cumulative(sel, n, ss), Expected(sel, n, strategy, ss)[i].mask, n)
    ensures forall i :: 0 < i < |Expected(sel, n, strategy, ss)| ==>
      Below(Expected(sel, n, strategy, ss)[i].mask, Expected(sel, n, strategy, ss)[i - 1].mask, n)
  {
    if ss != [] {
      var pre := ss[..|ss| - 1];
      var s := ss[|ss| - 1];
      ExpectedShrinks(sel, n, strategy, pre);
      CumulativeStep(sel, n, ss);
      var earlier := Expected(sel, n, strategy, pre);
      var fills := Expected(sel, n, strategy, ss);
      assert fills[..|earlier|] == earlier;
      var cum := Cumulative(sel, n, ss);
      forall i | 0 <= i < |fills| ensures Below(cum, fills[i].mask, n) {
        if i < |earlier| {
          assert fills[i] == earlier[i];
          BelowTransitive(cum, Cumulative(sel, n, pre), earlier[i].mask, n);
        } else {
          assert fills[i].mask == cum;
        }
      }
      forall i | 0 < i < |fills| ensures Below(fills[i].mask, fills[i - 1].mask, n) {
        if i < |earlier| {
          assert fills[i] == earlier[i] && fills[i - 1] == earlier[i - 1];
        } else {
          assert fills[i].mask == cum && fills[i - 1] == earlier[i - 1];
        }
      }
    }
  }

  /** `ak.sum(mask)`, or all events for the unmasked fill. */
  function NEvents(m: Mask, n: nat): (r: nat)
    requires MaskOk(m, n)
    ensures r <= n
  {
    match m
    case None => n
    case Some(a) => CountTrue(a)
  }

  lemma BelowCounts(a: Mask, b: Mask, n: nat)
    requires MaskOk(a, n) && MaskOk(b, n) && Below(a, b, n)
    ensures NEvents(a, n) <= NEvents(b, n)
  {
    if b.Some? {
      if a.Some? {
        forall e | 0 <= e < n && a.value[e] ensures b.value[e] {
          assert Selected(a, e);
        }
        CountMonotone(a.value, b.value);
      } else {
        forall e | 0 <= e < n ensures b.value[e] {
          assert Selected(a, e);
        }
        CountAllTrue(b.value);
      }
    }
  }

  lemma BelowTransitive(a: Mask, b: Mask, c: Mask, n: nat)
    requires MaskOk(a, n) && MaskOk(b, n) && MaskOk(c, n)
    requires Below(a, b, n) && Below(b, c, n)
    ensures Below(a, c, n)
  {
  }

  /** The event count of a cutflow never increases from one step to the next. */
  lemma CountsNeverIncrease(sel: Selection, n: nat, strategy: MissingStepStrategy, ss: seq<string>, i: nat)
    requires sel.Valid(n)
    requires 0 < i < |Expected(sel, n, strategy, ss)|
    ensures var fills := Expected(sel, n, strategy, ss);
      NEvents(fills[i].mask, n) <= NEvents(fills[i - 1].mask, n)
  {
    ExpectedShrinks(sel, n, strategy, ss);
    var fills := Expected(sel, n, strategy, ss);
    BelowCounts(fills[i].mask, fills[i - 1].mask, n);
  }

  /** Under "dummy" there is one fill per requested step, and a step the selector does not
      define repeats the previous fill's mask. */
  lemma {:induction false} DummyRepeatsPrevious(sel: Selection, n: nat, ss: seq<string>)
    requires sel.Valid(n)
    ensures |Expected(sel, n, Dummy, ss)| == |ss|
    ensures forall i :: 0 <= i < |ss| ==> Expected(sel, n, Dummy, ss)[i] == Fill(ss[i], Cumulative(sel, n, ss[..i + 1]))
    ensures forall i :: 0 < i < |ss| && ss[i] !in sel.masks ==>
      Expected(sel, n, Dummy, ss)[i].mask == Expected(sel, n, Dummy, ss)[i - 1].mask
  {
    if ss != [] {
      var pre := ss[..|ss| - 1];
      DummyRepeatsPrevious(sel, n, pre);
      var fills := Expected(sel, n, Dummy, ss);
      forall i | 0 <= i < |ss| ensures fills[i] == Fill(ss[i], Cumulative(sel, n, ss[..i + 1])) {
        if i < |pre| {
          assert pre[..i + 1] == ss[..i + 1];
        } else {
          assert ss[..i + 1] == ss;
        }
      }
      forall i | 0 < i < |ss| && ss[i] !in sel.masks ensures fills[i].mask == fills[i - 1].mask {
        var p := ss[..i + 1];
        assert p[..|p| - 1] == ss[..i];
      }
    }
  }

  /** Under "ignore" a missing step fills nothing: the fills are the defined steps, in order. */
  lemma {:induction false} IgnoreSkipsMissing(sel: Selection, n: nat, ss: seq<string>)
    requires sel.Valid(n)
    ensures forall i :: 0 <= i < |Expected(sel, n, Ignore, ss)| ==>
      Expected(sel, n, Ignore, ss)[i].step in sel.masks && Expected(sel, n, Ignore, ss)[i].step in ss
    ensures forall k :: 0 <= k < |ss| && ss[k] in sel.masks ==>
      exists i :: 0 <= i < |Expected(sel, n, Ignore, ss)| && Expected(sel, n, Ignore, ss)[i].step == ss[k]
  {
    if ss != [] {
      var pre := ss[..|ss| - 1];
      IgnoreSkipsMissing(sel, n, pre);
      var fills := Expected(sel, n, Ignore, ss);
      var earlier := Expected(sel, n, Ignore, pre);
      assert fills[..|earlier|] == earlier;
      forall k | 0 <= k < |ss| && ss[k] in sel.masks
        ensures exists i :: 0 <= i < |fills| && fills[i].step == ss[k]
      {
        if k < |pre| {
          assert pre[k] == ss[k];
          var i :| 0 <= i < |earlier| && earlier[i].step == pre[k];
          assert fills[i] == earlier[i];
        } else {
          assert fills[|fills| - 1].step == ss[k];
        }
      }
      forall i | 0 <= i < |fills| ensures fills[i].step in sel.masks && fills[i].step in ss {
        if i < |earlier| {
          assert fills[i] == earlier[i];
          assert fills[i].step in pre;
          assert forall x :: x in pre ==> x in ss;
        }
      }
    }
  }

  // ---------------------------------------------------------------------------------------
  // the fill point

  /** The event columns a fill point is built from, one entry per event. */
  datatype Events = Events(processId: seq<int>, categoryIds: seq<seq<int>>, normWeight: seq<real>,
                           values: seq<seq<real>>)
  {
    predicate Valid(n: nat)
    {
      && |processId| == n && |categoryIds| == n && |normWeight| == n
      && forall v :: 0 <= v < |values| ==> |values[v]| == n
    }
  }

  function SelectMask<T>(xs: seq<T>, m: Mask): (r: seq<T>)
    requires MaskOk(m, |xs|)
    ensures |r| == NEvents(m, |xs|)
  {
    match m
    case None => xs
    case Some(a) => Select(xs, a)
  }

  /** An event without any category gets the category id -1. */
  function PadCategories(ids: seq<int>): (r: seq<int>)
    ensures r != []
    ensures ids == [] ==> r == [-1]
    ensures ids != [] ==> r == ids
  {
    if ids == [] then [-1] else ids
  }

  datatype Point = Point(nEvents: nat, process: seq<int>, category: seq<seq<int>>, shift: seq<int>,
                         weight: seq<real>, values: seq<seq<real>>)

  /** `get_point(mask)`. */
  function GetPoint(ev: Events, n: nat, m: Mask, isMc: bool, shiftId: int): (r: Point)
    requires ev.Valid(n) && MaskOk(m, n)
    ensures r.nEvents == NEvents(m, n)
    ensures |r.process| == |r.category| == |r.shift| == |r.weight| == r.nEvents
    ensures |r.values| == |ev.values| && forall v :: 0 <= v < |r.values| ==> |r.values[v]| == r.nEvents
    ensures forall k :: 0 <= k < r.nEvents ==> r.shift[k] == shiftId
    ensures !isMc ==> forall k :: 0 <= k < r.nEvents ==> r.weight[k] == 1.0
    ensures isMc ==> r.weight == SelectMask(ev.normWeight, m)
    ensures m.None? ==> r.process == ev.processId && (isMc ==> r.weight == ev.normWeight)
    ensures forall k :: 0 <= k < |r.category| ==> r.category[k] != []
    ensures m.None? ==>
      && r.process == ev.processId && r.values == ev.values
      && forall e :: 0 <= e < n ==> r.category[e] == PadCategories(ev.categoryIds[e])
    ensures m.Some? ==> forall e :: 0 <= e < n && m.value[e] ==>
      && Rank(m.value, e) < r.nEvents
      && r.process[Rank(m.value, e)] == ev.processId[e]
      && r.category[Rank(m.value, e)] == PadCategories(ev.categoryIds[e])
      && forall v :: 0 <= v < |ev.values| ==> r.values[v][Rank(m.value, e)] == ev.values[v][e]
  {
    var count := NEvents(m, n);
    var padded := seq(n, e requires 0 <= e < n => PadCategories(ev.categoryIds[e]));
    MaskedColumns(ev, n, padded, m);
    var category := SelectMask(padded, m);
    assert forall k :: 0 <= k < |category| ==> category[k] in padded;
    Point(count, SelectMask(ev.processId, m), category, seq(count, _ => shiftId),
          if isMc then SelectMask(ev.normWeight, m) else seq(count, _ => 1.0),
          seq(|ev.values|, v requires 0 <= v < |ev.values| => SelectMask(ev.values[v], m)))
  }

  /** Each selected event's entries land at its rank in every masked column. */
  lemma MaskedColumns(ev: Events, n: nat, padded: seq<seq<int>>, m: Mask)
    requires ev.Valid(n) && MaskOk(m, n) && |padded| == n
    ensures m.Some? ==> forall e :: 0 <= e < n && m.value[e] ==>
      && Rank(m.value, e) < NEvents(m, n)
      && SelectMask(ev.processId, m)[Rank(m.value, e)] == ev.processId[e]
      && SelectMask(padded, m)[Rank(m.value, e)] == padded[e]
      && forall v :: 0 <= v < |ev.values| ==> SelectMask(ev.values[v], m)[Rank(m.value, e)] == ev.values[v][e]
  {
    if m.Some? {
      SelectOrder(ev.processId, m.value);
      SelectOrder(padded, m.value);
      forall v | 0 <= v < |ev.values| {
        SelectOrder(ev.values[v], m.value);
      }
    }
  }

  // ---------------------------------------------------------------------------------------
  // plotting tasks

  /** `chosen_steps`: the initial step and the selector steps, or only the last of them. */
  function ChosenSteps(selectorSteps: seq<string>, onlyFinal: bool): (r: seq<string>)
    ensures var all := [INITIAL_STEP] + selectorSteps;
      && (!onlyFinal ==> r == all)
      && (onlyFinal ==> r == [all[|all| - 1]])
  {
    var all := [INITIAL_STEP] + selectorSteps;
    if onlyFinal then all[|all| - 1..] else all
  }

  /** Whatever the options, the chosen steps end with the last step of the selection and
      are a tail of the initial step followed by the selector steps. */
  lemma ChosenStepsEndWithFinal(selectorSteps: seq<string>, onlyFinal: bool)
    ensures
      var r := ChosenSteps(selectorSteps, onlyFinal);
      var all := [INITIAL_STEP] + selectorSteps;
      && r != []
      && r[|r| - 1] == (if selectorSteps == [] then INITIAL_STEP else selectorSteps[|selectorSteps| - 1])
      && |r| <= |all| && r == all[|all| - |r|..]
  {
  }

  /** `PlotCutflow.create_branch_map`: one branch per category. */
  function PlotCutflowBranches(categories: seq<string>): (r: Result<seq<string>, CutflowError>)
    ensures r.Err? <==> categories == []
    ensures r.Err? ==> r.error == NoCategories
    ensures r.Ok? ==> r.value == categories
  {
    if categories == [] then Err(NoCategories) else Ok(categories)
  }

  datatype Branch = Branch(category: string, variable: string)

  /** `PlotCutflowVariables.create_branch_map`: sorted categories times sorted variables,
      categories varying slowest. */
  function VariablesBranches(categories: seq<string>, variables: seq<string>): (r: Result<seq<Branch>, CutflowError>)
    ensures r.Err? <==> categories == [] || variables == []
    ensures r.Ok? ==> |r.value| == |categories| * |variables|
    ensures categories == [] ==> r == Err(NoCategories)
    ensures categories != [] && variables == [] ==> r == Err(NoVariables)
  {
    if categories == [] then Err(NoCategories)
    else if variables == [] then Err(NoVariables)
    else
      Ok(ToBranches(Product(SortStrings(categories), SortStrings(variables))))
  }

  function ToBranches(pairs: seq<(string, string)>): (r: seq<Branch>)
    ensures |r| == |pairs|
    ensures forall k :: 0 <= k < |r| ==> r[k] == Branch(pairs[k].0, pairs[k].1)
  {
    seq(|pairs|, k requires 0 <= k < |pairs| => Branch(pairs[k].0, pairs[k].1))
  }

  /** Branch `i * |variables| + j` is the i-th sorted category with the j-th sorted variable,
      so every (category, variable) pair has a branch. */
  lemma VariablesBranchAt(categories: seq<string>, variables: seq<string>, i: nat, j: nat)
    requires i < |categories| && j < |variables|
    ensures VariablesBranches(categories, variables).Ok?
    ensures && FlatIndex(i, j, |variables|) < |VariablesBranches(categories, variables).value|
            && VariablesBranches(categories, variables).value[FlatIndex(i, j, |variables|)]
               == Branch(SortStrings(categories)[i], SortStrings(variables)[j])
  {
    var sc := SortStrings(categories);
    var sv := SortStrings(variables);
    assert VariablesBranches(categories, variables) == Ok(ToBranches(Product(sc, sv)));
    ToBranchesAt(sc, sv, i, j);
  }

  lemma ToBranchesAt(sc: seq<string>, sv: seq<string>, i: nat, j: nat)
    requires i < |sc| && j < |sv|
    ensures && FlatIndex(i, j, |sv|) < |ToBranches(Product(sc, sv))|
            && ToBranches(Product(sc, sv))[FlatIndex(i, j, |sv|)] == Branch(sc[i], sv[j])
  {
    ProductAt(sc, sv, i, j);
  }

  lemma VariablesBranchesCover(categories: seq<string>, variables: seq<string>, c: string, v: string)
    requires c in categories && v in variables
    ensures VariablesBranches(categories, variables).Ok?
    ensures Branch(c, v) in VariablesBranches(categories, variables).value
  {
    var sc := SortStrings(categories);
    var sv := SortStrings(variables);
    var i := SortedIndex(categories, c);
    var j := SortedIndex(variables, v);
    ProductContains(sc, sv, c, v);
    var pairs := Product(sc, sv);
    var k :| 0 <= k < |pairs| && pairs[k] == (c, v);
    assert VariablesBranches(categories, variables) == Ok(ToBranches(pairs));
    assert ToBranches(pairs)[k] == Branch(c, v);
  }

  /** The per-category and the per-variable plotting tasks refuse the same empty category
      list and otherwise cover the same categories: a category has a per-category branch
      exactly when it has a per-variable branch. */
  lemma BranchMapsAgree(categories: seq<string>, variables: seq<string>, c: string)
    requires variables != []
    ensures PlotCutflowBranches(categories).Ok? <==> VariablesBranches(categories, variables).Ok?
    ensures PlotCutflowBranches(categories).Err? ==>
      PlotCutflowBranches(categories).error == VariablesBranches(categories, variables).error
    ensures PlotCutflowBranches(categories).Ok? ==>
      (c in PlotCutflowBranches(categories).value
       <==> exists v :: Branch(c, v) in VariablesBranches(categories, variables).value)
  {
    if categories != [] {
      if c in categories {
        VariablesBranchesCover(categories, variables, c, variables[0]);
      }
      var sc := SortStrings(categories);
      var pairs := Product(sc, SortStrings(variables));
      assert VariablesBranches(categories, variables) == Ok(ToBranches(pairs));
      if v :| Branch(c, v) in ToBranches(pairs) {
        var k :| 0 <= k < |pairs| && ToBranches(pairs)[k] == Branch(c, v);
        ProductMembers(sc, SortStrings(variables), pairs[k]);
        assert c in multiset(sc);
      }
    }
  }

  /** Where a member of a list ends up after sorting. */
  lemma SortedIndex(xs: seq<string>, x: string) returns (i: nat)
    requires x in xs
    ensures i < |xs| && SortStrings(xs)[i] == x
  {
    var sorted := SortStrings(xs);
    assert x in multiset(xs);
    assert x in multiset(sorted);
    i :| 0 <= i < |sorted| && sorted[i] == x;
  }

  /** Selecting the global shift from an input histogram: the shift axis must have exactly
      one bin, and that bin must be the global shift. */
  function SelectShift(shiftBins: seq<int>, globalShift: int): (r: Result<nat, CutflowError>)
    ensures r.Ok? <==> shiftBins == [globalShift]
    ensures |shiftBins| != 1 ==> r == Err(ShiftAxisSize(|shiftBins|))
    ensures |shiftBins| == 1 && globalShift !in shiftBins ==> r == Err(ShiftNotFound(globalShift))
    ensures r.Ok? ==> r.value < |shiftBins| && shiftBins[r.value] == globalShift
  {
    if |shiftBins| != 1 then Err(ShiftAxisSize(|shiftBins|))
    else if shiftBins[0] != globalShift then Err(ShiftNotFound(globalShift))
    else Ok(0)
  }
}
