/** Pileup weights: the per-event lookup index, the outlier mask over the three weight
    variations and what each outlier action does, and the lookup in a weight table. The
    correction evaluator is a parameter: any function from (index, variation) to a weight. */
module Pileup {
  import opened Wrappers
  import opened Seqs

  datatype Variation = Nominal | Up | Down

  /** The three produced columns, paired with the variation that fills them, in loop order. */
  const VARIATIONS: seq<Variation> := [Nominal, Up, Down]

  function ColumnName(v: Variation): string
  {
    match v
    case Nominal => "pu_weight"
    case Up => "pu_weight_minbias_xs_up"
    case Down => "pu_weight_minbias_xs_down"
  }

  lemma ColumnNamesDistinct()
    ensures forall i, j :: 0 <= i < j < |VARIATIONS| ==> ColumnName(VARIATIONS[i]) != ColumnName(VARIATIONS[j])
  {
  }

  /** The input columns of one event the producers read. */
  datatype Event = Event(nTrueInt: real, mcWeight: real)

  /** The columns of one event the producers write. */
  datatype Weighted = Weighted(mcWeight: real, nominal: real, up: real, down: real)

  function WeightOf(w: Weighted, v: Variation): real
  {
    match v
    case Nominal => w.nominal
    case Up => w.up
    case Down => w.down
  }

  type Corrector = (int, Variation) -> real

  /** Conversion of a float to int32: truncation toward zero. */
  function Trunc(x: real): (r: int)
    ensures x >= 0.0 ==> r as real <= x < r as real + 1.0
    ensures x < 0.0 ==> r as real - 1.0 < x <= r as real
  {
    if x >= 0.0 then x.Floor else -((-x).Floor)
  }

  /** The lookup index: the truncated number of true interactions, minus one. */
  function PuIndex(nTrueInt: real): (r: int)
    ensures nTrueInt >= 0.0 ==> r >= -1
    ensures nTrueInt >= 1.0 ==> r >= 0
    ensures 0.0 <= nTrueInt < 1.0 ==> r == -1
  {
    Trunc(nTrueInt) - 1
  }

  // ---------------------------------------------------------------------------------------
  // pu_weight

  datatype OutlierAction = Remove | Error | Warning | Other(name: string)

  function ParseAction(s: string): (r: OutlierAction)
    ensures r == Remove <==> s == "remove"
    ensures r == Error <==> s == "error"
    ensures r == Warning <==> s == "warning"
    ensures r.Other? ==> r.name == s
  {
    if s == "remove" then Remove
    else if s == "error" then Error
    else if s == "warning" then Warning
    else Other(s)
  }

  datatype PuError = TooManyOutliers(variation: Variation, occurrences: nat)

  /** The evaluated weights of every event for one variation. */
  function Evaluate(events: seq<Event>, corr: Corrector, v: Variation): (r: seq<real>)
    ensures |r| == |events|
    ensures forall i :: 0 <= i < |r| ==> r[i] == corr(PuIndex(events[i].nTrueInt), v)
  {
    seq(|events|, i requires 0 <= i < |events| => corr(PuIndex(events[i].nTrueInt), v))
  }

  /** An event is an outlier for a variation when its weight is strictly above the threshold. */
  predicate IsOutlier(events: seq<Event>, corr: Corrector, threshold: real, v: Variation, i: int)
    requires 0 <= i < |events|
  {
    corr(PuIndex(events[i].nTrueInt), v) > threshold
  }

  predicate AnyOutlier(events: seq<Event>, corr: Corrector, threshold: real, i: int)
    requires 0 <= i < |events|
  {
    IsOutlier(events, corr, threshold, Nominal, i) || IsOutlier(events, corr, threshold, Up, i)
    || IsOutlier(events, corr, threshold, Down, i)
  }

  function OutlierMask(events: seq<Event>, corr: Corrector, threshold: real, v: Variation): (r: seq<bool>)
    ensures |r| == |events|
    ensures forall i :: 0 <= i < |r| ==> r[i] == IsOutlier(events, corr, threshold, v, i)
  {
    seq(|events|, i requires 0 <= i < |events| => IsOutlier(events, corr, threshold, v, i))
  }

  /** The event columns after the three evaluations, before any outlier action. */
  function Raw(events: seq<Event>, corr: Corrector): (r: seq<Weighted>)
    ensures |r| == |events|
    ensures forall i, v :: 0 <= i < |r| ==> WeightOf(r[i], v) == corr(PuIndex(events[i].nTrueInt), v)
    ensures forall i :: 0 <= i < |r| ==> r[i].mcWeight == events[i].mcWeight
  {
    seq(|events|, i requires 0 <= i < |events| =>
      var idx := PuIndex(events[i].nTrueInt);
      Weighted(events[i].mcWeight, corr(idx, Nominal), corr(idx, Up), corr(idx, Down)))
  }

  /** The "error" check over the variations in loop order: the first one with an outlier. */
  function FirstFailing(events: seq<Event>, corr: Corrector, threshold: real, vs: seq<Variation>): (r: Option<PuError>)
    ensures r.None? <==> forall k :: 0 <= k < |vs| ==> CountTrue(OutlierMask(events, corr, threshold, vs[k])) == 0
    ensures r.Some? ==> exists k :: 0 <= k < |vs| && r.value.variation == vs[k]
                          && r.value.occurrences == CountTrue(OutlierMask(events, corr, threshold, vs[k])) > 0
                          && forall l :: 0 <= l < k ==> CountTrue(OutlierMask(events, corr, threshold, vs[l])) == 0
  {
    var counts := seq(|vs|, k requires 0 <= k < |vs| => CountTrue(OutlierMask(events, corr, threshold, vs[k])));
    assert forall k :: 0 <= k < |vs| ==> counts[k] == CountTrue(OutlierMask(events, corr, threshold, vs[k]));
    match FirstPositive(counts)
    case None => None
    case Some(k) =>
      assert forall l :: 0 <= l < k ==> counts[l] == 0;
      Some(TooManyOutliers(vs[k], counts[k]))
  }

  /** The first position holding a positive number, if any. */
  function FirstPositive(xs: seq<nat>): (r: Option<nat>)
    ensures r.None? <==> forall k :: 0 <= k < |xs| ==> xs[k] == 0
    ensures r.Some? ==> r.value < |xs| && xs[r.value] > 0 && forall l :: 0 <= l < r.value ==> xs[l] == 0
  {
    if xs == [] then None
    else if xs[0] > 0 then Some(0)
    else
      var rest := FirstPositive(xs[1..]);
      assert forall k :: 1 <= k < |xs| ==> xs[k] == xs[1..][k - 1];
      match rest
      case None => None
      case Some(k) => Some(k + 1)
  }

  /** The "remove" action: every event that is an outlier for any variation gets its MC
      weight and all three pileup weights set to zero. */
  function RemoveOutliers(events: seq<Event>, corr: Corrector, threshold: real, raw: seq<Weighted>): (r: seq<Weighted>)
    requires |raw| == |events|
    ensures |r| == |raw|
    ensures forall i :: 0 <= i < |r| ==>
      r[i] == if AnyOutlier(events, corr, threshold, i) then Weighted(0.0, 0.0, 0.0, 0.0) else raw[i]
  {
    seq(|raw|, i requires 0 <= i < |raw| =>
      if AnyOutlier(events, corr, threshold, i) then Weighted(0.0, 0.0, 0.0, 0.0) else raw[i])
  }

  /** `pu_weight`: evaluate the three variations, then apply the outlier action. */
  function PuWeight(events: seq<Event>, corr: Corrector, threshold: real, action: string): (r: Result<seq<Weighted>, PuError>)
    ensures r.Err? <==> ParseAction(action) == Error
                        && exists v, i :: 0 <= i < |events| && IsOutlier(events, corr, threshold, v, i)
    ensures r.Ok? ==> |r.value| == |events|
    ensures r.Ok? && ParseAction(action) != Remove ==> r.value == Raw(events, corr)
    ensures r.Ok? && ParseAction(action) == Remove ==>
      forall i :: 0 <= i < |events| ==>
        r.value[i] == if AnyOutlier(events, corr, threshold, i) then Weighted(0.0, 0.0, 0.0, 0.0)
                      else Raw(events, corr)[i]
  {
    var raw := Raw(events, corr);
    var act := ParseAction(action);
    var failing := if act == Error then FirstFailing(events, corr, threshold, VARIATIONS) else None;
    if failing.Some? then
      ErrorMeansOutlier(events, corr, threshold);
      Err(failing.value)
    else if act == Remove then
      Ok(RemoveOutliers(events, corr, threshold, raw))
    else
      if act == Error then
        ErrorMeansOutlier(events, corr, threshold);
        Ok(raw)
      else
        Ok(raw)
  }

  /** Some variation has a counted outlier exactly when some event is an outlier for it. */
  lemma ErrorMeansOutlier(events: seq<Event>, corr: Corrector, threshold: real)
    ensures FirstFailing(events, corr, threshold, VARIATIONS).Some?
            <==> exists v, i :: 0 <= i < |events| && IsOutlier(events, corr, threshold, v, i)
  {
    var f := FirstFailing(events, corr, threshold, VARIATIONS);
    if f.None? {
      forall v, i | 0 <= i < |events| ensures !IsOutlier(events, corr, threshold, v, i) {
        var k := if v == Nominal then 0 else if v == Up then 1 else 2;
        assert VARIATIONS[k] == v;
        assert CountTrue(OutlierMask(events, corr, threshold, v)) == 0;
        assert !OutlierMask(events, corr, threshold, v)[i];
      }
    } else {
      var k :| 0 <= k < |VARIATIONS| && f.value.variation == VARIATIONS[k]
               && CountTrue(OutlierMask(events, corr, threshold, VARIATIONS[k])) > 0;
      var m := OutlierMask(events, corr, threshold, VARIATIONS[k]);
      var i :| 0 <= i < |m| && m[i];
      assert IsOutlier(events, corr, threshold, VARIATIONS[k], i);
    }
  }

  /** With "error", the reported variation is the first in nominal, up, down order that has an
      outlier, and the count is its number of outliers. */
  lemma ErrorReportsFirstVariation(events: seq<Event>, corr: Corrector, threshold: real)
    requires PuWeight(events, corr, threshold, "error").Err?
    ensures
      var e := PuWeight(events, corr, threshold, "error").error;
      && e.occurrences == CountTrue(OutlierMask(events, corr, threshold, e.variation)) > 0
      && (e.variation == Up ==> CountTrue(OutlierMask(events, corr, threshold, Nominal)) == 0)
      && (e.variation == Down ==>
            CountTrue(OutlierMask(events, corr, threshold, Nominal)) == 0
            && CountTrue(OutlierMask(events, corr, threshold, Up)) == 0)
  {
    var f := FirstFailing(events, corr, threshold, VARIATIONS);
    var k :| 0 <= k < |VARIATIONS| && f.value.variation == VARIATIONS[k]
             && f.value.occurrences == CountTrue(OutlierMask(events, corr, threshold, VARIATIONS[k])) > 0
             && forall l :: 0 <= l < k ==> CountTrue(OutlierMask(events, corr, threshold, VARIATIONS[l])) == 0;
    if k == 1 {
      assert VARIATIONS[0] == Nominal;
    } else if k == 2 {
      assert VARIATIONS[0] == Nominal && VARIATIONS[1] == Up;
    }
  }

  /** After "remove" with a non-negative threshold no pileup weight is above the threshold,
      and an event keeps its MC weight exactly when none of its weights was. */
  lemma {:induction false} RemoveLeavesNoOutliers(events: seq<Event>, corr: Corrector, threshold: real)
    requires threshold >= 0.0
    ensures PuWeight(events, corr, threshold, "remove").Ok?
    ensures
      var r := PuWeight(events, corr, threshold, "remove").value;
      && (forall i, v :: 0 <= i < |r| ==> WeightOf(r[i], v) <= threshold)
      && (forall i :: 0 <= i < |r| ==> (r[i].mcWeight == events[i].mcWeight || r[i].mcWeight == 0.0))
  {
    var r := PuWeight(events, corr, threshold, "remove").value;
    forall i, v | 0 <= i < |r| ensures WeightOf(r[i], v) <= threshold {
      if !AnyOutlier(events, corr, threshold, i) {
        assert !IsOutlier(events, corr, threshold, v, i);
        assert WeightOf(r[i], v) == WeightOf(Raw(events, corr)[i], v);
      }
    }
  }

  // ---------------------------------------------------------------------------------------
  // pu_weights_from_columnflow

  /** The weight profile: three equally long columns. */
  datatype PuTable = PuTable(nominal: seq<real>, up: seq<real>, down: seq<real>)
  {
    predicate Valid() { |nominal| == |up| == |down| }

    /** The three weights of bin `k` for an event with MC weight `mcWeight`. */
    function At(mcWeight: real, k: nat): Weighted
      requires Valid() && k < |nominal|
    {
      Weighted(mcWeight, nominal[k], up[k], down[k])
    }
    function Column(v: Variation): seq<real>
    {
      match v
      case Nominal => nominal
      case Up => up
      case Down => down
    }
  }

  datatype LookupError = IndexOutOfRange(index: int)

  /** NumPy integer indexing: negative indices count from the end. */
  function NpIndex(xs: seq<real>, i: int): (r: Result<real, LookupError>)
    ensures 0 <= i < |xs| ==> r == Ok(xs[i])
    ensures -|xs| <= i < 0 ==> r == Ok(xs[|xs| + i])
    ensures r.Err? <==> i >= |xs| || i < -|xs|
  {
    if 0 <= i < |xs| then Ok(xs[i])
    else if -|xs| <= i < 0 then Ok(xs[|xs| + i])
    else Err(IndexOutOfRange(i))
  }

  /** The three looked-up weights of one event at a table index. */
  function LookupAt(t: PuTable, mcWeight: real, i: int): (r: Result<Weighted, LookupError>)
    requires t.Valid()
    ensures r.Ok? <==> -|t.nominal| <= i < |t.nominal|
  {
    if -|t.nominal| <= i < |t.nominal| then
      Ok(Weighted(mcWeight, NpIndex(t.nominal, i).value, NpIndex(t.up, i).value, NpIndex(t.down, i).value))
    else
      Err(IndexOutOfRange(i))
  }

  function LookupAll(t: PuTable, events: seq<Event>, index: Event -> int): (r: Result<seq<Weighted>, LookupError>)
    requires t.Valid()
    ensures r.Ok? <==> forall i :: 0 <= i < |events| ==> LookupAt(t, events[i].mcWeight, index(events[i])).Ok?
    ensures r.Ok? ==> |r.value| == |events|
                      && forall i :: 0 <= i < |events| ==>
                           r.value[i] == LookupAt(t, events[i].mcWeight, index(events[i])).value
  {
    if events == [] then Ok([])
    else
      var w :- LookupAt(t, events[0].mcWeight, index(events[0]));
      var rest := LookupAll(t, events[1..], index);
      assert forall i :: 1 <= i < |events| ==> events[1..][i - 1] == events[i];
      if rest.Err? then
        assert exists i :: 1 <= i < |events| && LookupAt(t, events[i].mcWeight, index(events[i])).Err?;
        Err(rest.error)
      else
        Ok([w] + rest.value)
  }

  /** The index as written: clamped from above at the last bin only. */
  function ClampedAbove(t: PuTable, e: Event): int
  {
    var maxBin := |t.nominal| - 1;
    var i := PuIndex(e.nTrueInt);
    if i > maxBin then maxBin else i
  }

  function ClampedAboveFn(t: PuTable): Event -> int
  {
    e => ClampedAbove(t, e)
  }

  /** `pu_weights_from_columnflow` as written: an index at or above the table reads the last
      bin, an index in the table reads its bin, and a negative index counts from the end, so
      -1 (fewer than one true interaction) reads the LAST bin. An index below -|table| fails
      the whole lookup, and so does every event on an empty table. */
  function PuWeightsFromColumnflowAsWritten(t: PuTable, events: seq<Event>): (r: Result<seq<Weighted>, LookupError>)
    requires t.Valid()
    ensures |t.nominal| == 0 ==> (r.Ok? <==> events == [])
    ensures |t.nominal| > 0 ==>
      (r.Err? <==> exists i :: 0 <= i < |events| && PuIndex(events[i].nTrueInt) < -|t.nominal|)
    ensures r.Ok? ==> |r.value| == |events|
    ensures r.Ok? && |t.nominal| > 0 ==> forall i :: 0 <= i < |events| ==>
      var k := PuIndex(events[i].nTrueInt);
      && (k >= |t.nominal| ==> r.value[i] == t.At(events[i].mcWeight, |t.nominal| - 1))
      && (0 <= k < |t.nominal| ==> r.value[i] == t.At(events[i].mcWeight, k))
      && (-|t.nominal| <= k < 0 ==> r.value[i] == t.At(events[i].mcWeight, |t.nominal| + k))
  {
    AsWrittenLookup(t, events);
    LookupAll(t, events, ClampedAboveFn(t))
  }

  /** The lookup with the index clamped from above only, event by event. */
  lemma AsWrittenLookup(t: PuTable, events: seq<Event>)
    requires t.Valid()
    ensures var r := LookupAll(t, events, ClampedAboveFn(t));
      && (|t.nominal| == 0 ==> (r.Ok? <==> events == []))
      && (|t.nominal| > 0 ==>
            (r.Err? <==> exists i :: 0 <= i < |events| && PuIndex(events[i].nTrueInt) < -|t.nominal|))
      && (r.Ok? && |t.nominal| > 0 ==> forall i :: 0 <= i < |events| ==>
            var k := PuIndex(events[i].nTrueInt);
            && (k >= |t.nominal| ==> r.value[i] == t.At(events[i].mcWeight, |t.nominal| - 1))
            && (0 <= k < |t.nominal| ==> r.value[i] == t.At(events[i].mcWeight, k))
            && (-|t.nominal| <= k < 0 ==> r.value[i] == t.At(events[i].mcWeight, |t.nominal| + k)))
  {
    var index := ClampedAboveFn(t);
    if |t.nominal| == 0 && events != [] {
      assert LookupAt(t, events[0].mcWeight, index(events[0])).Err?;
    }
    if |t.nominal| > 0 {
      forall i | 0 <= i < |events|
        ensures LookupAt(t, events[i].mcWeight, index(events[i])).Err?
                <==> PuIndex(events[i].nTrueInt) < -|t.nominal|
      {
        assert index(events[i]) == ClampedAbove(t, events[i]);
      }
    }
  }

  /** The concrete case: a two-bin table and nTrueInt = 0.5 give the weight of bin 1. */
  lemma AsWrittenExample()
    ensures
      var t := PuTable([1.0, 2.0], [1.5, 2.5], [0.5, 1.5]);
      PuWeightsFromColumnflowAsWritten(t, [Event(0.5, 1.0)]) == Ok([Weighted(1.0, 2.0, 2.5, 1.5)])
  {
    var t := PuTable([1.0, 2.0], [1.5, 2.5], [0.5, 1.5]);
    var es := [Event(0.5, 1.0)];
    assert PuIndex(es[0].nTrueInt) == -1;
    var r := PuWeightsFromColumnflowAsWritten(t, es);
    assert r.Ok?;
    assert r.value[0] == t.At(1.0, 1) == Weighted(1.0, 2.0, 2.5, 1.5);
    assert r.value == [r.value[0]];
  }

  /** The index clamped into the table from both sides. */
  function Clamped(t: PuTable, e: Event): (r: int)
    ensures |t.nominal| > 0 ==> 0 <= r < |t.nominal|
    ensures 0 <= PuIndex(e.nTrueInt) < |t.nominal| ==> r == PuIndex(e.nTrueInt)
    ensures PuIndex(e.nTrueInt) >= |t.nominal| ==> r == |t.nominal| - 1
  {
    var maxBin := |t.nominal| - 1;
    var i := PuIndex(e.nTrueInt);
    if i > maxBin then maxBin else if i < 0 then 0 else i
  }

  function ClampedFn(t: PuTable): Event -> int
  {
    e => Clamped(t, e)
  }

  /** `pu_weights_from_columnflow` with the index also clamped at the first bin: on a
      non-empty table every event gets the weights of the bin its index names, the first bin
      below the table and the last bin above it, and its MC weight is kept. Only an empty
      table fails. */
  function PuWeightsFromColumnflow(t: PuTable, events: seq<Event>): (r: Result<seq<Weighted>, LookupError>)
    requires t.Valid()
    ensures r.Ok? <==> |t.nominal| > 0 || events == []
    ensures r.Ok? ==> |r.value| == |events|
    ensures r.Ok? && |t.nominal| > 0 ==> forall i :: 0 <= i < |events| ==>
      var k := PuIndex(events[i].nTrueInt);
      && (k >= |t.nominal| ==> r.value[i] == t.At(events[i].mcWeight, |t.nominal| - 1))
      && (0 <= k < |t.nominal| ==> r.value[i] == t.At(events[i].mcWeight, k))
      && (k < 0 ==> r.value[i] == t.At(events[i].mcWeight, 0))
  {
    ClampedLookup(t, events);
    LookupAll(t, events, ClampedFn(t))
  }

  /** The lookup with the index clamped from both sides, event by event. */
  lemma ClampedLookup(t: PuTable, events: seq<Event>)
    requires t.Valid()
    ensures var r := LookupAll(t, events, ClampedFn(t));
      && (r.Ok? <==> |t.nominal| > 0 || events == [])
      && (r.Ok? && |t.nominal| > 0 ==> forall i :: 0 <= i < |events| ==>
            var k := PuIndex(events[i].nTrueInt);
            && (k >= |t.nominal| ==> r.value[i] == t.At(events[i].mcWeight, |t.nominal| - 1))
            && (0 <= k < |t.nominal| ==> r.value[i] == t.At(events[i].mcWeight, k))
            && (k < 0 ==> r.value[i] == t.At(events[i].mcWeight, 0)))
  {
    var index := ClampedFn(t);
    if |t.nominal| == 0 && events != [] {
      assert LookupAt(t, events[0].mcWeight, index(events[0])).Err?;
    }
    if |t.nominal| > 0 {
      forall i | 0 <= i < |events| ensures LookupAt(t, events[i].mcWeight, index(events[i])).Ok? {
        assert 0 <= Clamped(t, events[i]) < |t.nominal|;
      }
    }
  }

  /** From one true interaction on the two lookups agree; they differ only in which bin an
      index of -1 reads. */
  lemma {:induction false} LookupsAgreeFromOneInteraction(t: PuTable, events: seq<Event>)
    requires t.Valid()
    requires forall i :: 0 <= i < |events| ==> events[i].nTrueInt >= 1.0
    ensures PuWeightsFromColumnflowAsWritten(t, events) == PuWeightsFromColumnflow(t, events)
  {
    var a := PuWeightsFromColumnflowAsWritten(t, events);
    var c := PuWeightsFromColumnflow(t, events);
    if |t.nominal| > 0 {
      forall i | 0 <= i < |events| ensures PuIndex(events[i].nTrueInt) >= 0 {
      }
      assert a.Ok? && c.Ok?;
      assert |a.value| == |c.value|;
      forall i | 0 <= i < |events| ensures a.value[i] == c.value[i] {
        var k := PuIndex(events[i].nTrueInt);
        assert k >= 0;
      }
      assert a.value == c.value;
    }
  }

  /** An empty table makes every lookup fail, as written and corrected. */
  lemma EmptyTableFails(t: PuTable, e: Event)
    requires t.Valid() && |t.nominal| == 0
    ensures PuWeightsFromColumnflow(t, [e]).Err?
    ensures PuWeightsFromColumnflowAsWritten(t, [e]).Err?
  {
    assert LookupAt(t, e.mcWeight, Clamped(t, e)).Err?;
    assert LookupAt(t, e.mcWeight, ClampedAbove(t, e)).Err?;
  }
}
