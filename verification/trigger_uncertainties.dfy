/** The three band builders of the trigger scale-factor engine: the statistical band
    (`calc_stat`), the correlation-bias band (`calc_corr`) and the auxiliary-variable band
    (`calc_auxiliary_unc`). Each takes the {"data", "mc"} histograms, the trigger and
    reference-trigger axis names and the `store_hists` side output, and returns a variation
    histogram together with the side output after the call. */
module TriggerUncertainties {
  import opened Wrappers
  import opened Seqs
  import opened Histograms

  /** The {"data": H, "mc": H} dict every calculator receives. */
  datatype DataMc = DataMc(data: Hist, mc: Hist)

  /** `store_hists`: intermediate histograms kept for inspection and plotting. */
  type Store = map<string, Hist>

  /** `error_func` (by default `koopman_confint`): from (data passing, data total, mc passing,
      mc total) to the (lower, upper) bound on the scale factor. */
  type ErrorFunc = (real, real, real, real) -> (real, real)

  /** `util.calculate_efficiency(h, trigger, ref_trigger)`. */
  type EffFunc = (Hist, string, string) -> Hist

  /** What `corr_func` returns for a trigger x reference-trigger table: a bare correlation
      value, or a (value, variance) pair. */
  datatype Corr = Scalar(c: real) | WithVariance(c: real, variance: real)

  type CorrFunc = Hist -> Corr

  const STAT_AXIS: string := "stat"
  const FIRED: nat := 1

  // =======================================================================================
  // calc_stat

  /** The histogram shapes `calc_stat` works on: matching data and MC axes, a trigger axis
      with a "fired" bin 1, a reference-trigger axis of at most two bins (not fired, fired),
      and no axis already called "stat". */
  predicate StatShape(hs: DataMc, trigger: string, ref: string)
  {
    && hs.data.axes == hs.mc.axes
    && UniqueNames(hs.data.axes)
    && trigger != ref
    && trigger in NameSet(hs.data.axes)
    && ref in NameSet(hs.data.axes)
    && SizeOf(hs.data.axes, trigger) > FIRED
    && SizeOf(hs.data.axes, ref) <= 2
    && STAT_AXIS !in NameSet(hs.data.axes)
  }

  /** `h[idx][sum]`: the count at `idx` summed over the trigger axis. */
  function TriggerSum(h: Hist, trigger: string, n: nat, idx: Bin): real
  {
    Sum(seq(n, t requires 0 <= t < n => h.at(idx[trigger := t])))
  }

  /** The four counts handed to `error_func` for the loop bin `idx`, in the order
      data[trigger fired], data[trigger summed], mc[trigger fired], mc[trigger summed]. */
  function StatInputs(hs: DataMc, trigger: string, n: nat, idx: Bin): (real, real, real, real)
  {
    (hs.data.at(idx[trigger := FIRED]), TriggerSum(hs.data, trigger, n, idx),
     hs.mc.at(idx[trigger := FIRED]), TriggerSum(hs.mc, trigger, n, idx))
  }

  /** The assignments the `calc_stat` loop performs, in loop order: a bin whose
      reference-trigger index is 0 is skipped, any other bin has its reference index popped
      and its (down, up) pair written. */
  function StatWrites(hs: DataMc, trigger: string, ref: string, n: nat, ef: ErrorFunc,
                      bins: seq<Bin>): seq<Write>
    requires forall b :: b in bins ==> ref in b
  {
    if bins == [] then []
    else
      var idx := bins[0];
      var rest := StatWrites(hs, trigger, ref, n, ef, bins[1..]);
      if idx[ref] == 0 then rest
      else
        var o := idx - {ref};
        var (x0, x1, x2, x3) := StatInputs(hs, trigger, n, idx);
        var band := ef(x0, x1, x2, x3);
        [Write(o[STAT_AXIS := DOWN], band.0), Write(o[STAT_AXIS := UP], band.1)] + rest
  }

  /** `calc_stat`: the statistical band on the scale factor, binned in every data axis but
      the trigger and reference-trigger axes, with a (down, up) axis named "stat". */
  function CalcStat(hs: DataMc, trigger: string, ref: string, store: Store, ef: ErrorFunc)
    : (r: (Hist, Store))
    requires StatShape(hs, trigger, ref)
    ensures r.0.axes == Drop(hs.data.axes, {trigger, ref}) + [Axis(STAT_AXIS, 2)]
    ensures r.1 == store
  {
    var out := EmptySystHist(Drop(hs.data.axes, {trigger, ref}), STAT_AXIS);
    (Hist(out.axes, AssignAll(StatLoopWrites(hs, trigger, ref, ef), out.at)), store)
  }

  /** The assignments of the whole `calc_stat` loop over the bins of every axis but the
      trigger axis. */
  function StatLoopWrites(hs: DataMc, trigger: string, ref: string, ef: ErrorFunc): seq<Write>
    requires StatShape(hs, trigger, ref)
  {
    var loopAxes := Drop(hs.data.axes, {trigger});
    LoopBinsSound(loopAxes);
    StatWrites(hs, trigger, ref, SizeOf(hs.data.axes, trigger), ef, LoopBins(loopAxes))
  }

  /** The band `calc_stat` writes at output bin `o`: the pair `error_func` returns for the
      counts at `o` with the reference trigger fired, or the untouched default (0, 0) when the
      reference-trigger axis has no "fired" bin. */
  function ExpectedStatBand(hs: DataMc, trigger: string, ref: string, ef: ErrorFunc, o: Bin)
    : (real, real)
    requires StatShape(hs, trigger, ref)
  {
    if SizeOf(hs.data.axes, ref) == 2 then
      var (x0, x1, x2, x3) := StatInputs(hs, trigger, SizeOf(hs.data.axes, trigger), o[ref := FIRED]);
      ef(x0, x1, x2, x3)
    else (0.0, 0.0)
  }

  predicate StatWriteFrom(hs: DataMc, trigger: string, ref: string, n: nat, ef: ErrorFunc,
                          idx: Bin, w: Write)
    requires ref in idx
  {
    && idx[ref] != 0
    && var (x0, x1, x2, x3) := StatInputs(hs, trigger, n, idx);
       var band := ef(x0, x1, x2, x3);
       || w == Write((idx - {ref})[STAT_AXIS := DOWN], band.0)
       || w == Write((idx - {ref})[STAT_AXIS := UP], band.1)
  }

  lemma {:induction false} StatWritesOrigin(hs: DataMc, trigger: string, ref: string, n: nat,
                                            ef: ErrorFunc, bins: seq<Bin>, w: Write)
    requires forall b :: b in bins ==> ref in b
    requires w in StatWrites(hs, trigger, ref, n, ef, bins)
    ensures exists idx :: idx in bins && ref in idx && StatWriteFrom(hs, trigger, ref, n, ef, idx, w)
  {
    assert bins != [];
    var idx := bins[0];
    assert forall b :: b in bins[1..] ==> b in bins;
    var rest := StatWrites(hs, trigger, ref, n, ef, bins[1..]);
    if w in rest {
      StatWritesOrigin(hs, trigger, ref, n, ef, bins[1..], w);
      var j :| j in bins[1..] && ref in j && StatWriteFrom(hs, trigger, ref, n, ef, j, w);
    } else {
      assert idx in bins;
      assert StatWriteFrom(hs, trigger, ref, n, ef, idx, w);
    }
  }

  lemma {:induction false} StatWritesPresent(hs: DataMc, trigger: string, ref: string, n: nat,
                                             ef: ErrorFunc, bins: seq<Bin>, idx: Bin)
    requires forall b :: b in bins ==> ref in b
    requires idx in bins && idx[ref] != 0
    ensures
      var (x0, x1, x2, x3) := StatInputs(hs, trigger, n, idx);
      Write((idx - {ref})[STAT_AXIS := DOWN], ef(x0, x1, x2, x3).0)
        in StatWrites(hs, trigger, ref, n, ef, bins)
    ensures
      var (x0, x1, x2, x3) := StatInputs(hs, trigger, n, idx);
      Write((idx - {ref})[STAT_AXIS := UP], ef(x0, x1, x2, x3).1)
        in StatWrites(hs, trigger, ref, n, ef, bins)
  {
    assert forall b :: b in bins[1..] ==> b in bins;
    if bins[0] != idx {
      assert idx in bins[1..];
      StatWritesPresent(hs, trigger, ref, n, ef, bins[1..], idx);
    }
  }

  /** Two bins with the same keys, one extending the other, are the same bin. */
  lemma SameKeysExtends(u: Bin, t: Bin)
    requires t.Keys == u.Keys && Extends(u, t)
    ensures t == u
  {
  }

  lemma UpdateThenRemove(m: Bin, k: string, v: nat)
    requires k !in m
    ensures m[k := v] - {k} == m
  {
  }

  /** The reference-trigger index of a loop bin is below the axis size. */
  lemma RefIndexBound(hs: DataMc, trigger: string, ref: string, idx: Bin)
    requires StatShape(hs, trigger, ref)
    requires ValidBin(Drop(hs.data.axes, {trigger}), idx)
    ensures ref in idx && idx[ref] < SizeOf(hs.data.axes, ref)
  {
    var a :| a in hs.data.axes && a.name == ref;
    SizeOfIsAxis(hs.data.axes, a);
    assert a in Drop(hs.data.axes, {trigger});
  }

  /** Every loop bin that writes to output bin `o` (plus a variation index) is `o` with the
      reference trigger fired. */
  lemma StatWriterIsFired(hs: DataMc, trigger: string, ref: string, o: Bin, idx: Bin, s: nat)
    requires StatShape(hs, trigger, ref)
    requires ValidBin(Drop(hs.data.axes, {trigger, ref}), o)
    requires ValidBin(Drop(hs.data.axes, {trigger}), idx)
    requires ref in idx && idx[ref] != 0
    requires Extends(o[STAT_AXIS := s], (idx - {ref})[STAT_AXIS := s])
    ensures SizeOf(hs.data.axes, ref) == 2
    ensures idx == o[ref := FIRED]
  {
    RefIndexBound(hs, trigger, ref, idx);
    assert idx[ref] == FIRED;
    WriterKeys(hs.data.axes, trigger, ref, o, idx);
    SameKeysAfterUpdate(idx - {ref}, o, STAT_AXIS, s);
    RemoveThenUpdate(idx, ref);
  }

  /** A loop bin without its reference index has the keys of an output bin. */
  lemma WriterKeys(axes: seq<Axis>, trigger: string, ref: string, o: Bin, idx: Bin)
    requires ValidBin(Drop(axes, {trigger, ref}), o)
    requires ValidBin(Drop(axes, {trigger}), idx)
    ensures (idx - {ref}).Keys == o.Keys
  {
    assert o.Keys == NameSet(axes) - {trigger, ref};
    assert idx.Keys == NameSet(axes) - {trigger};
  }

  /** Extending a bin over the same keys, after the same update, means equality. */
  lemma SameKeysAfterUpdate(m: Bin, o: Bin, k: string, s: nat)
    requires k !in m && k !in o && m.Keys == o.Keys
    requires Extends(o[k := s], m[k := s])
    ensures m == o
  {
    assert m[k := s].Keys == o[k := s].Keys;
    SameKeysExtends(o[k := s], m[k := s]);
    UpdateThenRemove(m, k, s);
    UpdateThenRemove(o, k, s);
  }

  lemma RemoveThenUpdate(m: Bin, k: string)
    requires k in m
    ensures m == (m - {k})[k := m[k]]
  {
  }

  /** A write of the loop that reaches output bin `o` with variation index `s` carries the
      expected band entry, and exists only when the reference trigger has a fired bin. */
  lemma StatWriteReaching(hs: DataMc, trigger: string, ref: string, ef: ErrorFunc, o: Bin, s: nat,
                          w: Write)
    requires StatShape(hs, trigger, ref)
    requires ValidBin(Drop(hs.data.axes, {trigger, ref}), o)
    requires s == DOWN || s == UP
    requires w in StatLoopWrites(hs, trigger, ref, ef) && Extends(o[STAT_AXIS := s], w.target)
    ensures SizeOf(hs.data.axes, ref) == 2
    ensures w.value == (if s == DOWN then ExpectedStatBand(hs, trigger, ref, ef, o).0
                        else ExpectedStatBand(hs, trigger, ref, ef, o).1)
  {
    var loopAxes := Drop(hs.data.axes, {trigger});
    var n := SizeOf(hs.data.axes, trigger);
    var bins := LoopBins(loopAxes);
    LoopBinsSound(loopAxes);
    StatWritesOrigin(hs, trigger, ref, n, ef, bins, w);
    var idx :| idx in bins && ref in idx && StatWriteFrom(hs, trigger, ref, n, ef, idx, w);
    var (x0, x1, x2, x3) := StatInputs(hs, trigger, n, idx);
    var band := ef(x0, x1, x2, x3);
    if w == Write((idx - {ref})[STAT_AXIS := DOWN], band.0) {
      assert w.target[STAT_AXIS] == DOWN;
      StatWriterIsFired(hs, trigger, ref, o, idx, DOWN);
    } else {
      assert w.target[STAT_AXIS] == UP;
      StatWriterIsFired(hs, trigger, ref, o, idx, UP);
    }
  }

  /** The value the loop leaves in output bin `o` with variation index `s`. */
  lemma StatLoopValue(hs: DataMc, trigger: string, ref: string, ef: ErrorFunc, o: Bin, s: nat,
                      init: Bin -> real)
    requires StatShape(hs, trigger, ref)
    requires ValidBin(Drop(hs.data.axes, {trigger, ref}), o)
    requires s == DOWN || s == UP
    requires forall b :: init(b) == 0.0
    ensures AssignAll(StatLoopWrites(hs, trigger, ref, ef), init)(o[STAT_AXIS := s])
            == (if s == DOWN then ExpectedStatBand(hs, trigger, ref, ef, o).0
                else ExpectedStatBand(hs, trigger, ref, ef, o).1)
  {
    var axes := hs.data.axes;
    var outAxes := Drop(axes, {trigger, ref});
    var loopAxes := Drop(axes, {trigger});
    var n := SizeOf(axes, trigger);
    var bins := LoopBins(loopAxes);
    LoopBinsSound(loopAxes);
    var writes := StatLoopWrites(hs, trigger, ref, ef);
    assert writes == StatWrites(hs, trigger, ref, n, ef, bins);
    var expected := if s == DOWN then ExpectedStatBand(hs, trigger, ref, ef, o).0
                    else ExpectedStatBand(hs, trigger, ref, ef, o).1;
    var target := o[STAT_AXIS := s];
    // every write reaching this output bin comes from `o` with the reference trigger fired
    forall w | w in writes && Extends(target, w.target)
      ensures SizeOf(axes, ref) == 2
      ensures w.value == expected
    {
      StatWriteReaching(hs, trigger, ref, ef, o, s, w);
    }
    if SizeOf(axes, ref) == 2 {
      var k := StatFiredWrite(hs, trigger, ref, ef, o, s);
      AssignAllAgreeing(writes, init, target, expected, k);
    } else {
      AssignAllUntouched(writes, init, target);
    }
  }

  /** An output bin with the reference trigger fired is a bin of the loop. */
  lemma FiredIsLoopBin(hs: DataMc, trigger: string, ref: string, o: Bin)
    requires StatShape(hs, trigger, ref)
    requires ValidBin(Drop(hs.data.axes, {trigger, ref}), o)
    requires SizeOf(hs.data.axes, ref) == 2
    ensures ValidBin(Drop(hs.data.axes, {trigger}), o[ref := FIRED])
  {
    ValidBinRestore(hs.data.axes, {trigger, ref}, ref, FIRED, o);
    assert {trigger, ref} - {ref} == {trigger};
  }

  /** With a fired reference-trigger bin, the loop does write output bin `o`. */
  lemma StatFiredWrite(hs: DataMc, trigger: string, ref: string, ef: ErrorFunc, o: Bin, s: nat)
    returns (k: nat)
    requires StatShape(hs, trigger, ref)
    requires ValidBin(Drop(hs.data.axes, {trigger, ref}), o)
    requires s == DOWN || s == UP
    requires SizeOf(hs.data.axes, ref) == 2
    ensures k < |StatLoopWrites(hs, trigger, ref, ef)|
    ensures StatLoopWrites(hs, trigger, ref, ef)[k].target == o[STAT_AXIS := s]
  {
    var w := FiredWrite(hs, trigger, ref, ef, o, s);
    var writes := StatLoopWrites(hs, trigger, ref, ef);
    k :| 0 <= k < |writes| && writes[k] == w;
  }

  lemma FiredWrite(hs: DataMc, trigger: string, ref: string, ef: ErrorFunc, o: Bin, s: nat)
    returns (w: Write)
    requires StatShape(hs, trigger, ref)
    requires ValidBin(Drop(hs.data.axes, {trigger, ref}), o)
    requires s == DOWN || s == UP
    requires SizeOf(hs.data.axes, ref) == 2
    ensures w in StatLoopWrites(hs, trigger, ref, ef) && w.target == o[STAT_AXIS := s]
  {
    var loopAxes := Drop(hs.data.axes, {trigger});
    var n := SizeOf(hs.data.axes, trigger);
    var fired := o[ref := FIRED];
    FiredIsLoopBin(hs, trigger, ref, o);
    LoopBinsSound(loopAxes);
    LoopBinsComplete(loopAxes, fired);
    StatWritesPresent(hs, trigger, ref, n, ef, LoopBins(loopAxes), fired);
    RefNotInOutput(hs, trigger, ref, o);
    UpdateThenRemove(o, ref, FIRED);
    var (x0, x1, x2, x3) := StatInputs(hs, trigger, n, fired);
    w := if s == DOWN then Write(o[STAT_AXIS := s], ef(x0, x1, x2, x3).0)
         else Write(o[STAT_AXIS := s], ef(x0, x1, x2, x3).1);
  }

  lemma RefNotInOutput(hs: DataMc, trigger: string, ref: string, o: Bin)
    requires ValidBin(Drop(hs.data.axes, {trigger, ref}), o)
    ensures ref !in o
  {
    assert o.Keys == NameSet(Drop(hs.data.axes, {trigger, ref}));
  }

  /** Reading the `calc_stat` result back: at every output bin the (down, up) pair is the one
      `error_func` returned for that bin's counts with the reference trigger fired, taken from
      data and MC in the documented argument order; a reference-trigger axis without a fired
      bin leaves every output bin at the default. The loop order does not matter. */
  lemma CalcStatBand(hs: DataMc, trigger: string, ref: string, store: Store, ef: ErrorFunc, o: Bin)
    requires StatShape(hs, trigger, ref)
    requires ValidBin(Drop(hs.data.axes, {trigger, ref}), o)
    ensures Band(CalcStat(hs, trigger, ref, store, ef).0, STAT_AXIS, o)
            == ExpectedStatBand(hs, trigger, ref, ef, o)
  {
    var out := EmptySystHist(Drop(hs.data.axes, {trigger, ref}), STAT_AXIS);
    StatLoopValue(hs, trigger, ref, ef, o, DOWN, out.at);
    StatLoopValue(hs, trigger, ref, ef, o, UP, out.at);
  }

  // =======================================================================================
  // calc_corr

  /** The axes the correlation bias is binned in: the requested variables the MC histogram
      has, in the histogram's axis order, never the trigger axes. */
  function CorrAxes(mcAxes: seq<Axis>, trigger: string, ref: string, corrVariables: seq<string>)
    : (r: seq<Axis>)
    ensures forall a :: a in r <==> a in mcAxes && a.name in corrVariables && a.name != trigger && a.name != ref
  {
    Drop(Keep(mcAxes, {trigger, ref} + set v | v in corrVariables), {trigger, ref})
  }

  /** `corr_vars`: the names of the correlation axes. */
  function CorrVars(mcAxes: seq<Axis>, trigger: string, ref: string, corrVariables: seq<string>)
    : seq<string>
  {
    Names(CorrAxes(mcAxes, trigger, ref, corrVariables))
  }

  /** The key under which the correlation histogram is stored, and the name of the variation
      axis: the given tag, or "corr" followed by "_" and each correlation variable. */
  function CorrTag(tag: Option<string>, corrVars: seq<string>): string
  {
    match tag
    case Some(t) => t
    case None => "corr" + (if corrVars == [] then "" else "_" + Join("_", corrVars))
  }

  /** `hist_bin.project(trigger, ref_trigger)`: the trigger axes in that order. */
  function TriggerAxes(axes: seq<Axis>, trigger: string, ref: string): seq<Axis>
    requires trigger in NameSet(axes) && ref in NameSet(axes)
  {
    [Axis(trigger, SizeOf(axes, trigger)), Axis(ref, SizeOf(axes, ref))]
  }

  /** The shapes `calc_corr` works on: distinct trigger axes in the MC histogram, a variation
      axis name that is not already an axis, efficiencies binned like the MC histogram with the
      trigger axes summed, and a nonzero MC efficiency wherever the scale factor divides by it. */
  ghost predicate CorrShape(hs: DataMc, trigger: string, ref: string, eff: EffFunc, name: string)
  {
    && UniqueNames(hs.mc.axes)
    && trigger != ref
    && trigger in NameSet(hs.mc.axes)
    && ref in NameSet(hs.mc.axes)
    && name !in NameSet(hs.mc.axes)
    && eff(hs.data, trigger, ref).axes == Drop(hs.mc.axes, {trigger, ref})
    && eff(hs.mc, trigger, ref).axes == Drop(hs.mc.axes, {trigger, ref})
    && forall b :: ValidBin(Drop(hs.mc.axes, {trigger, ref}), b) ==> eff(hs.mc, trigger, ref).at(b) != 0.0
  }

  /** The correlation value `corr_func` gives for the correlation bin `idx`: the trigger x
      reference-trigger table of the MC histogram reduced to the trigger and correlation axes;
      a variance, when returned, is not part of the value. */
  function CorrAt(hs: DataMc, trigger: string, ref: string, corrVariables: seq<string>,
                  cf: CorrFunc, idx: Bin): real
    requires trigger in NameSet(hs.mc.axes) && ref in NameSet(hs.mc.axes)
  {
    var red := ReduceExclude(hs.mc, {trigger, ref} + set v | v in corrVariables);
    cf(Slice(red, idx, TriggerAxes(hs.mc.axes, trigger, ref))).c
  }

  /** The assignments of the `calc_corr` loop, one per correlation bin. */
  function CorrWrites(hs: DataMc, trigger: string, ref: string, corrVariables: seq<string>,
                      cf: CorrFunc): (r: seq<Write>)
    requires trigger in NameSet(hs.mc.axes) && ref in NameSet(hs.mc.axes)
    ensures |r| == |LoopBins(CorrAxes(hs.mc.axes, trigger, ref, corrVariables))|
  {
    var bins := LoopBins(CorrAxes(hs.mc.axes, trigger, ref, corrVariables));
    seq(|bins|, k requires 0 <= k < |bins| =>
      Write(bins[k], CorrAt(hs, trigger, ref, corrVariables, cf, bins[k])))
  }

  /** The MC scale factor ratio data efficiency / MC efficiency at bin `b`. */
  function Ratio(effData: Hist, effMc: Hist, b: Bin): real
    requires effMc.at(b) != 0.0
  {
    effData.at(b) / effMc.at(b)
  }

  /** `calc_corr`: the correlation-bias band sf -/+ sf * c on the scale factor, binned like the
      MC histogram with the trigger axes summed; the correlation histogram is stored under the
      tag, which also names the variation axis. */
  function CalcCorr(hs: DataMc, trigger: string, ref: string, store: Store,
                    corrVariables: seq<string>, cf: CorrFunc, eff: EffFunc, tag: Option<string>)
    : (r: (Hist, Store))
    requires CorrShape(hs, trigger, ref, eff,
                       CorrTag(tag, CorrVars(hs.mc.axes, trigger, ref, corrVariables)))
    ensures r.0.axes == Drop(hs.mc.axes, {trigger, ref})
                        + [Axis(CorrTag(tag, CorrVars(hs.mc.axes, trigger, ref, corrVariables)), 2)]
    ensures r.1.Keys == store.Keys + {CorrTag(tag, CorrVars(hs.mc.axes, trigger, ref, corrVariables))}
    ensures forall k :: k in store && k != CorrTag(tag, CorrVars(hs.mc.axes, trigger, ref, corrVariables))
                        ==> r.1[k] == store[k]
    ensures r.1[CorrTag(tag, CorrVars(hs.mc.axes, trigger, ref, corrVariables))].axes
            == (if CorrVars(hs.mc.axes, trigger, ref, corrVariables) == [] then [Axis("", 1)]
                else CorrAxes(hs.mc.axes, trigger, ref, corrVariables))
  {
    var name := CorrTag(tag, CorrVars(hs.mc.axes, trigger, ref, corrVariables));
    StoreUnder(store, name, CorrHist(hs, trigger, ref, corrVariables, cf),
               CorrBandHist(hs, trigger, ref, corrVariables, cf, eff, name))
  }

  /** The band `band`, with `h` stored under `name`. */
  function StoreUnder(store: Store, name: string, h: Hist, band: Hist): (r: (Hist, Store))
    ensures r.0 == band
    ensures r.1.Keys == store.Keys + {name}
    ensures forall k :: k in store && k != name ==> r.1[k] == store[k]
    ensures r.1[name] == h
  {
    (band, store[name := h])
  }

  /** `corr_hist`: the correlation values binned in the correlation axes, or in a single
      unnamed bin when there are none. */
  function CorrHist(hs: DataMc, trigger: string, ref: string, corrVariables: seq<string>,
                    cf: CorrFunc): (r: Hist)
    requires trigger in NameSet(hs.mc.axes) && ref in NameSet(hs.mc.axes)
    ensures r.axes == (if CorrVars(hs.mc.axes, trigger, ref, corrVariables) == [] then [Axis("", 1)]
                       else CorrAxes(hs.mc.axes, trigger, ref, corrVariables))
  {
    var corrAxes := CorrAxes(hs.mc.axes, trigger, ref, corrVariables);
    var writes := CorrWrites(hs, trigger, ref, corrVariables, cf);
    var init := CorrHistInit(hs, trigger, ref, corrVariables, cf);
    if Names(corrAxes) == [] then Hist([Axis("", 1)], AssignAll(writes, init))
    else Hist(corrAxes, AssignAll(writes, init))
  }

  /** The values `corr_hist` starts from before the loop overwrites them: zero for the
      single inclusive bin, the MC projection onto the correlation axes otherwise. */
  function CorrHistInit(hs: DataMc, trigger: string, ref: string, corrVariables: seq<string>,
                        cf: CorrFunc): Bin -> real
  {
    var corrAxes := CorrAxes(hs.mc.axes, trigger, ref, corrVariables);
    var red := ReduceExclude(hs.mc, {trigger, ref} + set v | v in corrVariables);
    if Names(corrAxes) == [] then Zero() else ReduceExclude(red, NameSet(corrAxes)).at
  }

  /** `unred_corr_hist`: the correlation values broadcast over the MC binning with the trigger
      axes summed. */
  function CorrBroadcast(hs: DataMc, trigger: string, ref: string, corrVariables: seq<string>,
                         cf: CorrFunc): Bin -> real
    requires trigger in NameSet(hs.mc.axes) && ref in NameSet(hs.mc.axes)
  {
    AssignAll(CorrWrites(hs, trigger, ref, corrVariables, cf), ReduceAxes(hs.mc, {trigger, ref}).at)
  }

  /** The scale factor data efficiency / MC efficiency at bin `b`; bins outside the histogram
      are never read back. */
  function ScaleFactor(hs: DataMc, trigger: string, ref: string, eff: EffFunc, name: string, b: Bin)
    : real
    requires CorrShape(hs, trigger, ref, eff, name)
  {
    if ValidBin(Drop(hs.mc.axes, {trigger, ref}), b)
    then Ratio(eff(hs.data, trigger, ref), eff(hs.mc, trigger, ref), b) else 0.0
  }

  /** The variation histogram (sf - sf c, sf + sf c) named `name`. */
  function CorrBandHist(hs: DataMc, trigger: string, ref: string, corrVariables: seq<string>,
                        cf: CorrFunc, eff: EffFunc, name: string): (r: Hist)
    requires CorrShape(hs, trigger, ref, eff, name)
    ensures r.axes == Drop(hs.mc.axes, {trigger, ref}) + [Axis(name, 2)]
  {
    SystHist(Drop(hs.mc.axes, {trigger, ref}), name,
             CorrShiftFn(hs, trigger, ref, corrVariables, cf, eff, name, false),
             CorrShiftFn(hs, trigger, ref, corrVariables, cf, eff, name, true))
  }

  function CorrShiftFn(hs: DataMc, trigger: string, ref: string, corrVariables: seq<string>,
                       cf: CorrFunc, eff: EffFunc, name: string, up: bool): Bin -> real
    requires CorrShape(hs, trigger, ref, eff, name)
  {
    (b: Bin) => CorrShift(hs, trigger, ref, corrVariables, cf, eff, name, up, b)
  }

  /** sf + sf * c (upwards) or sf - sf * c (downwards) at bin `b`. */
  function CorrShift(hs: DataMc, trigger: string, ref: string, corrVariables: seq<string>,
                     cf: CorrFunc, eff: EffFunc, name: string, up: bool, b: Bin): real
    requires CorrShape(hs, trigger, ref, eff, name)
  {
    Shifted(ScaleFactor(hs, trigger, ref, eff, name, b),
            CorrBroadcast(hs, trigger, ref, corrVariables, cf)(b), up)
  }

  /** sf + sf * c (upwards) or sf - sf * c (downwards). */
  function Shifted(sf: real, c: real, up: bool): real
  {
    if up then sf + sf * c else sf - sf * c
  }

  /** A freshly allocated histogram: every bin starts at zero. */
  function Zero(): Bin -> real
  {
    (b: Bin) => 0.0
  }

  /** A correlation-loop write reaches bin `b` exactly when it is the write for `b`'s
      correlation coordinates, so `b` ends up with that bin's correlation value whatever the
      loop order and whatever `b` held before. */
  lemma CorrWritesValue(hs: DataMc, trigger: string, ref: string, corrVariables: seq<string>,
                        cf: CorrFunc, f: Bin -> real, b: Bin)
    requires UniqueNames(hs.mc.axes)
    requires trigger in NameSet(hs.mc.axes) && ref in NameSet(hs.mc.axes)
    requires ValidBin(CorrAxes(hs.mc.axes, trigger, ref, corrVariables),
                      Restrict(b, NameSet(CorrAxes(hs.mc.axes, trigger, ref, corrVariables))))
    ensures AssignAll(CorrWrites(hs, trigger, ref, corrVariables, cf), f)(b)
            == CorrAt(hs, trigger, ref, corrVariables, cf,
                      Restrict(b, NameSet(CorrAxes(hs.mc.axes, trigger, ref, corrVariables))))
  {
    var corrAxes := CorrAxes(hs.mc.axes, trigger, ref, corrVariables);
    var cvs := NameSet(corrAxes);
    var bins := LoopBins(corrAxes);
    var writes := CorrWrites(hs, trigger, ref, corrVariables, cf);
    var idx := Restrict(b, cvs);
    var v := CorrAt(hs, trigger, ref, corrVariables, cf, idx);
    LoopBinsSound(corrAxes);
    LoopBinsComplete(corrAxes, idx);
    var k :| 0 <= k < |bins| && bins[k] == idx;
    assert writes[k].target == idx;
    forall w | w in writes && Extends(b, w.target)
      ensures w.value == v
    {
      var j :| 0 <= j < |writes| && writes[j] == w;
      assert ValidBin(corrAxes, bins[j]);
      SameKeysExtends(idx, bins[j]);
    }
    AssignAllAgreeing(writes, f, b, v, k);
  }

  /** The correlation bins of an unreduced bin are a correlation bin. */
  lemma CorrCoordinatesValid(hs: DataMc, trigger: string, ref: string, corrVariables: seq<string>,
                             b: Bin)
    requires UniqueNames(hs.mc.axes)
    requires ValidBin(Drop(hs.mc.axes, {trigger, ref}), b)
    ensures ValidBin(CorrAxes(hs.mc.axes, trigger, ref, corrVariables),
                     Restrict(b, NameSet(CorrAxes(hs.mc.axes, trigger, ref, corrVariables))))
  {
    var corrAxes := CorrAxes(hs.mc.axes, trigger, ref, corrVariables);
    var unred := Drop(hs.mc.axes, {trigger, ref});
    RestrictValid(unred, b, NameSet(corrAxes));
    ValidBinSameMembers(Keep(unred, NameSet(corrAxes)), corrAxes, Restrict(b, NameSet(corrAxes)));
  }

  /** Reading the `calc_corr` band back at an unreduced bin `b`: with sf the data/MC
      efficiency ratio at `b` and c the correlation value of `b`'s correlation bin, the band is
      (sf - sf c, sf + sf c); it is symmetric about sf and collapses onto sf when c is zero. */
  lemma CalcCorrBand(hs: DataMc, trigger: string, ref: string, store: Store,
                     corrVariables: seq<string>, cf: CorrFunc, eff: EffFunc, tag: Option<string>,
                     b: Bin)
    requires CorrShape(hs, trigger, ref, eff,
                       CorrTag(tag, CorrVars(hs.mc.axes, trigger, ref, corrVariables)))
    requires ValidBin(Drop(hs.mc.axes, {trigger, ref}), b)
    ensures
      var name := CorrTag(tag, CorrVars(hs.mc.axes, trigger, ref, corrVariables));
      var band := Band(CalcCorr(hs, trigger, ref, store, corrVariables, cf, eff, tag).0, name, b);
      var sf := Ratio(eff(hs.data, trigger, ref), eff(hs.mc, trigger, ref), b);
      var c := CorrAt(hs, trigger, ref, corrVariables, cf,
                      Restrict(b, NameSet(CorrAxes(hs.mc.axes, trigger, ref, corrVariables))));
      && band == (sf - sf * c, sf + sf * c)
      && (band.0 + band.1) / 2.0 == sf
      && (c == 0.0 ==> band == (sf, sf))
  {
    var name := CorrTag(tag, CorrVars(hs.mc.axes, trigger, ref, corrVariables));
    var sf := Ratio(eff(hs.data, trigger, ref), eff(hs.mc, trigger, ref), b);
    var c := CorrAt(hs, trigger, ref, corrVariables, cf,
                    Restrict(b, NameSet(CorrAxes(hs.mc.axes, trigger, ref, corrVariables))));
    CorrBandAt(hs, trigger, ref, corrVariables, cf, eff, name, b);
    assert CalcCorr(hs, trigger, ref, store, corrVariables, cf, eff, tag).0
           == CorrBandHist(hs, trigger, ref, corrVariables, cf, eff, name);
    ShiftedValues(sf, c);
  }

  lemma CorrBandAt(hs: DataMc, trigger: string, ref: string, corrVariables: seq<string>,
                   cf: CorrFunc, eff: EffFunc, name: string, b: Bin)
    requires CorrShape(hs, trigger, ref, eff, name)
    requires ValidBin(Drop(hs.mc.axes, {trigger, ref}), b)
    ensures
      var sf := Ratio(eff(hs.data, trigger, ref), eff(hs.mc, trigger, ref), b);
      var c := CorrAt(hs, trigger, ref, corrVariables, cf,
                      Restrict(b, NameSet(CorrAxes(hs.mc.axes, trigger, ref, corrVariables))));
      Band(CorrBandHist(hs, trigger, ref, corrVariables, cf, eff, name), name, b)
        == (Shifted(sf, c, false), Shifted(sf, c, true))
  {
    var down := CorrShiftFn(hs, trigger, ref, corrVariables, cf, eff, name, false);
    var up := CorrShiftFn(hs, trigger, ref, corrVariables, cf, eff, name, true);
    CorrShiftAt(hs, trigger, ref, corrVariables, cf, eff, name, b);
    CorrBandHistIsSystHist(hs, trigger, ref, corrVariables, cf, eff, name);
    NameNotInBin(hs.mc.axes, {trigger, ref}, name, b);
    SystHistBand(Drop(hs.mc.axes, {trigger, ref}), name, down, up, b);
  }

  /** The variation axis name is not an axis of an unreduced bin. */
  lemma NameNotInBin(axes: seq<Axis>, dropped: set<string>, name: string, b: Bin)
    requires name !in NameSet(axes)
    requires ValidBin(Drop(axes, dropped), b)
    ensures name !in b
  {
    assert b.Keys == NameSet(Drop(axes, dropped));
  }

  lemma CorrBandHistIsSystHist(hs: DataMc, trigger: string, ref: string,
                               corrVariables: seq<string>, cf: CorrFunc, eff: EffFunc, name: string)
    requires CorrShape(hs, trigger, ref, eff, name)
    ensures CorrBandHist(hs, trigger, ref, corrVariables, cf, eff, name)
            == SystHist(Drop(hs.mc.axes, {trigger, ref}), name,
                        CorrShiftFn(hs, trigger, ref, corrVariables, cf, eff, name, false),
                        CorrShiftFn(hs, trigger, ref, corrVariables, cf, eff, name, true))
  {
  }

  lemma CorrShiftAt(hs: DataMc, trigger: string, ref: string, corrVariables: seq<string>,
                    cf: CorrFunc, eff: EffFunc, name: string, b: Bin)
    requires CorrShape(hs, trigger, ref, eff, name)
    requires ValidBin(Drop(hs.mc.axes, {trigger, ref}), b)
    ensures
      var sf := Ratio(eff(hs.data, trigger, ref), eff(hs.mc, trigger, ref), b);
      var c := CorrAt(hs, trigger, ref, corrVariables, cf,
                      Restrict(b, NameSet(CorrAxes(hs.mc.axes, trigger, ref, corrVariables))));
      && CorrShiftFn(hs, trigger, ref, corrVariables, cf, eff, name, false)(b) == Shifted(sf, c, false)
      && CorrShiftFn(hs, trigger, ref, corrVariables, cf, eff, name, true)(b) == Shifted(sf, c, true)
  {
    CorrBroadcastAt(hs, trigger, ref, corrVariables, cf, b);
    assert ScaleFactor(hs, trigger, ref, eff, name, b)
           == Ratio(eff(hs.data, trigger, ref), eff(hs.mc, trigger, ref), b);
    CorrShiftApply(hs, trigger, ref, corrVariables, cf, eff, name, false, b);
    CorrShiftApply(hs, trigger, ref, corrVariables, cf, eff, name, true, b);
  }

  lemma CorrShiftApply(hs: DataMc, trigger: string, ref: string, corrVariables: seq<string>,
                       cf: CorrFunc, eff: EffFunc, name: string, up: bool, b: Bin)
    requires CorrShape(hs, trigger, ref, eff, name)
    ensures CorrShiftFn(hs, trigger, ref, corrVariables, cf, eff, name, up)(b)
            == Shifted(ScaleFactor(hs, trigger, ref, eff, name, b),
                       CorrBroadcast(hs, trigger, ref, corrVariables, cf)(b), up)
  {
  }

  lemma ShiftedValues(sf: real, c: real)
    ensures Shifted(sf, c, false) == sf - sf * c && Shifted(sf, c, true) == sf + sf * c
  {
  }

  /** Every unreduced bin holds the correlation value of its correlation bin. */
  lemma CorrBroadcastAt(hs: DataMc, trigger: string, ref: string, corrVariables: seq<string>,
                        cf: CorrFunc, b: Bin)
    requires UniqueNames(hs.mc.axes)
    requires trigger in NameSet(hs.mc.axes) && ref in NameSet(hs.mc.axes)
    requires ValidBin(Drop(hs.mc.axes, {trigger, ref}), b)
    ensures CorrBroadcast(hs, trigger, ref, corrVariables, cf)(b)
            == CorrAt(hs, trigger, ref, corrVariables, cf,
                      Restrict(b, NameSet(CorrAxes(hs.mc.axes, trigger, ref, corrVariables))))
  {
    CorrCoordinatesValid(hs, trigger, ref, corrVariables, b);
    CorrWritesValue(hs, trigger, ref, corrVariables, cf, ReduceAxes(hs.mc, {trigger, ref}).at, b);
  }

  /** Reading the stored correlation histogram back: every correlation bin holds the value
      `corr_func` gave for it; without correlation variables the single bin holds the
      inclusive value. */
  lemma CalcCorrStored(hs: DataMc, trigger: string, ref: string, store: Store,
                       corrVariables: seq<string>, cf: CorrFunc, eff: EffFunc, tag: Option<string>,
                       idx: Bin)
    requires CorrShape(hs, trigger, ref, eff,
                       CorrTag(tag, CorrVars(hs.mc.axes, trigger, ref, corrVariables)))
    requires ValidBin(CalcCorr(hs, trigger, ref, store, corrVariables, cf, eff, tag).1[
                        CorrTag(tag, CorrVars(hs.mc.axes, trigger, ref, corrVariables))].axes, idx)
    ensures
      var name := CorrTag(tag, CorrVars(hs.mc.axes, trigger, ref, corrVariables));
      var stored := CalcCorr(hs, trigger, ref, store, corrVariables, cf, eff, tag).1[name];
      stored.at(idx) == CorrAt(hs, trigger, ref, corrVariables, cf,
                               if CorrVars(hs.mc.axes, trigger, ref, corrVariables) == [] then map[]
                               else idx)
  {
    CorrHistAt(hs, trigger, ref, corrVariables, cf, idx);
  }

  lemma CorrHistAt(hs: DataMc, trigger: string, ref: string, corrVariables: seq<string>,
                   cf: CorrFunc, idx: Bin)
    requires UniqueNames(hs.mc.axes)
    requires trigger in NameSet(hs.mc.axes) && ref in NameSet(hs.mc.axes)
    requires ValidBin(CorrHist(hs, trigger, ref, corrVariables, cf).axes, idx)
    ensures CorrHist(hs, trigger, ref, corrVariables, cf).at(idx)
            == CorrAt(hs, trigger, ref, corrVariables, cf,
                      if CorrVars(hs.mc.axes, trigger, ref, corrVariables) == [] then map[] else idx)
  {
    if CorrVars(hs.mc.axes, trigger, ref, corrVariables) == [] {
      InclusiveCorrHist(hs, trigger, ref, corrVariables, cf, idx);
    } else {
      BinnedCorrHist(hs, trigger, ref, corrVariables, cf, idx);
    }
  }

  lemma InclusiveCorrHist(hs: DataMc, trigger: string, ref: string, corrVariables: seq<string>,
                          cf: CorrFunc, idx: Bin)
    requires UniqueNames(hs.mc.axes)
    requires trigger in NameSet(hs.mc.axes) && ref in NameSet(hs.mc.axes)
    requires CorrVars(hs.mc.axes, trigger, ref, corrVariables) == []
    ensures CorrHist(hs, trigger, ref, corrVariables, cf).at(idx)
            == CorrAt(hs, trigger, ref, corrVariables, cf, map[])
  {
    var init := CorrHistInit(hs, trigger, ref, corrVariables, cf);
    assert CorrHist(hs, trigger, ref, corrVariables, cf).at
           == AssignAll(CorrWrites(hs, trigger, ref, corrVariables, cf), init);
    InclusiveCorrBin(hs, trigger, ref, corrVariables, cf, init, idx);
  }

  lemma BinnedCorrHist(hs: DataMc, trigger: string, ref: string, corrVariables: seq<string>,
                       cf: CorrFunc, idx: Bin)
    requires UniqueNames(hs.mc.axes)
    requires trigger in NameSet(hs.mc.axes) && ref in NameSet(hs.mc.axes)
    requires CorrVars(hs.mc.axes, trigger, ref, corrVariables) != []
    requires ValidBin(CorrAxes(hs.mc.axes, trigger, ref, corrVariables), idx)
    ensures CorrHist(hs, trigger, ref, corrVariables, cf).at(idx)
            == CorrAt(hs, trigger, ref, corrVariables, cf, idx)
  {
    var corrAxes := CorrAxes(hs.mc.axes, trigger, ref, corrVariables);
    var init := CorrHistInit(hs, trigger, ref, corrVariables, cf);
    assert CorrHist(hs, trigger, ref, corrVariables, cf).at
           == AssignAll(CorrWrites(hs, trigger, ref, corrVariables, cf), init);
    RestrictToOwnKeys(idx, NameSet(corrAxes));
    CorrWritesValue(hs, trigger, ref, corrVariables, cf, init, idx);
  }

  lemma RestrictToOwnKeys(b: Bin, names: set<string>)
    requires b.Keys == names
    ensures Restrict(b, names) == b
  {
  }

  /** Without correlation axes the loop's single write reaches every bin. */
  lemma InclusiveCorrBin(hs: DataMc, trigger: string, ref: string, corrVariables: seq<string>,
                         cf: CorrFunc, f: Bin -> real, idx: Bin)
    requires UniqueNames(hs.mc.axes)
    requires trigger in NameSet(hs.mc.axes) && ref in NameSet(hs.mc.axes)
    requires CorrVars(hs.mc.axes, trigger, ref, corrVariables) == []
    ensures AssignAll(CorrWrites(hs, trigger, ref, corrVariables, cf), f)(idx)
            == CorrAt(hs, trigger, ref, corrVariables, cf, map[])
  {
    var corrAxes := CorrAxes(hs.mc.axes, trigger, ref, corrVariables);
    assert corrAxes == [];
    assert NameSet(corrAxes) == {};
    assert Restrict(idx, {}) == map[];
    CorrWritesValue(hs, trigger, ref, corrVariables, cf, f, idx);
  }

  // =======================================================================================
  // calc_auxiliary_unc

  /** A deviation function's verdict for one nominal bin: one symmetric deviation, or a
      (down, up) pair. */
  datatype Dev = Symmetric(d: real) | Asymmetric(down: real, up: real)

  /** The `dev_func` argument: a registered name or a callable. A callable is applied to the
      deviations of one nominal bin, listed in the loop order of the auxiliary axes. */
  datatype DevSpec = ByName(name: string) | Callable(f: seq<real> -> Dev)

  /** The three registered deviation functions of `dev_funcs` and a user callable. */
  datatype DevFunc = MaxDevSym | MaxDev | Std | Custom(f: seq<real> -> Dev)

  datatype AuxError =
    | UnknownDevFunc(name: string)      // KeyError from `dev_funcs[dev_func]`
    | UnknownDataset(name: string)      // KeyError from `histograms[dt]`
    | NotBroadcastable                  // ValueError from the in-place division of arrays
    | AxisNotFound(name: string)        // ValueError from `axes.name.index`
    | RepeatedAxis                      // ValueError from `np.expand_dims`
    | EmptyReduction                    // ValueError from a max or min over no bins
    | ListAxis                          // TypeError from a list passed as a reduction's axis

  /** Resolving `dev_func`: a name must be one of the registered ones. */
  function LookupDevFunc(spec: DevSpec): (r: Result<DevFunc, AuxError>)
    ensures spec.Callable? ==> r == Ok(Custom(spec.f))
    ensures spec.ByName? ==> (r.Ok? <==> spec.name in {"max_dev_sym", "max_dev", "std"})
    ensures spec.ByName? && r.Err? ==> r.error == UnknownDevFunc(spec.name)
    ensures r.Ok? ==> r.value.Custom? == spec.Callable?
  {
    match spec
    case Callable(f) => Ok(Custom(f))
    case ByName(n) =>
      if n == "max_dev_sym" then Ok(MaxDevSym)
      else if n == "max_dev" then Ok(MaxDev)
      else if n == "std" then Ok(Std)
      else Err(UnknownDevFunc(n))
  }

  function Abs(x: real): real
  {
    if x < 0.0 then -x else x
  }

  function AbsAll(xs: seq<real>): (r: seq<real>)
    ensures |r| == |xs|
    ensures forall i :: 0 <= i < |xs| ==> r[i] == Abs(xs[i])
  {
    seq(|xs|, i requires 0 <= i < |xs| => Abs(xs[i]))
  }

  /** `np.max`: the largest element. */
  function MaxOf(xs: seq<real>): (r: real)
    requires |xs| > 0
    ensures forall i :: 0 <= i < |xs| ==> xs[i] <= r
    ensures exists i :: 0 <= i < |xs| && xs[i] == r
  {
    if |xs| == 1 then xs[0]
    else
      var m := MaxOf(xs[1..]);
      if xs[0] >= m then xs[0] else m
  }

  /** `np.min`: the smallest element. */
  function MinOf(xs: seq<real>): (r: real)
    requires |xs| > 0
    ensures forall i :: 0 <= i < |xs| ==> r <= xs[i]
    ensures exists i :: 0 <= i < |xs| && xs[i] == r
  {
    if |xs| == 1 then xs[0]
    else
      var m := MinOf(xs[1..]);
      if xs[0] <= m then xs[0] else m
  }

  function Mean(xs: seq<real>): real
    requires |xs| > 0
  {
    Sum(xs) / (|xs| as real)
  }

  /** The population variance `np.var` (`np.std` is its square root). */
  function Variance(xs: seq<real>): real
    requires |xs| > 0
  {
    var m := Mean(xs);
    Mean(seq(|xs|, i requires 0 <= i < |xs| => (xs[i] - m) * (xs[i] - m)))
  }

  /** The deviation functions on the deviations of one nominal bin; `sqrt` is the square
      root used by `np.std`. */
  function ApplyDev(df: DevFunc, xs: seq<real>, sqrt: real -> real): Dev
    requires |xs| > 0
  {
    match df
    case MaxDevSym => Symmetric(MaxOf(AbsAll(xs)))
    case MaxDev => Asymmetric(Abs(MinOf(xs)), Abs(MaxOf(xs)))
    case Std => Symmetric(sqrt(Variance(AbsAll(xs))))
    case Custom(f) => f(xs)
  }

  /** A single deviation applies in both directions. */
  function Spread(d: Dev): (real, real)
  {
    match d
    case Symmetric(x) => (x, x)
    case Asymmetric(lo, hi) => (lo, hi)
  }

  function AuxName(auxiliaries: seq<string>): string
  {
    "aux" + Join("_", auxiliaries)
  }

  /** The auxiliary axes, in histogram order. */
  function AuxAxes(axes: seq<Axis>, auxiliaries: seq<string>): seq<Axis>
  {
    Keep(axes, set a | a in auxiliaries)
  }

  /** The nominal axes: the trigger and auxiliary axes summed. */
  function NomAxes(axes: seq<Axis>, trigger: string, ref: string, auxiliaries: seq<string>)
    : seq<Axis>
  {
    Drop(axes, {trigger, ref} + set a | a in auxiliaries)
  }

  function Nominal(h: Hist, auxiliaries: seq<string>): Hist
  {
    ReduceAxes(h, set a | a in auxiliaries)
  }

  /** The shapes `calc_auxiliary_unc` works on: data and MC binned alike with distinct trigger
      axes that are not auxiliaries, efficiencies binned like their input with the trigger
      axes summed, a variation axis name that is not already an axis, and a nonzero nominal
      MC efficiency, which every scale factor divides by. */
  ghost predicate AuxShape(hs: DataMc, trigger: string, ref: string, auxiliaries: seq<string>,
                           eff: EffFunc)
  {
    var nomAxes := NomAxes(hs.data.axes, trigger, ref, auxiliaries);
    var auxAxes := AuxAxes(hs.data.axes, auxiliaries);
    && hs.data.axes == hs.mc.axes
    && UniqueNames(hs.data.axes)
    && trigger != ref
    && trigger in NameSet(hs.data.axes) && ref in NameSet(hs.data.axes)
    && trigger !in auxiliaries && ref !in auxiliaries
    && AuxName(auxiliaries) !in NameSet(hs.data.axes)
    && eff(Nominal(hs.data, auxiliaries), trigger, ref).axes == nomAxes
    && eff(Nominal(hs.mc, auxiliaries), trigger, ref).axes == nomAxes
    && eff(hs.data, trigger, ref).axes == Drop(hs.data.axes, {trigger, ref})
    && eff(hs.mc, trigger, ref).axes == Drop(hs.data.axes, {trigger, ref})
    && (forall b :: ValidBin(nomAxes, b) ==> eff(Nominal(hs.mc, auxiliaries), trigger, ref).at(b) != 0.0)
  }

  /** The auxiliary-binned MC efficiency is nonzero: needed only when the auxiliary scale
      factors divide by it, that is when the auxiliaries are applied to MC. */
  ghost predicate AuxMcNonZero(hs: DataMc, trigger: string, ref: string, auxiliaries: seq<string>,
                               eff: EffFunc)
  {
    var nomAxes := NomAxes(hs.data.axes, trigger, ref, auxiliaries);
    var auxAxes := AuxAxes(hs.data.axes, auxiliaries);
    forall b, a :: ValidBin(nomAxes, b) && ValidBin(auxAxes, a) ==> eff(hs.mc, trigger, ref).at(b + a) != 0.0
  }

  /** What `apply_aux_to` selects: which of data and MC use the auxiliary-binned efficiency. */
  datatype AuxTargets = AuxTargets(data: bool, mc: bool)

  function ResolveApplyTo(applyTo: string): (r: Result<AuxTargets, AuxError>)
    ensures r.Ok? <==> applyTo in {"data", "mc", "both"}
    ensures r.Ok? ==> r.value.data == (applyTo != "mc") && r.value.mc == (applyTo != "data")
    ensures r.Err? ==> r.error == UnknownDataset(applyTo)
  {
    var datasets := if applyTo == "both" then ["data", "mc"] else [applyTo];
    assert datasets[0] in datasets;
    if forall d :: d in datasets ==> d in {"data", "mc"}
    then Ok(AuxTargets("data" in datasets, "mc" in datasets))
    else Err(UnknownDataset(applyTo))
  }

  /** The nominal scale factor at nominal bin `b`. */
  function NominalSf(hs: DataMc, trigger: string, ref: string, auxiliaries: seq<string>,
                     eff: EffFunc, b: Bin): real
    requires AuxShape(hs, trigger, ref, auxiliaries, eff)
  {
    if ValidBin(NomAxes(hs.data.axes, trigger, ref, auxiliaries), b)
    then Ratio(eff(Nominal(hs.data, auxiliaries), trigger, ref),
               eff(Nominal(hs.mc, auxiliaries), trigger, ref), b)
    else 0.0
  }

  /** The scale factor in auxiliary bin `a` of nominal bin `b`: data and MC efficiencies each
      taken in the auxiliary binning when selected, else the nominal one of `b`. */
  function AuxSf(hs: DataMc, trigger: string, ref: string, auxiliaries: seq<string>,
                 eff: EffFunc, on: AuxTargets, b: Bin, a: Bin): real
    requires AuxShape(hs, trigger, ref, auxiliaries, eff)
    requires on.mc ==> AuxMcNonZero(hs, trigger, ref, auxiliaries, eff)
    requires ValidBin(NomAxes(hs.data.axes, trigger, ref, auxiliaries), b)
    requires ValidBin(AuxAxes(hs.data.axes, auxiliaries), a)
  {
    var num := if on.data then eff(hs.data, trigger, ref).at(b + a)
               else eff(Nominal(hs.data, auxiliaries), trigger, ref).at(b);
    var den := if on.mc then eff(hs.mc, trigger, ref).at(b + a)
               else eff(Nominal(hs.mc, auxiliaries), trigger, ref).at(b);
    num / den
  }

  /** The deviations sf_aux - sf of nominal bin `b`, over the auxiliary bins in loop order. */
  function Deviations(hs: DataMc, trigger: string, ref: string, auxiliaries: seq<string>,
                      eff: EffFunc, on: AuxTargets, b: Bin): (r: seq<real>)
    requires AuxShape(hs, trigger, ref, auxiliaries, eff)
    requires on.mc ==> AuxMcNonZero(hs, trigger, ref, auxiliaries, eff)
    requires ValidBin(NomAxes(hs.data.axes, trigger, ref, auxiliaries), b)
    ensures |r| == |LoopBins(AuxAxes(hs.data.axes, auxiliaries))|
  {
    var auxAxes := AuxAxes(hs.data.axes, auxiliaries);
    var bins := LoopBins(auxAxes);
    LoopBinsSound(auxAxes);
    seq(|bins|, k requires 0 <= k < |bins| =>
      AuxSf(hs, trigger, ref, auxiliaries, eff, on, b, bins[k])
        - NominalSf(hs, trigger, ref, auxiliaries, eff, b))
  }

  /** The (down, up) deviation the deviation function gives for nominal bin `b`. */
  function AuxSpread(hs: DataMc, trigger: string, ref: string, auxiliaries: seq<string>,
                     eff: EffFunc, on: AuxTargets, df: DevFunc, sqrt: real -> real, b: Bin)
    : (real, real)
    requires AuxShape(hs, trigger, ref, auxiliaries, eff)
    requires on.mc ==> AuxMcNonZero(hs, trigger, ref, auxiliaries, eff)
    requires |LoopBins(AuxAxes(hs.data.axes, auxiliaries))| > 0
  {
    if ValidBin(NomAxes(hs.data.axes, trigger, ref, auxiliaries), b)
    then Spread(ApplyDev(df, Deviations(hs, trigger, ref, auxiliaries, eff, on, b), sqrt))
    else (0.0, 0.0)
  }

  function AuxShiftFn(hs: DataMc, trigger: string, ref: string, auxiliaries: seq<string>,
                      eff: EffFunc, on: AuxTargets, df: DevFunc, sqrt: real -> real, up: bool)
    : Bin -> real
    requires AuxShape(hs, trigger, ref, auxiliaries, eff)
    requires on.mc ==> AuxMcNonZero(hs, trigger, ref, auxiliaries, eff)
    requires |LoopBins(AuxAxes(hs.data.axes, auxiliaries))| > 0
  {
    (b: Bin) => AuxShift(hs, trigger, ref, auxiliaries, eff, on, df, sqrt, up, b)
  }

  /** sf + up deviation (upwards) or sf - down deviation (downwards) at bin `b`. */
  function AuxShift(hs: DataMc, trigger: string, ref: string, auxiliaries: seq<string>,
                    eff: EffFunc, on: AuxTargets, df: DevFunc, sqrt: real -> real, up: bool, b: Bin)
    : real
    requires AuxShape(hs, trigger, ref, auxiliaries, eff)
    requires on.mc ==> AuxMcNonZero(hs, trigger, ref, auxiliaries, eff)
    requires |LoopBins(AuxAxes(hs.data.axes, auxiliaries))| > 0
  {
    var sf := NominalSf(hs, trigger, ref, auxiliaries, eff, b);
    var spread := AuxSpread(hs, trigger, ref, auxiliaries, eff, on, df, sqrt, b);
    if up then sf + spread.1 else sf - spread.0
  }

  /** The auxiliaries without an axis, in the order given. */
  function MissingAux(axes: seq<Axis>, trigger: string, ref: string, auxiliaries: seq<string>)
    : (r: seq<string>)
    ensures forall v :: v in r <==> v in auxiliaries && v !in NameSet(Drop(axes, {trigger, ref}))
  {
    if auxiliaries == [] then []
    else
      var rest := MissingAux(axes, trigger, ref, auxiliaries[1..]);
      if auxiliaries[0] in NameSet(Drop(axes, {trigger, ref})) then rest
      else [auxiliaries[0]] + rest
  }

  /** `calc_auxiliary_unc` with the auxiliary efficiency broadcast by axis name whichever of
      data and MC it is applied to: the band sf - down, sf + up around the nominal scale
      factor, binned in the nominal axes, with a variation axis "aux" followed by the
      auxiliaries joined by "_". `store_hists` is not used. */
  function CalcAuxiliaryUnc(hs: DataMc, trigger: string, ref: string, auxiliaries: seq<string>,
                            applyTo: string, spec: DevSpec, eff: EffFunc, sqrt: real -> real)
    : (r: Result<Hist, AuxError>)
    requires AuxShape(hs, trigger, ref, auxiliaries, eff)
    requires applyTo in {"mc", "both"} ==> AuxMcNonZero(hs, trigger, ref, auxiliaries, eff)
    ensures spec.ByName? && spec.name !in {"max_dev_sym", "max_dev", "std"}
            ==> r == Err(UnknownDevFunc(spec.name))
    ensures r.Ok? <==>
      && LookupDevFunc(spec).Ok?
      && applyTo in {"data", "mc", "both"}
      && MissingAux(hs.data.axes, trigger, ref, auxiliaries) == []
      && NoDups(auxiliaries)
      && |LoopBins(AuxAxes(hs.data.axes, auxiliaries))| > 0
    ensures r.Ok? ==>
      r.value.axes == NomAxes(hs.data.axes, trigger, ref, auxiliaries) + [Axis(AuxName(auxiliaries), 2)]
  {
    var df :- LookupDevFunc(spec);
    var on :- ResolveApplyTo(applyTo);
    var missing := MissingAux(hs.data.axes, trigger, ref, auxiliaries);
    if missing != [] then Err(AxisNotFound(missing[0]))
    else if !NoDups(auxiliaries) then Err(RepeatedAxis)
    else if |LoopBins(AuxAxes(hs.data.axes, auxiliaries))| == 0 then Err(EmptyReduction)
    else
      Ok(SystHist(NomAxes(hs.data.axes, trigger, ref, auxiliaries), AuxName(auxiliaries),
                  AuxShiftFn(hs, trigger, ref, auxiliaries, eff, on, df, sqrt, false),
                  AuxShiftFn(hs, trigger, ref, auxiliaries, eff, on, df, sqrt, true)))
  }

  /** `calc_auxiliary_unc` as written. With "data" or "mc" alone, an efficiency with the
      auxiliary axes is divided in place by one without them (or the other way round), and
      boost-histogram refuses arrays whose number of dimensions differs. A named deviation
      function then receives `aux_idx`, a list, as the `axis` of `np.max`, `np.min` or
      `np.std`, which accept only an integer, a tuple or None. */
  function CalcAuxiliaryUncAsWritten(hs: DataMc, trigger: string, ref: string,
                                     auxiliaries: seq<string>, applyTo: string, spec: DevSpec,
                                     eff: EffFunc, sqrt: real -> real)
    : (r: Result<Hist, AuxError>)
    requires AuxShape(hs, trigger, ref, auxiliaries, eff)
    requires (applyTo == "both" || (applyTo == "mc" && AuxAxes(hs.data.axes, auxiliaries) == []))
             ==> AuxMcNonZero(hs, trigger, ref, auxiliaries, eff)
    ensures spec.ByName? ==> r.Err?
    ensures spec.ByName? && spec.name !in {"max_dev_sym", "max_dev", "std"}
            ==> r == Err(UnknownDevFunc(spec.name))
    ensures LookupDevFunc(spec).Ok? && applyTo in {"data", "mc"} && AuxAxes(hs.data.axes, auxiliaries) != []
            ==> r == Err(NotBroadcastable)
    ensures r.Ok? <==>
      && spec.Callable?
      && (applyTo == "both" || AuxAxes(hs.data.axes, auxiliaries) == [])
      && CalcAuxiliaryUnc(hs, trigger, ref, auxiliaries, applyTo, spec, eff, sqrt).Ok?
    ensures r.Ok? ==> r == CalcAuxiliaryUnc(hs, trigger, ref, auxiliaries, applyTo, spec, eff, sqrt)
  {
    var _ :- LookupDevFunc(spec);
    var _ :- ResolveApplyTo(applyTo);
    var missing := MissingAux(hs.data.axes, trigger, ref, auxiliaries);
    if applyTo != "both" && AuxAxes(hs.data.axes, auxiliaries) != [] then Err(NotBroadcastable)
    else if missing != [] then Err(AxisNotFound(missing[0]))
    else if !NoDups(auxiliaries) then Err(RepeatedAxis)
    else if spec.ByName? then Err(ListAxis)
    else CalcAuxiliaryUnc(hs, trigger, ref, auxiliaries, applyTo, spec, eff, sqrt)
  }

  /** The registered deviation functions never give a negative deviation (given a square root
      that is never negative), so their band always contains the nominal scale factor. */
  lemma BuiltinSpreadNonNegative(df: DevFunc, xs: seq<real>, sqrt: real -> real)
    requires |xs| > 0 && !df.Custom?
    requires forall x :: sqrt(x) >= 0.0
    ensures Spread(ApplyDev(df, xs, sqrt)).0 >= 0.0 && Spread(ApplyDev(df, xs, sqrt)).1 >= 0.0
  {
    if df.MaxDevSym? {
      assert AbsAll(xs)[0] >= 0.0;
    }
  }

  /** The max-based deviation functions give the narrowest band around the nominal scale
      factor that still covers every auxiliary variation: each deviation lies in
      [-down, up], and for the symmetric one some deviation reaches the edge. */
  lemma MaxSpreadCovers(df: DevFunc, xs: seq<real>, sqrt: real -> real)
    requires |xs| > 0 && (df.MaxDevSym? || df.MaxDev?)
    ensures forall i :: 0 <= i < |xs| ==>
      -Spread(ApplyDev(df, xs, sqrt)).0 <= xs[i] <= Spread(ApplyDev(df, xs, sqrt)).1
    ensures exists i :: 0 <= i < |xs| && Abs(xs[i]) == Spread(ApplyDev(df, xs, sqrt)).1
  {
    if df.MaxDevSym? {
      var m := MaxOf(AbsAll(xs));
      assert forall i :: 0 <= i < |xs| ==> Abs(xs[i]) <= m by {
        forall i | 0 <= i < |xs| ensures Abs(xs[i]) <= m {
          assert AbsAll(xs)[i] == Abs(xs[i]);
        }
      }
      var k :| 0 <= k < |xs| && AbsAll(xs)[k] == m;
    } else {
      var k :| 0 <= k < |xs| && xs[k] == MaxOf(xs);
    }
  }

  /** When every auxiliary bin reproduces the nominal scale factor, the registered deviation
      functions give a zero-width band (given sqrt(0) = 0). */
  lemma NoDeviationNoSpread(df: DevFunc, xs: seq<real>, sqrt: real -> real)
    requires |xs| > 0 && !df.Custom?
    requires forall i :: 0 <= i < |xs| ==> xs[i] == 0.0
    requires sqrt(0.0) == 0.0
    ensures Spread(ApplyDev(df, xs, sqrt)) == (0.0, 0.0)
  {
    var ys := AbsAll(xs);
    assert forall i :: 0 <= i < |ys| ==> ys[i] == 0.0;
    match df {
      case MaxDevSym =>
        var k :| 0 <= k < |ys| && ys[k] == MaxOf(ys);
      case MaxDev =>
        var k :| 0 <= k < |xs| && xs[k] == MaxOf(xs);
        var j :| 0 <= j < |xs| && xs[j] == MinOf(xs);
      case Std =>
        ZeroSum(ys);
        var m := Mean(ys);
        assert m == 0.0;
        var sq := seq(|ys|, i requires 0 <= i < |ys| => (ys[i] - m) * (ys[i] - m));
        ZeroSum(sq);
        assert Variance(ys) == 0.0;
    }
  }

  lemma {:induction false} ZeroSum(xs: seq<real>)
    requires forall i :: 0 <= i < |xs| ==> xs[i] == 0.0
    ensures Sum(xs) == 0.0
  {
    if xs != [] {
      ZeroSum(xs[1..]);
    }
  }

  /** Reading the `calc_auxiliary_unc` band back at a nominal bin `b`: the nominal scale
      factor minus the down deviation and plus the up deviation the deviation function gives
      for `b`'s auxiliary deviations; a symmetric deviation is used in both directions. */
  lemma CalcAuxBand(hs: DataMc, trigger: string, ref: string, auxiliaries: seq<string>,
                    applyTo: string, spec: DevSpec, eff: EffFunc, sqrt: real -> real, b: Bin)
    requires AuxShape(hs, trigger, ref, auxiliaries, eff)
    requires applyTo in {"mc", "both"} ==> AuxMcNonZero(hs, trigger, ref, auxiliaries, eff)
    requires CalcAuxiliaryUnc(hs, trigger, ref, auxiliaries, applyTo, spec, eff, sqrt).Ok?
    requires ValidBin(NomAxes(hs.data.axes, trigger, ref, auxiliaries), b)
    ensures
      var df := LookupDevFunc(spec).value;
      var on := ResolveApplyTo(applyTo).value;
      var sf := Ratio(eff(Nominal(hs.data, auxiliaries), trigger, ref),
                      eff(Nominal(hs.mc, auxiliaries), trigger, ref), b);
      var spread := Spread(ApplyDev(df, Deviations(hs, trigger, ref, auxiliaries, eff, on, b), sqrt));
      var band := Band(CalcAuxiliaryUnc(hs, trigger, ref, auxiliaries, applyTo, spec, eff, sqrt).value,
                       AuxName(auxiliaries), b);
      band.0 == sf - spread.0 && band.1 == sf + spread.1
  {
    var df := LookupDevFunc(spec).value;
    var on := ResolveApplyTo(applyTo).value;
    AuxResultIsSystHist(hs, trigger, ref, auxiliaries, applyTo, spec, eff, sqrt);
    AuxSystHistBand(hs, trigger, ref, auxiliaries, eff, on, df, sqrt, b);
    AuxValuesAt(hs, trigger, ref, auxiliaries, eff, on, df, sqrt, b);
  }

  /** The band of the auxiliary variation histogram at a nominal bin holds the two shifted
      values there. */
  lemma AuxSystHistBand(hs: DataMc, trigger: string, ref: string, auxiliaries: seq<string>,
                        eff: EffFunc, on: AuxTargets, df: DevFunc, sqrt: real -> real, b: Bin)
    requires AuxShape(hs, trigger, ref, auxiliaries, eff)
    requires on.mc ==> AuxMcNonZero(hs, trigger, ref, auxiliaries, eff)
    requires |LoopBins(AuxAxes(hs.data.axes, auxiliaries))| > 0
    requires ValidBin(NomAxes(hs.data.axes, trigger, ref, auxiliaries), b)
    ensures
      Band(SystHist(NomAxes(hs.data.axes, trigger, ref, auxiliaries), AuxName(auxiliaries),
                    AuxShiftFn(hs, trigger, ref, auxiliaries, eff, on, df, sqrt, false),
                    AuxShiftFn(hs, trigger, ref, auxiliaries, eff, on, df, sqrt, true)),
           AuxName(auxiliaries), b)
        == (AuxShift(hs, trigger, ref, auxiliaries, eff, on, df, sqrt, false, b),
            AuxShift(hs, trigger, ref, auxiliaries, eff, on, df, sqrt, true, b))
  {
    var down := AuxShiftFn(hs, trigger, ref, auxiliaries, eff, on, df, sqrt, false);
    var up := AuxShiftFn(hs, trigger, ref, auxiliaries, eff, on, df, sqrt, true);
    assert down(b) == AuxShift(hs, trigger, ref, auxiliaries, eff, on, df, sqrt, false, b);
    assert up(b) == AuxShift(hs, trigger, ref, auxiliaries, eff, on, df, sqrt, true, b);
    NameNotInBin(hs.data.axes, {trigger, ref} + (set a | a in auxiliaries), AuxName(auxiliaries), b);
    SystHistBand(NomAxes(hs.data.axes, trigger, ref, auxiliaries), AuxName(auxiliaries), down, up, b);
  }

  /** The shifted values at a nominal bin: the nominal scale factor minus the down spread
      and plus the up spread. */
  lemma AuxValuesAt(hs: DataMc, trigger: string, ref: string, auxiliaries: seq<string>,
                    eff: EffFunc, on: AuxTargets, df: DevFunc, sqrt: real -> real, b: Bin)
    requires AuxShape(hs, trigger, ref, auxiliaries, eff)
    requires on.mc ==> AuxMcNonZero(hs, trigger, ref, auxiliaries, eff)
    requires |LoopBins(AuxAxes(hs.data.axes, auxiliaries))| > 0
    requires ValidBin(NomAxes(hs.data.axes, trigger, ref, auxiliaries), b)
    ensures
      var sf := Ratio(eff(Nominal(hs.data, auxiliaries), trigger, ref),
                      eff(Nominal(hs.mc, auxiliaries), trigger, ref), b);
      var spread := Spread(ApplyDev(df, Deviations(hs, trigger, ref, auxiliaries, eff, on, b), sqrt));
      && AuxShift(hs, trigger, ref, auxiliaries, eff, on, df, sqrt, false, b) == sf - spread.0
      && AuxShift(hs, trigger, ref, auxiliaries, eff, on, df, sqrt, true, b) == sf + spread.1
  {
  }

  lemma AuxResultIsSystHist(hs: DataMc, trigger: string, ref: string, auxiliaries: seq<string>,
                            applyTo: string, spec: DevSpec, eff: EffFunc, sqrt: real -> real)
    requires AuxShape(hs, trigger, ref, auxiliaries, eff)
    requires applyTo in {"mc", "both"} ==> AuxMcNonZero(hs, trigger, ref, auxiliaries, eff)
    requires CalcAuxiliaryUnc(hs, trigger, ref, auxiliaries, applyTo, spec, eff, sqrt).Ok?
    ensures |LoopBins(AuxAxes(hs.data.axes, auxiliaries))| > 0
    ensures
      var df := LookupDevFunc(spec).value;
      var on := ResolveApplyTo(applyTo).value;
      CalcAuxiliaryUnc(hs, trigger, ref, auxiliaries, applyTo, spec, eff, sqrt).value
        == SystHist(NomAxes(hs.data.axes, trigger, ref, auxiliaries), AuxName(auxiliaries),
                    AuxShiftFn(hs, trigger, ref, auxiliaries, eff, on, df, sqrt, false),
                    AuxShiftFn(hs, trigger, ref, auxiliaries, eff, on, df, sqrt, true))
  {
  }

  /** With a registered deviation function the auxiliary band always contains the nominal
      scale factor; with a max-based one it also contains every auxiliary scale factor. */
  lemma CalcAuxBandBrackets(hs: DataMc, trigger: string, ref: string, auxiliaries: seq<string>,
                            applyTo: string, spec: DevSpec, eff: EffFunc, sqrt: real -> real, b: Bin)
    requires AuxShape(hs, trigger, ref, auxiliaries, eff)
    requires applyTo in {"mc", "both"} ==> AuxMcNonZero(hs, trigger, ref, auxiliaries, eff)
    requires CalcAuxiliaryUnc(hs, trigger, ref, auxiliaries, applyTo, spec, eff, sqrt).Ok?
    requires spec.ByName?
    requires forall x :: sqrt(x) >= 0.0
    requires ValidBin(NomAxes(hs.data.axes, trigger, ref, auxiliaries), b)
    ensures
      var band := Band(CalcAuxiliaryUnc(hs, trigger, ref, auxiliaries, applyTo, spec, eff, sqrt).value,
                       AuxName(auxiliaries), b);
      var sf := Ratio(eff(Nominal(hs.data, auxiliaries), trigger, ref),
                      eff(Nominal(hs.mc, auxiliaries), trigger, ref), b);
      && band.0 <= sf <= band.1
      && (spec.name != "std" ==>
            forall d :: d in Deviations(hs, trigger, ref, auxiliaries, eff,
                                        ResolveApplyTo(applyTo).value, b)
                        ==> band.0 <= sf + d <= band.1)
  {
    var df := LookupDevFunc(spec).value;
    var devs := Deviations(hs, trigger, ref, auxiliaries, eff, ResolveApplyTo(applyTo).value, b);
    AuxResultIsSystHist(hs, trigger, ref, auxiliaries, applyTo, spec, eff, sqrt);
    CalcAuxBand(hs, trigger, ref, auxiliaries, applyTo, spec, eff, sqrt, b);
    BuiltinSpreadNonNegative(df, devs, sqrt);
    if spec.name != "std" {
      MaxSpreadCovers(df, devs, sqrt);
    }
  }

  /** The as-written code cannot apply the auxiliary binning to data or MC alone: whenever an
      auxiliary axis exists it fails where the corrected definition gives a band. */
  lemma AuxOnOneSideAsWrittenFails(hs: DataMc, trigger: string, ref: string, auxiliaries: seq<string>,
                                   applyTo: string, spec: DevSpec, eff: EffFunc, sqrt: real -> real)
    requires AuxShape(hs, trigger, ref, auxiliaries, eff)
    requires applyTo in {"data", "mc"}
    requires applyTo == "mc" ==> AuxMcNonZero(hs, trigger, ref, auxiliaries, eff)
    requires CalcAuxiliaryUnc(hs, trigger, ref, auxiliaries, applyTo, spec, eff, sqrt).Ok?
    requires AuxAxes(hs.data.axes, auxiliaries) != []
    ensures CalcAuxiliaryUncAsWritten(hs, trigger, ref, auxiliaries, applyTo, spec, eff, sqrt)
            == Err(NotBroadcastable)
  {
  }

  /** As written, no registered deviation function ever gives a band, the default
      "max_dev_sym" included, even where the corrected definition gives one. */
  lemma NamedDevFuncAsWrittenFails(hs: DataMc, trigger: string, ref: string, auxiliaries: seq<string>,
                                   name: string, eff: EffFunc, sqrt: real -> real)
    requires AuxShape(hs, trigger, ref, auxiliaries, eff)
    requires AuxMcNonZero(hs, trigger, ref, auxiliaries, eff)
    requires CalcAuxiliaryUnc(hs, trigger, ref, auxiliaries, "both", ByName(name), eff, sqrt).Ok?
    ensures name in {"max_dev_sym", "max_dev", "std"}
    ensures CalcAuxiliaryUncAsWritten(hs, trigger, ref, auxiliaries, "both", ByName(name), eff, sqrt)
            == Err(ListAxis)
  {
  }
}
