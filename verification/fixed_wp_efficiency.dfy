/** The fixed working-point efficiency task: the fallback chain for its variables, the
    cross-section weighted sum of the datasets' histograms, the efficiency of every working
    point from the cumulated working-point slots, and the names of its outputs. A histogram
    is its list of bin contents; the efficiency is stated for the working-point slots of one
    bin of the remaining axes, which every such bin repeats. */
module FixedWpEfficiency {
  import opened Wrappers
  import opened Seqs

  datatype EffError =
    | NoDefaultVariables(tagName: string)   // the AssertionError of the fallback chain
    | NoHistograms                          // no dataset contributed a histogram
    | ShapeMismatch(slots: nat, wps: nat)   // the cumulated slots do not fit the wp axis
    | NoPlotNames                           // the first plot name does not exist

  /** The per-class settings of a fixed working-point efficiency. */
  datatype Tagger = Tagger(tagName: string, flavName: string, flavours: seq<(int, string)>, wps: seq<string>)

  const BTAG: Tagger :=
    Tagger("btag", "hadronFlavour", [(0, "light"), (4, "charm"), (5, "bottom")], ["L", "M", "T"])

  const LEPTON_MVA: Tagger :=
    Tagger("lepton_mva", "pdgId", [(11, "electron"), (13, "muon")], ["VeryLoose", "Loose", "Medium", "Tight"])

  // ---------------------------------------------------------------------------------------
  // variables

  /** `resolve_param_values`: `given` is the variables parameter before the base class
      resolves it and `resolved` after. An explicitly empty value is replaced by the config's
      default variables for the tag, else by the class default, else the resolution fails;
      without a config instance nothing is changed. */
  function ResolveVariables(given: Option<seq<string>>, resolved: Option<seq<string>>, hasConfig: bool,
                            configDefault: seq<string>, classDefault: seq<string>, tagName: string)
    : (r: Result<Option<seq<string>>, EffError>)
    ensures !hasConfig || given != Some([]) ==> r == Ok(resolved)
    ensures r.Err? <==> hasConfig && given == Some([]) && configDefault == [] && classDefault == []
    ensures r.Err? ==> r.error == NoDefaultVariables(tagName)
    ensures r.Ok? && hasConfig && given == Some([]) ==>
      && r.value.Some? && r.value.value != []
      && (configDefault != [] ==> r.value.value == configDefault)
      && (configDefault == [] ==> r.value.value == classDefault)
  {
    var redo := given == Some([]);
    if !hasConfig || !redo then Ok(resolved)
    else if configDefault != [] then Ok(Some(configDefault))
    else if classDefault != [] then Ok(Some(classDefault))
    else Err(NoDefaultVariables(tagName))
  }

  /** With a config instance, explicitly empty variables resolve to a non-empty list or
      fail, and resolving that list again keeps it. */
  lemma ResolvedVariablesStable(resolved: Option<seq<string>>, configDefault: seq<string>,
                                classDefault: seq<string>, tagName: string)
    ensures
      var r := ResolveVariables(Some([]), resolved, true, configDefault, classDefault, tagName);
      r.Err? || (&& r.value.Some? && r.value.value != []
                 && ResolveVariables(r.value, r.value, true, configDefault, classDefault, tagName) == r)
  {
  }

  // ---------------------------------------------------------------------------------------
  // combining the datasets

  datatype Process = Process(name: string, xsec: real)

  /** One dataset's input: its processes (as walked, possibly repeating), its efficiency
      histogram and the sum of its MC weights. */
  datatype DatasetInput = DatasetInput(processes: seq<Process>, hist: seq<real>, sumMcWeight: real)

  function Xsecs(ps: seq<Process>): (r: seq<real>)
    ensures |r| == |ps| && forall k :: 0 <= k < |ps| ==> r[k] == ps[k].xsec
  {
    seq(|ps|, k requires 0 <= k < |ps| => ps[k].xsec)
  }

  /** The dataset's cross section: the nominal cross sections of its distinct processes. */
  function Xsec(ps: seq<Process>): real
  {
    Sum(Xsecs(Dedup(ps)))
  }

  /** A process walked a second time adds nothing to the cross section. */
  lemma XsecIgnoresRepeats(ps: seq<Process>, p: Process)
    requires p in ps
    ensures Xsec(ps + [p]) == Xsec(ps)
  {
    assert (ps + [p])[..|ps + [p]| - 1] == ps;
  }

  /** A new process adds its own cross section. */
  lemma XsecAddsNewProcess(ps: seq<Process>, p: Process)
    requires p !in ps
    ensures Xsec(ps + [p]) == Xsec(ps) + p.xsec
  {
    var s := ps + [p];
    assert s[..|s| - 1] == ps;
    assert Dedup(s) == Dedup(ps) + [p];
    assert Xsecs(Dedup(s)) == Xsecs(Dedup(ps)) + [p.xsec];
    SumAppend(Xsecs(Dedup(ps)), [p.xsec]);
  }

  predicate WellFormed(ds: seq<DatasetInput>, n: nat)
  {
    forall k :: 0 <= k < |ds| ==> |ds[k].hist| == n && ds[k].sumMcWeight != 0.0
  }

  /** One dataset's contribution to bin `b`: `h * xsec / sum_mc_weight`. */
  function Contribution(d: DatasetInput, b: nat): real
    requires b < |d.hist| && d.sumMcWeight != 0.0
  {
    d.hist[b] * Xsec(d.processes) / d.sumMcWeight
  }

  /** The contributions of all datasets to bin `b`. */
  function Contributions(ds: seq<DatasetInput>, n: nat, b: nat): (r: seq<real>)
    requires WellFormed(ds, n) && b < n
    ensures |r| == |ds| && forall k :: 0 <= k < |ds| ==> r[k] == Contribution(ds[k], b)
  {
    seq(|ds|, k requires 0 <= k < |ds| => Contribution(ds[k], b))
  }

  lemma SumSnoc(xs: seq<real>, x: real)
    ensures Sum(xs + [x]) == Sum(xs) + x
  {
    SumAppend(xs, [x]);
  }

  /** Taking one more dataset adds its contribution to the sum of a bin. */
  lemma SumOneMore(ds: seq<DatasetInput>, n: nat, k: nat, b: nat)
    requires WellFormed(ds, n) && k < |ds| && b < n
    ensures Sum(Contributions(ds[..k + 1], n, b)) == Sum(Contributions(ds[..k], n, b)) + Contribution(ds[k], b)
  {
    assert Contributions(ds[..k + 1], n, b) == Contributions(ds[..k], n, b) + [Contribution(ds[k], b)];
    SumSnoc(Contributions(ds[..k], n, b), Contribution(ds[k], b));
  }

  /** The combined histogram of the run: starting from the integer 0, every dataset adds its
      histogram scaled by its cross section over its sum of MC weights; with no datasets the
      sum stays 0 and the run fails. */
  method Combine(ds: seq<DatasetInput>, n: nat) returns (r: Result<seq<real>, EffError>)
    requires WellFormed(ds, n)
    ensures r.Err? <==> ds == []
    ensures r.Err? ==> r.error == NoHistograms
    ensures r.Ok? ==> |r.value| == n
    ensures r.Ok? ==> forall b :: 0 <= b < n ==> r.value[b] == Sum(Contributions(ds, n, b))
  {
    var acc: Option<seq<real>> := None;
    for k := 0 to |ds|
      invariant k == 0 <==> acc.None?
      invariant acc.Some? ==> |acc.value| == n
      invariant acc.Some? ==> forall b :: 0 <= b < n ==> acc.value[b] == Sum(Contributions(ds[..k], n, b))
    {
      var scaled := seq(n, b requires 0 <= b < n => Contribution(ds[k], b));
      if acc.None? {
        acc := Some(scaled);
        forall b | 0 <= b < n ensures acc.value[b] == Sum(Contributions(ds[..k + 1], n, b)) {
          SumOneMore(ds, n, k, b);
        }
      } else {
        var earlier := acc.value;
        acc := Some(seq(n, b requires 0 <= b < n => earlier[b] + scaled[b]));
        forall b | 0 <= b < n ensures acc.value[b] == Sum(Contributions(ds[..k + 1], n, b)) {
          SumOneMore(ds, n, k, b);
        }
      }
    }
    assert ds[..|ds|] == ds;
    if acc.None? {
      r := Err(NoHistograms);
    } else {
      r := Ok(acc.value);
    }
  }

  // ---------------------------------------------------------------------------------------
  // efficiencies

  /** The efficiency of every working point from the cumulated working-point slots of one
      bin: slot 0 (every jet) divides slots 1.. (the tagged jets of each working point).
      The slots 1.. are assigned to an axis of `nWps` entries, so there must be `nWps + 1`
      slots, or exactly two, whose single tagged slot is broadcast to every working point.
      A zero inclusive count leaves the efficiency undefined (`None`). */
  function Efficiency(cum: seq<real>, nWps: nat): (r: Result<seq<Option<real>>, EffError>)
    ensures r.Ok? <==> |cum| == nWps + 1 || |cum| == 2
    ensures r.Err? ==> r.error == ShapeMismatch(|cum|, nWps)
    ensures r.Ok? ==> |r.value| == nWps
    ensures r.Ok? ==> forall k :: 0 <= k < nWps ==> (r.value[k].None? <==> cum[0] == 0.0)
    ensures r.Ok? && |cum| == nWps + 1 ==>
      forall k :: 0 <= k < nWps && r.value[k].Some? ==> r.value[k].value * cum[0] == cum[k + 1]
    ensures r.Ok? && |cum| == 2 ==>
      forall k :: 0 <= k < nWps && r.value[k].Some? ==> r.value[k].value * cum[0] == cum[1]
  {
    if |cum| != nWps + 1 && |cum| != 2 then Err(ShapeMismatch(|cum|, nWps))
    else
      var tagged := (k: nat) requires k < nWps => if |cum| == nWps + 1 then cum[k + 1] else cum[1];
      Ok(seq(nWps, k requires 0 <= k < nWps => if cum[0] == 0.0 then None else Some(tagged(k) / cum[0])))
  }

  /** Slots cumulated from above over non-negative counts: slot 0 holds the most. */
  predicate CumulatedAbove(cum: seq<real>)
  {
    forall k :: 0 <= k < |cum| ==> 0.0 <= cum[k] <= cum[0]
  }

  /** Every defined efficiency of such slots is a fraction. */
  lemma EfficiencyIsFraction(cum: seq<real>, nWps: nat)
    requires CumulatedAbove(cum)
    ensures Efficiency(cum, nWps).Ok? ==> forall k :: 0 <= k < nWps && Efficiency(cum, nWps).value[k].Some? ==>
      0.0 <= Efficiency(cum, nWps).value[k].value <= 1.0
  {
    var r := Efficiency(cum, nWps);
    if r.Ok? {
      forall k | 0 <= k < nWps && r.value[k].Some? ensures 0.0 <= r.value[k].value <= 1.0 {
        var e := r.value[k].value;
        var t := if |cum| == nWps + 1 then cum[k + 1] else cum[1];
        assert e * cum[0] == t;
        assert 0.0 <= t <= cum[0] && cum[0] > 0.0;
        FractionBounds(e, cum[0], t);
      }
    }
  }

  lemma FractionBounds(e: real, c: real, t: real)
    requires c > 0.0 && 0.0 <= t <= c && e * c == t
    ensures 0.0 <= e <= 1.0
  {
    assert e == t / c;
  }

  /** With the two slots of a single working point, the tagged fraction is broadcast to
      every working point of the axis. */
  lemma SingleSlotBroadcasts(cum: seq<real>, nWps: nat)
    requires |cum| == 2 && cum[0] != 0.0
    ensures Efficiency(cum, nWps).Ok?
    ensures forall k :: 0 <= k < nWps ==> Efficiency(cum, nWps).value[k] == Some(cum[1] / cum[0])
  {
  }

  // ---------------------------------------------------------------------------------------
  // outputs

  /** `".".join(name.split(".")[:-1])`: the name up to its last dot, empty without a dot. */
  function DropExtension(s: string): (r: string)
    ensures |r| <= |s| && r == s[..|r|]
    ensures '.' in s ==> |r| < |s| && s[|r|] == '.' && '.' !in s[|r| + 1..]
    ensures '.' !in s ==> r == ""
  {
    if s == [] then ""
    else if s[|s| - 1] == '.' then s[..|s| - 1]
    else
      var r := DropExtension(s[..|s| - 1]);
      assert s[..|s| - 1][..|r|] == s[..|r|];
      assert '.' in s ==> '.' in s[..|s| - 1] by {
        if '.' in s {
          var i :| 0 <= i < |s| && s[i] == '.';
          assert s[..|s| - 1][i] == '.';
        }
      }
      assert '.' in s ==> s[|r| + 1..] == s[..|s| - 1][|r| + 1..] + [s[|s| - 1]];
      r
  }

  /** The stats output: the first plot name for `{tag}_efficiency` with its extension
      replaced by `.json`. */
  function StatsTarget(plotNames: seq<string>): (r: Result<string, EffError>)
    ensures r.Err? <==> plotNames == []
    ensures r.Err? ==> r.error == NoPlotNames
    ensures r.Ok? ==> r.value == DropExtension(plotNames[0]) + ".json"
  {
    if plotNames == [] then Err(NoPlotNames) else Ok(DropExtension(plotNames[0]) + ".json")
  }

  function PlotStem(t: Tagger, flavLabel: string, wp: string): string
  {
    t.tagName + "_eff__" + flavLabel + "_" + t.flavName + "__wp_" + wp
  }

  function Labels(t: Tagger): (r: seq<string>)
    ensures |r| == |t.flavours| && forall f :: 0 <= f < |r| ==> r[f] == t.flavours[f].1
  {
    seq(|t.flavours|, f requires 0 <= f < |t.flavours| => t.flavours[f].1)
  }

  function Keys(t: Tagger): (r: seq<int>)
    ensures |r| == |t.flavours| && forall f :: 0 <= f < |r| ==> r[f] == t.flavours[f].0
  {
    seq(|t.flavours|, f requires 0 <= f < |t.flavours| => t.flavours[f].0)
  }

  /** The plot outputs: one list of targets per (flavour label, working point), flavour-major.
      `names` is the task's `get_plot_names`. */
  function PlotOutputs(t: Tagger, names: string -> seq<string>): (r: seq<seq<string>>)
    ensures |r| == |t.flavours| * |t.wps|
  {
    var pairs := Product(Labels(t), t.wps);
    seq(|pairs|, i requires 0 <= i < |pairs| => names(PlotStem(t, pairs[i].0, pairs[i].1)))
  }

  /** The (flavour id, working point) pairs the run plots, in the order it writes them. */
  function RunPairs(t: Tagger): (r: seq<(int, string)>)
    ensures |r| == |t.flavours| * |t.wps|
  {
    Product(Keys(t), t.wps)
  }

  /** The run writes the plot of flavour `f` and working point `w` to the output list named
      after that same flavour's label and working point. */
  lemma {:induction false} PlotsMatchRun(t: Tagger, names: string -> seq<string>, f: nat, w: nat)
    requires f < |t.flavours| && w < |t.wps|
    ensures FlatIndex(f, w, |t.wps|) < |RunPairs(t)|
    ensures RunPairs(t)[FlatIndex(f, w, |t.wps|)] == (t.flavours[f].0, t.wps[w])
    ensures PlotOutputs(t, names)[FlatIndex(f, w, |t.wps|)] == names(PlotStem(t, t.flavours[f].1, t.wps[w]))
  {
    ProductAt(Keys(t), t.wps, f, w);
    ProductAt(Labels(t), t.wps, f, w);
  }

  lemma StemLiteral()
    ensures PlotStem(BTAG, "charm", "M") == "btag_eff__charm_hadronFlavour__wp_M"
  {
    var a := "btag" + "_eff__";
    assert a == "btag_eff__";
    var b := a + "charm";
    assert b == "btag_eff__charm";
    var c := b + "_" + "hadronFlavour";
    assert c == "btag_eff__charm_hadronFlavour";
    assert c + "__wp_" + "M" == "btag_eff__charm_hadronFlavour__wp_M";
  }

  /** The b-tagging task's fifth output list is its charm plot at the medium working point. */
  lemma BtagOutputs(names: string -> seq<string>)
    ensures |PlotOutputs(BTAG, names)| == 9
    ensures PlotOutputs(BTAG, names)[4] == names("btag_eff__charm_hadronFlavour__wp_M")
  {
    var t := BTAG;
    assert |t.wps| == 3 && |t.flavours| == 3;
    assert t.flavours[1].1 == "charm" && t.wps[1] == "M";
    PlotsMatchRun(t, names, 1, 1);
    StemLiteral();
  }
}
