/** `TriggerSFConfig`: the configuration record of one trigger scale-factor measurement and
    its registry of uncertainty calculators. Calculators are modelled symbolically: calling a
    registered entry yields the call the underlying calculator finally receives (which
    histograms, which positional and keyword arguments), not a number. */
module TriggerConfig {
  import opened Wrappers
  import opened Seqs

  /** The histogram dict handed to a calculator, as the expression that produced it. */
  datatype HistsExpr =
    | Input
    | Collected(of: HistsExpr)                      // `collect_hist(histograms)`
    | Reduced(of: HistsExpr, keep: seq<string>)     // `reduce_hist(h, exclude=keep)` per entry

  /** What an underlying calculator receives: its own positional and keyword arguments. */
  datatype Call = Call(calculator: string, hists: HistsExpr, args: seq<string>, kwargs: map<string, string>)

  /** A registered callable: a calculator, or the `decorated_func` closure `uncertainty`
      builds around one, with the tag, reference tag, variables, collect flag and fixed keyword
      arguments it captured. */
  datatype Callable =
    | Calc(id: string)
    | Decorated(inner: Callable, tag: string, refTag: string, variables: seq<string>,
                collect: bool, uncKwargs: map<string, string>)

  /** The statistical-uncertainty lambda: the calculator itself, with tag and reference tag
      prepended to the positional arguments. */
  datatype StatFunc = StatFunc(func: Callable, tag: string, refTag: string)

  /** A trigger or dataset argument before normalisation. */
  datatype Names = Str(s: string) | Items(items: seq<string>) | AsSet(elems: set<string>)

  datatype Config = Config(
    triggers: set<string>,
    refTriggers: set<string>,
    variables: seq<string>,
    datasets: set<string>,
    tag: string,
    refTag: string,
    configName: string,
    mainVariables: seq<string>,
    eventMaskFunc: Option<string>,
    eventMaskUses: set<string>,
    uncertainties: seq<Callable>,
    statFunc: Option<StatFunc>)

  /** The constructor arguments (only the fields the model follows). */
  datatype ConfigArgs = ConfigArgs(
    triggers: Names,
    refTriggers: Names,
    variables: seq<string>,
    datasets: Names,
    tag: string,
    refTag: string,
    configName: Option<string>,
    mainVariables: Option<seq<string>>,
    eventMaskFunc: Option<string>,
    eventMaskUses: set<string>,
    uncertainties: seq<Callable>)

  datatype ConfigError =
    | NotAVariable(name: string)     // ValueError from `variables.index`
    | UsesMissing(state: Config)     // TypeError from `set | None`, after the mask function was set

  const DEFAULT_TAG: string := "trig"
  const DEFAULT_REF_TAG: string := "ref"

  // ---------------------------------------------------------------------------------------
  // invoking registered callables

  /** Calling a registered callable with histograms `hs`, extra positional arguments `args`
      and keyword arguments `kwargs`. A decorated entry collects (when asked), reduces to the
      tag, reference tag and its variables, lets its fixed keyword arguments override the
      caller's, and calls the inner callable with tag and reference tag prepended. */
  function Invoke(c: Callable, hs: HistsExpr, args: seq<string>, kwargs: map<string, string>): Call
  {
    match c
    case Calc(id) => Call(id, hs, args, kwargs)
    case Decorated(inner, tag, refTag, vars, collect, uncKwargs) =>
      var collected := if collect then Collected(hs) else hs;
      Invoke(inner, Reduced(collected, [tag, refTag] + vars), [tag, refTag] + args, kwargs + uncKwargs)
  }

  function InvokeStat(s: StatFunc, hs: HistsExpr, args: seq<string>, kwargs: map<string, string>): Call
  {
    Invoke(s.func, hs, [s.tag, s.refTag] + args, kwargs)
  }

  // ---------------------------------------------------------------------------------------
  // normalisation in __post_init__

  /** A string becomes a one-element set, any other collection the set of its items. */
  function TriggerSet(n: Names): (r: set<string>)
    ensures n.Str? ==> r == {n.s}
    ensures n.Items? ==> forall t :: t in r <==> t in n.items
    ensures n.AsSet? ==> r == n.elems
  {
    match n
    case Str(s) => {s}
    case Items(items) => set t | t in items
    case AsSet(elems) => elems
  }

  /** `set(datasets)`: a string is iterated character by character. */
  function DatasetSet(n: Names): (r: set<string>)
    ensures n.Str? ==> forall d :: d in r <==> |d| == 1 && d[0] in n.s
    ensures n.Items? ==> forall d :: d in r <==> d in n.items
    ensures n.AsSet? ==> r == n.elems
  {
    match n
    case Str(s) =>
      assert forall d: string :: |d| == 1 ==> d == [d[0]];
      set c | c in s :: [c]
    case Items(items) => set t | t in items
    case AsSet(elems) => elems
  }

  /** The default configuration name built from the lower-cased tags. */
  function DefaultConfigName(tag: string, refTag: string): string
  {
    "hlt_" + Lower(tag) + "_ref_" + Lower(refTag)
  }

  /** The first main variable that is not a variable, if any. */
  function FirstNotIn(main: seq<string>, variables: seq<string>): (r: Option<string>)
    ensures r.None? <==> forall i :: 0 <= i < |main| ==> main[i] in variables
    ensures r.Some? ==> r.value in main && r.value !in variables
  {
    if main == [] then None
    else if main[0] !in variables then Some(main[0])
    else FirstNotIn(main[1..], variables)
  }

  /** `uncertainty(func, variables, collect_mc_data, stat, **unc_kwargs)`: append the
      decorated calculator; with `stat` also make the calculator the statistical one. */
  function Uncertainty(cfg: Config, func: Callable, variables: Option<seq<string>>, collect: bool,
                       stat: bool, uncKwargs: map<string, string>): (r: Config)
    ensures |r.uncertainties| == |cfg.uncertainties| + 1
    ensures r.uncertainties[..|cfg.uncertainties|] == cfg.uncertainties
    ensures r.statFunc == (if stat then Some(StatFunc(func, cfg.tag, cfg.refTag)) else cfg.statFunc)
    ensures r.(uncertainties := cfg.uncertainties, statFunc := cfg.statFunc) == cfg
  {
    var vars := variables.GetOr(cfg.mainVariables);
    var entry := Decorated(func, cfg.tag, cfg.refTag, vars, collect, uncKwargs);
    cfg.(uncertainties := cfg.uncertainties + [entry],
         statFunc := if stat then Some(StatFunc(func, cfg.tag, cfg.refTag)) else cfg.statFunc)
  }

  /** Calling the entry `uncertainty` just appended: the calculator receives the (collected
      and) reduced histograms, the tag and reference tag before the caller's positional
      arguments, and the caller's keyword arguments overridden by the registered ones. */
  lemma UncertaintyInvocation(cfg: Config, id: string, variables: Option<seq<string>>, collect: bool,
                              stat: bool, uncKwargs: map<string, string>,
                              hs: HistsExpr, args: seq<string>, kwargs: map<string, string>)
    ensures
      var r := Uncertainty(cfg, Calc(id), variables, collect, stat, uncKwargs);
      var c := Invoke(r.uncertainties[|cfg.uncertainties|], hs, args, kwargs);
      && c.calculator == id
      && c.hists == Reduced(if collect then Collected(hs) else hs,
                            [cfg.tag, cfg.refTag] + variables.GetOr(cfg.mainVariables))
      && c.args == [cfg.tag, cfg.refTag] + args
      && (forall k :: k in uncKwargs ==> k in c.kwargs && c.kwargs[k] == uncKwargs[k])
      && (forall k :: k in kwargs && k !in uncKwargs ==> k in c.kwargs && c.kwargs[k] == kwargs[k])
      && c.kwargs.Keys == kwargs.Keys + uncKwargs.Keys
  {
  }

  /** The statistical calculator receives the histograms as given, tag and reference tag
      before the caller's positional arguments, and only the caller's keyword arguments. */
  lemma StatInvocation(cfg: Config, id: string, variables: Option<seq<string>>, collect: bool,
                       uncKwargs: map<string, string>,
                       hs: HistsExpr, args: seq<string>, kwargs: map<string, string>)
    ensures
      var r := Uncertainty(cfg, Calc(id), variables, collect, true, uncKwargs);
      && r.statFunc.Some?
      && InvokeStat(r.statFunc.value, hs, args, kwargs)
         == Call(id, hs, [cfg.tag, cfg.refTag] + args, kwargs)
  {
  }

  /** Registering the constructor's uncertainties in order with the default arguments. */
  function RegisterAll(cfg: Config, uncs: seq<Callable>): (r: Config)
    ensures |r.uncertainties| == |cfg.uncertainties| + |uncs|
    ensures r.uncertainties[..|cfg.uncertainties|] == cfg.uncertainties
    ensures forall i :: 0 <= i < |uncs| ==>
      r.uncertainties[|cfg.uncertainties| + i]
        == Decorated(uncs[i], cfg.tag, cfg.refTag, cfg.mainVariables, true, map[])
    ensures r.(uncertainties := cfg.uncertainties) == cfg
    decreases |uncs|
  {
    if uncs == [] then cfg
    else
      var next := Uncertainty(cfg, uncs[0], None, true, false, map[]);
      var r := RegisterAll(next, uncs[1..]);
      assert forall i :: 1 <= i < |uncs| ==> uncs[1..][i - 1] == uncs[i];
      assert r.uncertainties[..|next.uncertainties|] == next.uncertainties;
      assert r.uncertainties[|cfg.uncertainties|] == next.uncertainties[|cfg.uncertainties|];
      r
  }

  /** `__post_init__`: normalise triggers and datasets to sets, default the configuration
      name and the main variables, order the main variables like `variables`, and register
      the given uncertainties afresh. */
  function PostInit(args: ConfigArgs): (r: Result<Config, ConfigError>)
    ensures r.Err? <==> exists v :: v in args.mainVariables.GetOr(args.variables) && v !in args.variables
    ensures r.Err? ==> r.error.NotAVariable? && r.error.name in args.mainVariables.GetOr(args.variables)
                       && r.error.name !in args.variables
    ensures r.Ok? ==>
      var c := r.value;
      && c.triggers == TriggerSet(args.triggers)
      && c.refTriggers == TriggerSet(args.refTriggers)
      && c.datasets == DatasetSet(args.datasets)
      && c.configName == args.configName.GetOr(DefaultConfigName(args.tag, args.refTag))
      && multiset(c.mainVariables) == multiset(args.mainVariables.GetOr(args.variables))
      && (forall i :: 0 <= i < |c.mainVariables| ==> c.mainVariables[i] in args.variables)
      && (forall i, j :: 0 <= i < j < |c.mainVariables| ==>
            Position(args.variables, c.mainVariables[i]) <= Position(args.variables, c.mainVariables[j]))
      && |c.uncertainties| == |args.uncertainties|
      && (forall i :: 0 <= i < |args.uncertainties| ==>
            c.uncertainties[i] == Decorated(args.uncertainties[i], args.tag, args.refTag,
                                            c.mainVariables, true, map[]))
      && c.statFunc.None?
  {
    var main := args.mainVariables.GetOr(args.variables);
    match FirstNotIn(main, args.variables)
    case Some(v) => Err(NotAVariable(v))
    case None =>
      var sorted := SortByPosition(main, args.variables);
      SortedStaysIn(main, sorted, args.variables);
      Ok(Initialized(args, sorted))
  }

  /** The configuration built from the arguments with the given main variables: no
      uncertainty yet, then the constructor's ones registered. */
  function Initialized(args: ConfigArgs, mainVariables: seq<string>): (c: Config)
    ensures c.triggers == TriggerSet(args.triggers) && c.refTriggers == TriggerSet(args.refTriggers)
    ensures c.datasets == DatasetSet(args.datasets)
    ensures c.configName == args.configName.GetOr(DefaultConfigName(args.tag, args.refTag))
    ensures c.mainVariables == mainVariables
    ensures |c.uncertainties| == |args.uncertainties|
    ensures forall i :: 0 <= i < |args.uncertainties| ==>
      c.uncertainties[i] == Decorated(args.uncertainties[i], args.tag, args.refTag, mainVariables, true, map[])
    ensures c.statFunc.None?
  {
    var base := Config(
      TriggerSet(args.triggers), TriggerSet(args.refTriggers), args.variables,
      DatasetSet(args.datasets), args.tag, args.refTag,
      args.configName.GetOr(DefaultConfigName(args.tag, args.refTag)),
      mainVariables, args.eventMaskFunc, args.eventMaskUses, [], None);
    RegisterAll(base, args.uncertainties)
  }

  /** A reordering of names that are all variables holds only variables. */
  lemma SortedStaysIn(main: seq<string>, sorted: seq<string>, variables: seq<string>)
    requires forall i :: 0 <= i < |main| ==> main[i] in variables
    requires multiset(sorted) == multiset(main)
    ensures forall i :: 0 <= i < |sorted| ==> sorted[i] in variables
  {
    forall i | 0 <= i < |sorted| ensures sorted[i] in variables {
      assert sorted[i] in multiset(main);
    }
  }

  // ---------------------------------------------------------------------------------------
  // event_mask and stat_unc

  /** `event_mask(func, uses)`: set the mask function and add `uses` to the columns it
      needs; without `uses` the union fails after the function was already set. */
  function EventMask(cfg: Config, func: string, uses: Option<set<string>>): (r: Result<Config, ConfigError>)
    ensures uses.Some? ==> r == Ok(cfg.(eventMaskFunc := Some(func),
                                        eventMaskUses := cfg.eventMaskUses + uses.value))
    ensures uses.None? ==> r == Err(UsesMissing(cfg.(eventMaskFunc := Some(func))))
  {
    var withFunc := cfg.(eventMaskFunc := Some(func));
    match uses
    case None => Err(UsesMissing(withFunc))
    case Some(u) => Ok(withFunc.(eventMaskUses := withFunc.eventMaskUses + u))
  }

  /** Two `event_mask` calls: the second function replaces the first, and the columns both
      calls name are added to those already used; nothing else changes. */
  lemma EventMaskAccumulates(cfg: Config, f: string, g: string, uf: set<string>, ug: set<string>)
    ensures EventMask(cfg, f, Some(uf)).Ok?
    ensures
      var r := EventMask(EventMask(cfg, f, Some(uf)).value, g, Some(ug));
      && r.Ok?
      && r.value.eventMaskFunc == Some(g)
      && r.value.eventMaskUses == cfg.eventMaskUses + uf + ug
      && r.value.(eventMaskFunc := cfg.eventMaskFunc, eventMaskUses := cfg.eventMaskUses) == cfg
  {
  }

  /** `stat_unc`: the most recently registered statistical calculator, if any. */
  function StatUnc(cfg: Config): Option<StatFunc>
  {
    cfg.statFunc
  }

  /** Only the last registration with `stat` counts. */
  lemma LastStatWins(cfg: Config, f: Callable, g: Callable, vf: Option<seq<string>>,
                     vg: Option<seq<string>>, cf: bool, cg: bool, kf: map<string, string>,
                     kg: map<string, string>)
    ensures StatUnc(Uncertainty(Uncertainty(cfg, f, vf, cf, true, kf), g, vg, cg, true, kg))
            == Some(StatFunc(g, cfg.tag, cfg.refTag))
    ensures StatUnc(Uncertainty(Uncertainty(cfg, f, vf, cf, true, kf), g, vg, cg, false, kg))
            == Some(StatFunc(f, cfg.tag, cfg.refTag))
  {
  }

  // ---------------------------------------------------------------------------------------
  // copy

  /** The fields a `copy(**changes)` call replaces (only those the model follows). */
  datatype Changes = Changes(
    tag: Option<string>,
    refTag: Option<string>,
    variables: Option<seq<string>>,
    mainVariables: Option<seq<string>>,
    uncertainties: Option<seq<Callable>>)

  /** The constructor arguments `dataclasses.replace` passes: every field of `cfg` unless
      changed; the statistical calculator is not a field and is not passed. */
  function ReplaceArgs(cfg: Config, ch: Changes): ConfigArgs
  {
    ConfigArgs(AsSet(cfg.triggers), AsSet(cfg.refTriggers), ch.variables.GetOr(cfg.variables),
               AsSet(cfg.datasets), ch.tag.GetOr(cfg.tag), ch.refTag.GetOr(cfg.refTag),
               Some(cfg.configName), Some(ch.mainVariables.GetOr(cfg.mainVariables)),
               cfg.eventMaskFunc, cfg.eventMaskUses, ch.uncertainties.GetOr(cfg.uncertainties))
  }

  /** `copy` as written: `__post_init__` runs on the replaced fields, so every registered
      entry, already a decorated closure, is decorated a second time. */
  function CopyAsWritten(cfg: Config, ch: Changes): (r: Result<Config, ConfigError>)
    ensures r.Err? <==> exists v :: v in ch.mainVariables.GetOr(cfg.mainVariables)
                                    && v !in ch.variables.GetOr(cfg.variables)
    ensures r.Ok? ==>
      var c := r.value;
      var entries := ch.uncertainties.GetOr(cfg.uncertainties);
      && c.triggers == cfg.triggers && c.refTriggers == cfg.refTriggers && c.datasets == cfg.datasets
      && c.configName == cfg.configName
      && c.eventMaskFunc == cfg.eventMaskFunc && c.eventMaskUses == cfg.eventMaskUses
      && c.variables == ch.variables.GetOr(cfg.variables)
      && c.tag == ch.tag.GetOr(cfg.tag) && c.refTag == ch.refTag.GetOr(cfg.refTag)
      && multiset(c.mainVariables) == multiset(ch.mainVariables.GetOr(cfg.mainVariables))
      && |c.uncertainties| == |entries|
      && (forall i :: 0 <= i < |entries| ==>
            c.uncertainties[i] == Decorated(entries[i], c.tag, c.refTag, c.mainVariables, true, map[]))
      && c.statFunc.None?
  {
    PostInit(ReplaceArgs(cfg, ch))
  }

  /** Calling the base of a decorated entry after an as-written copy: the calculator receives
      the old tag and reference tag and then the new ones before the caller's arguments. */
  lemma CopyAsWrittenDoublesTags(cfg: Config, ch: Changes, i: nat, hs: HistsExpr,
                                 args: seq<string>, kwargs: map<string, string>)
    requires ch.uncertainties.None?
    requires CopyAsWritten(cfg, ch).Ok?
    requires i < |cfg.uncertainties| && cfg.uncertainties[i].Decorated? && cfg.uncertainties[i].inner.Calc?
    ensures
      var copy := CopyAsWritten(cfg, ch).value;
      && i < |copy.uncertainties|
      && Invoke(copy.uncertainties[i], hs, args, kwargs).args
         == [cfg.uncertainties[i].tag, cfg.uncertainties[i].refTag, copy.tag, copy.refTag] + args
  {
    var copy := CopyAsWritten(cfg, ch).value;
    var e := cfg.uncertainties[i];
    assert copy.uncertainties[i] == Decorated(e, copy.tag, copy.refTag, copy.mainVariables, true, map[]);
    var hs1 := Reduced(Collected(hs), [copy.tag, copy.refTag] + copy.mainVariables);
    var args1 := [copy.tag, copy.refTag] + args;
    assert Invoke(copy.uncertainties[i], hs, args, kwargs) == Invoke(e, hs1, args1, kwargs + map[]);
    assert Invoke(e, hs1, args1, kwargs + map[]).args == [e.tag, e.refTag] + args1;
    assert [e.tag, e.refTag] + ([copy.tag, copy.refTag] + args)
           == [e.tag, e.refTag, copy.tag, copy.refTag] + args;
  }

  /** A concrete copy showing the doubled tags: a config with one calculator registered
      under the default tags, copied with a new tag. */
  lemma CopyAsWrittenExample()
    ensures
      var args := ConfigArgs(Str("HLT_Mu"), Str("HLT_Ele"), ["pt"], Items(["tt"]), DEFAULT_TAG,
                             DEFAULT_REF_TAG, None, None, None, {}, [Calc("calc_stat")]);
      var cfg := PostInit(args);
      && cfg.Ok?
      && var copy := CopyAsWritten(cfg.value, Changes(Some("mu"), None, None, None, None));
         && copy.Ok?
         && Invoke(copy.value.uncertainties[0], Input, [], map[]).args
            == [DEFAULT_TAG, DEFAULT_REF_TAG, "mu", DEFAULT_REF_TAG]
  {
    var args := ConfigArgs(Str("HLT_Mu"), Str("HLT_Ele"), ["pt"], Items(["tt"]), DEFAULT_TAG,
                           DEFAULT_REF_TAG, None, None, None, {}, [Calc("calc_stat")]);
    var cfg := PostInit(args).value;
    assert cfg.uncertainties[0] == Decorated(Calc("calc_stat"), DEFAULT_TAG, DEFAULT_REF_TAG, cfg.mainVariables, true, map[]);
    CopyAsWrittenDoublesTags(cfg, Changes(Some("mu"), None, None, None, None), 0, Input, [], map[]);
  }

  /** A registered entry moved onto other tags: the calculator it decorates, under the new
      tags, keeping its variables, collect flag and fixed keyword arguments. */
  function Rebind(c: Callable, tag: string, refTag: string, mainVariables: seq<string>): Callable
  {
    match c
    case Decorated(inner, _, _, vars, collect, kw) => Decorated(inner, tag, refTag, vars, collect, kw)
    case Calc(_) => Decorated(c, tag, refTag, mainVariables, true, map[])
  }

  /** `copy` with registered entries moved onto the copy's tags instead of decorated again. */
  function Copy(cfg: Config, ch: Changes): (r: Result<Config, ConfigError>)
    ensures r.Ok? <==> CopyAsWritten(cfg, ch).Ok?
    ensures r.Ok? ==>
      && r.value.(uncertainties := []) == CopyAsWritten(cfg, ch).value.(uncertainties := [])
      && |r.value.uncertainties| == |ch.uncertainties.GetOr(cfg.uncertainties)|
      && r.value.statFunc.None?
  {
    var args := ReplaceArgs(cfg, ch);
    var base :- PostInit(args.(uncertainties := []));
    var entries := ch.uncertainties.GetOr(cfg.uncertainties);
    Ok(base.(uncertainties := seq(|entries|, i requires 0 <= i < |entries| =>
                                    Rebind(entries[i], base.tag, base.refTag, base.mainVariables))))
  }

  /** After a copy every registered calculator is called exactly as if it had been registered
      on the copy: the copy's tags once, before the caller's arguments. */
  lemma CopyRebindsTags(cfg: Config, ch: Changes, i: nat, hs: HistsExpr,
                        args: seq<string>, kwargs: map<string, string>)
    requires Copy(cfg, ch).Ok?
    requires ch.uncertainties.None?
    requires i < |cfg.uncertainties| && cfg.uncertainties[i].Decorated? && cfg.uncertainties[i].inner.Calc?
    ensures
      var copy := Copy(cfg, ch).value;
      var e := cfg.uncertainties[i];
      && i < |copy.uncertainties|
      && Invoke(copy.uncertainties[i], hs, args, kwargs)
         == Invoke(Uncertainty(copy.(uncertainties := []), e.inner, Some(e.variables), e.collect,
                               false, e.uncKwargs).uncertainties[0], hs, args, kwargs)
      && Invoke(copy.uncertainties[i], hs, args, kwargs).args == [copy.tag, copy.refTag] + args
  {
  }
}
