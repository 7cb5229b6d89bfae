# columnflow (Ghent extensions): a Dafny model of the analysis tasks and producers

This project models the core of the Ghent fork of columnflow, a framework for columnar HEP
analyses. It covers these parts of the framework:

- the trigger scale-factor configuration (`TriggerSFConfig`) and its registry of uncertainty
  functions;
- the three trigger scale-factor uncertainties: statistical, correlation bias and auxiliary
  variables;
- the pileup weight producers;
- the cutflow histogram and plotting tasks;
- the histogram creation and merging tasks;
- the fixed-working-point efficiency task;
- three columnar helpers (`TetraVec`, `safe_concatenate`, `remove_obj_overlap`);
- the `view_output_plots` task decorator;
- the timing helpers.

There is one Dafny module per source file:

| module | source file |
|---|---|
| `TriggerConfig` | `trigger/__init__.py` |
| `TriggerUncertainties` | `trigger/uncertainties.py` |
| `Pileup` | `pileup.py` |
| `Cutflow` | `tasks/cutflow.py` |
| `HistogramTasks` | `tasks/histograms.py` |
| `FixedWpEfficiency` | `fixed_wp_efficiency.py` |
| `Columnar` | `columnar_util_Ghent.py` |
| `Decorators` | `tasks/framework/decorators.py` |
| `Timing` | `timing.py` |

Three modules are shared:

- `Wrappers`: `Option` and `Result`.
- `Seqs`: sums, flattening, cartesian products, first-occurrence de-duplication, joins, sorting by a key.
- `Histograms`: named axes, bins as maps from axis name to index, and histograms as functions
  from bins to values. It also holds the documented behaviour of the histogram helpers the
  uncertainties call: `syst_hist`, `loop_hists` and `reduce_hist`.

The modelling conventions are these:

- Awkward and numpy arrays are sequences: one entry per event, or one per bin.
- Raised exceptions are `Err` values.
- Dictionaries are maps.
- Hook functions are parameters:
  - the correctionlib evaluator;
  - `error_func`, `corr_func` and `calculate_efficiency`;
  - selection callables;
  - the decorated task method.
- Printing and file access become returned values: the lines a call would print, the targets
  a task writes, and the paths the view command would open.

## Model

| member | source | states |
|---|---|---|
| TriggerConfig.TriggerSet | columnflow/production/cmsGhent/trigger/__init__.py:54-57 | a single trigger name becomes a one-element set, a list becomes the set of its items, a set is kept |
| TriggerConfig.DatasetSet | columnflow/production/cmsGhent/trigger/__init__.py:65-66 | datasets given as a string become the set of its characters (Python's `set(str)`), a list becomes the set of its items, a set is kept |
| TriggerConfig.Uncertainty | columnflow/production/cmsGhent/trigger/__init__.py:101-130 | registering appends exactly one entry and keeps the earlier ones; the stat function is replaced only when `stat` is set, and it is bound to the configuration's tags; nothing else changes |
| TriggerConfig.UncertaintyInvocation | columnflow/production/cmsGhent/trigger/__init__.py:114-124 | calling a registered entry calls the base function with the tag and ref tag first; its histograms are collected when `collect_mc_data` is set, then reduced to the tag, the ref tag and the variables (the main variables by default); the call's kwargs are merged with the registration kwargs |
| TriggerConfig.StatInvocation | columnflow/production/cmsGhent/trigger/__init__.py:125-126 | the stat function passes the histograms through unreduced and prepends the tags, without the registration kwargs |
| TriggerConfig.RegisterAll | columnflow/production/cmsGhent/trigger/__init__.py:75-77 | re-registering a list appends one decorated entry per function, in order, and leaves the earlier entries in place |
| TriggerConfig.PostInit | columnflow/production/cmsGhent/trigger/__init__.py:51-77 | triggers, ref triggers and datasets are normalised to sets; the default config name is `hlt_<tag>_ref_<ref>` in lower case; main variables default to the variables and are sorted by their position there; a main variable that is not a variable is an error, and these are the only errors |
| TriggerConfig.EventMask | columnflow/production/cmsGhent/trigger/__init__.py:82-99 | the mask function is stored and the uses are added to the stored uses; without `uses`, the union fails after the function was stored |
| TriggerConfig.EventMaskAccumulates | columnflow/production/cmsGhent/trigger/__init__.py:82-99 | after two calls the second function is the mask function, the uses of both calls are added to the earlier uses, and nothing else changes |
| TriggerConfig.LastStatWins | columnflow/production/cmsGhent/trigger/__init__.py:125-126 | of two registrations the later one with `stat` set decides the stat function; one without `stat` leaves it as it was |
| TriggerConfig.CopyAsWritten | columnflow/production/cmsGhent/trigger/__init__.py:51-80 | a copy fails exactly when a main variable is not a variable; otherwise it keeps the triggers, datasets, configuration name and event mask, takes the changed tag, ref tag and variables, has no stat function, and wraps every old entry, itself already decorated, once more under the new tags |
| TriggerConfig.CopyAsWrittenDoublesTags | columnflow/production/cmsGhent/trigger/__init__.py:75-80 | after a copy, a copied entry passes the old tags and then the new tags to the base function |
| TriggerConfig.CopyAsWrittenExample | columnflow/production/cmsGhent/trigger/__init__.py:75-80 | on a concrete configuration with a changed tag, the copied entry calls `calc_stat` with four tag arguments |
| TriggerConfig.Copy | columnflow/production/cmsGhent/trigger/__init__.py:79-80 | the corrected copy succeeds exactly when the as-written one does, agrees on every field except the registry, re-registers one entry per base function and has no stat function |
| TriggerConfig.CopyRebindsTags | columnflow/production/cmsGhent/trigger/__init__.py:114-124 | after the corrected copy, an entry calls its base function with the new tags only |
| TriggerUncertainties.CalcStat | columnflow/production/cmsGhent/trigger/uncertainties.py:63-85 | the output is binned in every data axis except the trigger and ref-trigger axes, plus a two-bin "stat" axis; the store is untouched |
| TriggerUncertainties.StatWritesOrigin | columnflow/production/cmsGhent/trigger/uncertainties.py:70-83 | every value the loop writes comes from a loop bin whose reference trigger fired, and is the down or up value of `error_func` at that bin |
| TriggerUncertainties.StatWritesPresent | columnflow/production/cmsGhent/trigger/uncertainties.py:70-83 | every loop bin whose reference trigger fired writes both its down and its up value |
| TriggerUncertainties.CalcStatBand | columnflow/production/cmsGhent/trigger/uncertainties.py:63-85 | at every output bin, the band is the pair `error_func` returns for data and MC counts (trigger fired, all) at that bin with the reference trigger fired; without a fired bin on the ref axis, the band keeps the default (0, 0) |
| TriggerUncertainties.CorrAxes | columnflow/production/cmsGhent/trigger/uncertainties.py:149-152 | the correlation axes are exactly the MC axes named in `corr_variables`, other than the two trigger axes |
| TriggerUncertainties.CalcCorr | columnflow/production/cmsGhent/trigger/uncertainties.py:140-196 | the band is binned in the MC axes without the trigger axes, plus a two-bin axis named by the tag; the correlation histogram is stored under that tag and other store keys are kept; it is binned in the correlation axes, or in one bin when there are none |
| TriggerUncertainties.CalcCorrBand | columnflow/production/cmsGhent/trigger/uncertainties.py:186-196 | at every bin the band is (sf - sf·c, sf + sf·c), with sf the data/MC efficiency ratio and c the correlation value of the bin's correlation bin; the band is centred on sf and collapses to sf when c is 0 |
| TriggerUncertainties.CalcCorrStored | columnflow/production/cmsGhent/trigger/uncertainties.py:165-184 | each stored correlation bin holds the value `corr_func` gives for it; the inclusive case holds the inclusive value |
| TriggerUncertainties.CorrHistAt | columnflow/production/cmsGhent/trigger/uncertainties.py:155-179 | the correlation histogram at any valid bin is the correlation value of that bin (binned) or of the whole histogram (inclusive) |
| TriggerUncertainties.InclusiveCorrHist | columnflow/production/cmsGhent/trigger/uncertainties.py:157-176 | without correlation variables, the single write of the loop reaches every bin |
| TriggerUncertainties.BinnedCorrHist | columnflow/production/cmsGhent/trigger/uncertainties.py:155-176 | with correlation variables, each bin holds the value computed for that bin |
| TriggerUncertainties.LookupDevFunc | columnflow/production/cmsGhent/trigger/uncertainties.py:199-203 | a callable is used as given; a name resolves exactly when it is `max_dev_sym`, `max_dev` or `std`; any other name is an error naming it |
| TriggerUncertainties.ResolveApplyTo | columnflow/production/cmsGhent/trigger/uncertainties.py:265 | `apply_aux_to` is accepted exactly for data, mc and both; data uses the auxiliary efficiency unless "mc" is given, and MC uses it unless "data" is given |
| TriggerUncertainties.MissingAux | columnflow/production/cmsGhent/trigger/uncertainties.py:269 | the auxiliaries without an axis in the histograms are exactly those whose `index` lookup fails |
| TriggerUncertainties.CalcAuxiliaryUnc | columnflow/production/cmsGhent/trigger/uncertainties.py:256-278 | the result exists exactly when the deviation function resolves, `apply_aux_to` is known, every auxiliary has an axis, no auxiliary repeats, and there is an auxiliary bin; it is binned in the nominal axes plus a two-bin axis "aux" followed by the auxiliaries joined by "_"; the auxiliary MC efficiency must be nonzero only when the auxiliaries apply to MC |
| TriggerUncertainties.CalcAuxiliaryUncAsWritten | columnflow/production/cmsGhent/trigger/uncertainties.py:256-278 | as written, every named deviation function fails (the list `aux_idx` is not a valid numpy axis); "data" or "mc" alone fails the dimension check of the division whenever there is an auxiliary axis; an unknown name fails first; the code succeeds exactly for a callable with "both" (or no auxiliary axis) where the corrected model does, and then gives the same band |
| TriggerUncertainties.AuxOnOneSideAsWrittenFails | columnflow/production/cmsGhent/trigger/uncertainties.py:266-267 | as written, applying the auxiliaries to data alone or to MC alone fails whenever there is an auxiliary axis, even where the corrected model gives a band |
| TriggerUncertainties.NamedDevFuncAsWrittenFails | columnflow/production/cmsGhent/trigger/uncertainties.py:269-270 | as written, a registered deviation function name, the default `max_dev_sym` included, fails at its reduction even where the corrected model gives a band |
| TriggerUncertainties.BuiltinSpreadNonNegative | columnflow/production/cmsGhent/trigger/uncertainties.py:199-203 | the registered deviation functions never return a negative deviation |
| TriggerUncertainties.MaxSpreadCovers | columnflow/production/cmsGhent/trigger/uncertainties.py:200-201 | the max-based deviations bound every deviation from below and above, and the symmetric one is reached by some deviation |
| TriggerUncertainties.NoDeviationNoSpread | columnflow/production/cmsGhent/trigger/uncertainties.py:199-203 | when every auxiliary bin reproduces the nominal scale factor, the band has zero width |
| TriggerUncertainties.CalcAuxBand | columnflow/production/cmsGhent/trigger/uncertainties.py:260-278 | at every nominal bin the band is the nominal sf minus the down deviation and plus the up deviation of that bin's auxiliary deviations; a symmetric deviation is used both ways |
| TriggerUncertainties.CalcAuxBandBrackets | columnflow/production/cmsGhent/trigger/uncertainties.py:269-278 | with a registered deviation function the band contains the nominal sf; with a max-based one it contains every auxiliary sf as well |
| Histograms.SystHistBand | columnflow/production/cmsGhent/trigger/uncertainties.py:274-278 | a `syst_hist` holds its down array in the first bin of the variation axis and its up array in the second |
| Histograms.EmptySystHist | columnflow/production/cmsGhent/trigger/uncertainties.py:64-67 | a fresh `syst_hist` has the given axes plus a two-bin variation axis and is zero everywhere |
| Histograms.LoopBinsSound | columnflow/production/cmsGhent/trigger/uncertainties.py:70 | every bin `loop_hists` visits is a valid bin of the looped axes |
| Histograms.LoopBinsComplete | columnflow/production/cmsGhent/trigger/uncertainties.py:70 | every valid bin of the looped axes is visited |
| Histograms.ReduceExclude | columnflow/production/cmsGhent/trigger/uncertainties.py:149 | `reduce_hist(exclude=...)` keeps exactly the excluded axes |
| Histograms.ReduceAxes | columnflow/production/cmsGhent/trigger/uncertainties.py:260 | `reduce_hist(reduce=...)` drops exactly the named axes |
| Histograms.ReduceOneAxis | columnflow/production/cmsGhent/trigger/uncertainties.py:260 | summing one axis gives, in every remaining bin, the sum of the histogram over that axis's bins with the other axes held fixed |
| Histograms.ReduceTwoAxes | columnflow/production/cmsGhent/trigger/uncertainties.py:146 | summing two axes at once gives the double sum over both axes' bins, whichever order the histogram has them in |
| Histograms.ReduceInTurn | columnflow/production/cmsGhent/trigger/uncertainties.py:146-149 | summing two axes one after the other gives the same bins as summing both at once, and the order of the two steps does not matter |
| Histograms.ReduceExcludeIsReduceAxes | columnflow/production/cmsGhent/trigger/uncertainties.py:149 | `reduce_hist(exclude=keep)` is `reduce_hist(reduce=...)` over every axis not kept: same axes, same value in every bin |
| Histograms.ReduceExcludeOneAxis | columnflow/production/cmsGhent/trigger/uncertainties.py:149 | keeping every axis but one sums the histogram along that axis |
| Pileup.PuIndex | columnflow/production/cms/pileup.py:55 | the lookup index is the number of true interactions truncated toward zero, minus one: -1 below one interaction, non-negative from one on |
| Pileup.ColumnNamesDistinct | columnflow/production/cms/pileup.py:63-67 | the three variations write three different columns |
| Pileup.ParseAction | columnflow/production/cms/pileup.py:87-95 | "remove", "error" and "warning" are recognised exactly by their spelling; any other action (such as "ignore") only stores the weights |
| Pileup.OutlierMask | columnflow/production/cms/pileup.py:75 | an event is an outlier for a variation exactly when its weight for that variation exceeds the threshold |
| Pileup.PuWeight | columnflow/production/cms/pileup.py:54-110 | the producer fails exactly under "error" when some variation has an outlier; it otherwise writes one weight triple per event; under "remove", events with any outlier get zero pileup and MC weights and others keep the raw weights; other actions keep the raw weights |
| Pileup.ErrorMeansOutlier | columnflow/production/cms/pileup.py:63-90 | the first failing variation exists exactly when some event is an outlier in some variation |
| Pileup.ErrorReportsFirstVariation | columnflow/production/cms/pileup.py:63-90 | the error names the first variation in nominal, up, down order that has outliers, with its number of outliers |
| Pileup.RemoveLeavesNoOutliers | columnflow/production/cms/pileup.py:95-108 | after "remove" (with a non-negative threshold) no weight exceeds the threshold, and an event's MC weight is either kept or zeroed |
| Pileup.PuWeightsFromColumnflowAsWritten | columnflow/production/cms/pileup.py:165-173 | as written, an index at or above the table reads the last bin, an index in the table its own bin, and a negative index counts from the end, so fewer than one true interaction (index -1) reads the LAST bin; the lookup fails exactly when some index is below minus the table length, or on an empty table with any event; the MC weight is kept |
| Pileup.AsWrittenExample | columnflow/production/cms/pileup.py:166-173 | on a two-bin table, an event with 0.5 interactions gets the second bin's weights |
| Pileup.PuWeightsFromColumnflow | columnflow/production/cms/pileup.py:165-173 | the corrected lookup fails only on an empty table with events; otherwise each event gets the three weights at its index, the first bin below the table and the last above it, keeping its MC weight |
| Pileup.LookupsAgreeFromOneInteraction | columnflow/production/cms/pileup.py:166-173 | when every event has at least one true interaction, the as-written and the corrected lookups give the same result |
| Pileup.EmptyTableFails | columnflow/production/cms/pileup.py:166-171 | with an empty weight table both versions fail |
| Cutflow.Cumulative | columnflow/tasks/cutflow.py:304-315 | an event passes the cumulative mask exactly when it passes every defined step so far |
| Cutflow.StepFills | columnflow/tasks/cutflow.py:303-324 | the step loop fails exactly under "raise" with an undefined step, naming the first one; otherwise it gives the expected fills |
| Cutflow.ResolveSteps | columnflow/tasks/cutflow.py:255-257 | the steps sentinel resolves to the selector's step fields; explicit steps are kept |
| Cutflow.CutflowFills | columnflow/tasks/cutflow.py:255-324 | a chunk fills the initial step unmasked first and then the step loop's fills; it fails exactly when the step loop does |
| Cutflow.ExpectedShrinks | columnflow/tasks/cutflow.py:304-318 | each fill's mask contains the final cumulative mask and is contained in the previous fill's mask |
| Cutflow.CountsNeverIncrease | columnflow/tasks/cutflow.py:304-318 | the number of events filled never increases from one step to the next |
| Cutflow.DummyRepeatsPrevious | columnflow/tasks/cutflow.py:305-318 | under any strategy other than raise and ignore, every step is filled, and an undefined step repeats the previous mask |
| Cutflow.IgnoreSkipsMissing | columnflow/tasks/cutflow.py:305-318 | under "ignore", exactly the defined steps are filled |
| Cutflow.GetPoint | columnflow/tasks/cutflow.py:277-293 | a fill point has one entry per selected event in every column; without a mask the process ids and values are the events' own, and with one the k-th selected event (in event order) lands at entry k with its process id, its values and its category ids padded with -1 when it has none |
| Cutflow.ChosenSteps | columnflow/tasks/cutflow.py:612-615 | the chosen steps are the initial step followed by the selector steps, or only the last of these with `only_final_step` |
| Cutflow.ChosenStepsEndWithFinal | columnflow/tasks/cutflow.py:612-615 | the chosen steps are never empty, end with the last selector step (the initial step without selector steps), and are a tail of the full list |
| Cutflow.PlotCutflowBranches | columnflow/tasks/cutflow.py:427-435 | the branch map is the categories, and is an error exactly when there are none |
| Cutflow.VariablesBranches | columnflow/tasks/cutflow.py:617-633 | the branch map fails without categories (checked first) or without variables, and otherwise has one branch per category and variable |
| Cutflow.VariablesBranchAt | columnflow/tasks/cutflow.py:630-633 | branch i·V + j pairs the i-th sorted category with the j-th sorted variable |
| Cutflow.VariablesBranchesCover | columnflow/tasks/cutflow.py:630-633 | every category and variable pair has a branch |
| Cutflow.BranchMapsAgree | columnflow/tasks/cutflow.py:427-435 | with variables, the per-category and per-variable branch maps fail together with the same error, and a category has a per-category branch exactly when it has a per-variable branch (lines 617-633) |
| Cutflow.SelectShift | columnflow/tasks/cutflow.py:506-509 | the shift axis is accepted exactly when its only bin is the global shift; more or fewer bins fail with their number, and a single other bin fails the `hist.loc` lookup; the selected bin holds the global shift |
| HistogramTasks.MandatoryColumns | columnflow/tasks/histograms.py:61-63 | the mandatory columns are the category id columns and `process_id` |
| HistogramTasks.CheckCategoriesAsWritten | columnflow/tasks/histograms.py:247-253 | as written, the check passes exactly when every id is a leaf category; otherwise the error message's join fails on integer ids |
| HistogramTasks.CheckCategories | columnflow/tasks/histograms.py:247-253 | the corrected check passes exactly when every id of every event is a leaf category, and otherwise reports the undefined ids |
| HistogramTasks.CheckCategoriesExample | columnflow/tasks/histograms.py:247-253 | ids 1 and 7 with leaf {1}: the as-written check raises the join TypeError, the corrected one reports {7} |
| HistogramTasks.ApplySelections | columnflow/tasks/histograms.py:266-281 | a successful run saw no string selection other than "1", and the errors it reports name such a selection; otherwise events, weights and category ids stay aligned, and their number does not grow |
| HistogramTasks.InvalidSelectionFails | columnflow/tasks/histograms.py:270-276 | the first string selection other than "1", after length-preserving callables and "1"s, makes the selections fail with a ValueError naming it |
| HistogramTasks.SelectCompose | columnflow/tasks/histograms.py:278-281 | masking twice equals masking once with the composed mask |
| HistogramTasks.SelectionsAreJoint | columnflow/tasks/histograms.py:270-281 | applying the selections one after the other equals one mask that keeps the events every selection keeps |
| HistogramTasks.Merge | columnflow/tasks/histograms.py:449 | merging fails exactly with no inputs; otherwise every bin of the sum is the sum of the inputs' bins |
| HistogramTasks.MergeVariable | columnflow/tasks/histograms.py:444-450 | a variable's merge fails without inputs or when an input lacks the variable, and otherwise sums that variable's histograms bin by bin |
| HistogramTasks.GetVariables | columnflow/tasks/histograms.py:385-396 | without `only_missing` the variables are kept; with it the result is a permutation of the missing ones with no two out of the variables' order |
| HistogramTasks.OnlyMissingKeepsOrder | columnflow/tasks/histograms.py:392-394 | the `only_missing` result is the variables filtered to the missing ones, in their order |
| FixedWpEfficiency.ResolveVariables | columnflow/tasks/cmsGhent/fixed_wp_efficiency.py:67-89 | without a config, or with non-empty variables, the resolved parameters are kept; empty variables take the config default, then the class default, and fail exactly when both are empty |
| FixedWpEfficiency.ResolvedVariablesStable | columnflow/tasks/cmsGhent/fixed_wp_efficiency.py:67-89 | with a config instance, explicitly empty variables resolve to a non-empty list or fail, and resolving that list again keeps it |
| FixedWpEfficiency.XsecIgnoresRepeats | columnflow/tasks/cmsGhent/fixed_wp_efficiency.py:160-164 | a process visited twice contributes its cross section once |
| FixedWpEfficiency.XsecAddsNewProcess | columnflow/tasks/cmsGhent/fixed_wp_efficiency.py:160-164 | a new process adds its cross section |
| FixedWpEfficiency.Combine | columnflow/tasks/cmsGhent/fixed_wp_efficiency.py:157-173 | combining fails exactly without datasets; otherwise every bin is the sum over datasets of the bin scaled by xsec / sum_mc_weight |
| FixedWpEfficiency.Efficiency | columnflow/tasks/cmsGhent/fixed_wp_efficiency.py:176-184 | the efficiency of working point k is the cumulated count above it over the inclusive count; the shapes must match, or broadcast from one slot; a zero inclusive count gives no value |
| FixedWpEfficiency.EfficiencyIsFraction | columnflow/tasks/cmsGhent/fixed_wp_efficiency.py:176-184 | for counts cumulated from above (non-negative and decreasing), every efficiency lies in [0, 1] |
| FixedWpEfficiency.SingleSlotBroadcasts | columnflow/tasks/cmsGhent/fixed_wp_efficiency.py:183-184 | with one tagged slot, every working point gets the same efficiency |
| FixedWpEfficiency.DropExtension | columnflow/tasks/cmsGhent/fixed_wp_efficiency.py:126-128 | the stem is the prefix before the last dot, or empty without a dot |
| FixedWpEfficiency.StatsTarget | columnflow/tasks/cmsGhent/fixed_wp_efficiency.py:124-128 | the stats target is the first plot name's stem with ".json", and is an error without plot names |
| FixedWpEfficiency.PlotOutputs | columnflow/tasks/cmsGhent/fixed_wp_efficiency.py:129-137 | there is one plot group per flavour and working point |
| FixedWpEfficiency.PlotsMatchRun | columnflow/tasks/cmsGhent/fixed_wp_efficiency.py:195-224 | plot group i of the outputs (built at lines 129-137) is named for the same flavour and working point that iteration i of `run` plots |
| FixedWpEfficiency.BtagOutputs | columnflow/tasks/cmsGhent/fixed_wp_efficiency.py:129-137 | with the class constants of lines 49-52, the b-tag task has nine plot groups, the fifth named `btag_eff__charm_hadronFlavour__wp_M` |
| Columnar.TetraVecFields | columnflow/columnar_util_Ghent.py:22-39 | the first missing mandatory field fails; a kept field that is absent fails; otherwise the fields are the kept ones and the mandatory ones, without x, y, z, t and without repeats |
| Columnar.TetraVecKeepsMandatory | columnflow/columnar_util_Ghent.py:34-36 | a built vector always has pt, eta, phi and mass, and never x, y, z or t |
| Columnar.KeepAllNeverFails | columnflow/columnar_util_Ghent.py:32-36 | keeping all fields never fails once the mandatory ones are present, and keeps exactly the non-excluded fields |
| Columnar.SafeConcatenate | columnflow/columnar_util_Ghent.py:42-48 | the result is the concatenation of all arrays in order; no single concatenate call gets more than 128 arrays; up to 128 arrays take one call |
| Columnar.RemoveObject | columnflow/columnar_util_Ghent.py:54-58 | one object's pass removes the object from every array that a later array also carries, and changes nothing else |
| Columnar.RemoveObjOverlap | columnflow/columnar_util_Ghent.py:51-59 | every array keeps its columns except the listed objects that a later array carries |
| Columnar.OverlapRemovedUnique | columnflow/columnar_util_Ghent.py:51-59 | afterwards a listed object is carried by at most one array |
| Columnar.OverlapRemovalKeepsLastCarrier | columnflow/columnar_util_Ghent.py:51-59 | an object carried by an array is still carried by that array or a later one |
| Decorators.ViewCommand | columnflow/tasks/framework/decorators.py:59-61 | the prepared command always has a `{}` placeholder: it is kept when present and appended as " {}" otherwise |
| Decorators.ViewCommandIdempotent | columnflow/tasks/framework/decorators.py:59-61 | preparing a prepared command changes nothing |
| Decorators.ViewQueue | columnflow/tasks/framework/decorators.py:63-78 | the queue walk views each viewable path of the outputs that was not seen before, exactly once, however deeply it is nested |
| Decorators.AfterCall | columnflow/tasks/framework/decorators.py:55-79 | nothing is viewed exactly when there is no view command, it is empty, or it is `NO_STR`; otherwise every viewable output path is viewed once with the prepared command |
| Decorators.EligibleAreViewable | columnflow/tasks/framework/decorators.py:71-75 | every viewed path is non-empty and ends in .pdf or .png |
| Decorators.Decorated | columnflow/tasks/framework/decorators.py:31-46 | the call step returns what the task method returns |
| Decorators.ViewExample | columnflow/tasks/framework/decorators.py:55-78 | a PDF listed twice, once inside a collection, is viewed once and a text file not at all |
| Timing.AddTime | columnflow/timing.py:12-15 | the key's total grows by dt; the line is printed exactly when the growth since the last print exceeds 5 or printing is forced; a printed line resyncs the baseline to the total, and without a print the baseline is kept; the counts and other keys are untouched |
| Timing.AddCall | columnflow/timing.py:17-21 | the key's count grows by one; the count line is printed exactly when the calls since the last print exceed 10 or printing is forced; a print resyncs the baseline, and without one it is kept; times and other keys are untouched |
| Timing.UpdateTiming | columnflow/timing.py:11-21 | the time total grows by dt and the count by one exactly when counting; the time line is printed under the time rule and the count line exactly when counting under the count rule, and no other line; each printed line resyncs its baseline and an unprinted one keeps it; unprinted growth stays at most 5 (time) and 10 (calls); other keys are unchanged |
| Timing.UpdateKeepsSynced | columnflow/timing.py:11-21 | from a state where every key's total is within the print steps of its baseline, an update keeps it so |
| Timing.TotalsAccumulate | columnflow/timing.py:11-21 | after a run of updates, a key's time total is its start plus the sum of its durations, and its count is its start plus the number of its counted calls |
| Timing.RunKeepsSynced | columnflow/timing.py:11-21 | a run of updates keeps the print invariant |
| Timing.TimerKeys | columnflow/timing.py:31-35 | with a tag the time goes to the tag and to (tag, function name); without one it goes to the function name |
| Timing.Timed | columnflow/timing.py:24-38 | the wrapped function's result is returned unchanged, and dt is added to exactly the timer keys |
| Timing.NewTimer | columnflow/timing.py:42-45 | a new timer starts both clocks at the current time, with the step 5 |
| Timing.Lap | columnflow/timing.py:48-54 | a lap moves the previous time to now, and prints exactly when more than 0.01 s passed or when forced; the printed value is the time since the previous lap |

## Left out

- Printing, logging and messages: the model returns the values a call would print, or leaves them out. This covers `update_timing` and `Timer`, the pileup warnings, the ESC colour codes (kept only as a prefix), and `publish_message`.
- Clocks: `time.time()` and the duration a function takes are parameters.
- Files and processes: the `Timer` print on setup, file loads and dumps (pickle, json, correctionlib) and `interruptable_popen` are not modelled.
- The `view_cmd.format(path)` substitution and `localize` are not modelled; the model returns the prepared command and the paths to open.
- Variances: histograms with Weight storage carry one `real` value per bin, and variances are not propagated.
- Floating point: NaN and infinities are not modelled. The float32 casts of the pileup and timing columns are not modelled.
- Pileup.PuIndex: numpy's `astype("int32")` is modelled as truncation toward zero without the 32-bit wrap-around, because pileup counts are far below the limit.
- The correctionlib evaluator, `error_func`, `corr_func` and `calculate_efficiency` are function parameters. `util.py` and the Koopman test are not part of this model. `syst_hist`, `loop_hists` and `reduce_hist` are defined from their documented behaviour.
- `collect_hist` and the trigger uncertainties' DotDict `aux` are kept symbolic; the registry model only records which histograms reach the base function.
- TriggerUncertainties.CalcStat: a reference-trigger axis with more than two bins is not modelled (it is boolean in practice).
- TriggerUncertainties.CalcAuxiliaryUnc: auxiliary efficiencies are broadcast by axis name, not by numpy's positional rules; a custom `dev_func` is applied per nominal bin to that bin's deviations, not to the whole array with axis indices.
- TriggerUncertainties.CalcAuxiliaryUncAsWritten: a callable `dev_func` that gets past the dimension check is modelled as in the corrected definition, applied per nominal bin; the list of axis indices it would receive is not modelled.
- `std` over no bins is an `EmptyReduction` error; numpy would warn and return NaN.
- The shape preconditions (`StatShape`, `CorrShape`, `AuxShape`) require compatible data and MC axes, and triggers that are not auxiliaries, instead of modelling numpy's shape errors. A zero MC efficiency where a scale factor divides by it is excluded (`AuxShape` for the nominal one, `AuxMcNonZero` for the auxiliary one when the auxiliaries apply to MC), because numpy would give NaN or infinity.
- TriggerConfig.Uncertainty: the stat function and the registered entries read `self.tag` late in Python; the model binds the tags when the configuration is built, and copies rebuild the entries.
- TriggerConfig.Copy: `Changes` covers the fields a copy changes in practice (tags, variables, main variables, uncertainties), not every dataclass field.
- TriggerConfig.EventMask: only the direct call form is modelled; the decorator form stores the same function.
- Cutflow: each chunk is modelled separately, and the histogram filling (`fill_hist`) is a list of fills. The `steps` sentinel compares by value.
- Cutflow: variable expressions, aliases and the normalisation weight producer are inputs of the chunk.
- Cutflow: the plotting tasks are not modelled beyond their branch maps and shift selection.
- HistogramTasks: histogram creation is modelled only at the category check and the selection masks. The weight producer and the fill itself are left out.
- FixedWpEfficiency: `cumulate` is not part of this model; the efficiency takes the cumulated slots as input and is computed per bin of the other axes.
- FixedWpEfficiency.Combine: `sumMcWeight != 0` is a precondition; `not histogram` is modelled only for the no-dataset case (the integer 0).
- FixedWpEfficiency: the plotting calls and the correctionlib export are not modelled.
- Columnar.TetraVecFields: `hasattr` is modelled as membership in the field list, and the `ak.zip` into a Lorentz vector is not modelled.
- Columnar.SafeConcatenate: concatenating zero arrays is one call on an empty list, as in the source; awkward's concatenation options are not modelled.
- Decorators: `law.util.flatten` of nested output structures is taken as already done; the targets' `_flat_target_list` is the collection's list.
- Seqs.Lower: lower-casing covers ASCII letters only.
- Histograms.ReduceAxes: the summed values are characterised for one summed axis and for two (`ReduceOneAxis`, `ReduceTwoAxes`, `ReduceInTurn`); order independence for arbitrary sets of axes, and conservation of the total over all bins, are not proved.
- Histograms.ReduceExclude: its values are tied to `ReduceAxes` over the complementary axes (`ReduceExcludeIsReduceAxes`) and inherit only the one- and two-axis characterisations above.

## Findings

| source | as written | input that shows it | evidently intended | confidence | as-written member | corrected member |
|---|---|---|---|---|---|---|
| columnflow/production/cmsGhent/trigger/uncertainties.py:266-267 | with `apply_aux_to="mc"` or `"data"`, one efficiency with the auxiliary axes is divided by one without them, and boost-histogram refuses an array whose number of dimensions differs from the histogram's | any histograms with one auxiliary axis and `apply_aux_to="data"` or `"mc"` | the auxiliary efficiency broadcast against the nominal efficiency of the other dataset | not executed | TriggerUncertainties.CalcAuxiliaryUncAsWritten, TriggerUncertainties.AuxOnOneSideAsWrittenFails | TriggerUncertainties.CalcAuxiliaryUnc, TriggerUncertainties.CalcAuxBand |
| columnflow/production/cmsGhent/trigger/uncertainties.py:269-270 | `aux_idx` is a list, and the registered deviation functions (lines 200-202) pass it as the `axis` of `np.max`, `np.min` and `np.std`, which accept only an integer, a tuple or None, so each raises a TypeError | the default `dev_func="max_dev_sym"` with `apply_aux_to="both"` and any auxiliaries | `tuple(aux_idx)`, as the type hint at line 214 says | not executed | TriggerUncertainties.CalcAuxiliaryUncAsWritten, TriggerUncertainties.NamedDevFuncAsWrittenFails | TriggerUncertainties.CalcAuxiliaryUnc, TriggerUncertainties.CalcAuxBandBrackets |
| columnflow/production/cmsGhent/trigger/__init__.py:79-80 | `copy` reruns `__post_init__` on the registered entries, which wraps each decorated entry again | a configuration with tag "HLT_Mu" and one registered `calc_stat`, copied with tag "mu" | the copied entries call the base function with the new tags only | not executed | TriggerConfig.CopyAsWritten, TriggerConfig.CopyAsWrittenDoublesTags | TriggerConfig.Copy, TriggerConfig.CopyRebindsTags |
| columnflow/production/cms/pileup.py:166-171 | the index `nTrueInt - 1` is clamped from above only; for fewer than one true interaction it is -1, which numpy reads as the last bin | a table [1.0, 2.0] and an event with 0.5 true interactions gets weight 2.0 | an index clamped into [0, len - 1] | not executed | Pileup.PuWeightsFromColumnflowAsWritten, Pileup.AsWrittenExample | Pileup.PuWeightsFromColumnflow, Pileup.LookupsAgreeFromOneInteraction |
| columnflow/tasks/histograms.py:251 | the error message joins the undefined category ids, which are integers, so `str.join` raises a TypeError instead of the intended ValueError | category ids [1] and [7] with leaf categories {1} | a ValueError naming the undefined ids | not executed | HistogramTasks.CheckCategoriesAsWritten, HistogramTasks.CheckCategoriesExample | HistogramTasks.CheckCategories |
