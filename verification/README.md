# VMAware scoring core in Dafny

This project models the core of VMAware, a C++ library that decides whether
it runs inside a virtual machine. It covers the following parts:

- **Flag handling.** The flag enumeration and the selection handler
  (`arg_handler`), which turns the variadic arguments of a public call into
  a technique selection. It keeps a disabled mask and runs the sanitizer.
  `VM::DISABLE` is covered too.
- **The memo caches.**
- **The scoring engine.** `VM::check` and `core::run_all`: the walk over the
  technique table, the early exit at the threshold, the custom techniques
  and the GPU score merge.
- **Brand resolution in `VM::brand`.** This means the scoreboard, the merge
  rules, the ranking and the multiple-brand message.
- **The other public answers.** `VM::detect`, `VM::percentage`, `VM::type`,
  `VM::conclusion`, `VM::add_custom` and `VM::modify_score`.
- **Four decoders the probes rely on:**
  - the CPUID helpers of the cpu module: leaf support, the manufacturer
    string, steppings, and the VMID vendor matching;
  - the SMBIOS walk of `util::sys_info`;
  - the Azure hostname test of the HYPERV_HOSTNAME probe;
  - the VirtualBox serial test of the DISK_SERIAL probe.

The library keeps its state in process-wide statics. The model threads that
state through an explicit `Core.Engine` record instead. The record holds:

- the technique cache and the string caches;
- the brand scoreboard;
- the disabled mask;
- the technique weights and the custom techniques;
- the detected count;
- a log of the probes invoked.

Each public call is a function from an engine to a new engine and an answer.

Probes are not modelled. An oracle (`Core.Oracle`) gives, for each technique
identifier, the verdict its probe returns and the brands it credits through
`core::add`. The inputs of the four decoders are parameters of the model:

- CPUID register values;
- the raw firmware table;
- the hostname;
- the storage descriptors of the physical drives.

Every exception the source throws is an `Err` value of the `Wrappers.Error`
type:

- `invalid_argument` becomes `InvalidArgument`;
- `out_of_range` from a bitset or `map::at` becomes `OutOfRange`;
- an exception escaping a `noexcept` function becomes `Terminated`;
- a read past the end of a buffer becomes `PastEnd`.

## Modules

| file | module | models |
|---|---|---|
| wrappers.dfy | Wrappers | `Option`, `Result` and the error kinds |
| enums.dfy | Enums | the flag enumeration, its derived constants, the technique weights |
| flags.dfy | Flags | flag sets, `generate_default`, `generate_all`, `flag_sanitizer` |
| args.dfy | ArgHandle | the selection and disabled-argument handlers |
| memo.dfy | Memo | the technique cache, `all_present`, the string and Hyper-X caches |
| brands.dfy | Brands | brand labels, the scoreboard, `core::add` |
| text.dfy | Text | `util::find` and the " or " message |
| core.dfy | Core | the engine state, `check`, `run_all` |
| scoring.dfy | Scoring | reference definitions of `run_all`'s score, order and caching |
| resolver.dfy | Resolver | the brand post-processing and ranking of `VM::brand` |
| api.dfy | Api | the public calls |
| cpu.dfy | Cpu | CPUID decoding and `vmid_template` |
| smbios.dfy | Smbios | the SMBIOS decoding of `util::sys_info` |
| hostname.dfy | Hostname | the HYPERV_HOSTNAME test |
| diskserial.dfy | DiskSerial | the DISK_SERIAL test |

### Behaviour modelled as written

These quirks follow from the code and are proved as stated.

- **A settings-only call loses its settings.** The selection handler ands
  the selection with the default mask, and that mask clears every setting.
  The sanitizer then replaces a selection without techniques by the default
  one. So `VM::brand(VM::MULTIPLE)` runs in single-brand mode
  (`ArgHandle.SettingsOnlyCallDropsSettings`).
- **`VM::DISABLE` cannot succeed unless `VM::DEFAULT` is among its
  arguments.** The default mask sets DEFAULT, and the settings check counts
  DEFAULT as a setting (`ArgHandle.DisableNeedsDefault`). The mask has already
  been changed when the call throws (`ArgHandle.DisableMutatesBeforeRejecting`).
- **The Virtual PC erase branch of `VM::brand` is dead.** `std::map::count`
  returns 0 or 1, so when both Hyper-V and Virtual PC are present their
  counts are equal and the pair always merges
  (`Resolver.MicrosoftAlwaysMerges`).
- **The triple QEMU/KVM merge never fires.** The pairwise QEMU/KVM rule runs
  first (`Resolver.TripleMergeNeverFires`).
- **The late artifact erase never fires.** The artifact label is gone by
  then (`Resolver.ArtifactEraseNeverFires`). The brand message therefore
  does not depend on the score (`Resolver.ResolveIgnoresScore`).
- **`memo::all_present` is never true.** `globals::technique_count` starts
  at 108, but only 105 built-in techniques can be cached. So `VM::brand`
  always walks the technique table (`Memo.NeverAllPresent`,
  `Api.BrandAlwaysRuns`).
- **Custom identifiers collide with settings and overflow the flag set.**
  The k-th custom technique (counting from 0) gets identifier 109 + k. The
  first three collide with settings positions. With memoization on, the
  fourth one (identifier 112) makes `memo::is_cached` throw out of the flag
  set before anything is stored (`Core.CustomStep`, `Core.CustomPass`,
  `Core.Finish`).
- **Two VMID exact matches are unreachable.** The strings for KVM with
  Hyper-V enlightenments and for LKVM contain "KVM", and the substring test
  for "KVM" catches them first (`Cpu.VmidNeverCreditsKvmVariants`).
- **`core::add` with a second label credits the first brand twice.** The
  second label is never credited (`Brands.AddCreditsPrimaryTwice`).
- **Four brands have no entry in the type table.** VMware with the hardened
  loader, Barevisor, HyperPlatform and MiniVisor come out of `VM::type` as
  "Unknown" (`Api.TypeTableGaps`).

## Model

| member | source | states |
|---|---|---|
| Enums.Layout | src/modular_src/enums.hpp:115-141 | Each of the 112 positions of the flag set is either a technique or a setting. There are four tunable settings, distinct from DEFAULT, ALL and NULL_ARG. There is one weight per technique, and the opt-in and GPU identifiers are techniques. |
| Flags.IsTechniqueSet | src/modular_src/modules/core.cpp:31-39 | True exactly when some technique position is set. |
| Flags.IsSettingFlagSet | src/modular_src/modules/core.cpp:41-49 | True exactly when some settings position is set. |
| Flags.Intersect | src/modular_src/arg_handle.hpp:262 | The position-wise conjunction of two flag sets. |
| Flags.GenerateDefault | src/modular_src/arg_handle.hpp:12-29 | Selects every technique except the four opt-in ones, sets DEFAULT, and sets no other special or settings flag. |
| Flags.GenerateAll | src/modular_src/arg_handle.hpp:31-42 | Selects every technique, sets ALL, and sets no other special or settings flag. |
| Flags.Sanitize | src/modular_src/modules/core.cpp:52-87 | Never throws. Returns a coherent selection unchanged and replaces any other by the default selection, so the result is always coherent. |
| Flags.SanitizeIdempotent | src/modular_src/modules/core.cpp:52-87 | Sanitizing a sanitized selection changes nothing. |
| Flags.SettingsOnlySelectionLosesSettings | src/modular_src/modules/core.cpp:76-86 | A selection with no technique, DEFAULT or ALL comes out as the default selection, with every tunable setting clear. |
| ArgHandle.FlagManager | src/modular_src/arg_handle.hpp:74-89 | Rejects an identifier past the enumeration. DEFAULT and ALL replace the selection by the default or full set. Any other identifier sets its own position and leaves the others alone. |
| ArgHandle.HandleArgs | src/modular_src/arg_handle.hpp:188-208 | Fails with InvalidArgument exactly when some argument is neither a flag set nor a valid enumerator. On success the mask is the last flag-set argument, or the incoming mask when there is none. |
| ArgHandle.HandleArgsAppend | src/modular_src/arg_handle.hpp:188-208 | Handling a concatenation of arguments is handling its parts one after the other. |
| ArgHandle.ResetDiscardsEarlierFlags | src/modular_src/arg_handle.hpp:82-85 | A DEFAULT or ALL argument discards every selection made by the arguments before it. |
| ArgHandle.SelectionIgnoresMask | src/modular_src/arg_handle.hpp:188-208 | The selection and the failure do not depend on the mask the walk starts with. |
| ArgHandle.SelectionWithoutResets | src/modular_src/arg_handle.hpp:188-208 | Without DEFAULT or ALL, a position ends up selected exactly when it was selected before or some argument names it. |
| ArgHandle.MaskKeepingSettings | src/modular_src/arg_handle.hpp:255-269 | The six special and settings flags keep their selected value. Every other position is selected only if the mask also has it. |
| ArgHandle.ArgHandler | src/modular_src/arg_handle.hpp:237-276 | Succeeds exactly when every argument is accepted. Leaves the last flag-set argument, or the default set, as the mask. Returns a coherent selection. |
| ArgHandle.NoArgumentsSelectDefault | src/modular_src/arg_handle.hpp:241-244 | A call without arguments selects the default set and leaves the default mask. |
| ArgHandle.OptInNeedsMask | src/modular_src/arg_handle.hpp:237-276 | Without a flag-set argument, no opt-in technique is ever selected, even when an argument names it. |
| ArgHandle.SettingsOnlyCallDropsSettings | src/modular_src/arg_handle.hpp:250-273 | A call whose arguments are all tunable settings returns exactly the default selection. |
| ArgHandle.Reentry | src/modular_src/arg_handle.hpp:237-276 | Passing a sanitized flag set to another public call makes it the mask. The inner selection has the outer techniques minus the opt-in ones, plus DEFAULT, and no other setting. |
| ArgHandle.HandleDisabledArgs | src/modular_src/arg_handle.hpp:211-225 | Fails exactly when some argument is not an enumerator in range. Otherwise it clears exactly the named positions of the mask. |
| ArgHandle.DisabledArgHandler | src/modular_src/arg_handle.hpp:280-297 | On success the returned set is the mask the call leaves behind. |
| ArgHandle.DisableNeedsDefault | src/modular_src/arg_handle.hpp:280-297 | Succeeds exactly when the arguments are in-range enumerators that include DEFAULT. The result is the default set without the named positions. |
| ArgHandle.DisableMutatesBeforeRejecting | src/modular_src/arg_handle.hpp:280-297 | Disabling one default technique throws but leaves that technique cleared in the mask. |
| Memo.Initial | src/modular_src/modules/memo.cpp:16-22 | At process start no technique, string or Hyper-X state is cached. |
| Memo.CacheStore | src/modular_src/modules/memo.cpp:24-27 | Storing succeeds exactly for identifiers inside the flag set; past it the key bitset throws out_of_range. |
| Memo.IsCached | src/modular_src/modules/memo.cpp:30-32 | Answers whether the identifier has an entry, and throws past the flag set. |
| Memo.CacheFetch | src/modular_src/modules/memo.cpp:34-36 | Succeeds exactly for identifiers that have an entry. |
| Memo.StoreThenFetch | src/modular_src/modules/memo.cpp:24-36 | After a store the identifier is cached and fetches back the stored entry. No other identifier changes. |
| Memo.CacheFetchAll | src/modular_src/modules/memo.cpp:38-51 | Returns, in ascending order, exactly the cached identifiers whose result was positive. |
| Memo.AllPresent | src/modular_src/modules/memo.cpp:54-67 | all_present; no contract of its own. Memo.NeverAllPresent states that it never holds for a table of built-in and custom identifiers at the real technique count. |
| Memo.NeverAllPresent | src/modular_src/modules/memo.cpp:54-67 | A table holding only built-in and custom identifiers never has as many entries as technique_count demands, so all_present is false. |
| Memo.StoreString | src/modular_src/modules/memo.hpp:35-81 | The store of the brand, multi-brand and CPU-brand string caches; no contract of its own. Memo.StringStoreThenFetch states its round trip with FetchString and that it touches no other slot or the technique table. |
| Memo.FetchString | src/modular_src/modules/memo.hpp:35-81 | The fetch of the string caches; no contract of its own. See Memo.StringStoreThenFetch. |
| Memo.IsStringCached | src/modular_src/modules/memo.hpp:35-81 | is_cached of the string caches: a slot counts as cached when it holds a non-empty string. Memo.StringStoreThenFetch states that a store makes the slot cached exactly when the stored string is non-empty. |
| Memo.StringStoreThenFetch | src/modular_src/modules/memo.hpp:35-81 | A stored brand string fetches back, counts as cached exactly when non-empty, and leaves the other slots and the technique table alone. |
| Memo.StoreHyperX | src/modular_src/modules/memo.hpp:83-99 | Records the Hyper-X state, marks it cached, and leaves every other cache alone. |
| Brands.IdentifyLabel | src/modular_src/brands.hpp:15-82 | Every brand's label is recognised as that brand. |
| Brands.IdentifyAll | src/modular_src/brands.hpp:15-82 | Every label is recognised as its own brand, for all brands at once. |
| Brands.LabelInjective | src/modular_src/brands.hpp:15-82 | Two brands share a label exactly when they are the same brand. Every label has at least three characters. |
| Brands.LabelsInjective | src/modular_src/brands.hpp:15-82 | No two brands share a label. |
| Brands.LabelHasNoSeparator | src/modular_src/brands.hpp:15-82 | No label contains " or ", so the separator in a brand message always comes from joining. |
| Brands.LabelNoSpaceO | src/modular_src/brands.hpp:15-82 | In no label is a space followed by the letter o. |
| Brands.Rank | src/modular_src/brands.hpp:15-82 | The model's tie-break order: every brand has a position, in the declaration order of the brand labels, below the brand count. |
| Brands.RankRoundTrip | src/modular_src/brands.hpp:15-82 | Looking up a brand's position gives the brand back. |
| Brands.AtRank | src/modular_src/brands.hpp:15-82 | Only one brand sits at each position. |
| Brands.Add | src/modular_src/modules/core.cpp:13-19 | A key outside the scoreboard ends the process. Otherwise the primary brand is credited once, or twice when a second label is given, and nothing else is credited. |
| Brands.Detected | src/modular_src/modules/core.cpp:13-19 | A probe that calls add(b) reports a positive verdict and credits b once. |
| Brands.AwardCounts | src/modular_src/modules/core.cpp:13-19 | Each brand gains exactly as many points as it occurs among the credits. |
| Brands.AddCreditsPrimaryTwice | src/modular_src/modules/core.cpp:13-19 | add with a second label gives the primary brand two points. It changes no other brand, including the one the second label names. |
| Text.Find | src/modular_src/modules/util.hpp:176-178 | True exactly when the keyword occurs somewhere in the string. |
| Text.FindFrom | src/modular_src/modules/util.hpp:176-178 | The search from a position is true exactly when the keyword occurs at or after it. |
| Text.PrefixIsFound | src/modular_src/modules/util.hpp:176-178 | A string that starts with the keyword contains it. |
| Text.Join | src/modular_src/api.hpp:348-356 | The multiple-brand message starts with the first label and is that label alone when there is one. |
| Text.JoinSnoc | src/modular_src/api.hpp:352-355 | Each further label appends " or " and the label. |
| Text.JoinHasSeparator | src/modular_src/api.hpp:352-355 | A message of two or more labels contains " or ". |
| Text.JoinContains | src/modular_src/api.hpp:348-356 | Every label occurs in the joined message. |
| Core.Start | src/modular_src/modules/memo.cpp:16-22 | The state at process start satisfies the engine invariant. |
| Core.Threshold | src/modular_src/modules/core.cpp:95-100 | The threshold is 150, or 300 with HIGH_THRESHOLD. |
| Core.RunProbe | src/modular_src/modules/core.cpp:134-144 | Invoking a probe returns its verdict and logs the call. It adds the probe's credits to the scoreboard. It bumps the 8-bit detected count on a positive verdict and changes nothing else. |
| Core.Remember | src/modular_src/modules/core.cpp:146-149 | Records the result and weight in the cache entry of that identifier. It touches no log, scoreboard or configuration. |
| Core.Check | src/modular_src/api.hpp:23-99 | Succeeds exactly for a technique flag with NO_MEMO or no memo argument. A cached result is returned without running the probe. Otherwise the probe runs, and its result is cached unless NO_MEMO is given. An answer from a cache that agrees with the probes is the probe's verdict. |
| Core.Probe | src/modular_src/modules/core.cpp:134-149 | Runs one probe, gains its weight on a positive verdict, and caches the result only with memoization on. |
| Core.BuiltinStep | src/modular_src/modules/core.cpp:103-149 | An entry's probe runs exactly when the technique is selected, is not a GPU one, and is not answered from the cache. Unselected and GPU entries gain nothing. Without memoization, or with an agreeing cache, the gain is the reference gain. |
| Core.BuiltinPass | src/modular_src/modules/core.cpp:103-162 | The technique walk never lowers the score. It stops early only under the shortcut, once the score has reached the threshold. |
| Core.BuiltinNext | src/modular_src/modules/core.cpp:156-161 | After an entry's step the walk stops only under the shortcut at the threshold. It never lowers the score. |
| Core.WalkLogsSelection | src/modular_src/modules/core.cpp:103-121 | Every probe the walk logs is a selected, non-GPU technique, in ascending order. |
| Core.NextLogsSelection | src/modular_src/modules/core.cpp:103-121 | The same holds for the walk after one entry's step. |
| Core.CustomIdRange | src/modular_src/api.hpp:491-498 | The identifiers of the custom techniques, in registration order. |
| Core.CustomPass | src/modular_src/modules/core.cpp:165-196 | Without memoization every custom probe runs once, in order. With memoization it throws exactly when a custom identifier falls outside the flag set. Otherwise the score never drops, and only custom identifiers are logged. |
| Core.CustomStep | src/modular_src/modules/core.cpp:166-195 | A custom technique either answers from the cache or runs its probe. It fails only when the identifier cannot be cached. |
| Core.MergeGpu | src/modular_src/modules/core.cpp:205-239 | The GPU step logs GPU probes only when both GPU techniques are selected, and then leaves both cached. With an agreeing cache it adds nothing unless both are selected. Otherwise it adds 100 when both are positive, the positive one's weight when one is, and nothing when neither is. |
| Core.GpuBoth | src/modular_src/modules/core.cpp:217-236 | Checking both GPU techniques logs only GPU probes and leaves both cached. |
| Core.GpuBothAgrees | src/modular_src/modules/core.cpp:217-236 | With a cache that agrees with the probes, the GPU step uses their verdicts and keeps the cache agreeing and fresh. |
| Core.Finish | src/modular_src/modules/core.cpp:164-241 | The custom and GPU stages fail exactly when memoization is on and the custom identifiers overflow the flag set. Otherwise they keep the selection in the log. |
| Core.RunAll | src/modular_src/modules/core.cpp:90-242 | run_all respects the selection in the probes it logs. It fails exactly when the walk did not stop early and a custom identifier cannot be cached. |
| Scoring.WalkStops | src/modular_src/modules/core.cpp:156-161 | A probe that brings the score to the threshold ends the walk there under the shortcut. |
| Scoring.WalkEnd | src/modular_src/modules/core.cpp:103-121 | Past the last technique the walk does nothing, and the reference score and order are empty. |
| Scoring.WalkScoresReference | src/modular_src/modules/core.cpp:103-162 | Without the shortcut, and with memoization off or an agreeing cache, the walk's score is the reference sum of weights of selected, non-GPU, positive techniques. |
| Scoring.ShortcutScore | src/modular_src/modules/core.cpp:103-162 | With memoization off, or a cache that agrees with the probes and holds the current weights, the shortcut walk reaches the threshold exactly when the reference sum does, and a walk that does not stop scores the reference sum. |
| Scoring.ShortcutAtThreshold | src/modular_src/modules/core.cpp:156-161 | Under the same conditions the shortcut walk reaches the threshold exactly when the reference sum does, and scores it when it does not stop. Without memoization it also stops exactly when the reference sum reaches the threshold. |
| Scoring.WalkProbesSelection | src/modular_src/modules/core.cpp:103-121 | Without memoization, the walk runs exactly the selected non-GPU techniques, in ascending order. |
| Scoring.WalkCovers | src/modular_src/modules/core.cpp:123-149 | With memoization, a walk without the shortcut leaves every selected non-GPU technique cached and drops no entry. |
| Scoring.CachedWalkIsQuiet | src/modular_src/modules/core.cpp:123-132 | When every selected technique is already cached, the walk changes no state and runs no probe. |
| Scoring.RepeatedWalk | src/modular_src/modules/core.cpp:123-132 | With memoization and an agreeing cache, a second walk gives the same state and score as the first. |
| Scoring.WalkPreserves | src/modular_src/modules/core.cpp:123-149 | The walk keeps the cache in agreement with the probes and the current weights. |
| Resolver.Relevant | src/modular_src/api.hpp:190-195 | The candidates are exactly the brands with at least one point, at their scores. |
| Resolver.Count | src/modular_src/api.hpp:224-225 | std::map::count is 1 for a candidate and 0 otherwise. |
| Resolver.Merge | src/modular_src/api.hpp:222-231 | When both brands are candidates, both are replaced by the result brand at score 2, unless the result was already a different candidate. Otherwise nothing changes. |
| Resolver.TripleMerge | src/modular_src/api.hpp:234-245 | When all three brands are candidates they are replaced by the result brand. Otherwise nothing changes. |
| Resolver.Apply | src/modular_src/api.hpp:270-299 | Applying merge rules only narrows the candidates. Every remaining brand was a candidate or is a merge result, and some candidate remains if there was one. |
| Resolver.DropArtifact | src/modular_src/api.hpp:215-219 | With more than one candidate the Hyper-V artifact is erased and every other candidate kept at its score. |
| Resolver.MicrosoftStep | src/modular_src/api.hpp:250-256 | The Hyper-V and Virtual PC rule narrows the candidates. |
| Resolver.KvmFamily | src/modular_src/api.hpp:278-286 | The QEMU and KVM rules narrow the candidates. |
| Resolver.TripleMergeNeverFires | src/modular_src/api.hpp:278-286 | After the pairwise QEMU and KVM rules, QEMU and KVM are never both candidates, so the triple rule never fires. |
| Resolver.LateArtifact | src/modular_src/api.hpp:314-318 | The late artifact rule changes nothing when the artifact is not a candidate. |
| Resolver.MergeAll | src/modular_src/api.hpp:250-299 | All merge rules together narrow the candidates. |
| Resolver.PostProcess | src/modular_src/api.hpp:211-318 | With more than one candidate, post-processing leaves a non-empty set of candidates, drawn from the old ones and merge results, without the Hyper-V artifact. |
| Resolver.ArtifactEraseNeverFires | src/modular_src/api.hpp:314-318 | Once the artifact has been erased, no merge brings it back, and the late rule does nothing. |
| Resolver.BestFrom | src/modular_src/api.hpp:329-334 | The scan picks a candidate that beats every other, and finds none only in an empty map. |
| Resolver.Best | src/modular_src/api.hpp:345-346 | The first brand after the sort has the highest score of all candidates, and there is one exactly when the map is non-empty. |
| Resolver.Ordered | src/modular_src/api.hpp:325-334 | The sorted vector lists every candidate once, scores descending. |
| Resolver.Labels | src/modular_src/api.hpp:351-355 | The labels of a list of brands, in order. |
| Resolver.Resolve | src/modular_src/api.hpp:186-357 | The message is cached exactly when more than one brand had points. |
| Resolver.ResolveNothing | src/modular_src/api.hpp:197-201 | Without a credited brand the message is "Unknown", and it is not cached. |
| Resolver.ResolveSingle | src/modular_src/api.hpp:203-209 | With one credited brand the message is its label, and it is not cached. |
| Resolver.ResolveTop | src/modular_src/api.hpp:345-346 | In single mode the message is the label of a top-scoring candidate left by post-processing. |
| Resolver.ResolveMultiple | src/modular_src/api.hpp:347-357 | The multiple-brand message starts with the single-brand message and contains every remaining candidate's label. It contains " or " exactly when two or more remain. |
| Resolver.MicrosoftAlwaysMerges | src/modular_src/api.hpp:250-256 | With both Hyper-V and Virtual PC present they always merge into Hyper-V/Virtual PC. The erase branch is dead. |
| Resolver.KvmFamilyIsPairwise | src/modular_src/api.hpp:278-286 | The QEMU and KVM stage is just the pairwise rules. |
| Resolver.ResolveIgnoresScore | src/modular_src/api.hpp:314-318 | The brand message does not depend on the score. |
| Resolver.ResolvedTextNonEmpty | src/modular_src/api.hpp:186-357 | The brand message always has at least three characters. |
| Api.Handle | src/modular_src/arg_handle.hpp:237-276 | A public call's argument handling succeeds exactly when every argument is accepted. It changes only the mask and returns a coherent selection. |
| Api.Inner | src/modular_src/api.hpp:740-742 | A nested call sees the outer techniques minus the opt-in ones, with DEFAULT and memoization on, single mode and the 150 threshold. |
| Api.HandleInner | src/modular_src/api.hpp:740-742 | Handing a flag set to a nested call makes it the mask and selects Inner of it. |
| Api.PercentOf | src/modular_src/api.hpp:435-453 | 100 exactly at or past the threshold. 99 for scores from 100 up to it, and for 99. The score itself below 100. |
| Api.PercentMonotone | src/modular_src/api.hpp:447-453 | A higher score never gives a lower percentage. |
| Api.DetectWith | src/modular_src/api.hpp:391-413 | detect keeps the engine invariant and configuration. It fails only when memoization is on and custom identifiers overflow. |
| Api.PercentageWith | src/modular_src/api.hpp:422-456 | percentage keeps the engine invariant and configuration. It fails only under the same condition. |
| Api.DetectIffCertain | src/modular_src/api.hpp:404-412 | detect succeeds exactly when percentage does, and it is true exactly when percentage is 100. |
| Api.PercentageMatchesReference | src/modular_src/api.hpp:422-456 | Without custom techniques, and with memoization off or a cache that agrees with the probes and holds the current weights, the percentage is that of the reference score. |
| Api.DetectMatchesReference | src/modular_src/api.hpp:391-413 | Under the same conditions detect is true exactly when the reference score reaches the threshold. |
| Api.BrandRun | src/modular_src/api.hpp:121-123 | The first half of brand: run_all unless memoization is on and all_present holds. No contract of its own. Api.BrandAlwaysRuns states that it always runs run_all without the early exit. |
| Api.BrandAlwaysRuns | src/modular_src/api.hpp:121-123 | The technique cache is never complete, so brand always walks the techniques. |
| Api.BrandAfterRun | src/modular_src/api.hpp:125-138 | A cached message is returned as it is. Otherwise the resolved message is returned and stored when memoization is on and more than one brand had points. No other slot changes. |
| Api.BrandWith | src/modular_src/api.hpp:108-382 | brand fails exactly when memoization is on and custom identifiers overflow. Otherwise it returns the cached or freshly resolved message. |
| Api.BrandRepeats | src/modular_src/api.hpp:125-138 | Once brand has cached its message, the next call returns the same message, whatever the probes say then. |
| Api.CachedMessageReturned | src/modular_src/api.hpp:125-138 | A message cached by one brand call is what the next call, after its own run, returns. |
| Api.SingleIsLabel | src/modular_src/api.hpp:345-346 | The single-brand message is always one brand's label. |
| Api.BrandKeepsSingleSlot | src/modular_src/api.hpp:361-370 | A brand call keeps the single-brand cache empty or holding a label. |
| Api.TypeEntry | src/modular_src/api.hpp:749-821 | The type table; no contract of its own. Api.TypeLookup, Api.TypeOfLabel and Api.TypeTableGaps state what it gives: each brand's category, with exactly four brands missing. |
| Api.TypeLookup | src/modular_src/api.hpp:749-827 | The type table lookup gives a brand's entry for its label, and nothing for text that is no label. |
| Api.TypeOfText | src/modular_src/api.hpp:744-831 | A message with " or " is "Unknown". Any other result is an entry of the table. |
| Api.TypeOfPlainText | src/modular_src/api.hpp:823-831 | A message without the separator is looked up in the table, with "Unknown" for a miss. |
| Api.TypeOfLabel | src/modular_src/api.hpp:744-831 | For a brand's label, type gives that brand's category. |
| Api.TypeTableGaps | src/modular_src/api.hpp:749-821 | Exactly four brands are missing from the table. |
| Api.TypeOfHardenedVMware | src/modular_src/api.hpp:749-831 | VMware with the hardened loader comes out as "Unknown". |
| Api.TypeOfWsl | src/modular_src/api.hpp:771 | WSL comes out as "Hypervisor (Type 1)", with its capital T. |
| Api.TypeWith | src/modular_src/api.hpp:738-832 | type fails exactly when custom identifiers overflow. It answers from the cached single-brand message when there is one, and otherwise from a fresh brand call. |
| Api.TypeOfSomeBrand | src/modular_src/api.hpp:738-832 | type always answers with some brand's category. |
| Api.BandOf | src/modular_src/api.hpp:915-930 | Without DYNAMIC the verdict is "inside" at 100 and baremetal below. Baremetal means 0, or static mode below 100. "Inside" means exactly 100. |
| Api.BandMonotone | src/modular_src/api.hpp:915-924 | In dynamic mode a higher percentage never gives a less certain verdict. |
| Api.MakeConclusion | src/modular_src/api.hpp:866-913 | The sentence starts with the category. |
| Api.TakesAnOnly | src/modular_src/api.hpp:877-898 | For text that is exactly one brand's label, "an" is used exactly for the brands listed. |
| Api.TakesAnLabel | src/modular_src/api.hpp:877-898 | A brand's label takes "an" exactly for the sixteen brands listed. |
| Api.ShownAsUnknown | src/modular_src/api.hpp:902-904 | Only the null brand is shown as "unknown". |
| Api.ShownAsArtifact | src/modular_src/api.hpp:906-912 | Only the Hyper-V artifact drops the " VM" suffix. |
| Api.ConclusionShape | src/modular_src/api.hpp:866-913 | The sentence is the category, the article, the shown brand and " VM" except for the artifact. |
| Api.ConclusionOfLabel | src/modular_src/api.hpp:866-913 | On a brand's label, make_conclusion writes that brand's sentence. |
| Api.Message | src/modular_src/api.hpp:915-930 | The "inside" verdict gives a sentence that starts with "Running inside". |
| Api.ConclusionWith | src/modular_src/api.hpp:840-931 | conclusion fails exactly when custom identifiers overflow. Without DYNAMIC it is "Running on baremetal" or a sentence starting with "Running inside". |
| Api.ConclusionStatic | src/modular_src/api.hpp:926-930 | Without DYNAMIC, at 100 percent, the message is the brand's own sentence. |
| Api.StaticMessage | src/modular_src/api.hpp:926-930 | Without DYNAMIC the message is the full sentence at 100 percent and baremetal below. |
| Api.AddCustom | src/modular_src/api.hpp:465-506 | Rejects a percentage above 100. Otherwise it appends the technique, raises the technique count by one, and gives the technique identifier 108 plus its position from 1. |
| Api.AddedCustomRuns | src/modular_src/api.hpp:465-506 | Without memoization, the next run invokes the added technique's probe. |
| Api.ModifyScore | src/modular_src/api.hpp:674-714 | Fails exactly for a percentage above 100 or a non-technique flag. Otherwise it changes that technique's weight only. |
| Api.ModifiedScoreIsStale | src/modular_src/api.hpp:707-713 | A weight changed after the technique was cached is not used, and the cached entry keeps scoring with the old weight. Without memoization the new weight is used. |
| Api.Disable | src/modular_src/api.hpp:515-522 | DISABLE fails exactly when an argument is not an in-range enumerator or DEFAULT is missing. Otherwise it returns the default set without the named positions and leaves it as the mask. |
| Api.DisableDoesNotPersist | src/modular_src/arg_handle.hpp:237-239 | A DISABLE call has no effect on later calls, whose handling resets the mask. |
| Cpu.IsLeafSupported | src/modular_src/modules/cpu.cpp:55-79 | A leaf is supported exactly when it does not exceed its range's maximum. From 0xC0000000 on, no leaf is supported. |
| Cpu.LeafSupportDownward | src/modular_src/modules/cpu.cpp:55-79 | Within a range, support is closed downwards, and leaf 0 is always supported. |
| Cpu.LeBytes | src/modular_src/modules/cpu.cpp:211-214 | A register's string copy is four bytes. |
| Cpu.WordOfLeBytes | src/modular_src/modules/cpu.cpp:211-214 | Reading a register's bytes back gives the register. |
| Cpu.LeBytesOfWord | src/modular_src/modules/cpu.cpp:211-214 | Writing out the register four bytes spell gives those bytes. |
| Cpu.CpuManufacturer | src/modular_src/modules/cpu.cpp:188-228 | Empty exactly when all three registers are zero, and otherwise twelve bytes. |
| Cpu.ManufacturerRoundTrip | src/modular_src/modules/cpu.cpp:218-225 | The manufacturer string determines its registers, in the leaf's order. |
| Cpu.ManufacturerOnto | src/modular_src/modules/cpu.cpp:218-225 | Every twelve-byte string with a non-NUL byte is the manufacturer string of some registers. |
| Cpu.GenuineIntel | src/modular_src/modules/cpu.cpp:222-225 | Leaf 0 of an Intel processor spells "GenuineIntel", with EDX before ECX. |
| Cpu.IsIntel | src/modular_src/modules/cpu.cpp:94-102 | is_intel holds exactly when ECX spells "ntel" or "otel". |
| Cpu.FetchSteppings | src/modular_src/modules/cpu.cpp:231-243 | Each field is four bits. |
| Cpu.SteppingsRoundTrip | src/modular_src/modules/cpu.cpp:238-240 | Fields placed in a signature are fetched back unchanged. |
| Cpu.IsCeleron | src/modular_src/modules/cpu.cpp:247-261 | is_celeron on fetched steppings; no contract of its own. Cpu.CeleronSignature states it on a raw EAX. |
| Cpu.CeleronSignature | src/modular_src/modules/cpu.cpp:247-261 | is_celeron holds exactly for Intel with EAX bits 4-11 equal to 0x6A and bits 16-19 equal to 2. |
| Cpu.ExactVendor | src/modular_src/modules/cpu.cpp:392-415 | The exact-match chain; no contract of its own. Cpu.KvmSources, Cpu.PaddedSources and Cpu.CreditedByExactMatch state which strings it maps to which brands. |
| Cpu.VmidTemplate | src/modular_src/modules/cpu.cpp:318-445 | vmid_template with the twelve-byte padded constants, the corrected half of the first finding. No contract of its own. Cpu.PaddedMatch, Cpu.PaddedJailhouse, Cpu.PaddedBarevisor, Cpu.PaddedMiniVisor and Cpu.VmidAppleVz state its verdicts. |
| Cpu.VmidWith | src/modular_src/modules/cpu.cpp:318-445 | The probe is positive exactly when it credits some brand. |
| Cpu.VmidHyperV | src/modular_src/modules/cpu.cpp:374-379 | "Microsoft Hv" credits Hyper-V twice, or nothing on a host that only carries the artifact. |
| Cpu.VmidKvmFirst | src/modular_src/modules/cpu.cpp:388-390 | Any other string containing "KVM" is KVM, before any exact match. |
| Cpu.KvmSources | src/modular_src/modules/cpu.cpp:392-415 | The exact matches for KVM with Hyper-V and for LKVM come only from their own strings. |
| Cpu.PaddedSources | src/modular_src/modules/cpu.cpp:408-411 | The exact matches for Jailhouse, Barevisor and MiniVisor come only from their own strings. |
| Cpu.CreditedByExactMatch | src/modular_src/modules/cpu.cpp:392-415 | Brands other than Hyper-V, KVM and the substring matches are credited only through the exact matches. |
| Cpu.VmidNeverCreditsVpc | src/modular_src/modules/cpu.cpp:374-379 | Virtual PC is never credited: its label is only add's second argument. |
| Cpu.VmidNeverCreditsKvmVariants | src/modular_src/modules/cpu.cpp:388-413 | KVM with Hyper-V enlightenments and LKVM are never credited. |
| Cpu.UnpaddedNeverMatch | src/modular_src/modules/cpu.cpp:342-411 | As written, no manufacturer string ever matches Jailhouse, Barevisor or MiniVisor. |
| Cpu.PaddedMatch | src/modular_src/modules/cpu.cpp:392-415 | A padded vendor string without a K that the exact chain recognises is credited to that brand. |
| Cpu.PaddedJailhouse | src/modular_src/modules/cpu.cpp:342-408 | With the padding kept, Jailhouse's twelve-byte string is credited to Jailhouse. |
| Cpu.PaddedBarevisor | src/modular_src/modules/cpu.cpp:345-410 | With the padding kept, Barevisor's string is credited to Barevisor. |
| Cpu.PaddedMiniVisor | src/modular_src/modules/cpu.cpp:347-411 | With the padding kept, MiniVisor's string is credited to MiniVisor. |
| Cpu.AppleNotExact | src/modular_src/modules/cpu.cpp:392-415 | Apple's padded string is not among the exact matches. |
| Cpu.VmidAppleVz | src/modular_src/modules/cpu.cpp:436-438 | Apple's padded string is found as a substring and credited to Apple VZ. |
| Hostname.FindHyphen | src/modular_src/techniques/os_windows/hyperv_hostname.cpp:33 | Finds the first hyphen at or after the start position, or reports that there is none. |
| Hostname.IsAzureHostname | src/modular_src/techniques/os_windows/hyperv_hostname.cpp:22-47 | The hostname test; no contract of its own. Hostname.AzureHostnameIff states that it accepts exactly the Azure form. |
| Hostname.AcceptedHasPattern | src/modular_src/techniques/os_windows/hyperv_hostname.cpp:22-47 | An accepted hostname is "fv-az", digits, a hyphen and digits, with both runs non-empty. |
| Hostname.PatternAccepted | src/modular_src/techniques/os_windows/hyperv_hostname.cpp:22-47 | Every hostname of that form is accepted, and the length test never rejects one on its own. |
| Hostname.AzureHostnameIff | src/modular_src/techniques/os_windows/hyperv_hostname.cpp:22-47 | The test accepts exactly the Azure form. |
| Hostname.HyperVHostname | src/modular_src/techniques/os_windows/hyperv_hostname.cpp:14-51 | The probe is positive exactly on an Azure hostname, and then credits Azure Hyper-V once. |
| Hostname.HostnameExamples | src/modular_src/techniques/os_windows/hyperv_hostname.cpp:22-47 | "fv-az0-0" is accepted. Names with an empty digit run are not. |
| DiskSerial.IsVBoxSerial | src/modular_src/techniques/memory/disk_serial_number.cpp:23-39 | is_vbox_serial; no contract of its own. DiskSerial.VBoxSerialIff states that it accepts exactly the VirtualBox form. |
| DiskSerial.AcceptedSerialHasParts | src/modular_src/techniques/memory/disk_serial_number.cpp:23-39 | An accepted serial is V, B, eight hex digits, a hyphen and eight hex digits. |
| DiskSerial.PartsAccepted | src/modular_src/techniques/memory/disk_serial_number.cpp:23-39 | Every serial of that form is accepted. |
| DiskSerial.VBoxSerialIff | src/modular_src/techniques/memory/disk_serial_number.cpp:23-39 | The test accepts exactly the VirtualBox form. |
| DiskSerial.Upper | src/modular_src/techniques/memory/disk_serial_number.cpp:103 | Lower-case letters are shifted to upper case, and every other character is kept. |
| DiskSerial.UpperCopy | src/modular_src/techniques/memory/disk_serial_number.cpp:96-105 | The copy holds at most 255 characters, each upper-cased. |
| DiskSerial.UpperCopyIdempotent | src/modular_src/techniques/memory/disk_serial_number.cpp:96-105 | Copying a copy changes nothing. |
| DiskSerial.UpperCopyKeepsVerdict | src/modular_src/techniques/memory/disk_serial_number.cpp:96-107 | The test on the copy agrees with the test on the serial itself. |
| DiskSerial.CString | src/modular_src/techniques/memory/disk_serial_number.cpp:94 | The serial is the bytes up to the first NUL, bounded by the descriptor. |
| DiskSerial.DriveSerial | src/modular_src/techniques/memory/disk_serial_number.cpp:92-105 | A serial is read exactly when its offset lies inside the descriptor. |
| DiskSerial.DiskSerialFrom | src/modular_src/techniques/memory/disk_serial_number.cpp:41-123 | The probe either finds nothing or credits VirtualBox once. |
| DiskSerial.DiskSerialFromIff | src/modular_src/techniques/memory/disk_serial_number.cpp:41-123 | The probe fires exactly when one of the first four drives carries a VirtualBox serial. |
| DiskSerial.DriveVerdict | src/modular_src/techniques/memory/disk_serial_number.cpp:92-113 | A drive's verdict ignores the serial's case. |
| DiskSerial.CStringBeforeNul | src/modular_src/techniques/memory/disk_serial_number.cpp:94 | The text before a terminating NUL is read back whole. |
| DiskSerial.LowerCaseSerialFound | src/modular_src/techniques/memory/disk_serial_number.cpp:96-107 | A lower-case VirtualBox serial is still recognised. |
| DiskSerial.DiskSerialNumber | src/modular_src/techniques/memory/disk_serial_number.cpp:41-123 | The DISK_SERIAL probe over the drives from the first one on; no contract of its own. DiskSerial.DiskSerialFrom and DiskSerial.DiskSerialFromIff state its outcome, and DiskSerial.FoundAfterFailedDrives an instance. |
| DiskSerial.FoundAfterFailedDrives | src/modular_src/techniques/memory/disk_serial_number.cpp:41-87 | Drives that could not be queried are skipped, and a later VirtualBox drive is found. |
| Smbios.StrEnd | src/modular_src/modules/util.hpp:857 | strlen finds the first NUL at or after the cursor, or runs past the end when there is none. |
| Smbios.NthString | src/modular_src/modules/util.hpp:856-859 | Skipping k strings of an encoded set reaches the (k+1)-th string, read back whole. |
| Smbios.GetStringByIndex | src/modular_src/modules/util.hpp:850-860 | get_string_by_index; no contract of its own. Smbios.StringByIndex and Smbios.EmptySetIsNull state what it returns. |
| Smbios.StringByIndex | src/modular_src/modules/util.hpp:850-860 | Over an encoded string set, get_string_by_index returns the string the number names. String number 0 returns the null text. |
| Smbios.SkipStrings | src/modular_src/modules/util.hpp:909-913 | The skip always moves at least two bytes on. |
| Smbios.FindSystemInformation | src/modular_src/modules/util.hpp:889-918 | find_system_information; no contract of its own. Smbios.WalkFrom and Smbios.FindInEncodedTable state what it finds. |
| Smbios.WalkFrom | src/modular_src/modules/util.hpp:889-918 | Any offset found holds a type-1 header with length at least 0x19. |
| Smbios.SkipEncoded | src/modular_src/modules/util.hpp:909-913 | The skip over an encoded string set lands just past it. |
| Smbios.WalkPastStructure | src/modular_src/modules/util.hpp:906-915 | The walk steps over a whole structure that is not System Information. |
| Smbios.WalkEncoded | src/modular_src/modules/util.hpp:889-918 | On an encoded table the walk finds the offset of the first System Information structure, or none. |
| Smbios.FindInEncodedTable | src/modular_src/modules/util.hpp:889-918 | find_system_information on a whole encoded table gives the first System Information structure's offset. |
| Smbios.GetBiosDataAsWritten | src/modular_src/modules/util.hpp:863-885 | As written, get_bios_data always returns null. |
| Smbios.GetBiosData | src/modular_src/modules/util.hpp:863-885 | Corrected: returns the copied table exactly when the size is positive and the copy is complete. |
| Smbios.SysInfoAsWrittenIsEmpty | src/modular_src/modules/util.hpp:922-958 | As written, sys_info leaves every string empty. |
| Smbios.FieldOfStructure | src/modular_src/modules/util.hpp:928-933 | A string field of an encoded structure reads the string its number names. |
| Smbios.StringsAt | src/modular_src/modules/util.hpp:928-954 | The string reads of sys_info at a found structure; no contract of its own. Smbios.StringsOfStructure states what it reads. |
| Smbios.SysInfo | src/modular_src/modules/util.hpp:922-958 | The sys_info constructor; no contract of its own. Smbios.SysInfoAsWrittenIsEmpty, Smbios.CorrectedReadsNamedStrings and Smbios.CorrectedWithoutSystemInformation state its results. |
| Smbios.StringsOfStructure | src/modular_src/modules/util.hpp:928-954 | On an encoded System Information structure, sys_info reads the strings it names. SKU and family are read only past the version 2.1 length. |
| Smbios.CorrectedReadsNamedStrings | src/modular_src/modules/util.hpp:922-958 | With the corrected retrieval, sys_info reads the strings named by the first System Information structure of the table. |
| Smbios.CorrectedWithoutSystemInformation | src/modular_src/modules/util.hpp:922-958 | With the corrected retrieval, a table without System Information leaves every string empty. |

## Left out

- **The probes.** The detection techniques' own bodies (registry, file,
  device and timing probes) are left out; an oracle gives each verdict and
  its credits. Only the hostname and disk-serial tests are modelled, and
  their inputs are parameters.
- **Process-wide statics.** They are an explicit engine record. The state
  after an exception is not modelled: an `Err` ends the call.
- **Integer widths.** Points, brand credits and technique counts are
  unbounded naturals. The u16 score of `run_all` and the u8 brand credits do
  not wrap in the model. Exception: the detected count, which wraps at 256.
- **Sort order of tied brands.** `std::sort` leaves it unspecified. The
  model ranks tied brands in the declaration order of the brand labels in
  brands.hpp. Its contracts speak only of score order.
- **Scoreboard keys.** `std::map<const char*>` compares pointers. The model
  compares brands. A label that is not the brand table's own pointer is a
  `Literal` key, on which `core::add` ends the process.
- **Debug output and `flag_to_string`.** The debug dump of the brand scores
  (api.hpp:375-378) is left out, and so is the flag-name table of
  `flag_to_string`.
- **`VM::detected_count`, `VM::detected_enums` and the `vmaware` struct.**
  They combine the modelled calls and are left out.
- **`arg::generate_current_disabled_flags`.** Nothing calls it.
- **`util::hyper_x`.** Its own probing is an input, a Hyper-X state.
- **`cpu::cpuid`.** It is the register values passed in.
- **`cpu::is_amd`, `cpu::get_brand`, `cpu::has_hyperthreading` and
  `cpu::get_model`.** They are not used by the modelled core.
- **Platform guards.** The `#if` guards (Windows, Linux, x86, C++ version)
  are left out. Every modelled path is taken as compiled.
- **Drive I/O.** The drive handles, the two storage property queries and
  their buffers are left out. Each drive is its descriptor bytes, or
  `None` when a query failed.
- **The firmware-table call and the UUID.** The `GetSystemFirmwareTable`
  call is its results: the size reported and the bytes copied. The UUID
  text of `sys_info` is left out.
- **Reads past the buffer.** A read beyond the firmware or descriptor
  bytes is undefined behaviour in the source. The model returns
  `Err(PastEnd)`.
- Smbios.StringsAt: reads the family field at offset 0x1A whenever the
  length exceeds 0x19, as the source does. A length of exactly 0x1A
  therefore reads one byte past the formatted area.
- Cpu.FetchSteppings: states the width of each field and the round trip
  from a signature. It does not state that other EAX bits are ignored.
- Api.AddCustom: does not model the wrap-around of the u16 identifier
  counter after 65535 registrations.

## Findings

| source | as written | input that shows it | evidently intended | confidence | as-written member | corrected member |
|---|---|---|---|---|---|---|
| src/modular_src/modules/cpu.cpp:342-411 | The vendor constants for Jailhouse, Barevisor and MiniVisor are built from C string literals with embedded NUL bytes. They stop at the first NUL and are nine or ten characters long. The manufacturer string is empty or twelve bytes long, so the three comparisons never succeed. | CPUID leaf 0x40000000 returning "Jailhouse\0\0\0" in EBX, ECX and EDX | the twelve-byte padded strings match, and Jailhouse, Barevisor and MiniVisor are credited | not executed | Cpu.UnpaddedNeverMatch | Cpu.PaddedJailhouse, Cpu.PaddedBarevisor, Cpu.PaddedMiniVisor |
| src/modular_src/modules/util.hpp:863-885 | `bios_data` starts as null, and the table is allocated and copied only `if (bios_data != nullptr)`. So get_bios_data always returns null, and sys_info never reads the firmware table. | any system whose firmware table call reports a positive size | allocate and copy when the pointer is null, and return the table when the copy is complete | not executed | Smbios.GetBiosDataAsWritten, Smbios.SysInfoAsWrittenIsEmpty | Smbios.GetBiosData, Smbios.CorrectedReadsNamedStrings |
