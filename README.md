# HouSmart core logic in Dafny

HouSmart is a Streamlit application that scores a residential address for
investors. It geocodes the address, fetches the block group's American
Community Survey profile and compares it with state benchmarks. It also
fetches rental comparables from RentCast, styles nearby points of interest
on a map and asks a Gemini model for an analysis, rotating through several
API keys when a quota runs out. An admin page edits a JSON configuration
file. A handful of maintenance scripts repair indentation and secrets by
rewriting files line by line.

This project models the logic underneath that UI:

- **`Data`** (`data.dfy`) covers geocoding with its sentinel coordinate, the
  block-group GEOID built from the Census geocoder or from an FCC block FIPS
  code, the cleaned ACS row, the benchmark comparison with its FIPS-to-state
  table, and the `get_census_data` pipeline.
- **`DataRentcast`** (`data_rentcast.dfy`) selects and formats RentCast
  comparables. **`StableSort`** (`stable_sort.dfy`) models Python's stable
  descending sort.
- **`Llm`** (`llm.dfy`) covers the key pool, `call_with_rotation`, state
  detection in the address, code-fence cleaning and the error fallback.
- **`App`** (`app.dfy`) covers the five priority sliders that always sum to
  100, the daily usage count, the currency parser and the census backfill.
- **`ConfigManager`** (`config_manager.dfy`) is the singleton configuration
  store with its mtime-driven reload.
- **`PoiMap`** (`map.dfy`) covers POI category styling and the map legend.
- **`AdminPanel`** (`admin_panel.dfy`) covers the password gate,
  model-option normalisation, whitelist parsing, the saved configuration, and the root admin page's four-key save.
- **`Components`** (`components.dfy`) is the clamped house-shaped progress
  loader.
- **`FixIndent`**, **`FixIndentInner`**, **`FixSummaryIndent`** and
  **`FixSecrets`** are the line-rewriting scripts. The first three share
  **`LineRewrite`** (`line_rewrite.dfy`): a pass over the lines that carries
  some state and emits one output line per input line.
- **`PyStr`** (`pystr.dfy`) models the Python string operations the code
  relies on. **`JsonValue`** (`json.dfy`) models JSON values and Python
  truthiness. **`Common`** (`common.dfy`) defines `Option`.

The models follow the code's own form:

- Objects whose fields the code updates become classes:
  - `ConfigManager.Manager` and `ManagerClass` for the singleton;
  - `Llm.KeyPool` for the module-level key list;
  - `App.Sliders` for the session's weights and locks;
  - `AdminPanel.Session` for the login flag.
- Loops become methods with invariants. Each is proved equal to a
  specification function, and the lemmas are stated about that function.
- Network replies, file states, clocks and `float()`/`strptime`/`json.loads`
  are inputs or function parameters.

## Model

| member | source | states |
|---|---|---|
| Data.CoordinatesFallBack | data.py:22-46 | Disabled geocoding, no key, no reply, a non-200 status, or no usable first feature all give the sentinel (40.785091, -73.968285) |
| Data.CoordinatesFromPosition | data.py:38-42 | A successful reply whose first feature has GeoJSON position [lon, lat] gives (lat, lon), latitude first |
| Data.CoordinatesOrigin | data.py:22-46 | Any result other than the sentinel comes from the first feature of an enabled, keyed, status-200 reply with a non-empty feature list |
| Data.GetCoordinates | data.py:22-46 | The coordinates of `get_coordinates`: the first feature's position, or the sentinel on every failure path. Its contract is stated in CoordinatesFallBack, CoordinatesFromPosition and CoordinatesOrigin |
| Data.FromCensusFields | data.py:143-149 | The Census-geocoder GEOID is state‖county‖tract‖block group, with state, county and tract left-padded to at least 2, 3 and 6 characters |
| Data.FromBlockFips | data.py:174-186 | The FCC GEOID is the first 12 characters of the block FIPS, split 2/3/6/1, and the block group is its 12th character |
| Data.ZFillPads | data.py:144-147 | `zfill` pads an unsigned code with leading '0' up to the width and never truncates |
| Data.FccGeoidRoundTrip | data.py:174-186 | Reading an FCC GEOID back at widths 2/3/6/1 gives exactly its parts |
| Data.CensusGeoidRoundTrip | data.py:143-149 | A Census-geocoder GEOID whose codes fit the canonical widths reads back into exactly its parts |
| Data.GetCensusGeoid | data.py:122-190 | Every GEOID returned is consistent, and its state, county and tract have at least 2, 3 and 6 characters |
| Data.CensusFirst | data.py:136-149 | A usable Census-geocoder match is taken as it is, and the fallback is not consulted |
| Data.FallbackQueriesSentinel | data.py:153-190 | The fallback calls `get_coordinates(address, None)`, so the FCC service is always asked about the sentinel coordinate |
| Data.IndexOf | data.py:227 | `list.index` returns the first position holding the value |
| Data.GetAcsData | data.py:192-245 | The loop over the requested codes computes exactly the specified ACS result, giving up at the first code whose header position lies beyond the data row |
| Data.AcsResultCases | data.py:207-245 | The ACS result is None exactly for a missing GEOID, no reply, a non-200 status, fewer than 2 rows, or a data row too short for a requested header code. Otherwise its keys are exactly the requested codes whose cell is kept, each with its cleaned value |
| Data.CleanCell | data.py:227-240 | For one requested code: reports whether the data row is too short for the code's header position, and otherwise gives the cell's cleaned value |
| Data.CleanedValues | data.py:226-238 | A kept value is positive, is stored as an int when integral, and its code is in the header |
| Data.CleanedDrops | data.py:230-240 | Empty, unparsable and non-positive cells are dropped |
| Data.AcsMetricsNonNegative | data.py:226-342 | Every metric computed from a successful ACS result is non-negative, since only positive cells are kept and absent ones default to 0 |
| Data.StateNameKnown | data.py:256-271 | Worked examples of StateNameTable: "36" is New York, "72" Puerto Rico, "11" District of Columbia |
| Data.StateNameFallback | data.py:256-271 | Worked examples of StateNameTable: unknown or malformed codes ("03", "6", "") map to "United States" |
| Data.StateName | data.py:256-271 | The FIPS-to-state lookup with "United States" as the default. Which codes the table holds is stated in StateNameTable |
| Data.StateNameTable | data.py:256-271 | The table has exactly the 52 keys of `FipsCodes` (50 states, the District of Columbia and Puerto Rico): each key maps to a name other than "United States", and every other string maps to "United States" |
| Data.MetricsFromRequestedCodes | data.py:290-342 | Every output metric is read from one of the requested ACS codes |
| Data.CompareWithBenchmarks | data.py:247-344 | None exactly for missing or empty local data. Otherwise the identifiers are the input GEOID unchanged, the benchmarks are those of the looked-up state name, and every metric holds its expected value |
| Data.EconomicMetrics | data.py:290-300 | Holds exactly the income, home-value and rent metrics, each the local value when present and non-zero and 0 otherwise |
| Data.EducationMetrics | data.py:302-324 | Holds exactly the 25-and-over population and the five education counts; the counts are 0 unless that population is positive |
| Data.RaceMetrics | data.py:326-338 | Holds exactly the race, origin and total-population counts, each the local value or 0 |
| Data.AgeMetrics | data.py:340-342 | Holds exactly the median age, the local value or 0 |
| Data.EducationZeroWithoutAdults | data.py:302-320 | All five education counts are 0 unless the population aged 25 and over is positive |
| Data.MetricDefaults | data.py:290-342 | An absent metric code gives 0, and a present positive value is passed through unchanged |
| Data.GetCensusData | data.py:346-379 | None exactly when census is disabled, no GEOID is found, or the ACS step gives None or an empty map. Otherwise the result carries the GEOID, the source "US Census Bureau (2022 ACS 5-year)", the benchmarks of the GEOID's state, and every metric equal to the value computed from the ACS result |
| DataRentcast.LastSeenDate | data.py:439-473 | The date is the first 10 characters of `lastSeen`, or "N/A" when it is missing or empty |
| DataRentcast.Rows | data.py:426-477 | One display row per comparable, in order |
| DataRentcast.BuildRow | data.py:427-476 | The row built for one comparable with a non-null formatted address is its display row: price and square footage default to 0, the price per square foot is set only when both are positive, and the address lines follow the comma fallback |
| DataRentcast.BuildRows | data.py:426-477 | The loop gives up exactly when a chosen comparable has a null formatted address, where `split` raises; otherwise it yields one display row per chosen comparable, in the same order |
| DataRentcast.GetRentcastData | data.py:381-499 | The sort, the three-row loop, the second sort and the cut compute exactly the specified estimate |
| DataRentcast.RentcastResult | data.py:381-499 | The specified RentCast estimate: None when disabled, without a key, without a 200 reply, for null comparables, for an unsortable list or for a null formatted address among the three chosen. Its properties are stated in RentcastComparables, RentcastNullScore and RentcastNullMembers |
| DataRentcast.RowsSorted | data.py:479-481 | Rows of sorted comparables are in descending similarity order, so the second sort changes nothing |
| DataRentcast.RentcastComparables | data.py:421-484 | The comparables are the rows of the three most similar comparables: min(3, n) of them, in descending similarity |
| DataRentcast.TopCompsMostSimilar | data.py:422-426 | Every chosen comparable is at least as similar as every comparable left out |
| DataRentcast.RentcastNullScore | data.py:411-499 | For comparables without a null formatted address, the call gives None exactly for a non-200 status or for two or more comparables with a null similarity score among them, where the sort raises |
| DataRentcast.RentcastNullMembers | data.py:419-461 | A null comparables list makes `sort` raise, so the call gives None; a missing one gives no comparables; a null formatted address among the three chosen gives None |
| DataRentcast.FinalRows | data.py:479-484 | The rows of the chosen comparables are already in descending similarity, so the second sort and the cut to five give them back unchanged |
| DataRentcast.RowPpsf | data.py:428-434 | ppsf is 0 unless both price and square footage are positive; then it is the rounded quotient |
| DataRentcast.AddressSplitAtFirstComma | data.py:453-461 | Without an `addressLine1` field and with an empty or absent `addressLine2`, a formatted address containing a comma splits at its first comma into line 1 and the stripped rest |
| DataRentcast.AddressWithoutComma | data.py:453-461 | Without a comma, the whole formatted address (or "Unknown") is line 1 and line 2 is empty |
| DataRentcast.AddressNullLines | data.py:455-461 | A null `addressLine1` is kept as None in the row, and so is a null `addressLine2` when the address has no comma |
| DataRentcast.Line1Fallback | data.py:453-455 | Without an `addressLine1` field, line 1 is the formatted address up to its first comma |
| DataRentcast.Line2Fallback | data.py:456-461 | With an empty or absent `addressLine2` and a comma in the address, line 2 is everything after the first comma, rejoined and stripped |
| StableSort.SortDesc | data.py:422 | The sorted list is in descending key order and is a permutation of the input |
| StableSort.SortDescStable | data.py:422 | Items with equal keys keep their original order |
| StableSort.SortDescSorted | data.py:481 | Sorting a list already in descending order changes nothing |
| Llm.RotateFrom | llm.py:41-64 | The result of `call_with_rotation` from position i on. What it returns and which keys it tries are stated in TriesFrom, EmptyPool, RotationStopsAt, AllQuotaRaisesLast and ReturnedIsFirstSuccess |
| Llm.IsQuota | llm.py:55-56 | Whether an error moves the rotation on: a `ResourceExhausted` error, or a message containing "quota" or "429" in any case. Stated for messages in QuotaMessages |
| Llm.TriesFrom | llm.py:41-63 | A rotation from position i uses at least one and at most the remaining keys |
| Llm.KeyPool.constructor | llm.py:9-10 | The module starts with an empty key list and no configured key |
| Llm.KeyPool.Configure | llm.py:12-32 | An empty input, or one that is neither a string nor a list, returns False and leaves the pool and the configured key as they were. A string becomes a one-key pool, a non-empty list is stored as is, and the first key is configured |
| Llm.KeyPool.CallWithRotation | llm.py:34-64 | The loop ends in the specified rotation result. It uses exactly the keys before the stopping point, in order, leaves the pool unchanged and leaves the last key used configured |
| Llm.EmptyPool | llm.py:41-64 | An empty pool returns None without a single call |
| Llm.NoKeysOnlyWhenEmpty | llm.py:41-64 | A non-empty pool never returns None |
| Llm.RotationStopsAt | llm.py:45-63 | After quota failures only, the first success is returned unchanged and the first non-quota failure is re-raised; no later key is tried |
| Llm.AllQuotaRaisesLast | llm.py:46-60 | When every key fails with a quota-type error, every key is tried and the last key's error is raised |
| Llm.ReturnedIsFirstSuccess | llm.py:41-57 | A returned value is the success of the first key that did not hit its quota |
| Llm.QuotaMessages | llm.py:55-56 | Messages containing "429" or "quota" in any letter case are quota-type |
| Llm.SecondKeyAfterQuota | llm.py:41-57 | Worked example of RotationStopsAt and ReturnedIsFirstSuccess: with two keys and a quota error on the first, the second key's success is returned after exactly two calls |
| Llm.DetectState | llm.py:128-134 | The detected state is the first table name, in order, occurring in the address, or "United States" when none does |
| Llm.CleanFence | llm.py:172 | The reply with every "```json" and "```" removed, then stripped. Its properties are stated in CleanFenceNoFence and CleanFencedBlock |
| Llm.CleanFenceNoFence | llm.py:172 | The cleaned text never contains a code fence |
| Llm.CleanFencedBlock | llm.py:172 | A reply fenced as a JSON code block with no backtick inside cleans to its stripped body |
| Llm.Fallback | llm.py:178-184 | The fallback object has exactly the four keys, score 0, one highlight and two risks |
| Llm.AnalyzeLocation | llm.py:113-184 | The analysis is the parsed reply of the rotation, JSON null for an empty pool, or the fallback on any raised error. The key list is unchanged and the last key tried is the configured one (the old one when no key is tried). The detected state is the first table name occurring in the address, or "United States" when none does |
| Llm.AnalysisFallback | llm.py:169-184 | Any error raised by the call or by parsing yields the fallback, with score 0 |
| Llm.AnalysisFirstKey | llm.py:169-177 | A reply that parses on the first key is returned as parsed |
| App.Rebalance | app.py:109-158 | The weights after one slider moved, one per factor, defined factor by factor. What they satisfy is proved in the Rebalance lemmas below: the total is 100, locked factors keep their weight, and free factors are shared evenly or scaled |
| App.Sliders.constructor | app.py:109-158 | The sliders start from the given weights and locks |
| App.Sliders.UpdateWeights | app.py:109-158 | The slider loops write exactly the specified rebalance and leave the locks unchanged |
| App.RebalanceParts | app.py:119-158 | Every new weight is the changed one, an unchanged locked other, or a free other |
| App.RebalanceChanged | app.py:130-135 | With free partners, the changed weight is 100 minus the locked sum minus what is available to the others |
| App.RebalanceFreeSumEven | app.py:149-153 | Free factors that were all 0 together receive exactly what is available |
| App.RebalanceFreeSumScaled | app.py:154-158 | Scaled free factors together receive exactly what is available |
| App.RebalanceTotal | app.py:110-158 | After a rebalance the weights sum to exactly 100, in every branch |
| App.RebalanceKeepsLocked | app.py:119-158 | Locked factors other than the changed one are never written |
| App.RebalanceOverflow | app.py:130-158 | If the new value plus the locked sum exceeds 100, the changed weight becomes 100 minus the locked sum and every free factor becomes 0 |
| App.RebalanceAlone | app.py:137-144 | With no free partner, the changed weight is forced to 100 minus the locked sum and nothing else changes |
| App.RebalanceEven | app.py:149-153 | Free factors that were all 0 share the remainder evenly |
| App.RebalanceProportional | app.py:154-158 | Otherwise all free factors are scaled by one common ratio, so their proportions are preserved |
| App.RebalanceKeepsChanged | app.py:124-158 | Within the limit and with a free partner, the moved slider keeps its new value |
| App.CountRows | app.py:78-85 | The count never exceeds the number of rows |
| App.CountUsage | app.py:78-103 | The counting loop over the rows after the header computes the specified count |
| App.GetDailyUsage | app.py:67-105 | `get_daily_usage` computes the specified count: from the sheet when it can be read, otherwise from the CSV file (only the rows read before a read error, if one occurs), and 0 without either |
| App.CountRowsAppend | app.py:78-85 | Adding a row adds one exactly when that row counts |
| App.HeaderSkipped | app.py:78-95 | The header row is never counted |
| App.CountedBounds | app.py:79-84 | Rows with fewer than two cells never count, and a row exactly 24 hours old does not count while one a second younger does |
| App.UsageBounds | app.py:74-91 | A readable sheet makes the CSV irrelevant and bounds the count by its data rows; with neither, the count is 0 |
| App.CountRowsMonotone | app.py:96-103 | Counting more rows never lowers the count |
| App.CsvFailureCountsPrefix | app.py:91-105 | A CSV read that fails partway counts exactly the rows read before the error, as a file holding only those rows would, and never more than the whole file |
| App.ParseCurr | app.py:448-451 | `parse_curr` of a metric value, None where the code raises: integers and booleans pass through, falsy values and "N/A" give 0, other strings lose "$" and "," before `int()`, and non-zero floats, lists and dictionaries raise. Stated in ParseCurrDollars, ParseCurrDefaults and ParseCurrNonStrings |
| App.ParseCurrDollars | app.py:448-451 | A dollar amount written with thousands separators parses back to its value |
| App.ParseCurrDefaults | app.py:448-451 | Integers pass through; missing, empty and "N/A" give 0 |
| App.ParseCurrNonStrings | app.py:448-451 | For values other than strings, the result is defined exactly for integers, booleans and falsy values; booleans give 1 and 0, and falsy values give 0 |
| App.ParseCurrText | app.py:450-451 | A string other than "" and "N/A" is parsed by `int()` after removing "$" and "," |
| App.Backfill | app.py:405-414 | The census after the backfill, None where the code raises, including an analysis that is not a dictionary. Stated in BackfillShape, BackfillKeepsCensus, BackfillWithoutEstimate and BackfillNeedsObject |
| App.BackfillShape | app.py:405-414 | After a backfill that does not raise, the census has a 'metrics' key and the source "AI (Estimated)" |
| App.BackfillKeepsCensus | app.py:406 | A census with truthy metrics is left as it is |
| App.BackfillWithoutEstimate | app.py:406-411 | An analysis without 'estimated_census' backfills empty metrics with the estimated source |
| App.BackfillNeedsObject | app.py:405-407 | When a backfill is needed and the analysis is not a dictionary (JSON null from an empty key pool, or a list, string or number), `analysis.get` raises |
| App.BackfilledAnalysis | app.py:403-414 | The analysis kept in the session after the block: a stored estimate holding "metrics" gets the estimated source written into it. Stated in BackfillSharesEstimate |
| App.BackfillSharesEstimate | app.py:403-414 | When the stored estimate holding "metrics" becomes the census, the analysis afterwards holds exactly that census under 'estimated_census' and nothing else in it changes. Otherwise the analysis is untouched |
| ConfigManager.Merge | config_manager.py:55-58 | The defaults updated with the cached object, None when the cache is not an object. Stated in MergeOverrides |
| ConfigManager.GetConfigStep | config_manager.py:37-62 | One `get_config` call as a function of the cache, the file and the clock: the configuration returned and the new cache. Stated in GetConfigHasDefaults, MissingFile, CacheReused, NewerFileReloaded and ReadFailure |
| ConfigManager.Manager.constructor | config_manager.py:21-25 | A new manager starts with an empty cache and times 0 |
| ConfigManager.Manager.GetConfig | config_manager.py:37-62 | The returned configuration and the new fields are exactly the `get_config` step |
| ConfigManager.Manager.SaveConfig | config_manager.py:64-79 | A successful write sets the cache to exactly the new config, records the file's mtime and returns True. A failed write returns False and changes nothing |
| ConfigManager.ManagerClass.constructor | config_manager.py:22 | No instance exists before the first construction |
| ConfigManager.ManagerClass.New | config_manager.py:27-35 | Every construction returns the same instance. The first, and only the first, writes the defaults when the file is absent |
| ConfigManager.GetConfigHasDefaults | config_manager.py:42-62 | Every configuration returned contains every default key, on every path |
| ConfigManager.MergeOverrides | config_manager.py:55-58 | File values override defaults, defaults fill the rest, and extra file keys are kept |
| ConfigManager.MissingFile | config_manager.py:43-44 | A missing file gives a copy of the defaults and leaves the manager untouched |
| ConfigManager.CacheReused | config_manager.py:46-58 | A file no newer than the last load, with a non-empty cache, is not re-read |
| ConfigManager.NewerFileReloaded | config_manager.py:46-58 | A newer file replaces the cache, records its mtime and load time, and is merged over the defaults |
| ConfigManager.ReadFailure | config_manager.py:49-62 | A failed read returns the defaults and keeps the old cache and times |
| ConfigManager.SaveThenGet | config_manager.py:46-79 | After a successful save, reading the same file gives the saved values over the defaults |
| ConfigManager.ExternalEditPickedUp | test_config.py:10-30 | A file rewritten later with a new model name is picked up by the next read |
| PoiMap.CategoryStyle | map.py:36-66 | The style of the first keyword found in the joined, lower-cased categories, or the "Other" style. Stated in FirstKeywordWins, OtherIffNoKeyword and the lemmas after it |
| PoiMap.FirstMatch | map.py:62-66 | The index found is the first keyword, in table order, occurring in the category string, or the table length when none does |
| PoiMap.GetCategoryStyle | map.py:36-66 | The loop with early return gives exactly the specified category style |
| PoiMap.FirstKeywordWins | map.py:45-64 | The style is that of the first keyword, in list order, contained in the joined categories |
| PoiMap.OtherIffNoKeyword | map.py:41-66 | The style is ("📍", "#999999", "Other") exactly when no keyword occurs |
| PoiMap.EmptyCategoriesOther | map.py:41-66 | An empty category list gives the "Other" style |
| PoiMap.SupermarketIsGrocery | map.py:48-55 | "commercial.supermarket" is tested before "commercial", so a supermarket is "Grocery" unless an earlier keyword matches |
| PoiMap.CaseInsensitive | map.py:45 | Lower-casing the categories first changes nothing: matching ignores case |
| PoiMap.PoiStyles | map.py:94-100 | Each point's style comes from its string 'category' when present, else from its 'categories' list |
| PoiMap.GenerateLegend | map.py:78-104 | The legend loop builds exactly the specified legend |
| PoiMap.LegendStartsWithTarget | map.py:91 | The legend opens with "Target Property" → ("🏠", "#1A73E8") |
| PoiMap.LegendShape | map.py:102-104 | No label appears twice in the legend |
| PoiMap.LegendCovers | map.py:100-104 | Every marker's label is in the legend |
| PoiMap.LabelSource | map.py:94-104 | Every label other than the target's comes from some marker |
| PoiMap.LegendFirstStyle | map.py:102-104 | A label's entry holds the style of the first marker producing that label |
| PoiMap.Legend | map.py:78-104 | For real points of interest: the target entry first, distinct labels, every point's label present with the style of the first point producing it |
| AdminPanel.AdminPassword | pages/admin_panel.py:10-11 | The configured secret, or "housmart_admin" without one. Stated in DefaultPassword and Session.Login |
| AdminPanel.Session.constructor | pages/admin_panel.py:13-14 | A fresh session is not authenticated |
| AdminPanel.Session.Login | pages/admin_panel.py:16-24 | The flag is set exactly when the input equals the admin password, and is never cleared |
| AdminPanel.DefaultPassword | pages/admin_panel.py:10-11 | Without a configured secret, exactly "housmart_admin" is accepted |
| AdminPanel.NormalizeModelOptions | pages/admin_panel.py:34-51 | The six built-ins keep their order, and at most the current model is appended. Its index is defined and is its first position |
| AdminPanel.ParseWhitelist | pages/admin_panel.py:136-137 | Commas become newlines, the text is split at newlines, and the non-blank pieces are kept stripped and lower-cased. Stated in ParsedEntriesClean, CommaLikeNewline, CleanEntriesAppend and the round-trip lemmas |
| AdminPanel.ParsedEntriesClean | pages/admin_panel.py:136-137 | Every parsed entry is non-empty, trimmed, lower-case, and free of commas and newlines |
| AdminPanel.CommaLikeNewline | pages/admin_panel.py:136 | Commas and newlines are alike as separators |
| AdminPanel.CleanEntriesAppend | pages/admin_panel.py:137 | Entries are kept in input order: the entries of two runs of pieces are the entries of each, in order |
| AdminPanel.WhitelistRoundTrip | pages/admin_panel.py:111-137 | Parsing the newline-joined stored whitelist gives back the same list |
| AdminPanel.WhitelistIdempotent | pages/admin_panel.py:111-137 | Parsing the stored form of a parsed whitelist gives it back |
| AdminPanel.NewConfig | pages/admin_panel.py:139-150 | The configuration the page saves, one key per form field. Its key set is stated in NewConfigKeys |
| AdminPanel.NewConfigKeys | pages/admin_panel.py:139-150 | The saved configuration has exactly the ten default keys |
| AdminPanel.RootPageConfig | admin_panel.py:65-71 | The root admin page saves only the model name, temperature, scoring flag and cache lifetime. Stated in RootPageSaveResets |
| AdminPanel.RootPageSaveResets | admin_panel.py:65-73 | After the root page saves, the next read gives its four values and exactly the default keys. The whitelist, the daily limit and the four service flags come back as their defaults |
| AdminPanel.RootPageMerged | admin_panel.py:65-73 | The four saved keys laid over the defaults replace only those keys and leave every other default as it is |
| Components.Clamp | components.py:141 | Progress is clamped into [0, 100]: unchanged in range, 0 below, 100 above |
| Components.ClampIdempotent | components.py:141 | Clamping an already clamped value changes nothing |
| Components.ClampMonotone | components.py:141 | Clamping preserves order |
| Components.LoaderHtml | components.py:141-167 | The loader's HTML for a progress value, built around the clamped value. Stated in LoaderShowsProgress and LoaderDeterminesProgress |
| Components.LoaderShowsProgress | components.py:141-167 | The HTML shows the clamped value as the bar width "width: N%;" and in "Analyzing... N%" |
| Components.LoaderDeterminesProgress | components.py:143-167 | Two loaders have the same HTML only for the same clamped progress |
| FixIndent.FixIndentation | fix_indent.py:19-44 | The loop produces exactly the specified rewritten lines |
| FixIndent.FixedShape | fix_indent.py:19-44 | Line count and order are preserved, and each line is kept or prefixed with four spaces |
| FixIndent.IndentedExactly | fix_indent.py:23-44 | A line is indented exactly when the block is open, it neither opens nor closes it, and it is not blank. The next state is open after an opener, or if it was open and the line does not close it |
| FixIndent.MarkersKept | fix_indent.py:23-32 | A qualifying "    else:" line is kept and opens the block; a "with col3:" line is kept and closes it |
| FixIndent.OutsideKept | fix_indent.py:34-44 | Blank lines and lines outside an open block are unchanged |
| FixIndent.InElseIffOpened | fix_indent.py:23-32 | The block is open at a line exactly when an earlier line opened it and no "with col3:" line came after that one |
| FixIndentInner.FindContainer | fix_indent_inner.py:17-28 | The search returns the first qualifying container line, or -1 exactly when none qualifies |
| FixIndentInner.ScanBlock | fix_indent_inner.py:55-95 | The scan passes only blank or deeper-indented lines and stops at the first other line or at the end. It changes no line |
| FixIndentInner.RegionTurn | fix_indent_inner.py:124-176 | One turn of the loop: the flags and the line written are those of the step function, given the flags and the previous line |
| FixIndentInner.RewriteRegions | fix_indent_inner.py:115-176 | The loop produces exactly the specified rewritten lines |
| FixIndentInner.FixInnerIndentation | fix_indent_inner.py:4-179 | Nothing is written exactly when no target container exists; otherwise the file becomes the rewritten lines |
| FixIndentInner.PrevAt | fix_indent_inner.py:134-138 | The state's previous line is the file's `lines[i-1]`, and there is none at the first line |
| FixIndentInner.FixedShape | fix_indent_inner.py:122-176 | Line count and order are preserved, and each line is kept or prefixed with four spaces |
| FixIndentInner.IndentedExactly | fix_indent_inner.py:124-176 | A line is indented exactly when it is non-blank and is none of the marker lines, and either region 1 is open and it is not the summary comment, or only region 2 is open |
| FixIndentInner.MarkersKept | fix_indent_inner.py:128-174 | "RENTCAST INTEGRATION" lines, region-opening container lines, "COLUMN 3: MAP" lines and blank lines are never indented |
| FixIndentInner.RentcastOpens | fix_indent_inner.py:132-137 | A container line right after "RENTCAST INTEGRATION" opens region 1 and leaves region 2 as it was |
| FixIndentInner.SummaryOpens | fix_indent_inner.py:138-142 | A container line right after "AI INSIGHT SUMMARY" closes region 1 and opens region 2 |
| FixIndentInner.SummaryClosesRentcast | fix_indent_inner.py:154-160 | In region 1, an "AI INSIGHT SUMMARY" line closes it and is left as it is |
| FixIndentInner.MapClosesSummary | fix_indent_inner.py:144-148 | A "COLUMN 3: MAP" line closes region 2 and is left as it is |
| FixIndentInner.OutsideKept | fix_indent_inner.py:175-176 | Outside both regions every line is kept |
| FixSummaryIndent.FixAiSummaryIndent | fix_summary_indent.py:25-48 | The loop produces exactly the specified rewritten lines |
| FixSummaryIndent.FixedShape | fix_summary_indent.py:25-48 | Line count and order are preserved, and each line is kept or prefixed with four spaces |
| FixSummaryIndent.IndentedExactly | fix_summary_indent.py:25-48 | A line is indented exactly when it is a summary header at indent 8, or a container line at indent 8 while armed. Only lines with exactly 8 leading whitespace characters ever change |
| FixSummaryIndent.HeaderArms | fix_summary_indent.py:27-34 | Every "AI INSIGHT SUMMARY" line at indent 8 is indented and arms the flag |
| FixSummaryIndent.ContainerDisarms | fix_summary_indent.py:36-42 | A container line at indent 8 is indented only while armed, and leaves the flag disarmed |
| FixSummaryIndent.DriftDisarms | fix_summary_indent.py:45-46 | Any other non-blank line without "st.container" disarms the flag and is kept |
| FixSecrets.Patched | fix_secrets.py:14-37 | The repair of one line. Stated in PasswordReset, DomainRepaired, OthersKept and PatchedIdempotent |
| FixSecrets.PatchedLines | fix_secrets.py:10-37 | One output line per input line |
| FixSecrets.PatchedLineAt | fix_secrets.py:10-37 | Output line k is input line k, patched on its own: order is preserved |
| FixSecrets.PatchLine | fix_secrets.py:14-37 | The line written for one input line is that line, patched |
| FixSecrets.PatchSecrets | fix_secrets.py:10-37 | The loop produces exactly the specified patched lines |
| FixSecrets.PasswordReset | fix_secrets.py:14-17 | Any line whose stripped text starts with "ADMIN_PASSWORD" becomes exactly `ADMIN_PASSWORD = "housmart_admin"` and a newline |
| FixSecrets.DomainRepaired | fix_secrets.py:20-35 | A stripped line starting '"universe_domain"' and containing both "googleapis.com" and "gserviceaccount.com" becomes the clean domain line; other such lines are kept |
| FixSecrets.OthersKept | fix_secrets.py:37 | All other lines are unchanged |
| FixSecrets.PasswordLineFixed | fix_secrets.py:14-17 | The written password line is itself left unchanged by the repair |
| FixSecrets.DomainLineFixed | fix_secrets.py:20-35 | The written domain line is itself left unchanged by the repair |
| FixSecrets.PatchedIdempotent | fix_secrets.py:14-37 | Repairing a line twice equals repairing it once |
| FixSecrets.PatchIdempotent | fix_secrets.py:10-37 | Patching a patched file changes nothing |

## Left out

- Streamlit layout, widgets, reruns and CSS are left out. This covers the page body of app.py, the header and `render_loader` in components.py, and the widget calls in pages/admin_panel.py. The root admin_panel.py has no password gate, and its model-option check is the same as the one in pages/admin_panel.py. Its one piece of logic beyond the widgets is the save. That save writes only four keys, so the whitelist, the daily limit and the four service flags come back as their defaults on the next read. This is modelled by AdminPanel.RootPageConfig and AdminPanel.RootPageSaveResets.
- Network calls are inputs. The replies of Geoapify, the Census geocoder, the FCC block finder, the ACS API, RentCast and Gemini are datatypes or functions given to the model. Timeouts and HTTP details are not modelled.
- The random mock POIs in `get_poi`, `get_nearby_schools_data`, supabase_utils.py, auth.py, email_utils.py, viz_utils.py, the debug and live-API test scripts, and `get_available_models` are not part of this model. They are I/O or presentation.
- The prompt text sent to the model is not modelled. The detected state only selects the benchmarks quoted in it. Llm.AnalyzeLocation: errors raised before the rotation also end in the fallback, since the whole body is inside one `try` (llm.py:122-184). These are a failure to build the model object, a failure of `get_state_benchmarks`, and the prompt's `:,` format applied to a benchmark that is not a number. The model does not produce them, because the prompt and the benchmarks are left out.
- The `state_data` module is not part of this model. Its state-name order and `get_state_benchmarks` are parameters.
- Floating point is not modelled:
  - `float()` of an ACS cell is a parameter;
  - `round(price / sqft, 2)` is the parameter `round2`;
  - slider weights are exact `real`s, as the rebalancing intends.
- DataRentcast.Row: `daysOld` is not modelled. Date parsing and the current clock are left out.
- `strptime` is a parameter, and usage timestamps are integer seconds.
- File reads and writes are abstract. The config file is a state (present, mtime, contents), and a write either fails or succeeds with a new mtime. The maintenance scripts are functions from input lines to output lines. Their messages and exception printing are left out.
- App.Backfill: the census and the stored estimate are one dictionary when the estimate holds "metrics". The model returns the census and the updated analysis as two values (BackfilledAnalysis), so a later change to one object showing in the other is not captured.
- Llm.KeyPool.Configure: `configure_genai` keeps the caller's list object itself, while the model stores its value. No code changes that list afterwards, so the two agree.
- ConfigManager.Manager.SaveConfig: a failed write leaves the file as it was. A partially written file is not modelled.
- ConfigManager.Merge: a cache that is not a JSON object makes `dict.update` raise, and `get_config` then returns the defaults. This is modelled as None from `Merge`; the precise Python acceptance of lists of pairs is not modelled.
- Lower-casing is ASCII-only (`str.lower` on other scripts is not modelled), and whitespace follows Python's `str.isspace`.
- App.ParseCurr: floats are exact reals. A non-zero float is taken to raise without building its `str()` text, which always holds a '.', an 'e' or a letter of "inf"/"nan".
- App.ParseCurr: `int(str)` strips surrounding whitespace and accepts an optional sign and ASCII decimal digits. Underscores between digits and non-ASCII digits are not modelled.
- PoiMap.PoiCategories: a 'categories' value that is not a list of strings, the folium markers, tooltips and the map's HTML are not modelled.
- PoiMap.LegendOf: the legend is a sequence of entries in insertion order, which is how a Python dict iterates.
- DataRentcast.RentcastResult: each comparable is taken to be an object with numeric `price`, `squareFootage` and `similarityScore` and a string `lastSeen`. An element that is not an object (JSON null, a string) would make the sort key raise and the call return None; the model cannot express one.
- DataRentcast.SortedComps: `list.sort` works in place; the model sorts a value with a stable insertion sort. A stable sort's result is unique, so the order is exact.
- FixIndentInner.FixInnerIndentation: the container index and the scan position are only printed, and the rewrite does not depend on them.
- JSON `null` is told apart from a missing field for `formattedAddress`, `addressLine1`, `addressLine2` and `comparables`, where the code's behaviour differs. For `price`, `squareFootage` and `lastSeen` it is folded into "missing", because `or 0` and the truthiness test treat both alike.
