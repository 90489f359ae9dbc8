# Frame request compiler: a Dafny model

This project models the core of a service that turns a drilling-telemetry
frame request into an XML frame document. A request names downhole tools with
their firmware versions, six framesets (FSL1 to FSL6) and a utility frame, each
listing data points by name. The core does the following:

- **Catalog.** It reads tools and data points from a versioned catalog. The
  catalog is one SQLite file per HSPM version label.
- **Tools.** It resolves the tools and their versions and sizes, and updates
  the DDR spacing of the tools when DDR-BHA mode is on.
- **Rule engine.** It rewrites each list of data-point names with a fixed table
  of compatibility rules. These rules cover toolface substitution, shadowed
  names, SCLP, AET, RBIT and per-tool drop tables.
- **Assembly.** It looks the rewritten names up in the catalog and assembles a
  frame request. The request has six framesets, the utility frame, and the
  optional DDS, ODF and MODF frames.
- **Reconciliation.** It hands the request to an external frame packer and
  folds the packer's corrected rates and update times back into the framesets.
- **Export.** It converts the result into an element tree (`convert_to_xml`).
- **Request lifecycle.** It files every outcome in a per-catalog store keyed by
  request uid. A request that arrives again is answered from the store. A
  recorded failure is reported once and then cleared.

Everything is modelled with immutable values:

- **Python values.** Request values are Python scalars (`Scalar`). `int()`,
  `float()` and truthiness are written out in Dafny, and errors carry Python's
  exception kinds and messages.
- **External pieces.** These are parameters of the model:
  - the catalogs;
  - the frame library (`get_frames.py`);
  - the packer;
  - the document signer;
  - the byte rendering of the element tree.
- **Process state.** The process's globally selected catalog and the store
  files make up a `World` value. Each request maps one `World` to the next.

Modules follow the program:

| module | models |
|---|---|
| `Wrappers` | `Option`, `Result`, and the Python exception kinds |
| `Text` | the string functions the code relies on |
| `Seqs` | the list idioms the code relies on |
| `Models` | `models/models.py`: data points, tools, framesets, the utility frame and their identity |
| `VersionMap` | `hspm_version_mapper.py` and how a label picks a catalog |
| `Catalog` | the catalog queries of `utils/db_managment.py` |
| `Rules` | the rule engine, `utils/utility.py` |
| `Resolver` | data-point resolution, overrides and ordered lookup |
| `ToolResolver` | tool, version and size resolution, and DDR updates |
| `Request` | the raw request and its frameset slots |
| `Framesets` | frameset construction and `update_fsl` / `update_utility` |
| `FrameLibrary` | ODF and MODF frame selection |
| `Reconcile` | reading the packer's answer back into the framesets |
| `Assembly` | the body of `main` up to the packer |
| `Export` | `convert_to_xml` |
| `Store` | `SQLHandler`'s uid store and `retry_on_lock` |
| `Service` | `request_frames` in `main.py`, and `main`'s filing of its result |

Where the prose description and the code disagree, the model follows the code.
The request lifecycle (`Service`) is the exception: it runs on the corrected
assembly of Findings 1 and 2, as "## Left out" records.
The tool list comes out in catalog query order, not in the order the request
names the tools.

## Model

| member | source | states |
|---|---|---|
| Models.CoerceInt | models/models.py:40-48 | a column that arrives as text is read with `int()`, a numeric one is kept as it is |
| Models.CoerceBool | models/models.py:44-45 | a textual flag becomes `bool(int(s))`: it fails exactly when `int()` fails, and is true exactly when the number is non-zero |
| Models.MakeDPoint | models/models.py:31-48 | the constructor succeeds exactly when id, length, flag and address all convert; the point then holds the converted values and no time or depth override; a bad id raises the id's error |
| Models.MakeTool | models/models.py:97-111 | the constructor succeeds exactly when flag and address convert; version is kept, size, spacing and block size start empty; a bad flag raises first |
| Models.PointEqualityFields | models/models.py:51-59 | two points are equal exactly when name, id, address, flag and length agree |
| Models.PointEqualityIgnoresOverrides | models/models.py:51-59 | changing description, time or depth never changes equality |
| Models.PointNeverEqualsOthers | models/models.py:52-53 | a point never equals a tool or any other object |
| Models.PointEqualityEquivalence | models/models.py:51-59 | point equality is reflexive, symmetric and transitive |
| Models.EqualPointsHashEqual | models/models.py:61-64 | equal points hash equal, for any tuple hash |
| Models.ToolEqualityFields | models/models.py:113-121 | two tools are equal exactly when id, display name, address, flag and suffix agree |
| Models.ToolEqualityIgnoresConfiguration | models/models.py:113-121 | version, size, spacing and block size never affect tool equality |
| Models.ToolNeverEqualsOthers | models/models.py:114-115 | a tool never equals a point or any other object |
| Models.EqualToolsHashEqual | models/models.py:123-126 | equal tools hash equal, for any tuple hash |
| Models.FloatField | models/models.py:174-182 | an FSL rate given as text is read with `float()`; null and numbers pass through |
| Models.IntegralField | models/models.py:210-214 | a UTILITY rate given as text is read with `int()`; null and numbers pass through |
| Models.MakeFsl | models/models.py:156-182 | the FSL constructor succeeds exactly when rop, bitrate and both update intervals convert, reports the rop error first, keeps the three point lists and the 10/50/165 bound defaults |
| Models.MakeUtility | models/models.py:205-214 | the UTILITY constructor succeeds exactly when rop and bitrate convert with `int()`, reports the rop error first, and keeps the point list |
| Models.FractionalRateSplitsFslAndUtility | models/models.py:174-214 | a fractional rate such as "1.5" builds an FSL and is refused by UTILITY |
| Models.NewFrameRequest | models/models.py:249-269 | a new request holds the six framesets and the utility, one frameset shown, no frames, no tools, no flags, and the 2025 catalog as its HSPM file |
| VersionMap.MappedCatalog | utils/utility.py:673 | a label finds a catalog file exactly when it is one of the five mapped labels, and every file it finds has a QC entry |
| VersionMap.StoreFor | main.py:30-31 | a mapped label files the request under its catalog file, anything else (unknown, missing or null) under `default_db` |
| VersionMap.QcVersion | utils/export_to_fbw.py:238 | a known catalog file gets its own shared-rules version, any other file `TnAShared2023_1_001` |
| VersionMap.FiveLabels | hspm_version_mapper.py:1-7 | exactly the five labels HSPM 2022.1 to 2026.0 are mapped |
| VersionMap.MapIsInjective | hspm_version_mapper.py:1-7 | distinct labels select distinct catalog files |
| VersionMap.MappedValuesAreQcKeys | hspm_version_mapper.py:1-16 | every catalog file a label maps to has its own QC entry, so a mapped label never falls back to the default QC version |
| VersionMap.DefaultCatalogQc | hspm_version_mapper.py:10-16 | the 2025 catalog, a request's default, exports QC version `TnAShared2025_1_004` |
| Catalog.JoinOne | utils/db_managment.py:261-264 | the rows one catalog point contributes are exactly its joins with tools at its address, when address and name are both requested |
| Catalog.Join | utils/db_managment.py:261-264 | the inner join yields exactly the point/tool pairs that share an address and pass both `IN` filters, each carrying the tool's MWD flag |
| Catalog.SortByName | utils/db_managment.py:265 | the result is ordered by name and is a rearrangement of the input |
| Catalog.SelectDPoints | utils/db_managment.py:253-274 | the selected points are ordered by name, are a rearrangement of the filtered join, contain exactly the joined pairs, and carry requested names and addresses with no time or depth |
| Catalog.MaxVersion | utils/db_managment.py:297-311 | a tool without version rows has no version; otherwise the version is one of its rows and no row of that tool is greater |
| Catalog.RequestedRows | utils/db_managment.py:284 | exactly the tool rows whose display name is among the requested names are kept; a null name matches nothing |
| Catalog.ToolsOf | utils/db_managment.py:281-283 | each kept row becomes one tool whose version is the greatest of its version rows |
| Catalog.SelectTools | utils/db_managment.py:277-294 | the tools are exactly the requested rows with their greatest versions, each listed once |
| Rules.DisplayNames | utils/utility.py:48 | the display names of the tools, one per tool, in order |
| Rules.FirstMp3 | utils/utility.py:76 | the first MP3 tool in tool order; `StopIteration` exactly when there is none |
| Rules.TfRule | utils/utility.py:51-53 | with an RTA or CLNK tool and a `TF_b` request, one `TF_b` is exchanged for `TFHI_b`; otherwise the list's contents are unchanged |
| Rules.DropShadowed | utils/utility.py:55-74 | one copy of the victim goes exactly when it and one of its shadowing names are present |
| Rules.SclpRule | utils/utility.py:76-78 | a `CS3PK_H_mp` request fails with `StopIteration` exactly when no MP3 tool exists; `SCLP_mp` is added once when the MP3 version is 7.7, 8.4, 8.5 or 8.7 and it is not there yet |
| Rules.AetRule | utils/utility.py:80-86 | a `CSSTAT_mp` request fails exactly when no MP3 tool exists; `AET_mp` is added once for MP3 versions 8.5/8.7 with sizes 8.25, 6.75 or 9.0 when it is not there yet |
| Rules.RbitRule | utils/utility.py:109-111 | `O_RBIT_gvr` is exchanged for `RESBIT_gvr` when present; otherwise nothing changes |
| Rules.DropTableShape | utils/utility.py:55-74 | the seven drop rules have distinct victims and no rule's victim shadows another, so they commute |
| Rules.DropsCount | utils/utility.py:55-74 | after all drop rules, each name has lost exactly one copy if its rule fired on the input, none otherwise |
| Rules.LateNamesDistinct | utils/utility.py:51-111 | the names the MP3 and RBIT rules test are untouched by the TF and drop rules |
| Rules.TfThenDrops | utils/utility.py:51-74 | the TF rule never changes which drop rules fire, so the early rules' counts add up |
| Rules.EarlyCount | utils/utility.py:51-74 | the count of each name after the TF and drop rules, in terms of the input alone |
| Rules.EarlyUnchanged | utils/utility.py:51-74 | a name the early rules do not touch keeps its count and its presence |
| Rules.Stages | utils/utility.py:51-111 | a successful rule run is the TF and drop rules, then SCLP, then AET, then RBIT, each on the previous result |
| Rules.LateConditions | utils/utility.py:76-111 | the SCLP, AET and RBIT conditions, evaluated on the partly rewritten list, have the values they have on the input |
| Rules.RulesCounts | utils/utility.py:51-111 | the rules fail with `StopIteration` exactly when a MP3-dependent name is requested without an MP3 tool; otherwise each name's count is its input count minus what the rules drop plus what they append |
| Rules.RulesKeepOthers | utils/utility.py:51-111 | names no rule touches come out in the same order and number as they went in |
| Rules.RulesFailure | utils/utility.py:76-86 | the rules fail exactly when `CS3PK_H_mp` or `CSSTAT_mp` is requested and no tool is an MP3 |
| Rules.RulesErrorIsStop | utils/utility.py:76-86 | the only failure is `StopIteration` from the MP3 lookup |
| Rules.RulesIgnoreOrder | utils/utility.py:51-111 | two requests with the same names in different orders fail together and otherwise give the same names in the same numbers |
| Resolver.Ltbs | utils/utility.py:120 | the tools' bus addresses, one per tool, in order |
| Resolver.OverrideOne | utils/utility.py:133-140 | a point keeps its identity and description; its time becomes the `float()` of a listed time override when that converts; its depth becomes the `float()` of a truthy depth override unless the time override failed to convert |
| Resolver.ApplyOverrides | utils/utility.py:131-140 | with no overrides at all the points are returned as they are; otherwise each point is overridden on its own, and the count never changes |
| Resolver.OverridesKeepIdentity | utils/utility.py:131-140 | every overridden point still equals the catalog point it came from, and the name order survives |
| Resolver.OverridesIdempotent | utils/utility.py:131-140 | applying the same overrides twice gives what applying them once gives |
| Resolver.OverridesKeepPlace | utils/utility.py:131-140 | overrides never invent a point: each result shares name and address with an input point |
| Resolver.GetDPointList | utils/utility.py:19-142 | the list fails with `StopIteration` exactly when an MP3-dependent name meets no MP3 tool; otherwise it is the catalog selection for the rewritten names and the tools' addresses, point for point, ordered by name, with the time and depth overrides that apply |
| Resolver.JoinBySet | utils/db_managment.py:261-264 | the join depends only on which names are requested, not on their order or repetition |
| Resolver.GetDPointListIgnoresOrder | utils/utility.py:19-142 | two name lists with the same names in the same numbers give the same data point list |
| Resolver.FirstNamed | utils/utility.py:185 | the first selected point with the name, `StopIteration` exactly when none has it |
| Resolver.PickEach | utils/utility.py:184-187 | one point per requested name, in request order, or `StopIteration` when a name has no point |
| Resolver.FoundIffAvailable | utils/utility.py:170-185 | a requested name is found in the selection exactly when the catalog holds a point of that name at the address of a catalog tool that is among the request's tools |
| Resolver.GetOrderedDPointList | utils/utility.py:144-189 | succeeds exactly when every name is available for the tools, then yields one point per name in request order, each the first catalog match, at one of the tools' addresses, with no overrides |
| ToolResolver.DigitRun | utils/utility.py:216 | the longest run of digits starting at a position: all digits, and the next character is not one |
| ToolResolver.SpaceRun | utils/utility.py:248 | the longest run of regex whitespace (`\s`) starting at a position |
| ToolResolver.Search | utils/utility.py:216-249 | `re.search`: a match is found exactly when the pattern matches at some position, and the one reported is at the leftmost such position |
| ToolResolver.LwdVersionRoundTrip | utils/utility.py:216-218 | a version text `v<major>.<minor>` yields `<major>.<minor>` |
| ToolResolver.MwdVersionRoundTrip | utils/utility.py:248-251 | a version text `v`/`V`, optional spaces, then a major number yields the major number followed by `0`, whatever follows |
| ToolResolver.FirstVersion | utils/utility.py:214-220 | the first entry with the tool's name whose version text is null or matches decides: null raises `TypeError`, a match gives its version; with no deciding entry the version is None |
| ToolResolver.LwdVersionExample | utils/utility.py:214-218 | ECO reported as `v7.1` has LWD version `7.1` |
| ToolResolver.MwdVersionExample | utils/utility.py:246-251 | IMP reported as `v 16.0` has MWD version `160` |
| ToolResolver.UnnamedToolHasNoVersion | utils/utility.py:214-220 | a tool no entry names has no version |
| ToolResolver.GetSize | utils/utility.py:256-277 | the collar size is always one of 4.75, 6.75, 8.25 and 9.0 |
| ToolResolver.GetSizeMonotone | utils/utility.py:270-277 | a larger section never gives a smaller collar size, and the thresholds 7.5, 10 and 15 fall into the lower class |
| ToolResolver.GetSizeExamples | utils/utility.py:270-277 | sections 7, 8, 12 and 16 get collar sizes 4.75, 6.75, 8.25 and 9.0 |
| ToolResolver.ResolveTool | utils/utility.py:320-339 | a resolved tool keeps its identity; an MWD tool takes its reported major version plus 0 (80 becomes 100 for DVDXTTOOL), else the catalog's greatest version as text, possibly "None"; an LWD tool takes its reported version and the collar size for the section; a null version raises `TypeError` |
| ToolResolver.ResolveAll | utils/utility.py:320-341 | every tool resolved in order, or the `TypeError` of a null reported version |
| ToolResolver.EntryNames | utils/utility.py:310 | the names of the tool entries, one per entry, in order |
| ToolResolver.GetToolsList | utils/utility.py:280-341 | the tools are the catalog tools the entries name, with the greatest catalog version, each resolved in catalog order; every one is named by some entry |
| ToolResolver.DdrUpdated | utils/utility.py:368-380 | a DDR update never changes a tool's identity |
| ToolResolver.LastFromCons | utils/utility.py:366-372 | the DDR1 version a DDRT tool sees is the version of the last DDR1 tool before it, or "" when none precedes it |
| ToolResolver.DdrLoop | utils/utility.py:368-380 | each tool is updated with the version of the last DDR1 tool before it in the list |
| ToolResolver.UpdateDdrTools | utils/utility.py:344-380 | DDR1/2/3 tools take spacing and block size from the matching fsl1 fields, DDRT tools take the last preceding DDR1 version; a null fsl1 with any DDR1/2/3 tool raises `AttributeError`; identities and order never change |
| Framesets.UpdatesMap | utils/utility.py:410-411 | the override map has exactly the names the items list |
| Framesets.UpdatesMapLastWins | utils/utility.py:410-411 | when a name is listed more than once, the last item's update is the one kept |
| Framesets.Rate | utils/utility.py:431-452 | which names each rate rule times: the seven NMR block names and the projection name for NMR, the TF, TF-source and raw TF names for MTF, `gtf`/`gtfs` for GTF |
| Framesets.Assign | utils/utility.py:431-452 | assigning a rule's rates over a list keeps every earlier override and adds exactly the listed names the rule times |
| Framesets.AssignValues | utils/utility.py:431-452 | a listed timed name gets the rule's rate, every other earlier override keeps its value |
| Framesets.Lazily | utils/utility.py:442-452 | `int()` of the TF interval is evaluated, and can fail, only when a listed name needs it |
| Framesets.NmrStage | utils/utility.py:431-436 | with a truthy NMR interval each NMR-timed rotary name is timed at 1.15 times the interval (4 times for the projection name); a non-numeric interval fails only when such a name is listed |
| Framesets.FilterLoopOnce | utils/utility.py:440-448 | the MTF loop drops `mtf`/`mtfs` exactly when some raw TF name is requested |
| Framesets.TfStage | utils/utility.py:440-452 | MTF and GTF names are timed with the TF interval (raw TF names at four times it); a non-numeric interval fails exactly when some name needs it |
| Framesets.OrDefault | utils/utility.py:490-495 | a falsy spacing or block size falls back to its default |
| Framesets.RequestedMtf | utils/utility.py:440-448 | the MTF names sent to the resolver: `mtf`/`mtfs` are gone when a raw TF name is present, and every other name is kept |
| Framesets.ResolvedIdentities | utils/utility.py:454-477 | each frame resolved from a list is the catalog selection for that list, point for point |
| Framesets.RemovedNamesKeepCatalogTime | utils/utility.py:467-477 | the three skipped generator names never get a time override in the rotary frame |
| Framesets.TimeUpdate | utils/utility.py:410-452 | the time overrides are the request's own, then the NMR rates, then the TF and GTF rates, and a bad NMR interval fails first |
| Framesets.GetFslData | utils/utility.py:383-505 | JSON errors are reported in MTF, GTF, ROT order; each frame is the resolution of its list with the computed overrides, the rotary one without the skipped names; max bounds is 70 exactly for a raw TF frame with fewer than 20 MTF points; spacing and block sizes default to 2/100, 2/200, 2/300; rates go through the FSL constructor |
| Framesets.NameFromRequest | utils/utility.py:51-111 | a name no rule touches is in the rewritten list exactly when it was requested |
| Framesets.ResolvedTime | utils/utility.py:131-137 | a resolved point whose name has a numeric time override carries that time |
| Framesets.TfTime | utils/utility.py:440-447 | every requested TF-timed MTF name is overridden with the TF interval, four times it for raw TF names |
| Framesets.TfPointTime | utils/utility.py:440-459 | every TF-timed point of the MTF frame carries the TF interval, four times it for raw TF points |
| Framesets.TfIntervalReachesMtf | utils/utility.py:440-459 | in a built frameset, TF and TF-source points of the MTF frame carry the TF interval and raw TF points four times it |
| Framesets.TimedNamesUntouched | utils/utility.py:51-111 | no name the interval rules time is rewritten by the data point rules |
| Framesets.NmrTime | utils/utility.py:431-436 | every requested NMR-timed rotary name ends with 1.15 times the NMR interval, four times it for the projection name, even after the TF stage |
| Framesets.NmrTimeForRotary | utils/utility.py:431-477 | the NMR rates survive the removal of the skipped generator names |
| Framesets.ResolvedFromRequest | utils/utility.py:51-142 | a resolved point whose name no rule touches was requested |
| Framesets.NmrPointTime | utils/utility.py:431-477 | every NMR-timed point of the rotary frame carries the NMR rate |
| Framesets.NmrIntervalReachesRotary | utils/utility.py:431-477 | in a built frameset, NMR block points carry 1.15 times the interval and the projection point four times it |
| Framesets.Slots | utils/utility.py:526-527 | the six frameset slots `fsl1` to `fsl6`, in order |
| Framesets.Collect | utils/utility.py:526-533 | the concatenation of the decoded lists of the filled slots; the first slot whose JSON fails decides the error |
| Framesets.GetFramesetTools | utils/utility.py:508-533 | the tool entries are exactly those of the filled slots' TOOLS lists, and any undecodable list fails |
| Framesets.GetFramesetUtilityDPoints | utils/utility.py:536-561 | the utility names are exactly those of the filled slots' UTIL lists, each once; any undecodable list fails |
| Framesets.UtilityOrderIrrelevant | utils/utility.py:536-561 | the order in which the set of utility names comes out never changes the resolved data point list |
| Framesets.AnsweredRop | utils/utility.py:589 | an answer's parameters give its ROP, or keep the current one when they carry none; a null parameters object, or none with a numeric current ROP, raises `AttributeError` |
| Framesets.Reordered | utils/utility.py:590-592 | an answered list is resolved in its own order; an unanswered one re-resolves the current points, which succeeds only when there are none |
| Framesets.UpdateFsl | utils/utility.py:564-594 | the frameset takes the answered ROP and the three answered frames in the answered order and nothing else changes; a bad ROP fails first, a missing point with `StopIteration` |
| Framesets.UpdateUtility | utils/utility.py:597-613 | the utility frame becomes one point per answered name in order, or `StopIteration` when one is missing; description and rates are kept |
| Framesets.UpdateFslIdempotent | utils/utility.py:564-594 | folding the same complete answer in twice gives what folding it once gives |
| Request.Loads | utils/utility.py:413-415 | `json.loads`: a missing field raises `TypeError` with the NoneType message, malformed text raises `ValueError`, and decoded text gives its value |
| Request.SlotDict | utils/utility.py:696-698 | `data.get("fsl1", {})`: a null slot raises `AttributeError` on `.get`, an absent one reads as empty, a filled one as its fields |
| Request.SlotAt | utils/utility.py:527 | slots past those the request carries read as absent |
| Reconcile.Answers | utils/utility.py:766-800 | the answer for each of the request's framesets, absent where the generator gave none |
| Reconcile.LastTruthyIndex | utils/utility.py:759 | the position of the last non-empty message of a frameset, or -1 when all are empty |
| Reconcile.LastTruthy | utils/utility.py:759 | the message the comprehension keeps for a frameset: none exactly when all are empty, otherwise the last non-empty one |
| Reconcile.FlattenErrors | utils/utility.py:759 | the error map is empty exactly when no frameset has a non-empty message; it pairs each failing frameset with its last non-empty message |
| Reconcile.SingleErrorReport | utils/utility.py:806-810 | one failing frameset is reported as its upper-cased name, a colon and its message |
| Reconcile.StatusRop | utils/utility.py:768 | the status check reads the answered ROP, none when it is absent, and raises `AttributeError` when the answer has no parameters object |
| Reconcile.FoldOne | utils/utility.py:766-770 | an absent answer keeps the frameset; a present one fails if the status check or the update fails, otherwise gives the updated frameset and marks it changed exactly when the answered ROP differs from the requested one |
| Reconcile.Folded | utils/utility.py:765-800 | folding answers in order: the first failure stops the fold, otherwise all values in order and a change mark when any answer changed |
| Reconcile.FoldAll | utils/utility.py:765-800 | all six framesets folded in order; the first failing one decides the error, otherwise each frameset is its fold and the change mark says some answered ROP differed |
| Reconcile.UtilityNames | utils/utility.py:802 | the answered utility names; a null utility object raises `AttributeError`, an absent one gives no names |
| Reconcile.FoldUtility | utils/utility.py:802-804 | an empty name list keeps the utility frame; otherwise the frame becomes one point per answered name in order, description and rates kept |
| Reconcile.ReconcileAnswer | utils/utility.py:759-814 | any non-empty generator error fails the request with the joined report; otherwise the status is 209 exactly when some answered ROP differs from the requested one, else 200; unanswered framesets stay as they were, answered ones are updated, and nothing but framesets and utility changes |
| Reconcile.Reconciled | utils/utility.py:763-804 | an error-free answer folded into the request, with status 200 or 209 |
| FrameLibrary.OdfStepMembers | utils/utility.py:718-724 | one merge step keeps the list so far as a prefix and adds exactly the names of the tool's entry |
| FrameLibrary.UnionFold | utils/utility.py:716-724 | the merged list holds exactly the names of the starting list and of every entry, and starts with the starting list |
| FrameLibrary.OdfEntries | utils/utility.py:717 | each tool's ODF entry for its id and version, empty when the library has none |
| FrameLibrary.Odf | utils/utility.py:715-724 | the ODF name list holds exactly the names of the tools' library entries |
| FrameLibrary.OdfLedByFirstEntry | utils/utility.py:718-724 | the first tool with a non-empty entry contributes its whole entry, in order, at the head of the list |
| FrameLibrary.OdfAsWrittenLeaks | utils/utility.py:715-724 | the loop as written adopts the library's own list and appends to it, so a second request with only the first tool also gets the second tool's names, where the copying version gives only the first tool's |
| FrameLibrary.FirstModf | utils/utility.py:731-738 | the MODF sets of the first tool with a non-empty library entry, none when no tool has one |
| Assembly.NextSelected | utils/utility.py:670-675 | a mapped HSPM label selects its catalog file for this and later requests; any other label leaves the selection as it was |
| Assembly.SectionSizeIgnoresInches | utils/utility.py:659 | a section size with a trailing `in` reads as the same number without it |
| Assembly.FirstMwd | utils/utility.py:660 | the position of the first MWD tool, none exactly when no tool is MWD |
| Assembly.FirstMwdByIdentity | utils/utility.py:660-668 | the DDR update cannot change which tool is the first MWD tool |
| Assembly.ToolsStage | utils/utility.py:659-668 | tool errors come first; a tool list without an MWD tool raises `ValueError`; with a truthy `ddr_bha` the DDR update is applied, otherwise the resolved tools are used as they are, in the same order and identities |
| Assembly.BuildFsls | utils/utility.py:684-689 | the six framesets built in order, a default FSL for each empty slot; the first failing slot decides the error |
| Assembly.EmptySlotsGiveDefaults | utils/utility.py:684-689 | an empty slot gives the default FSL and a filled one its parsed frameset |
| Assembly.UtilityOf | utils/utility.py:695-700 | the utility frame is the data point list of the union of the UTIL lists with no overrides, described like fsl1; a null fsl1 raises `AttributeError` |
| Assembly.RequestStage | utils/utility.py:679-703 | the request holds the six framesets, `int(num_of_fsl)`, ODF off, MODF/provision/DDR flags true exactly for the string "true", the utility frame, the tools and the selected catalog; frameset errors come before the frameset-count error |
| Assembly.CapPoints | utils/utility.py:709-710 | every frameset's point cap becomes 333 and nothing else changes |
| Assembly.DdsStage | utils/utility.py:707-710 | only a ROSTOOL MWD tool gets a DDS frame: its library list resolved in order, with every cap at 333; a version the library lacks raises `TypeError` |
| Assembly.OdfStage | utils/utility.py:725-727 | a non-empty ODF list turns ODF on and resolves the list in order, failing exactly when a name is unavailable; an empty one changes nothing |
| Assembly.OrderedSets | utils/utility.py:735-736 | each MODF set resolved in order, failing with `StopIteration` exactly when some set has an unavailable name |
| Assembly.ModfStage | utils/utility.py:731-738 | with MODF on, the resolved sets of the first tool with a library entry are appended after the existing MODF frames; with it off nothing changes |
| Assembly.FramesStage | utils/utility.py:707-738 | ROSTOOL caps the framesets at 333 points, DVDXTTOOL caps the shown framesets at 3 and keeps a smaller count, ODF is on exactly when the library lists ODF names; tools, utility and catalog are kept |
| Assembly.AssembleFrom | utils/utility.py:659-814 | a tool error is the request's error; a successful request carries the resolved tools, six framesets, the selected catalog and status 200 or 209 |
| Assembly.Assemble | utils/utility.py:659-814 | the catalog selection is updated from the request's label before the tools are resolved against it, and a successful request is filed under that catalog with status 200 or 209 |
| Assembly.AssembleAsWritten | utils/utility.py:659-675 | as written, tools are resolved against the catalog selected before the request, and a tool failure leaves that selection in place |
| Assembly.StaleCatalogLosesMwd | utils/utility.py:659-675 | a request whose MWD tool exists only in its own catalog fails as written with "MWD tool is missing" while the corrected order finds the tool |
| Export.Frame | utils/export_to_fbw.py:106-134 | a frame element has one `DataPoint` child per point, in order, whose `ID` reads back as the point's id; an empty frame carries the text " " |
| Export.FramesDistinguishPoints | utils/export_to_fbw.py:113-114 | two frames whose points differ in id at some position are different elements |
| Export.CheckStatus | utils/export_to_fbw.py:102 | a frameset is "Checked" exactly when all three of its frames are non-empty, "Empty" otherwise |
| Export.FslElement | utils/export_to_fbw.py:91-134 | the i-th frameset element is described `FSL-<i+1>`, carries the frameset's notes, rates and check status, and holds its MTF, GTF and rotating frames in that order |
| Export.SettingAttrs | utils/export_to_fbw.py:57-63 | a tool element always names the tool id, and carries version, size and spacing exactly when they are truthy |
| Export.BlockAttrs | utils/export_to_fbw.py:64-76 | a block size adds the four block-size attributes with its value, four `DataComp` attributes "false" and four `CompDis` attributes "0", and keeps the rest |
| Export.KeysApart | utils/export_to_fbw.py:57-76 | the setting, block-size, `DataComp` and `CompDis` attribute names are pairwise distinct |
| Export.ToolElement | utils/export_to_fbw.py:56-76 | a tool element with no children: the tool id, version, size and spacing when truthy, and with a truthy block size the twelve block attributes |
| Export.BhaElement | utils/export_to_fbw.py:54-76 | the BHA holds one tool element per tool, in tool order |
| Export.ShownCount | utils/export_to_fbw.py:78-89 | an SPTOOL run shows one frameset, a DVDXTTOOL run three, any other six |
| Export.LwdIndex | utils/export_to_fbw.py:197-202 | the first tool whose display name is ARC6 or ECO, none exactly when no tool has one of those names |
| Export.ModfSetElement | utils/export_to_fbw.py:190-230 | the MODF set carries the LWD tool's address and one `MODF` frame per set, named `ECO APPO2 MODF<i>` when an ECO tool is present and `ARC6 APPO MODF<i>` otherwise |
| Export.QcOf | utils/export_to_fbw.py:238 | the QC version of a known catalog file, the default version otherwise |
| Export.FslElements | utils/export_to_fbw.py:91-134 | the first n frameset elements, in order |
| Export.DdsPart | utils/export_to_fbw.py:136-150 | a DDS frame element exactly when the request has DDS points |
| Export.OdfPart | utils/export_to_fbw.py:170-188 | an ODF element exactly when the MWD tool is not SPTOOL, "Checked" exactly when it has points |
| Export.ModfPart | utils/export_to_fbw.py:190-230 | a MODF set exactly when the MWD tool is not SPTOOL and MODF frames exist; with no ARC6 or ECO tool that case raises `StopIteration` |
| Export.Head | utils/export_to_fbw.py:54-134 | the run starts with the BHA, then the shown frameset elements in order |
| Export.Tail | utils/export_to_fbw.py:152-243 | the run ends with the utility frame, the optional ODF and MODF parts, the custom rule file and the QC element, in that order |
| Export.Children | utils/export_to_fbw.py:54-243 | the run's children are the head, the optional DDS frame, then the tail |
| Export.ConvertToXml | utils/export_to_fbw.py:9-252 | no MWD tool raises `StopIteration`; a MODF set without an ARC6 or ECO tool raises `StopIteration`; a shown frameset without notes cannot be serialized (`TypeError`); otherwise the tree is a `Run` with the run attributes and the children in order |
| Export.ChildTag | utils/export_to_fbw.py:54-243 | an ODF-tagged child of the run comes from the ODF part, a MODF-set-tagged one from the MODF part |
| Export.RunFsls | utils/export_to_fbw.py:91-104 | the children after the BHA are the shown framesets, each described `FSL-<i+1>` with its notes |
| Export.RunBounds | utils/export_to_fbw.py:136-243 | after the framesets comes the DDS frame when there is one, else the utility frame, and the QC element is last |
| Export.RunOptionalFrames | utils/export_to_fbw.py:170-230 | the run has an ODF element exactly when the MWD tool is not SPTOOL, and a MODF set exactly when additionally MODF frames exist |
| Export.RunIs | utils/export_to_fbw.py:37-252 | a successful conversion means an MWD tool exists, the MODF part succeeded, the shown framesets have notes, and the tree is the assembled run |
| Export.RunLayout | utils/export_to_fbw.py:9-252 | every converted run records its MWD tool, lists the shown framesets described `FSL-1`... with their notes, then the DDS or utility frame, ends with the QC element, and has ODF and MODF parts exactly in the cases the exporter writes them |
| Store.Load | utils/db_managment.py:212-224 | a uid's row is found exactly when the table exists and holds the uid, and it is the stored row |
| Store.InsertUidWithNone | utils/db_managment.py:227-237 | `INSERT OR IGNORE`: an existing row is kept, a new uid reads as the pending row ("", 200), and no other uid changes |
| Store.Update | utils/db_managment.py:240-250 | `UPDATE`: an existing uid reads as the new content and status, a missing uid stays missing, and no other uid changes |
| Store.Save | utils/db_managment.py:314-324 | `REPLACE`: the uid reads as the new row whether or not it existed, and no other uid changes |
| Store.Remove | utils/db_managment.py:327-335 | `DELETE`: the uid is gone and no other uid changes |
| Store.InsertIdempotent | utils/db_managment.py:227-237 | inserting a uid twice leaves the store as inserting it once |
| Store.InsertThenUpdate | utils/db_managment.py:227-250 | after the placeholder insert an update always lands: the uid reads as what was written |
| Store.SaveIsInsertThenUpdate | utils/db_managment.py:227-324 | saving leaves the same store as a placeholder insert followed by an update |
| Store.RemoveThenInsert | utils/db_managment.py:227-335 | a removed uid can be inserted afresh and reads as pending |
| Store.OutcomeOf | utils/db_managment.py:199-207 | a call's value is returned and an error is passed on with its lock flag |
| Store.SleepBefore | utils/db_managment.py:203-205 | the sleeps after attempts 0..n-1 add up to n(n+1)/4 seconds |
| Store.RetryFrom | utils/db_managment.py:196-207 | from a given attempt, the wrapper stops at the first call that is not a locked error on a non-final attempt, returns that call's outcome, and sleeps 0.5·(k+1) seconds after each retried attempt k |
| Store.RetryOnLock | utils/db_managment.py:193-209 | at most five calls; the outcome is the last call's; every earlier call was a locked error; stopping before the fifth call means the last call was not a locked error; the sleep is the sum of the retry delays |
| Store.SleepBound | utils/db_managment.py:197-205 | however often the store is locked, the wrapper sleeps at most five seconds in all |
| Store.Guarded | utils/db_managment.py:214-224 | a store method catches its own `sqlite3.Error`: every call returns, errors becoming the method's fallback value |
| Store.RetryGuarded | utils/db_managment.py:193-224 | the wrapper around a store method as written makes exactly one call and never sleeps |
| Store.LockedLoadReadsAsMissing | utils/db_managment.py:193-224 | a load that meets a locked database once reads as "no row" as written, while the retrying wrapper finds the row on the second call after half a second |
| Service.Serialize | utils/export_to_fbw.py:246-252 | the serialized document starts with the XML declaration |
| Service.WithStore | main.py:34-96 | writing one store file leaves every other file, the catalogs, the selection and the library as they were |
| Service.Record | utils/utility.py:816-823 | the exported document starts with the XML declaration and keeps the status; it is written with `UPDATE` into the store of the selected catalog, and nothing else changes |
| Service.UtilityMain | utils/utility.py:616-823 | `main` selects the catalog from the label, returns a document starting with the XML declaration and status 200 or 209, updates only the selected catalog's store, and leaves the stores untouched when it raises |
| Service.ReportedMessage | main.py:84-86 | an error mentioning the NoneType JSON message is reported as the input-file message, any other with its own text |
| Service.RequestFrames | main.py:24-92 | a request without a truthy uid is refused with 400; a uid already held in the label's store is answered from it, any other is computed and filed |
| Service.ReplayedMessageIsSplit | main.py:45-46 | the message reported for a recorded failure is exactly `split(" | ")[1]` of the stored text |
| Service.FailureReadsBack | main.py:46-88 | a failure filed as `"FAILED | " + msg` reads back through `split(" | ")[1]` as `msg` when `msg` holds no `" | "` |
| Service.XmlIsNotFailure | main.py:39-45 | a stored document is never mistaken for a pending row or a recorded failure |
| Service.WithStoreKeepsOk | main.py:34-96 | replacing one well-kept store file keeps the whole set of store files well kept |
| Service.UpdateKeepsOk | main.py:60-88 | writing a well-kept row keeps every row of the store well kept |
| Service.InsertKeepsOk | main.py:60 | the placeholder insert keeps the store well kept |
| Service.RemoveKeepsOk | main.py:94-96 | removing a uid keeps the store well kept |
| Service.MainKeepsOk | utils/utility.py:816-823 | `main` only ever files a document with status 200 or 209, so every store stays well kept |
| Service.RequestKeepsStoresOk | main.py:24-96 | every store only ever holds pending rows, failures with status 406 and documents with status 200 or 209, and every response has status 200, 209, 400, 406 or 503 |
| Service.MainNeverEmpty | utils/export_to_fbw.py:248-252 | a document `main` returns is never empty, so the incompatibility branch is never taken |
| Service.SuccessIsReplayed | main.py:37-72 | after a successful build, asking again for the same uid returns the stored document, signed, with the same status and the cached message, and changes no store |
| Service.FailureIsReplayedOnce | main.py:45-92 | after a failed build, asking again returns 406 with the same message and clears the uid, so a third request computes afresh |
| Text.SegmentAfter | main.py:46 | the text after the prefix up to the first occurrence of the separator, which the result never contains, and all of the rest when there is no occurrence |
| Text.Split | main.py:46 | `str.split(sep)`: at least one piece, no piece contains the separator, and the pieces joined with it give the text back |
| Text.SplitJoin | utils/utility.py:810 | splitting a join gives the parts back when no separator can start inside a part; for `"\n"` that is when no part contains a newline |
| Text.SegmentAfterIsSecondPiece | main.py:46 | `split(sep)[1]` of text that starts with `head + sep` is the segment after that prefix, when no separator starts inside `head` |
| Text.SegmentAfterWhole | main.py:45-46 | a message without the separator comes back whole from the recorded failure |
| Text.RStripChars | utils/utility.py:659 | `rstrip("in")`: the longest prefix that does not end in `i` or `n`, all stripped characters being `i` or `n` |
| Text.FindFrom | main.py:46 | the first place at or after the start where the separator occurs, or none when it occurs nowhere after it |
| Text.Upper | utils/utility.py:806 | `upper()` of ASCII text, letter by letter |
| Text.Join | utils/utility.py:810 | `sep.join` of one part is that part, of none the empty string; several parts are fixed by the round trip of `Text.SplitJoin` |
| Text.LexLeRefl | utils/db_managment.py:265 | the collation puts every name at or before itself |
| Text.LexLeTotal | utils/db_managment.py:265 | SQLite's binary collation orders any two names |
| Text.LexLeTrans | utils/db_managment.py:265 | the collation is transitive |
| Text.LexLeAntisym | utils/db_managment.py:265 | names collating both ways are equal |
| Text.ParseInt | models/models.py:41-48 | `int()` of plain decimal text (whitespace, a sign, ASCII digits); anything else raises `ValueError` with Python's message |
| Text.ParseIntRoundTrip | utils/export_to_fbw.py:114 | the `str()` of an id reads back as the same id |
| Text.ParseDecimal | models/models.py:175-182 | `float()` of plain decimal text (whitespace, a sign, digits with at most one point); anything else raises `ValueError` with Python's message |
| Text.ParseDecimalOfInt | utils/utility.py:659 | a whole number in text reads with `float()` as that number |
| Seqs.RemoveFirst | utils/utility.py:52 | `pop(index(x))`: the first copy of x is removed and the rest keep their order |
| Seqs.Dedup | utils/utility.py:561 | `list(set(...))`: every element once, the same elements |

## Left out

- Reading the request body is left out. The model starts from decoded JSON
  fields; a field that is missing or malformed is modelled as the error
  `json.loads` raises.
- Text handling covers ASCII only. Digits, whitespace and case are treated as
  ASCII. Python's Unicode digits and whitespace, and its full case mapping,
  are not modelled.
- Number formatting is a parameter. How `str()` prints a float is
  `Env.realText`, since Python's shortest round-trip float printing is outside
  the model. Floats are modelled as reals with no rounding.
- Models.FloatField: a number is a real, so the model does not keep Python's
  difference between an int and a float. The default FSL bitrate 6 prints "6"
  in Python, and `float("6")` prints "6.0". Both are `6.0` in the model. So
  the exported `BitRate`, `ROP`, `TRSpacing` and `RTBlockSize*` attributes
  (`utils/export_to_fbw.py:63-68`, `99-100` and the frames after them) are
  only as exact as `Env.realText` on a real.
- Models.IntegralField: the same loss: `int("6")` and a JSON `6.0` are both
  `6.0` in the model, where Python prints "6" and "6.0".
- Text.ParseInt: accepts only plain decimal text. Python's `int()` also
  accepts underscores between digits ("1_000"), which the model rejects. The
  error message quotes the text as `'s'` where Python uses `repr(s)`. These
  differ only for text holding quotes or backslashes.
- Text.ParseDecimal: accepts only plain decimal text. Python's `float()` also
  accepts exponents ("1e3"), "inf", "nan" and underscores between digits,
  which the model rejects. The error message quotes the text as `'s'`, as for
  `int()`.
- Models.CoerceBool: a flag that arrives as a number is reduced to its
  truthiness. Python keeps a non-text `is_mwd` as the number itself
  (`models/models.py:45-46`). So two points whose flags are 2 and 1 are equal
  in the model and different in Python.
- The order of catalog rows with equal names is taken as the catalog's join
  order. SQLite does not fix the order of ties under `ORDER BY name`.
- Catalog.SelectTools: `GROUP BY` in the tool query is modelled as keeping
  the first of identical rows, in the order of the catalog's tool rows. SQLite
  does not fix the output order of `GROUP BY` (in practice it follows the
  group key, ToolID). That order decides:
  - the first MWD tool;
  - the MP3 lookup;
  - the DDRT version;
  - the lead ODF list;
  - the MODF choice;
  - the order of the exported BHA.
- The debugging writes of `input.json` and `output.json` in `main`
  (`utils/utility.py`) are left out. They are I/O and do not change the result.
- Logging is left out everywhere.
- The frame packer, the frame library, the document signer, the clock, the
  host name, and the rendering of the element tree to bytes are parameters.
  They are external or I/O.
- Export.ConvertToXml: the run's `FileDate` and the QC element's
  `FileDateTime` both come from the single clock reading `Env.now`. The source
  calls `datetime.now()` twice (`utils/export_to_fbw.py:46` and `:239`), so
  the two can differ by the time between the calls.
- XML attribute order, escaping and encoding are left out. The document is the
  element tree, and the rendered text is only known to start with the XML
  declaration.
- Concurrency is left out. Requests are handled one at a time, each a function
  from one `World` to the next. So two requests racing for the same uid, and
  the SQLite connection timeout, are not modelled.
- Connecting to a store file is not modelled as failing. A file without the
  `XmlStorage` table is modelled as a store with no rows that ignores writes.
- Store.RetryOnLock: the test on the error message is modelled as a `locked`
  flag. The model does not search for the text "locked".
- Store operations in `Service` are modelled as succeeding. This is what the
  retrying wrapper gives once a lock clears within its five attempts. The
  wrapper as written never retries (see Findings).
- Service.UtilityMain: runs on the corrected `Assembly.Assemble` and
  `FrameLibrary.Odf`, not on the code as written (Findings 1 and 2). So the
  label's catalog is selected even when the tools stage fails, where `main`
  keeps the old selection (`utils/utility.py:659-675`). Tools are looked up in
  the label's catalog, not the one left selected. The frame library never
  changes, where the ODF loop as written can grow it
  (`utils/utility.py:715-724`). The as-written behaviour is modelled only in
  `Assembly.AssembleAsWritten` and `FrameLibrary.OdfAsWritten`.
- Service.UtilityMain: files its result in the store of the globally selected
  catalog, as `main` does. The model keeps that store separate from the store
  `request_frames` chose from the request's own label.
- Service.RequestFrames: inherits the corrected assembly from
  `Service.UtilityMain`. A request that the code as written refuses with 406
  for want of an MWD tool in the stale catalog (Finding 1) is answered with a
  document in the model.
- The missing-uid `HTTPException(400)` is modelled as a response with status
  400.
- The last two error branches of `main`'s error report
  (`utils/utility.py:811-814`) are not modelled. They cannot be reached,
  because every error already appears in the first branch's list.
- Service.FailureIsReplayedOnce: stated only for failure messages without
  " | ". `split(" | ")[1]` keeps only the first segment of a message that
  contains one, for instance a packer error text with that separator.
  `Service.ReplayedMessageIsSplit` covers every message.
- The analytics, recommendation and test modules, the HTML form, and the
  migration of the legacy catalog database are not part of this model.

## Findings

| source | as written | input that shows it | evidently intended | confidence | as-written member | corrected member |
|---|---|---|---|---|---|---|
| utils/utility.py:659-675 | the tools are resolved (line 659) before the request's own catalog is selected (lines 670-675), so they are looked up in the catalog an earlier request left selected | a request labelled B, arriving while catalog A is selected, whose MWD tool only B's catalog holds: it fails with "MWD tool is missing" | select the label's catalog first, then resolve the tools in it | not executed | Assembly.StaleCatalogLosesMwd | Assembly.Assemble |
| utils/utility.py:715-724 | `odf = temp` keeps a reference to the frame library's own list, so the later `odf.append` grows the library entry | tools A and B with ODF entries `[a]` and `[b]`: the first request leaves `[a, b]` under A, and a later request for A alone gets `[a, b]` | extend a copy and leave the library unchanged | not executed | FrameLibrary.OdfAsWrittenLeaks | FrameLibrary.Odf |
| utils/db_managment.py:193-224 | every store method catches `sqlite3.Error` itself, so the `OperationalError` that `retry_on_lock` waits for never reaches it and a locked database is never retried | a load whose first call meets a locked database reports the uid as unknown, where a retry half a second later would find its row | let the lock error reach the wrapper, which retries it up to five times | not executed | Store.LockedLoadReadsAsMissing | Store.RetryOnLock |
