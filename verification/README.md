# RoastPilot verification model

A Dafny model of the parts of RoastPilot in which a mistake would be hardest to see by reading: the synthetic seed
pipeline from generation to the committed database, the microsecond timestamp arithmetic under it, the two
implementations of nearest-sample lookup, the exact-set grant auditors with their closed-grammar parsers, and the
splitting and scaling of roast curves.

`dafny verify dfyconfig.toml` checks everything.

## What is modelled

**Seed pipeline.** `SeedTypes` holds the five typed tables and their columns (`SeedColumnNames`: no two columns share
a name). `SeededRandom` is the stateful generator of draws, ids, slugs and numbered keys; `SeedGenerate` and
`SeedFanOut` are the generation loops over it. `SeedRules` and `SeedRelations` are the integrity check, row by row and
across tables, and `SeedCheck` puts it together; `JsonTrees` has its two recursive searches. `SeedProvenance` traces a
generated output back to its exports, and `SeedDecode` reads the emitted artifact back. `SeedOutputValid` (with
`RawIpText`, `SeedTextClean` and `SeedRowsValid`) proves that everything generated passes the check. `SeedDispatch` is
the target guard, null-stripping and dispatch order; `SeedArtifact` is the loader's closed grammar. `SeedDatabase` is
the database as a class with a snapshot: every statement may fail and every answer may come back unusable.
`SeedLoader` is the loader on that class. `SeedLoadTheory`, `SeedSummaries` and `SeedLoadKeeps` give what a load does in
closed form,
`SeedInvariant` the audited database invariant, `SeedLoadable` the exact success condition, `SeedPipeline` and
`SeedEndToEnd` the composition of all stages, `SeedRefused` valid outputs that the loader refuses, and `SeedRuns`
whole runs of loads on one connection.

The stored procedures are contracts. `cloud_sync_enter` needs exactly one lock row and a next sequence within
2^53 - 1, and returns that sequence; `recompute_reference_summary` enters in the same way and then merges one row of its
own group. Its figures are an unknown function of the roasts, the telemetry, the reviews and the group, its time is the
clock's, and its key patterns are empty.

**Time.** `Calendar` is the proleptic Gregorian calendar, `IsoTime` the date-time profile of RFC 3339 sections 5.6 and
5.7 that the exports use, with parsing, printing and shifting to the microsecond.

**Nearest sample.** `NearestSample` is the streaming search with its tolerance, `NearestExact` says when it finds the
nearest sample, `LiveSample` is the validator's lexicographic minimum and its group derivation, `LiveSpread` its mean
and deviation.

**Grants.** `SqlText`, `SqlComments` and `GrantGrammar` are the lexing, the comment removal and the statement forms;
`GrantManifest` is the manifest check and `GrantPrinter` its printers. `LiveGrants` and `RoleAudit` are the live audit
of the application roles, `SeedPrincipal` the audit of the seed verifier's role and user.

**Change classifier.** `NameStatus` and `DocsOnly` are the NUL-delimited parser and the docs-only decision over it.

**Curves.** `CurveSegments` splits a curve twice, as the page and as the social image do; `CurvePath` scales and draws.

**Anchors.** The `...Anchors` modules state what the small functions under all this mean in other words than their own:
known answers, characters listed, conditions by JSON key, proportions, vertices. `IsoAnchors` does so for instants,
`RandomAnchors` for draws and ids, `SeedAnchors` for the check and the dispatch, `SeedLoadAnchors` for the loader,
`GrantAnchors` and `RoleAnchors` for the grants, `DocsAnchors` for the classifier and `CurveAnchors` for the drawing.

## Hypotheses and findings

- Id and slug draws are taken to be pairwise distinct where a theorem needs it (`DrawsDistinct`). The uniqueness of keys
  and session ids needs nothing: it is proved for any interleaving of draws.
- `isIP`, SHA-256, the square root and the orders that `sorted` chooses are parameters. The first is only assumed to
  reject text without a colon and without a dot between two digits, and text with other than hexadecimal digits, dots
  and colons before a zone suffix; the second to return 64 lowercase hexadecimal digits; the third to be a root; the
  last to list every element of a set once.
- The generator's state is never wrapped to 32 bits. `WrappingIsInvisible` states exactly how long that does not show:
  until the state passes 2^53, where doubles stop holding odd numbers. The generation stays far below.
- The printed-timestamp round trip is false before 1970 for instants with a fraction: BigInt remainders are negative
  there, and the printed text is not a timestamp. `IsoRoundTripExactly` states exactly when it holds.
- The streaming lookup does not always return the nearest sample: `RecedingFails` is a curve of two samples on which it
  does not, and `DriftReached` gives, for every length, a curve on which the bound of `DriftBounded` is attained. It
  does in every order of the samples exactly when no sample before the event is farther than the nearest one by at most
  the tolerance (`NearestInEveryOrderExactly`).
- An output that passes the generator's check is not always accepted by the loader: `SeedRefused` has a valid output for
  each of no roast at all, a missing id, a blank group name, uppercase hash digits and a timestamp only JavaScript
  reads. `DispatchAcceptedExactly` states exactly when it is accepted.
- With no object name and three or more spaces before the preposition, the grant pattern still matches and takes one
  space for the name (`NamelessGrantParses`). So not everything that parses is a spelling of its result: it is exactly
  when text follows the object type (`ParsedIsSpelled`), and with the nameless form added the grammar is exact
  (`AcceptedExactly`).
- A percent path is drawn inside the plot exactly when its values are percentages, up to half a hundredth of a pixel
  (`PathInsidePlot`); nothing clamps them.
- Outside the development database the audit of the web role does not look at the grantee column, which
  `PublicWebElsewhereExact` makes explicit.

## Model

| member | source | states |
|---|---|---|
| `SeedEndToEnd.GeneratedOutputLoads` | snowflake/seed_load_live.py:239-328 | Whatever is generated from valid exports, dispatched and loaded at any time from its generation up to ten days later goes through when its identities are unused and the plane has room; every bound column then holds the generated value, old rows stay, and a clean database stays clean |
| `SeedEndToEnd.ValidOutputLoads` | scripts/seed/load.ts:45-81 | The same for any output that passes the integrity check and is accepted by the loader |
| `SeedEndToEnd.GeneratedArtifactAccepted` | snowflake/seed_load_live.py:108-129 | The 20-day generation window inside the 30-day retention leaves ten days in which no generated hash row is refused |
| `SeedEndToEnd.ValidRecordsAllowed` | snowflake/seed_load_live.py:145-200 | Valid output with explicit ids binds no null to a NOT NULL column of any table |
| `SeedEndToEnd.LoadStoresOutput` | snowflake/seed_load_live.py:281-298 | After a load the four row tables are their old rows followed by the typed output, cell by cell |
| `SeedPipeline.DispatchAcceptedExactly` | snowflake/seed_load_live.py:69-138 | What is dispatched from valid output is accepted if and only if there is a roast, every id is explicit, every group is named and every hash row is lowercase, strictly timestamped and inside retention at load time |
| `SeedRefused.EmptyOutputRefused` | snowflake/seed_load_live.py:96-101 | The empty output passes the integrity check and is refused by the loader |
| `SeedRefused.MissingIdRefused` | snowflake/seed_load_live.py:96-101 | A roast without an id, with the summary of its group, is valid and refused |
| `SeedRefused.BlankGroupRefused` | snowflake/seed_load_live.py:130-137 | A roast and a summary of a group with an empty origin are valid and refused |
| `SeedRefused.UppercaseHashRefused` | snowflake/seed_load_live.py:108-113 | A review whose hash has uppercase digits is valid and refused at every load time |
| `SeedRefused.LooseTimestampRefused` | snowflake/seed_load_live.py:114-129 | A hashed review stamped 30 February is valid at that instant and refused at every load time |
| `SeedPipeline.AcceptedRecords` | scripts/seed/load.ts:37-43 | Reading the artifact back yields each table's records, in the dispatch order the loader demands |
| `SeedPipeline.RecordCell` | scripts/seed/load.ts:45-49 | Null-stripping and reading a missing key as null cancel out for every column of every table |
| `SeedLoader.LoadSeed` | snowflake/seed_load_live.py:239-328 | All or nothing: on any failure the committed tables are untouched and the session is as it was (unless ROLLBACK itself failed); on success the statements executed, the returned counts and the committed tables are exactly the specified ones; failure without any disturbed statement means the specified result was a refusal |
| `SeedLoader.RunTransaction` | snowflake/seed_load_live.py:259-324 | Between BEGIN and COMMIT the connection runs exactly the checks and writes of the specification, and nothing is visible outside before COMMIT |
| `SeedLoader.CountsAreFresh` | snowflake/seed_load_live.py:269-280 | The six counts are all zero if and only if no identity occurs among roasts, tombstones, revisions or children, with SQL's null semantics |
| `SeedLoader.Prepare` | snowflake/seed_load_live.py:226-258 | No transaction is begun unless the connection is idle and the database is the target |
| `SeedDatabase.BindsEveryColumn` | snowflake/seed_load_live.py:141-147 | Serialising variant columns and parsing them back stores, in every column, the record's own value |
| `SeedDatabase.RunConcat` | snowflake/seed_load_live.py:281-323 | Running two lists of statements in turn is running their concatenation, failures included |
| `SeedDatabase.Connection.Execute` | snowflake/seed_load_live.py:54-57 | One statement: its effect on the working tables, what COMMIT and ROLLBACK do to the snapshot, and that a failing statement changes nothing |
| `SeedLoadKeeps.LoadResultShape` | snowflake/seed_load_live.py:247-323 | A load that goes through is its rows appended to four tables, three revisions a roast at the entered sequence and a coordination sequence higher by one plus the number of groups; the summary of each loaded group then holds, in every column of figures, the aggregates of the final roasts, telemetry and reviews, and the other groups' summaries are as they were |
| `SeedLoadKeeps.LoadGrowth` | snowflake/seed_load_live.py:328 | The returned counts are the growth of the tables, and revisions grow by three a roast |
| `SeedLoadTheory.MergeTouchesOneGroup` | snowflake/seed_load_live.py:170-200 | The MERGE writes only the rows of its own group, keeps all group keys, and inserts only when the group is absent |
| `SeedLoadTheory.MergeUpdatesGroup` | snowflake/seed_load_live.py:178-189 | A matched row takes the source's value in every column but id, origin and level |
| `SeedSummaries.RecomputesHold` | snowflake/seed_load_live.py:319-323 | After the recomputations the summaries of each recomputed group hold the aggregates of that group |
| `SeedSummaries.SummaryStatements` | snowflake/seed_load_live.py:307-323 | Merges and recomputations together leave those of the loaded groups recomputed and every other group's summaries alone |
| `SeedLoadTheory.RunMerges` | snowflake/seed_load_live.py:307-318 | The merges keep group keys unique, lose no group and leave a row for every group of the artifact |
| `SeedLoadTheory.RunRecomputes` | snowflake/seed_load_live.py:319-323 | The recomputations touch only summaries, and raise the sequence by one each within its limit |
| `SeedLoadTheory.RunRevisions` | snowflake/seed_load_live.py:300-305 | The revision loop appends exactly three revisions for each roast, in order |
| `SeedLoadable.LoadSucceedsExactly` | snowflake/seed_load_live.py:239-328 | With distinct identities an undisturbed load goes through if and only if the plane can be entered with room for every recomputation, no identity is in use, and every NOT NULL column is supplied |
| `SeedLoadable.LoadedIdsConfirmed` | snowflake/seed_load_live.py:284-294 | Reading the ids back by key always confirms them when the identities are distinct and new |
| `SeedLoadAnchors.FreshExactly` | snowflake/seed_load_live.py:265-280 | The checks pass if and only if no id, key or slug to be loaded is in any table, alive or deleted |
| `SeedLoadAnchors.EnterExactly` | snowflake/migrations/R__proc_cloud_sync_enter.sql:24-48 | The write plane can be entered if and only if reads are global, exactly one lock row has its name and the next sequence is from 0 to 2^53 - 1 |
| `SeedLoadAnchors.InsertedExactly` | snowflake/seed_load_live.py:150-200 | A record is stored if and only if it has the keys that its table requires, listed table by table |
| `SeedInvariant.LoadKeepsInvariant` | snowflake/migrations/R__data_quality_view.sql:101-175 | Every load that goes through keeps the audited relations: unique identities, no live roast matching a tombstone, unique tombstones, one lock row in range, exactly three known revision fields a roast, no orphan or unknown revision, no sequence above the coordination sequence |
| `SeedInvariant.NewRevisionsAbout` | snowflake/migrations/R__data_quality_view.sql:153-155 | Of the loaded revisions, those about one loaded roast are its own three |
| `SeedRuns.InvariantOverHistories` | snowflake/migrations/R__data_quality_view.sql:101-175 | Any sequence of load attempts, failing or not, keeps a clean database clean |
| `SeedRuns.LoadAll` | snowflake/seed_load_live.py:239-328 | Loading any list of artifacts over one connection, with any failing statements, ends in the committed tables of the attempts that went through, which are clean if the first ones were |
| `SeedRuns.LoadedIdentityIsTaken` | snowflake/seed_load_live.py:265-280 | Once loaded, a roast id is refused in every later load |
| `SeedRuns.StoringKeepsRanges` | snowflake/migrations/R__data_quality_view.sql:19-97 | Storing valid output adds no row to the score, rating, slider and visibility branches of the audit |
| `SeedArtifact.ValidateArtifact` | snowflake/seed_load_live.py:69-138 | The loop-built grammar check succeeds exactly on accepted artifacts and returns their tables |
| `SeedArtifact.TablesComplete` | snowflake/seed_load_live.py:85-94 | All five tables are there, each with the rows of its own entry |
| `SeedLoadAnchors.AcceptedExactly` | snowflake/seed_load_live.py:69-138 | An artifact is accepted if and only if its grammar is right and its rows, read by key, have distinct ids, known parents, fresh lowercase hashes and distinct named groups |
| `SeedDispatch.RunSeedLoad` | scripts/seed/load.ts:51-81 | Dispatch happens exactly for a non-production target, a valid time and valid output, in table order, with the true counts |
| `SeedDispatch.StripNullsInvisible` | scripts/seed/load.ts:45-49 | Dropping null properties is invisible to a reader that reads missing ones as null |
| `SeedDecode.ArtifactReadsBackExactly` | scripts/seed/load.ts:37-81 | Reading the emitted artifact back, key by key, returns the typed output if and only if no optional number in it is NaN or infinite |
| `SeedDecode.RoastReadsBack` | scripts/seed/load.ts:45-49 | The same for one roast and its seventeen keys |
| `SeedAnchors.NonProdTargetExactly` | scripts/seed/prod-guard.ts:8-21 | A database name is a target if and only if it is one of the two non-production names, case and surrounding space aside |
| `SeedCheck.ValidateSeedOutput` | scripts/seed/rules.ts:325-532 | The whole check reports exactly what the row rules, references, uniqueness, two-way group coverage and aggregates object to, and nothing if and only if all of them hold |
| `SeedRelations.FindRepeats` | scripts/seed/rules.ts:375-431 | Each uniqueness loop reports exactly the later occurrences: as many as tracked values minus distinct ones |
| `SeedRelations.RepeatsCount` | scripts/seed/rules.ts:375-431 | The number of repeats is the number of tracked values less the number of distinct values |
| `SeedAnchors.IdentitiesExactly` | scripts/seed/rules.ts:366-431 | Uniqueness holds if and only if no two rows share a given id of their table, no two roasts a key or slug, no two summaries a group |
| `SeedRelations.FindOrphans` | scripts/seed/rules.ts:353-364 | A child is reported exactly when its roast is unknown |
| `SeedRelations.FindUncoveredGroups` | scripts/seed/rules.ts:418-458 | Coverage is exact in both directions between contributing groups and summary groups |
| `SeedRelations.FindAggregateMismatches` | scripts/seed/rules.ts:460-530 | A summary field is reported exactly when its count or mean differs from the recomputed one |
| `SeedRelations.AverageFinite` | scripts/seed/rules.ts:159-167 | The accumulating loop is the mean, null on no values and not finite as soon as one value is not; that the mean is one is stated by the laws below |
| `SeedRelations.MeanGrows` | scripts/seed/rules.ts:159-167 | One more value x takes a mean m of n values to m' with m'(n + 1) = mn + x |
| `SeedRelations.MeanBetween` | scripts/seed/rules.ts:159-167 | The mean lies between any bounds of the values, so that equal values are their own mean |
| `SeedRelations.DeviationsCancel` | scripts/seed/rules.ts:159-167 | The deviations from the mean sum to zero |
| `SeedRelations.FirstCrackFromCharge` | scripts/seed/rules.ts:479-487 | From two printed instants the first-crack time is the signed seconds from charge to crack |
| `SeedAnchors.ApproximatelyExactly` | scripts/seed/rules.ts:169-177 | Two means agree if and only if both are missing, or both are numbers at most a millionth apart |
| `SeedRules.ValidateRoast` | scripts/seed/rules.ts:203-227 | The roast rules report exactly the fields that break a rule, none missed and none extra |
| `SeedRules.ValidateTelemetry` | scripts/seed/rules.ts:229-258 | The telemetry rules report exactly the readings, names and variant paths that break a rule |
| `SeedRules.ValidateReview` | scripts/seed/rules.ts:274-312 | The review rules report exactly the score, slider, hash and retention breaches |
| `SeedRules.ValidateArtifactRow` | scripts/seed/rules.ts:260-272 | The artifact rules report exactly disallowed kinds, blank paths and addresses |
| `SeedRules.FindVariantPaths` | scripts/seed/rules.ts:221-226 | Variant columns report each Fahrenheit path and each distinct address path, and nothing exactly when the tree has neither |
| `SeedAnchors.ContainsRawIpExactly` | scripts/seed/rules.ts:144-148 | A text holds an address if and only if some maximal stretch of it without delimiters is one, dots at its ends aside |
| `SeedAnchors.FahrenheitExactly` | scripts/seed/rules.ts:91-96 | The three kinds of names that betray a Fahrenheit value, in any case, and no others |
| `SeedAnchors.AddressIsFound` | scripts/seed/rules.ts:144-148 | An address between delimiters is found wherever it stands in a text |
| `SeedAnchors.RetentionExactly` | scripts/seed/rules.ts:290-311 | A hash is in order from the creation of its review on, for thirty days to the millisecond |
| `JsonTrees.PathsExact` | scripts/seed/rules.ts:98-142 | A path is reported if and only if some node at that path, at whatever depth, is flagged by the rules |
| `JsonTrees.PathsEmpty` | scripts/seed/rules.ts:98-142 | Nothing is reported exactly when no node of the tree is flagged |
| `RawIpText.PlainTextHasNoIp` | scripts/seed/rules.ts:144-148 | Text without a colon and without a dot between digits holds no address token |
| `RawIpText.TimestampHasNoIp` | scripts/seed/rules.ts:144-148 | No printed timestamp is mistaken for an address |
| `SeedOutputValid.GeneratedOutputIsValid` | scripts/seed/generate.ts:156-334 | Everything generated from valid exports passes the complete integrity check at its generation time, whenever no two id or slug draws coincide |
| `SeedOutputValid.GeneratedKeysDistinct` | scripts/seed/synth.ts:72-74 | Generated idempotency keys are pairwise distinct, with no hypothesis on the draws |
| `SeedOutputValid.GroupMembers` | scripts/seed/generate.ts:173-177 | Positions and groups are in bijection: group g has exactly roasts 2g and 2g+1 |
| `SeedOutputValid.GeneratedGroupsCovered` | scripts/seed/generate.ts:281-298 | The contributing groups and the summarised groups are the same set |
| `SeedOutputValid.GeneratedAggregatesMatch` | scripts/seed/generate.ts:284-320 | The written counts and means are those the check recomputes |
| `SeedFanOut.Generate` | scripts/seed/generate.ts:156-334 | The loops produce exactly a specified output: 24 roasts with their children in order, each telemetry row and closed summary tied to its export value by value, then one summary for each of the twelve groups; errors exactly without exports or without a time |
| `SeedProvenance.TelemetryTraced` | scripts/seed/generate.ts:208-244 | Every telemetry row of a generated output follows some sample of the export its roast comes from, number index modulo the number of exports |
| `SeedProvenance.SampleTraced` | scripts/seed/generate.ts:208-244 | Every sample at a multiple of the step has its row in the output |
| `SeedProvenance.SummaryTraced` | scripts/seed/generate.ts:117-148 | The summary of every generated roast follows its export's: figures and metrics equal, events as far from the roast time as from the start, the confidence moved or clamped |
| `SeedProvenance.GroupAverages` | scripts/seed/generate.ts:281-325 | In the summary of group g, the averages of development percentage and total seconds are half the sum of the two figures in the exports of its two roasts |
| `SeedGenerate.GenerateRoast` | scripts/seed/generate.ts:178-205 | One roast has ordered times, a numbered key, a valid slug and id and a summary that follows its export key by key; every drawn field is the pick of its own draw, in order |
| `SeedGenerate.PerturbTelemetry` | scripts/seed/generate.ts:208-244 | At most fifty rows, one for each multiple of the least sufficient step: the sample's own time, both temperatures moved by the one offset, heat and fan moved apart by the control offset or to the nearer bound of 0 to 100, and a raw object that repeats the columns |
| `SeedGenerate.PerturbedFollows` | scripts/seed/generate.ts:212-243 | One row against its sample: the difference of the two temperatures survives, the controls move apart, the raw object equals the columns |
| `SeedGenerate.ClosedFollows` | scripts/seed/generate.ts:117-148 | A closed summary against its source, key by key, without its formula |
| `SeedGenerate.ChildCreatedIso` | scripts/seed/generate.ts:75-83 | A child's time lies between its parent's and now |
| `SeedGenerate.LifecyclePreserved` | scripts/seed/generate.ts:117-148 | The start lands exactly on the roast time and every pairwise interval of the lifecycle survives to the microsecond |
| `IsoTime.IsoRoundTripFromEpoch` | scripts/seed/generate.ts:97-111 | For instants from 1970 to 9999, reading the printed text returns the instant, and the text passes the strict check |
| `IsoTime.IsoRoundTripExactly` | scripts/seed/generate.ts:97-111 | The round trip holds if and only if the instant is not negative or has no fraction |
| `IsoTime.EpochMicrosecondsExact` | scripts/seed/generate.ts:97-102 | Milliseconds and extra digits add up to the exact microsecond instant of the fields |
| `IsoTime.StrictIsoExact` | scripts/seed/parse-export.ts:137-182 | The strict check accepts exactly the printed forms of date-times whose day exists by month lengths written out |
| `Calendar.ValidDateExact` | scripts/seed/parse-export.ts:137-182 | A date is valid if and only if its day exists, month by month with the lengths written out and February by the leap year |
| `IsoAnchors.UtcInstant` | scripts/seed/generate.ts:97-102 | The instant of a printed UTC date-time is its day number in microseconds plus its time of day and fraction |
| `IsoAnchors.OffsetMoves` | scripts/seed/generate.ts:97-102 | The same wall clock at a positive offset is that much earlier, at a negative one later |
| `IsoAnchors.BillionthSecond` | scripts/seed/generate.ts:97-102 | 2001-09-09T01:46:40Z and 2001-09-09T03:46:40+02:00 are both the billionth second |
| `IsoTime.ParsePrint` | scripts/seed/parse-export.ts:54-55 | Parsing the print of any shaped timestamp returns its fields |
| `IsoTime.PrintParse` | scripts/seed/parse-export.ts:54-55 | Printing what was parsed returns the text |
| `IsoTime.ToIsoStringRoundTrip` | scripts/seed/generate.ts:68-83 | A printed clock reading reads back as itself and passes the strict check |
| `Calendar.DateOfDay` | scripts/seed/generate.ts:104-111 | Every day number is the number of the date computed from it, which is valid |
| `Calendar.DayOfDate` | scripts/seed/parse-export.ts:146-167 | Every valid date is the date of its day number |
| `Calendar.NextDayNumber` | scripts/seed/parse-export.ts:146-167 | The day after a valid date, with the month ends written out, has the next day number |
| `Calendar.EpochIsDayZero` | scripts/seed/generate.ts:97-111 | Day zero is 1 January 1970 |
| `SeededRandom.WrappingIsInvisible` | scripts/seed/synth.ts:19-28 | The growing double state and a 32-bit wrapped one have the same words up to draw n if and only if the state after n draws is below 2^53, or is even and the first not below it |
| `SeededRandom.NamesNeverRepeat` | scripts/seed/synth.ts:38-78 | Keys and session ids drawn from one generator never repeat, whatever else is drawn in between |
| `SeededRandom.IdempotencyKeyInjective` | scripts/seed/synth.ts:72-74 | A key determines its sequence number and token |
| `SeededRandom.SeededRng.RandomInteger` | scripts/seed/generate.ts:64-66 | A draw lands in its range, ends included, and advances the state once |
| `SeededRandom.SeededRng.SynthCloudRoastId` | scripts/seed/synth.ts:53-70 | The id has the required version-4 shape, so the guard never throws |
| `SeededRandom.IdTextInjective` | scripts/seed/synth.ts:53-64 | Distinct bytes give distinct id texts |
| `RandomAnchors.RoastIdExactly` | scripts/seed/synth.ts:53-70 | The accepted roast ids are exactly the prints of sixteen bytes |
| `RandomAnchors.VersionShown` | scripts/seed/synth.ts:53-70 | A drawn id shows version 4 and its standard variant |
| `RandomAnchors.FirstDraws` | scripts/seed/synth.ts:19-28 | The first two draws of seed 0 are 1144304738 and 1416247 parts of 2^32 |
| `RandomAnchors.Base58Exactly` | scripts/seed/synth.ts:15-16 | The token alphabet is the digits and letters without 0, O, I and l |
| `SeededRandom.TokenIsBase58` | scripts/seed/synth.ts:30-36 | A token has the asked length and only base58 characters |
| `SeededRandom.SlugEntropy` | lib/slug.ts:20-31 | Seventeen base58 characters are the fewest that carry 96 bits |
| `NearestSample.NearestSampleTempC` | lib/roast.ts:288-334 | The loop returns the temperature kept by the specified pass, or null without curve or valid times |
| `NearestSample.DriftBounded` | lib/roast.ts:312-332 | The kept distance is within (n-1) tolerances of every usable sample's distance |
| `NearestSample.DriftReached` | lib/roast.ts:312-332 | The bound is attained, for every n |
| `NearestExact.NearestInEveryOrderExactly` | lib/roast.ts:312-332 | Every order of the samples ends at the least distance if and only if no usable sample before the event is farther than that by at most the tolerance |
| `NearestExact.RecedingFails` | lib/roast.ts:312-332 | A curve of two samples on which the farther one is returned |
| `NearestExact.ToleranceIsANanosecond` | lib/roast.ts:312-332 | After a sample at the event, an earlier one a nanosecond away is taken and one two nanoseconds away is not |
| `NearestExact.StreamedIsLeast` | lib/roast.ts:312-332 | Without such a near tie the pass keeps the first lexicographically least sample |
| `NearestExact.OrderDoesNotMatter` | lib/roast.ts:308-333 | With distinct elapsed times and without a near tie the order of samples is irrelevant |
| `NearestExact.SeparatedIsUnambiguous` | lib/roast.ts:312-332 | Distances that are equal or more than the tolerance apart have no near tie |
| `LiveSample.Sample` | snowflake/seed_validate_live.py:93-117 | The loop returns the specified sample, or an error exactly when an own row is unreadable |
| `LiveSample.BestIsSelected` | snowflake/seed_validate_live.py:101-115 | What is picked is the first own row with the least (distance, elapsed, null rank, bean) key |
| `LiveSample.KeyOrderExactly` | snowflake/seed_validate_live.py:101-115 | A row goes before another if and only if it is nearer, or then earlier, or then has a reading where the other has none, or then the lower one |
| `LiveSample.OffsetsAgree` | snowflake/seed_validate_live.py:77-90 | Both implementations compute the same offset from strict timestamps |
| `LiveSample.LookupsAgree` | snowflake/seed_validate_live.py:93-117 | Both implementations return the same bean temperature, or none, for every curve with distinct elapsed times and without a near tie |
| `LiveSample.DeriveGroup` | snowflake/seed_validate_live.py:128-151 | A group's means and deviations are over one sample for each of its contributing roasts and no others, or an error exactly when one cannot be sampled; mean and deviation are tied to count, sum and sum of squares with the divisor of the sample deviation |
| `LiveSample.RoastSampleIsNearest` | snowflake/seed_validate_live.py:84-117 | A roast's sample at an event of its summary is the temperature that the page finds on the same curve for the same event |
| `LiveSpread.SpreadMeans` | snowflake/seed_validate_live.py:120-125 | n times the mean is the sum, and n - 1 times the squared deviation is the sum of squares less n times the squared mean; no mean without a value, no deviation with fewer than two |
| `LiveSpread.TwoReadings` | snowflake/seed_validate_live.py:120-125 | For two readings, twice the squared deviation is their squared difference |
| `LiveSpread.SpreadZeroExactly` | snowflake/seed_validate_live.py:120-125 | The sample standard deviation is never negative, and is zero exactly when all present values are equal |
| `GrantGrammar.SpellingParses` | snowflake/check_grant_manifest.py:135-165 | Every spelling of a statement, in any case and spacing, parses to what it says |
| `GrantGrammar.AcceptedExactly` | snowflake/check_grant_manifest.py:135-165 | A statement parses to a result if and only if it spells it, with a name or in the nameless form |
| `GrantGrammar.ParsedIsSpelled` | snowflake/check_grant_manifest.py:135-165 | What parses is a spelling of its result if and only if text follows the object type |
| `GrantGrammar.NamelessParses` | snowflake/check_grant_manifest.py:135-165 | Every statement without a name and with three or more spaces before the preposition parses, with a space for its name |
| `GrantManifest.NamelessGrantParses` | snowflake/check_grant_manifest.py:135-145 | The grant of SELECT on a table without a name is such a statement |
| `GrantPrinter.PrintParses` | snowflake/check_grant_manifest.py:168-264 | Printed grants and revokes of any well-formed rows, joined by semicolons, parse back to exactly those rows with only the guards' findings |
| `GrantManifest.ParseRenderedSql` | snowflake/check_grant_manifest.py:186-264 | The statement loop accumulates exactly the specified rows and problems |
| `GrantManifest.PiecesParse` | snowflake/check_grant_manifest.py:186-195 | A text written statement by statement, comments and all, is parsed statement by statement |
| `GrantManifest.OrderDoesNotMatter` | snowflake/check_grant_manifest.py:186-264 | Writing the statements of a text in another order changes neither set, and no problem's multiplicity |
| `GrantManifest.CommentsDoNotMatter` | snowflake/check_grant_manifest.py:126-190 | A comment between complete texts changes nothing |
| `GrantAnchors.GrantRecordedExactly` | snowflake/check_grant_manifest.py:200-212 | A grant is recorded if and only if its statement spells it, in either form, and its name does not read on as an object type |
| `GrantAnchors.RevokeRecordedExactly` | snowflake/check_grant_manifest.py:232-244 | The same for revokes |
| `GrantAnchors.SkippedExactly` | snowflake/check_grant_manifest.py:195-198 | A statement leaves neither row nor finding if and only if it is blank or selects the application schema |
| `GrantAnchors.FindingExactly` | snowflake/check_grant_manifest.py:224-264 | Which finding a statement of neither form gets, by its first word and whether it spells a grant or revoke of any type |
| `GrantAnchors.GrantTypesExactly` | snowflake/check_grant_manifest.py:128-145 | A grant names one of seven one-word types, or FILE FORMAT in two words |
| `GrantAnchors.BareNameExactly` | snowflake/check_grant_manifest.py:165 | A name reads on as an object type if and only if it begins with a word, a gap and more text |
| `GrantManifest.ManifestViolations` | snowflake/check_grant_manifest.py:267-286 | Violations are the problems followed by both sorted differences of both sets; there are none if and only if the parsed sets equal the expected ones without a problem |
| `GrantAnchors.ReportExactly` | snowflake/check_grant_manifest.py:267-286 | A row is reported missing if and only if it is expected and was not parsed, extra if and only if the other way round, grants and revokes apart |
| `SqlComments.UncommentSplits` | snowflake/check_grant_manifest.py:126 | Text that ends outside comments is uncommented independently of what follows |
| `LiveGrants.SignatureTransforms` | snowflake/assert_dev_ci_grants.py:384-398 | Any signature written in the offline form becomes the upper-case name with each parameter's live type, in order |
| `LiveGrants.LiveObjectMoves` | snowflake/assert_dev_ci_grants.py:743-789 | Only the database prefix of a live name depends on the database |
| `LiveGrants.SurfaceIsEnvironmentInvariant` | snowflake/assert_dev_ci_grants.py:792-817 | For every dot-free database, the web role's permitted surface is its expected qualified grants without the database |
| `LiveGrants.ObjectManifestRoleGrants` | snowflake/assert_dev_ci_grants.py:695-707 | The set-updating loop builds one grant for each privilege of each row, or fails exactly on a row it cannot transform |
| `LiveGrants.ContainerExact` | snowflake/assert_dev_ci_grants.py:596-603 | A name is in a container if and only if it is it or continues it after a dot |
| `LiveGrants.OptionIsFalseExactly` | snowflake/assert_dev_ci_grants.py:830-838 | Null, false, no text and the word false in any case, and nothing else, are no grant option |
| `RoleAnchors.GrantReads` | snowflake/assert_dev_ci_grants.py:867-873 | Privilege and type are read without surrounding spaces and in capitals, name and grantee to the byte |
| `RoleAnchors.ObjectRowGrants` | snowflake/assert_dev_ci_grants.py:743-789 | A table, view or stage of the manifest is granted live under its capital name below the schema, privilege by privilege |
| `RoleAnchors.ProcedureRowGrants` | snowflake/assert_dev_ci_grants.py:384-398 | A procedure is granted live under its signature in live types |
| `RoleAnchors.ManifestTypesKnown` | snowflake/assert_dev_ci_grants.py:743-763 | Every manifest type but WAREHOUSE becomes a type the audit knows to live in a database |
| `RoleAudit.FindRoleManifestViolations` | snowflake/assert_dev_ci_grants.py:841-972 | The three passes report exactly the specified violations, in order |
| `RoleAudit.AuditCleanExactly` | snowflake/assert_dev_ci_grants.py:841-972 | The audit is clean if and only if in-container rows are expected and without grant option, undeferred expected grants are there, and other rows are in a permitted class |
| `RoleAnchors.VerdictExact` | snowflake/assert_dev_ci_grants.py:880-952 | Which of the three reports a row outside the container gets, by its type, its dots and the role |
| `RoleAnchors.MissingExactly` | snowflake/assert_dev_ci_grants.py:961-971 | A grant is reported missing if and only if it is expected, may not be deferred and is held by no row of the container |
| `RoleAnchors.ExtraExactly` | snowflake/assert_dev_ci_grants.py:954-960 | A grant is reported extra if and only if a row of the container holds it and it is unexpected or with grant option |
| `RoleAnchors.WebDatabasesExactly` | snowflake/assert_dev_ci_grants.py:899-917 | The web role may have usage, without option, of the three environments' databases and of no other |
| `RoleAudit.FullIsRelaxedPlusDeferred` | snowflake/assert_dev_ci_grants.py:954-971 | The full audit's violations are the relaxed audit's plus exactly the missing deferred grants |
| `RoleAudit.FullCleanExactly` | snowflake/assert_dev_ci_grants.py:1448-1473 | The full audit passes if and only if the relaxed one does and every deferred grant is there |
| `RoleAudit.PublicWebElsewhereExact` | snowflake/assert_dev_ci_grants.py:920-947 | Elsewhere the web role may hold exactly what is expected of it in that environment |
| `SeedPrincipal.FindSeedRoleManifestViolations` | snowflake/assert_seed_ci_principal.py:189-275 | The classify, extra, missing and duplicate passes report exactly the specified violations |
| `SeedPrincipal.SeedAuditCleanExactly` | snowflake/assert_seed_ci_principal.py:189-275 | The audit is clean if and only if, inert self rows aside, all rows are plain and hold each expected grant exactly once |
| `RoleAnchors.SeedVerdictExact` | snowflake/assert_seed_ci_principal.py:206-245 | Each verdict on a row of the seed role by conditions on its columns that exclude each other |
| `SeedPrincipal.ExpectedGrantsDistinct` | snowflake/assert_seed_ci_principal.py:79-151 | The seed role's expected grants are pairwise distinct, as the counting needs |
| `RoleAnchors.ExpectedSeedExactly` | snowflake/assert_seed_ci_principal.py:79-151 | The seed role reads and deletes four tables, inserts into two of them, updates one, uses its database, schema and warehouse, and nothing else |
| `RoleAnchors.SeedCountsExactly` | snowflake/assert_seed_ci_principal.py:257-274 | An expected grant is reported missing if and only if no row holds it, duplicate if and only if several do |
| `SeedPrincipal.FindUserRoleGrantViolations` | snowflake/assert_seed_ci_principal.py:154-186 | The user audit's two passes report exactly the specified violations |
| `SeedPrincipal.UserAuditCleanExactly` | snowflake/assert_seed_ci_principal.py:154-186 | The user audit is clean if and only if no role is blank and, PUBLIC aside, the one role is the expected one |
| `NameStatus.ParseNameStatus` | snowflake/ci_change_classifier.py:70-96 | The index loop terminates and parses exactly as specified |
| `NameStatus.ParseInvertsPrint` | snowflake/ci_change_classifier.py:70-96 | Output is accepted with a result if and only if it is the print of that non-empty well-formed list |
| `DocsOnly.DocsPathExact` | snowflake/ci_change_classifier.py:58-67 | A path is accepted if and only if it walks from docs through named directories to a Markdown file |
| `DocsOnly.RegularFileExact` | snowflake/ci_change_classifier.py:99-112 | Tree output shows a regular file if and only if it is one file-mode blob entry for that path |
| `DocsAnchors.SidesExactly` | snowflake/ci_change_classifier.py:115-142 | Whatever the status, the old path is regular in the merge base unless added and the new one in the head unless deleted |
| `DocsAnchors.PairExactly` | snowflake/ci_change_classifier.py:70-96 | A rename or copy status is its letter and a similarity from 000 to 999 |
| `DocsAnchors.OnlyDocsPaths` | snowflake/ci_change_classifier.py:145-180 | In a docs-only diff every named path is a documentation file, regular on one side at least |
| `DocsOnly.EntriesAreDocsOnly` | snowflake/ci_change_classifier.py:115-142 | The answer is yes if and only if there are entries and each is docs on every path and regular on every required side |
| `DocsOnly.ClassifyChange` | snowflake/ci_change_classifier.py:145-180 | A change is docs-only if and only if event, commits, merge base and the whole printed diff qualify |
| `CurveSegments.CollectSegments` | components/RoastCurve.tsx:55-71 | The page's loop computes the specified segments |
| `CurveSegments.SegmentsAreMaximalRuns` | components/RoastCurve.tsx:55-71 | The segments are exactly the maximal plottable runs, in order; none is split or spans a gap |
| `CurveSegments.SegmentsKeepPoints` | components/RoastCurve.tsx:55-71 | End to end, the segments are the plottable samples in order |
| `CurveSegments.DrawableCurveSegments` | app/r/[slug]/opengraph-image.tsx:170-193 | The image's loop computes the specified segments |
| `CurveSegments.ImageMatchesPage` | app/r/[slug]/opengraph-image.tsx:170-193 | The image draws exactly the page's bean segments of two points or more |
| `CurvePath.PathFor` | components/RoastCurve.tsx:79-111 | Rendering the commands draws one polyline for each drawable segment and nothing between them |
| `CurvePath.PathInsidePlot` | components/RoastCurve.tsx:26-53 | Every vertex of a temperature or rate path is inside the plot; those of a percent path are if and only if its values are percentages up to what rounding hides |
| `CurvePath.PercentVertexInside` | components/RoastCurve.tsx:36-50 | A percent vertex is inside the plot if and only if its value is less than half a hundredth of a pixel off the scale |
| `CurvePath.PercentScaled` | components/RoastCurve.tsx:36-44 | Before rounding, a percent value is drawn between the edges if and only if it is from 0 to 100 |
| `CurvePath.ScaleYInside` | components/RoastCurve.tsx:36-44 | A value is drawn between the edges if and only if it lies in the domain |
| `CurvePath.ScaleEnds` | components/RoastCurve.tsx:26-44 | The ends of the domain are drawn on the edges, the least value at the left and at the bottom |
| `CurveAnchors.ScalesProportionally` | components/RoastCurve.tsx:26-44 | Distances are drawn in proportion, rightwards for time and upwards for values |
| `CurveAnchors.PlotCorners` | components/RoastCurve.tsx:9-44 | The least values are drawn at the lower left corner of plot and chart, the greatest at the upper right |
| `CurveAnchors.NearestHundredth` | components/RoastCurve.tsx:46-48 | The drawn hundredth is the nearest, and of two the one farther from zero |
| `CurveAnchors.LinearVertices` | components/RoastCurve.tsx:79-111 | The vertices of a linear path are its points |
| `CurveAnchors.StepsAreLevelThenUpright` | components/RoastCurve.tsx:79-111 | A stepped path is level, then upright, between any two points |
| `CurveAnchors.DrawableValuesExactly` | components/RoastCurve.tsx:73-77 | The vertical domains are over the values of drawn segments and no others |
| `CurvePath.DomainTight` | components/RoastCurve.tsx:50-53 | The domain holds every value and its ends are values |
| `CurvePath.ImageInsideChart` | app/r/[slug]/opengraph-image.tsx:195-230 | Every point of every segment that the image draws is inside its chart, on the one domain of all its segments |

## Left out

- Typed rows only: the TypeScript check also inspects ill-typed and missing fields of untyped rows; the model's rows have the declared types, with null where the type allows it.
- Floating-point rounding: numbers are reals, and NaN and the infinities are one value.
- Date.parse beyond the exports' own timestamp shape, and years outside 0000 to 9999; Python's further ISO spellings.
- Case folding and whitespace outside ASCII.
- The order of keys that `sorted` produces: printing is proved for every listing of a row's privileges, and the manifest report for every sort, so for the sorted ones.
- `validate_live` itself and its swapped controls: the sampling it relies on is modelled, its sequence of queries is not.
- SQL text, column types and coercions, and the bodies of stored procedures; JSON text encoding.
- The error messages' wording, and which Python exception class carries an error.
- The constant expected manifests of the offline check: the checks are proved for any expected sets. The seed role's manifest is included.
- Jinja rendering, Git itself, network connections, key loading, environment variables and command lines.
- `find_violations`, `find_public_grants` and the other single-predicate scans of the role audit: each is one filter over rows.
- React markup, labels and fonts.
- Parsing of export directories; its guarantees are the hypothesis `ValidExport`.
- SeedPrincipal.FindUserRoleGrantViolations: takes the role column only, since the other columns are not read.
- SeedArtifact.ValidateArtifact: refuses a hash timestamp in the further ISO spellings that Python reads, because the loader is only ever handed the strict ones that generation writes.
- SeedFanOut.Generate: does not model generation before 21 January 1970 or lifecycles that leave 1970 to 9999, because printed timestamps outside are not timestamps (`IsoRoundTripExactly`).
- SeedCheck.ValidateSeedOutput: says which violations are reported, not in which order and how often, because the dispatcher only asks whether there is one.
- LiveSample.Sample: keeps the least row while scanning, where the source first builds the list of candidates.
