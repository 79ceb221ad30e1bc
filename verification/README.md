# Verified model of the finance fixtures, the rename migration and the assistant services

This Dafny project models six parts of the repository and proves what they promise.

- **Canonical JSON** (`Text`, `JsonNumbers`, `JsonStrings`, `JsonText`, `CanonicalJson`): `normalizeJson` and `sameJson` over
  values with an explicit member order. Strings are sequences of UTF-16 code units, numbers are decimals printed as
  section 6.1.6.1.20 of ECMA-262 lays them out, strings are quoted as in section 25.5.2.3 of ECMA-262 and section 7 of RFC 8259.
  The printer is proved injective by a parser that undoes it.
- **Liquidation registry and reset** (`RegistryMarkers`, `RegistryProtocol`, `RegistrySafety`, `RegistryCalls`, `FixtureReset`,
  `ResetRecovery`, `ResetProtocol`, `LoneReset`): the lock-free marker directory as an interleaved machine with atomic `link` and
  `unlink`, partial writes and crashes, with a history of additions and removals; the reset transaction over the tables; resets
  interrupted and repeated; and any number of resets composed with the file system steps of the registry and with other writers of
  rows. That each call and the reset do their work when nobody disturbs them is proved of the same machines.
- **Liquidation seeding** (`LiquidationStatus`, `SeedWorkflow`, `SeedRace`): the workflow and its validator as an imperative store,
  and any number of concurrent seeders, of any keys, as a machine over the same rows and charges whose steps are single database
  accesses, among other users of both tables.
- **Rename migration** (`UnitRenaming`, `RenamedCodes`, `RenamePlan`, `RenameRun`): the codes wanted for units, letter by letter, the
  planning loops, and the transaction that applies the plan update by update.
- **Assistant services** (`ResponseCache`, `CacheHistory`, `CacheStatistics`, `Pricing`, `Budget`, `BudgetRace`, `BudgetBound`): the bounded cache
  against the history of sets, and the monthly budget under requests that check first and are tracked later.
- **Periods and fixture arithmetic** (`Calendar`, `Spans`, `PeriodKeys`, `PeriodResolver`, `ChargeFixture`, `PolicyRules`,
  `Pigeonhole`): month arithmetic over the calendar of section 21.4.1 of ECMA-262, and the counting arguments of the fixtures.

Classes and loops stand where the source has them; `Pigeonhole`, `Spans`, `Paths`, `Options` and `Text` are shared theory.

## What the proofs show about the code

- `normalizeJson` assigns members to a fresh object, so a member named `__proto__` is dropped. `sameJson` therefore decides equality
  up to member order exactly for values without such members (`SameJsonMeansEqualIff`, `ProtoMemberUnseen`).
- The trigger on liquidations makes `PUBLISHED` and `CANCELED` terminal
  (`apps/api/prisma/migrations/20260711000000_add_liquidation_publication_snapshot/migration.sql:48-51` and `:83-86`). Whatever
  other users insert, edit, publish or cancel, all seeders of a key that return, at whatever moments, therefore name one published
  row, and at most one reports `created` (`ReturnedAgree`); the `findActive` after publishing always finds the row just published,
  so the throws for a row that disappeared and for an unsupported status never fire after it (`RefindsOwnRow`).
- `validateCompatible` does not compare the charged units with the units of the input: the charges are always the allocations of the
  snapshot (`AcceptedChargesAreAllocations`, `UnitsNotCompared`), and they are the units of the input exactly when no allocation
  names another unit (`AcceptedUnitsAreInputIff`). Nor does it compare the charged sum with the total; that they are equal rests on
  the publisher's check of its own allocations (`apps/api/src/finanzas/liquidation-publication-snapshot.ts:238-242`,
  `AcceptedSumIsTotalIff`, `SeededChargesTotal`). Among concurrent seeders it holds of every returned row for as long as other
  users leave the charges of that row alone (`ReturnedChargesTotal`).
- A liquidation whose registration was linked before a reset began to read is gone for good once that reset has committed, also
  when another reset took it off the registry meanwhile; only an unregister call from outside a reset can save it
  (`ResetTakesRegistered`). When a reset unlinks a marker, its liquidation is gone and never comes back (`UnlinkedIsGone`).
- On tables whose foreign keys all refer, the reset commits exactly when the registered rows may go and have no charges, every managed
  transaction that reverses the reversal of a managed one is itself the reversal of one, and the foreign keys of what it leaves all
  refer (`CommitsIffKeysRefer`).
- `rulesMatch` does not compare the fund while sorting, so tied rules may fail to match in another order. Every permutation matches
  exactly when no two different rules tie (`PermutationsMatchIff`), which holds of the rules the fixture expects.
- The reset deletes reversals by the transaction they reverse, without a tenant filter (`apps/api/prisma/lib/fin07d-e2e-reset.ts:483`);
  `DeletesOnlyManagedTransactions` states what can be said of them. Deleting a disposable unit also deletes its charges, and a
  payment allocated to one of those charges rolls the whole reset back (`apps/api/prisma/schema.prisma:1786`, `ResetTransaction`).
- A rename migration is idempotent exactly when no parking takes its base code from a unit whose own base the migration changes
  (`SecondPlanIdleIff`); associations that point at no parking guarantee it (`ApartmentsKeepBases`), and a parking associated to
  another parking breaks it although the first run goes through (`UnstableRenaming`).
- The cache's comments promise a bound per tenant and eviction by recency; the code bounds the whole map and evicts the first entry
  with the fewest hits, and it evicts even when the key to set is already there. With fewer keys than the bound the cache is the
  unbounded map (`CacheIsTtlMap`); with exactly as many it is not (`FullCacheDrops`).
- The pricing table is documented in cents, but the sum is treated as dollars and multiplied by 100. The model follows the code.
  `getOrCreateBudget` stores the default budget as the tenant's override, so a new tenant's plan budget is not looked at
  (`GetEffectiveLimits`).
- A check decides on limits and a month it saw earlier, so the overshoot of a month is bounded by the requests whose check has begun,
  not only by those it admitted: for the cost those past the first look of the budget check, for the calls those past the first look
  of the calls check (`OvershootBound`, `BoundReachedIff`, `CallsBoundIsReached`). The block of a month is never lifted, also not by
  raising the budget (`BlockedMonthAdmitsNone`), but two checks that both read the row before it was blocked both write it, and the
  later write moves it (`BlockMovesIff`, `BlockMoves`).
- The validator accepts a month range without comparing its ends; a reversed one resolves to no period, with an end date before its
  start date (`ResolveExplicitRange`). `addMonths` is addition of months exactly from year 100 on (`AddMonthsIsIndexAddition`).

## Model

| member | source | states |
|---|---|---|
| JsonNumbers.NumberRoundTrip | apps/api/prisma/lib/seed-liquidation-workflow.ts:80-82 | a printed number is read back, whatever follows it |
| JsonNumbers.IntText | apps/api/prisma/lib/fin07d-e2e-liquidation-registry.ts:52-66 | an integer of up to 21 digits is printed as its decimal numeral |
| JsonNumbers.LayoutPlaces | apps/api/prisma/lib/seed-liquidation-workflow.ts:80-82 | which numbers are printed with an exponent, and where the point stands in the others |
| JsonNumbers.SomeNumbers | apps/api/prisma/lib/seed-liquidation-workflow.ts:80-82 | 0, -1.5, 1e+21 and 1e-7 are printed as that |
| JsonNumbers.IntNumberInjective | apps/api/prisma/lib/fin07d-e2e-liquidation-registry.ts:61-66 | distinct integers are distinct JSON numbers, so a port compares as its number |
| JsonStrings.StringRoundTrip | apps/api/prisma/lib/seed-liquidation-workflow.ts:80-82 | a quoted string is read back, control characters and lone surrogates included |
| JsonStrings.BodyIsClean | apps/api/prisma/lib/seed-liquidation-workflow.ts:80-82 | a quoted string has no control characters, and surrogates only in pairs |
| JsonStrings.PlainBody | apps/api/prisma/lib/seed-liquidation-workflow.ts:80-82 | what needs no escape is written as it is |
| JsonText.ValueRoundTrip | apps/api/prisma/lib/seed-liquidation-workflow.ts:80-82 | every well-formed JSON value is read back from its text, whatever may follow |
| JsonText.ParsePrint | apps/api/prisma/lib/fin07d-e2e-liquidation-registry.ts:53-53 | JSON.parse undoes JSON.stringify, also with white space behind the text |
| JsonText.StringifyInjective | apps/api/prisma/lib/seed-liquidation-workflow.ts:80-82 | values with the same text are the same value |
| JsonText.StringifyIs | apps/api/prisma/lib/seed-liquidation-workflow.ts:80-82 | the texts of literals and empty values, and the punctuation between items and members |
| CanonicalJson.NormalizeIdempotent | apps/api/prisma/lib/seed-liquidation-workflow.ts:63-78 | normalizing twice is normalizing once, and a value and its normal form pass for the same |
| CanonicalJson.ArrayIndexIff | apps/api/prisma/lib/seed-liquidation-workflow.ts:70-71 | the names that are enumerated first are the numerals of the numbers below 2^32 - 1 |
| CanonicalJson.SameJsonDecides | apps/api/prisma/lib/seed-liquidation-workflow.ts:63-82 | sameJson holds exactly when two values are equal up to member order at every depth, members named __proto__ left aside |
| CanonicalJson.SameJsonMeansEqualIff | apps/api/prisma/lib/seed-liquidation-workflow.ts:63-82 | a value is compared as meant with every value free of __proto__ exactly when it is free of it itself |
| CanonicalJson.ProtoMemberUnseen | apps/api/prisma/lib/seed-liquidation-workflow.ts:69-75 | an object with a __proto__ member and the empty object pass for the same |
| RegistryMarkers.KeyTextInjective | apps/api/prisma/lib/fin07d-e2e-liquidation-registry.ts:30-34 | distinct host, port and database triples have distinct texts before hashing |
| RegistryMarkers.ValidIdIs | apps/api/prisma/lib/fin07d-e2e-liquidation-registry.ts:19-19 | an id is one to 128 lower-case letters or digits |
| RegistryMarkers.TrimUnpads | apps/api/prisma/lib/fin07d-e2e-liquidation-registry.ts:44-50 | padding a valid id with white space of any kind still names the same file |
| RegistryMarkers.ValidatedIff | apps/api/prisma/lib/fin07d-e2e-liquidation-registry.ts:44-50 | exactly the texts of valid ids surrounded by white space are accepted, as those ids |
| RegistryMarkers.SpacesAre | apps/api/prisma/lib/fin07d-e2e-liquidation-registry.ts:45-45 | which code units trim takes for white space |
| RegistryMarkers.RawMarkerIs | apps/api/prisma/lib/fin07d-e2e-liquidation-registry.ts:90-96 | the text of a marker file, member by member |
| RegistryMarkers.TargetTextIs | apps/api/prisma/lib/fin07d-e2e-liquidation-registry.ts:90-96 | the text of the target in a marker, with the port as a decimal numeral |
| RegistryMarkers.MarkerAccepted | apps/api/prisma/lib/fin07d-e2e-liquidation-registry.ts:52-72 | a written marker is accepted for its own target and file name, and for no other |
| RegistryProtocol.AddedStays | apps/api/prisma/lib/fin07d-e2e-liquidation-registry.ts:98-112 | what the history added and did not remove since is in the abstract set |
| RegistrySafety.StepKeepsInv | apps/api/prisma/lib/fin07d-e2e-liquidation-registry.ts:79-152 | every step of every call, and a crash at any point, keeps the markers complete and equal to the history's set |
| RegistrySafety.RunKeepsInv | apps/api/prisma/lib/fin07d-e2e-liquidation-registry.ts:79-152 | the invariant holds in every state of every interleaving |
| RegistrySafety.OnlyMissingFiles | apps/api/prisma/lib/fin07d-e2e-liquidation-registry.ts:52-77 | the malformed, mismatch and unexpected-entry errors never fire; a call fails only over a file unregistered while it ran |
| RegistrySafety.OtherStepsLeaveMarkers | apps/api/prisma/lib/fin07d-e2e-liquidation-registry.ts:87-112 | only link and unlink of a marker change the set of markers |
| RegistrySafety.LinkAddsOwnId | apps/api/prisma/lib/fin07d-e2e-liquidation-registry.ts:98-104 | a link, or its EEXIST, adds exactly the caller's id and rewrites no marker |
| RegistrySafety.UnlinkRemovesOwnId | apps/api/prisma/lib/fin07d-e2e-liquidation-registry.ts:138-152 | unregister removes only ids it was given, from its own target |
| RegistrySafety.RegistrationNotLost | apps/api/prisma/lib/fin07d-e2e-liquidation-registry.ts:79-112 | a completed registration is there, with its whole marker, until that id of that target is unregistered |
| RegistrySafety.ReadSeesRegistered | apps/api/prisma/lib/fin07d-e2e-liquidation-registry.ts:114-136 | a read lists every id registered before it began and not removed during its scan, and nothing that was not registered during the scan |
| RegistryCalls.LoneRegisters | apps/api/prisma/lib/fin07d-e2e-liquidation-registry.ts:79-112 | an undisturbed register call of a valid id returns, whether or not the id was there, leaves its whole marker and no temporary file, and changes no other marker |
| RegistryCalls.LoneUnregisters | apps/api/prisma/lib/fin07d-e2e-liquidation-registry.ts:138-152 | an undisturbed unregister call takes exactly the valid ones of its ids off its target, and is rejected exactly when one is not valid |
| RegistryCalls.LoneReads | apps/api/prisma/lib/fin07d-e2e-liquidation-registry.ts:114-136 | an undisturbed read returns exactly the ids listed for its target, and changes nothing |
| RegistryCalls.CallsInTurn | apps/api/prisma/lib/fin07d-e2e-liquidation-registry.ts:79-152 | from any state of any run, registering an id, unregistering a list and reading in turn reads what was there, with the id and without the list |
| FixtureReset.ValidateRegistered | apps/api/prisma/lib/fin07d-e2e-reset.ts:412-427 | the ownership loop accepts exactly when every registered row found has the tenant A and the building A1 of the baseline, the period 2026-06 or 2026-07 and is a draft or reviewed, and returns the ids found |
| FixtureReset.OwnershipErrorIs | apps/api/prisma/lib/fin07d-e2e-reset.ts:412-425 | which objection is made to which row |
| FixtureReset.DeleteManagedRowsIs | apps/api/prisma/lib/fin07d-e2e-reset.ts:436-503 | the statements succeed exactly when nothing kept refers to what goes, payment allocations on charges of deleted units included, and then leave the declared rest |
| FixtureReset.Database.ResetTransaction | apps/api/prisma/lib/fin07d-e2e-reset.ts:400-504 | all or nothing: commits exactly when every registered row found is of tenant A, building A1 and one of the two periods, draft or reviewed, and nothing kept refers to what goes, with the declared rest; otherwise changes no table |
| FixtureReset.SelectionsKept | apps/api/prisma/lib/fin07d-e2e-reset.ts:433-461 | deleting the liquidations does not change what the later statements select |
| FixtureReset.LiquidationsGone | apps/api/prisma/lib/fin07d-e2e-reset.ts:427-461 | after the deletion only offsets of retained liquidations are left to object |
| ResetRecovery.DeletesOnlyOwnedRows | apps/api/prisma/lib/fin07d-e2e-reset.ts:400-504 | a committed reset deletes only liquidations of tenant A, building A1 and one of the two periods that are draft or reviewed and have no charges, and disposable or legacy-managed rows, and rewrites none of these |
| ResetRecovery.DeletesExactly | apps/api/prisma/lib/fin07d-e2e-reset.ts:433-503 | exactly these liquidations, incomes and applications go: the ids, the incomes of tenant A with the marker in their description, and the managed applications |
| ResetRecovery.DeletesExactTransactions | apps/api/prisma/lib/fin07d-e2e-reset.ts:465-485 | exactly these ledger transactions go: the tagged ones, those managed, and the reversals of one of those |
| ResetRecovery.DeletesExactUnits | apps/api/prisma/lib/fin07d-e2e-reset.ts:487-503 | exactly the units of tenant A and building A1 with the prefix E2E- go, with their charges, and the offsets of the liquidations that go |
| ResetRecovery.CommitsIffKeysRefer | apps/api/prisma/lib/fin07d-e2e-reset.ts:400-504 | on tables whose foreign keys all refer, a reset commits exactly when the registered rows may go, have no charges, every managed transaction that reverses the reversal of a managed one is itself the reversal of one, and the foreign keys of what it leaves all refer |
| ResetRecovery.RewritesOnlyReferences | apps/api/prisma/schema.prisma:1739 | in the other tables a row goes, or loses a reference and nothing else, only with a deleted unit |
| ResetRecovery.DeletesOnlyManagedTransactions | apps/api/prisma/lib/fin07d-e2e-reset.ts:465-485 | a deleted ledger transaction is tagged, managed by a deleted application, or the reversal of one of those |
| ResetRecovery.ResetCleans | apps/api/prisma/lib/fin07d-e2e-reset.ts:400-504 | what is left holds nothing a reset would select again and no registered liquidation |
| ResetRecovery.LegacyGuardsPass | apps/api/prisma/lib/seed-finance-fixture.ts:1730-1738 | after a reset the dirty guards of the four legacy incomes find no application |
| ResetRecovery.CleanResetIsIdle | apps/api/prisma/lib/fin07d-e2e-reset.ts:400-504 | a reset of a clean database commits and changes nothing |
| ResetRecovery.ResetTwice | apps/api/prisma/lib/fin07d-e2e-reset.ts:400-504 | an immediately following reset commits and deletes nothing |
| ResetRecovery.CrashedResetRecovers | apps/api/prisma/lib/fin07d-e2e-reset.ts:395-519 | a reset that crashed before or after the commit, after the re-seed or among the unlinks, re-run, commits and ends in one of the ways of an uninterrupted one: any of them before the re-seed, the drawn one after it |
| ResetProtocol.StepKeepsSound | apps/api/prisma/lib/fin07d-e2e-reset.ts:395-519 | every file system call, write of rows and crash of any actor keeps what each reset has listed and deleted, and revives no registered id |
| ResetProtocol.UnlinkedIsGone | apps/api/prisma/lib/fin07d-e2e-reset.ts:504-517 | whatever interleaves, a reset unlinks a marker only when its liquidation is gone for good |
| ResetProtocol.ResetTakesRegistered | apps/api/prisma/lib/fin07d-e2e-reset.ts:398-517 | a liquidation registered before a reset began is gone for good once that reset committed, unless somebody other than a reset unregistered it |
| LoneReset.LoneResetResets | apps/api/prisma/lib/fin07d-e2e-reset.ts:395-519 | from any world of any behaviour in which the registered rows may go, an undisturbed reset commits, leaves the declared rest of the tables, and takes every file of its own target and no other off the registry |
| ChargeFixture.SplitConserves | apps/api/prisma/lib/seed-finance-fixture.ts:969-973 | the shares add up to the total; all but the last are the total divided by the number of units, rounded down, and the last exceeds them by less than the number of units |
| ChargeFixture.ValidateCharges | apps/api/prisma/lib/seed-finance-fixture.ts:1187-1255 | the loops accept exactly when the charges are the expected ones as a multiset, and never report an unexpected unit |
| ChargeFixture.ChargesAreExpected | apps/api/prisma/lib/seed-finance-fixture.ts:1206-1245 | as many charges as distinct units, each unit finding its own, are in bijection with the units |
| ChargeFixture.ExpectedSum | apps/api/prisma/lib/seed-finance-fixture.ts:1195-1204 | the sum check follows from the others |
| PolicyRules.SortSorts | apps/api/prisma/lib/seed-finance-fixture.ts:786-803 | sorting permutes the rules into the order of the comparator |
| PolicyRules.SortIsStable | apps/api/prisma/lib/seed-finance-fixture.ts:786-803 | rules the comparator ties keep their order |
| PolicyRules.MatchIsPermutation | apps/api/prisma/lib/seed-finance-fixture.ts:786-803 | matching lists are equal as multisets |
| PolicyRules.TieBreaksMatch | apps/api/prisma/lib/seed-finance-fixture.ts:786-803 | two tied but different rules can be put in an order that does not match |
| PolicyRules.PermutationsMatchIff | apps/api/prisma/lib/seed-finance-fixture.ts:786-803 | every permutation of a list matches it exactly when no two different rules tie |
| PolicyRules.SpecMatchesIffPermutation | apps/api/prisma/lib/seed-finance-fixture.ts:765-803 | on the expected rules matching is equality as multisets, whatever the funds |
| PolicyRules.SpecAddsUp | apps/api/prisma/lib/seed-finance-fixture.ts:765-784 | the expected rules share out the whole 10000 basis points |
| SeedWorkflow.ChargesOf | apps/api/prisma/lib/seed-liquidation-workflow.ts:185-203 | the validator's query returns exactly the charges of the liquidation, building and period |
| SeedWorkflow.ChargesOfCounts | apps/api/prisma/lib/seed-liquidation-workflow.ts:185-203 | the query returns each charge of the tenant, liquidation, building and period as often as it is there, and no other |
| SeedWorkflow.LastAllocationWins | apps/api/prisma/lib/seed-liquidation-workflow.ts:241-249 | the amount looked up for a unit is that of its last allocation |
| SeedWorkflow.NoAllocationNoAmount | apps/api/prisma/lib/seed-liquidation-workflow.ts:241-249 | a unit without an allocation is looked up to undefined |
| SeedWorkflow.ChargesOfDistinctUnits | apps/api/prisma/schema.prisma:1674-1675 | under the unique key of charges no unit is charged twice by one liquidation |
| SeedWorkflow.AcceptedShares | apps/api/prisma/lib/seed-liquidation-workflow.ts:167-265 | field by field, what an accepted row, its snapshot and its charges share with the input |
| SeedWorkflow.AcceptedChargesAreAllocations | apps/api/prisma/lib/seed-liquidation-workflow.ts:185-265 | the charges of an accepted published row are its allocations, one to one, with equal sums and distinct units |
| SeedWorkflow.AcceptedUnitsAreInputIff | apps/api/prisma/lib/seed-liquidation-workflow.ts:205-265 | the charged units are the input's exactly when no allocation names another unit |
| SeedWorkflow.AcceptedSumIsTotalIff | apps/api/prisma/lib/seed-liquidation-workflow.ts:167-265 | the charged sum of an accepted published row is the total of the input exactly when its allocations add up to that |
| SeedWorkflow.SeededChargesTotal | apps/api/src/finanzas/liquidation-publication-snapshot.ts:238-242 | since the publisher refuses other allocations, an accepted published row charges exactly the total of the input |
| SeedWorkflow.UnitsNotCompared | apps/api/prisma/lib/seed-liquidation-workflow.ts:205-265 | an accepted publication whose allocations add up to the total may charge another unit than the input says |
| LiquidationStatus.MayBecomeIff | apps/api/prisma/migrations/20260711000000_add_liquidation_publication_snapshot/migration.sql:48-201 | a draft may become reviewed or canceled, a reviewed row published or canceled, and the others nothing |
| SeedWorkflow.InsertKeepsKeys | apps/api/prisma/migrations/20260402000001_fix_liquidation_cancel_unique/migration.sql:14-17 | inserting a row when none is active keeps at most one active row of its key |
| SeedWorkflow.FinalRow | apps/api/prisma/lib/seed-liquidation-workflow.ts:308-349 | however the workflow ends, it leaves the adopted row's key and moves its status only forward |
| SeedWorkflow.FinalCharges | apps/api/prisma/lib/seed-liquidation-workflow.ts:308-349 | however the workflow ends, no charge is lost |
| SeedWorkflow.LiquidationStore.FindActive | apps/api/prisma/lib/seed-liquidation-workflow.ts:142-150 | returns a row of the key that is not canceled, and nothing only when there is none |
| SeedWorkflow.LiquidationStore.CreateDraft | apps/api/prisma/lib/seed-liquidation-workflow.ts:271-289 | inserts a draft with every field of the input, or fails exactly when an active row of the key exists |
| SeedWorkflow.LiquidationStore.Review | apps/api/src/finanzas/liquidation-publication.use-case.ts:490-561 | moves exactly a draft to reviewed and otherwise changes nothing |
| SeedWorkflow.LiquidationStore.Publish | apps/api/src/finanzas/liquidation-publication.use-case.ts:567-620 | idle on a published row; otherwise publishes a reviewed row with its charges, all or nothing, and refuses allocations that do not add up to its total |
| SeedWorkflow.LiquidationStore.AllMatch | apps/api/prisma/lib/seed-liquidation-workflow.ts:251-265 | the loop accepts exactly when every charge matches the input and its unit's allocation |
| SeedWorkflow.LiquidationStore.ValidateCompatible | apps/api/prisma/lib/seed-liquidation-workflow.ts:167-266 | raises no error exactly when the row is compatible |
| SeedWorkflow.LiquidationStore.Adopt | apps/api/prisma/lib/seed-liquidation-workflow.ts:268-306 | adopts the active row, else creates one, else takes the rival's row, or rethrows when that was canceled before it was published |
| SeedWorkflow.LiquidationStore.AdvanceToPublished | apps/api/prisma/lib/seed-liquidation-workflow.ts:311-337 | reviews a draft, publishes a reviewed row and finds that same row again; fails exactly when publishing refuses, leaving it reviewed |
| SeedWorkflow.LiquidationStore.PublishAdopted | apps/api/prisma/lib/seed-liquidation-workflow.ts:308-349 | ends with the declared row and charges, and returns normally exactly when the row could be seeded |
| SeedWorkflow.LiquidationStore.EnsureSeedPublished | apps/api/prisma/lib/seed-liquidation-workflow.ts:98-349 | returns exactly when the adopted row can be brought to an accepted publication, naming an active published row whose charges add up to the total of the input; on a key without an active row, with the publication of the input, it creates, publishes and returns that row, field by field, with created; otherwise what it leaves is declared |
| SeedWorkflow.FirstIsSeedable | apps/api/prisma/lib/seed-liquidation-workflow.ts:268-349 | the draft of a key without an active row can be brought to an accepted publication by the publication of the input |
| SeedWorkflow.FirstSeedingExists | apps/api/prisma/lib/seed-liquidation-workflow.ts:268-349 | for distinct units and amounts that add up to the total there is such a publication, whatever is already charged |
| SeedWorkflow.OtherRowsStay | apps/api/prisma/lib/seed-liquidation-workflow.ts:98-349 | rows that were not active for the key stay as they were, and the active one only moves forward |
| SeedWorkflow.RepeatIsIdle | apps/api/prisma/lib/seed-liquidation-workflow.ts:98-349 | on a published active row it writes nothing, and returns normally exactly when the validator accepts that row |
| SeedRace.StepKeepsInv | apps/api/prisma/lib/seed-liquidation-workflow.ts:268-349 | every database access of any seeder or other user keeps the unique index, conserving snapshots, the creators and what each seeder holds; no status goes back and published rows stay as they are |
| SeedRace.RunKeepsInv | apps/api/prisma/lib/seed-liquidation-workflow.ts:268-349 | over whole runs rows never vanish, statuses only move forward and published rows stay as they are |
| SeedRace.AtMostOneActive | apps/api/prisma/lib/seed-liquidation-workflow.ts:142-150 | every reachable state has at most one row of a key that is not canceled, and each row at most one creator |
| SeedRace.ReturnedIsPublished | apps/api/prisma/lib/seed-liquidation-workflow.ts:324-349 | a returned id names a published row of the seeder's key, unchanged since it was seen, and with created the seeder's own |
| SeedRace.ReturnedAgree | apps/api/prisma/lib/seed-liquidation-workflow.ts:268-349 | whatever other users do, all seeders of a key that returned at any moments name the same published row, and at most one reports created |
| SeedRace.CreatedIff | apps/api/prisma/lib/seed-liquidation-workflow.ts:268-289 | in every state of every run a seeder reports created exactly when an insert of its own made a row |
| SeedRace.StepCreated | apps/api/prisma/lib/seed-liquidation-workflow.ts:271-289 | that insert makes a draft with every field of the input, and the row is the seeder's own from then on |
| SeedRace.LoneSeederSeeds | apps/api/prisma/lib/seed-liquidation-workflow.ts:268-349 | from any state of any run, an undisturbed seeder of a key without an active row creates the row, publishes it and returns created |
| SeedRace.ReturnsSeeded | apps/api/prisma/lib/seed-liquidation-workflow.ts:339-349 | a seeder returns only when the row in the table is accepted and its charges add up to the total of its input |
| SeedRace.ReturnedChargesTotal | apps/api/prisma/lib/seed-liquidation-workflow.ts:185-265 | in every state the row of a returned seeder charges exactly its total, unless other users changed the charges of that row |
| SeedRace.RefindsOwnRow | apps/api/prisma/lib/seed-liquidation-workflow.ts:332-343 | the findActive after publishing finds the row the seeder published, as published |
| UnitRenaming.ExtractUndoesPrefix | apps/api/scripts/migrate-san-cristobal-codes.ts:85-100 | extracting the base undoes both prefixes of both towers |
| RenamedCodes.BaseCodeIs | apps/api/scripts/migrate-san-cristobal-codes.ts:85-88 | extracting the base drops exactly one of the prefixes A-, B-, AP- and BP- |
| RenamedCodes.TargetIs | apps/api/scripts/migrate-san-cristobal-codes.ts:90-100 | the code wanted for a unit, letter by letter; other units are left alone |
| RenamedCodes.RenamedBecomes | apps/api/scripts/migrate-san-cristobal-codes.ts:235-409 | apartments get A- or B- and their base, parkings AP- or BP-, the base of their apartment and their place after the first, with the old code in the label |
| RenamedCodes.TowersAndTypesDiffer | apps/api/scripts/migrate-san-cristobal-codes.ts:90-100 | units of different towers, and apartments and parkings, never get the same code |
| RenamedCodes.ParkingsDiffer | apps/api/scripts/migrate-san-cristobal-codes.ts:343-349 | different parkings of one apartment in one tower get different codes |
| RenamedCodes.DecimalReads | apps/api/scripts/migrate-san-cristobal-codes.ts:346-349 | the place in a code is written in decimal, without leading zeros |
| RenamedCodes.ApartmentIs | apps/api/scripts/migrate-san-cristobal-codes.ts:315-341 | the unit a parking takes its base from is the one its last association names |
| UnitRenaming.FindUnit | apps/api/scripts/migrate-san-cristobal-codes.ts:154-155 | the unit map answers with a unit of that id exactly when there is one |
| UnitRenaming.AssociationOf | apps/api/scripts/migrate-san-cristobal-codes.ts:182-191 | the association found for a parking is one of that parking, and there is none exactly when it has none |
| UnitRenaming.LastAssociationWins | apps/api/scripts/migrate-san-cristobal-codes.ts:182-191 | of several associations of a parking the last one is found |
| UnitRenaming.ParkingsOf | apps/api/scripts/migrate-san-cristobal-codes.ts:182-191 | the parkings listed for an apartment are exactly its associations |
| UnitRenaming.IndexOf | apps/api/scripts/migrate-san-cristobal-codes.ts:343-349 | the index is the first entry of the parking, -1 exactly when there is none |
| UnitRenaming.NewLabelIsMigrated | apps/api/scripts/migrate-san-cristobal-codes.ts:388-391 | a new parking label names an old code and is never overwritten again |
| UnitRenaming.EveryPartialStateIsLegal | apps/api/scripts/migrate-san-cristobal-codes.ts:415-444 | with clear targets the unique key holds after any subset of the updates |
| UnitRenaming.PartialStatesLegalIff | apps/api/scripts/migrate-san-cristobal-codes.ts:351-386 | every partial state is legal exactly when every target is clear of all other old and new codes |
| UnitRenaming.SettledIff | apps/api/scripts/migrate-san-cristobal-codes.ts:85-100 | a second run wants the codes the first gave exactly when the bases are stable |
| UnitRenaming.SecondRunIdleIff | apps/api/scripts/migrate-san-cristobal-codes.ts:220-409 | a second run neither renames nor collides exactly when the bases are stable |
| UnitRenaming.ApartmentsKeepBases | apps/api/scripts/migrate-san-cristobal-codes.ts:315-341 | associations that point at no parking keep every base |
| UnitRenaming.UnstableRenaming | apps/api/scripts/migrate-san-cristobal-codes.ts:315-341 | a loaded input without collisions whose bases are not stable: a parking associated to a parking |
| RenamePlan.BuildLookups | apps/api/scripts/migrate-san-cristobal-codes.ts:181-191 | the filled maps answer like the last association of a parking and the list of an apartment |
| RenamePlan.PlanApartment | apps/api/scripts/migrate-san-cristobal-codes.ts:220-285 | the unit goes to the conflicts when its tower is unknown or its code taken or planned, and to its changes or skips otherwise; the plan stays right |
| RenamePlan.PlanParking | apps/api/scripts/migrate-san-cristobal-codes.ts:290-409 | the unit goes to the orphans without a target, to the conflicts when its code is taken or planned, and to its changes or skips otherwise; a crossing association is flagged without skipping it |
| RenamePlan.PlanMigration | apps/api/scripts/migrate-san-cristobal-codes.ts:193-409 | every apartment and parking is in exactly one list, with its target; no conflicts exactly when the renaming collides with nothing |
| RenamePlan.SettlesIff | apps/api/scripts/migrate-san-cristobal-codes.ts:204-285 | checking each unit against those before it amounts to comparing all pairs |
| RenameRun.UnitTable.Update | apps/api/prisma/schema.prisma:572-573 | an update fails exactly on an unknown id or a code its building has |
| RenameRun.UnitTable.Apply | apps/api/scripts/migrate-san-cristobal-codes.ts:423-441 | no update of the loop violates the key, and all changes are applied |
| RenameRun.RunMigration | apps/api/scripts/migrate-san-cristobal-codes.ts:106-449 | commits exactly when not dry, free of collisions and of crossings, and then every unit has the code and label that RenamedCodes.Becomes spells out; otherwise nothing changes |
| RenameRun.ChangesAreAll | apps/api/scripts/migrate-san-cristobal-codes.ts:267-285 | in a plan without conflicts every unit that is to change is among the changes |
| RenameRun.SecondPlanIdleIff | apps/api/scripts/migrate-san-cristobal-codes.ts:193-409 | the plan of a second run is empty of changes and conflicts exactly when the bases were stable |
| ResponseCache.Victim | apps/api/src/assistant/cache.service.ts:141-149 | the scan finds the first entry with the fewest hits |
| ResponseCache.AiCacheService.Get | apps/api/src/assistant/cache.service.ts:108-128 | answers a stored response exactly when its age in milliseconds is at most a thousand times the time to live, or there is none, and changes the cache as declared; the bound and distinct keys stay |
| ResponseCache.AiCacheService.FindVictim | apps/api/src/assistant/cache.service.ts:141-149 | the loop finds the first entry with the fewest hits, or keeps the new key when there is none |
| ResponseCache.AiCacheService.Set | apps/api/src/assistant/cache.service.ts:137-160 | evicts at the bound and puts the entry, in Map order; the bound stays |
| ResponseCache.AiCacheService.Clear | apps/api/src/assistant/cache.service.ts:203-206 | empties the cache and the counters |
| ResponseCache.AiCacheService.CollectExpired | apps/api/src/assistant/cache.service.ts:228-237 | collects exactly the keys of the entries older than a thousand times the time to live in milliseconds |
| ResponseCache.AiCacheService.CleanupExpired | apps/api/src/assistant/cache.service.ts:228-240 | exactly the entries older than a thousand times the time to live in milliseconds go; the others stay, in order |
| ResponseCache.DeleteOneMore | apps/api/src/assistant/cache.service.ts:239-239 | deleting collected keys one after the other is filtering by them |
| CacheHistory.Bounded | apps/api/src/assistant/cache.service.ts:137-160 | after any operations keys are distinct and the size is within the bound |
| CacheHistory.EvictionPicksFirstColdest | apps/api/src/assistant/cache.service.ts:139-152 | an eviction removes the first entry with the fewest hits and no other |
| CacheHistory.GetReturnsLatest | apps/api/src/assistant/cache.service.ts:108-128 | a response is that of the latest set of its key since the last clear, made at most a thousand times the time to live in milliseconds ago |
| CacheHistory.CacheIsTtlMap | apps/api/src/assistant/cache.service.ts:108-160 | under a monotone clock, with fewer keys than the bound, a get answers exactly the latest set that is not older than a thousand times the time to live in milliseconds |
| CacheStatistics.HitsAndMissesAreGets | apps/api/src/assistant/cache.service.ts:108-128 | hits and misses add up to the gets since the last clear |
| CacheStatistics.HitsAreLiveOrLost | apps/api/src/assistant/cache.service.ts:108-160 | the hit counter is the hits of live entries plus those lost to eviction, overwriting and expiry |
| CacheStatistics.FullCacheDrops | apps/api/src/assistant/cache.service.ts:137-160 | for every bound from two up, setting the newest key of a full cache again loses the oldest entry |
| Pricing.RoundRatio | apps/api/src/assistant/pricing.ts:50-62 | Math.round: within half of the ratio, halves upwards |
| Pricing.TokenCostNear | apps/api/src/assistant/pricing.ts:37-69 | one tracked cost is within half a cent of the exact one, with the four prices in numbers |
| Pricing.TokenCostMonotone | apps/api/src/assistant/pricing.ts:37-69 | more tokens never cost less |
| Pricing.ThresholdsAgree | apps/api/src/assistant/pricing.ts:84-105 | below the budget the percentage is between 0 and 100, from it on at least 100, and exceeding implies the warning |
| Budget.AiBudgetService.GetEffectiveLimits | apps/api/src/assistant/budget.service.ts:95-126 | for the budget and for the calls: override, else plan, else default; with no budget row yet the default, whatever the plan |
| Budget.AiBudgetService.CheckBudget | apps/api/src/assistant/budget.service.ts:133-227 | allows, blocks and warns as declared; the remaining cents are never negative; counters and marks only grow |
| Budget.BudgetCheckIs | apps/api/src/assistant/budget.service.ts:147-206 | what a budget check allows and marks, in cents and percent |
| Budget.AiBudgetService.CheckCallsLimit | apps/api/src/assistant/budget.service.ts:233-329 | a limit of 0 or from 9999 on allows everything and touches no row; below, with the hard stop, allows exactly when the month is not blocked and its calls are below the limit, and blocks a month at the limit |
| Budget.AiBudgetService.CheckCalls | apps/api/src/assistant/budget.service.ts:257-329 | the check of a limit from 1 to 9998, with the percentage; counters and marks only grow |
| Budget.CallsCheckIs | apps/api/src/assistant/budget.service.ts:237-303 | what a calls check allows and marks, in numbers |
| Budget.AiBudgetService.TrackUsage | apps/api/src/assistant/budget.service.ts:335-365 | adds one call, the tokens and the cost, and does not touch the block |
| Budget.AiBudgetService.UpdateBudget | apps/api/src/assistant/budget.service.ts:413-443 | accepts exactly 0 to 500000 and changes the limit only |
| BudgetRace.StepKeepsInv | apps/api/src/assistant/budget.service.ts:133-365 | every read of limits or row, every write of a mark, tracking, drop, month change and budget change keeps room for what is in flight |
| BudgetRace.OvershootBound | apps/api/src/assistant/budget.service.ts:147-189 | with the hard stop no month exceeds the largest budget, if it is at least a cent, less a cent plus the requests past the first look of their budget check times the dearest, nor a calls limit from 1 to 9998 less one plus the requests past the first look of their calls check |
| BudgetBound.BoundIsReached | apps/api/src/assistant/budget.service.ts:147-189 | for every number of requests at once and every budget that requests can spend up to its last cent, some run ends exactly at the bound on the cost |
| BudgetBound.BoundReachedIff | apps/api/src/assistant/budget.service.ts:147-189 | some run ends at the bound on the cost exactly when requests can spend the budget up to its last cent within the calls limit and what may exceed it |
| BudgetBound.CallsBoundIsReached | apps/api/src/assistant/budget.service.ts:257-276 | for every calls limit from 1 to 9998 some run ends exactly at the bound on the calls |
| BudgetRace.CostDrift | apps/api/src/assistant/budget.service.ts:335-365 | the tracked cents stay within half a cent a call of the exact cost, also when the service degrades softly |
| BudgetRace.RowsGrow | apps/api/src/assistant/budget.service.ts:147-365 | between any two states counters do not fall and no mark is cleared |
| BudgetRace.BlockedHasCause | apps/api/src/assistant/budget.service.ts:159-165 | a month is blocked only after a check that had seen the limits while the month was current found its row at a cap and not blocked |
| BudgetRace.BlockMovesIff | apps/api/src/assistant/budget.service.ts:159-165 | a block that is there changes exactly by the late write of a check that had found the row at a cap before it was blocked |
| BudgetBound.BlockMoves | apps/api/src/assistant/budget.service.ts:142-165 | two checks at once: the second write moves the block |
| BudgetRace.BlockedMonthAdmitsNone | apps/api/src/assistant/budget.service.ts:147-157 | a blocked month admits nobody, even after the budget was raised |
| Calendar.MonthDayFormula | apps/api/src/assistant/period-resolver.service.ts:60-66 | months laid end to end fall where DayFromYear and DayWithinYear of the standard put them |
| Calendar.MakeDaySteps | apps/api/src/assistant/period-resolver.service.ts:225-233 | MakeDay carries months below 0 and above 11 into the year as the standard says |
| Calendar.FullYearIsYearFromTime | apps/api/src/assistant/period-resolver.service.ts:103-107 | getFullYear is the largest year that has begun |
| Calendar.MonthOfFirst | apps/api/scripts/backfill_liquidation_periods.ts:13-16 | getFullYear and getMonth undo the constructor for the first of a month, except in the years 0 to 99 |
| PeriodKeys.KeyRoundTrip | apps/api/src/assistant/period-resolver.service.ts:60-64 | a key reads back from its text |
| PeriodKeys.KeyTextIs | apps/api/src/assistant/period-resolver.service.ts:199-199 | a key is written as its year, a dash and its month in two digits |
| PeriodKeys.IndexRoundTrip | apps/api/src/assistant/period-resolver.service.ts:215-223 | month indexes and keys correspond one to one |
| PeriodKeys.WindowOf | apps/api/src/assistant/period-resolver.service.ts:225-233 | from year 100 on a key's window runs from the first instant of its month to the last before the next |
| PeriodKeys.WindowIsMonth | apps/api/src/assistant/period-resolver.service.ts:225-233 | the instants of a window are exactly those whose getFullYear and getMonth are that month |
| PeriodKeys.AddMonthsIsIndexAddition | apps/api/scripts/backfill_liquidation_periods.ts:11-17 | addMonths is addition on the month index exactly from year 100 on |
| PeriodKeys.GetPreviousIsIndexStep | apps/api/src/assistant/ai-nudges.service.ts:765-774 | getPreviousMonth steps the month index back by one |
| PeriodKeys.PreviousMonthsAgree | apps/api/src/assistant/period-resolver.service.ts:209-213 | all three ways to the month before agree |
| PeriodResolver.ClampAmount | apps/api/src/assistant/period-normalizer.service.ts:303-314 | an amount is truncated, below 1 taken for 1 and from 13 on for 12, and missing only when the number is |
| PeriodResolver.AcceptedIsModern | apps/api/src/assistant/period-semantic-validator.service.ts:67-92 | a month range is accepted exactly with months 1 to 12 and years from 1900 on, in either order |
| PeriodResolver.BuildPeriodsFromIndexes | apps/api/src/assistant/period-resolver.service.ts:191-203 | the loop builds exactly the keys from start to end |
| PeriodResolver.WindowsPartition | apps/api/src/assistant/period-resolver.service.ts:225-233 | every time from startDate to endDate is in exactly one window, and no other time in any |
| PeriodResolver.KeysTile | apps/api/src/assistant/period-resolver.service.ts:191-233 | the windows of consecutive keys are disjoint and leave no gap |
| PeriodResolver.CoversTiles | apps/api/src/assistant/period-resolver.service.ts:191-233 | the windows of a result that covers some months follow each other from startDate to endDate |
| PeriodResolver.ResolveRelativeRange | apps/api/src/assistant/period-resolver.service.ts:103-143 | a period range of exactly the amount of months, ending with the current month or the one before, from the first instant of the first to the last of the last; unknown without amount or unit |
| PeriodResolver.LastKey | apps/api/src/assistant/period-resolver.service.ts:205-213 | the last of them is what currentMonth or previousMonth answers |
| PeriodResolver.ResolveExplicitRange | apps/api/src/assistant/period-resolver.service.ts:145-189 | a period range of exactly the months from start to end, with its first and last instant; empty, with endDate before startDate, exactly when reversed; unknown exactly when a number is missing or zero |
| PeriodResolver.ResolveYearToDate | apps/api/src/assistant/period-resolver.service.ts:96-101 | a period range from January to the current month, holding the reference date |
| PeriodResolver.ResolveNamedMonth | apps/api/src/assistant/period-resolver.service.ts:79-94 | the one month named, with its first and last instant; unknown exactly when year or month is missing or zero |
| PeriodResolver.Resolve | apps/api/src/assistant/period-resolver.service.ts:22-58 | every kind of period resolves to its kind of result, with exactly the months it stands for and their first and last instant |

## Left out

- Prisma, NestJS, HTTP, audit logs, notifications and console output: a table is a map or sequence of rows with its keys, a transaction an atomic step.
- JsonText.ParsePrint: the reader reads what the printer writes, with white space behind it; that JSON.parse also takes white space inside, other escapes and other spellings of numbers is not modelled.
- The SHA-256 digests of the registry and the cache: treated as injective; for the registry the text before hashing is proved injective. `generateKey` of the cache is not part of this model.
- The parsing of the database URL: a target is a host without NUL, a port and a database name.
- `clearFin07dMutableLiquidations` (a recursive delete), fsync durability and temporary files left by crashes beyond their being invisible to readers.
- SeedWorkflow.LiquidationStore.Publish: the publication use case enters by its contract (idle, refused, or a snapshot whose allocations add up to the total, with charges under the unique key); how it computes allocations, the FIN-06 checks, due dates and notifications is not modelled.
- SeedWorkflow.LiquidationStore.Review: who reviewed, timestamps and the audit entry are dropped.
- SeedWorkflow.LiquidationStore.EnsureSeedPublished: other users act only between the first findActive and the one after a P2002; all other interleavings are in SeedRace. The rows of `findFirst` come in no order; the unique index makes that immaterial.
- SeedRace.ReturnedAgree: no other user deletes liquidations. The reset does, but only unpublished rows of the two periods of its own fixture (`apps/api/prisma/lib/fin07d-e2e-reset.ts:407-433`), and so do the cascades of a deleted tenant or building.
- SeedRace.ReturnedChargesTotal: the charges that publishing finds already there are among those of other users; what else a publication reads is not modelled.
- ResetRecovery.CrashedResetRecovers: the re-seed enters as a relation with a contract (however it ends, it soils nothing, revives no registered id and then finds nothing to do), because the whole fixture seeding is not modelled.
- ResetProtocol.StepKeepsSound: ids are registered after they were given out, and new rows get new ids; the re-seed and the transaction are one step each. A call goes on when the reset that began it crashes.
- FixtureReset.Database.ResetTransaction: foreign keys are checked at the end of each statement, and the transaction is atomic (Serializable). The tables whose keys to units cascade or are set to null (occupants, associations, documents, balance snapshots, group members; tickets, payments, roles, contexts) are one table of references to units; movement allocations that go with an income are not modelled. No restricting key refers to any of them.
- RegistrySafety.StepKeepsInv: the registry calls are steps of a machine instead of methods, because their interleaving is the point; a step is one file-system call.
- RegistrySafety.ReadSeesRegistered: the sorting of the returned ids is not modelled; Promise.all in unregister is modelled as unlinks in any order; each id is validated alone, so an invalid one rejects the call while the others are still unlinked.
- RenameRun.RunMigration: other users do not write units while the script runs; tower names other than Torre A and Torre B, building names in the report and reason texts are dropped, as the script loads no other building. A label is called caption.
- BudgetRace.OvershootBound: a check is a read of the limits and the clock, a read of the row, and a write; that the clock is looked at a moment after the limits is not modelled. `trackUsage` has no caller in this repository besides the service's own interface.
- Pricing.TokenCostNear: over exact numbers; rounding of IEEE doubles near exact halves is not modelled, nor are the token estimates and examples in comments.
- Budget.AiBudgetService.CheckCallsLimit: the fallback of getEffectiveLimits on a database error is not modelled.
- ResponseCache.AiCacheService.Get: the stored model name, `getHitRate`, `estimateSavings` and the timer are dropped; clocks are parameters.
- PeriodResolver.Resolve: labels with month names are dropped, periods carry year and month with their text proved to round-trip; negative years have no key. DST, time zones and the limit of the time range are not modelled.
- PeriodResolver.ClampAmount: Number and the number words are applied before it.
- The LLM providers, the classifier, the Spanish patterns of the normalizer, seeds that are only data, and the `addMonths` of `seed-pilot-data-pack.ts`, which keeps the day of the month and is another function.
