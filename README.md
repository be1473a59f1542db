# Petstore pet adapter and services, modelled in Dafny

This project models the core of a Go pet-store backend:

- **The SQL persistence adapter for pets** (`internal/db/adapter/sql_pet.go`).
  - The database is a `PetStore` class. Its fields are the tables: `categories`, `tags` with its id sequence, `pets` with its id sequence, and `pet_tags` as `links`.
  - Each SQL statement the adapter issues is one small method, with the behaviour its text states. For example, `INSERT … ON CONFLICT (name) DO NOTHING RETURNING id` returns "no row" when the name already exists.
  - The adapter's operations are methods that issue those statements in the source's order. There are no transactions, so the writes made before an early error return stay in place.
- **The pet service** (`internal/modules/pet/service/pet.go`). It parses ids with `strconv.Atoi`, maps requests to the storage model, and turns storage outcomes into a status flag and a numeric error code.
- **The order service** (`internal/modules/order/service/order.go`). It parses ids, rejects ids `<= 0`, and classifies storage errors into codes.

Both services take their storage as a function parameter. A result that does not depend on that function is a result for which the storage is never called.

Modules, in dependency order:

| module | file | what it holds |
|---|---|---|
| `Wrappers` | wrappers.dfy | `Option`, `Result` |
| `Errors` | errors.dfy | Go errors as values, with `Message` giving `err.Error()`; the numeric codes of `internal/infrastructure/errors/numeric.go` |
| `Models` | models.dfy | `Pet`, `Category`, `Tag`, `Order` |
| `Strconv` | strconv.dfy | `strconv.Atoi` over the int64 range, and decimal printing (`%d`) |
| `Strings` | strings.dfy | `strings.Join` |
| `PetRows` | pet_rows.dfy | the flat join rows, the two row loops (by status and by id), and the reference grouping they are proved against |
| `PetTables` | pet_tables.dfy | table contents as values: tag find-or-create, links, the `COALESCE`/`NULLIF` update, the SQL join that produces the rows |
| `PetStatements` | pet_statements.dfy | the text and parameters of `UpdatePetForm`'s statement, the `IN (...)` list, the photo-URL encoding |
| `SqlPet` | sql_pet.dfy | the `PetStore` class: one method per statement, and the adapter's operations |
| `PetService` | pet_service.dfy | the pet service |
| `OrderService` | order_service.dfy | the order service |

Source quirks kept as written:

- `FindPetbyID` consumes the first joined row in its `rows.Next()` existence check and never scans it. So a pet with one tag comes back as the zero pet, and a pet with `m >= 2` tags comes back with `m - 1` of them.
- `UpdatePet` declares a second `idCategory` inside its category check. The `UPDATE` therefore always receives category 0 and never changes a pet's category.
- The pet service's bad-request guard tests `status` and `reqID`, not `name`.
- A pet without tags produces a joined row with NULL tag columns. Scanning that row into `int`/`string` fails, so `FindPetbyStatus` fails as a whole when such a pet matches.
- `UpdatePetForm` with no field given builds `UPDATE pet Set  WHERE id = $1`, which the database rejects.
- `UpdatePet` with tags for a pet id that does not exist fails on the `pet_tags` foreign key.

## Model

| member | source | states |
|---|---|---|
| `Strconv.Atoi` | internal/modules/pet/service/pet.go:30 | a result exists only for non-empty text and always lies in the int64 range; a leading '-' gives a value <= 0, any other text a value >= 0 |
| `Strconv.AtoiFormatInt` | internal/modules/pet/service/pet.go:54 | every int64 survives printing and parsing again (`Atoi(FormatInt(i)) == Some(i)`) |
| `Strconv.AtoiRejectsNonDigit` | internal/modules/order/service/order.go:24 | a text with a non-digit after the sign position does not parse |
| `Strconv.Decimal` | internal/db/adapter/sql_pet.go:20 | `%d` of a natural number is a non-empty string of digits |
| `Strconv.DecimalValue` | internal/db/adapter/sql_pet.go:259 | the digits of `%d` read back as the number, so distinct numbers print differently |
| `Strings.Join` | internal/db/adapter/sql_pet.go:151 | no elements give "", one element gives itself, and the length is the elements' total plus one separator per gap; more than one element starts with the first element and the separator |
| `PetStatements.EncodePhotoUrls` | internal/db/adapter/sql_pet.go:151 | the photourls column is "" for no URLs, the URL itself for one, and otherwise the URLs' total length plus two characters per `", "` separator |
| `PetStatements.PhotoUrlsRoundTrip` | internal/db/adapter/sql_pet.go:151 | reading the stored photo URLs back (the read side is sql_pet.go:92) always gives one element, and gives the original list exactly when it had one URL |
| `PetStatements.PlaceholderInjective` | internal/db/adapter/sql_pet.go:259 | `$m == $n` only when `m == n` |
| `PetStatements.FormAssignments` | internal/db/adapter/sql_pet.go:19-28 | one assignment per non-empty field, name before status; no assignment has an empty value, and no column is assigned twice |
| `PetStatements.SetClausesDistinct` | internal/db/adapter/sql_pet.go:19-28 | one SET clause per assignment, and no two clauses are the same text, since each has its own placeholder |
| `PetStatements.FormAssignmentsEffect` | internal/db/adapter/sql_pet.go:19-28 | the form update sets name and status exactly when they are non-empty and leaves every other column alone; it assigns nothing exactly when both are empty |
| `PetStatements.BuildUpdatePetForm` | internal/db/adapter/sql_pet.go:14-31 | params are the non-empty name, then the non-empty status, then the id; the clauses are numbered from `$1`; the `WHERE id` placeholder is `$|params|`; with both fields empty, params is `[petID]` |
| `PetStatements.BuildInList` | internal/db/adapter/sql_pet.go:257-283 | placeholder `i` is `$(i+1)`, the list is their `", "` join, and the arguments are the statuses in order, with the same length |
| `PetStatements.InListDistinct` | internal/db/adapter/sql_pet.go:257-260 | the placeholders are pairwise distinct |
| `PetRows.AggregateByStatus` | internal/db/adapter/sql_pet.go:292-345 | the loop returns the reference grouping `Group(rows)` when every row scans, and the scan error otherwise |
| `PetRows.Group` | internal/db/adapter/sql_pet.go:305-338 | the reference grouping: the rows split into maximal runs of one pet id, one pet per run (its properties are the `Group…` lemmas below) |
| `PetRows.Advance` | internal/db/adapter/sql_pet.go:305-332 | after a row, the loop holds a pet with that row's id |
| `PetRows.ByStatusResult` | internal/db/adapter/sql_pet.go:295-345 | FindPetbyStatus over a complete result set: no rows give an empty list and no error; otherwise a result exactly when every row scans, else the scan error; a result keeps every row's tag, in row order, has no more pets than rows, and every pet carries a tag |
| `PetRows.StatusFoldGroups` | internal/db/adapter/sql_pet.go:292-338 | the loop's state after all rows, with the last pet flushed, equals the reference grouping |
| `PetRows.StatusFoldOwes` | internal/db/adapter/sql_pet.go:295-333 | after `i >= 1` rows, the reference grouping is the pets flushed so far, then the current pet continued over the remaining rows |
| `PetRows.GroupAdjacentIdsDiffer` | internal/db/adapter/sql_pet.go:305 | consecutive pets of the result have different ids, so the runs are maximal |
| `PetRows.GroupKeepsEveryTag` | internal/db/adapter/sql_pet.go:318-331 | all tags of the result, in order, are the rows' tags in row order; total tags equal total rows |
| `PetRows.GroupPetsHaveTags` | internal/db/adapter/sql_pet.go:318-324 | every pet carries at least one tag |
| `PetRows.GroupPetsComeFromRows` | internal/db/adapter/sql_pet.go:309-317 | every pet's id, name, status, category and `[photourls]` come from one row |
| `PetRows.GroupIdsAtLeastFirst` | internal/db/adapter/sql_pet.go:305 | on rows ordered by pet id, no pet id is below the first row's |
| `PetRows.GroupSortedRowsGivesDistinctIds` | internal/db/adapter/sql_pet.go:276 | on rows ordered by pet id, the pets have strictly ascending, hence distinct, ids |
| `PetRows.GroupOfOneId` | internal/db/adapter/sql_pet.go:305-331 | rows of a single pet id make exactly one pet, carrying every row's tag |
| `PetRows.Accumulate` | internal/db/adapter/sql_pet.go:79-112 | FindPetbyID's loop state: the zero pet before any row; after rows, a pet with the last row's id and no more tags than rows |
| `PetRows.ByIdResult` | internal/db/adapter/sql_pet.go:74-114 | `ErrPetNotFound` exactly when there is no row; one row is the zero pet; an error otherwise is the scan error; a pet read from two or more rows has the last row's id and fewer tags than rows |
| `PetRows.AggregateById` | internal/db/adapter/sql_pet.go:74-114 | no rows give `ErrPetNotFound`; otherwise the first row is skipped unscanned and the rest are folded from the zero pet; a row that does not scan gives the scan error |
| `PetRows.AccumulateOneId` | internal/db/adapter/sql_pet.go:88-112 | from the zero pet, the rows of one non-zero id fold to the run's pet |
| `PetRows.AccumulateZeroId` | internal/db/adapter/sql_pet.go:88-112 | rows with pet id 0 never reseed, so the zero pet gathers their tags |
| `PetRows.ByIdOnOnePet` | internal/db/adapter/sql_pet.go:74-114 | for k rows of one id: k = 0 is `ErrPetNotFound`; k = 1 is the zero pet with no error; for k >= 2, the pet seeded from row 2 with the k - 1 tags of rows 2..k, or the scan error |
| `PetRows.RunPetTags` | internal/db/adapter/sql_pet.go:74-79 | the tag the skipped first row carried is the one missing from the result |
| `PetRows.ByIdDropsFirstRow` | internal/db/adapter/sql_pet.go:74-79 | on the rows of one pet, the by-id result is the by-status grouping of all rows but the first |
| `PetTables.FindTag` | internal/db/adapter/sql_pet.go:171-173 | a tag is found exactly when a row has that name, and the tag found is such a row |
| `PetTables.FindOrCreate` | internal/db/adapter/sql_pet.go:159-177 | resolving one name only appends, at most one row; afterwards the name is present; an existing name changes nothing; a new name gets the counter's id |
| `PetTables.FindOrCreateAll` | internal/db/adapter/sql_pet.go:158-177 | resolving names in order only appends, at most one row per name, and never lowers the id counter |
| `PetTables.FindOrCreateFacts` | internal/db/adapter/sql_pet.go:159-177 | resolving a name keeps tag names unique and ids ascending, only appends, and leaves the name present; an existing name changes nothing |
| `PetTables.FindOrCreateAllValid` | internal/db/adapter/sql_pet.go:158-177 | resolving a list of names keeps the tags table valid (no two rows with the same name) and never changes or removes an existing row |
| `PetTables.FindOrCreateAllCovers` | internal/db/adapter/sql_pet.go:158-177 | after resolving a list of names, every one of them is present |
| `PetTables.FindOrCreateAllPresent` | internal/db/adapter/sql_pet.go:166-176 | names that are all present already leave the table unchanged |
| `PetTables.FindOrCreateAllIdempotent` | internal/db/adapter/sql_pet.go:158-177 | resolving the same names twice gives the same table as resolving them once |
| `PetTables.FindOrCreateHas` | internal/db/adapter/sql_pet.go:159-177 | resolving a name adds that name, and no other, to the names the table has |
| `PetTables.FindOrCreateAllHas` | internal/db/adapter/sql_pet.go:158-177 | after resolving a list of names, a name has a row exactly when it had one before or is in the list |
| `PetTables.ExistingAtTurnFound` | internal/db/adapter/sql_pet.go:164-169 | the insert of name `i` finds an existing row, and so returns no row, exactly when the table had the name or an earlier name in the list was the same |
| `PetTables.GrewByOnePerName` | internal/db/adapter/sql_pet.go:158-177 | when resolving names added one row per name, no name found an existing row at its turn |
| `PetTables.LinksPointAtNamedTags` | internal/db/adapter/sql_pet.go:179-185 | in a valid tags table holding every name, the links written are one per name, in order, each for the pet and each pointing at the tag row with that name |
| `PetTables.FindTagByIdUnique` | internal/db/adapter/sql_pet.go:64 | with ascending tag ids, the `t.id` lookup of the join finds the very row that holds the id |
| `PetTables.LinksForStep` | internal/db/adapter/sql_pet.go:158-186 | one more name resolves the table by that name and appends its link, while earlier links still point where they did |
| `PetTables.WithoutPet` | internal/db/adapter/sql_pet.go:218-220 | exactly the links of other pets are kept |
| `PetTables.CoalesceWhere` | internal/db/adapter/sql_pet.go:202-211 | the update keeps the table's length and every id; rows with another id are unchanged; the row with the id becomes its coalesced form; with category 0 every category is kept |
| `PetTables.Coalesced` | internal/db/adapter/sql_pet.go:205-208 | `COALESCE(NULLIF($k, ''), col)`: a column keeps its value exactly when the new text is empty or equal to it, and otherwise takes the new text; the category likewise with 0; the id is kept and photourls always takes the new text |
| `PetTables.AssignAllKeeps` | internal/db/adapter/sql_pet.go:14-30 | the form update never changes id, category or photourls |
| `PetTables.AssignWhere` | internal/db/adapter/sql_pet.go:30-34 | the form update keeps the table's length and leaves every row with another id unchanged |
| `PetTables.FindCategoryByName` | internal/db/adapter/sql_pet.go:118-125 | a category is found exactly when one has that name, and the one found is such a category |
| `PetTables.PetJoinRows` | internal/db/adapter/sql_pet.go:61-64 | the LEFT JOINs give every selected pet at least one row, even without tags, and each row carries the pet's id |
| `PetTables.LinkedTagIds` | internal/db/adapter/sql_pet.go:63 | the tag ids of the pet's pet_tags rows: each comes from a link of that pet, and there are no more than links |
| `PetTables.RowsOfPet` | internal/db/adapter/sql_pet.go:60-65 | a pet filtered out, or without a category row, gives no rows; otherwise one row per link, or one row when it has none; every row carries the pet's id |
| `PetTables.JoinRows` | internal/db/adapter/sql_pet.go:60-66 | every row of the join belongs to a pet of the table |
| `PetTables.JoinRowsSorted` | internal/db/adapter/sql_pet.go:276 | with the pet table in id order, the joined rows are ordered by pet id |
| `PetTables.JoinRowsById` | internal/db/adapter/sql_pet.go:65 | the by-id query returns only rows of that id, and none when no pet has it |
| `PetTables.JoinRowsOfOnePet` | internal/db/adapter/sql_pet.go:61-66 | the by-id query of a stored pet returns that pet's rows, one per link |
| `PetTables.FindByIdOfStoredPet` | internal/db/adapter/sql_pet.go:50-115 | reading a stored pet back by id: with at most one link the result is the zero pet; with m >= 2 links to existing tags, the pet's id, name, status and category with m - 1 tags |
| `PetTables.JoinRowsStatusIn` | internal/db/adapter/sql_pet.go:275 | every row of the by-status query has one of the requested statuses |
| `PetTables.FindByStatusOnTables` | internal/db/adapter/sql_pet.go:256-346 | a successful by-status read of the tables lists each pet once in ascending id order, each with a requested status |
| `PetTables.FindByStatusFailsOnUntaggedPet` | internal/db/adapter/sql_pet.go:300-302 | one matching pet without tags makes the whole by-status read fail with the scan error |
| `SqlPet.PetStore.SelectCategoryId` | internal/db/adapter/sql_pet.go:119-125 | the id of the category with that name, or no row |
| `SqlPet.PetStore.constructor` | internal/db/adapter/sql_adapter.go:26-28 | an empty database over categories with positive, distinct ids satisfies the schema's constraints |
| `SqlPet.PetStore.CheckFields` | internal/db/adapter/sql_pet.go:118-134 | a failed query gives 0 and its error; otherwise there is no error, and the id is the named category's id, or 0 exactly when no category has the name |
| `SqlPet.PetStore.InsertPetRow` | internal/db/adapter/sql_pet.go:147-152 | a new row with the next serial id, which is returned; a missing category is a foreign-key error with nothing written |
| `SqlPet.PetStore.InsertTagOnConflict` | internal/db/adapter/sql_pet.go:159-165 | an existing name returns no row and writes nothing; a new name gets a row and its new id |
| `SqlPet.PetStore.SelectTagIdByName` | internal/db/adapter/sql_pet.go:171-173 | the id of the tag with that name, or no row |
| `SqlPet.PetStore.InsertPetTagRow` | internal/db/adapter/sql_pet.go:179-182 | appends exactly one link when both the pet and the tag exist, and is a foreign-key error otherwise |
| `SqlPet.PetStore.UpdatePetColumns` | internal/db/adapter/sql_pet.go:202-211 | name and status are kept when empty and category when 0; photourls is always overwritten; no matching row is not an error |
| `SqlPet.PetStore.DeleteLinksOf` | internal/db/adapter/sql_pet.go:217-220 | removes exactly the pet's links |
| `SqlPet.PetStore.ExecUpdateForm` | internal/db/adapter/sql_pet.go:30-37 | with no clause the statement is a syntax error; otherwise it applies the assignments to the row with that id and reports 1 or 0 affected rows |
| `SqlPet.PetStore.QueryJoin` | internal/db/adapter/sql_pet.go:51-69 | the joined rows of the current tables under the id or status filter |
| `SqlPet.Wrap` | internal/db/adapter/sql_pet.go:71 | `fmt.Errorf("<prefix>%w", err)`: the text is the prefix followed by the wrapped error's text, and the result is neither sentinel |
| `SqlPet.PetStore.UpdatePetForm` | internal/db/adapter/sql_pet.go:13-48 | succeeds exactly when the statement runs, a field is given and the pet exists, and then changes just the given fields of that row; zero affected rows is "no rows were updated" |
| `SqlPet.PetStore.FindPetbyID` | internal/db/adapter/sql_pet.go:50-115 | a failed query is wrapped as "failed to execute query: "; otherwise the by-id fold of the join for that id |
| `SqlPet.PetStore.FindPetbyStatus` | internal/db/adapter/sql_pet.go:256-346 | a failed query is wrapped; otherwise the grouping of the join for those statuses |
| `SqlPet.PetStore.ResolveTag` | internal/db/adapter/sql_pet.go:159-177 | an error exactly when the insert fails, or the name already has a row and the lookup fails; errors are wrapped with the loop's prefixes; on success the tags table is find-or-create of the name, and the id returned is that name's tag |
| `SqlPet.PetStore.LinkTag` | internal/db/adapter/sql_pet.go:159-185 | an error exactly when the name does not resolve, the pet_tags insert fails, or the pet does not exist; on success the tag is resolved and exactly one link to it is appended; a failure appends no link |
| `SqlPet.PetStore.LinkTags` | internal/db/adapter/sql_pet.go:158-186 | on success, tags are find-or-create of all names, one link per name is appended in order, and no turn failed; an error is reported at the first turn that fails (a failing insert, lookup or link statement, or a missing pet), the writes for the names before it remain, and possibly its tag row |
| `SqlPet.PetStore.LinkTagsLoop` | internal/db/adapter/sql_pet.go:157-186 | the loop itself: where it stopped, what it wrote, and that every earlier turn ran the insert and the link and, with a failing lookup, created its row |
| `SqlPet.PetStore.ResolveFailsAtClosedForm` | internal/db/adapter/sql_pet.go:164-176 | a name's turn fails to resolve exactly when the insert fails, or the name already has a row at its turn and the lookup fails |
| `SqlPet.LinkTagAdvances` | internal/db/adapter/sql_pet.go:158-186 | one turn of the tag loop, succeeding or failing, keeps what the loop has written so far in terms of the names resolved |
| `SqlPet.PetStore.AddPet` | internal/db/adapter/sql_pet.go:136-188 | a failed or empty category lookup, or a failed pet insert, fails with nothing written; once the pet row is inserted it stays whatever happens next (no transaction); a tag-loop error then leaves the links and tags of the names before the failing turn, which is the first turn that fails; success exactly when no turn fails; tags and links only grow |
| `SqlPet.PetStore.InsertAndLinkTags` | internal/db/adapter/sql_pet.go:151-187 | after the category check: the pet insert, then the tag loop for the new id, with each outcome and each partial write stated |
| `SqlPet.PetStore.CheckCategoryGiven` | internal/db/adapter/sql_pet.go:192-201 | an empty name passes; a non-empty one must name a category, or the result is the "некорректно введена категория" error |
| `SqlPet.PetStore.ReplaceTags` | internal/db/adapter/sql_pet.go:216-252 | a failed delete changes nothing; on success the pet's old links are gone and one link per name is appended to the resolved tags; a failing insert or link statement after the delete is an error, reported at the first failing turn; after it the pet's old links stay deleted and the links of the names before that turn remain; tag rows are never removed |
| `SqlPet.PetStore.UpdatePet` | internal/db/adapter/sql_pet.go:190-254 | an unknown non-empty category fails with nothing written; a failed UPDATE writes nothing; on success the row is coalesced with category 0 (never changed), and a non-empty tag list replaces the pet's links while an empty one leaves them; after the UPDATE a failing tag statement is an error, which leaves the coalesced row and the partial relinking of `ReplaceTags` up to the first failing turn; tag rows are never removed |
| `SqlPet.PetStore.UpdateColumnsAndTags` | internal/db/adapter/sql_pet.go:202-252 | after the category check: the coalescing UPDATE with category 0, then, for a non-empty tag list, the tag replacement; a failing tag statement after a successful UPDATE is an error at the first failing turn, with each outcome and each partial write stated |
| `SqlPet.SameIdsSameHasPet` | internal/db/adapter/sql_pet.go:202-211 | rewriting rows without touching ids keeps which ids are present |
| `PetService.UpdatePetForm` | internal/modules/pet/service/pet.go:22-51 | bad request exactly when status and id are both empty; a conversion error exactly when the id does not parse; success exactly when the storage reports no error; a storage error is `UpdatePetFormError` |
| `PetService.UpdatePetFormSkipsStorage` | internal/modules/pet/service/pet.go:23-37 | a rejected or unparsable request never reaches the storage |
| `PetService.UpdatePetFormGuardIgnoresName` | internal/modules/pet/service/pet.go:23 | with only an id given, the request still reaches the storage |
| `PetService.FindPetbyID` | internal/modules/pet/service/pet.go:53-80 | a conversion error exactly when the id does not parse; `ErrPetNotFound` by identity gives `PetServiceErrPetNotFound`, other errors `PetServiceFindPetbyID`; success returns the stored pet unchanged |
| `PetService.FindPetbyIDSkipsStorage` | internal/modules/pet/service/pet.go:54-61 | an unparsable id never reaches the storage |
| `PetService.FindPetbyIDOnTables` | internal/modules/pet/service/pet.go:63-73 | over the adapter's two outcomes, a missing pet is `PetServiceErrPetNotFound`, while a failed query, which the adapter wraps, is `PetServiceFindPetbyID` |
| `PetService.FindPetbyStatus` | internal/modules/pet/service/pet.go:82-96 | the statuses go to the storage unchanged; its pets are returned as they are, and an error is `PetServiceFindPetbyStatus` with no pets |
| `PetService.MapTags` | internal/modules/pet/service/pet.go:104-109 | one tag per requested tag, in order, with the requested name and id 0 |
| `PetService.AddPet` | internal/modules/pet/service/pet.go:98-130 | the storage receives id 0, the category name only, the name, status and photo URLs unchanged, and the mapped tags; a storage error is `AddPetErr` |
| `PetService.UpdatePet` | internal/modules/pet/service/pet.go:132-166 | as `AddPet`, but carrying the request's id; a storage error is `PetServiceUpdateErr` |
| `OrderService.DeleteOrderByID` | internal/modules/order/service/order.go:23-58 | a conversion error exactly when the id does not parse; `IDLessZero` exactly when it is `<= 0`; the text "no order found with ID" gives `NotFoundID` and any other error `IternalErr`; success exactly when a usable id deletes without error |
| `OrderService.FindOrderByID` | internal/modules/order/service/order.go:60-96 | the same guards; `sql.ErrNoRows` by identity gives `NotFoundID`, other errors `IternalErr`; success returns the stored order unchanged |
| `OrderService.OrderLookupsNeedUsableId` | internal/modules/order/service/order.go:24-38 | without a parsable positive id, neither lookup depends on the storage |
| `OrderService.NotFoundClassification` | internal/modules/order/service/order.go:40-90 | a wrapped error with the sentinel's text is not the sentinel, while the delete path goes by the exact text alone |
| `OrderService.IdGuardExamples` | internal/modules/order/service/order.go:24-38 | "0" and "-7" parse but fail the guard, "+7" is order 7, and "7a" and "" do not parse |
| `OrderService.CreateOrder` | internal/modules/order/service/order.go:98-119 | success exactly when the storage accepts the model, returning its id; otherwise `OrderServiceCreateOrderErr` with id 0 |

## Left out

- I/O, `context.Context`, logging (`zap`, `fmt.Println`) and concurrency have no effect on results and are not modelled.
- Storage calls in both services are function parameters. The database driver is the `PetStore` class, and a failing statement is one listed in the store's `broken` set.
- Driver error texts (`StatementFailed`, `ForeignKeyViolation`, `EmptySetSyntaxError`) are stand-ins. The model fixes one text per kind of failure, since the driver's exact wording is not part of this model.
- `ScanError`: the scan error is modelled as "failed to scan row". The `: <driver message>` that `%w` appends is not modelled, because its text comes from the driver.
- `rows.Err()` (sql_pet.go:341-343) and a failing `RowsAffected` (sql_pet.go:37-40) are not modelled. Both are driver-level failures once rows have been read or the statement has run.
- SQL text is not parsed: each statement is modelled by the effect its text states. Only the text of `UpdatePetForm`'s statement and of the `IN (...)` list is built.
- Row order within one pet in the join is not fixed by SQL. The model produces a pet's rows in `pet_tags` insertion order.
- The tables are sequences of rows, not maps. Sequences keep `ORDER BY p.id`, and they turn "no two tags share a name" into a proved invariant (`ValidTags`) rather than a property of the representation.
- `PetTables.FindOrCreate` and `SqlPet.PetStore.InsertTagOnConflict`: serial values consumed by conflicting or failed inserts are not modelled. The model advances the tag counter only on a real insert, while PostgreSQL also consumes a serial value when `ON CONFLICT DO NOTHING` skips the row. Ids are only compared, never promised, so no property depends on the exact values.
- `pet_tags` has no primary key in the model, so linking the same tag twice gives two links.
- `SqlPet.PetStore.FindPetbyStatus`: requires a non-empty status list. The HTTP controller rejects an empty one before the adapter is called (pet-controller.go:127-131), and an empty list would build the invalid text `IN ()`.
- Integers are unbounded outside `Atoi`, which checks the int64 range (Go's `int` on 64-bit platforms). Serial ids and counts do not wrap.
- Go's distinction between nil and empty slices is not modelled. The service's `make`-then-append copy of the photo URLs is a plain copy.
- `time.Time` is an opaque `Instant`. Order ship dates are only copied.
- Order storage (`sql_order.go`) is not part of the core. Only the text of its not-found error is used.
