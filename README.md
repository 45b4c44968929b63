# IT asset dashboard — a Dafny model

This project models the core of a Next.js dashboard for managing IT assets,
as Dafny 4.11 modules, and proves properties of that model. The dashboard
covers assets, users, components, accessories, licences, BitLocker keys,
network scans, Zabbix VMs, a VM inventory, reports and an activity log.

What is modelled, one module per source file:

- **First-run setup.**
  - The wizard (`SetupWizard`) with its step guard and form checks.
  - Three API routes:
    - `/api/setup/test-db-connection` (`TestDbConnection`);
    - `/api/setup/check-setup-status` (`SetupStatus`);
    - `/api/setup/complete` (`SetupComplete`), which creates the
      tables, the administrator, the selected fixtures and the marker
      file.
  - The application shell's redirect to `/setup` (`AppGate`).
- **Database.** The part of PostgreSQL the setup relies on has pure
  functions in `Postgres`. It covers NOT NULL, UNIQUE and REFERENCES
  constraints, `SERIAL` sequences, which are not rolled back,
  `CREATE TABLE IF NOT EXISTS` and `INSERT ... ON CONFLICT`. A server
  and a `pg` pool are classes in `PgServer`, and `fs` is in `Files`.
- **Pages.** A page whose event handlers update its React state is a
  class: its fields are that state and its methods are the handlers.
  Each method's `ensures` ties the new state to pure functions. Two
  pages are modelled on values instead. `AssetsPage` is pure functions
  plus the `ImportAssets` loop. `VmInventoryPage` is a `PageState`
  datatype that its functions update. The pure functions are:
  - search filters, form payloads and save requests;
  - CSV export and import (`AssetCsv`, `VmCsv`);
  - badges, tiles and counts;
  - the IPv4 pattern of the network page;
  - the sidebar's active-entry rule.
- **Shared definitions.**
  - `Types`: the shared record types.
  - `Strings`: split, join, case, `includes`, and `parseInt` with radix 10 and without a radix.
  - `Lists`: filters and counts.
  - `JsValues`: JSON values and truthiness.
  - `Wrappers`: Option and Result.
  - `Http`: HTTP methods and fetch outcomes.
  - `MockData`: the fixtures.

Some things that are not pure become parameters instead:

- clocks (`now`, `today`, timestamps, locale texts);
- random draws (Zabbix refresh, device details, generated tokens);
- `new Date(...)` parsing and locale formatting;
- bcrypt;
- the outcomes of network calls (`FetchOutcome`, `SaveOutcome`, reachability);
- the fixture lists `/api/setup/complete` imports from `lib/mockData`.
  They are a `Fixtures` value. The source's lists are
  `SetupComplete.MockFixtures`, and the seeding contracts hold for any
  lists.

Where the dashboard's documented behaviour and its code disagree, the model follows the code:

- The users page's modal closes even when the save fails, because
  `components/users/UserFormModal.tsx` calls `onClose` right after
  `onSave`.
- The users search lowercases the query but does not trim it.
- The BitLocker page's `confirmDelete` keeps the selected key in
  `currentKey`.
- The sidebar's dashboard entry `/` is also active on pathnames that
  start with `//`.
- Seeding a fresh database with the default toggles fails. The first
  activity log names user 101, and `activity_logs.user_id REFERENCES
  users(id)` refuses it, so the whole transaction rolls back
  (`SetupComplete.FirstLogRejected`, `SetupComplete.ImportMockData` and
  `SetupComplete.FirstLogColumns`).

## Model

| member | source | states |
|---|---|---|
| AppGate.CompletedField | pages/_app.tsx:16-18 | a status body yields its boolean; a body without `setupCompleted` reads as undefined |
| AppGate.App.constructor | pages/_app.tsx:8-9 | the shell starts loading, with setup assumed completed and nothing pushed |
| AppGate.App.Render | pages/_app.tsx:35-39 | "Loading..." is shown exactly while loading on a page other than `/setup` |
| AppGate.App.CheckSetupStatus | pages/_app.tsx:13-29 | loading always ends; `/setup` is pushed exactly when a reply arrived, its `setupCompleted` is falsy and the page is not `/setup`; a failed fetch leaves `setupCompleted` as it was |
| AppGate.RedirectIff | pages/_app.tsx:18-23 | against the status endpoint's GET reply, the shell redirects iff the page is not `/setup` and the marker is missing or the probe failed |
| AppGate.CompletedNeverRedirects | pages/_app.tsx:21-23 | a reply saying completed never redirects |
| AppGate.SetupNeverRedirected | pages/_app.tsx:21 | the wizard page is never redirected, whatever the reply |
| AppGate.FailedCheckStaysPut | pages/_app.tsx:24-28 | a fetch or parse that throws redirects nowhere |
| AppGate.MessageBodyRedirects | pages/_app.tsx:18-21 | a reply without `setupCompleted`, such as the 405 body, counts as not completed and redirects |
| AppGate.Mount | pages/_app.tsx:11-39 | a full mount shows "Loading..." first (except on `/setup`), pushes `/setup` at most once, and then shows the page |
| SetupStatus.CheckSetupStatus | pages/api/setup/check-setup-status.ts:10-31 | a non-GET gets 405 "Method not allowed" and nothing else does; a GET gets 200 with a `setupCompleted` body |
| SetupStatus.CompletedIff | pages/api/setup/check-setup-status.ts:19-31 | a GET reports completed iff the probe works and `setup-complete.json` exists |
| SetupStatus.ContentsIgnored | pages/api/setup/check-setup-status.ts:24-26 | only the marker's existence matters, never its contents |
| SetupStatus.SameMarker | pages/api/setup/check-setup-status.ts:19 | the endpoint looks for the same file the setup writes |
| SetupStatus.MarkerSeen | pages/api/setup/check-setup-status.ts:24-31 | once the setup has written its marker, a working probe reports completed |
| SetupStatus.ProbeFailureReadsIncomplete | pages/api/setup/check-setup-status.ts:27-31 | a throwing probe still answers 200 with `setupCompleted: false` |
| TestDbConnection.Handler | pages/api/setup/test-db-connection.ts:5-46 | the reply is `Reply(...)`; a pool exists iff the request is a POST with all parameters, and it ends with no client held |
| TestDbConnection.Reply | pages/api/setup/test-db-connection.ts:9-41 | 200 iff a POST with host, port, database and username truthy reaches the server; 400 iff a POST misses one of them |
| TestDbConnection.PasswordNotRequired | pages/api/setup/test-db-connection.ts:15 | an empty password does not change the reply |
| Postgres.FirstNull | pages/api/setup/complete.ts:25-159 | no result iff no NOT NULL column is null; otherwise a NOT NULL column that is null |
| Postgres.FirstDuplicate | pages/api/setup/complete.ts:28-52 | no result iff no UNIQUE column clashes with an existing row; otherwise a clashing column |
| Postgres.FirstDangling | pages/api/setup/complete.ts:76-153 | no result iff every REFERENCES value is null or names an existing row; otherwise a dangling column |
| Postgres.CreateTable | pages/api/setup/complete.ts:25-172 | `CREATE TABLE IF NOT EXISTS` fails only on a faulty table, leaves an existing table as it is, and creates a missing one empty with its sequence at 0 |
| Postgres.Check | pages/api/setup/complete.ts:198-390 | an insert's checks keep the sequences and faults, and append the row iff it is inserted |
| Postgres.CheckInserts | pages/api/setup/complete.ts:198-390 | a row is inserted iff it has no null NOT NULL column, no conflict the clause names or any other unique clash, and no dangling reference; the reported id is the row's id |
| Postgres.ExtendsReflexive | pages/api/setup/complete.ts:18-399 | every state extends itself |
| Postgres.ExtendsTransitive | pages/api/setup/complete.ts:18-399 | extension of states composes |
| Postgres.CreateTableKeepsValid | pages/api/setup/complete.ts:25-172 | a successful CREATE keeps every constraint and only extends the state |
| Postgres.InsertExtends | pages/api/setup/complete.ts:198-390 | every INSERT only extends the state |
| Postgres.InsertKeepsValid | pages/api/setup/complete.ts:198-390 | every INSERT keeps NOT NULL, UNIQUE, REFERENCES and the sequence ordering of ids |
| Postgres.IdsBelowSerial | pages/api/setup/complete.ts:27 | in a valid state no `SERIAL` id exceeds its sequence's last value |
| Postgres.RestoreKeepsValid | pages/api/setup/complete.ts:183 | going back to a snapshot's tables, with the sequences where they are now, keeps the state valid |
| Postgres.OnColumnSkips | pages/api/setup/complete.ts:205 | `ON CONFLICT (c) DO NOTHING` skips a complete row iff its value of `c` is taken |
| Postgres.NoClauseNeverSkips | pages/api/setup/complete.ts:409-413 | an insert without a conflict clause is never skipped |
| Postgres.NoUniqueAppends | pages/api/setup/complete.ts:256 | a table without unique columns takes every complete, well-referenced row, so re-seeding duplicates rows |
| Postgres.InsertBumpsSerial | pages/api/setup/complete.ts:27 | every attempt on a working table uses one sequence value, and no other table or sequence changes |
| Postgres.InsertedRowFound | pages/api/setup/complete.ts:412-415 | the id an insert reports belongs to a row in the table |
| Postgres.RollbackExtends | pages/api/setup/complete.ts:183 | a rollback keeps the sequences as they are |
| Postgres.RowKept | pages/api/setup/complete.ts:18-399 | a row, once inserted, survives every later state |
| Postgres.UnissuedIdDangles | pages/api/setup/complete.ts:140 | a reference to an id above the target's sequence never resolves |
| Postgres.InsertNotRejected | pages/api/setup/complete.ts:198-390 | a non-rejected insert either appended the row or found the conflict its clause names |
| PgServer.Server.Begin | pages/api/setup/complete.ts:22 | opens a transaction by taking a snapshot of the tables |
| PgServer.Server.Commit | pages/api/setup/complete.ts:181 | keeps the state and closes the transaction |
| PgServer.Server.Rollback | pages/api/setup/complete.ts:183 | the tables go back to the snapshot while the sequences keep their values |
| PgServer.Server.CreateTable | pages/api/setup/complete.ts:25-45 | the server's state becomes `Postgres.CreateTable`'s, or stays on failure |
| PgServer.Server.Insert | pages/api/setup/complete.ts:199-220 | the server's state and outcome are `Postgres.Insert`'s |
| PgServer.Pool.constructor | pages/api/setup/complete.ts:447-453 | a new pool holds no client and is not ended |
| PgServer.Pool.Connect | pages/api/setup/complete.ts:19 | a client is handed out iff the server is reachable and the pool not ended; otherwise the connection error |
| PgServer.Pool.Release | pages/api/setup/complete.ts:186 | gives one client back |
| PgServer.Pool.End | pages/api/setup/complete.ts:508 | ends the pool |
| Files.FileSystem.WriteFile | pages/api/setup/complete.ts:425 | a writable directory gets the file created or replaced; otherwise the write error and no change |
| SetupComplete.CreateTables | pages/api/setup/complete.ts:18-188 | succeeds iff the pool connects and no schema table is faulty; an unreachable pool throws its connection error, a faulty schema the first faulty table's error; success leaves every table created, with the default network settings row added; failure leaves the tables as they were |
| SetupComplete.RunSchema | pages/api/setup/complete.ts:24-172 | the nine CREATE statements in order succeed iff none of their tables is faulty, and otherwise stop with the first faulty table's error |
| SetupComplete.FirstFault | pages/api/setup/complete.ts:24-172 | there is no fault iff no table of the list is faulty; a fault found is the fault of one of them |
| SetupComplete.DefaultsRowAdded | pages/api/setup/complete.ts:174-179 | after the schema, the default network settings row is always inserted |
| SetupComplete.CreateAdminUser | pages/api/setup/complete.ts:401-419 | an id is returned iff there is no error; an unreachable pool or a missing password fails with no change; otherwise the row goes in with `is_admin` true and the hashed password |
| SetupComplete.DuplicateAdminRefused | pages/api/setup/complete.ts:409-413 | an administrator whose email is taken is refused by the unique constraint, with the tables unchanged |
| SetupComplete.IncompleteAdminRefused | pages/api/setup/complete.ts:409-413 | an administrator without a name or email is refused by NOT NULL |
| SetupComplete.FindAsset | pages/api/setup/complete.ts:248 | a found asset is in the list with the id; none means no asset has it |
| SetupComplete.LogRows | pages/api/setup/complete.ts:340-366 | the activity-log inserts are at most the logs; ids are read by the radix-less `parseInt` (`Strings.ParseIntAuto`, base 16 after `0x`), and a log whose ids parse to NaN is skipped |
| SetupComplete.KeyRows | pages/api/setup/complete.ts:369-390 | the BitLocker-key inserts are at most the keys; the asset id is read by the radix-less `parseInt`, and a key whose asset id parses to NaN is skipped |
| Strings.ParseAutoDigits | pages/api/setup/complete.ts:343-344 | the radix-less `parseInt` reads a run of decimal digits as its decimal value |
| Strings.ParseAutoHex | pages/api/setup/complete.ts:343-344 | after a `0x` or `0X` mark the radix-less `parseInt` reads the hexadecimal digits in base 16 |
| Strings.ParseAutoNegHex | pages/api/setup/complete.ts:343-344 | after `-0x` or `-0X` it reads the negated base-16 value |
| Strings.HexIdExample | pages/api/setup/complete.ts:373 | an id "0x1F" reads as 31, where a base-10 parse would read 0 |
| SetupComplete.InsertEach | pages/api/setup/complete.ts:198-221 | the rows are inserted in order, stopping at the first rejection; unique-free tables get every row appended, and a keyed conflict clause leaves every key present |
| SetupComplete.InsertNext | pages/api/setup/complete.ts:198-221 | one pass of the loop: the row goes in, a rejection becomes the error, and the progress `InsertEach` keeps after `i` rows holds after `i + 1` |
| SetupComplete.FirstLogColumns | pages/api/setup/complete.ts:343-344 | the first activity-log insert of the fixtures names user 101 and item 1, and the users fixture is too short to bring a fresh users sequence to 101 |
| SetupComplete.LogReferenceDecides | pages/api/setup/complete.ts:352-364 | an activity-log row whose user does not exist is rejected |
| SetupComplete.FirstLogRejected | pages/api/setup/complete.ts:340-364 | while the users sequence is below the user the first log names, the first activity-log row is rejected |
| SetupComplete.SeedAll | pages/api/setup/complete.ts:196-390 | the eight dataset blocks in order; rows only grow, and on success every dataset is seeded as its toggle says |
| SetupComplete.ImportMockData | pages/api/setup/complete.ts:190-399 | in one transaction; an unreachable pool or undefined options fails; failure leaves the tables as they were; success seeds every selected dataset of the fixture lists; with activity logs selected it fails while the users sequence plus the users fixture stays below the first log's user |
| SetupComplete.MarkSetupComplete | pages/api/setup/complete.ts:422-431 | writes `{completed: true, timestamp}` to `setup-complete.json`; a failed write is only logged |
| SetupComplete.FinishSetup | pages/api/setup/complete.ts:463-481 | the administrator's INSERT on the created tables, then the fixtures only if it succeeded, then the marker only if they succeeded; the first step that throws decides the 500 and its `error` text; a refused administrator leaves the state after its INSERT, a failed import the tables after the administrator; success means every selected dataset is seeded after the administrator's row |
| SetupComplete.TakenEmailStopsAtAdmin | pages/api/setup/complete.ts:460-465 | on a second setup whose administrator's email is taken, the handler stops at the administrator with the tables created and kept |
| SetupComplete.Handler | pages/api/setup/complete.ts:433-509 | 405 for a non-POST and 400 for missing parameters, both with no pool and nothing changed; otherwise `createTables` (its connection or first-fault error, tables unchanged, or every table created), then `FinishSetup` on the created tables; 200 with `adminId` exactly when every step succeeded, otherwise 500 with `error` = `name: message` of the first step that threw; the marker only on success; the pool always ends |
| Email.EmailLikeIsRegexTest | pages/setup/index.tsx:73 | looking for an `@` and a later `.` with non-blank text around them decides exactly what `/\S+@\S+\.\S+/.test` answers |
| Email.PlainAddressPasses | components/users/UserFormModal.tsx:70 | "user@example.com" passes the email pattern |
| Email.NoDotFails | components/users/UserFormModal.tsx:70 | "admin@localhost" fails it: there is no dot after the `@` |
| Email.SpacesAroundPass | components/users/UserFormModal.tsx:70 | the pattern is not anchored, so text with spaces around an address passes |
| SetupWizard.AdminFormError | pages/setup/index.tsx:67-89 | no error iff the name is non-blank, the email is non-blank and matches, the password has 8 or more characters and matches its confirmation |
| SetupWizard.DbFormError | pages/setup/index.tsx:91-113 | no error iff host, port, database and username are non-blank and the port reads as a number |
| SetupWizard.FirstFailureReported | pages/setup/index.tsx:67-89 | the checks run in order and the first failure's message is the toast |
| SetupWizard.PasswordNotTrimmed | pages/setup/index.tsx:78 | the password length is measured untrimmed: eight spaces are accepted |
| SetupWizard.DbPasswordIgnored | pages/setup/index.tsx:91-113 | the database password never changes the verdict |
| SetupWizard.DefaultDbFormValid | pages/setup/index.tsx:29-35 | the default connection form passes once "5432" reads as a number |
| SetupWizard.EmptyAdminFormRefused | pages/setup/index.tsx:21-71 | the initial admin form is refused with "Admin name is required" |
| SetupWizard.StepsStayInRange | pages/setup/index.tsx:115-133 | Next and Back keep the step in 1..4 and move it by at most one |
| SetupWizard.NextGuards | pages/setup/index.tsx:115-127 | step 1 advances iff the admin form is valid and step 2 iff the database form is; step 3 always advances; step 4 stays |
| SetupWizard.OnlyCurrentFormChecked | pages/setup/index.tsx:115-123 | only the current step's form is consulted |
| SetupWizard.BackUndoesNext | pages/setup/index.tsx:115-133 | Back after a Next that moved returns to the step that was left |
| SetupWizard.ValidDbFormPassesTestCheck | pages/setup/index.tsx:135-146 | a database form that passes the validator also passes the connection test's parameter check |
| SetupWizard.BlankHostOnlyTruthy | pages/api/setup/test-db-connection.ts:15 | the endpoint's check is weaker: a one-space host is truthy but fails the wizard's validator |
| SetupWizard.FinishRequestWellFormed | pages/setup/index.tsx:172-183 | the finish request is a POST carrying the admin, the database and the import options exactly |
| SetupWizard.WithOption | pages/setup/index.tsx:62-65 | a checkbox sets exactly its own dataset's flag |
| SetupWizard.AllDatasetsSelected | pages/setup/index.tsx:38-47 | every dataset starts selected |
| SetupWizard.WithAdminValue | pages/setup/index.tsx:52-55 | an input sets exactly its own admin field |
| SetupWizard.WithDbValue | pages/setup/index.tsx:57-60 | an input sets exactly its own database field |
| SetupWizard.Wizard.constructor | pages/setup/index.tsx:16-47 | step 1, not loading, not complete, empty admin form, default database form, all datasets |
| SetupWizard.Wizard.Progress | pages/setup/index.tsx:49-50 | the progress is exactly step/4 as a percentage, one of 25, 50, 75, 100 |
| SetupWizard.Wizard.HandleAdminFormChange | pages/setup/index.tsx:52-55 | only the admin form changes, by `WithAdminValue` |
| SetupWizard.Wizard.HandleDbFormChange | pages/setup/index.tsx:57-60 | only the database form changes, by `WithDbValue` |
| SetupWizard.Wizard.HandleImportOptionChange | pages/setup/index.tsx:62-65 | only the import options change, by `WithOption` |
| SetupWizard.Wizard.HandleNext | pages/setup/index.tsx:115-127 | the step becomes `NextStep`; an error toast means the step stayed; nothing else changes |
| SetupWizard.Wizard.HandleBack | pages/setup/index.tsx:129-133 | the step goes back one, but never below 1 |
| SetupWizard.Wizard.HandleTestConnection | pages/setup/index.tsx:135-165 | posts the database form; success iff the response is OK; loading ends; no other state changes |
| SetupWizard.Wizard.HandleFinish | pages/setup/index.tsx:167-206 | posts admin, database and options; `setupComplete` becomes true iff the response is OK; loading ends |
| AssetCsv.AssigneeText | components/assets/ImportExportButtons.tsx:56 | a numeric assignment is written as its digits, a named one as the name, none as "" |
| AssetCsv.CostText | components/assets/ImportExportButtons.tsx:49 | a cost is written as its digits, which are never empty; no cost is "" |
| AssetCsv.Cells | components/assets/ImportExportButtons.tsx:42-59 | every asset gives exactly the 16 columns of the header |
| AssetCsv.ExportLines | components/assets/ImportExportButtons.tsx:40-60 | the header line and then one row per asset, in order |
| AssetCsv.ProcessImport | components/assets/ImportExportButtons.tsx:91-164 | the import's outcome is `ImportOutcomeOf`: no file, a read error or a non-string result are rejected with their messages; loaded text is decoded |
| AssetCsv.DecodeLines | components/assets/ImportExportButtons.tsx:110-143 | the loop collects exactly `DecodeRows`: lines after the header, skipping blank and short rows |
| AssetCsv.EmptyOrInvalidIff | components/assets/ImportExportButtons.tsx:101-107 | "File is empty or invalid" iff the text has no newline |
| AssetCsv.HeaderOnlyFile | components/assets/ImportExportButtons.tsx:145-148 | a header followed by a newline yields "No valid assets found in the file" |
| AssetCsv.RowKept | components/assets/ImportExportButtons.tsx:113-116 | a line yields at most one asset, and one iff it is not blank and has at least as many fields as the header |
| AssetCsv.ExtraFieldsIgnored | components/assets/ImportExportButtons.tsx:118-139 | cells after the sixteenth never change the decoded asset |
| AssetCsv.DecodeDefaults | components/assets/ImportExportButtons.tsx:120-133 | an empty tag gets `AST-` and a number below 10000; an empty status becomes "available"; an unparsable cost becomes 0; finance is checked iff the cell lowercases to "yes" |
| AssetCsv.DecodePositional | components/assets/ImportExportButtons.tsx:109-116 | the header's text matters only through its number of fields |
| AssetCsv.ImportDelivers | components/assets/ImportExportButtons.tsx:145-151 | loaded text reaches `onImport` iff it decodes, and then with at least one asset |
| AssetCsv.DecodeCells | components/assets/ImportExportButtons.tsx:118-139 | decoding an exportable asset's cells gives back its 16 columns |
| AssetCsv.ExportedRowKept | components/assets/ImportExportButtons.tsx:112-142 | an exported row decodes back into exactly its asset |
| AssetCsv.ExportedRowsKept | components/assets/ImportExportButtons.tsx:112-142 | every data line of an export decodes back into exactly the asset it was written from |
| AssetCsv.ExportedRows | components/assets/ImportExportButtons.tsx:112-142 | when each line after the header decodes to one expected asset, the decoding loop returns those assets in line order |
| AssetCsv.RoundTrip | components/assets/ImportExportButtons.tsx:19-164 | export and then import give back every asset, in order, as long as no cell holds a comma or newline and the list is not empty |
| AssetCsv.ExportSplitsIntoLines | components/assets/ImportExportButtons.tsx:62-101 | splitting the export at newlines gives back its lines |
| AssetCsv.EmptyExportRejected | components/assets/ImportExportButtons.tsx:104-107 | the export of no assets is a header alone, which the import refuses as empty or invalid |
| AssetCsv.TemplateLayout | components/assets/ImportExportButtons.tsx:166-204 | the template has the export's 16 columns; only the finance header's text differs |
| AssetCsv.CommaShiftsColumns | components/assets/ImportExportButtons.tsx:59-115 | a comma inside the model shifts the columns: the model does not come back |
| AssetsPage.AssigneeOrEmpty | pages/assets/index.tsx:87 | `assignedTo \|\| ""`: the falsy assignments, 0, "" and none, become "" |
| AssetsPage.PayloadOf | pages/assets/index.tsx:79-94 | the status is never empty, and finance is checked iff the draft says true |
| AssetsPage.PayloadDefaults | pages/assets/index.tsx:79-94 | a missing or empty status becomes "available" and a given one is kept; a missing tag or note becomes "" |
| AssetsPage.PayloadOmitsPurchaseFields | pages/assets/index.tsx:79-94 | purchase date, cost and warranty never reach the payload |
| AssetsPage.ImportedPayload | pages/assets/index.tsx:136-151 | an imported row's tag, model, serial and finance flag reach the payload unchanged, with no notes |
| AssetsPage.SaveRequest | pages/assets/index.tsx:96-112 | editing sends PUT to `/api/assets/<id>`, adding sends POST to `/api/assets`, both with the payload |
| AssetsPage.SaveAsset | pages/assets/index.tsx:77-118 | the request is `SaveRequest`; the modal closes and the list is refetched iff the fetch did not throw; a throw gives "Save failed", otherwise "Asset Updated" or "Asset Added" |
| AssetsPage.SaveIgnoresStatus | pages/assets/index.tsx:96-113 | a save the server answers with an error status is handled exactly like an accepted one, and differently from a throw |
| AssetsPage.FirstThrow | pages/assets/index.tsx:135-171 | the position of the first request that throws, or the length when none does |
| AssetsPage.PayloadsUpTo | pages/assets/index.tsx:136-157 | the payloads of the first n records, in order |
| AssetsPage.ImportAssets | pages/assets/index.tsx:133-172 | the loop's result is `ImportSpec`: one POST per record in order, stopping after the first that throws; non-OK answers are only logged |
| AssetsPage.ImportReportsSubmitted | pages/assets/index.tsx:163-167 | when nothing throws, every record is posted and the toast gives the number of records, OK or not; the list is refetched |
| AssetsPage.ImportAbandonsOnThrow | pages/assets/index.tsx:168-171 | a throw at record i stops after i+1 posts with "Import failed" and no refetch |
| AssetsPage.LoggedAreNotOk | pages/assets/index.tsx:159-161 | every record whose answer was not OK is logged, and no more are logged than posted |
| AssetsPage.Search | pages/assets/index.tsx:46-60 | the list is not updated exactly when some asset makes the filter throw, which is a numeric assignee reached by the `\|\|` chain |
| AssetsPage.SearchKeeps | pages/assets/index.tsx:46-60 | otherwise the result is exactly the assets whose text matches the lowercased query and whose status passes the filter |
| AssetsPage.SearchInOrder | pages/assets/index.tsx:46-60 | the search keeps the list's order: an asset between two runs is shown exactly when it matches the query and the status filter, and then between what is shown of the run before and of the run after |
| AssetsPage.TagMatchWins | pages/assets/index.tsx:52 | a tag match decides the text test before anything can throw |
| AssetsPage.EmptyQueryKeepsAll | pages/assets/index.tsx:46-60 | the empty query with no status filter keeps every asset |
| AssetsPage.BadgeClasses | pages/assets/index.tsx:174-187 | the eight listed statuses get pairwise distinct classes, none of them the default gray; "decommissioned" shares the default gray with every unlisted status |
| VmCsv.CellsOf | components/vm-inventory/ImportExportVM.tsx:21-43 | a record has exactly the 21 exported columns |
| VmCsv.ExportRecord | components/vm-inventory/ImportExportVM.tsx:21-43 | the first 20 columns are always present, and internet access is written as "true" or "false" |
| VmCsv.ExportRecords | components/vm-inventory/ImportExportVM.tsx:20-44 | one record per VM, in order |
| VmCsv.ExportIgnoresBookkeeping | components/vm-inventory/ImportExportVM.tsx:21-43 | id, createdAt and updatedAt never reach the export |
| VmCsv.Cell | components/vm-inventory/ImportExportVM.tsx:68-88 | `row.x \|\| d`: a non-empty cell is kept, and a missing or empty one becomes the default |
| VmCsv.ImportRow | components/vm-inventory/ImportExportVM.tsx:66-91 | validity and status are never empty, remarks are always present, and internet access is granted iff the cell is exactly "true" |
| VmCsv.ImportRows | components/vm-inventory/ImportExportVM.tsx:66 | one VM per parsed row, in order, with the row's index |
| VmCsv.ImportedIdsDistinct | components/vm-inventory/ImportExportVM.tsx:67 | the ids of one import are distinct, even when the clock moves between rows |
| VmCsv.ImportedIdInjective | components/vm-inventory/ImportExportVM.tsx:67 | two different indices never give the same `imported-<time>-<index>` id |
| VmCsv.ImportDefaults | components/vm-inventory/ImportExportVM.tsx:68-88 | an empty row gets validity "available", status "Running", no internet access and empty texts |
| VmCsv.RoundTrip | components/vm-inventory/ImportExportVM.tsx:19-91 | export and then import keep all 21 columns of a VM whose validity and status are non-empty; absent remarks come back as "" |
| VmCsv.OnImportArgument | components/vm-inventory/ImportExportVM.tsx:57-99 | `onImport` is called iff parsing completes, with one VM per row |
| VmCsv.NoRowsStillImports | components/vm-inventory/ImportExportVM.tsx:64-93 | a file without rows still calls `onImport`, with no VMs |
| VmInventoryPage.NoFilterKeepsAll | pages/vm-inventory/index.tsx:52-74 | with status "all" and an empty query the list is shown as loaded |
| VmInventoryPage.FiltersConjoin | pages/vm-inventory/index.tsx:52-74 | the two passes together keep exactly the VMs that pass the query (if there is one) and the case-insensitive status (unless "all"), in order |
| VmInventoryPage.HandleSearch | pages/vm-inventory/index.tsx:52-80 | the query becomes the lowercased input and the shown list the loaded VMs that pass it and the current status, in order; everything else stays |
| VmInventoryPage.HandleStatusFilterChange | pages/vm-inventory/index.tsx:52-88 | the status becomes the chosen value and the shown list the loaded VMs that pass it and the current query, in order; everything else stays |
| VmInventoryPage.FetchVMs | pages/vm-inventory/index.tsx:37-46 | a reply replaces both lists and nothing else (query, status, selection and dialog stay); a throw changes nothing |
| VmInventoryPage.ImportIgnoresRows | pages/vm-inventory/index.tsx:164 | the CSV import's rows never reach the page: `onImport` is the refetch, so its argument is ignored |
| VmInventoryPage.HandleDeleteVM | pages/vm-inventory/index.tsx:100-113 | with no current VM nothing is sent and nothing changes; otherwise a DELETE to `/api/vm-inventory/<id>` is sent, a DELETE that does not throw is followed by the refetch (`FetchVMs`), a throwing one keeps the lists, and the dialog closes in every case |
| VmInventoryPage.RefusedDeleteRefetches | pages/vm-inventory/index.tsx:100-113 | a DELETE the server refuses is handled exactly like an accepted one: the refetched list is shown, and it differs from the throwing case only when the refetch changes the lists |
| VmInventoryPage.BadgesDistinct | pages/vm-inventory/index.tsx:115-128 | the four known statuses get four different classes, and every other status the default |
| VmInventoryApi.DateOf | pages/api/vm-inventory/index.ts:11-12 | a falsy date gives no instant; a truthy one is whatever the `Date` constructor makes of it |
| VmInventoryApi.TextOr | pages/api/vm-inventory/index.ts:22-40 | `field \|\| default`: a falsy value gives the default and a truthy string itself; any other truthy value is no text, which the create refuses |
| VmInventoryApi.CreateData | pages/api/vm-inventory/index.ts:18-42 | a record exists iff every text column is falsy or a string |
| VmInventoryApi.VmStore.constructor | pages/api/vm-inventory/index.ts:18 | an empty store whose next id is 1 |
| VmInventoryApi.VmStore.Create | pages/api/vm-inventory/index.ts:18-42 | a store fault or refused data fails with the store unchanged; otherwise the record gets the next id and is appended |
| VmInventoryApi.VmStore.FindMany | pages/api/vm-inventory/index.ts:48 | every stored record, or the store's fault |
| VmInventoryApi.Handler | pages/api/vm-inventory/index.ts:5-57 | a POST with unreadable dates gets 400 with nothing stored; any other POST gets 201 with one record appended; GET gets 200 with the list; other methods get 405; a non-text field gets 500 |
| VmInventoryApi.InvalidDatesIff | pages/api/vm-inventory/index.ts:14-16 | a POST is refused iff its start or end date does not parse |
| VmInventoryApi.EndBeforeStartAccepted | pages/api/vm-inventory/index.ts:14-21 | an end date before the start date is accepted |
| VmInventoryApi.EmptyBodyDefaults | pages/api/vm-inventory/index.ts:22-40 | an empty body with valid dates gets the default texts and no internet access |
| VmInventoryApi.FalseTextGrantsAccess | pages/api/vm-inventory/index.ts:33 | the text "false" is truthy, so it grants internet access |
| VmInventoryApi.GivenTextKept | pages/api/vm-inventory/index.ts:22-40 | a non-empty text field is stored unchanged |
| VmInventoryApi.NumberInTextRefused | pages/api/vm-inventory/index.ts:53-55 | a number in a text column makes the create fail with 500 |
| AccessoriesPage.SearchKeeps | pages/accessories/index.tsx:58-70 | a blank lowercased query shows the whole list; otherwise exactly the accessories whose name, model, category or manufacturer contains it |
| AccessoriesPage.SearchInOrder | pages/accessories/index.tsx:58-70 | the search keeps the list's order: an accessory between two runs is shown exactly when the query is blank or it matches, and then between the two runs' results |
| AccessoriesPage.MissingOptionalsNeverMatch | pages/accessories/index.tsx:65-67 | an accessory without model and manufacturer is found by name or category only |
| AccessoriesPage.SaveRequest | pages/accessories/index.tsx:120-121 | PUT to `/api/accessories/<id>` while editing, POST to `/api/accessories` otherwise |
| AccessoriesPage.EditSwapsById | pages/accessories/index.tsx:132-134 | an edit replaces exactly the records with the returned id and keeps the length |
| AccessoriesPage.EditOfUnknownIdIsNoOp | pages/accessories/index.tsx:133 | a returned id that names no record leaves the list as it was |
| AccessoriesPage.Cells | pages/accessories/index.tsx:160-176 | one cell per header |
| AccessoriesPage.Quote | pages/accessories/index.tsx:177 | a value is wrapped in double quotes with nothing escaped |
| AccessoriesPage.QuoteAll | pages/accessories/index.tsx:177 | every cell is quoted, in order |
| AccessoriesPage.Rows | pages/accessories/index.tsx:160-177 | one row per accessory, in order |
| AccessoriesPage.Lines | pages/accessories/index.tsx:158-178 | the header line and then the rows |
| AccessoriesPage.HeaderLineFree | pages/accessories/index.tsx:152-159 | the header line holds no newline |
| AccessoriesPage.ExportOutcomes | pages/accessories/index.tsx:146-188 | "Nothing to export" iff the list is empty; the export throws iff some accessory has no cost |
| AccessoriesPage.RowFree | pages/accessories/index.tsx:177 | a character absent from every cell, and not a comma or a quote, is absent from the row |
| AccessoriesPage.ExportLinesRecovered | pages/accessories/index.tsx:158-180 | when no cell holds a newline, the file splits back into its header and one line per accessory |
| AccessoriesPage.RowCellsQuoted | pages/accessories/index.tsx:177 | when no cell holds a comma, the row splits back into exactly the quoted cells |
| AccessoriesPage.UndefinedDateWritten | pages/accessories/index.tsx:169 | a missing purchase date is exported as `"undefined"` |
| AccessoriesPage.BadgeClasses | pages/accessories/index.tsx:190-196 | the three statuses get three different classes of their own |
| AccessoriesPage.OtherStatusesGray | pages/accessories/index.tsx:195 | every other status gets the default gray |
| AccessoriesPage.Page.constructor | pages/accessories/index.tsx:18-24 | empty lists, no selection, empty query, dialog closed |
| AccessoriesPage.Page.Load | pages/accessories/index.tsx:43-56 | a reply replaces both lists; a failed fetch keeps them |
| AccessoriesPage.Page.HandleSearch | pages/accessories/index.tsx:58-70 | the query becomes the lowercased input and the shown list `Search` |
| AccessoriesPage.Page.HandleDeleteAccessory | pages/accessories/index.tsx:90-93 | selects the accessory and opens the dialog |
| AccessoriesPage.Page.ConfirmDelete | pages/accessories/index.tsx:95-108 | with no selection nothing happens; otherwise a DELETE to the selected id; unless it throws, every record with that id is removed from both lists; the dialog closes |
| AccessoriesPage.Page.HandleSaveAccessory | pages/accessories/index.tsx:119-144 | the request is `SaveRequest`; a returned record goes in by `AfterSave` and both lists show it; a failure changes nothing |
| BitlockerPage.AssetName | pages/bitlocker/index.tsx:50-54 | an id that does not parse, or that no asset has, gives "Unknown Asset"; otherwise the model of the first asset with the parsed id |
| BitlockerPage.TrailingTextIgnored | pages/bitlocker/index.tsx:52 | `parseInt` stops at the first non-digit, so "1abc" names the same asset as "1" |
| BitlockerPage.SearchKeeps | pages/bitlocker/index.tsx:32-47 | a blank query keeps every key; otherwise exactly the keys whose serial, recovery key or asset name contains it |
| BitlockerPage.SearchInOrder | pages/bitlocker/index.tsx:32-47 | the search keeps the list's order: a key between two runs is shown exactly when the query is blank or it matches, and then between the two runs' results |
| BitlockerPage.WithKeyValue | pages/bitlocker/index.tsx:112-119 | an input sets exactly its own form field; the notes field stores the text |
| BitlockerPage.ClearingRequiredFieldBlocksSave | pages/bitlocker/index.tsx:122 | emptying the asset, serial or recovery-key field blocks the save; the notes never decide it |
| BitlockerPage.EditChangesOnlyMatching | pages/bitlocker/index.tsx:131-142 | an edit keeps every other key, and gives every key with the edited id the form's fields and `lastAccessed` now, keeping its id and creation time |
| BitlockerPage.AddAppendsOne | pages/bitlocker/index.tsx:150-164 | an add appends one key `bitlocker-<now>`, created now and never accessed, and keeps the rest |
| BitlockerPage.NewKeyIdsDistinct | pages/bitlocker/index.tsx:153 | adds at different instants get different ids |
| BitlockerPage.Page.constructor | pages/bitlocker/index.tsx:18-30 | starts with the `initial` keys (the source passes its fixture list) all shown, no selection, the empty form and the empty query |
| BitlockerPage.Page.HandleSearch | pages/bitlocker/index.tsx:32-47 | the query becomes the lowercased input and the shown list `Search` |
| BitlockerPage.Page.HandleAddKey | pages/bitlocker/index.tsx:56-65 | no selection and the empty form |
| BitlockerPage.Page.HandleEditKey | pages/bitlocker/index.tsx:67-76 | selects the key and fills the form from it, with absent notes as "" |
| BitlockerPage.Page.HandleDeleteKey | pages/bitlocker/index.tsx:78-81 | selects the key |
| BitlockerPage.Page.ConfirmDelete | pages/bitlocker/index.tsx:83-95 | removes every key with the selected id from both lists and keeps the selection |
| BitlockerPage.Page.HandleChange | pages/bitlocker/index.tsx:112-119 | only the form changes, by `WithKeyValue` |
| BitlockerPage.Page.HandleSaveKey | pages/bitlocker/index.tsx:121-171 | saves iff asset, serial and recovery key are non-empty; then both lists become `Saved`; otherwise nothing changes |
| ComponentsPage.SearchKeeps | pages/components/index.tsx:49-59 | a blank query keeps every component; otherwise exactly those whose name, serial, model or category contains it |
| ComponentsPage.SearchInOrder | pages/components/index.tsx:49-59 | the search keeps the list's order: a component between two runs is shown exactly when the query is blank or it matches, and then between the two runs' results |
| ComponentsPage.AddForm | pages/components/index.tsx:63 | the add form holds exactly the blank text fields plus category "cpu" and status "available" |
| ComponentsPage.InitialForm | pages/components/index.tsx:26-30 | the initial form is the add form plus five more blank assignment fields |
| ComponentsPage.OptionalText | pages/components/index.tsx:69 | an absent optional field is undefined in the form, and a present one is its text |
| ComponentsPage.WithField | pages/components/index.tsx:93-100 | one property takes the new text and every other stays |
| ComponentsPage.PayloadDefaults | pages/components/index.tsx:105-109 | a falsy purchase date becomes today and a falsy cost 0; every other property is passed through |
| ComponentsPage.PayloadIdempotent | pages/components/index.tsx:105-109 | defaulting a second time changes nothing |
| ComponentsPage.TypedZeroCostKept | pages/components/index.tsx:108 | a typed "0" is a truthy text and is sent as typed |
| ComponentsPage.AddPayload | pages/components/index.tsx:63-109 | an added component's payload carries today's date, cost 0 and category "cpu" |
| ComponentsPage.SaveRequest | pages/components/index.tsx:103-116 | PUT to `/api/components/<id>` while editing, POST to `/api/components` otherwise, with the defaulted payload |
| ComponentsPage.EditSwapsById | pages/components/index.tsx:121-123 | an edit replaces exactly the records with the returned id |
| ComponentsPage.AddAppends | pages/components/index.tsx:123 | an add keeps the list and puts the returned record last |
| ComponentsPage.DeleteRemovesId | pages/components/index.tsx:82 | after a delete no component with the id is left, and every other one is |
| ComponentsPage.BadgeClasses | pages/components/index.tsx:135-146 | six statuses get six different classes of their own |
| ComponentsPage.OtherStatusesGray | pages/components/index.tsx:140-144 | "decommissioned" and every unlisted status get the default gray |
| ComponentsPage.Page.constructor | pages/components/index.tsx:18-30 | loading, empty lists, no selection, the initial form, the empty query |
| ComponentsPage.Page.Load | pages/components/index.tsx:32-47 | loading ends; a reply replaces both lists and a failed fetch keeps them |
| ComponentsPage.Page.HandleSearch | pages/components/index.tsx:49-59 | the query becomes the lowercased input and the shown list `Search` |
| ComponentsPage.Page.HandleAddComponent | pages/components/index.tsx:61-65 | no selection and the add form |
| ComponentsPage.Page.HandleEditComponent | pages/components/index.tsx:67-71 | selects the component and fills the form from it |
| ComponentsPage.Page.HandleChange | pages/components/index.tsx:93-100 | only the form changes, by `WithField` |
| ComponentsPage.Page.HandleDeleteComponent | pages/components/index.tsx:73-76 | selects the component and opens the dialog |
| ComponentsPage.Page.ConfirmDelete | pages/components/index.tsx:78-91 | with no selection nothing happens; otherwise a DELETE; unless it throws, the id is removed from both lists; the dialog closes |
| ComponentsPage.Page.HandleSaveComponent | pages/components/index.tsx:102-133 | the request is `SaveRequest`; a returned record goes in by `AfterSave`; a failure changes nothing |
| LicensesPage.ExpiryClassification | pages/licenses/index.tsx:192-219 | the badge is N/A iff the date is missing or empty; Expired iff it reads as an instant before now; Expiring Soon iff it is after now and at most thirty days ahead; Valid for exactly now, later dates and unreadable dates |
| LicensesPage.ExpiredAndSoonExclusive | pages/licenses/index.tsx:192-212 | no date is both expired and expiring soon |
| LicensesPage.BadgesDistinct | pages/licenses/index.tsx:214-219 | the four badges have four different texts and four different classes |
| LicensesPage.SearchKeeps | pages/licenses/index.tsx:60-75 | a blank query shows every licence; otherwise exactly those whose name, software or key contains it |
| LicensesPage.SearchInOrder | pages/licenses/index.tsx:60-75 | the search keeps the list's order: a licence between two runs is shown exactly when the query is blank or it matches, and then between the two runs' results |
| LicensesPage.WithLicenseValue | pages/licenses/index.tsx:134-140 | a text input stores its text; a number input stores `parseFloat(value) \|\| 0`, so unreadable text is 0 |
| LicensesPage.ClearedSeatsBecomeOne | pages/licenses/index.tsx:138-167 | a cleared seats input stores 0, and an add turns that into one seat; number inputs never decide the save guard |
| LicensesPage.NewLicense | pages/licenses/index.tsx:162-176 | the id is `Date.now()`; seats default to 1; available seats default to the seats; a cost of 0 is dropped |
| LicensesPage.EditReplacesOnlyMatching | pages/licenses/index.tsx:153-157 | an edit keeps every id and every other licence in place; an edited licence takes the form's name, software, key, both seat counts, notes, dates and cost (purchase date, cost and notes as given, even when empty), and keeps its id and both timestamps |
| LicensesPage.AddAppendsOne | pages/licenses/index.tsx:160-177 | an add appends exactly the new licence |
| LicensesPage.SeatDefaults | pages/licenses/index.tsx:167-168 | available seats entered as 0 become the total, and a total of 0 becomes one |
| LicensesPage.Page.constructor | pages/licenses/index.tsx:40-57 | the `initial` licences (the source passes its fixture list), all shown, no selection, the new-licence form of today |
| LicensesPage.Page.HandleSearch | pages/licenses/index.tsx:60-75 | the query becomes the lowercased input and the shown list `Search` |
| LicensesPage.Page.HandleAddLicense | pages/licenses/index.tsx:78-92 | no selection and the new-licence form |
| LicensesPage.Page.HandleEditLicense | pages/licenses/index.tsx:95-109 | selects the licence and fills the form from it, with missing values as "" and 0 |
| LicensesPage.Page.HandleDeleteLicense | pages/licenses/index.tsx:112-115 | selects the licence |
| LicensesPage.Page.HandleChange | pages/licenses/index.tsx:134-140 | only the form changes, by `WithLicenseValue` |
| LicensesPage.Page.ConfirmDelete | pages/licenses/index.tsx:118-131 | removes every licence with the selected id from both lists and clears the selection |
| LicensesPage.Page.HandleSaveLicense | pages/licenses/index.tsx:143-189 | saves iff name, software and key are non-empty; then both lists become `Saved` and the selection is cleared; otherwise nothing changes |
| ReportsPage.FormatOptionalDate | pages/reports/index.tsx:14-34 | "N/A" for a missing or empty value, "Invalid Date" when the date does not parse, and otherwise the locale rendering of the instant |
| NetworkPage.DigitsValueShort | pages/network/index.tsx:71 | the value of one to three digits, written out positionally |
| NetworkPage.OctetIff | pages/network/index.tsx:71 | an octet matches `25[0-5]\|2[0-4][0-9]\|[01]?[0-9][0-9]?` iff it is one to three digits of value at most 255 |
| NetworkPage.JoinFour | pages/network/index.tsx:71 | four parts joined by dots are the parts with a dot between each |
| NetworkPage.RegexGivesQuad | pages/network/index.tsx:71 | a text the pattern matches splits into exactly four octets |
| NetworkPage.QuadGivesRegex | pages/network/index.tsx:71 | every dotted quad of octets matches the pattern |
| NetworkPage.IpRegexIff | pages/network/index.tsx:71-72 | the address test accepts exactly the dotted quads of decimal octets up to 255, leading zeros allowed |
| NetworkPage.OctetExamples | pages/network/index.tsx:71 | "007" is an octet; "256", "1000" and "" are not |
| NetworkPage.MatchAsset | pages/network/index.tsx:86 | the first asset with exactly this address, or none when no asset has it; an asset without an address matches nothing |
| NetworkPage.ScanDetails | pages/network/index.tsx:86-163 | the details always carry the scanned address; a matched asset gives the known-device details and no match gives the generic ones |
| NetworkPage.HostNameOfQuad | pages/network/index.tsx:139 | an unknown device is named `host-` plus its last octet, with no dot in the name |
| NetworkPage.KnownDeviceFallbacks | pages/network/index.tsx:90-121 | the asset's own tag, location, assignee and update time are used where present, and "Unknown", "Unassigned" or "Never" where not; two interfaces are listed |
| NetworkPage.RecordScan | pages/network/index.tsx:126-170 | an address already listed leaves the list; a new one goes first and the list is cut to five |
| NetworkPage.RecordScanKeeps | pages/network/index.tsx:126-129 | the recent list stays at most five long and free of repeats, and the scanned address is in it afterwards |
| NetworkPage.NewScanFirst | pages/network/index.tsx:128 | a new address goes first and the others move back by one |
| NetworkPage.Page.constructor | pages/network/index.tsx:52-58 | no address, not scanning, no result, no recent scans |
| NetworkPage.Page.SetIpAddress | pages/network/index.tsx:258 | only the address changes |
| NetworkPage.Page.HandleScan | pages/network/index.tsx:60-81 | an empty address is refused as required and a malformed one as invalid, with nothing changed; otherwise the scan starts |
| NetworkPage.Page.CompleteScan | pages/network/index.tsx:84-179 | the result becomes `ScanDetails`; the recent list becomes `RecordScan` and keeps its bound and distinctness; scanning ends |
| ActivityPage.FilterLogsIsOnePass | pages/activity/index.tsx:46-62 | the type pass then the text pass keep exactly the logs of the chosen type (any for "all") that mention the query in details, action or type (any for a blank query), in their order |
| ActivityPage.NoFilterShowsAll | pages/activity/index.tsx:46-62 | "all" with a blank query shows every log |
| ActivityPage.TypeFilterExact | pages/activity/index.tsx:49-51 | a chosen type shows only logs of exactly that type |
| ActivityPage.Page.constructor | pages/activity/index.tsx:12-15 | no logs, empty query, type "all" |
| ActivityPage.Page.Load | pages/activity/index.tsx:18-33 | loaded logs replace both lists; a failed load changes nothing |
| ActivityPage.Page.HandleSearch | pages/activity/index.tsx:35-39 | the query is stored lowercased and the list refiltered with the current type |
| ActivityPage.Page.HandleTypeFilter | pages/activity/index.tsx:41-44 | the type is stored and the list refiltered with the current query |
| UsersPage.Search | pages/users/index.tsx:57-67 | keeps exactly the users whose name, email, department, position or role, lowercased, contains the lowercased input |
| UsersPage.EmptyQueryKeepsAll | pages/users/index.tsx:57-67 | an empty search keeps every user in order |
| UsersPage.RoleBadgeClass | pages/users/index.tsx:16-22 | admin red, manager yellow, anything else including no role blue |
| UsersPage.SaveBody | pages/users/index.tsx:105 | the body is the form data with a falsy role replaced by "user" and every other field kept |
| UsersPage.SaveBodyIdempotent | pages/users/index.tsx:105 | the body's role is always truthy, so filling in the default twice changes nothing |
| UsersPage.SaveRequest | pages/users/index.tsx:99-107 | editing sends PUT to `/api/users/<id>`, adding sends POST to `/api/users` |
| UsersPage.SaveError | pages/users/index.tsx:109-127 | no message on success; the server's error text, else "Failed to save user.", on a rejection; the thrown message otherwise |
| UsersPage.RejectionMessageNonEmpty | pages/users/index.tsx:111 | a rejected save always shows a non-empty message |
| UsersPage.Page.constructor | pages/users/index.tsx:34-44 | empty lists and query, dialogs closed, one fetch issued |
| UsersPage.Page.Load | pages/users/index.tsx:46-55 | fetched users replace both lists; a failure changes nothing |
| UsersPage.Page.HandleSearch | pages/users/index.tsx:57-67 | the query is stored lowercased and the list becomes `Search` over all users |
| UsersPage.Page.HandleAddUser | pages/users/index.tsx:69-72 | the modal opens with no user |
| UsersPage.Page.HandleEditUser | pages/users/index.tsx:74-77 | the modal opens on that user |
| UsersPage.Page.CloseModal | pages/users/index.tsx:199 | only the modal closes |
| UsersPage.Page.HandleDeleteUser | pages/users/index.tsx:79-82 | the user is remembered and the dialog opens |
| UsersPage.Page.ConfirmDelete | pages/users/index.tsx:84-95 | no user: no request; otherwise DELETE `/api/users/<id>`, and unless it throws the dialog closes, the user is forgotten and the list refetched |
| UsersPage.Page.HandleSaveUser | pages/users/index.tsx:97-128 | sends `SaveRequest`; on success the modal closes and the list is refetched, otherwise the error is shown and the modal stays as it was |
| UserFormModal.DefaultForm | components/users/UserFormModal.tsx:35-45 | six empty texts, active, not admin, role "user", and nothing else |
| UserFormModal.OptionalText | components/users/UserFormModal.tsx:35 | an absent optional text is undefined in the form |
| UserFormModal.OptionalFlag | components/users/UserFormModal.tsx:35 | an absent optional flag is undefined in the form |
| UserFormModal.Errors | components/users/UserFormModal.tsx:65-76 | name required; email required, else it must have the pattern's shape; role required; only these three keys |
| UserFormModal.ValidIff | components/users/UserFormModal.tsx:65-76 | no errors exactly when name and email are non-blank texts, the email has the shape, and a role is set |
| UserFormModal.DefaultFormErrors | components/users/UserFormModal.tsx:35-76 | the blank dialog reports exactly name and email as required |
| UserFormModal.RolelessUserRefused | components/users/UserFormModal.tsx:35-73 | a user without a role opens as a form whose role is required |
| UserFormModal.PaddedEmailAccepted | components/users/UserFormModal.tsx:68-72 | the email is matched untrimmed and " user@example.com " passes |
| UserFormModal.Modal.constructor | components/users/UserFormModal.tsx:29-30 | empty form and errors |
| UserFormModal.Modal.Open | components/users/UserFormModal.tsx:32-49 | opening loads the user or the defaults and clears the errors; a closed dialog changes nothing |
| UserFormModal.Modal.HandleChange | components/users/UserFormModal.tsx:51-55 | the field takes the text; its error, when set, is blanked, and other errors stay |
| UserFormModal.Modal.HandleSwitchChange | components/users/UserFormModal.tsx:57-59 | the flag takes the value; errors stay |
| UserFormModal.Modal.HandleSelectChange | components/users/UserFormModal.tsx:61-63 | the role takes the value; errors stay |
| UserFormModal.Modal.ValidateForm | components/users/UserFormModal.tsx:65-76 | errors become `Errors(form)`, and the result is whether there are none |
| UserFormModal.Modal.HandleSubmit | components/users/UserFormModal.tsx:78-91 | the form is saved and the close requested exactly when it validates |
| ReportsPage.CategoryCount | pages/reports/index.tsx:183-184 | a category tile counts no more assets than there are |
| ReportsPage.StatusCount | pages/reports/index.tsx:199-200 | a status tile counts no more assets than there are |
| ReportsPage.TileCountsStep | pages/reports/index.tsx:183-200 | each asset adds one to the tile of its lowercased category and to the tile of its exact status, and to no other |
| ReportsPage.CategoryTilesBounded | pages/reports/index.tsx:183-184 | the five category tiles together count each asset at most once |
| ReportsPage.StatusTilesBounded | pages/reports/index.tsx:199-200 | the four status tiles count each asset at most once, and all of them exactly when every status is one of the four |
| ReportsPage.StatusTilesSum | pages/reports/index.tsx:199-200 | the tiles' total is the sum of the four status counts |
| ReportsPage.UnlistedStatusUncounted | pages/reports/index.tsx:200 | an asset with another status, a capitalised one say, adds to no status tile |
| ReportsPage.UtilizationRange | pages/reports/index.tsx:234-237 | no seats reads as 0%; consistent seat numbers give a value in 0..100, 100 when none is free and 0 when all are |
| ReportsPage.AssignedAssets | pages/reports/index.tsx:287-288 | exactly the assets assigned to the user's numeric id |
| ReportsPage.AssignedInOrder | pages/reports/index.tsx:287-288 | the report keeps the list's order: an asset between two runs is listed exactly when it is assigned to the user, and then between the two runs' results |
| ReportsPage.NamedAssignmentNotListed | pages/reports/index.tsx:288 | an assignment by name never lists under a user, since the comparison is strict |
| ReportsPage.AssignmentsDisjoint | pages/reports/index.tsx:287-288 | no asset is listed under two different users |
| Dashboard.ExpiringCount | pages/index.tsx:32-44 | at most the number of licences |
| Dashboard.ExpiringMatchesBadge | pages/index.tsx:32-44 | the dashboard counts exactly the licences the licences page badges "Expiring Soon" |
| Dashboard.UndatedNeverExpiring | pages/index.tsx:39-41 | a licence without an expiration date never adds to the count |
| Dashboard.LicensesCard | pages/index.tsx:73-79 | the total licences; "N expiring soon" with a downward trend when N > 0, no text and a neutral trend when not |
| Dashboard.ZabbixCard | pages/index.tsx:80-86 | the total hosts, "N online" counting status "up", an upward trend |
| Dashboard.FiguresBounded | pages/index.tsx:20-26 | the four chart counts add up to at most the asset total, and to it exactly when every status is one of the four |
| ZabbixStatusCard.StatusCount | components/dashboard/ZabbixStatusCard.tsx:10-12 | a tile counts no more hosts than there are |
| ZabbixStatusCard.StatusCountStep | components/dashboard/ZabbixStatusCard.tsx:10-12 | each host adds one to the tile of exactly its status |
| ZabbixStatusCard.TilesCoverHosts | components/dashboard/ZabbixStatusCard.tsx:10-12 | the three tiles count each host at most once, and every host when all statuses are declared ones |
| ZabbixStatusCard.UndeclaredStatusUncounted | components/dashboard/ZabbixStatusCard.tsx:10-12 | a host with an undeclared status adds to no tile |
| ZabbixStatusCard.StatusLabel | components/dashboard/ZabbixStatusCard.tsx:55 | the label is as long as the status |
| ZabbixStatusCard.LabelOnlyCapitalises | components/dashboard/ZabbixStatusCard.tsx:55 | only the first character changes, to upper case; labelling is idempotent and invisible to lowercasing |
| ZabbixStatusCard.DeclaredLabels | components/dashboard/ZabbixStatusCard.tsx:55 | "Up", "Down", "Unknown" |
| ZabbixStatusCard.StatusTone | components/dashboard/ZabbixStatusCard.tsx:44-53 | green exactly for "up", red exactly for "down", gray for anything else |
| ZabbixStatusCard.DotsMatchTiles | components/dashboard/ZabbixStatusCard.tsx:10-47 | the green dots are exactly the "up" tile and the red dots exactly the "down" tile |
| ZabbixPage.StripScheme | pages/zabbix/index.tsx:251 | a leading `https://` or `http://` is removed, and any other text is kept whole |
| ZabbixPage.ServerHost | pages/zabbix/index.tsx:251 | the shown host has no "/" and begins the URL without its scheme |
| ZabbixPage.HostOfWebUrl | pages/zabbix/index.tsx:251 | for an http or https URL the shown host is exactly the host, with or without a path |
| ZabbixPage.DefaultHost | pages/zabbix/index.tsx:21 | the default URL shows "zabbix.example.com" |
| ZabbixPage.OtherSchemeKept | pages/zabbix/index.tsx:251 | another scheme is not stripped: "ftp://h/x" shows "ftp:" |
| ZabbixPage.RefreshShape | pages/zabbix/index.tsx:56-71 | a host is kept, or gets a declared status, CPU and memory below 100 and zero unless up, and the new check time, with every other field unchanged |
| ZabbixPage.Refreshed | pages/zabbix/index.tsx:56-71 | one refreshed host per host, in order |
| ZabbixPage.RefreshKeepsDeclared | pages/zabbix/index.tsx:56-71 | refreshing keeps every status a declared one, so the page's three host tiles (the same exact-equality counts as the dashboard card's) still cover all hosts |
| ZabbixPage.QuietRefresh | pages/zabbix/index.tsx:58 | when no host's draw changes it, the list is unchanged |
| ZabbixPage.Page.constructor | pages/zabbix/index.tsx:17-23 | the `initial` hosts (the source passes its fixture list), not connected, empty token, the default URL, no auto refresh |
| ZabbixPage.Page.SetServerUrl | pages/zabbix/index.tsx:413 | only the URL changes |
| ZabbixPage.Page.SetApiToken | pages/zabbix/index.tsx:428 | only the token changes |
| ZabbixPage.Page.GenerateToken | pages/zabbix/index.tsx:101-109 | the token becomes the two random texts joined |
| ZabbixPage.Page.SetAutoRefresh | pages/zabbix/index.tsx:450 | only the auto-refresh switch changes |
| ZabbixPage.Page.ConnectToZabbix | pages/zabbix/index.tsx:26-36 | refused exactly when URL or token is empty, with nothing changed; otherwise connecting starts |
| ZabbixPage.Page.RefreshData | pages/zabbix/index.tsx:51-74 | the refresh time is set and the hosts become `Refreshed` |
| ZabbixPage.Page.ConnectionEstablished | pages/zabbix/index.tsx:39-47 | connected, no longer connecting, and refreshed |
| ZabbixPage.Page.AutoRefreshTick | pages/zabbix/index.tsx:77-89 | while connected with auto refresh on, a tick refreshes; otherwise nothing changes |
| Sidebar.RootActive | components/layout/Sidebar.tsx:58-60 | the dashboard entry is active on "/" and on any path starting "//", and nowhere else |
| Sidebar.SeparatorRequired | components/layout/Sidebar.tsx:58-60 | "/assets" is active on "/assets" and "/assets/new" but not on "/assetsx" |
| Sidebar.ActiveNested | components/layout/Sidebar.tsx:58-60 | two entries active on one path are equal or one lies below the other |
| Sidebar.TopLevelNotNested | components/layout/Sidebar.tsx:62-76 | no one-segment path lies below another |
| Sidebar.AtMostOneActive | components/layout/Sidebar.tsx:58-76 | on any path at most one of the thirteen entries is highlighted |
| Sidebar.ActiveItems | components/layout/Sidebar.tsx:102-111 | the highlighted entries: at most one, and exactly those whose path is active |
| Sidebar.Panel.constructor | components/layout/Sidebar.tsx:56 | starts expanded |
| Sidebar.Panel.ToggleCollapse | components/layout/Sidebar.tsx:93 | the collapse flag flips |

## Left out

- Rendering, styling and icons are left out. Toasts are left out, except in three places where the toast text is part of the outcome. These are `AssetsPage.SaveAsset` ("Asset Updated", "Asset Added", "Save failed"), the assets import report of `AssetsPage.ImportAssets` ("Assets Imported" with its count, or "Import failed"), and `SetupWizard.Wizard.HandleNext`, whose toast is the validator's message.
- Dialogs are modelled only as open/closed flags, and only these: the delete dialogs of the accessories, components, users and VM inventory pages, and the users page's add/edit modal. The add and edit modals of the components and accessories pages (`setIsAddModalOpen`, `setIsEditModalOpen`) are left out. So are the add, edit and delete dialog flags of the licences and BitLocker pages. Their handlers are modelled without those flags.
- The pages under `pages/settings`, and the components `Layout`, `StatCard`, `ActivityFeed`, `AssetStatusChart`, `LicenseUtilizationChart` and `DeleteConfirmationDialog`, render only and are not part of this model.
- `components/layout/Navbar.tsx` is not part of this model. Its `isActive` is the sidebar's rule, and the navbar is never rendered.
- `components/assets/AssetFormModal.tsx` and `components/vm-inventory/VMFormModal.tsx` are field-by-field form plumbing and are not part of this model.
- AccessoriesPage: the add/edit form state (`formData`, `handleChange` with `parseFloat`, `handleSelectChange`) is not modelled. A save is modelled by the accessory the server returns, or by its failure.
- AssetCsv.ProcessImport: the import dialog's open flag, chosen file and error banner are folded into the outcome value. They are not page fields.
- The thin REST handlers that forward a body to Prisma are not part of this model. These are the assets, components, users, accessories, activity and dashboard-summary routes. This includes the users route's name/email 400 check.
- Prisma, PapaParse, FileReader, Blob downloads and the Next.js router are parameters, or are left out. Only their outcomes are modelled.
- `bcrypt.hash`, the `pg` driver and `fs` are abstract: a hash function parameter, a server with reachability and failure flags, and a file system map.
- SetupStatus: the outer `try` that returns 500 on an unexpected error is not modelled. The only failure modelled is the existence check failing, which gives `setupCompleted` false with status 200.
- SetupComplete: an `importOptions` that is a value other than an object is not modelled. A present one is eight truthiness flags. A missing one makes the seed step throw on its first property read, as the source does.
- ComponentsPage.Page.Load: the source stores whatever JSON body `/api/components` returns, without checking `res.ok` (`pages/components/index.tsx:35-38`). The model's `Some` is a body that is a component list; an error body such as `{ error: ... }` stored as the list is not modelled, and neither is its later failure in `filter`.
- AccessoriesPage.Page.Load: the same gap at `pages/accessories/index.tsx:46-49`. The body of `/api/accessories` is stored as the list without checking `res.ok`; a non-list error body, and its later failure in `filter`, are not modelled.
- UsersPage.Page.Load: the same gap at `pages/users/index.tsx:48-51`. A 500's `{ error }` body from `/api/users` would be stored as the user list; it is not modelled, and neither is its later failure in `filter`.
- ActivityPage.Page.Load: the same gap at `pages/activity/index.tsx:19-24`. The body of `/api/activity-logs` is stored as the log list whatever the status; a non-list body, and its later failure in `filter`, are not modelled.
- VmInventoryPage.FetchVMs: the same gap at `pages/vm-inventory/index.tsx:39-42`. The body of `/api/vm-inventory`, including the 405 or 500 error bodies, is stored as the VM list; only a VM list is modelled, and the later failure of `filter` on anything else is not.
- The network page's DNS settings form is not modelled: `dns1`, `dns2`, `isUpdatingDns` and its 2-second timer.
- NetworkPage: `generateRandomMac`'s text is a parameter of the scan, not derived. The USB device list is not modelled.
- NetworkPage.Page.CompleteScan records the scan in the list as it is when the timer fires. The source's timer closure records it in the list as it was when the scan started; the two differ only when scans overlap.
- NetworkPage: the device details' random values are parameters. A click on a recent scan is `SetIpAddress` followed by `HandleScan`; the 100 ms timer that clicks the scan button between them is left out.
- Timers are left out: the 1500 ms Zabbix connect delay (`pages/zabbix/index.tsx:39-47`), the 2000 ms network scan delay (`pages/network/index.tsx:84-179`), the 60-second Zabbix interval, the reports page's 1500 ms "generating" flag and the wizard's 3-second redirect to `/` after a finished setup (`pages/setup/index.tsx:196-198`). Each callback that changes state is a method of its own that a caller invokes; the redirect is not modelled.
- ReportsPage: `generateReport` and `downloadReport` only toast, and are not modelled.
- ZabbixPage.Page.ConnectionEstablished refreshes from the hosts as they are when the timer fires. The source calls the `refreshData` captured when connect was clicked; the two agree unless the hosts change in between.
- ZabbixPage: the CPU, memory and disk averages are left out. They are floating point, and not a number on an empty host list.
- ZabbixPage.Page.GenerateToken takes the two `Math.random().toString(36).substring(2, 15)` texts as parameters. Their base-36 form and length are not modelled.
- ZabbixPage: the "Additional Settings" button only toasts, and is not modelled.
- ReportsPage.UtilizationRange: the percentage is an exact `real`. Float rounding, `Math.round` and the 70%/90% colour thresholds are not modelled.
- Money and seat figures are integers. A cost that `parseFloat` reads with a fraction is not modelled.
- LicensesPage: the 30-day window is now plus 30 × 86 400 000 ms. The source's `setDate(getDate() + 30)` also crosses daylight-saving changes, and that is not modelled.
- Dashboard: the 30-day window is now plus 30 × 86 400 000 ms, for the same reason as LicensesPage.
- Dates are instants in milliseconds from a `parseDate` parameter. Locale formatting (`toLocaleString`, `toLocaleDateString`) is left out.
- ReportsPage.FormatOptionalDate: the `catch` branch that returns "Error" is not modelled, since the `Date` constructor does not throw on a string.
- Form fields that hold a non-string value where text is expected are read as missing.
- `toLowerCase` and `toUpperCase` are modelled on ASCII letters only.
- `trim` is modelled only where the source compares the trimmed text with "". There it is a test that every character is JavaScript whitespace.
- Concurrency is left out: React's batched and stale state updates, overlapping requests and simultaneous imports. Each handler runs to completion on the state it sees.
- Postgres.CheckInserts: column types and widths (`VARCHAR(n)`, `DATE`, `DECIMAL`) are not enforced. A row is refused only for a null NOT NULL column, a UNIQUE clash or a dangling reference; a value too long for its column goes in.
- SetupComplete.CreateAdminUser: an administrator name or email over 100 characters is inserted by the model. The `VARCHAR(100)` columns (`pages/api/setup/complete.ts:50-51`) make PostgreSQL refuse that INSERT, and the source's handler then answers 500.
- SetupWizard.AdminFormError: the password length is the number of Unicode characters. JavaScript's `length` counts UTF-16 code units, so a character outside the Basic Multilingual Plane (an emoji) counts once in the model and twice in the source; four emoji pass the source's 8-character test and fail the model's.
- LicensesPage.NewLicense and VmCsv.ImportRow: one `now` stamps both `createdAt` and `updatedAt`. The source reads the clock twice, so its two stamps can differ by a millisecond.
- SetupWizard.Wizard.HandleFinish sends `confirmPassword` inside `admin`. The endpoint ignores it, and the model does too.
