# Pravaha back-end core, modelled in Dafny

Pravaha is a market-announcement service with three jobs:

- It keeps a directory of listed companies synchronised with two stock exchanges:
  - a daily BSE sync from the BSE listing API;
  - a daily NSE sync from the NSE equity and SME listing CSVs.
- It polls the NSE announcement feed. For each new announcement it extracts the PDF text, has it analysed, and stores the analysis.
- It runs a Telegram bot. Chats subscribe with `/start` and unsubscribe with `/stop`.

This project models the core of those jobs and proves properties of the model. The modules are:

- `CompanyModel`: the Company document and its schema constraints, plus the two unique indexes.
  - `CompanyStore` is the collection as a class, with an unordered `bulkWrite`.
  - `Plan` is the per-row bookkeeping (operation list and counters) that both syncs share.
- `BseCompanySync`: `syncBSECompaniesToDB`.
  - A snapshot read, then one loop that turns each row into a skip, an insert or an update, then one bulk write.
  - `SyncBseCompaniesToDb` is the method. It is proved equal to the whole-run function `BseSync`, which the lemmas reason about.
- `NseCompanySync`: the CSV `mapHeaders` normalisation and `syncNSECompaniesToDB`, modelled the same way (`NseSync`).
- `AnalysisModel`: the Analysis document with its two enums, document validation, and the URL-keyed collection (`AnalysisStore`).
- `Polling`: `checkAndProcessAnnouncements`, one polling cycle.
  - The method is proved equal to the function `CheckAndProcess`.
  - `RunCycles` chains cycles.
- `TelegramUserModel`: the subscriber document and the chat-keyed collection (`TelegramUserStore`).
- `Telegram`:
  - `cleanTelegramText`;
  - `sendTelegramMessage`, as a request appended to the bot's outbox;
  - `handleTelegramUpdate`, as a method of `TelegramBot` proved equal to the function `Handle`.
- `JsText` and `Wrappers`: JavaScript truthiness, `String(...)`, `trim()`, and `Option`.

## External parts and how they are modelled

These are parameters of the model, never computed by it:

- **HTTP downloads.** A download that fails or returns nothing is an `Option` that is `None`.
- **CSV parsing.** The parsed rows are given. Only `mapHeaders` is modelled.
- **`parseFloat`.** A `Parser` oracle, where `None` stands for NaN.
- **PDF extraction and the AI service.** The `Extractor` and `Analyzer` oracles.
- **Failure of the Company snapshot read and of the TelegramUser calls.** Boolean parameters (`readFails`, `storeFails`).

The bot token is a `Field` constant of the bot.

## Where the model follows the code

Where the description of the system and the code differ, the model follows the code:

- **BSE updates.** They rewrite `Mktcap` and `FACE_VALUE` as well as the exchange list.
- **NSE inserts.**
  - They carry the face value unvalidated: `null`, NaN or a number.
  - They carry no `INDUSTRY`, which the schema requires. `NseNewIsinInserted` states that such a document is not `SchemaValid`.
  - So the unordered bulk write leaves every one of them out, without a write error. An NSE run never adds a company (`NseSyncAddsNoCompany`), and the same records count as inserted again on every run (`NseSyncIdempotent`, `NseNewCompaniesNotStored`). The shared placeholder `SCRIP_CD` 'N/A' never reaches the unique index.
- **Schema validation in the bulk write.** The model follows the unordered `bulkWrite` of Mongoose 6 and later: an insert that fails the Company schema is left out without a write error, and the other operations are still attempted. This also drops a BSE insert whose row has, say, a `Status` other than 'Active' or an empty required text; `Admitted` names the BSE rows whose insert passes.
- **A `null` element in the BSE response.** It makes the loop's `catch` handler itself throw, so the run ends before the bulk write (`Aborted`).

## Model

| member | source | states |
|---|---|---|
| JsText.TrimStartSpec | Pravaha-Backend/src/services/nseCompanySyncService.js:34 | `trim()` start: what is dropped is whitespace, the result is a suffix, and it does not start with whitespace |
| JsText.TrimEndSpec | Pravaha-Backend/src/services/nseCompanySyncService.js:34 | `trim()` end: the mirror image of the start |
| JsText.TrimIsInfix | Pravaha-Backend/src/services/nseCompanySyncService.js:107-109 | `trim()` returns a contiguous slice of the input, with only whitespace outside it |
| JsText.TrimIdempotent | Pravaha-Backend/src/services/nseCompanySyncService.js:107-109 | trimming a trimmed value changes nothing |
| CompanyModel.ParseExchange | Pravaha-Backend/src/models/company_model.js:58-63 | the `listed_exchanges` enum accepts exactly 'BSE' and 'NSE' |
| CompanyModel.ExchangeNameRoundTrip | Pravaha-Backend/src/models/company_model.js:58-63 | enum value -> name -> value is the identity, and an accepted name is that value's name |
| CompanyModel.AtMostOnePerScripCode | Pravaha-Backend/src/models/company_model.js:4-9 | under the unique index on `SCRIP_CD`, no two stored companies share a code |
| CompanyModel.ApplyOp | Pravaha-Backend/src/services/bseCompanySyncService.js:141-155 | an insert the schema refuses changes nothing and is no error; a valid insert is stored iff its ISIN and SCRIP_CD are both new; an accepted operation never removes a company |
| CompanyModel.ApplyOps | Pravaha-Backend/src/services/bseCompanySyncService.js:141-155 | an unordered bulk write reports at most one write error per operation and never removes a company |
| CompanyModel.RefusedInsertsWriteNothing | Pravaha-Backend/src/services/bseCompanySyncService.js:141-155 | a bulk write made only of inserts the schema refuses changes nothing and reports no write error |
| CompanyModel.ApplyOpsKeepsUniqueKeys | Pravaha-Backend/src/models/company_model.js:4-32 | every bulk write keeps both unique indexes (ISIN and SCRIP_CD) |
| CompanyModel.NoWriteErrorsPrefix | Pravaha-Backend/src/services/bseCompanySyncService.js:149-155 | a bulk write with no write errors accepted every one of its operations |
| CompanyModel.ApplyOpsUntouched | Pravaha-Backend/src/services/bseCompanySyncService.js:93-105 | a company that no operation names is left exactly as it was |
| CompanyModel.ApplyOpsKeepsScripCode | Pravaha-Backend/src/services/bseCompanySyncService.js:93-105 | a bulk write never removes a company and never changes a stored `SCRIP_CD` |
| CompanyModel.ApplyOpsGrowsExchanges | Pravaha-Backend/src/services/bseCompanySyncService.js:87-100 | if every operation keeps each stored exchange set, the whole bulk write does too, for every stored company |
| CompanyModel.Record | Pravaha-Backend/src/services/bseCompanySyncService.js:70-133 | one row bumps exactly one counter and pushes at most its own operation |
| CompanyModel.SnapshotOfEnumeration | Pravaha-Backend/src/services/bseCompanySyncService.js:47-53 | indexing a full read of the collection by ISIN gives back exactly the collection |
| CompanyModel.CompanyStore.constructor | Pravaha-Backend/src/models/company_model.js:1-69 | a new collection is empty and keeps the two unique indexes |
| CompanyModel.CompanyStore.Find | Pravaha-Backend/src/services/bseCompanySyncService.js:50 | `find({})` returns every stored document, and nothing else |
| CompanyModel.CompanyStore.BulkWrite | Pravaha-Backend/src/services/bseCompanySyncService.js:141-155 | the loop over the operations ends in the state and write-error count of the bulk-write specification, keeping the indexes |
| BseCompanySync.Dedupe | Pravaha-Backend/src/services/bseCompanySyncService.js:90 | `[...new Set(list)]` names the same exchanges as the list, each once |
| BseCompanySync.FirstIndex | Pravaha-Backend/src/services/bseCompanySyncService.js:90 | the position returned holds the element and no earlier position does |
| BseCompanySync.DedupeFirstOccurrenceOrder | Pravaha-Backend/src/services/bseCompanySyncService.js:90 | a `Set` keeps insertion order: the deduplicated list holds only input elements, ordered by where each first occurs in the input |
| BseCompanySync.DedupeOfDistinct | Pravaha-Backend/src/services/bseCompanySyncService.js:90 | deduplicating a list without repeats returns it unchanged |
| BseCompanySync.MergedExchangesSpec | Pravaha-Backend/src/services/bseCompanySyncService.js:78-91 | the merged list contains 'BSE' and every old exchange; 'BSE' appears once if it was missing; a list already holding 'BSE' is returned unchanged; a list without repeats keeps its order, with 'BSE' appended |
| BseCompanySync.PlanBse | Pravaha-Backend/src/services/bseCompanySyncService.js:63-139 | the loop completes iff no element is `null`; each row bumps one counter; the operations number inserted + updated |
| BseCompanySync.PlanBseOperations | Pravaha-Backend/src/services/bseCompanySyncService.js:61-139 | the loop method reports an abort exactly when the loop specification does, and otherwise returns its operations and counters |
| BseCompanySync.PlanBseRow | Pravaha-Backend/src/services/bseCompanySyncService.js:64-134 | one loop iteration adds to the running plan exactly that row's decision |
| BseCompanySync.IndexByIsin | Pravaha-Backend/src/services/bseCompanySyncService.js:47-53 | the snapshot map holds every read document under its ISIN, keeping the last one for each key |
| BseCompanySync.SyncBseCompaniesToDb | Pravaha-Backend/src/services/bseCompanySyncService.js:33-166 | the method leaves the collection and outcome that `BseSync` specifies, keeping both unique indexes |
| BseCompanySync.BseSyncFailuresWriteNothing | Pravaha-Backend/src/services/bseCompanySyncService.js:36-59 | no data, a failed read or an aborted loop leaves the collection unchanged, with the matching outcome |
| BseCompanySync.InvalidRowSkipped | Pravaha-Backend/src/services/bseCompanySyncService.js:68-72 | a row without an ISIN or scrip code, or with a numeric field that does not parse, is skipped |
| BseCompanySync.NewIsinInserted | Pravaha-Backend/src/services/bseCompanySyncService.js:110-133 | a valid row with a new ISIN is inserted with each text field set to the row's value as a JavaScript string, INDUSTRY included (a missing one becomes "undefined"), the parsed numbers, URL and issuer only when truthy, and exchange list ['BSE'] |
| BseCompanySync.ExistingIsinUpdatedIffChanged | Pravaha-Backend/src/services/bseCompanySyncService.js:76-109 | a known ISIN is updated iff its market cap or face value changed or 'BSE' is missing; the update carries the new values and the merged exchange list |
| BseCompanySync.SettledRowSkipped | Pravaha-Backend/src/services/bseCompanySyncService.js:68-109 | a row is skipped exactly when it needs no write against the snapshot |
| BseCompanySync.AllSettledPlansNothing | Pravaha-Backend/src/services/bseCompanySyncService.js:141-158 | when every row is settled the loop plans no operation and counts every row as skipped |
| BseCompanySync.PlanStabilises | Pravaha-Backend/src/services/bseCompanySyncService.js:63-155 | after a run without write errors in which no two valid rows share an ISIN, every valid row's company is either stored with the row's numbers and 'BSE', or not stored with a document the schema refuses |
| BseCompanySync.AllStablePlansRefusedInserts | Pravaha-Backend/src/services/bseCompanySyncService.js:63-139 | when every row is stable the loop plans no update, one insert per valid row with a new ISIN, each of a document the schema refuses, and skips the rest |
| BseCompanySync.BseSyncIdempotent | Pravaha-Backend/src/services/bseCompanySyncService.js:33-166 | when no two valid rows share an ISIN, re-running a sync that had no write errors on the same data changes nothing, updates nothing, counts as inserted again exactly the valid rows whose company is still not stored, and skips the rest |
| BseCompanySync.BseSyncIdempotentAdmitted | Pravaha-Backend/src/services/bseCompanySyncService.js:33-166 | when moreover every valid row's document passes the schema, the re-run skips every row |
| BseCompanySync.BseSyncNeverRemovesExchange | Pravaha-Backend/src/services/bseCompanySyncService.js:87-100 | a BSE run never deletes a company and never removes an exchange from a stored list |
| BseCompanySync.BseSyncListsValidRows | Pravaha-Backend/src/services/bseCompanySyncService.js:87-127 | after a run without write errors in which no two valid rows share an ISIN: a stored valid row's company is listed on 'BSE' with the row's numbers; a row whose document passes the schema is stored; a row not stored had a new ISIN and a refused document |
| BseCompanySync.BseDuplicateNewIsin | Pravaha-Backend/src/services/bseCompanySyncService.js:110-155 | two rows with the same new ISIN count as two inserts; if both documents pass the schema the bulk write refuses the second (one write error), and if neither does nothing is written |
| NseCompanySync.UpperAscii | Pravaha-Backend/src/services/nseCompanySyncService.js:34 | `toUpperCase()` keeps the length, maps each letter 'a'-'z' to its capital at the same position, and leaves every other character as it was |
| NseCompanySync.ReplaceNonAlnum | Pravaha-Backend/src/services/nseCompanySyncService.js:34 | `replace(/[^A-Z0-9]/g, '_')` yields only A-Z, 0-9 and '_'; its length is the input's UTF-16 length; without characters above U+FFFF it keeps each letter and digit in place and puts '_' for every other character; a leading character above U+FFFF becomes '__' |
| NseCompanySync.CleanHeader | Pravaha-Backend/src/services/nseCompanySyncService.js:34 | a cleaned header contains only A-Z, 0-9 and '_' |
| NseCompanySync.CleanHeaderIdempotent | Pravaha-Backend/src/services/nseCompanySyncService.js:34 | cleaning a cleaned header changes nothing |
| NseCompanySync.MapHeaders | Pravaha-Backend/src/services/nseCompanySyncService.js:33-47 | a header is kept iff its cleaned form is one of the eight standard names, and is then renamed to that name; any other header is dropped |
| NseCompanySync.MapHeadersKeepsStandardNames | Pravaha-Backend/src/services/nseCompanySyncService.js:35-46 | every standard name maps to itself |
| NseCompanySync.LeadingWhitespaceTrimmed | Pravaha-Backend/src/services/nseCompanySyncService.js:34 | for any text, leading whitespace changes neither the start-trimmed text nor the header's mapped field |
| NseCompanySync.MapHeadersSpacedName | Pravaha-Backend/src/services/nseCompanySyncService.js:31-34 | a two-word header with a space, e.g. 'ISIN NUMBER', maps to its underscore form |
| NseCompanySync.PlanNse | Pravaha-Backend/src/services/nseCompanySyncService.js:104-167 | each record bumps exactly one counter; the operations number inserted + updated |
| NseCompanySync.PlanNseOperations | Pravaha-Backend/src/services/nseCompanySyncService.js:102-167 | the loop method returns exactly the operations and counters of the loop specification |
| NseCompanySync.PlanNseRecord | Pravaha-Backend/src/services/nseCompanySyncService.js:105-162 | one loop iteration adds to the running plan exactly that record's decision |
| NseCompanySync.ListedSnapshot | Pravaha-Backend/src/services/nseCompanySyncService.js:90-94 | the snapshot holds exactly the stored companies whose ISIN is non-empty |
| NseCompanySync.IndexListedIsins | Pravaha-Backend/src/services/nseCompanySyncService.js:87-94 | the map holds every read document with a truthy ISIN, the last one for each key, and no empty key |
| NseCompanySync.ListedSnapshotOfEnumeration | Pravaha-Backend/src/services/nseCompanySyncService.js:87-94 | indexing a full read gives the listed snapshot of the collection |
| NseCompanySync.SyncNseCompaniesToDb | Pravaha-Backend/src/services/nseCompanySyncService.js:62-193 | the method leaves the collection and outcome that `NseSync` specifies, keeping both unique indexes |
| NseCompanySync.NseSyncFailuresWriteNothing | Pravaha-Backend/src/services/nseCompanySyncService.js:68-100 | a failed download, an empty combined listing or a failed read changes nothing, with the matching outcome |
| NseCompanySync.NseSyncEquityFirst | Pravaha-Backend/src/services/nseCompanySyncService.js:76 | the run processes the equity records and then the SME records; the counters add up |
| NseCompanySync.NseInvalidRowSkipped | Pravaha-Backend/src/services/nseCompanySyncService.js:107-117 | a record with a missing or blank ISIN, symbol or name is skipped |
| NseCompanySync.NseNewIsinInserted | Pravaha-Backend/src/services/nseCompanySyncService.js:140-161 | a new ISIN is inserted with every field the code sets; face value `null`, NaN or the number; segment 'SME' iff SERIES is 'SM'; the document fails the schema (no INDUSTRY) |
| NseCompanySync.NseExistingIsinUpdatedIffMissingNse | Pravaha-Backend/src/services/nseCompanySyncService.js:119-139 | a known ISIN is updated iff 'NSE' is missing; the update only appends 'NSE' to the exchange list |
| NseCompanySync.PlanNseWrites | Pravaha-Backend/src/services/nseCompanySyncService.js:125-160 | every planned insert has SCRIP_CD 'N/A', no industry and exchanges ['NSE']; every update appends 'NSE' to a snapshot company's list and sets nothing else |
| NseCompanySync.NseWritesKeepKeys | Pravaha-Backend/src/services/nseCompanySyncService.js:125-182 | a bulk write of NSE writes reports no write error and stores no new company |
| NseCompanySync.NseSettledRowSkipped | Pravaha-Backend/src/services/nseCompanySyncService.js:113-139 | a record is skipped exactly when it needs no write against the snapshot |
| NseCompanySync.PlanNseStabilises | Pravaha-Backend/src/services/nseCompanySyncService.js:104-182 | after any run, every valid record whose company is stored has it listed on 'NSE' |
| NseCompanySync.AllNseStablePlansInserts | Pravaha-Backend/src/services/nseCompanySyncService.js:104-167 | when every record is stable the loop plans no update and every operation is an insert |
| NseCompanySync.PlanNseInsertedCount | Pravaha-Backend/src/services/nseCompanySyncService.js:104-167 | the loop counts as inserted exactly the valid records whose ISIN the collection lacks |
| NseCompanySync.PlanNseOfStable | Pravaha-Backend/src/services/nseCompanySyncService.js:104-182 | on a collection where every record is stable, nothing is updated, the new-ISIN records count as inserted, and the bulk write changes nothing without error |
| NseCompanySync.NseSyncOfStable | Pravaha-Backend/src/services/nseCompanySyncService.js:62-193 | a run on a collection where every record is stable changes nothing and reports the new-ISIN records as inserted and the rest as skipped |
| NseCompanySync.NseSyncFirstRun | Pravaha-Backend/src/services/nseCompanySyncService.js:62-193 | a run on non-empty listings counts as inserted exactly the valid records whose ISIN is not stored, keeps the set of stored companies, and leaves every record stable |
| NseCompanySync.NseSyncIdempotent | Pravaha-Backend/src/services/nseCompanySyncService.js:62-193 | re-running a sync on the same non-empty listings changes nothing, updates nothing, counts the valid records with new ISINs as inserted again, skips the rest and reports no write error |
| NseCompanySync.NseSyncNeverRemovesExchange | Pravaha-Backend/src/services/nseCompanySyncService.js:122-124 | an NSE run never deletes a company and never removes an exchange from a stored list |
| NseCompanySync.NseSyncAddsNoCompany | Pravaha-Backend/src/services/nseCompanySyncService.js:62-193 | an NSE run never changes the set of stored companies and never reports a write error |
| NseCompanySync.NseSyncListsStoredRecords | Pravaha-Backend/src/services/nseCompanySyncService.js:119-182 | after a run, every valid record whose company is stored has it listed on 'NSE' |
| NseCompanySync.NseNewCompaniesNotStored | Pravaha-Backend/src/services/nseCompanySyncService.js:140-182 | two valid records with new ISINs count as two inserts, and the run stores neither and reports no write error |
| AnalysisModel.ParseSentiment | Pravaha-Backend/src/models/analysis_model.js:33-37 | an accepted `sentiment` text names the value it parses to |
| AnalysisModel.ParseClassification | Pravaha-Backend/src/models/analysis_model.js:38-42 | an accepted `classification` text names the value it parses to |
| AnalysisModel.EnumNamesParse | Pravaha-Backend/src/models/analysis_model.js:33-42 | every enum value's name is accepted as that value |
| AnalysisModel.Validate | Pravaha-Backend/src/models/analysis_model.js:12-52 | a document that passes validation has all required strings non-empty |
| AnalysisModel.ValidateDraftOf | Pravaha-Backend/src/models/analysis_model.js:12-52 | validation accepts the field-by-field description of any well-formed record and rebuilds it; an accepted draft is that description |
| AnalysisModel.UrlKeyedUnique | Pravaha-Backend/src/models/analysis_model.js:47-52 | under the unique index no two stored analyses share a `source_pdf_url` |
| AnalysisModel.SaveDraft | Pravaha-Backend/src/services/pollingService.js:50 | a save keeps the unique-URL invariant |
| AnalysisModel.SaveDraftSpec | Pravaha-Backend/src/services/pollingService.js:42-50 | a save succeeds iff the draft validates and its URL is new; it then adds that record and keeps every other |
| AnalysisModel.AnalysisStore.constructor | Pravaha-Backend/src/models/analysis_model.js:1-60 | a new collection is empty and URL-keyed |
| AnalysisModel.AnalysisStore.FindOne | Pravaha-Backend/src/services/pollingService.js:22 | `findOne({ source_pdf_url })` finds a record iff one is stored under that URL, and returns it |
| AnalysisModel.AnalysisStore.Save | Pravaha-Backend/src/services/pollingService.js:42-50 | the save reports success iff the save specification accepts, and the collection changes only then |
| Polling.ProcessBatch | Pravaha-Backend/src/services/pollingService.js:15-56 | one log outcome per announcement; an error in one does not stop the loop |
| Polling.Reversed | Pravaha-Backend/src/services/pollingService.js:15 | `reverse()` keeps the length |
| Polling.ProcessAnnouncement | Pravaha-Backend/src/services/pollingService.js:16-55 | one iteration against the collection object yields the state and outcome of the item specification |
| Polling.CheckAndProcessAnnouncements | Pravaha-Backend/src/services/pollingService.js:6-58 | the method leaves the collection and log of the cycle specification `CheckAndProcess` |
| Polling.NoAnnouncementsNoChange | Pravaha-Backend/src/services/pollingService.js:9-13 | a `null` or empty fetch changes nothing and processes nothing |
| Polling.OldestFirst | Pravaha-Backend/src/services/pollingService.js:15 | the feed's last (oldest) announcement is processed first, and the rest follow |
| Polling.StoredUrlSkipped | Pravaha-Backend/src/services/pollingService.js:22-27 | an announcement whose PDF URL is already stored is skipped and changes nothing |
| Polling.FailedEnrichmentSkipped | Pravaha-Backend/src/services/pollingService.js:30-40 | no extracted text, or no analysis, skips the announcement and changes nothing |
| Polling.SavedOnlyWhenEnriched | Pravaha-Backend/src/services/pollingService.js:22-55 | a record is added only on `Saved`, which happens exactly when the URL is new, the text truthy, the analysis present and the merged draft passes the schema; it carries the announcement's fields and the analysis' fields; anything else, including a failed save, changes nothing |
| Polling.ProcessItemKeepsStored | Pravaha-Backend/src/services/pollingService.js:16-55 | one announcement never changes or removes a stored analysis |
| Polling.ProcessBatchKeepsStored | Pravaha-Backend/src/services/pollingService.js:15-56 | a batch keeps the URL-keyed invariant and never changes or removes a stored analysis |
| Polling.OlderDuplicateWins | Pravaha-Backend/src/services/pollingService.js:15-27 | when the same PDF is listed twice in one batch, the older listing is stored and the newer one is skipped |
| Polling.RunCyclesKeepsUrlKeyed | Pravaha-Backend/src/services/pollingService.js:61-68 | across any sequence of cycles the collection stays URL-keyed and nothing stored is changed or removed |
| TelegramUserModel.WithDefaults | Pravaha-Backend/src/models/telegramUser_model.js:5-26 | a subscriber holds the chat id and profile it is given, and `is_bot` is the given flag, false when none is given |
| TelegramUserModel.UpsertSpec | Pravaha-Backend/src/services/telegramService.js:53-62 | an upsert keeps one row per chat: the chat's row holds the new profile, other rows are kept, and the keys grow by at most that chat |
| TelegramUserModel.DeleteOne | Pravaha-Backend/src/services/telegramService.js:71 | `deletedCount` is at most 1 |
| TelegramUserModel.DeleteOneSpec | Pravaha-Backend/src/services/telegramService.js:71-72 | a delete removes exactly the chat's row, reports 1 iff the row existed, and keeps the invariant |
| TelegramUserModel.TelegramUserStore.constructor | Pravaha-Backend/src/models/telegramUser_model.js:1-34 | a new collection is empty and chat-keyed |
| TelegramUserModel.TelegramUserStore.FindOneAndUpdate | Pravaha-Backend/src/services/telegramService.js:53-62 | the collection becomes the upsert of the given profile, and the returned row is the chat's new row |
| TelegramUserModel.TelegramUserStore.Delete | Pravaha-Backend/src/services/telegramService.js:71 | the collection and the count are those of the delete specification |
| Telegram.StripReserved | Pravaha-Backend/src/services/telegramService.js:9-10 | the result is no longer than the input and contains none of the sixteen reserved characters |
| Telegram.StripCounts | Pravaha-Backend/src/services/telegramService.js:9-10 | every non-reserved character is kept as often as it occurs; every reserved one is gone |
| Telegram.StripConcat | Pravaha-Backend/src/services/telegramService.js:9-10 | a concatenation is cleaned part by part, so the kept characters stay in order |
| Telegram.StripOfClean | Pravaha-Backend/src/services/telegramService.js:9-10 | a text with no reserved characters is left unchanged |
| Telegram.StripIdempotent | Pravaha-Backend/src/services/telegramService.js:9-10 | cleaning twice is the same as cleaning once |
| Telegram.StripKeepsEmphasis | Pravaha-Backend/src/services/telegramService.js:9-26 | every MarkdownV2 '_' and '*' survives cleaning |
| Telegram.CleanTelegramText | Pravaha-Backend/src/services/telegramService.js:7-11 | a non-string gives ''; the result never contains a reserved character |
| Telegram.SentSpec | Pravaha-Backend/src/services/telegramService.js:13-28 | with no token nothing is sent; with one, exactly one request goes to the chat with the cleaned text |
| Telegram.NatToString | Pravaha-Backend/src/services/telegramService.js:44 | decimal digits only, at least one, and at least two from 10 up |
| Telegram.IntToStringInjective | Pravaha-Backend/src/services/telegramService.js:44 | distinct chat ids give distinct `chat_id` strings |
| Telegram.StartSubscribes | Pravaha-Backend/src/services/telegramService.js:45-63 | `/start` upserts the chat's row: missing profile parts become '' and `is_bot` is true only if the sender says so; other rows are kept; the chat is welcomed |
| Telegram.StartTwiceOneRow | Pravaha-Backend/src/services/telegramService.js:53-62 | repeating `/start` leaves a single row for the chat, holding the latest profile |
| Telegram.StopUnsubscribes | Pravaha-Backend/src/services/telegramService.js:69-77 | `/stop` deletes a subscribed chat's row and confirms; for an unknown chat it changes nothing and says it was not subscribed |
| Telegram.OtherTextHelps | Pravaha-Backend/src/services/telegramService.js:82-84 | any other text, or none, changes nothing and sends the help reply |
| Telegram.NoMessageNoEffect | Pravaha-Backend/src/services/telegramService.js:42 | an update without a message changes nothing and sends nothing |
| Telegram.StoreErrorReplies | Pravaha-Backend/src/services/telegramService.js:65-81 | a collection error during `/start` or `/stop` changes nothing and sends the error reply |
| Telegram.HandleKeepsChatKeyed | Pravaha-Backend/src/services/telegramService.js:41-86 | every update keeps one row per chat; the only key it can add is the sender's |
| Telegram.TelegramBot.constructor | Pravaha-Backend/src/services/telegramService.js:5 | a new bot has its token, an empty subscriber collection and an empty outbox |
| Telegram.TelegramBot.SendTelegramMessage | Pravaha-Backend/src/services/telegramService.js:13-39 | the outbox grows by exactly the requests `Sent` specifies |
| Telegram.TelegramBot.HandleTelegramUpdate | Pravaha-Backend/src/services/telegramService.js:41-86 | the collection and the replies sent are those of `Handle` |
| Telegram.TelegramBot.HandleStart | Pravaha-Backend/src/services/telegramService.js:51-68 | the `/start` branch has the collection change and reply of `Handle` |
| Telegram.TelegramBot.HandleStop | Pravaha-Backend/src/services/telegramService.js:69-81 | the `/stop` branch has the collection change and reply of `Handle` |

## Left out

- HTTP and the network: the BSE API call, both CSV downloads, the announcement feed, PDF download and extraction, the AI request and the Telegram POST. Their results are parameters or oracles.
- The CSV byte parser: the parsed records are given. Only `mapHeaders` is modelled.
- `parseFloat` and floating point: a `Parser` oracle whose `None` is NaN. Numbers are `real`s, so `!==` between numbers is modelled as exact value inequality, with no NaN/−0 subtleties.
- Validation of updates: `updateOne` runs without validators, so `ApplyOp` applies every `$set` as given.
- The bulk write of Mongoose 5, where one invalid insert rejects the whole batch before anything is written. The model takes the unordered behaviour of later versions, which leaves the invalid inserts out.
- BseCompanySync.BseSync and NseCompanySync.NseSync: a bulk write that fails without `writeErrors` (a lost connection, say) is not modelled. The code then adds 0 to the error count while an unknown part of the operations may have been applied; the model always attempts every operation in order and counts each refused one.
- Timestamps: `createdAt`, `updatedAt`, the `updatedAt` of each `$set`, and the log lines (`console.*`).
- `null` versus `undefined`: both are `None`, so `String(null)` ("null") is rendered like `String(undefined)`. `nse_id` and `reasoning` in the analysis are passed through as given.
- CompanyModel.CompanyStore.Find: the field projection of the snapshot reads is not modelled. Each read returns whole documents, and the syncs use only the projected fields.
- The `|| []` default for a missing `listed_exchanges` (bseCompanySyncService.js lines 78 and nseCompanySyncService.js line 122). Every modelled document has a list.
- The inner `catch` of both loops.
  - The only input that reaches it in the BSE loop is a `null` element. There the handler throws again, so the run is `Aborted`.
  - No modelled NSE record throws.
- `toUpperCase` beyond ASCII: `UpperAscii` maps only 'a'-'z'. JavaScript's Unicode case mapping (e.g. 'ß' to "SS") is not modelled.
- `trim()`: whitespace is only the characters `IsJsWhitespace` lists.
- Characters outside the Basic Multilingual Plane: a string is a `seq<char>` of code points, not UTF-16 units. Only `ReplaceNonAlnum` counts such a character as the two units the regular expression sees.
- `chat.id.toString()`: `IntToString` is exact for integers. JavaScript's exponent form for very large numbers and non-integer ids are not modelled.
- Polling.MergedDraft: the spread `...analysisResult` is modelled as supplying only summary, sentiment, classification and reasoning. Extra AI keys that would override the announcement's fields are not modelled.
- Polling.CheckAndProcess: failures of the feed fetch, of `findOne` and of the extractor or analyzer (other than returning nothing) are not modelled. Only a failed `save()` is an absorbed error.
- AnalysisModel.AnalysisStore.FindOne: a missing `attchmnt_dtl` is modelled as matching no record.
- Telegram.TelegramBot.SendTelegramMessage:
  - the extra `options` argument and the effect of `parse_mode` are not modelled;
  - the request is recorded as attempted, with no delivery result;
  - the 403 diagnostic is logging only.
- Telegram.Handle: a message without `chat` or `from` (which would throw) is not modelled. `from` is always present.
- The cron schedule (`startPolling`), `main.js`, `server.js`, `config.js` and the read routes, webhook route and front end. They are wiring, I/O or presentation. The webhook route's call of `handleTelegramUpdate` is the modelled handler.
- `scripts/importBSEData.js`: a one-off import, outside the core.
- `companyService.js`, `nseService.js` and `aiService.js`: not part of this model beyond the oracles above.
- Concurrency: overlapping cron runs and concurrent webhook calls. Each run is modelled as atomic.
