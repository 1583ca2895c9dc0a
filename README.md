# finance-tracker in Dafny

A model of the sequential core of finance-tracker, a pair of Python scripts.
They pull bank transactions from Plaid, classify them for a remodelling
business and append the new ones to a Google spreadsheet. The model covers
three parts:

- **The account registry** (`BankAccountManager`, bank_accounts.py). It is an
  insertion-ordered dictionary from account id to an account record. The
  model has the operations add, remove, update-last-sync, the lookups and
  legacy-token migration. It also has the worksheet-title generator: strip
  disallowed characters, collapse and trim whitespace, truncate to 100
  characters, then add the smallest free numeric suffix.
  (`bank_accounts.dfy`, `sheet_names.dfy`)
- **The transaction classifier** (`categorize_transaction` in sync.py, and its
  copy `categorize` in finance_tracker_sheets.py). It is a first-match-wins
  chain of case-insensitive substring tests. The model gives both the
  if-chain and an ordered rule table, and proves they agree.
  (`classifier.dfy`, `strings.dfy`)
- **The per-worksheet dedup merge.** This reads the id frontier from column A,
  filters the fetched transactions against it, builds six-column rows and
  appends a non-empty batch. Around it sit the two drivers:
  - the per-account loop of sync.py `main`, which touches the registry
    through `update_last_sync` (`sync.dfy`);
  - the single-worksheet `main` of finance_tracker_sheets.py, with its
    header check (`tracker.dfy`).

  The shared merge is in `ledger.dfy`.

The registry is a class. Its fields are the key order (`ids`) and the
dictionary (`accounts`). Each mutator is tied to a function on a `Snapshot`
value (`Register`, `Unregister`, `Touch`), and the properties are proved
about those functions. The spreadsheet is a value:
- a `Book` is a map from worksheet title to its rows;
- a worksheet is a sequence of rows of `Cell`s.

Plaid's answers, whether an append succeeds, and clock readings are
parameters. The other Sheets failures are left out (see below).

`sample_names.dfy` holds facts about the sample transaction names used in the
worked classifier examples.

## Model

| member | source | states |
|---|---|---|
| SheetNames.BaseName | bank_accounts.py:97 | the base name is the account name when one is given and non-empty, otherwise the institution name; there is none exactly when both are missing |
| SheetNames.StripDisallowed | bank_accounts.py:101 | a character is in the result exactly when it is in the input and matches `[\w\s-]`; never longer than the input |
| SheetNames.StripDisallowedAppend | bank_accounts.py:101 | stripping works character by character: it distributes over concatenation, so the allowed characters keep their order |
| SheetNames.StripDisallowedKeepsWords | bank_accounts.py:101 | the non-space characters left are exactly the word characters and hyphens of the input, in order |
| SheetNames.Collapse | bank_accounts.py:102 | no two adjacent spaces remain; every other character kept is a non-space of the input; the result starts with a space exactly when the input starts with whitespace |
| SheetNames.CollapseLast | bank_accounts.py:102 | the collapsed string ends with a space exactly when the input ends with whitespace |
| SheetNames.CollapseKeepsNonSpace | bank_accounts.py:102 | collapsing keeps every non-space character, in order, and adds none |
| SheetNames.CollapseKeepsWords | bank_accounts.py:102 | collapsing whitespace runs does not change the whitespace-separated words |
| SheetNames.TrimStart | bank_accounts.py:102 | the result is a suffix of the input that does not start with whitespace |
| SheetNames.TrimStartDropsSpace | bank_accounts.py:102 | the characters dropped in front are all whitespace, so the non-space characters are kept |
| SheetNames.TrimEnd | bank_accounts.py:102 | the result is a prefix of the input that does not end with whitespace |
| SheetNames.TrimEndDropsSpace | bank_accounts.py:102 | the characters dropped at the end are all whitespace, so the non-space characters are kept |
| SheetNames.Normalize | bank_accounts.py:101-102 | the cleaned name has only word characters, spaces and hyphens, no double space, and no leading or trailing space |
| SheetNames.NormalizeIsJoinOfWords | bank_accounts.py:101-102 | the cleaned name is the words of the stripped name, in order, joined by single spaces (`" ".join(stripped.split())`) |
| SheetNames.NormalizeKeepsContent | bank_accounts.py:101-102 | cleaning keeps every word character and hyphen of the base name, in order, and adds none |
| SheetNames.Truncate | bank_accounts.py:105-106 | a name of at most 100 characters is unchanged; a longer one becomes its first 97 characters plus "...", exactly 100 long |
| Strings.NatToString | bank_accounts.py:63 | the decimal rendering of a number is a non-empty string of digits, one digit long exactly for numbers below 10, and starts with '0' only for 0 itself, so it is the canonical form `str(n)` gives |
| Strings.NatToStringReadsBack | bank_accounts.py:63 | reading the rendered digits back as a decimal gives the number |
| SheetNames.ProbeInjective | bank_accounts.py:114 | different counters give different candidate names |
| SheetNames.ProbesBound | bank_accounts.py:113-115 | at most as many candidates as there are existing names can be taken, so the `while` loop ends |
| SheetNames.LeastFree | bank_accounts.py:109-116 | the counter returned is the least one whose candidate is not taken |
| SheetNames.UniqueName | bank_accounts.py:109-117 | the generated name is not any existing account's sheet name; a free cleaned name is returned unchanged |
| SheetNames.UniqueNameIsLeastSuffix | bank_accounts.py:110-115 | on a collision the name is `cleaned + " " + k`, where k ≥ 1 is the smallest counter whose candidate is free |
| BankAccounts.InsertKeepsDistinct | bank_accounts.py:80 | storing a record whose sheet name is new keeps sheet names pairwise distinct, also when it replaces a record |
| BankAccounts.StoreKeepsWellFormed | bank_accounts.py:80 | a dictionary store keeps the key order free of duplicates and equal to the key set |
| BankAccounts.DisplayName | bank_accounts.py:63 | a given non-empty account name is kept; otherwise the name is exactly "Bank Account " followed by `str(count + 1)`, whose digits read back as the number of accounts plus one |
| BankAccounts.NewRecord | bank_accounts.py:61-78 | the new record's sheet name is set and differs from every existing one; a free, already-clean base name is used as it is; a given non-empty account name is kept, otherwise it is "Bank Account " plus the account count plus one; the token, institution name and linked sub-accounts are those given; `last_sync` is None and `created_at` is the clock reading |
| BankAccounts.Register | bank_accounts.py:54-80 | the registry stays well formed; exactly the new id is added; every other record is unchanged; a new id goes last in key order; the id holds the new record |
| BankAccounts.RegisterKeepsSheetNamesDistinct | bank_accounts.py:58-80 | if the sheet names were pairwise distinct before `add_account`, they still are |
| BankAccounts.Without | bank_accounts.py:123 | deleting a key leaves exactly the other keys, keeps them duplicate-free, and changes nothing when the key is absent |
| BankAccounts.WithoutSplice | bank_accounts.py:123 | deleting the key at position k splices it out: the keys before it, then the keys after it, in order |
| BankAccounts.Unregister | bank_accounts.py:119-129 | only the given key is removed, spliced out of the key order with the others kept in order; the other records are kept; distinct sheet names stay distinct; an unknown id changes nothing |
| BankAccounts.Touch | bank_accounts.py:163-167 | only the `last_sync` of the given account changes, to the clock reading; an unknown id changes nothing |
| BankAccounts.TokenTriples | bank_accounts.py:156-161 | one (id, token, name) triple per account, in key order |
| BankAccounts.BankAccountManager.constructor | bank_accounts.py:18-21 | the manager holds the loaded records in file order |
| BankAccounts.BankAccountManager.GenerateSheetName | bank_accounts.py:94-117 | the `while` loop returns the unique name of the cleaned base name; there is no name only when both the account name and the institution are missing |
| BankAccounts.BankAccountManager.AddAccount | bank_accounts.py:42-92 | succeeds exactly when the provider answered and a base name exists; the new state is `Register` of the old one on success and the old state otherwise |
| BankAccounts.BankAccountManager.RemoveAccount | bank_accounts.py:119-129 | returns whether the id was present; the new state is `Unregister` of the old one; the id has no token afterwards |
| BankAccounts.BankAccountManager.UpdateLastSync | bank_accounts.py:163-167 | the new state is `Touch` of the old one |
| BankAccounts.BankAccountManager.AccessToken | bank_accounts.py:150-154 | the token of a known id, and None for an unknown id |
| BankAccounts.BankAccountManager.AllAccessTokens | bank_accounts.py:156-161 | one (id, token, name) triple per account, in insertion order |
| BankAccounts.Records | bank_accounts.py:147 | one record per key, the i-th being the record of the i-th key |
| BankAccounts.NoKeysIffEmpty | bank_accounts.py:132-134 | in a well-formed registry the key order is empty exactly when there is no record |
| BankAccounts.BankAccountManager.ListAccounts | bank_accounts.py:130-147 | every record, in key order; `[]` exactly when the registry is empty |
| BankAccounts.BankAccountManager.AccountInfo | bank_accounts.py:169-171 | the record of a known id, and None for an unknown id |
| BankAccounts.BankAccountManager.MigrateLegacyToken | bank_accounts.py:173-200 | returns True exactly when the file holds a token, the account was added and the rename succeeded; the account is added whenever the file holds a token and the provider answers; a missing or tokenless file changes nothing |
| BankAccounts.BankAccountManager.MigrateTwice | bank_accounts.py:173-200 | after a successful migration an immediate second call returns False |
| Strings.Lower | sync.py:102 | `.lower()` keeps the length, leaves no upper-case ASCII letter, turns each upper-case letter into its lower-case partner and keeps every other character |
| Classifier.AnyInIff | sync.py:145-150 | `any(vendor in name ...)` holds exactly when some vendor occurs in the name |
| Classifier.SubcontractorRules | sync.py:137-140 | the subcontractor table becomes one rule per entry, in table order, each matching the entry's keyword and giving its service with project "Bellevue" |
| Classifier.FirstSubcontractor | sync.py:137-140 | the index found is the first table entry, in insertion order, whose keyword occurs in the name; no hit means no keyword occurs |
| Classifier.FirstMatchSubcontractors | sync.py:137-140 | the per-keyword rules in table order give the service of the first hit, and otherwise fall through to the later rules |
| Classifier.ClassifyIsFirstMatch | sync.py:127-156 | the if-chain and first-match evaluation of the ordered rule table agree on every name |
| Classifier.ProjectIsClosed | sync.py:127-156 | the project is always "NEEDS REVIEW", "Bellevue", "Admin" or "Unknown" |
| Classifier.CategoryIsClosed | sync.py:127-156 | the category is a fixed rule label or the service of a table entry |
| Classifier.ZelleBeforeVendors | sync.py:127-130 | a name with "zelle" and no bill-pay marker is a Zelle payment, whatever else it names |
| Classifier.CheckBeforeTable | sync.py:127-132 | "check #" without earlier markers is a subcontractor payout, even if the name holds a table keyword or vendor |
| Classifier.SubcontractorServiceWins | sync.py:127-140 | with no payment marker, the category is the service of the first keyword in table order and the project is "Bellevue" |
| Classifier.EmptyNameIsUncategorized | sync.py:102-156 | a missing or empty name gives ("Uncategorized", "Unknown") |
| Classifier.CaseInsensitive | sync.py:102 | a name and its lower-cased form are classified alike |
| Ledger.Padded | sync.py:311 | a number is written with at least `width` characters, and with exactly `width` when it is below 10^width |
| Ledger.PaddedReadsBack | sync.py:311 | the zero-padded field is all digits and reads back as the number |
| Ledger.IsoFormatReadsBack | sync.py:311 | `date.isoformat()` of a valid date is 10 characters with dashes at positions 4 and 7, and its three digit fields read back as the year, month and day |
| Ledger.ExistingIdsSkipsFirstRow | sync.py:167-169 | the ids read from column A are exactly the filled first cells of every row after the first; neither a blank cell nor one written as an empty string is ever an id, since both read back as an empty row that `if row` drops |
| Ledger.FirstCellsAppend | sync.py:167-169 | the ids of two row blocks read together are the union of the ids of each |
| Ledger.ExistingIdsAfterAppend | sync.py:167-169 | below a first row, appended rows are read back: the frontier grows by exactly their first cells |
| Ledger.Unseen | sync.py:307-312 | a fetched transaction is kept exactly when its id is not in the frontier; the batch is no longer than the fetch |
| Ledger.UnseenAppend | sync.py:307-312 | the filter keeps fetch order |
| Ledger.TxnRow | sync.py:311 | each row has as many cells as the six-column header; its first cell is the transaction id and its last two are the classifier's category and project |
| Ledger.RowsAppend | sync.py:307-312 | building rows commutes with concatenating batches |
| Ledger.RowIds | sync.py:167-169 | the rows built for a batch read back, in column A, as exactly the batch's non-empty ids |
| Ledger.BuildRows | sync.py:305-312 | the loop builds the rows of the unseen transactions, in fetch order |
| Ledger.Appended | sync.py:227-248 | an empty batch leaves the worksheet unchanged; otherwise the old rows are kept and the batch follows them |
| Ledger.UnseenAfterMerge | sync.py:307-312 | filtering again against the frontier plus the appended ids gives an empty batch |
| Ledger.MergeIdempotent | sync.py:296-318 | on a worksheet with a first row, a second merge of the same fetch finds again only transactions with an empty id; when every id is non-empty it finds nothing new and leaves the worksheet unchanged |
| Ledger.EmptyIdRepeats | sync.py:167-169 | a transaction with an empty id is appended again by every merge, because its id cell reads back as empty |
| Ledger.EmptySheetRepeatsFirstRow | sync.py:167-169 | on an empty worksheet the first appended row is read as the header, so a second merge of the same transaction appends it again |
| Sync.CategorizeTransaction | sync.py:95-156 | the category is the first rule, in table order, that matches the lower-cased name |
| Sync.CategorizeIsClosed | sync.py:109-156 | the category is one of the 18 labels and the project one of the four |
| Sync.MissingNameIsUncategorized | sync.py:102-156 | a missing or empty name is uncategorized |
| Sync.ZelleExample | sync.py:129-130 | "ZELLE TRANSFER TO J SMITH" is a Zelle payment for Bellevue |
| Sync.CheckExample | sync.py:131-132 | "CHECK # 1042" is a subcontractor payout |
| Sync.PlumbingExample | sync.py:109-140 | "ALL-PRO PLUMBING INV 99" is Plumbing for Bellevue |
| Sync.EnsureSheet | sync.py:174-216 | a missing worksheet is created holding only the header; an existing one is left as it is; no other worksheet changes |
| Sync.StepAppendsOnlyNewRows | sync.py:290-328 | a turn touches only its own worksheet; it appends exactly the rows of the unseen transactions when fetch and append succeed, and nothing otherwise |
| Sync.LastSyncOnlyWithNewRows | sync.py:314-328 | `update_last_sync` is called, and the total grows by the batch size, exactly when the fetch succeeded and found unseen transactions |
| Sync.FrontierExample | sync.py:296-318 | a worksheet holding t1, whose id is non-empty, and a fetch of t1, t2 with a different id gain one row, for t2 |
| Sync.TouchAll | sync.py:328 | each account in the list carries the clock reading of its own `update_last_sync` call as last sync time, and nothing else changes |
| Sync.VisitAccount | sync.py:290-328 | one turn's spreadsheet, count and touch flag are those of `Step`; the registry is touched, with that account's clock reading, exactly when the flag is set |
| Sync.SyncAccounts | sync.py:285-334 | the loop's spreadsheet and total are those of `Run` over the accounts in registry order; exactly the accounts the run touched get a new last sync time, each its own call's clock reading |
| Sync.SyncTurn | sync.py:285-334 | one iteration carries the loop invariant one account further |
| Sync.SyncMain | sync.py:250-334 | `main` reads the union of all frontiers, then syncs the accounts with sync.py's tables |
| Sync.GetAllExistingTransactionIds | sync.py:218-225 | the result is the union of every account's worksheet frontier |
| Sync.StepGrows | sync.py:290-328 | a turn only creates worksheets and appends rows |
| Sync.RunGrows | sync.py:285-334 | a run only creates worksheets and appends rows |
| Sync.FrontierGrows | sync.py:167-169 | a worksheet that extends another reads back at least its ids |
| Sync.UnseenShrinks | sync.py:307-312 | a larger frontier never brings back a transaction the smaller one dropped |
| Sync.SettledGrows | sync.py:296-318 | a visit with nothing left to do stays so while worksheets only grow |
| Sync.StepSettles | sync.py:293-318 | after its turn, a visit's worksheet exists with a first row and, when every fetched id is non-empty, holds every id its successful fetch and append brought |
| Sync.SettledStepKeeps | sync.py:314 | a turn with nothing new does not touch the spreadsheet; when its append would succeed it adds nothing to the total and does not call `update_last_sync` |
| Sync.RunSettles | sync.py:285-334 | after a run from worksheets that each have a first row, with non-empty fetched ids, every visit has nothing left to do |
| Sync.SettledRunKeeps | sync.py:285-334 | a run over visits with nothing left to do leaves the spreadsheet unchanged; when every append would succeed its total is 0 and it touches no account |
| Sync.RunIdempotent | sync.py:285-334 | a second run with the same answers appends no row, when every worksheet has a first row and every fetched id is non-empty; when every append succeeds it also counts no new transaction and calls `update_last_sync` for no account |
| Sync.FailedStepIsNoop | sync.py:298-334 | a failed fetch for an existing worksheet changes nothing, adds nothing and touches no account |
| Sync.FailedFetchIsSkipped | sync.py:298-334 | for an account whose worksheet already exists, a run with a failed fetch for it gives the same spreadsheet, total and touched accounts as the run without it |
| Tracker.Categorize | finance_tracker_sheets.py:126-168 | the category is the first rule, in table order, that matches the lower-cased name |
| Tracker.SameTables | finance_tracker_sheets.py:131-161 | the script's tables equal those of sync.py entry for entry, in the same order |
| Tracker.CopiesAgree | finance_tracker_sheets.py:126-168 | `categorize` and sync.py's `categorize_transaction` agree on every transaction |
| Tracker.ZelleOverMaterials | finance_tracker_sheets.py:149-161 | a name with "zelle" and "home depot" matches the Materials rule, yet is classified as a Zelle payment |
| Tracker.WithHeaders | finance_tracker_sheets.py:196-211 | afterwards the first row starts with the header; a worksheet that already had it is unchanged; a rewrite changes only A1:F1 |
| Tracker.HeaderWrittenAtMostOnce | finance_tracker_sheets.py:196-211 | the second setup finds the header and writes nothing |
| Tracker.SetupKeepsFrontier | finance_tracker_sheets.py:179-181 | the setup never changes the ids the frontier reads |
| Tracker.SyncAllTransactions | finance_tracker_sheets.py:272-303 | `main` from the header setup on computes `Pass` with the script's own tables |
| Tracker.PassAppendsOnlyNewRows | finance_tracker_sheets.py:292-303 | a run appends exactly the rows of the fetched transactions not already present, in fetch order, and reports their number |
| Tracker.PassIdempotent | finance_tracker_sheets.py:272-303 | a second run with the same fetch, whose ids are non-empty, leaves the worksheet unchanged from any start; when the append succeeds it reports no new transaction |

## Left out

- Plaid calls (`accounts_get`, `item_get`, `transactions_get`): their answers are parameters. A raised exception is `None`.
- The 60-day fetch window is left out, because it only shapes the Plaid request.
- Google Sheets calls are left out; the spreadsheet is an in-memory `Book`. The one failure the model keeps is a failed append, as a flag.
- A failed read of an existing worksheet, which the source turns into an empty frontier, is left out.
- `create_sheet_if_not_exists` failures are left out, because the model assumes creation succeeds.
- Authentication (`get_google_sheets_service`, `authenticate_google_sheets`, `get_sheets_service`) is left out, because it is remote I/O.
- `list_sheet_names` is left out, because its result is only printed.
- JSON persistence (`_load_accounts`, `_save_accounts`, `load_access_token`, `update_token_usage`) is left out. The registry is its in-memory map, and the constructor takes the loaded records.
- `load_bank_accounts` (sync.py:47-60) is left out, because it only chains the constructor and `MigrateLegacyToken`.
- The printing done by `list_accounts` is left out; its return value is modelled by BankAccounts.BankAccountManager.ListAccounts.
- Clock readings (the id stamp, `created_at`, the `last_sync` value) are parameters. Each `update_last_sync` call reads the clock on its own, so each account's reading is part of that account's `Outcome`.
- The generated account id is not checked for uniqueness; the source does not check it either.
- `amount` is opaque (a float in the source); nothing computes on it.
- `\w`, `\s` and `.lower()` are ASCII approximations.
- `re.sub(r'\s+', ...)` is modelled without Unicode whitespace beyond ASCII.
- The tracker's tab All_Transactions is assumed to exist. When it is missing every request fails, and that case is left out.
- Console output is left out.
- The interactive and setup scripts (manage_accounts.py, setup.py, setup_google_sheets.py, run_sync.py, get_token.py) are left out.
- Sync.RunIdempotent: requires every existing worksheet to have a first row. On an empty worksheet the first appended row is read as the header; Ledger.EmptySheetRepeatsFirstRow shows a second merge then appends it again. It also requires every fetched transaction id to be non-empty, for the reason given under Ledger.MergeIdempotent.
- Ledger.MergeIdempotent: promises an unchanged worksheet only when every transaction id is non-empty. An empty id is written as an empty cell, which the frontier never reads, so the source appends that transaction again on every run (Ledger.EmptyIdRepeats).
- Sync.StepSettles: requires every fetched transaction id to be non-empty, for the same reason.
- Sync.RunSettles: requires every fetched transaction id to be non-empty, for the same reason.
- Tracker.PassIdempotent: requires every fetched transaction id to be non-empty, for the same reason.
- A `last_sync` update after a pass with no new rows is not modelled, because sync.py:314-328 calls `update_last_sync` only for a non-empty batch. A failed append still advances `last_sync`, because that failure is caught.
- Atomic replacement of the registry file is not modelled: `_save_accounts` rewrites the file in place with mode 'w'.
- Undoing a migration is not modelled: `migrate_legacy_token` keeps the added account when the rename fails, and returns False.
