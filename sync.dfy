/** sync.py: the multi-account sync. Each registered account has its own
    worksheet; one run visits the accounts in registry order, creates a
    missing worksheet with the header row, reads its id frontier, fetches the
    account's transactions, appends the unseen ones and advances the
    account's last sync time when there were any. */
module Sync {
  import opened Wrappers
  import opened Strings
  import opened Classifier
  import opened Ledger
  import opened BankAccounts
  import opened SampleNames

  /** SUBCONTRACTOR_DATABASE of sync.py, in insertion order. */
  const SubcontractorDatabase: seq<Subcontractor> := [
    Subcontractor("all-pro plumbing", "Plumbing"),
    Subcontractor("j&l electric", "Electrical"),
    Subcontractor("sal's drywall", "Drywall & Paint"),
    Subcontractor("creative landscape", "Landscaping"),
    Subcontractor("best quality roofing", "Roofing"),
    Subcontractor("a-1 painting", "Drywall & Paint"),
    Subcontractor("precision framing", "Framing"),
    Subcontractor("elite concrete", "Concrete & Foundation"),
    Subcontractor("custom cabinetry", "Cabinets & Millwork"),
    Subcontractor("total home insulation", "Insulation"),
    Subcontractor("flores tile & stone", "Flooring & Tile"),
    Subcontractor("window world", "Windows & Doors")
  ]

  /** The tables of `categorize_transaction`. */
  const SyncConfig := Config(
    SubcontractorDatabase,
    ["home depot", "lowe's", "sherwin-williams"],
    ["sunbelt", "united rentals"],
    ["chevron", "shell", "76"])

  /** Every category `categorize_transaction` can return. */
  const Categories: set<string> := {
    "QuickBooks Bill Pay", "Zelle Payment", "Subcontractor Payout",
    "Plumbing", "Electrical", "Drywall & Paint", "Landscaping", "Roofing", "Framing",
    "Concrete & Foundation", "Cabinets & Millwork", "Insulation", "Flooring & Tile", "Windows & Doors",
    "Materials", "Equipment Rental", "Fuel", "Uncategorized"}

  // ---- categorize_transaction ---------------------------------------------

  /** `categorize_transaction`: the first rule of the ordered table that
      matches the lower-cased name decides. */
  function CategorizeTransaction(t: Txn): (tags: Tags)
    ensures tags == FirstMatch(Rules(SyncConfig), MatchKey(t.name))
  {
    ClassifyIsFirstMatch(SyncConfig, MatchKey(t.name));
    TagsOf(SyncConfig, t)
  }

  /** The classifier's outputs fall in a closed set. */
  lemma CategorizeIsClosed(t: Txn)
    ensures CategorizeTransaction(t).category in Categories
    ensures CategorizeTransaction(t).project in Projects
  {
    ProjectIsClosed(SyncConfig, MatchKey(t.name));
    CategoryIsClosed(SyncConfig, MatchKey(t.name));
    ServicesAreCategories();
  }

  lemma ServicesAreCategories()
    ensures forall e :: e in SubcontractorDatabase ==> e.service in Categories
  {
  }

  /** A transaction with no name, or an empty one, is uncategorized. */
  lemma MissingNameIsUncategorized(t: Txn)
    requires t.name.None? || t.name.value == ""
    ensures CategorizeTransaction(t) == Uncategorized
  {
    KeywordsNonEmpty();
    EmptyNameIsUncategorized(SyncConfig, t.name);
  }

  /** No keyword of the tables is empty. */
  lemma KeywordsNonEmpty()
    ensures NonEmptyKeywords(SyncConfig)
  {
    forall e | e in SubcontractorDatabase
      ensures e.keyword != ""
    {
    }
  }

  /** Worked examples of the rule order. */
  lemma ZelleExample(t: Txn)
    requires t.name == Some("ZELLE TRANSFER TO J SMITH")
    ensures CategorizeTransaction(t) == Tags("Zelle Payment", "Bellevue")
  {
    LowerZelle();
    var key := MatchKey(t.name);
    ZelleSample(key);
    ZelleBeforeVendors(SyncConfig, key);
  }

  lemma CheckExample(t: Txn)
    requires t.name == Some("CHECK # 1042")
    ensures CategorizeTransaction(t) == Tags("Subcontractor Payout", "Bellevue")
  {
    LowerCheck();
    var key := MatchKey(t.name);
    CheckSample(key);
    CheckBeforeTable(SyncConfig, key);
  }

  lemma PlumbingExample(t: Txn)
    requires t.name == Some("ALL-PRO PLUMBING INV 99")
    ensures CategorizeTransaction(t) == Tags("Plumbing", "Bellevue")
  {
    LowerPlumbing();
    var key := MatchKey(t.name);
    PlumbingSample(key);
    SubcontractorServiceWins(SyncConfig, key, 0);
  }

  // ---- one account's turn --------------------------------------------------

  /** What the outside world answers for one account during a run: the fetch,
      `None` when `transactions_get` raises, whether the append request goes
      through (a failed one is caught and printed), and the clock reading
      `update_last_sync` takes if it runs for the account. */
  datatype Outcome = Outcome(fetch: Option<seq<Txn>>, appendOk: bool, syncedAt: string)

  /** The answer for an account; one the map does not mention is a fetch that
      raises. */
  function OutcomeFor(outcomes: map<string, Outcome>, id: string): Outcome {
    if id in outcomes then outcomes[id] else Outcome(None, false, "")
  }

  /** `account_data.get('sheet_name', account_name)`. */
  function SheetTitle(a: Account): string {
    if a.sheetName.Some? then a.sheetName.value else a.accountName
  }

  /** `create_sheet_if_not_exists`: a missing worksheet is added holding the
      header row; an existing one is left alone. */
  function EnsureSheet(book: Book, title: string): (r: Book)
    ensures title in r
    ensures title !in book ==> r[title] == [HeaderRow]
    ensures title in book ==> r == book
    ensures forall name :: name != title ==> (name in r <==> name in book)
    ensures forall name :: name in book ==> name in r && r[name] == book[name]
  {
    if title in book then book else book[title := [HeaderRow]]
  }

  /** The frontier the turn reads, after making sure the worksheet exists. */
  function FrontierAt(book: Book, title: string): set<Cell> {
    ExistingIds(EnsureSheet(book, title)[title])
  }

  /** The rows one turn builds for the account's fetch. */
  function NewRows(c: Config, book: Book, title: string, txns: seq<Txn>): seq<Row> {
    Rows(c, Unseen(txns, FrontierAt(book, title)))
  }

  /** The outcome of one turn: the spreadsheet after it, the count it adds to
      `total_new_transactions`, and whether it calls `update_last_sync`. */
  datatype StepResult = StepResult(book: Book, added: nat, touched: bool)

  /** One turn of the per-account loop in `main`. */
  function Step(c: Config, book: Book, title: string, outcome: Outcome): StepResult {
    var ready := EnsureSheet(book, title);
    match outcome.fetch
    case None => StepResult(ready, 0, false)
    case Some(txns) =>
      var rows := NewRows(c, book, title, txns);
      if rows == [] then StepResult(ready, 0, false)
      else
        var after := if outcome.appendOk then ready[title := Appended(ready[title], rows)] else ready;
        StepResult(after, |rows|, true)
  }

  /** A turn touches only its own worksheet, and there it only adds rows at
      the end: exactly the rows of the unseen transactions when the fetch and
      the append succeed, none otherwise. */
  lemma StepAppendsOnlyNewRows(c: Config, book: Book, title: string, outcome: Outcome)
    ensures var r := Step(c, book, title, outcome);
      forall name :: name != title ==> (name in r.book <==> name in book) && (name in book ==> r.book[name] == book[name])
    ensures var r := Step(c, book, title, outcome);
      var ready := EnsureSheet(book, title)[title];
      title in r.book &&
      r.book[title] == ready + (if outcome.fetch.Some? && outcome.appendOk then NewRows(c, book, title, outcome.fetch.value) else [])
  {
    var ready := EnsureSheet(book, title)[title];
    assert ready + [] == ready;
  }

  /** `update_last_sync` is called, and the count grows, exactly when the
      fetch succeeded and found transactions missing from the worksheet. */
  lemma LastSyncOnlyWithNewRows(c: Config, book: Book, title: string, outcome: Outcome)
    ensures Step(c, book, title, outcome).touched <==>
      outcome.fetch.Some? && Unseen(outcome.fetch.value, FrontierAt(book, title)) != []
    ensures Step(c, book, title, outcome).added ==
      if outcome.fetch.Some? then |Unseen(outcome.fetch.value, FrontierAt(book, title))| else 0
  {
  }

  /** A worksheet holding `t1` and a fetch of `t1` then `t2` gain one row,
      for `t2`. */
  lemma FrontierExample(c: Config, title: string, t1: Txn, t2: Txn)
    requires t1.id != "" && t1.id != t2.id
    ensures var book := map[title := [HeaderRow, TxnRow(c, t1)]];
      var r := Step(c, book, title, Outcome(Some([t1, t2]), true, ""));
      r.book[title] == [HeaderRow, TxnRow(c, t1), TxnRow(c, t2)] && r.added == 1 && r.touched
  {
    var book := map[title := [HeaderRow, TxnRow(c, t1)]];
    OneRowFrontier(c, t1);
    assert FrontierAt(book, title) == {Text(t1.id)};
    UnseenPair(t1, t2);
    assert NewRows(c, book, title, [t1, t2]) == [TxnRow(c, t2)] by {
      RowsOne(c, t2);
    }
  }

  lemma OneRowFrontier(c: Config, t: Txn)
    requires t.id != ""
    ensures ExistingIds([HeaderRow, TxnRow(c, t)]) == {Text(t.id)}
  {
    var sheet := [HeaderRow, TxnRow(c, t)];
    assert sheet[1..] == Rows(c, [t]);
    RowIds(c, [t]);
    assert (set u | u in [t] :: Text(u.id)) == {Text(t.id)};
  }

  lemma UnseenPair(t1: Txn, t2: Txn)
    requires t1.id != t2.id
    ensures Unseen([t1, t2], {Text(t1.id)}) == [t2]
  {
    UnseenAppend([t1], [t2], {Text(t1.id)});
    UnseenOne(t1, {Text(t1.id)});
    UnseenOne(t2, {Text(t1.id)});
    assert [t1] + [t2] == [t1, t2];
  }

  // ---- the loop over accounts ---------------------------------------------

  /** One account's turn: its id and the worksheet it writes to. */
  datatype Visit = Visit(accountId: string, title: string)

  /** The turns of a run, in registry order. */
  function Visits(s: Snapshot): (visits: seq<Visit>)
    requires WellFormed(s)
    ensures |visits| == |s.ids|
    ensures forall i :: 0 <= i < |s.ids| ==> visits[i] == Visit(s.ids[i], SheetTitle(s.accounts[s.ids[i]]))
  {
    seq(|s.ids|, i requires 0 <= i < |s.ids| => Visit(s.ids[i], SheetTitle(s.accounts[s.ids[i]])))
  }

  /** The outcome of a run: the spreadsheet after it, `total_new_transactions`,
      and the accounts whose last sync time it advanced, in order. */
  datatype RunResult = RunResult(book: Book, total: nat, touched: seq<string>)

  /** The turns taken one after another. */
  function Run(c: Config, book: Book, visits: seq<Visit>, outcomes: map<string, Outcome>): RunResult
    decreases |visits|
  {
    if visits == [] then RunResult(book, 0, [])
    else
      var before := Run(c, book, visits[..|visits| - 1], outcomes);
      var v := visits[|visits| - 1];
      var step := Step(c, before.book, v.title, OutcomeFor(outcomes, v.accountId));
      RunResult(step.book, before.total + step.added, before.touched + (if step.touched then [v.accountId] else []))
  }

  /** The registry after `update_last_sync` for each id in turn: each listed
      account carries the clock reading of its own call as last sync time,
      and nothing else changes. */
  function TouchAll(s: Snapshot, ids: seq<string>, outcomes: map<string, Outcome>): (r: Snapshot)
    requires WellFormed(s)
    ensures WellFormed(r)
    ensures r.ids == s.ids && r.accounts.Keys == s.accounts.Keys
    ensures forall id :: id in s.accounts ==>
      r.accounts[id] == s.accounts[id].(lastSync :=
        if id in ids then Some(OutcomeFor(outcomes, id).syncedAt) else s.accounts[id].lastSync)
    decreases |ids|
  {
    if ids == [] then s
    else
      var init, last := ids[..|ids| - 1], ids[|ids| - 1];
      assert ids == init + [last];
      Touch(TouchAll(s, init, outcomes), last, OutcomeFor(outcomes, last).syncedAt)
  }

  /** One account's turn as `main` performs it: create the worksheet if
      missing, read its frontier, then on a successful fetch build the rows,
      append them and advance the account's last sync time. */
  method VisitAccount(c: Config, reg: BankAccountManager, book: Book, id: string, title: string, outcome: Outcome)
    returns (r: StepResult)
    requires reg.Valid()
    modifies reg
    ensures reg.Valid()
    ensures r == Step(c, book, title, outcome)
    ensures reg.Current() ==
      if r.touched then Touch(old(reg.Current()), id, outcome.syncedAt) else old(reg.Current())
  {
    var after := EnsureSheet(book, title);
    var existing := ExistingIds(after[title]);
    assert existing == FrontierAt(book, title);
    r := StepResult(after, 0, false);
    if outcome.fetch.Some? {
      var rows := BuildRows(c, outcome.fetch.value, existing);
      if rows != [] {
        if outcome.appendOk {
          after := after[title := Appended(after[title], rows)];
        }
        reg.UpdateLastSync(id, outcome.syncedAt);
        r := StepResult(after, |rows|, true);
      }
    }
  }

  /** A run one turn longer is the shorter run followed by that turn. */
  lemma RunExtends(c: Config, book: Book, visits: seq<Visit>, i: nat, outcomes: map<string, Outcome>,
                   before: RunResult, step: StepResult)
    requires i < |visits|
    requires before == Run(c, book, visits[..i], outcomes)
    requires step == Step(c, before.book, visits[i].title, OutcomeFor(outcomes, visits[i].accountId))
    ensures Run(c, book, visits[..i + 1], outcomes) ==
      RunResult(step.book, before.total + step.added,
                before.touched + (if step.touched then [visits[i].accountId] else []))
  {
    assert visits[..i + 1][..i] == visits[..i];
  }

  /** Advancing one more account's last sync time extends the list of
      advanced accounts. */
  lemma TouchAllExtends(s: Snapshot, ids: seq<string>, id: string, outcomes: map<string, Outcome>, touched: bool)
    requires WellFormed(s)
    ensures (if touched then Touch(TouchAll(s, ids, outcomes), id, OutcomeFor(outcomes, id).syncedAt)
             else TouchAll(s, ids, outcomes)) ==
      TouchAll(s, ids + (if touched then [id] else []), outcomes)
  {
    if touched {
      var ext := ids + [id];
      assert ext[..|ext| - 1] == ids && ext[|ext| - 1] == id;
    } else {
      assert ids + [] == ids;
    }
  }

  /** The loop invariant of `SyncAccounts` carried over one turn. */
  lemma TurnExtends(c: Config, s0: Snapshot, book: Book, i: nat, outcomes: map<string, Outcome>,
                    before: RunResult, step: StepResult, next: Snapshot, touched: seq<string>)
    requires WellFormed(s0) && i < |s0.ids|
    requires before == Run(c, book, Visits(s0)[..i], outcomes)
    requires step == Step(c, before.book, Visits(s0)[i].title, OutcomeFor(outcomes, s0.ids[i]))
    requires next == if step.touched
                     then Touch(TouchAll(s0, before.touched, outcomes), s0.ids[i], OutcomeFor(outcomes, s0.ids[i]).syncedAt)
                     else TouchAll(s0, before.touched, outcomes)
    requires touched == before.touched + (if step.touched then [s0.ids[i]] else [])
    ensures Run(c, book, Visits(s0)[..i + 1], outcomes) == RunResult(step.book, before.total + step.added, touched)
    ensures next == TouchAll(s0, touched, outcomes)
  {
    RunExtends(c, book, Visits(s0), i, outcomes, before, step);
    TouchAllExtends(s0, before.touched, s0.ids[i], outcomes, step.touched);
  }

  /** Advancing last sync times leaves every account's worksheet title alone. */
  lemma TouchAllKeepsTitles(s: Snapshot, ids: seq<string>, outcomes: map<string, Outcome>, i: nat)
    requires WellFormed(s) && i < |s.ids|
    ensures s.ids[i] in TouchAll(s, ids, outcomes).accounts
    ensures var a := TouchAll(s, ids, outcomes).accounts[s.ids[i]];
      (if a.sheetName.Some? then a.sheetName.value else s.accounts[s.ids[i]].accountName) ==
      Visits(s)[i].title
  {
  }

  /** The per-account loop of `main`. `book` is the spreadsheet, `outcomes`
      the provider's and the spreadsheet's answers and the clock readings;
      the result is the spreadsheet after the run and
      `total_new_transactions`. */
  method SyncAccounts(c: Config, reg: BankAccountManager, book: Book, outcomes: map<string, Outcome>)
    returns (after: Book, total: nat)
    requires reg.Valid()
    modifies reg
    ensures reg.Valid()
    ensures after == Run(c, book, Visits(old(reg.Current())), outcomes).book
    ensures total == Run(c, book, Visits(old(reg.Current())), outcomes).total
    ensures reg.Current() ==
      TouchAll(old(reg.Current()), Run(c, book, Visits(old(reg.Current())), outcomes).touched, outcomes)
  {
    ghost var s0 := reg.Current();
    ghost var touched: seq<string> := [];
    var triples := reg.AllAccessTokens();
    after, total := book, 0;
    for i := 0 to |triples|
      invariant reg.Valid()
      invariant reg.Current() == TouchAll(s0, touched, outcomes)
      invariant RunResult(after, total, touched) == Run(c, book, Visits(s0)[..i], outcomes)
    {
      var (id, token, name) := triples[i];
      after, total, touched := SyncTurn(c, reg, book, outcomes, s0, i, id, name, after, total, touched);
    }
    assert Visits(s0)[..|triples|] == Visits(s0);
  }

  /** One iteration of the loop in `SyncAccounts`: the turn of the `i`-th
      account, with the account record looked up again as `main` does. */
  method SyncTurn(c: Config, reg: BankAccountManager, book: Book, outcomes: map<string, Outcome>,
                  ghost s0: Snapshot, i: nat, id: string, name: string,
                  after: Book, total: nat, ghost touched: seq<string>)
    returns (after': Book, total': nat, ghost touched': seq<string>)
    requires reg.Valid() && WellFormed(s0) && i < |s0.ids|
    requires id == s0.ids[i] && name == s0.accounts[id].accountName
    requires reg.Current() == TouchAll(s0, touched, outcomes)
    requires RunResult(after, total, touched) == Run(c, book, Visits(s0)[..i], outcomes)
    modifies reg
    ensures reg.Valid() && reg.Current() == TouchAll(s0, touched', outcomes)
    ensures RunResult(after', total', touched') == Run(c, book, Visits(s0)[..i + 1], outcomes)
  {
    TouchAllKeepsTitles(s0, touched, outcomes, i);
    var info := reg.AccountInfo(id);
    var title := if info.value.sheetName.Some? then info.value.sheetName.value else name;
    ghost var before := RunResult(after, total, touched);
    var step := VisitAccount(c, reg, after, id, title, OutcomeFor(outcomes, id));
    after', total' := step.book, total + step.added;
    touched' := touched + (if step.touched then [id] else []);
    TurnExtends(c, s0, book, i, outcomes, before, step, reg.Current(), touched');
  }

  /** `main` from the registry load on: the union of the frontiers is read
      first (it is only reported), then the accounts are synced with the
      classifier tables of sync.py. */
  method SyncMain(reg: BankAccountManager, book: Book, outcomes: map<string, Outcome>)
    returns (known: set<Cell>, after: Book, total: nat)
    requires reg.Valid()
    modifies reg
    ensures reg.Valid()
    ensures forall x :: x in known <==>
      exists id :: id in old(reg.accounts) && x in Frontier(book, SheetTitle(old(reg.accounts)[id]))
    ensures after == Run(SyncConfig, book, Visits(old(reg.Current())), outcomes).book
    ensures total == Run(SyncConfig, book, Visits(old(reg.Current())), outcomes).total
    ensures reg.Current() ==
      TouchAll(old(reg.Current()), Run(SyncConfig, book, Visits(old(reg.Current())), outcomes).touched, outcomes)
  {
    known := GetAllExistingTransactionIds(reg, book);
    after, total := SyncAccounts(SyncConfig, reg, book, outcomes);
  }

  /** `get_all_existing_transaction_ids`: the union of every account's
      frontier, read from the worksheet each record names. */
  method GetAllExistingTransactionIds(reg: BankAccountManager, book: Book) returns (all: set<Cell>)
    requires reg.Valid()
    ensures forall x :: x in all <==>
      exists id :: id in reg.accounts && x in Frontier(book, SheetTitle(reg.accounts[id]))
  {
    all := {};
    var ids := reg.ids;
    for i := 0 to |ids|
      invariant forall x :: x in all <==>
        exists j :: 0 <= j < i && x in Frontier(book, SheetTitle(reg.accounts[ids[j]]))
    {
      var data := reg.accounts[ids[i]];
      all := all + Frontier(book, SheetTitle(data));
    }
    forall x | x in all
      ensures exists id :: id in reg.accounts && x in Frontier(book, SheetTitle(reg.accounts[id]))
    {
      var j :| 0 <= j < |ids| && x in Frontier(book, SheetTitle(reg.accounts[ids[j]]));
      assert ids[j] in reg.accounts;
    }
    forall x, id | id in reg.accounts && x in Frontier(book, SheetTitle(reg.accounts[id]))
      ensures x in all
    {
      var j :| 0 <= j < |ids| && ids[j] == id;
    }
  }

  // ---- properties of a run ------------------------------------------------

  /** `after` holds every worksheet of `book`, each with its old rows as a
      prefix. */
  predicate Grows(book: Book, after: Book) {
    forall name :: name in book ==>
      name in after && |book[name]| <= |after[name]| && after[name][..|book[name]|] == book[name]
  }

  lemma GrowsTransitive(a: Book, b: Book, c: Book)
    requires Grows(a, b) && Grows(b, c)
    ensures Grows(a, c)
  {
    forall name | name in a
      ensures name in c && |a[name]| <= |c[name]| && c[name][..|a[name]|] == a[name]
    {
      assert c[name][..|b[name]|][..|a[name]|] == c[name][..|a[name]|];
    }
  }

  /** A turn only creates worksheets and appends rows. */
  lemma StepGrows(c: Config, book: Book, title: string, outcome: Outcome)
    ensures Grows(book, Step(c, book, title, outcome).book)
  {
    StepAppendsOnlyNewRows(c, book, title, outcome);
    var r := Step(c, book, title, outcome);
    if title in book {
      var extra := if outcome.fetch.Some? && outcome.appendOk then NewRows(c, book, title, outcome.fetch.value) else [];
      assert r.book[title] == book[title] + extra;
      assert r.book[title][..|book[title]|] == book[title];
    }
  }

  /** A run only creates worksheets and appends rows. */
  lemma {:induction false} RunGrows(c: Config, book: Book, visits: seq<Visit>, outcomes: map<string, Outcome>)
    ensures Grows(book, Run(c, book, visits, outcomes).book)
    decreases |visits|
  {
    if visits != [] {
      var init := visits[..|visits| - 1];
      var v := visits[|visits| - 1];
      RunGrows(c, book, init, outcomes);
      var before := Run(c, book, init, outcomes).book;
      StepGrows(c, before, v.title, OutcomeFor(outcomes, v.accountId));
      GrowsTransitive(book, before, Run(c, book, visits, outcomes).book);
    }
  }

  /** A longer worksheet reads back at least the ids of a shorter one it
      extends. */
  lemma FrontierGrows(sheet: Sheet, longer: Sheet)
    requires |sheet| <= |longer| && longer[..|sheet|] == sheet
    ensures ExistingIds(sheet) <= ExistingIds(longer)
  {
    if sheet != [] {
      assert longer == sheet + longer[|sheet|..];
      ExistingIdsAfterAppend(sheet, longer[|sheet|..]);
    }
  }

  /** Filtering against more ids keeps nothing that the smaller frontier
      dropped. */
  lemma UnseenShrinks(txns: seq<Txn>, existing: set<Cell>, more: set<Cell>)
    requires existing <= more && Unseen(txns, existing) == []
    ensures Unseen(txns, more) == []
  {
    NoMemberIsEmpty(Unseen(txns, more));
  }

  /** The visit's worksheet exists and, when its fetch and append succeed,
      already holds every fetched id: the turn has nothing left to do. */
  predicate Settled(book: Book, v: Visit, outcomes: map<string, Outcome>) {
    var o := OutcomeFor(outcomes, v.accountId);
    v.title in book &&
    (o.fetch.Some? && o.appendOk ==> Unseen(o.fetch.value, ExistingIds(book[v.title])) == [])
  }

  /** Every worksheet has at least its first row. */
  predicate Ready(book: Book) {
    forall name :: name in book ==> book[name] != []
  }

  /** Every transaction a successful fetch returns has a non-empty id. */
  predicate FetchesHaveIds(outcomes: map<string, Outcome>) {
    forall id :: id in outcomes && outcomes[id].fetch.Some? ==> IdsPresent(outcomes[id].fetch.value)
  }

  lemma SettledGrows(book: Book, after: Book, v: Visit, outcomes: map<string, Outcome>)
    requires Settled(book, v, outcomes) && Grows(book, after)
    ensures Settled(after, v, outcomes)
  {
    var o := OutcomeFor(outcomes, v.accountId);
    if o.fetch.Some? && o.appendOk {
      FrontierGrows(book[v.title], after[v.title]);
      UnseenShrinks(o.fetch.value, ExistingIds(book[v.title]), ExistingIds(after[v.title]));
    }
  }

  /** After its turn a visit is settled, provided its worksheet, if present,
      has a first row and every fetched id is non-empty (an empty id reads
      back as an empty cell; see `Ledger.EmptyIdRepeats`). */
  lemma StepSettles(c: Config, book: Book, v: Visit, outcomes: map<string, Outcome>)
    requires v.title in book ==> book[v.title] != []
    requires FetchesHaveIds(outcomes)
    ensures Settled(Step(c, book, v.title, OutcomeFor(outcomes, v.accountId)).book, v, outcomes)
    ensures Step(c, book, v.title, OutcomeFor(outcomes, v.accountId)).book[v.title] != []
  {
    var o := OutcomeFor(outcomes, v.accountId);
    StepAppendsOnlyNewRows(c, book, v.title, o);
    var ready := EnsureSheet(book, v.title)[v.title];
    if o.fetch.Some? && o.appendOk {
      assert IdsPresent(o.fetch.value);
      var rows := Rows(c, Unseen(o.fetch.value, ExistingIds(ready)));
      assert ready + rows == Merge(c, ready, o.fetch.value);
      MergeIdempotent(c, ready, o.fetch.value);
    }
  }

  /** A settled visit's turn leaves the spreadsheet as it is; when its
      append would succeed, it also adds nothing to the total and does not
      call `update_last_sync`. */
  lemma SettledStepKeeps(c: Config, book: Book, v: Visit, outcomes: map<string, Outcome>)
    requires Settled(book, v, outcomes)
    ensures Step(c, book, v.title, OutcomeFor(outcomes, v.accountId)).book == book
    ensures OutcomeFor(outcomes, v.accountId).appendOk ==>
      var r := Step(c, book, v.title, OutcomeFor(outcomes, v.accountId));
      r.added == 0 && !r.touched
  {
  }

  lemma ReadyAfterStep(c: Config, book: Book, v: Visit, outcomes: map<string, Outcome>)
    requires Ready(book)
    ensures Ready(Step(c, book, v.title, OutcomeFor(outcomes, v.accountId)).book)
  {
    StepAppendsOnlyNewRows(c, book, v.title, OutcomeFor(outcomes, v.accountId));
  }

  /** After a run from a spreadsheet whose worksheets all have a first row,
      every visit is settled and every worksheet still has its first row. */
  lemma {:induction false} RunSettles(c: Config, book: Book, visits: seq<Visit>, outcomes: map<string, Outcome>)
    requires Ready(book) && FetchesHaveIds(outcomes)
    ensures Ready(Run(c, book, visits, outcomes).book)
    ensures forall v :: v in visits ==> Settled(Run(c, book, visits, outcomes).book, v, outcomes)
    decreases |visits|
  {
    if visits != [] {
      var init := visits[..|visits| - 1];
      var last := visits[|visits| - 1];
      RunSettles(c, book, init, outcomes);
      var before := Run(c, book, init, outcomes).book;
      var after := Run(c, book, visits, outcomes).book;
      ReadyAfterStep(c, before, last, outcomes);
      StepSettles(c, before, last, outcomes);
      StepGrows(c, before, last.title, OutcomeFor(outcomes, last.accountId));
      forall v | v in visits
        ensures Settled(after, v, outcomes)
      {
        if v != last {
          assert v in init;
          SettledGrows(before, after, v, outcomes);
        }
      }
    }
  }

  /** A run over settled visits changes nothing; when every append would
      succeed it also counts no transaction and touches no account. */
  lemma {:induction false} SettledRunKeeps(c: Config, book: Book, visits: seq<Visit>, outcomes: map<string, Outcome>)
    requires forall v :: v in visits ==> Settled(book, v, outcomes)
    ensures Run(c, book, visits, outcomes).book == book
    ensures AppendsSucceed(visits, outcomes) ==>
      Run(c, book, visits, outcomes).total == 0 && Run(c, book, visits, outcomes).touched == []
    decreases |visits|
  {
    if visits != [] {
      var init := visits[..|visits| - 1];
      var last := visits[|visits| - 1];
      assert forall v :: v in init ==> v in visits;
      SettledRunKeeps(c, book, init, outcomes);
      SettledStepKeeps(c, book, last, outcomes);
    }
  }

  /** Every visit's append request succeeds. */
  predicate AppendsSucceed(visits: seq<Visit>, outcomes: map<string, Outcome>) {
    forall v :: v in visits ==> OutcomeFor(outcomes, v.accountId).appendOk
  }

  /** Running the sync a second time with the same answers from the provider
      and the spreadsheet adds no row: the first run's ids are all read back,
      provided every worksheet has a first row and every fetched id is
      non-empty. */
  lemma RunIdempotent(c: Config, book: Book, visits: seq<Visit>, outcomes: map<string, Outcome>)
    requires Ready(book) && FetchesHaveIds(outcomes)
    ensures var once := Run(c, book, visits, outcomes).book;
      Run(c, once, visits, outcomes).book == once
    ensures AppendsSucceed(visits, outcomes) ==>
      var again := Run(c, Run(c, book, visits, outcomes).book, visits, outcomes);
      again.total == 0 && again.touched == []
  {
    RunSettles(c, book, visits, outcomes);
    SettledRunKeeps(c, Run(c, book, visits, outcomes).book, visits, outcomes);
  }

  /** A run one visit longer is the shorter run followed by that turn. */
  lemma RunSnoc(c: Config, book: Book, visits: seq<Visit>, w: Visit, outcomes: map<string, Outcome>)
    ensures var before := Run(c, book, visits, outcomes);
      var step := Step(c, before.book, w.title, OutcomeFor(outcomes, w.accountId));
      Run(c, book, visits + [w], outcomes) ==
        RunResult(step.book, before.total + step.added, before.touched + (if step.touched then [w.accountId] else []))
  {
    assert (visits + [w])[..|visits|] == visits;
  }

  /** A failed fetch for an existing worksheet leaves the turn without
      effect. */
  lemma FailedStepIsNoop(c: Config, book: Book, title: string, outcome: Outcome)
    requires outcome.fetch.None? && title in book
    ensures Step(c, book, title, outcome) == StepResult(book, 0, false)
  {
  }

  /** A turn whose fetch fails, for an account whose worksheet exists, has
      no effect on the run: the other accounts are synced exactly as if it
      were not there. */
  lemma {:induction false} FailedFetchIsSkipped(c: Config, book: Book, pre: seq<Visit>, v: Visit, post: seq<Visit>,
                                                outcomes: map<string, Outcome>)
    requires OutcomeFor(outcomes, v.accountId).fetch.None? && v.title in book
    ensures Run(c, book, pre + [v] + post, outcomes) == Run(c, book, pre + post, outcomes)
    decreases |post|
  {
    if post == [] {
      assert pre + [v] + post == pre + [v] && pre + post == pre;
      var before := Run(c, book, pre, outcomes);
      RunSnoc(c, book, pre, v, outcomes);
      RunGrows(c, book, pre, outcomes);
      FailedStepIsNoop(c, before.book, v.title, OutcomeFor(outcomes, v.accountId));
      assert before.touched + [] == before.touched;
    } else {
      var init := post[..|post| - 1];
      var w := post[|post| - 1];
      assert pre + [v] + post == (pre + [v] + init) + [w];
      assert pre + post == (pre + init) + [w];
      RunSnoc(c, book, pre + [v] + init, w, outcomes);
      RunSnoc(c, book, pre + init, w, outcomes);
      FailedFetchIsSkipped(c, book, pre, v, init, outcomes);
    }
  }
}
