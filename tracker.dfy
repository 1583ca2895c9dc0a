/** finance_tracker_sheets.py: the single-account script. It keeps every
    transaction on one worksheet, All_Transactions, checks that worksheet's
    header row before reading the id frontier, and classifies with its own
    copy of the classifier tables. */
module Tracker {
  import opened Wrappers
  import opened Strings
  import opened Classifier
  import opened Ledger
  import Sync

  /** SUBCONTRACTOR_DATABASE of `categorize`, in insertion order. */
  const TrackerTable: seq<Subcontractor> := [
    Subcontractor("all-pro plumbing", "Plumbing"),
    Subcontractor("j&l electric", "Electrical"),
    Subcontractor("sal's drywall", "Drywall & Paint"),
    Subcontractor("creative landscape", "Landscaping"),
    Subcontractor("best quality roofing", "Roofing"),
    Subcontractor("a-1 painting", "Drywall & Paint"),
    Subcontractor("precision framing", "Framing"),
    Subcontractor("elite concrete", "Concrete & Foundation"),
    Subcontractor("custom cabinetry", "Cabinets & Millwork"),
    Subcontractor("total home insulation", "Insulation"),
    Subcontractor("flores tile & stone", "Flooring & Tile"),
    Subcontractor("window world", "Windows & Doors")
  ]

  /** The tables of `categorize`. */
  const TrackerConfig := Config(
    TrackerTable,
    ["home depot", "lowe's", "sherwin-williams"],
    ["sunbelt", "united rentals"],
    ["chevron", "shell", "76"])

  // ---- categorize ---------------------------------------------------------

  /** `categorize`: the first rule of the ordered table that matches the
      lower-cased name decides. */
  function Categorize(t: Txn): (tags: Tags)
    ensures tags == FirstMatch(Rules(TrackerConfig), MatchKey(t.name))
  {
    ClassifyIsFirstMatch(TrackerConfig, MatchKey(t.name));
    TagsOf(TrackerConfig, t)
  }

  /** The two scripts carry the same tables, entry for entry and in the same
      order. */
  lemma SameTables()
    ensures TrackerConfig == Sync.SyncConfig
  {
    assert TrackerTable == Sync.SubcontractorDatabase;
  }

  /** The two copies of the classifier agree on every transaction. */
  lemma CopiesAgree(t: Txn)
    ensures Categorize(t) == Sync.CategorizeTransaction(t)
  {
    SameTables();
  }

  /** A name naming both a Zelle transfer and a materials vendor matches the
      Materials rule too, yet the earlier Zelle rule decides. */
  lemma ZelleOverMaterials(t: Txn)
    requires Contains(MatchKey(t.name), "zelle") && Contains(MatchKey(t.name), "home depot")
    requires !Contains(MatchKey(t.name), "quickbooks") && !Contains(MatchKey(t.name), "intuit")
    ensures AnyIn(TrackerConfig.materials, MatchKey(t.name))
    ensures Categorize(t) == ZellePayment
  {
    ZelleBeforeVendors(TrackerConfig, MatchKey(t.name));
  }

  // ---- setup_sheet_headers ------------------------------------------------

  /** The decision of `setup_sheet_headers`: reading A1:F1 gives the first
      row cut to six columns, and the header is written when there is no
      first row or those six cells are not the header. */
  predicate NeedsHeader(sheet: Sheet) {
    sheet == [] || |sheet[0]| < |HeaderRow| || sheet[0][..|HeaderRow|] != HeaderRow
  }

  /** The worksheet after `setup_sheet_headers`: when the check asks for it,
      A1:F1 is overwritten with the header, cells right of F and the other
      rows kept. */
  function WithHeaders(sheet: Sheet): (r: Sheet)
    ensures !NeedsHeader(r)
    ensures !NeedsHeader(sheet) ==> r == sheet
    ensures sheet == [] ==> r == [HeaderRow]
    ensures sheet != [] ==> |r| == |sheet| && r[1..] == sheet[1..]
    ensures sheet != [] && NeedsHeader(sheet) ==>
      r[0] == HeaderRow + (if |sheet[0]| > |HeaderRow| then sheet[0][|HeaderRow|..] else [])
  {
    if !NeedsHeader(sheet) then sheet
    else if sheet == [] then [HeaderRow]
    else
      var first := HeaderRow + (if |sheet[0]| > |HeaderRow| then sheet[0][|HeaderRow|..] else []);
      assert first[..|HeaderRow|] == HeaderRow;
      [first] + sheet[1..]
  }

  /** Running the setup twice writes the header at most once: the second
      check finds it and leaves the worksheet alone. */
  lemma HeaderWrittenAtMostOnce(sheet: Sheet)
    ensures !NeedsHeader(WithHeaders(sheet))
    ensures WithHeaders(WithHeaders(sheet)) == WithHeaders(sheet)
  {
  }

  /** The setup only ever touches the first row, which the frontier skips:
      the ids read afterwards are the ids read before. */
  lemma SetupKeepsFrontier(sheet: Sheet)
    ensures ExistingIds(WithHeaders(sheet)) == ExistingIds(sheet)
  {
    if sheet == [] {
      assert WithHeaders(sheet)[1..] == [];
    }
  }

  // ---- main ----------------------------------------------------------------

  /** The outcome of one run of `main`: the worksheet after it and the number
      of new transactions it reports. */
  datatype PassResult = PassResult(sheet: Sheet, count: nat)

  /** One run of `main` on the worksheet: set up the header, read the
      frontier, and on a successful fetch append the rows of the unseen
      transactions. `fetch` is `None` when `transactions_get` raises;
      `appendOk` says whether the append request goes through. */
  function Pass(c: Config, sheet: Sheet, fetch: Option<seq<Txn>>, appendOk: bool): PassResult {
    var ready := WithHeaders(sheet);
    match fetch
    case None => PassResult(ready, 0)
    case Some(txns) =>
      var rows := Rows(c, Unseen(txns, ExistingIds(ready)));
      PassResult(if appendOk then Appended(ready, rows) else ready, |rows|)
  }

  /** `main` from the header setup on. */
  method SyncAllTransactions(sheet: Sheet, fetch: Option<seq<Txn>>, appendOk: bool)
    returns (after: Sheet, count: nat)
    ensures PassResult(after, count) == Pass(TrackerConfig, sheet, fetch, appendOk)
  {
    after := WithHeaders(sheet);
    var existing := ExistingIds(after);
    if fetch.None? {
      return after, 0;
    }
    var rows := BuildRows(TrackerConfig, fetch.value, existing);
    if rows != [] && appendOk {
      after := Appended(after, rows);
    }
    count := |rows|;
  }

  /** A run keeps the worksheet's rows after the first and appends exactly
      the rows of the fetched transactions whose ids it did not already
      hold, in fetch order, and reports how many there were. */
  lemma PassAppendsOnlyNewRows(c: Config, sheet: Sheet, fetch: Option<seq<Txn>>, appendOk: bool)
    ensures var r := Pass(c, sheet, fetch, appendOk);
      r.sheet == WithHeaders(sheet) +
        (if fetch.Some? && appendOk then Rows(c, Unseen(fetch.value, ExistingIds(sheet))) else [])
    ensures Pass(c, sheet, fetch, appendOk).count ==
      if fetch.Some? then |Unseen(fetch.value, ExistingIds(sheet))| else 0
  {
    SetupKeepsFrontier(sheet);
    var ready := WithHeaders(sheet);
    assert ready + [] == ready;
  }

  /** A second run with the same fetch leaves the worksheet as the first run
      left it, whatever the worksheet held to begin with: the header check
      guarantees the first row that the frontier skips. The fetched ids must
      be non-empty, since an empty id reads back as an empty cell. */
  lemma PassIdempotent(c: Config, sheet: Sheet, fetch: Option<seq<Txn>>, appendOk: bool)
    requires fetch.Some? ==> IdsPresent(fetch.value)
    ensures var once := Pass(c, sheet, fetch, appendOk).sheet;
      Pass(c, once, fetch, appendOk).sheet == once
    ensures appendOk ==> Pass(c, Pass(c, sheet, fetch, appendOk).sheet, fetch, appendOk).count == 0
  {
    var ready := WithHeaders(sheet);
    var once := Pass(c, sheet, fetch, appendOk).sheet;
    if fetch.Some? && appendOk {
      MergeIdempotent(c, ready, fetch.value);
      assert once == Merge(c, ready, fetch.value);
      assert once[0] == ready[0];
      assert WithHeaders(once) == once;
    } else {
      assert once == ready;
    }
  }
}
