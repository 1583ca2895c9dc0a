/** Spreadsheet rows and the dedup merge both sync scripts share: the id
    frontier read from column A, the filter of fetched transactions against
    it, the six-column rows built for the new ones, and the append. */
module Ledger {
  import opened Wrappers
  import opened Strings
  import opened Classifier

  /** A transaction amount. It is a float in the source and is only carried
      from the fetch into a cell, never computed on. */
  datatype Amount = Amount(value: real)

  /** A calendar date as the provider reports it. */
  datatype Date = Date(year: nat, month: nat, day: nat)

  /** The fields of a fetched transaction that the scripts read. */
  datatype Txn = Txn(id: string, date: Date, name: Option<string>, amount: Amount)

  /** A cell as written with value input option RAW: a string, a number, or
      nothing (the JSON null written for a missing name). */
  datatype Cell = Text(text: string) | Number(amount: Amount) | Blank

  type Row = seq<Cell>

  /** A worksheet: its rows from the first, in order. */
  type Sheet = seq<Row>

  /** The spreadsheet: worksheets by title. */
  type Book = map<string, Sheet>

  /** The fixed six-column header. */
  const HeaderRow: Row :=
    [Text("transaction_id"), Text("date"), Text("name"), Text("amount"), Text("category"), Text("project")]

  // ---- dates ---------------------------------------------------------------

  lemma {:induction false} DigitsWithin(n: nat, k: nat)
    requires 1 <= k && n < Pow10(k)
    ensures |NatToString(n)| <= k
  {
    if n >= 10 {
      assert k >= 2;
      DigitsWithin(n / 10, k - 1);
    }
  }

  /** `n` in decimal, left-padded with zeros to at least `width` digits
      (`%0<width>d`). */
  function Padded(n: nat, width: nat): (r: string)
    ensures |r| >= width
    ensures 1 <= width && n < Pow10(width) ==> |r| == width
  {
    var digits := NatToString(n);
    if |digits| < width then seq(width - |digits|, _ => '0') + digits
    else if 1 <= width && n < Pow10(width) then
      DigitsWithin(n, width);
      digits
    else digits
  }

  /** The padded form is a string of digits that reads back as `n`. */
  lemma PaddedReadsBack(n: nat, width: nat)
    ensures AllDigits(Padded(n, width)) && DecimalValue(Padded(n, width)) == n
  {
    var digits := NatToString(n);
    NatToStringReadsBack(n);
    if |digits| < width {
      var zeros := seq(width - |digits|, _ => '0');
      ZerosValue(width - |digits|);
      DecimalValueAppend(zeros, digits);
    }
  }

  predicate ValidDate(d: Date) {
    1 <= d.year <= 9999 && 1 <= d.month <= 12 && 1 <= d.day <= 31
  }

  /** `date.isoformat()`: YYYY-MM-DD. */
  function IsoFormat(d: Date): string {
    Padded(d.year, 4) + "-" + Padded(d.month, 2) + "-" + Padded(d.day, 2)
  }

  /** The ISO form of a valid date is ten characters, dashes at positions 4
      and 7, and its three fields read back as the year, month and day. */
  lemma IsoFormatReadsBack(d: Date)
    requires ValidDate(d)
    ensures var r := IsoFormat(d);
      && |r| == 10 && r[4] == '-' && r[7] == '-'
      && AllDigits(r[..4]) && DecimalValue(r[..4]) == d.year
      && AllDigits(r[5..7]) && DecimalValue(r[5..7]) == d.month
      && AllDigits(r[8..]) && DecimalValue(r[8..]) == d.day
  {
    var y, m, dd := Padded(d.year, 4), Padded(d.month, 2), Padded(d.day, 2);
    PaddedReadsBack(d.year, 4);
    PaddedReadsBack(d.month, 2);
    PaddedReadsBack(d.day, 2);
    assert Pow10(4) == 10000 && Pow10(2) == 100;
    var r := IsoFormat(d);
    assert r == y + "-" + m + "-" + dd;
    assert r[..4] == y && r[5..7] == m && r[8..] == dd;
  }

  // ---- the id frontier ----------------------------------------------------

  /** A cell that holds something. With value input option RAW an empty
      string is stored as an empty cell, so it reads back like a blank one. */
  predicate Filled(c: Cell) {
    c != Blank && c != Text("")
  }

  /** The first cell of every row that has a filled one, as reading column A
      returns them: a row whose first cell is empty reads back as an empty
      row, which `if row` drops. */
  function FirstCells(rows: seq<Row>): set<Cell> {
    set i | 0 <= i < |rows| && rows[i] != [] && Filled(rows[i][0]) :: rows[i][0]
  }

  /** `get_existing_transaction_ids`: `set(row[0] for row in values[1:] if row)`.
      The first row is skipped whatever it holds. */
  function ExistingIds(values: Sheet): set<Cell> {
    if values == [] then {} else FirstCells(values[1..])
  }

  /** The frontier is exactly the filled first cells of the rows after the
      first. */
  lemma ExistingIdsSkipsFirstRow(values: Sheet)
    ensures Blank !in ExistingIds(values) && Text("") !in ExistingIds(values)
    ensures forall i :: 1 <= i < |values| && values[i] != [] && Filled(values[i][0]) ==>
      values[i][0] in ExistingIds(values)
    ensures forall x :: x in ExistingIds(values) ==>
      exists i :: 1 <= i < |values| && values[i] != [] && values[i][0] == x
  {
    if values != [] {
      var rest := values[1..];
      assert forall i :: 1 <= i < |values| ==> values[i] == rest[i - 1];
      forall x | x in ExistingIds(values)
        ensures exists i :: 1 <= i < |values| && values[i] != [] && values[i][0] == x
      {
        var j :| 0 <= j < |rest| && rest[j] != [] && Filled(rest[j][0]) && rest[j][0] == x;
        assert values[j + 1] == rest[j];
      }
    }
  }

  lemma FirstCellsAppend(a: seq<Row>, b: seq<Row>)
    ensures FirstCells(a + b) == FirstCells(a) + FirstCells(b)
  {
    var ab := a + b;
    forall x | x in FirstCells(ab)
      ensures x in FirstCells(a) + FirstCells(b)
    {
      var i :| 0 <= i < |ab| && ab[i] != [] && Filled(ab[i][0]) && ab[i][0] == x;
      if i >= |a| {
        assert b[i - |a|] == ab[i];
      }
    }
    forall x | x in FirstCells(b)
      ensures x in FirstCells(ab)
    {
      var i :| 0 <= i < |b| && b[i] != [] && Filled(b[i][0]) && b[i][0] == x;
      assert ab[|a| + i] == b[i];
    }
    forall x | x in FirstCells(a)
      ensures x in FirstCells(ab)
    {
      var i :| 0 <= i < |a| && a[i] != [] && Filled(a[i][0]) && a[i][0] == x;
      assert ab[i] == a[i];
    }
  }

  /** Rows appended under a first row are all read back: the frontier of the
      longer sheet is the old frontier plus the new rows' first cells. */
  lemma ExistingIdsAfterAppend(sheet: Sheet, rows: seq<Row>)
    requires sheet != []
    ensures ExistingIds(sheet + rows) == ExistingIds(sheet) + FirstCells(rows)
  {
    assert (sheet + rows)[1..] == sheet[1..] + rows;
    FirstCellsAppend(sheet[1..], rows);
  }

  /** The id frontier of the worksheet titled `name`; a missing worksheet makes
      the read raise, which the source turns into the empty set. */
  function Frontier(book: Book, name: string): (ids: set<Cell>)
    ensures name !in book ==> ids == {}
    ensures name in book ==> ids == ExistingIds(book[name])
  {
    if name in book then ExistingIds(book[name]) else {}
  }

  // ---- the filter and the rows --------------------------------------------

  /** The fetched transactions whose id is not in `existing`, in fetch order. */
  function Unseen(txns: seq<Txn>, existing: set<Cell>): (r: seq<Txn>)
    ensures |r| <= |txns|
    ensures forall t :: t in r <==> t in txns && Text(t.id) !in existing
  {
    if txns == [] then []
    else
      var init, last := txns[..|txns| - 1], txns[|txns| - 1];
      assert txns == init + [last];
      if Text(last.id) in existing then Unseen(init, existing) else Unseen(init, existing) + [last]
  }

  /** The filter keeps fetch order: filtering a concatenation concatenates
      the filtered parts. */
  lemma {:induction false} UnseenAppend(a: seq<Txn>, b: seq<Txn>, existing: set<Cell>)
    ensures Unseen(a + b, existing) == Unseen(a, existing) + Unseen(b, existing)
  {
    if b == [] {
      assert a + b == a;
    } else {
      var init := b[..|b| - 1];
      assert (a + b)[..|a + b| - 1] == a + init;
      assert (a + b)[|a + b| - 1] == b[|b| - 1];
      UnseenAppend(a, init, existing);
    }
  }

  /** A transaction already present is dropped; a new one is kept. */
  lemma UnseenOne(t: Txn, existing: set<Cell>)
    ensures Unseen([t], existing) == if Text(t.id) in existing then [] else [t]
  {
    assert [t][..0] == [];
  }

  /** The category and project the source's classifier gives the transaction. */
  function TagsOf(c: Config, t: Txn): Tags {
    Classify(c, MatchKey(t.name))
  }

  /** A missing name is written as an empty cell. */
  function NameCell(name: Option<string>): Cell {
    match name
    case None => Blank
    case Some(s) => Text(s)
  }

  /** The row written for a new transaction: id, ISO date, name, amount,
      category, project. */
  function TxnRow(c: Config, t: Txn): (row: Row)
    ensures |row| == |HeaderRow| && row[0] == Text(t.id)
    ensures row[4] == Text(TagsOf(c, t).category) && row[5] == Text(TagsOf(c, t).project)
  {
    var tags := TagsOf(c, t);
    [Text(t.id), Text(IsoFormat(t.date)), NameCell(t.name), Number(t.amount), Text(tags.category), Text(tags.project)]
  }

  /** One row per transaction, in order. */
  function Rows(c: Config, txns: seq<Txn>): (rows: seq<Row>)
    ensures |rows| == |txns|
    ensures forall i :: 0 <= i < |txns| ==> rows[i] == TxnRow(c, txns[i])
  {
    seq(|txns|, i requires 0 <= i < |txns| => TxnRow(c, txns[i]))
  }

  lemma RowsOne(c: Config, t: Txn)
    ensures Rows(c, [t]) == [TxnRow(c, t)]
  {
    assert Rows(c, [t])[0] == TxnRow(c, t);
  }

  lemma RowsAppend(c: Config, a: seq<Txn>, b: seq<Txn>)
    ensures Rows(c, a + b) == Rows(c, a) + Rows(c, b)
  {
    var whole, parts := Rows(c, a + b), Rows(c, a) + Rows(c, b);
    forall i | 0 <= i < |whole|
      ensures whole[i] == parts[i]
    {
      if i < |a| {
        assert (a + b)[i] == a[i];
      } else {
        assert (a + b)[i] == b[i - |a|];
      }
    }
  }

  /** The rows built for a batch read back, in column A, as exactly the
      batch's non-empty ids. */
  lemma RowIds(c: Config, txns: seq<Txn>)
    ensures FirstCells(Rows(c, txns)) == set t | t in txns && t.id != "" :: Text(t.id)
  {
    RowIdsWithin(c, txns);
    RowIdsCover(c, txns);
  }

  lemma RowIdsWithin(c: Config, txns: seq<Txn>)
    ensures forall x :: x in FirstCells(Rows(c, txns)) ==> exists t :: t in txns && t.id != "" && x == Text(t.id)
  {
    var rows := Rows(c, txns);
    forall x | x in FirstCells(rows)
      ensures exists t :: t in txns && t.id != "" && x == Text(t.id)
    {
      var i :| 0 <= i < |rows| && rows[i] != [] && Filled(rows[i][0]) && rows[i][0] == x;
      assert txns[i] in txns;
    }
  }

  lemma RowIdsCover(c: Config, txns: seq<Txn>)
    ensures forall t :: t in txns && t.id != "" ==> Text(t.id) in FirstCells(Rows(c, txns))
  {
    var rows := Rows(c, txns);
    forall t | t in txns && t.id != ""
      ensures Text(t.id) in FirstCells(rows)
    {
      var i :| 0 <= i < |txns| && txns[i] == t;
      assert rows[i][0] == Text(t.id);
    }
  }

  lemma RowsStep(c: Config, prefix: seq<Txn>, t: Txn, existing: set<Cell>)
    ensures Rows(c, Unseen(prefix + [t], existing)) ==
      Rows(c, Unseen(prefix, existing)) + (if Text(t.id) in existing then [] else [TxnRow(c, t)])
  {
    var kept := Unseen(prefix, existing);
    var whole := prefix + [t];
    assert whole[..|whole| - 1] == prefix;
    assert whole[|whole| - 1] == t;
    if Text(t.id) in existing {
      assert Unseen(whole, existing) == kept;
      assert Rows(c, kept) + [] == Rows(c, kept);
    } else {
      assert Unseen(whole, existing) == kept + [t];
      RowsAppend(c, kept, [t]);
      RowsOne(c, t);
    }
  }

  /** The rows of the first `i + 1` transactions extend those of the first
      `i` by the row of transaction `i` when its id is new. */
  lemma RowsNext(c: Config, txns: seq<Txn>, i: nat, existing: set<Cell>)
    requires i < |txns|
    ensures Rows(c, Unseen(txns[..i + 1], existing)) ==
      Rows(c, Unseen(txns[..i], existing)) + (if Text(txns[i].id) in existing then [] else [TxnRow(c, txns[i])])
  {
    assert txns[..i + 1] == txns[..i] + [txns[i]];
    RowsStep(c, txns[..i], txns[i], existing);
  }

  /** The loop in `main` that builds the new rows: a transaction whose id is
      not in the frontier is classified and becomes a row. */
  method BuildRows(c: Config, txns: seq<Txn>, existing: set<Cell>) returns (rows: seq<Row>)
    ensures rows == Rows(c, Unseen(txns, existing))
  {
    rows := [];
    for i := 0 to |txns|
      invariant rows == Rows(c, Unseen(txns[..i], existing))
    {
      RowsNext(c, txns, i, existing);
      if Text(txns[i].id) !in existing {
        rows := rows + [TxnRow(c, txns[i])];
      }
    }
    assert txns[..|txns|] == txns;
  }

  /** `append_transactions_to_sheet` when the request succeeds: an empty batch
      sends nothing; otherwise the rows land after the last row. */
  function Appended(sheet: Sheet, rows: seq<Row>): (r: Sheet)
    ensures rows == [] ==> r == sheet
    ensures |r| == |sheet| + |rows| && r[..|sheet|] == sheet && r[|sheet|..] == rows
  {
    if rows == [] then sheet else sheet + rows
  }

  // ---- the merge is idempotent --------------------------------------------

  /** Filtering again against the frontier grown by the ids just appended
      yields nothing. */
  lemma UnseenAfterMerge(txns: seq<Txn>, existing: set<Cell>)
    ensures Unseen(txns, existing + set t | t in Unseen(txns, existing) :: Text(t.id)) == []
  {
    var grown := existing + set t | t in Unseen(txns, existing) :: Text(t.id);
    NoMemberIsEmpty(Unseen(txns, grown));
  }

  /** A sequence is empty exactly when nothing is in it. */
  lemma NoMemberIsEmpty(s: seq<Txn>)
    ensures s == [] <==> forall t :: t !in s
  {
    if s != [] {
      assert s[0] in s;
    }
  }

  /** One merge of a fetch into a sheet with a first row: the rows for the
      unseen transactions, appended. */
  function Merge(c: Config, sheet: Sheet, txns: seq<Txn>): Sheet {
    Appended(sheet, Rows(c, Unseen(txns, ExistingIds(sheet))))
  }

  /** Every transaction of the fetch has a non-empty id. */
  predicate IdsPresent(txns: seq<Txn>) {
    forall t :: t in txns ==> t.id != ""
  }

  /** After one merge, the same fetch finds again only transactions whose id
      is empty: their id cell reads back as empty. When every id is present,
      a second merge appends nothing and leaves the sheet as it is. */
  lemma MergeIdempotent(c: Config, sheet: Sheet, txns: seq<Txn>)
    requires sheet != []
    ensures forall t :: t in Unseen(txns, ExistingIds(Merge(c, sheet, txns))) ==> t.id == ""
    ensures IdsPresent(txns) ==> Unseen(txns, ExistingIds(Merge(c, sheet, txns))) == []
    ensures IdsPresent(txns) ==> Merge(c, Merge(c, sheet, txns), txns) == Merge(c, sheet, txns)
  {
    var existing := ExistingIds(sheet);
    var newTxns := Unseen(txns, existing);
    var after := ExistingIds(Merge(c, sheet, txns));
    ExistingIdsAfterAppend(sheet, Rows(c, newTxns));
    RowIds(c, newTxns);
    assert forall t :: t in Unseen(txns, after) ==> t.id == "";
    NoMemberIsEmpty(Unseen(txns, after));
  }

  /** An empty-string cell is never read back as an id. */
  lemma EmptyTextNotId(values: Sheet)
    ensures Text("") !in ExistingIds(values)
  {
  }

  /** A transaction with an empty id is appended again by every merge: its
      id cell reads back as empty, so the frontier never holds it. */
  lemma EmptyIdRepeats(c: Config, sheet: Sheet, t: Txn)
    requires sheet != [] && t.id == ""
    ensures Merge(c, sheet, [t]) == sheet + [TxnRow(c, t)]
    ensures Merge(c, Merge(c, sheet, [t]), [t]) == sheet + [TxnRow(c, t), TxnRow(c, t)]
  {
    var row := TxnRow(c, t);
    EmptyTextNotId(sheet);
    MergeOneUnseen(c, sheet, t);
    var once := sheet + [row];
    EmptyTextNotId(once);
    MergeOneUnseen(c, once, t);
    SnocTwice(sheet, row);
  }

  lemma SnocTwice(sheet: Sheet, row: Row)
    ensures sheet + [row] + [row] == sheet + [row, row]
  {
  }

  /** A sheet with nothing but its first row has no ids beyond it. */
  lemma OneRowHasNoIds(row: Row)
    ensures ExistingIds([row]) == {}
  {
    assert [row][1..] == [];
  }

  /** Merging one transaction whose id the frontier lacks appends its row. */
  lemma MergeOneUnseen(c: Config, sheet: Sheet, t: Txn)
    requires Text(t.id) !in ExistingIds(sheet)
    ensures Unseen([t], ExistingIds(sheet)) == [t]
    ensures Merge(c, sheet, [t]) == sheet + [TxnRow(c, t)]
  {
    UnseenOne(t, ExistingIds(sheet));
    RowsOne(c, t);
  }

  /** Without a first row to skip, the first appended row is taken for the
      header: a one-transaction fetch merged into an empty sheet is found new
      again on the next merge. */
  lemma EmptySheetRepeatsFirstRow(c: Config, t: Txn)
    ensures Merge(c, [], [t]) == [TxnRow(c, t)]
    ensures Unseen([t], ExistingIds(Merge(c, [], [t]))) == [t]
    ensures Merge(c, Merge(c, [], [t]), [t]) == [TxnRow(c, t), TxnRow(c, t)]
  {
    MergeOneUnseen(c, [], t);
    var once := Merge(c, [], [t]);
    OneRowHasNoIds(TxnRow(c, t));
    MergeOneUnseen(c, once, t);
  }
}
