/**
 The two spreadsheets of the program as in-memory tables: the clients sheet `Folder` and
 the contracts sheet `Registry`. A sheet is either unreadable (the workbook or the sheet
 could not be opened) or a header row followed by data rows; columns are looked up by
 header name, as the data frame does.
 */
module Registry {
  import opened Options
  import opened Strings

  /** A cell as the data frame sees it: text, a whole number, or empty (NaN). */
  datatype Cell = Text(s: String) | Number(n: int) | Blank

  type Row = seq<Cell>

  datatype Sheet = Unreadable | Table(header: seq<String>, rows: seq<Row>)

  const ClientIdColumn: String := "№"
  const VinColumn: String := "VIN"
  const SurnameColumn: String := "Фамилия"
  const NameColumn: String := "Имя"
  const PatronymicColumn: String := "Отчество"
  const RegistryIdColumn: String := "Номер"
  const ContractNumberColumn: String := "Номер договора"

  /** A short row reads as empty in the columns it lacks. */
  function CellAt(row: Row, k: nat): Cell {
    if k < |row| then row[k] else Blank
  }

  /** The position of the first header cell called `name`. */
  function ColumnIndex(header: seq<String>, name: String): (r: Option<nat>)
    ensures r.Some? ==> r.value < |header| && header[r.value] == name
    ensures r.Some? ==> forall i :: 0 <= i < r.value ==> header[i] != name
    ensures r.None? ==> forall i :: 0 <= i < |header| ==> header[i] != name
  {
    if |header| == 0 then None
    else if header[0] == name then Some(0)
    else match ColumnIndex(header[1..], name)
      case None => None
      case Some(k) => Some(k + 1)
  }

  function Column(rows: seq<Row>, k: nat): (col: seq<Cell>)
    ensures |col| == |rows|
    ensures forall i :: 0 <= i < |rows| ==> col[i] == CellAt(rows[i], k)
  {
    seq(|rows|, i requires 0 <= i < |rows| => CellAt(rows[i], k))
  }

  /** `df[name]`: fails when the sheet cannot be read or has no such column. */
  function Lookup(sheet: Sheet, name: String): (r: Option<seq<Cell>>)
    ensures r.Some? <==> sheet.Table? && ColumnIndex(sheet.header, name).Some?
    ensures r.Some? ==> |r.value| == |sheet.rows|
    ensures r.Some? ==> forall i :: 0 <= i < |sheet.rows| ==>
      r.value[i] == CellAt(sheet.rows[i], ColumnIndex(sheet.header, name).value)
  {
    if sheet.Unreadable? then None
    else match ColumnIndex(sheet.header, name)
      case None => None
      case Some(k) => Some(Column(sheet.rows, k))
  }

  /* ---------------------------------------------------------------- contract numbers */

  const Suffix: String := "-ИП"

  /** The number a registry entry holds, when it is text carrying the suffix and parses once the suffix is removed. */
  function ParseContractNumber(c: Cell): (r: Option<int>)
    ensures r.Some? ==> c.Text? && Contains(c.s, Suffix)
    ensures !c.Text? || !Contains(c.s, Suffix) ==> r.None?
  {
    if c.Text? && Contains(c.s, Suffix) then ParseInt(ReplaceAll(c.s, Suffix, [])) else None
  }

  /** The numbers of the valid entries of a column. */
  function ParsedValues(cells: seq<Cell>): set<int> {
    if |cells| == 0 then {}
    else
      var p := ParseContractNumber(cells[|cells| - 1]);
      ParsedValues(cells[..|cells| - 1]) + (if p.Some? then {p.value} else {})
  }

  lemma ParsedValuesSnoc(cells: seq<Cell>, c: Cell)
    ensures ParsedValues(cells + [c]) ==
      ParsedValues(cells) + (if ParseContractNumber(c).Some? then {ParseContractNumber(c).value} else {})
  {
    assert (cells + [c])[..|cells|] == cells;
  }

  /** Every valid entry contributes its number. */
  lemma {:induction false} ParsedValueOf(cells: seq<Cell>, i: nat)
    requires i < |cells| && ParseContractNumber(cells[i]).Some?
    ensures ParseContractNumber(cells[i]).value in ParsedValues(cells)
  {
    if i < |cells| - 1 {
      var init := cells[..|cells| - 1];
      assert init[i] == cells[i];
      ParsedValueOf(init, i);
    }
  }

  /** Every number comes from a valid entry. */
  lemma {:induction false} ParsedValueSource(cells: seq<Cell>, v: int) returns (i: nat)
    requires v in ParsedValues(cells)
    ensures i < |cells| && ParseContractNumber(cells[i]) == Some(v)
  {
    var init := cells[..|cells| - 1];
    var p := ParseContractNumber(cells[|cells| - 1]);
    if p == Some(v) {
      i := |cells| - 1;
    } else {
      i := ParsedValueSource(init, v);
      assert init[i] == cells[i];
    }
  }

  /** The running maximum of the scan: starts at 0 and keeps the larger of itself and each valid entry. */
  function MaxParsed(cells: seq<Cell>): (m: int)
    ensures m >= 0
    ensures forall v :: v in ParsedValues(cells) ==> v <= m
    ensures m == 0 || m in ParsedValues(cells)
  {
    if |cells| == 0 then 0
    else
      var m := MaxParsed(cells[..|cells| - 1]);
      var p := ParseContractNumber(cells[|cells| - 1]);
      if p.Some? && p.value > m then p.value else m
  }

  /** The maximum depends only on the set of valid numbers. */
  lemma SameValuesSameMax(a: seq<Cell>, b: seq<Cell>)
    requires ParsedValues(a) == ParsedValues(b)
    ensures MaxParsed(a) == MaxParsed(b)
  {
    var ma, mb := MaxParsed(a), MaxParsed(b);
    if ma != 0 {
      assert ma in ParsedValues(b);
    }
    if mb != 0 {
      assert mb in ParsedValues(a);
    }
  }

  lemma MaxBoundsEntries(cells: seq<Cell>)
    ensures forall i :: 0 <= i < |cells| && ParseContractNumber(cells[i]).Some? ==>
      ParseContractNumber(cells[i]).value <= MaxParsed(cells)
    ensures (forall i :: 0 <= i < |cells| ==> ParseContractNumber(cells[i]).None?) ==> MaxParsed(cells) == 0
  {
    forall i | 0 <= i < |cells| && ParseContractNumber(cells[i]).Some?
      ensures ParseContractNumber(cells[i]).value <= MaxParsed(cells)
    {
      ParsedValueOf(cells, i);
    }
    if MaxParsed(cells) != 0 {
      var i := ParsedValueSource(cells, MaxParsed(cells));
    }
  }

  /** `get_next_contract_number` as a number: 101 on a read failure, otherwise the maximum plus one. */
  function NextContractValue(sheet: Sheet): (v: int)
    ensures Lookup(sheet, ContractNumberColumn).None? ==> v == 101
    ensures Lookup(sheet, ContractNumberColumn).Some? ==>
      var col := Lookup(sheet, ContractNumberColumn).value;
      && v >= 1
      && (forall i :: 0 <= i < |col| && ParseContractNumber(col[i]).Some? ==> ParseContractNumber(col[i]).value < v)
      && (v == 1 || v - 1 in ParsedValues(col))
      && ((forall i :: 0 <= i < |col| ==> ParseContractNumber(col[i]).None?) ==> v == 1)
  {
    match Lookup(sheet, ContractNumberColumn)
    case None => 101
    case Some(col) =>
      MaxBoundsEntries(col);
      MaxParsed(col) + 1
  }

  function FormatContractNumber(n: int): String {
    IntToString(n) + Suffix
  }

  /** Reading back a formatted contract number gives the number. */
  lemma ContractNumberRoundTrip(n: nat)
    ensures ParseContractNumber(Text(FormatContractNumber(n))) == Some(n)
  {
    var d := NatToDecimal(n);
    assert FormatContractNumber(n) == d + Suffix;
    ContainsAt(d + Suffix, Suffix, |d|);
    forall i | 0 <= i < |d| ensures d[i] != Suffix[0] {
      assert IsDigit(d[i]);
    }
    ReplaceTrailingSuffix(d, Suffix);
    ParseIntOfDecimal(n);
  }

  /** The next contract number, as text `N-ИП`; it reads back as a number above every valid entry. */
  function NextContractNumber(sheet: Sheet): (r: String)
    ensures ParseContractNumber(Text(r)).Some?
    ensures ParseContractNumber(Text(r)).value >= 1
    ensures Lookup(sheet, ContractNumberColumn).Some? ==>
      var col := Lookup(sheet, ContractNumberColumn).value;
      forall i :: 0 <= i < |col| && ParseContractNumber(col[i]).Some? ==>
        ParseContractNumber(col[i]).value < ParseContractNumber(Text(r)).value
  {
    var v := NextContractValue(sheet);
    ContractNumberRoundTrip(v);
    FormatContractNumber(v)
  }

  /** One step of the scan: the maximum over one more entry. */
  lemma MaxParsedStep(col: seq<Cell>, i: nat)
    requires i < |col|
    ensures var m, p := MaxParsed(col[..i]), ParseContractNumber(col[i]);
      MaxParsed(col[..i + 1]) == if p.Some? && p.value > m then p.value else m
  {
    assert col[..i + 1][..i] == col[..i];
  }

  /** The next contract number in terms of the column the scan reads. */
  lemma NextContractNumberByColumn(sheet: Sheet)
    ensures Lookup(sheet, ContractNumberColumn).None? ==> NextContractNumber(sheet) == FormatContractNumber(101)
    ensures Lookup(sheet, ContractNumberColumn).Some? ==>
      NextContractNumber(sheet) == FormatContractNumber(MaxParsed(Lookup(sheet, ContractNumberColumn).value) + 1)
  {
    var v := NextContractValue(sheet);
    assert NextContractNumber(sheet) == FormatContractNumber(v);
    match Lookup(sheet, ContractNumberColumn)
    case None =>
    case Some(col) =>
      assert v == MaxParsed(col) + 1;
  }

  /** The scan as the program writes it, a loop over the column keeping the largest number seen. */
  method ScanNextContractNumber(sheet: Sheet) returns (r: String)
    ensures r == NextContractNumber(sheet)
  {
    NextContractNumberByColumn(sheet);
    var lookup := Lookup(sheet, ContractNumberColumn);
    if lookup.None? {
      return FormatContractNumber(101);
    }
    var col := lookup.value;
    var last := 0;
    var i := 0;
    while i < |col|
      invariant 0 <= i <= |col|
      invariant last == MaxParsed(col[..i])
    {
      var p := ParseContractNumber(col[i]);
      MaxParsedStep(col, i);
      if p.Some? && p.value > last {
        last := p.value;
      }
      i := i + 1;
    }
    assert col[..|col|] == col;
    r := FormatContractNumber(last + 1);
  }

  /** Reordering the rows of the registry does not change the next contract number. */
  lemma NextContractPermutation(header: seq<String>, a: seq<Row>, b: seq<Row>)
    requires multiset(a) == multiset(b)
    ensures NextContractValue(Table(header, a)) == NextContractValue(Table(header, b))
  {
    match ColumnIndex(header, ContractNumberColumn)
    case None =>
    case Some(k) =>
      var ca, cb := Column(a, k), Column(b, k);
      PermutedColumnValues(a, b, k);
      PermutedColumnValues(b, a, k);
      SameValuesSameMax(ca, cb);
  }

  lemma PermutedColumnValues(a: seq<Row>, b: seq<Row>, k: nat)
    requires multiset(a) == multiset(b)
    ensures ParsedValues(Column(a, k)) <= ParsedValues(Column(b, k))
  {
    var ca, cb := Column(a, k), Column(b, k);
    forall v | v in ParsedValues(ca) ensures v in ParsedValues(cb) {
      var i := ParsedValueSource(ca, v);
      assert a[i] in multiset(b);
      var j :| 0 <= j < |b| && b[j] == a[i];
      assert cb[j] == ca[i];
      ParsedValueOf(cb, j);
    }
  }

  /** An entry that is not a valid number can be dropped without changing the result. */
  lemma SkippedEntryIrrelevant(a: seq<Cell>, c: Cell, b: seq<Cell>)
    requires ParseContractNumber(c).None?
    ensures MaxParsed(a + [c] + b) == MaxParsed(a + b)
  {
    var x, y := a + [c] + b, a + b;
    forall v | v in ParsedValues(x) ensures v in ParsedValues(y) {
      var i := ParsedValueSource(x, v);
      if i < |a| {
        assert x[i] == y[i];
        ParsedValueOf(y, i);
      } else {
        assert i > |a|;
        assert x[i] == y[i - 1];
        ParsedValueOf(y, i - 1);
      }
    }
    forall v | v in ParsedValues(y) ensures v in ParsedValues(x) {
      var i := ParsedValueSource(y, v);
      if i < |a| {
        assert x[i] == y[i];
        ParsedValueOf(x, i);
      } else {
        assert x[i + 1] == y[i];
        ParsedValueOf(x, i + 1);
      }
    }
    SameValuesSameMax(x, y);
  }

  /* ---------------------------------------------------------------- identifiers */

  /** The whole numbers of an identifier column. */
  function Ids(cells: seq<Cell>): set<int> {
    set i | 0 <= i < |cells| && cells[i].Number? :: cells[i].n
  }

  predicate HasText(cells: seq<Cell>) {
    exists i :: 0 <= i < |cells| && cells[i].Text?
  }

  /** The largest whole number of a non-empty set of identifiers. */
  function MaxId(cells: seq<Cell>): (m: int)
    requires Ids(cells) != {}
    ensures m in Ids(cells)
    ensures forall v :: v in Ids(cells) ==> v <= m
    decreases |cells|
  {
    var init, last := cells[..|cells| - 1], cells[|cells| - 1];
    assert cells == init + [last];
    IdsSnoc(init, last);
    if Ids(init) == {} then last.n
    else
      var m := MaxId(init);
      if last.Number? && last.n > m then last.n else m
  }

  lemma IdsSnoc(cells: seq<Cell>, c: Cell)
    ensures Ids(cells + [c]) == Ids(cells) + (if c.Number? then {c.n} else {})
  {
    var all := cells + [c];
    forall v | v in Ids(all) ensures v in Ids(cells) || c == Number(v) {
      var i :| 0 <= i < |all| && all[i].Number? && all[i].n == v;
      if i < |cells| {
        assert all[i] == cells[i];
      }
    }
    forall v | v in Ids(cells) ensures v in Ids(all) {
      var i :| 0 <= i < |cells| && cells[i].Number? && cells[i].n == v;
      assert all[i] == cells[i];
    }
    if c.Number? {
      assert all[|cells|] == c;
    }
  }

  /**
   `max + 1` over an identifier column, or 1 when the sheet cannot be read, has no data rows,
   lacks the column, holds text in it, or has no number in it.
   */
  function NextId(sheet: Sheet, name: String): (v: int)
    ensures sheet.Unreadable? || |sheet.rows| == 0 ==> v == 1
    ensures sheet.Table? && |sheet.rows| > 0 && Lookup(sheet, name).None? ==> v == 1
    ensures Lookup(sheet, name).Some? && |sheet.rows| > 0 ==>
      var col := Lookup(sheet, name).value;
      if HasText(col) || Ids(col) == {} then v == 1
      else v - 1 in Ids(col) && forall x :: x in Ids(col) ==> x < v
  {
    if sheet.Unreadable? || |sheet.rows| == 0 then 1
    else match Lookup(sheet, name)
      case None => 1
      case Some(col) =>
        if HasText(col) || Ids(col) == {} then 1 else MaxId(col) + 1
  }

  /** `get_next_client_id`: the next `№` of the clients sheet. */
  function NextClientId(folder: Sheet): (v: int)
    ensures Lookup(folder, ClientIdColumn).None? ==> v == 1
    ensures Lookup(folder, ClientIdColumn).Some? && !HasText(Lookup(folder, ClientIdColumn).value) ==>
      forall x :: x in Ids(Lookup(folder, ClientIdColumn).value) ==> x < v
  {
    NextId(folder, ClientIdColumn)
  }

  /** `get_next_registry_id`: the next `Номер` of the contracts sheet. */
  function NextRegistryId(registry: Sheet): (v: int)
    ensures Lookup(registry, RegistryIdColumn).None? ==> v == 1
    ensures Lookup(registry, RegistryIdColumn).Some? && !HasText(Lookup(registry, RegistryIdColumn).value) ==>
      forall x :: x in Ids(Lookup(registry, RegistryIdColumn).value) ==> x < v
  {
    NextId(registry, RegistryIdColumn)
  }

  /** An identifier column numbered 1..N gives N + 1. */
  lemma ConsecutiveIds(sheet: Sheet, name: String, n: nat)
    requires Lookup(sheet, name).Some? && n > 0
    requires Lookup(sheet, name).value == seq(n, i => Number(i + 1))
    ensures NextId(sheet, name) == n + 1
  {
    var col := Lookup(sheet, name).value;
    assert col[n - 1].n == n;
    assert n in Ids(col);
    forall i | 0 <= i < |col| ensures !col[i].Text? {
      assert col[i] == Number(i + 1);
    }
  }

  /* ---------------------------------------------------------------- lookup */

  /** The text a cell offers to the search: the VIN column is converted to text, the name columns match only text. */
  function SearchText(c: Cell, asText: bool): Option<String> {
    match c
    case Text(s) => Some(s)
    case Blank => Some([])
    case Number(n) => if asText then Some(IntToString(n)) else None
  }

  /** Case-insensitive substring test of one cell. */
  predicate CellMatches(c: Cell, asText: bool, term: String) {
    var t := SearchText(c, asText);
    t.Some? && Contains(Lower(t.value), Lower(term))
  }

  /** The four searched columns: VIN, surname, first name, patronymic. */
  datatype SearchColumns = SearchColumns(vin: nat, surname: nat, name: nat, patronymic: nat)

  function SearchColumnsOf(header: seq<String>): Option<SearchColumns> {
    var v, s, n, p :=
      ColumnIndex(header, VinColumn), ColumnIndex(header, SurnameColumn),
      ColumnIndex(header, NameColumn), ColumnIndex(header, PatronymicColumn);
    if v.Some? && s.Some? && n.Some? && p.Some? then Some(SearchColumns(v.value, s.value, n.value, p.value))
    else None
  }

  predicate RowMatches(row: Row, cols: SearchColumns, term: String) {
    || CellMatches(CellAt(row, cols.vin), true, term)
    || CellMatches(CellAt(row, cols.surname), false, term)
    || CellMatches(CellAt(row, cols.name), false, term)
    || CellMatches(CellAt(row, cols.patronymic), false, term)
  }

  predicate IsFirstMatch(rows: seq<Row>, i: nat, cols: SearchColumns, term: String) {
    && i < |rows|
    && RowMatches(rows[i], cols, term)
    && forall j :: 0 <= j < i ==> !RowMatches(rows[j], cols, term)
  }

  /** The index of the first matching row. */
  function FirstMatch(rows: seq<Row>, cols: SearchColumns, term: String): (r: Option<nat>)
    ensures r.Some? ==> r.value < |rows| && RowMatches(rows[r.value], cols, term)
    ensures r.Some? ==> forall j :: 0 <= j < r.value ==> !RowMatches(rows[j], cols, term)
    ensures r.None? ==> forall j :: 0 <= j < |rows| ==> !RowMatches(rows[j], cols, term)
  {
    if |rows| == 0 then None
    else if RowMatches(rows[0], cols, term) then Some(0)
    else match FirstMatch(rows[1..], cols, term)
      case None => None
      case Some(k) => Some(k + 1)
  }

  /**
   The row as `fillna("")` leaves it: one cell per header column, an empty text where the
   stored cell is empty or missing, every other cell as stored.
   */
  function FilledRow(header: seq<String>, row: Row): (r: Row)
    ensures |r| == |header|
    ensures forall k :: 0 <= k < |r| ==> !r[k].Blank?
    ensures forall k :: 0 <= k < |r| && !CellAt(row, k).Blank? ==> r[k] == CellAt(row, k)
  {
    seq(|header|, (k: nat) => if CellAt(row, k).Blank? then Text([]) else CellAt(row, k))
  }

  /** Filling empty cells does not change which rows match: an empty cell searches as the empty text. */
  lemma FilledRowMatches(header: seq<String>, row: Row, cols: SearchColumns, term: String)
    requires cols.vin < |header| && cols.surname < |header| && cols.name < |header| && cols.patronymic < |header|
    ensures RowMatches(FilledRow(header, row), cols, term) <==> RowMatches(row, cols, term)
  {
    var f := FilledRow(header, row);
    assert forall k :: 0 <= k < |header| ==> SearchText(f[k], true) == SearchText(CellAt(row, k), true);
    assert forall k :: 0 <= k < |header| ==> SearchText(f[k], false) == SearchText(CellAt(row, k), false);
  }

  /**
   `find_client`: the first row, in storage order, one of whose searched cells contains the term,
   returned with its empty cells filled as `df.fillna("")` does.
   */
  function FindClient(folder: Sheet, term: String): (r: Option<Row>)
    ensures folder.Unreadable? || SearchColumnsOf(folder.header).None? ==> r.None?
    ensures folder.Table? && SearchColumnsOf(folder.header).Some? ==>
      var cols := SearchColumnsOf(folder.header).value;
      && (r.None? <==> forall j :: 0 <= j < |folder.rows| ==> !RowMatches(folder.rows[j], cols, term))
      && (r.Some? ==> exists i: nat :: IsFirstMatch(folder.rows, i, cols, term)
                                      && r.value == FilledRow(folder.header, folder.rows[i]))
  {
    if folder.Unreadable? then None
    else match SearchColumnsOf(folder.header)
      case None => None
      case Some(cols) =>
        match FirstMatch(folder.rows, cols, term)
        case None => None
        case Some(i) => Some(FilledRow(folder.header, folder.rows[i]))
  }

  /** The surname column matches its own surname, whatever its letter case. */
  lemma FindBySurname(folder: Sheet, i: nat, surname: String)
    requires folder.Table? && SearchColumnsOf(folder.header).Some? && i < |folder.rows|
    requires CellAt(folder.rows[i], SearchColumnsOf(folder.header).value.surname) == Text(surname)
    ensures FindClient(folder, Upper(surname)).Some?
  {
    var cols := SearchColumnsOf(folder.header).value;
    LowerUpper(surname);
    ContainsAt(Lower(surname), Lower(Upper(surname)), 0);
    assert RowMatches(folder.rows[i], cols, Upper(surname));
  }

  lemma LowerUpper(s: String)
    ensures Lower(Upper(s)) == Lower(s)
  {
    forall i | 0 <= i < |s| ensures Lower(Upper(s))[i] == Lower(s)[i] {
      ToLowerUpper(s[i]);
    }
  }

  /* ---------------------------------------------------------------- appending rows */

  /**
   `save_client`: the values are appended as one row. A sheet that cannot be opened, or a
   workbook that cannot be written back (`saved` is false), is reported as a failure.
   */
  function SaveClient(folder: Sheet, values: Row, saved: bool): (r: Option<Sheet>)
    ensures r.Some? <==> folder.Table? && saved
    ensures r.Some? ==> r.value.Table? && r.value.header == folder.header
    ensures r.Some? ==> r.value.rows == folder.rows + [values]
  {
    if folder.Unreadable? || !saved then None else Some(Table(folder.header, folder.rows + [values]))
  }

  /** What the contract window records about a new contract. */
  datatype ContractRecord = ContractRecord(
    number: int, fio: String, contractNumber: String, phone: Cell, index: Cell, date: Cell)

  /** The registry row layout: number, full name, contract number, phone, index, date. */
  function RecordRow(rec: ContractRecord): (row: Row)
    ensures |row| == 6
    ensures row[0] == Number(rec.number) && row[1] == Text(rec.fio) && row[2] == Text(rec.contractNumber)
    ensures row[3] == rec.phone && row[4] == rec.index && row[5] == rec.date
  {
    [Number(rec.number), Text(rec.fio), Text(rec.contractNumber), rec.phone, rec.index, rec.date]
  }

  /**
   `save_contract_record`: exactly one row is appended and the earlier rows stay as they were.
   A registry that cannot be opened, or a workbook that cannot be written back (`saved` is
   false), is reported as a failure.
   */
  function SaveContractRecord(registry: Sheet, rec: ContractRecord, saved: bool): (r: Option<Sheet>)
    ensures r.Some? <==> registry.Table? && saved
    ensures r.Some? ==> r.value.Table? && r.value.header == registry.header
    ensures r.Some? ==> |r.value.rows| == |registry.rows| + 1
    ensures r.Some? ==> r.value.rows[..|registry.rows|] == registry.rows
    ensures r.Some? ==> r.value.rows[|registry.rows|] == RecordRow(rec)
  {
    if registry.Unreadable? || !saved then None
    else
      var rows := registry.rows + [RecordRow(rec)];
      assert rows[..|registry.rows|] == registry.rows;
      Some(Table(registry.header, rows))
  }

  /** Appending a row extends every column by that row's cell. */
  lemma ColumnSnoc(rows: seq<Row>, row: Row, k: nat)
    ensures Column(rows + [row], k) == Column(rows, k) + [CellAt(row, k)]
  {
  }

  /** Recording the contract number just handed out, and saving it, makes the next one larger by one. */
  lemma NextContractAfterSave(registry: Sheet, rec: ContractRecord)
    requires registry.Table? && ColumnIndex(registry.header, ContractNumberColumn) == Some(2)
    requires rec.contractNumber == NextContractNumber(registry)
    ensures NextContractValue(SaveContractRecord(registry, rec, true).value) == NextContractValue(registry) + 1
  {
    var v := NextContractValue(registry);
    var rows := registry.rows;
    var col := Column(rows, 2);
    ColumnSnoc(rows, RecordRow(rec), 2);
    ContractNumberRoundTrip(v);
    ParsedValuesSnoc(col, Text(rec.contractNumber));
    var after := SaveContractRecord(registry, rec, true).value;
    assert after.rows == rows + [RecordRow(rec)];
    assert Lookup(after, ContractNumberColumn) == Some(col + [Text(rec.contractNumber)]);
  }

  /** Recording and saving a contract under the registry's next number makes the next number larger by one. */
  lemma NextRegistryIdAfterSave(registry: Sheet, rec: ContractRecord)
    requires registry.Table? && ColumnIndex(registry.header, RegistryIdColumn) == Some(0)
    requires !HasText(Column(registry.rows, 0))
    requires rec.number == NextRegistryId(registry)
    ensures NextRegistryId(SaveContractRecord(registry, rec, true).value) == NextRegistryId(registry) + 1
  {
    var rows := registry.rows;
    var col := Column(rows, 0);
    ColumnSnoc(rows, RecordRow(rec), 0);
    IdsSnoc(col, Number(rec.number));
    var after := SaveContractRecord(registry, rec, true).value;
    assert after.rows == rows + [RecordRow(rec)];
    var col2 := col + [Number(rec.number)];
    assert Lookup(after, RegistryIdColumn) == Some(col2);
    assert col2[|col|] == Number(rec.number);
    assert !HasText(col2);
    assert rec.number in Ids(col2);
  }

  /** Appending and saving a client never changes which row an earlier successful search finds. */
  lemma FindClientAfterSave(folder: Sheet, values: Row, term: String)
    requires FindClient(folder, term).Some?
    ensures FindClient(SaveClient(folder, values, true).value, term) == FindClient(folder, term)
  {
    var cols := SearchColumnsOf(folder.header).value;
    var rows := folder.rows;
    var k := FirstMatch(rows, cols, term).value;
    FirstMatchPrefix(rows, [values], cols, term);
  }

  lemma {:induction false} FirstMatchPrefix(a: seq<Row>, b: seq<Row>, cols: SearchColumns, term: String)
    requires FirstMatch(a, cols, term).Some?
    ensures FirstMatch(a + b, cols, term) == FirstMatch(a, cols, term)
  {
    if !RowMatches(a[0], cols, term) {
      assert (a + b)[1..] == a[1..] + b;
      FirstMatchPrefix(a[1..], b, cols, term);
    }
  }
}
