/** `ExcelExportPipeline`: the in-memory sheet that collects one row per
    item, and the timestamped name of the file it is saved under. */
module Pipeline {
  import opened Wrappers
  import opened Text
  import opened Items

  /** The header row written by `open_spider`. */
  const Header: seq<string> := ["Termo", "Estado", "Cidade", "Bairro", "Nome", "Endereço", "Telefone", "Website"]

  /** The title given to the active worksheet. */
  const SheetTitle: string := "Resultados"

  /** Rows of cells, top to bottom. */
  type Sheet = seq<seq<string>>

  /** The pipeline between `open_spider` and `close_spider`: the active sheet. */
  datatype Exporter = Exporter(sheet: Sheet)

  /** The shape every opened sheet keeps: the header first, eight cells per row. */
  predicate Opened(p: Exporter) {
    && |p.sheet| >= 1
    && p.sheet[0] == Header
    && forall k :: 0 <= k < |p.sheet| ==> |p.sheet[k]| == 8
  }

  /** `open_spider`: a sheet holding the header row and nothing else. */
  function OpenSpider(): (p: Exporter)
    ensures Opened(p)
    ensures |p.sheet| == 1
  {
    Exporter([Header])
  }

  /** The row `process_item` appends for an item: each field in the column
      of its header label, Termo, Estado, Cidade, Bairro, Nome, Endereço,
      Telefone, Website. */
  function ItemRow(it: Item): (row: seq<string>)
    ensures |row| == |Header|
    ensures row[0] == it.term && row[1] == it.state && row[2] == it.city && row[3] == it.neighbourhood
    ensures row[4] == it.name && row[5] == it.address && row[6] == it.phone && row[7] == it.website
  {
    [it.term, it.state, it.city, it.neighbourhood, it.name, it.address, it.phone, it.website]
  }

  /** Reading a row back as an item, column by column under the header. */
  function RowItem(row: seq<string>): (it: Item)
    requires |row| == 8
  {
    Item(row[0], row[1], row[2], row[3], row[4], row[5], row[6], row[7])
  }

  /** Every field written is read back unchanged, and every eight-cell row is
      the row of the item read from it. */
  lemma RowRoundTrip(it: Item, row: seq<string>)
    ensures RowItem(ItemRow(it)) == it
    ensures |row| == 8 ==> ItemRow(RowItem(row)) == row
  {
  }

  /** `process_item`: appends exactly one row, leaves every earlier row as it
      was, and hands the item on unchanged. */
  function ProcessItem(p: Exporter, it: Item): (r: (Exporter, Item))
    ensures r.1 == it
    ensures |r.0.sheet| == |p.sheet| + 1
    ensures r.0.sheet[..|p.sheet|] == p.sheet
    ensures |r.0.sheet[|p.sheet|]| == 8 && RowItem(r.0.sheet[|p.sheet|]) == it
    ensures Opened(p) ==> Opened(r.0)
  {
    (Exporter(p.sheet + [ItemRow(it)]), it)
  }

  /** `process_item` called on each item in turn. */
  function ProcessAll(p: Exporter, items: seq<Item>): (q: Exporter)
    ensures |q.sheet| == |p.sheet| + |items|
    ensures q.sheet[..|p.sheet|] == p.sheet
    ensures forall k :: 0 <= k < |items| ==> q.sheet[|p.sheet| + k] == ItemRow(items[k])
    ensures Opened(p) ==> Opened(q)
    decreases |items|
  {
    if |items| == 0 then p
    else
      var q := ProcessAll(ProcessItem(p, items[0]).0, items[1..]);
      assert forall k :: 1 <= k < |items| ==> items[k] == items[1..][k - 1];
      q
  }

  /** The items stored in the data rows of an opened sheet, top to bottom. */
  function DataItems(sheet: Sheet): (items: seq<Item>)
    requires forall k :: 0 <= k < |sheet| ==> |sheet[k]| == 8
    ensures |items| == if |sheet| == 0 then 0 else |sheet| - 1
    ensures forall k :: 0 <= k < |items| ==> ItemRow(items[k]) == sheet[k + 1]
  {
    if |sheet| <= 1 then [] else DataItems(sheet[..|sheet| - 1]) + [RowItem(sheet[|sheet| - 1])]
  }

  /** After `open_spider` and n calls of `process_item` the sheet holds the
      header and n rows, and reading the rows back gives the items in the
      order they were submitted. */
  lemma SheetReadBack(items: seq<Item>)
    ensures var q := ProcessAll(OpenSpider(), items);
      && |q.sheet| == 1 + |items|
      && q.sheet[0] == Header
      && DataItems(q.sheet) == items
  {
  }

  /** A wall-clock reading, as `datetime.now()` gives it. */
  datatype Timestamp = Timestamp(year: nat, month: nat, day: nat, hour: nat, minute: nat, second: nat)

  predicate IsLeapYear(y: nat) {
    y % 4 == 0 && (y % 100 != 0 || y % 400 == 0)
  }

  function DaysInMonth(y: nat, m: nat): (days: nat)
    requires 1 <= m <= 12
  {
    if m == 2 then (if IsLeapYear(y) then 29 else 28)
    else if m == 4 || m == 6 || m == 9 || m == 11 then 30
    else 31
  }

  /** A real date and time of day with a four-digit year. */
  predicate ValidTimestamp(t: Timestamp) {
    && 1000 <= t.year <= 9999
    && 1 <= t.month <= 12
    && 1 <= t.day <= DaysInMonth(t.year, t.month)
    && t.hour < 24 && t.minute < 60 && t.second < 60
  }

  /** `strftime("%Y%m%d")`. */
  function DatePart(t: Timestamp): (date: string)
    requires ValidTimestamp(t)
    ensures |date| == 8 && AllDigits(date)
  {
    PadFields(t.year, 4, t.month, 2, t.day, 2)
  }

  /** `strftime("%H%M%S")`. */
  function TimePart(t: Timestamp): (time: string)
    requires ValidTimestamp(t)
    ensures |time| == 6 && AllDigits(time)
  {
    PadFields(t.hour, 2, t.minute, 2, t.second, 2)
  }

  /** `leads_` + date + `_` + time + `.xlsx`. */
  function Name(date: string, time: string): (name: string) {
    "leads_" + date + "_" + time + ".xlsx"
  }

  /** The layout of a name: where each part sits. */
  predicate NameShaped(name: string) {
    && |name| == 26
    && name[..6] == "leads_" && name[14] == '_' && name[21..] == ".xlsx"
  }

  /** An eight-digit date and six-digit time sit at 6..14 and 15..21. */
  lemma NameLayout(date: string, time: string)
    requires |date| == 8 && |time| == 6
    ensures var name := Name(date, time);
      NameShaped(name) && name[6..14] == date && name[15..21] == time
  {
    var name := Name(date, time);
    assert name[..6] == "leads_";
    assert name[21..] == ".xlsx";
  }

  /** A shaped name is rebuilt from the text at 6..14 and 15..21. */
  lemma NameFromLayout(name: string)
    requires NameShaped(name)
    ensures Name(name[6..14], name[15..21]) == name
  {
    assert name == name[..6] + name[6..14] + [name[14]] + name[15..21] + name[21..];
  }

  /** The name `close_spider` saves under: `leads_YYYYMMDD_HHMMSS.xlsx`. */
  function FileName(t: Timestamp): (name: string)
    requires ValidTimestamp(t)
    ensures NameShaped(name)
    ensures AllDigits(name[6..14]) && AllDigits(name[15..21])
  {
    NameLayout(DatePart(t), TimePart(t));
    Name(DatePart(t), TimePart(t))
  }

  /** Recovers the timestamp from an output file name, if it is one. */
  function ParseFileName(name: string): (t: Option<Timestamp>) {
    if NameShaped(name) && AllDigits(name[6..14]) && AllDigits(name[15..21]) then
      var date := FieldValues(name[6..14], 4, 2);
      var time := FieldValues(name[15..21], 2, 2);
      var t := Timestamp(date.0, date.1, date.2, time.0, time.1, time.2);
      if ValidTimestamp(t) then Some(t) else None
    else None
  }

  /** The file name determines the timestamp it was made from. */
  lemma FileNameRoundTrip(t: Timestamp)
    requires ValidTimestamp(t)
    ensures ParseFileName(FileName(t)) == Some(t)
  {
    NameLayout(DatePart(t), TimePart(t));
    FieldsRoundTrip(t.year, 4, t.month, 2, t.day, 2);
    FieldsRoundTrip(t.hour, 2, t.minute, 2, t.second, 2);
  }

  /** Every name that parses is the file name of the timestamp it parses to. */
  lemma FileNameComplete(name: string, t: Timestamp)
    requires ParseFileName(name) == Some(t)
    ensures ValidTimestamp(t) && FileName(t) == name
  {
    FieldsComplete(name[6..14], 4, 2);
    FieldsComplete(name[15..21], 2, 2);
    NameFromLayout(name);
  }

  /** Distinct timestamps give distinct file names. */
  lemma FileNameInjective(t1: Timestamp, t2: Timestamp)
    requires ValidTimestamp(t1) && ValidTimestamp(t2)
    requires FileName(t1) == FileName(t2)
    ensures t1 == t2
  {
    FileNameRoundTrip(t1);
    FileNameRoundTrip(t2);
  }

  /** 2025-10-04 14:30:45 gives `leads_20251004_143045.xlsx`. */
  lemma FileNameExample()
    ensures FileName(Timestamp(2025, 10, 4, 14, 30, 45)) == "leads_20251004_143045.xlsx"
  {
  }

  /** The saved workbook: its file name, the sheet's title and its rows. */
  datatype OutputFile = OutputFile(name: string, title: string, rows: Sheet)

  /** `close_spider`: one file, named from the timestamp, holding the sheet as
      it stands — the header alone when no item was processed. */
  function CloseSpider(p: Exporter, now: Timestamp): (f: OutputFile)
    requires ValidTimestamp(now)
    ensures ParseFileName(f.name) == Some(now)
    ensures f.title == SheetTitle
    ensures f.rows == p.sheet
  {
    FileNameRoundTrip(now);
    OutputFile(FileName(now), SheetTitle, p.sheet)
  }
}
