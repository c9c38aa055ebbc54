/**
 The CSV layout `writeCSV` produces: the fixed header, then one line per row in
 list order, each with eleven comma-separated fields in the order scale,
 timestamp, the three durations, the three CPU samples, the three memory
 samples. Durations go through `%.4f` and samples through `%.2f`, under a
 locale whose decimal separator is '.'. A parser for the same layout shows
 that only the `%.2f` rounding loses information, and a lookup by header name,
 as the plotting scripts read the file, finds each value under its own column.
 */
module Csv {
  import opened Results
  import opened Decimal
  import opened Text
  import opened Recorder

  /** The eleven column names, in the order `writeCSV` prints them. */
  const Columns: seq<string> := ["scale", "timestamp", "add_ms", "update_ms", "delete_ms",
                                 "add_cpu", "update_cpu", "delete_cpu", "add_mem", "update_mem", "delete_mem"]

  /** The header line `writeCSV` prints first: the column names joined with commas. */
  const Header: string := Join(Columns)

  /** The header line splits into exactly the eleven column names. */
  lemma HeaderColumns()
    ensures Split(Header) == Columns
    ensures |Split(Header)| == 11
  {
    assert NoComma(Columns);
    SplitJoin(Columns);
  }

  // ---------- %.4f of a whole number of milliseconds ----------

  /** `%.4f` of a duration: `long` milliseconds, stored as a `double`, always a whole number. */
  function FormatMs(ms: int): string {
    IntToString(ms) + ".0000"
  }

  /** Reads a `%.4f` spelling of a whole number back. */
  function ParseMs(s: string): Option<int> {
    if 5 <= |s| && s[|s| - 5..] == ".0000" then ParseInt(s[..|s| - 5]) else None
  }

  lemma MsRoundTrip(ms: int)
    ensures ParseMs(FormatMs(ms)) == Some(ms)
  {
    var s := FormatMs(ms);
    assert s[..|s| - 5] == IntToString(ms);
    assert s[|s| - 5..] == ".0000";
    ParseIntRoundTrip(ms);
  }

  // ---------- %.2f of a sample ----------

  /** `|x|` in hundredths, rounded half up: the digits `%.2f` prints. */
  function Cents(x: real): (c: nat)
    ensures c as real <= (if x < 0.0 then -x else x) * 100.0 + 0.5 < c as real + 1.0
  {
    ((if x < 0.0 then -x else x) * 100.0 + 0.5).Floor
  }

  /** A count of hundredths as `%.2f` spells it: the whole part, '.', and two decimals. */
  function Unsigned2(c: nat): string {
    var d := c % 100;
    NatToDigits(c / 100) + "." + [DigitChar(d / 10), DigitChar(d % 10)]
  }

  /** `%.2f`: a '-' for a negative value, then the rounded magnitude. */
  function Fixed2(x: real): string {
    (if x < 0.0 then "-" else "") + Unsigned2(Cents(x))
  }

  /** The value the `%.2f` spelling of `x` denotes. */
  function Rounded(x: real): (r: real)
    ensures 0.0 <= x ==> -0.005 <= x - r < 0.005
    ensures x < 0.0 ==> -0.005 < x - r <= 0.005
  {
    var c := Cents(x);
    if x < 0.0 then -(c as real / 100.0) else c as real / 100.0
  }

  /** Reads a `%.2f` spelling back: optional '-', digits, '.', two digits. */
  function ParseFixed2(s: string): Option<real> {
    var neg := 0 < |s| && s[0] == '-';
    var body := if neg then s[1..] else s;
    if 4 <= |body| && body[|body| - 3] == '.' && AllDigits(body[..|body| - 3]) && AllDigits(body[|body| - 2..]) then
      var v := DigitsValue(body[..|body| - 3]) as real + DigitsValue(body[|body| - 2..]) as real / 100.0;
      Some(if neg then -v else v)
    else None
  }

  /** The two decimals of `%.2f` spell the hundredths they stand for. */
  lemma TwoDigits(d: nat)
    requires d < 100
    ensures AllDigits([DigitChar(d / 10), DigitChar(d % 10)])
    ensures DigitsValue([DigitChar(d / 10), DigitChar(d % 10)]) == d
  {
    var tail := [DigitChar(d / 10), DigitChar(d % 10)];
    assert tail[..1] == [DigitChar(d / 10)];
    assert tail[..1][..0] == [];
    assert DigitsValue(tail[..1]) == d / 10;
  }

  lemma CentsSplit(c: nat)
    ensures (c / 100) as real + (c % 100) as real / 100.0 == c as real / 100.0
  {
    assert c == (c / 100) * 100 + c % 100;
  }

  /** Where the parts of an unsigned spelling sit. */
  lemma Unsigned2Shape(c: nat)
    ensures var u := Unsigned2(c);
            4 <= |u| && u[|u| - 3] == '.' && IsDigit(u[0]) &&
            AllDigits(u[..|u| - 3]) && AllDigits(u[|u| - 2..]) &&
            DigitsValue(u[..|u| - 3]) as real + DigitsValue(u[|u| - 2..]) as real / 100.0 == c as real / 100.0
  {
    var u := Unsigned2(c);
    var whole := NatToDigits(c / 100);
    var d := c % 100;
    var tail := [DigitChar(d / 10), DigitChar(d % 10)];
    assert u == whole + "." + tail;
    assert u[..|u| - 3] == whole;
    assert u[|u| - 2..] == tail;
    assert u[0] == whole[0];
    TwoDigits(d);
    CentsSplit(c);
  }

  lemma ParseUnsigned2(c: nat)
    ensures ParseFixed2(Unsigned2(c)) == Some(c as real / 100.0)
  {
    Unsigned2Shape(c);
  }

  lemma ParseNegative2(c: nat)
    ensures ParseFixed2("-" + Unsigned2(c)) == Some(-(c as real / 100.0))
  {
    Unsigned2Shape(c);
    assert ("-" + Unsigned2(c))[1..] == Unsigned2(c);
  }

  /** Reading back a `%.2f` spelling gives the sample rounded to hundredths, half away from zero. */
  lemma Fixed2RoundTrip(x: real)
    ensures ParseFixed2(Fixed2(x)) == Some(Rounded(x))
  {
    var c := Cents(x);
    if x < 0.0 {
      assert Fixed2(x) == "-" + Unsigned2(c);
      assert Rounded(x) == -(c as real / 100.0);
      ParseNegative2(c);
    } else {
      assert Fixed2(x) == Unsigned2(c);
      assert Rounded(x) == c as real / 100.0;
      ParseUnsigned2(c);
    }
  }

  /** A value already in hundredths, such as the sentinel -1.0 or the default 0.0, is printed exactly. */
  lemma SentinelSurvives()
    ensures Rounded(-1.0) == -1.0 && Rounded(0.0) == 0.0
  {
    assert Cents(-1.0) == 100;
    assert Cents(0.0) == 0;
  }

  lemma Unsigned2NoComma(c: nat)
    ensures ',' !in Unsigned2(c)
  {
    var whole := NatToDigits(c / 100);
    var d := c % 100;
    var u := Unsigned2(c);
    assert u == whole + "." + [DigitChar(d / 10), DigitChar(d % 10)];
    forall i | 0 <= i < |u|
      ensures u[i] != ','
    {
      if i < |whole| {
        assert u[i] == whole[i];
      }
    }
  }

  lemma Fixed2NoComma(x: real)
    ensures ',' !in Fixed2(x)
  {
    Unsigned2NoComma(Cents(x));
    var s := Fixed2(x);
    var sign := if x < 0.0 then "-" else "";
    forall i | 0 <= i < |s|
      ensures s[i] != ','
    {
      if |sign| <= i {
        assert s[i] == Unsigned2(Cents(x))[i - |sign|];
      }
    }
  }


  // ---------- rows ----------

  /** The eleven converted `printf` arguments of a data line, each under the name of the value it spells. */
  datatype Texts = Texts(scale: string, timestamp: string,
                         addMs: string, updateMs: string, deleteMs: string,
                         addCpu: string, updateCpu: string, deleteCpu: string,
                         addMem: string, updateMem: string, deleteMem: string)

  /** The conversions of `writeCSV`: `%d` for scale and timestamp, `%.4f` for durations, `%.2f` for samples. */
  function Convert(r: Row): Texts {
    Texts(IntToString(r.scale), IntToString(r.timestamp),
          FormatMs(r.add.ms), FormatMs(r.update.ms), FormatMs(r.delete.ms),
          Fixed2(r.add.cpu), Fixed2(r.update.cpu), Fixed2(r.delete.cpu),
          Fixed2(r.add.mem), Fixed2(r.update.mem), Fixed2(r.delete.mem))
  }

  /** The order in which the format string places the converted arguments. */
  function InOrder(t: Texts): (fs: seq<string>)
    ensures |fs| == |Columns|
  {
    [t.scale, t.timestamp, t.addMs, t.updateMs, t.deleteMs,
     t.addCpu, t.updateCpu, t.deleteCpu, t.addMem, t.updateMem, t.deleteMem]
  }

  /** The eleven fields of a data line. */
  function RowFields(r: Row): (fs: seq<string>)
    ensures |fs| == |Columns|
  {
    InOrder(Convert(r))
  }

  /** One `printf` line of `writeCSV`, without the line separator. */
  function FormatRow(r: Row): string {
    Join(RowFields(r))
  }

  /** What a reader of the file recovers of a row: everything, with the samples rounded to hundredths. */
  function Recovered(r: Row): Row {
    Row(r.scale, r.timestamp,
        Phase(r.add.ms, Rounded(r.add.cpu), Rounded(r.add.mem)),
        Phase(r.update.ms, Rounded(r.update.cpu), Rounded(r.update.mem)),
        Phase(r.delete.ms, Rounded(r.delete.cpu), Rounded(r.delete.mem)))
  }

  /** Parses one data line; `None` unless it has eleven fields of the right shapes. */
  function ParseRow(line: string): Option<Row> {
    var fs := Split(line);
    if |fs| != 11 then None
    else
      match (ParseInt(fs[0]), ParseInt(fs[1]), ParseMs(fs[2]), ParseMs(fs[3]), ParseMs(fs[4]))
      case (Some(scale), Some(ts), Some(addMs), Some(updateMs), Some(deleteMs)) =>
        (match (ParseFixed2(fs[5]), ParseFixed2(fs[6]), ParseFixed2(fs[7]),
                ParseFixed2(fs[8]), ParseFixed2(fs[9]), ParseFixed2(fs[10]))
         case (Some(ac), Some(uc), Some(dc), Some(am), Some(um), Some(dm)) =>
           Some(Row(scale, ts, Phase(addMs, ac, am), Phase(updateMs, uc, um), Phase(deleteMs, dc, dm)))
         case _ => None)
      case _ => None
  }

  lemma MsNoComma(ms: int)
    ensures ',' !in FormatMs(ms)
  {
    IntToStringNoComma(ms);
  }

  /** Every data line has exactly eleven comma-separated fields, whatever the row holds. */
  lemma RowHasElevenFields(r: Row)
    ensures Split(FormatRow(r)) == RowFields(r)
    ensures |Split(FormatRow(r))| == 11
  {
    var t := Convert(r);
    IntToStringNoComma(r.scale);
    IntToStringNoComma(r.timestamp);
    MsNoComma(r.add.ms);
    MsNoComma(r.update.ms);
    MsNoComma(r.delete.ms);
    Fixed2NoComma(r.add.cpu);
    Fixed2NoComma(r.update.cpu);
    Fixed2NoComma(r.delete.cpu);
    Fixed2NoComma(r.add.mem);
    Fixed2NoComma(r.update.mem);
    Fixed2NoComma(r.delete.mem);
    InOrderNoComma(t);
    SplitJoin(InOrder(t));
  }

  /** The fields of a line are comma-free when each converted argument is. */
  lemma InOrderNoComma(t: Texts)
    requires ',' !in t.scale && ',' !in t.timestamp
    requires ',' !in t.addMs && ',' !in t.updateMs && ',' !in t.deleteMs
    requires ',' !in t.addCpu && ',' !in t.updateCpu && ',' !in t.deleteCpu
    requires ',' !in t.addMem && ',' !in t.updateMem && ',' !in t.deleteMem
    ensures NoComma(InOrder(t))
  {
  }

  /** A data line parses back to its row, with the samples rounded as `%.2f` rounds them. */
  lemma RowRoundTrip(r: Row)
    ensures ParseRow(FormatRow(r)) == Some(Recovered(r))
  {
    RowHasElevenFields(r);
    ParseIntRoundTrip(r.scale);
    ParseIntRoundTrip(r.timestamp);
    MsRoundTrip(r.add.ms);
    MsRoundTrip(r.update.ms);
    MsRoundTrip(r.delete.ms);
    Fixed2RoundTrip(r.add.cpu);
    Fixed2RoundTrip(r.update.cpu);
    Fixed2RoundTrip(r.delete.cpu);
    Fixed2RoundTrip(r.add.mem);
    Fixed2RoundTrip(r.update.mem);
    Fixed2RoundTrip(r.delete.mem);
  }

  // ---------- columns by name ----------

  /** The eleven columns of a metrics file, as a reader names them. */
  datatype Column = Scale | Timestamp | AddMs | UpdateMs | DeleteMs
                  | AddCpu | UpdateCpu | DeleteCpu | AddMem | UpdateMem | DeleteMem

  /** The header name of a column. */
  function Name(c: Column): string {
    match c
    case Scale => "scale"
    case Timestamp => "timestamp"
    case AddMs => "add_ms"
    case UpdateMs => "update_ms"
    case DeleteMs => "delete_ms"
    case AddCpu => "add_cpu"
    case UpdateCpu => "update_cpu"
    case DeleteCpu => "delete_cpu"
    case AddMem => "add_mem"
    case UpdateMem => "update_mem"
    case DeleteMem => "delete_mem"
  }

  /** The converted argument a column's name stands for. */
  function Under(c: Column, t: Texts): string {
    match c
    case Scale => t.scale
    case Timestamp => t.timestamp
    case AddMs => t.addMs
    case UpdateMs => t.updateMs
    case DeleteMs => t.deleteMs
    case AddCpu => t.addCpu
    case UpdateCpu => t.updateCpu
    case DeleteCpu => t.deleteCpu
    case AddMem => t.addMem
    case UpdateMem => t.updateMem
    case DeleteMem => t.deleteMem
  }

  /** The text of a row's value in a column: what a data line must hold under that column's name. */
  function ColumnText(c: Column, r: Row): string {
    match c
    case Scale => IntToString(r.scale)
    case Timestamp => IntToString(r.timestamp)
    case AddMs => FormatMs(r.add.ms)
    case UpdateMs => FormatMs(r.update.ms)
    case DeleteMs => FormatMs(r.delete.ms)
    case AddCpu => Fixed2(r.add.cpu)
    case UpdateCpu => Fixed2(r.update.cpu)
    case DeleteCpu => Fixed2(r.delete.cpu)
    case AddMem => Fixed2(r.add.mem)
    case UpdateMem => Fixed2(r.update.mem)
    case DeleteMem => Fixed2(r.delete.mem)
  }

  /** Each converted argument of a data line is the text its column's name stands for. */
  lemma ConvertNamed(r: Row, c: Column)
    ensures Under(c, Convert(r)) == ColumnText(c, r)
  {
  }

  /** The first position of `name` among `names`, or `None` when it is not there. */
  function IndexOf(names: seq<string>, name: string): (r: Option<nat>)
    ensures r.Some? ==> r.value < |names| && names[r.value] == name
    ensures r.Some? ==> forall j :: 0 <= j < r.value ==> names[j] != name
    ensures r.None? <==> name !in names
  {
    if |names| == 0 then None
    else if names[0] == name then Some(0)
    else match IndexOf(names[1..], name)
      case None => None
      case Some(i) => Some(i + 1)
  }

  /** The field of `line` under the header column called `name`, as a reader that indexes by name finds it. */
  function Lookup(header: string, line: string, name: string): Option<string> {
    match IndexOf(Split(header), name)
    case None => None
    case Some(i) =>
      var fs := Split(line);
      if i < |fs| then Some(fs[i]) else None
  }

  /** Where each column sits in the header. */
  function Position(c: Column): nat {
    match c
    case Scale => 0
    case Timestamp => 1
    case AddMs => 2
    case UpdateMs => 3
    case DeleteMs => 4
    case AddCpu => 5
    case UpdateCpu => 6
    case DeleteCpu => 7
    case AddMem => 8
    case UpdateMem => 9
    case DeleteMem => 10
  }

  /** Looking a column up by its header name in a data line gives that column's value of the row. */
  lemma ColumnsByName(r: Row, c: Column)
    ensures Lookup(Header, FormatRow(r), Name(c)) == Some(ColumnText(c, r))
  {
    HeaderColumns();
    RowHasElevenFields(r);
    HeaderFinds(c);
    FieldAt(Convert(r), c);
    ConvertNamed(r, c);
  }

  /** Each column's name is in the header at its position, and nowhere else. */
  lemma NameAt(c: Column)
    ensures Position(c) < |Columns| && Columns[Position(c)] == Name(c)
    ensures forall j :: 0 <= j < |Columns| && Columns[j] == Name(c) ==> j == Position(c)
  {
  }

  /** The header lookup of a column's name stops at that column's position. */
  lemma HeaderFinds(c: Column)
    ensures IndexOf(Columns, Name(c)) == Some(Position(c))
  {
    NameAt(c);
  }

  /** The format string places each converted argument at the position its column's name has in the header. */
  lemma FieldAt(t: Texts, c: Column)
    ensures InOrder(t)[Position(c)] == Under(c, t)
  {
  }

  /** A name that is not a column is found in no data line. */
  lemma UnknownColumn(r: Row, name: string)
    requires name !in Columns
    ensures Lookup(Header, FormatRow(r), name) == None
  {
    HeaderColumns();
  }

  // ---------- the file ----------

  function DataLines(rows: seq<Row>): (ls: seq<string>)
    ensures |ls| == |rows|
  {
    if |rows| == 0 then [] else [FormatRow(rows[0])] + DataLines(rows[1..])
  }

  /** The lines `writeCSV` prints: the header, then one line per row, in list order. */
  function CsvLines(rows: seq<Row>): (ls: seq<string>)
    ensures |ls| == |rows| + 1 && ls[0] == Header
  {
    [Header] + DataLines(rows)
  }

  function ParseRows(lines: seq<string>): Option<seq<Row>> {
    if |lines| == 0 then Some([])
    else
      match (ParseRow(lines[0]), ParseRows(lines[1..]))
      case (Some(r), Some(rs)) => Some([r] + rs)
      case _ => None
  }

  /** Reads a metrics file back: the header line, then one row per line. */
  function ParseCsv(lines: seq<string>): Option<seq<Row>> {
    if |lines| == 0 || lines[0] != Header then None else ParseRows(lines[1..])
  }

  function RecoveredAll(rows: seq<Row>): (rs: seq<Row>)
    ensures |rs| == |rows|
    ensures forall i :: 0 <= i < |rows| ==> rs[i] == Recovered(rows[i])
  {
    if |rows| == 0 then [] else [Recovered(rows[0])] + RecoveredAll(rows[1..])
  }

  /**
   Reading back what `writeCSV` wrote yields every row, in insertion order,
   with scales, timestamps and durations exact and samples rounded to hundredths.
   */
  lemma {:induction false} CsvRoundTrip(rows: seq<Row>)
    ensures ParseCsv(CsvLines(rows)) == Some(RecoveredAll(rows))
  {
    assert CsvLines(rows)[1..] == DataLines(rows);
    DataRoundTrip(rows);
  }

  lemma {:induction false} DataRoundTrip(rows: seq<Row>)
    ensures ParseRows(DataLines(rows)) == Some(RecoveredAll(rows))
    decreases |rows|
  {
    if 0 < |rows| {
      var ls := DataLines(rows);
      assert ls[0] == FormatRow(rows[0]) && ls[1..] == DataLines(rows[1..]);
      RowRoundTrip(rows[0]);
      DataRoundTrip(rows[1..]);
    }
  }
}
